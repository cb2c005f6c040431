/** The scanning half of `syncCache` (`lib/cache.js`): blocks from the cursor
    to the chain head are fetched in windows of twenty, every fetched block
    and every transaction in it is appended to the cache, and the receipt of
    every contract creation is consulted for the created address. */
module CacheScan {
  import opened Wrappers
  import opened Chain
  import opened CacheStore
  import opened BlockScan

  /** The cache under construction together with `newContracts`, the
      addresses first seen during this sync. */
  datatype ScanState = ScanState(cache: CacheState, newContracts: seq<Address>)

  // ------------------------------------------------------ specification

  /** One transaction of a fetched block: its summary is pushed, and a
      created contract not yet in `contracts` is pushed there and onto
      `newContracts`. */
  function RecordTx(st: ScanState, node: Node, blk: Block, tx: Tx): ScanState {
    var c := st.cache.(transactions := st.cache.transactions + [SummarizeTx(tx, blk)]);
    var created := CreatedBy(node, tx.hash, tx.to);
    if created.Some? && created.value !in c.contracts then
      ScanState(c.(contracts := c.contracts + [created.value]), st.newContracts + [created.value])
    else
      ScanState(c, st.newContracts)
  }

  function RecordTxs(st: ScanState, node: Node, blk: Block, txs: seq<Tx>): ScanState
    decreases |txs|
  {
    if txs == [] then st
    else RecordTx(RecordTxs(st, node, blk, txs[..|txs| - 1]), node, blk, txs[|txs| - 1])
  }

  /** A fetched block: its summary, then its transactions in order. */
  function RecordBlock(st: ScanState, node: Node, blk: Block): ScanState {
    RecordTxs(st.(cache := st.cache.(blocks := st.cache.blocks + [SummarizeBlock(blk)])), node, blk, TxsOf(blk))
  }

  /** `if (block)`: a missing block and a failed fetch are both skipped. */
  function Visit(st: ScanState, node: Node, f: Fetch): ScanState {
    if f.Found? then RecordBlock(st, node, f.block) else st
  }

  /** Visiting blocks `lo .. hi - 1` in ascending order. */
  function ScanRange(st: ScanState, node: Node, lo: int, hi: int): ScanState
    decreases hi - lo
  {
    if hi <= lo then st else Visit(ScanRange(st, node, lo, hi - 1), node, node.blockAt(hi - 1))
  }

  /** The addresses that the receipts name as created by the given transactions. */
  ghost function Created(node: Node, txs: seq<TxSummary>): set<Address> {
    set t | t in txs && CreatedBy(node, t.hash, t.to).Some? :: CreatedBy(node, t.hash, t.to).value
  }

  /** How a scan from `st` to `r` changes the cache: exactly `blocks` and
      `txs` are appended, the addresses pushed onto `contracts` are exactly
      those pushed onto `newContracts`, `contracts` stays free of
      duplicates and ends up holding the old contracts plus every created
      address, and nothing else changes. */
  ghost predicate ScanStep(st: ScanState, r: ScanState, node: Node, blocks: seq<BlockSummary>, txs: seq<TxSummary>) {
    var n := |st.newContracts|;
    && r.cache.blocks == st.cache.blocks + blocks
    && r.cache.transactions == st.cache.transactions + txs
    && r.cache.(blocks := st.cache.blocks, transactions := st.cache.transactions, contracts := st.cache.contracts) == st.cache
    && n <= |r.newContracts| && r.newContracts[..n] == st.newContracts
    && r.cache.contracts == st.cache.contracts + r.newContracts[n..]
    && (NoDuplicates(st.cache.contracts) ==> NoDuplicates(r.cache.contracts))
    && (forall a :: a in r.cache.contracts <==> a in st.cache.contracts || a in Created(node, txs))
  }

  // ------------------------------------------------------ lemmas

  lemma {:induction false} ScanStepRefl(st: ScanState, node: Node)
    ensures ScanStep(st, st, node, [], [])
  {
    assert st.newContracts[|st.newContracts|..] == [];
  }

  lemma {:induction false} ScanStepTrans(a: ScanState, b: ScanState, c: ScanState, node: Node,
                      b1: seq<BlockSummary>, t1: seq<TxSummary>, b2: seq<BlockSummary>, t2: seq<TxSummary>)
    requires ScanStep(a, b, node, b1, t1) && ScanStep(b, c, node, b2, t2)
    ensures ScanStep(a, c, node, b1 + b2, t1 + t2)
  {
    var n, m := |a.newContracts|, |b.newContracts|;
    PrefixTrans(a.newContracts, b.newContracts, c.newContracts);
    AppendAssoc(a.cache.blocks, b1, b2);
    AppendAssoc(a.cache.transactions, t1, t2);
    AppendAssoc(a.cache.contracts, b.newContracts[n..], c.newContracts[m..]);
    CreatedAppend(node, t1, t2);
  }

  /** Extending a prefix twice extends it once by both suffixes. */
  lemma {:induction false} PrefixTrans<T>(x: seq<T>, y: seq<T>, z: seq<T>)
    requires |x| <= |y| <= |z| && y[..|x|] == x && z[..|y|] == y
    ensures z[..|x|] == x && z[|x|..] == y[|x|..] + z[|y|..]
  {
    assert z[..|x|] == z[..|y|][..|x|];
    assert z == z[..|y|] + z[|y|..];
  }

  lemma {:induction false} CreatedAppend(node: Node, t1: seq<TxSummary>, t2: seq<TxSummary>)
    ensures Created(node, t1 + t2) == Created(node, t1) + Created(node, t2)
  {
    forall t ensures t in t1 + t2 <==> t in t1 || t in t2 {
    }
  }

  lemma {:induction false} RecordTxStep(st: ScanState, node: Node, blk: Block, tx: Tx)
    ensures ScanStep(st, RecordTx(st, node, blk, tx), node, [], [SummarizeTx(tx, blk)])
  {
    var r := RecordTx(st, node, blk, tx);
    var n := |st.newContracts|;
    var s := SummarizeTx(tx, blk);
    assert st.cache.blocks + [] == st.cache.blocks;
    assert s in [s];
    var created := CreatedBy(node, tx.hash, tx.to);
    if created.Some? && created.value !in st.cache.contracts {
      assert r.newContracts[n..] == [created.value];
      assert Created(node, [s]) == {created.value};
    } else {
      assert r.newContracts[n..] == [];
      assert r.cache.contracts == st.cache.contracts + r.newContracts[n..];
      assert Created(node, [s]) <= set a | a in st.cache.contracts;
    }
  }

  lemma {:induction false} RecordTxsStep(st: ScanState, node: Node, blk: Block, txs: seq<Tx>)
    ensures ScanStep(st, RecordTxs(st, node, blk, txs), node, [], SummarizeAll(txs, blk))
    decreases |txs|
  {
    if txs == [] {
      ScanStepRefl(st, node);
    } else {
      var init := txs[..|txs| - 1];
      var mid := RecordTxs(st, node, blk, init);
      RecordTxsStep(st, node, blk, init);
      RecordTxStep(mid, node, blk, txs[|txs| - 1]);
      ScanStepTrans(st, mid, RecordTx(mid, node, blk, txs[|txs| - 1]), node,
                    [], SummarizeAll(init, blk), [], [SummarizeTx(txs[|txs| - 1], blk)]);
    }
  }

  lemma {:induction false} RecordBlockStep(st: ScanState, node: Node, blk: Block)
    ensures ScanStep(st, RecordBlock(st, node, blk), node, [SummarizeBlock(blk)], SummarizeAll(TxsOf(blk), blk))
  {
    var mid := st.(cache := st.cache.(blocks := st.cache.blocks + [SummarizeBlock(blk)]));
    assert ScanStep(st, mid, node, [SummarizeBlock(blk)], []) by {
      assert mid.newContracts[|st.newContracts|..] == [];
      assert st.cache.transactions + [] == st.cache.transactions;
    }
    RecordTxsStep(mid, node, blk, TxsOf(blk));
    ScanStepTrans(st, mid, RecordBlock(st, node, blk), node,
                  [SummarizeBlock(blk)], [], [], SummarizeAll(TxsOf(blk), blk));
  }

  /** A scan of `lo .. hi - 1` appends exactly the fetched blocks and their
      transactions, and grows `contracts` exactly by the created addresses. */
  lemma {:induction false} ScanRangeStep(st: ScanState, node: Node, lo: int, hi: int)
    ensures ScanStep(st, ScanRange(st, node, lo, hi), node,
                     Summaries(FoundBlocks(node, lo, hi)), AllTxs(FoundBlocks(node, lo, hi)))
    decreases hi - lo
  {
    if hi <= lo {
      ScanStepRefl(st, node);
    } else {
      var mid := ScanRange(st, node, lo, hi - 1);
      var prev := FoundBlocks(node, lo, hi - 1);
      ScanRangeStep(st, node, lo, hi - 1);
      var f := node.blockAt(hi - 1);
      if f.Found? {
        var bs := prev + [f.block];
        assert bs[..|bs| - 1] == prev;
        RecordBlockStep(mid, node, f.block);
        ScanStepTrans(st, mid, ScanRange(st, node, lo, hi), node,
                      Summaries(prev), AllTxs(prev), [SummarizeBlock(f.block)], SummarizeAll(TxsOf(f.block), f.block));
      } else {
        assert FoundBlocks(node, lo, hi) == prev;
      }
    }
  }

  /** A scan of a range reads only the blocks in that range: two nodes that
      agree on them (and on receipts) give the same result, which is why an
      incremental sync never re-scans old blocks. */
  lemma {:induction false} ScanRangeFrame(st: ScanState, n1: Node, n2: Node, lo: int, hi: int)
    requires forall b :: lo <= b < hi ==> n1.blockAt(b) == n2.blockAt(b)
    requires n1.receipt == n2.receipt
    ensures ScanRange(st, n1, lo, hi) == ScanRange(st, n2, lo, hi)
    decreases hi - lo
  {
    if hi > lo {
      ScanRangeFrame(st, n1, n2, lo, hi - 1);
      RecordAgrees(ScanRange(st, n1, lo, hi - 1), n1, n2, n1.blockAt(hi - 1));
    }
  }

  lemma {:induction false} RecordAgrees(st: ScanState, n1: Node, n2: Node, f: Fetch)
    requires n1.receipt == n2.receipt
    ensures Visit(st, n1, f) == Visit(st, n2, f)
  {
    if f.Found? {
      RecordTxsAgree(st.(cache := st.cache.(blocks := st.cache.blocks + [SummarizeBlock(f.block)])), n1, n2, f.block, TxsOf(f.block));
    }
  }

  lemma {:induction false} RecordTxsAgree(st: ScanState, n1: Node, n2: Node, blk: Block, txs: seq<Tx>)
    requires n1.receipt == n2.receipt
    ensures RecordTxs(st, n1, blk, txs) == RecordTxs(st, n2, blk, txs)
    decreases |txs|
  {
    if txs != [] {
      RecordTxsAgree(st, n1, n2, blk, txs[..|txs| - 1]);
      assert CreatedBy(n1, txs[|txs| - 1].hash, txs[|txs| - 1].to) == CreatedBy(n2, txs[|txs| - 1].hash, txs[|txs| - 1].to);
    }
  }

  /** Splitting a scan at any block in between gives the same result. */
  lemma {:induction false} ScanRangeSplit(st: ScanState, node: Node, lo: int, mid: int, hi: int)
    requires lo <= mid <= hi
    ensures ScanRange(st, node, lo, hi) == ScanRange(ScanRange(st, node, lo, mid), node, mid, hi)
    decreases hi - mid
  {
    if hi > mid {
      ScanRangeSplit(st, node, lo, mid, hi - 1);
    }
  }

  // ------------------------------------------------------ the imperative scan

  /** The body of `for (const block of blocks) if (block) { ... }` for one
      fetched block. */
  method VisitBlock(cache: CacheState, newContracts: seq<Address>, node: Node, blk: Block)
    returns (c: CacheState, nc: seq<Address>)
    ensures ScanState(c, nc) == RecordBlock(ScanState(cache, newContracts), node, blk)
  {
    c := cache.(blocks := cache.blocks + [SummarizeBlock(blk)]);
    nc := newContracts;
    ghost var base := ScanState(c, nc);
    if blk.transactions.Some? {
      var txs := blk.transactions.value;
      var j := 0;
      while j < |txs|
        invariant 0 <= j <= |txs|
        invariant ScanState(c, nc) == RecordTxs(base, node, blk, txs[..j])
      {
        var tx := txs[j];
        assert txs[..j + 1][..j] == txs[..j];
        c := c.(transactions := c.transactions + [SummarizeTx(tx, blk)]);
        if IsCreation(tx.to) {
          var receipt := node.receipt(tx.hash);
          if receipt.Some? && receipt.value != "" {
            var addr := receipt.value;
            if addr !in c.contracts {
              c := c.(contracts := c.contracts + [addr]);
              nc := nc + [addr];
            }
          }
        }
        j := j + 1;
      }
      assert txs[..|txs|] == txs;
    }
  }

  /** `for (const block of blocks) if (block) { ... }` over one window,
      whose fetches are those of the blocks from `lo` on. */
  method VisitFetched(cache: CacheState, newContracts: seq<Address>, node: Node, fetched: seq<Fetch>, ghost lo: int)
    returns (c: CacheState, nc: seq<Address>)
    requires forall k :: 0 <= k < |fetched| ==> fetched[k] == node.blockAt(lo + k)
    ensures ScanState(c, nc) == ScanRange(ScanState(cache, newContracts), node, lo, lo + |fetched|)
  {
    c, nc := cache, newContracts;
    for k := 0 to |fetched|
      invariant ScanState(c, nc) == ScanRange(ScanState(cache, newContracts), node, lo, lo + k)
    {
      if fetched[k].Found? {
        c, nc := VisitBlock(c, nc, node, fetched[k].block);
      }
    }
  }

  /** The scan loop of `syncCache`: windows of twenty from `start` to
      `latest`, each fetched in full and then visited in order. The ghost
      outputs record the windows and the block numbers requested. */
  method ScanBlocks(cache: CacheState, node: Node, start: int, latest: int)
    returns (c: CacheState, newContracts: seq<Address>, ghost windows: seq<(int, int)>, ghost requested: seq<int>)
    ensures ScanState(c, newContracts) == ScanRange(ScanState(cache, []), node, start, latest + 1)
    ensures windows == Windows(start, latest)
    ensures requested == Flatten(windows)
  {
    c, newContracts := cache, [];
    windows, requested := [], [];
    ghost var init := ScanState(cache, []);
    var i := start;
    while i <= latest
      invariant start <= i
      invariant ScanState(c, newContracts) == ScanRange(init, node, start, Min(i, latest + 1))
      invariant windows + Windows(i, latest) == Windows(start, latest)
      invariant requested == Flatten(windows)
      decreases latest - i + 1
    {
      var end := Min(i + BatchSize - 1, latest);
      var fetched := FetchWindow(node, i, end);
      c, newContracts := VisitFetched(c, newContracts, node, fetched, i);
      ScanRangeSplit(init, node, start, i, end + 1);
      WindowsAdvance(windows, i, start, latest);
      FlattenSnoc(windows, (i, end));
      windows := windows + [(i, end)];
      requested := requested + Range(i, end + 1);
      i := i + BatchSize;
    }
    assert Windows(i, latest) == [];
    assert windows + [] == windows;
  }
}
