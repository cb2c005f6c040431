/** The read helpers and block scanners of `lib/ethereum.js`: getters that
    fall back to a default when the node call fails, the most recent blocks,
    the most recent transactions found by scanning backwards in windows of
    twenty, and the forward scans over the whole chain that report progress
    after every window. */
module Ethereum {
  import opened Wrappers
  import opened Chain
  import opened JsString
  import opened Sorting
  import opened BlockScan

  // ------------------------------------------------------ getters

  /** `getGasPrice()`: the gas price in gwei, formatted by `formatGwei`
      (a missing price counts as zero), or `"0"` when the call fails. */
  function GetGasPrice(node: Node, formatGwei: nat -> string): (r: string)
    ensures node.gasPrice.None? ==> r == "0"
    ensures node.gasPrice.Some? ==> r == formatGwei(node.gasPrice.value.GetOr(0))
  {
    match node.gasPrice
    case None => "0"
    case Some(price) => formatGwei(price.GetOr(0))
  }

  /** `getBalance(address)`: the balance formatted in ether, or `"0.0"`
      when the call fails. */
  function GetBalance(node: Node, address: Address, formatEther: nat -> string): (r: string)
    ensures node.balance(address).None? ==> r == "0.0"
    ensures node.balance(address).Some? ==> r == formatEther(node.balance(address).value)
  {
    match node.balance(address)
    case None => "0.0"
    case Some(wei) => formatEther(wei)
  }

  /** `getTransactionCount(address)`: the nonce, or `0` when the call fails. */
  function GetTransactionCount(node: Node, address: Address): (r: nat)
    ensures node.nonce(address).None? ==> r == 0
    ensures node.nonce(address).Some? ==> r == node.nonce(address).value
  {
    node.nonce(address).GetOr(0)
  }

  // ------------------------------------------------------ recent blocks

  /** `hi, hi - 1, ..., lo`. */
  function Countdown(hi: int, lo: int): (r: seq<int>)
    ensures |r| == if hi < lo then 0 else hi - lo + 1
    ensures forall k :: 0 <= k < |r| ==> r[k] == hi - k
    decreases hi - lo + 1
  {
    if hi < lo then [] else Countdown(hi, lo + 1) + [lo]
  }

  /** The block numbers `getRecentBlocks(count)` asks for. */
  function RecentNumbers(latest: int, count: int): seq<int> {
    Countdown(latest, Max(0, latest - count + 1))
  }

  /** The numbers asked for are strictly descending from `latest`, never
      below zero, and there are `count` of them, or fewer when the chain is
      shorter. */
  lemma {:induction false} RecentNumbersShape(latest: nat, count: int)
    ensures forall i, j :: 0 <= i < j < |RecentNumbers(latest, count)| ==> RecentNumbers(latest, count)[i] > RecentNumbers(latest, count)[j]
    ensures forall k :: 0 <= k < |RecentNumbers(latest, count)| ==> 0 <= RecentNumbers(latest, count)[k] <= latest
    ensures |RecentNumbers(latest, count)| == Min(Max(count, 0), latest + 1)
    ensures |RecentNumbers(latest, count)| > 0 ==> RecentNumbers(latest, count)[0] == latest
  {
  }

  /** `Promise.all`: rejects when any call rejects, and otherwise yields the
      answers in request order. */
  function AllOrFail(fs: seq<Fetch>): (r: Option<seq<Option<Block>>>)
    ensures r.None? <==> exists k :: 0 <= k < |fs| && fs[k].Failed?
    ensures r.Some? ==> |r.value| == |fs| && forall k :: 0 <= k < |fs| ==> r.value[k] == Fetched(fs[k])
  {
    if fs == [] then Some([])
    else
      var init := AllOrFail(fs[..|fs| - 1]);
      var last := fs[|fs| - 1];
      if last.Failed? || init.None? then
        (if init.None? then
          var k :| 0 <= k < |fs| - 1 && fs[..|fs| - 1][k].Failed?;
          assert fs[k].Failed?;
          None
        else None)
      else Some(init.value + [Fetched(last)])
  }

  /** `p.getBlock(n)` for each number, in order. */
  function FetchNumbers(node: Node, ns: seq<int>): (r: seq<Fetch>)
    ensures |r| == |ns|
    ensures forall k :: 0 <= k < |ns| ==> r[k] == node.blockAt(ns[k])
  {
    if ns == [] then [] else FetchNumbers(node, ns[..|ns| - 1]) + [node.blockAt(ns[|ns| - 1])]
  }

  /** `getRecentBlocks(count)`: blocks `latest` down to
      `max(0, latest - count + 1)`, fetched without a fallback, so one failed
      fetch rejects the whole call. */
  method GetRecentBlocks(node: Node, count: int) returns (r: Option<seq<Option<Block>>>)
    ensures node.latest.None? ==> r.None?
    ensures node.latest.Some? ==> r == AllOrFail(FetchNumbers(node, RecentNumbers(node.latest.value, count)))
  {
    if node.latest.None? {
      return None;
    }
    var latest := node.latest.value;
    var start := Max(0, latest - count + 1);
    var promises: seq<Fetch> := [];
    var i := latest;
    while i >= start
      invariant i <= latest
      invariant start <= latest + 1 ==> i >= start - 1
      invariant start > latest ==> i == latest
      invariant |promises| == latest - i
      invariant forall k :: 0 <= k < |promises| ==> promises[k] == node.blockAt(latest - k)
      decreases i - start + 1
    {
      promises := promises + [node.blockAt(i)];
      i := i - 1;
    }
    assert promises == FetchNumbers(node, RecentNumbers(latest, count));
    r := AllOrFail(promises);
  }

  // ------------------------------------------------------ pushing fetched blocks

  /** The blocks of a window that were fetched, in window order: a `null` or
      failed fetch contributes nothing. */
  function FoundOf(fs: seq<Fetch>): seq<Block> {
    if fs == [] then [] else FoundOf(fs[..|fs| - 1]) + (if fs[|fs| - 1].Found? then [fs[|fs| - 1].block] else [])
  }

  /** The transactions `keep` accepts, in their original order. */
  function Filter(txs: seq<TxSummary>, keep: TxSummary -> bool): seq<TxSummary> {
    if txs == [] then [] else Filter(txs[..|txs| - 1], keep) + (if keep(txs[|txs| - 1]) then [txs[|txs| - 1]] else [])
  }

  /** The filter keeps exactly the accepted transactions and never adds any. */
  lemma {:induction false} FilterMembers(txs: seq<TxSummary>, keep: TxSummary -> bool)
    ensures forall t :: t in Filter(txs, keep) <==> t in txs && keep(t)
    ensures |Filter(txs, keep)| <= |txs|
    decreases |txs|
  {
    if txs != [] {
      FilterMembers(txs[..|txs| - 1], keep);
      assert txs == txs[..|txs| - 1] + [txs[|txs| - 1]];
    }
  }

  lemma {:induction false} FilterAppend(a: seq<TxSummary>, b: seq<TxSummary>, keep: TxSummary -> bool)
    ensures Filter(a + b, keep) == Filter(a, keep) + Filter(b, keep)
    decreases |b|
  {
    if b == [] {
      assert a + b == a;
    } else {
      assert (a + b)[..|a + b| - 1] == a + b[..|b| - 1];
      FilterAppend(a, b[..|b| - 1], keep);
    }
  }

  lemma {:induction false} FilterSnoc(a: seq<TxSummary>, t: TxSummary, keep: TxSummary -> bool)
    ensures Filter(a + [t], keep) == Filter(a, keep) + (if keep(t) then [t] else [])
  {
    assert (a + [t])[..|a + [t]| - 1] == a;
  }

  lemma {:induction false} FilterAll(txs: seq<TxSummary>)
    ensures Filter(txs, t => true) == txs
    decreases |txs|
  {
    if txs != [] {
      FilterAll(txs[..|txs| - 1]);
    }
  }

  /** The summaries of one block's transactions that `keep` accepts, pushed
      in block order. */
  method PushBlockTxs(txs: seq<TxSummary>, blk: Block, keep: TxSummary -> bool) returns (txs': seq<TxSummary>)
    ensures txs' == txs + Filter(SummarizeAll(TxsOf(blk), blk), keep)
  {
    txs' := txs;
    var list := TxsOf(blk);
    for j := 0 to |list|
      invariant txs' == txs + Filter(SummarizeAll(list[..j], blk), keep)
    {
      var t := SummarizeTx(list[j], blk);
      SummaryStep(list, j, blk, keep);
      if keep(t) {
        txs' := txs' + [t];
      }
      AppendAssoc(txs, Filter(SummarizeAll(list[..j], blk), keep), if keep(t) then [t] else []);
    }
    assert list[..|list|] == list;
  }

  /** One more transaction of a block adds its summary when accepted. */
  lemma {:induction false} SummaryStep(list: seq<Tx>, j: nat, blk: Block, keep: TxSummary -> bool)
    requires j < |list|
    ensures Filter(SummarizeAll(list[..j + 1], blk), keep)
         == Filter(SummarizeAll(list[..j], blk), keep)
            + (if keep(SummarizeTx(list[j], blk)) then [SummarizeTx(list[j], blk)] else [])
  {
    assert list[..j + 1][..j] == list[..j];
    assert SummarizeAll(list[..j + 1], blk) == SummarizeAll(list[..j], blk) + [SummarizeTx(list[j], blk)];
    FilterSnoc(SummarizeAll(list[..j], blk), SummarizeTx(list[j], blk), keep);
  }

  /** `for (const block of blocks) if (block && block.prefetchedTransactions) ...`:
      the accepted transactions of every fetched block of a window, pushed in
      window order. */
  method PushTxs(txs: seq<TxSummary>, blocks: seq<Fetch>, keep: TxSummary -> bool) returns (txs': seq<TxSummary>)
    ensures txs' == txs + Filter(AllTxs(FoundOf(blocks)), keep)
  {
    txs' := txs;
    assert blocks[..0] == [];
    for k := 0 to |blocks|
      invariant txs' == txs + Filter(AllTxs(FoundOf(blocks[..k])), keep)
    {
      PushStep(blocks, k, keep);
      if blocks[k].Found? {
        txs' := PushBlockTxs(txs', blocks[k].block, keep);
      }
      AppendAssoc(txs, Filter(AllTxs(FoundOf(blocks[..k])), keep), Added(blocks[k], keep));
    }
    assert blocks[..|blocks|] == blocks;
  }

  /** What one fetch of a window adds. */
  function Added(f: Fetch, keep: TxSummary -> bool): seq<TxSummary> {
    if f.Found? then Filter(SummarizeAll(TxsOf(f.block), f.block), keep) else []
  }

  /** One more fetched block adds its accepted transactions at the end. */
  lemma {:induction false} PushStep(blocks: seq<Fetch>, k: nat, keep: TxSummary -> bool)
    requires k < |blocks|
    ensures Filter(AllTxs(FoundOf(blocks[..k + 1])), keep) == Filter(AllTxs(FoundOf(blocks[..k])), keep) + Added(blocks[k], keep)
  {
    var fs, f := blocks[..k], blocks[k];
    assert blocks[..k + 1][..k] == fs;
    var bs := FoundOf(fs);
    if f.Found? {
      assert FoundOf(blocks[..k + 1]) == bs + [f.block];
      assert (bs + [f.block])[..|bs + [f.block]| - 1] == bs;
      FilterAppend(AllTxs(bs), SummarizeAll(TxsOf(f.block), f.block), keep);
    } else {
      assert FoundOf(blocks[..k + 1]) == bs;
    }
  }

  // ------------------------------------------------------ recent transactions

  /** The blocks of `hi` down to `lo` that were fetched, newest first. */
  function BlocksDesc(node: Node, hi: int, lo: int): seq<Block>
    decreases hi - lo + 1
  {
    if hi < lo then []
    else BlocksDesc(node, hi, lo + 1) + (if node.blockAt(lo).Found? then [node.blockAt(lo).block] else [])
  }

  /** The transactions of blocks `hi` down to `lo`, newest block first and in
      block order within a block. */
  function TxsDesc(node: Node, hi: int, lo: int): seq<TxSummary> {
    AllTxs(BlocksDesc(node, hi, lo))
  }

  /** The backward scan from window start `start`, stopping once `acc` holds
      `count` transactions or the scan has passed block zero. */
  function Backward(node: Node, start: int, count: int, acc: seq<TxSummary>): seq<TxSummary>
    decreases start + 1
  {
    if start < 0 || |acc| >= count then acc
    else Backward(node, start - BatchSize, count, acc + TxsDesc(node, start, Max(start - BatchSize + 1, 0)))
  }

  /** `(a, b) => b.blockNumber - a.blockNumber`: a higher block comes first. */
  predicate LaterBlock(a: TxSummary, b: TxSummary) { a.blockNumber > b.blockNumber }

  lemma {:induction false} LaterBlockIsStrict()
    ensures StrictOrder(LaterBlock)
  {
  }

  /** `txs.sort((a, b) => b.blockNumber - a.blockNumber)`: stable, so
      transactions of one block keep their order. */
  function NewestFirst(txs: seq<TxSummary>): (r: seq<TxSummary>)
    ensures Sorted(r, LaterBlock) && multiset(r) == multiset(txs)
  {
    LaterBlockIsStrict();
    SortBy(txs, LaterBlock)
  }

  /** What `getRecentTransactions(count)` returns once the head is known. */
  function RecentTxs(node: Node, latest: int, count: int): seq<TxSummary> {
    Slice(NewestFirst(Backward(node, latest, count, [])), 0, count)
  }

  /** A window fetched from `hi` down to `lo` yields the blocks `BlocksDesc`
      names. */
  lemma {:induction false} FoundOfDesc(node: Node, hi: int, lo: int, fs: seq<Fetch>)
    requires |fs| == hi - lo + 1
    requires forall k :: 0 <= k < |fs| ==> fs[k] == node.blockAt(hi - k)
    ensures FoundOf(fs) == BlocksDesc(node, hi, lo)
    decreases |fs|
  {
    if fs != [] {
      FoundOfDesc(node, hi, lo + 1, fs[..|fs| - 1]);
    }
  }

  lemma {:induction false} BlocksDescSplit(node: Node, hi: int, mid: int, lo: int)
    requires lo <= mid <= hi + 1
    ensures BlocksDesc(node, hi, lo) == BlocksDesc(node, hi, mid) + BlocksDesc(node, mid - 1, lo)
    decreases mid - lo
  {
    if mid > lo {
      BlocksDescSplit(node, hi, mid, lo + 1);
      var f := if node.blockAt(lo).Found? then [node.blockAt(lo).block] else [];
      assert BlocksDesc(node, mid - 1, lo) == BlocksDesc(node, mid - 1, lo + 1) + f;
    } else {
      assert BlocksDesc(node, mid - 1, lo) == [];
    }
  }

  /** One backward window followed by everything older is everything from
      the window's start down. */
  lemma {:induction false} BackwardWindow(node: Node, start: int)
    requires start >= 0
    ensures TxsDesc(node, start, 0) ==
      TxsDesc(node, start, Max(start - BatchSize + 1, 0)) + TxsDesc(node, start - BatchSize, 0)
  {
    var lo := Max(start - BatchSize + 1, 0);
    BlocksDescSplit(node, start, lo, 0);
    AllTxsAppend(BlocksDesc(node, start, lo), BlocksDesc(node, lo - 1, 0));
    if lo == 0 {
      assert BlocksDesc(node, lo - 1, 0) == [] && BlocksDesc(node, start - BatchSize, 0) == [];
    }
  }

  /** The backward scan collects a prefix of the newest-first transactions:
      with `m` the number it took, either it reached `count` or it took all. */
  lemma {:induction false} BackwardPrefix(node: Node, start: int, count: int, acc: seq<TxSummary>) returns (m: nat)
    ensures m <= |TxsDesc(node, start, 0)|
    ensures Backward(node, start, count, acc) == acc + TxsDesc(node, start, 0)[..m]
    ensures |acc| + m >= count || m == |TxsDesc(node, start, 0)|
    decreases start + 1
  {
    if start < 0 {
      m := 0;
      assert BlocksDesc(node, start, 0) == [];
    } else if |acc| >= count {
      m := 0;
      assert acc + TxsDesc(node, start, 0)[..0] == acc;
    } else {
      var w := TxsDesc(node, start, Max(start - BatchSize + 1, 0));
      var rest := TxsDesc(node, start - BatchSize, 0);
      BackwardWindow(node, start);
      BackwardStep(node, start, count, acc);
      var m' := BackwardPrefix(node, start - BatchSize, count, acc + w);
      m := |w| + m';
      PrefixJoin(acc, w, rest, m');
    }
  }

  lemma {:induction false} PrefixJoin(acc: seq<TxSummary>, w: seq<TxSummary>, rest: seq<TxSummary>, m: nat)
    requires m <= |rest|
    ensures (acc + w) + rest[..m] == acc + (w + rest)[..|w| + m]
  {
    assert (w + rest)[..|w| + m] == w + rest[..m];
  }

  /** Against a truthful node, the blocks come newest first, within range. */
  lemma {:induction false} BlocksDescOrdered(node: Node, hi: int, lo: int)
    requires Consistent(node)
    ensures forall i :: 0 <= i < |BlocksDesc(node, hi, lo)| ==> lo <= BlocksDesc(node, hi, lo)[i].number <= hi
    ensures forall i, j :: 0 <= i < j < |BlocksDesc(node, hi, lo)| ==>
              BlocksDesc(node, hi, lo)[i].number > BlocksDesc(node, hi, lo)[j].number
    decreases hi - lo + 1
  {
    if hi >= lo {
      BlocksDescOrdered(node, hi, lo + 1);
    }
  }

  /** Blocks in descending order give transactions in descending block order. */
  lemma {:induction false} AllTxsDesc(bs: seq<Block>, lo: int)
    requires forall i :: 0 <= i < |bs| ==> lo <= bs[i].number
    requires forall i, j :: 0 <= i < j < |bs| ==> bs[i].number > bs[j].number
    ensures forall i :: 0 <= i < |AllTxs(bs)| ==> lo <= AllTxs(bs)[i].blockNumber
    ensures Sorted(AllTxs(bs), LaterBlock)
    decreases |bs|
  {
    if bs != [] {
      var last := bs[|bs| - 1];
      var init := bs[..|bs| - 1];
      AllTxsDesc(init, last.number + 1);
      var t1: seq<TxSummary>, t2: seq<TxSummary> := AllTxs(init), SummarizeAll(TxsOf(last), last);
      assert AllTxs(bs) == t1 + t2;
      forall i, j | 0 <= i < j < |t1 + t2| ensures !LaterBlock((t1 + t2)[j], (t1 + t2)[i]) {
        if j >= |t1| {
          assert (t1 + t2)[j].blockNumber == last.number;
        }
      }
    }
  }

  lemma {:induction false} TxsDescSorted(node: Node, latest: int)
    requires Consistent(node)
    ensures Sorted(TxsDesc(node, latest, 0), LaterBlock)
  {
    BlocksDescOrdered(node, latest, 0);
    AllTxsDesc(BlocksDesc(node, latest, 0), 0);
  }

  lemma {:induction false} PrefixSorted(s: seq<TxSummary>, m: nat)
    requires m <= |s| && Sorted(s, LaterBlock)
    ensures Sorted(s[..m], LaterBlock)
  {
    forall i, j | 0 <= i < j < m ensures !LaterBlock(s[..m][j], s[..m][i]) {
      assert s[..m][j] == s[j] && s[..m][i] == s[i];
    }
  }

  /** Against a truthful node the backward scan already yields newest-first
      order, so the sort leaves it as it is. */
  lemma {:induction false} BackwardSorted(node: Node, latest: int, count: int)
    requires Consistent(node)
    ensures NewestFirst(Backward(node, latest, count, [])) == Backward(node, latest, count, [])
  {
    var m := BackwardPrefix(node, latest, count, []);
    TxsDescSorted(node, latest);
    PrefixSorted(TxsDesc(node, latest, 0), m);
    NewestFirstSorted(Backward(node, latest, count, []));
  }

  /** Transactions already newest first are left as they are. */
  lemma {:induction false} NewestFirstSorted(txs: seq<TxSummary>)
    requires Sorted(txs, LaterBlock)
    ensures NewestFirst(txs) == txs
  {
    LaterBlockIsStrict();
    SortBySorted(txs, LaterBlock);
  }

  /** Comparing block numbers ties exactly the transactions of one block. */
  lemma {:induction false} LaterBlockIsWeak()
    ensures WeakOrder(LaterBlock)
  {
  }

  /** The sort is stable: any two transactions of one block come out in the
      order they were found. */
  lemma {:induction false} NewestFirstStable(txs: seq<TxSummary>, a: TxSummary, b: TxSummary)
    requires a.blockNumber == b.blockNumber
    ensures Only(NewestFirst(txs), a, b) == Only(txs, a, b)
  {
    LaterBlockIsWeak();
    SortByStable(txs, LaterBlock, a, b);
  }

  /** `getRecentTransactions(count)` returns the `count` most recent
      transactions of a truthful node, newest block first and in block
      order within a block, or all of them when the chain holds fewer. */
  lemma {:induction false} RecentTxsNewest(node: Node, latest: int, count: int)
    requires Consistent(node)
    ensures RecentTxs(node, latest, count) == TxsDesc(node, latest, 0)[..Max(0, Min(count, |TxsDesc(node, latest, 0)|))]
  {
    BackwardSorted(node, latest, count);
    BackwardTakes(node, latest, count);
  }

  /** The first `count` of what the backward scan collects are the `count`
      newest transactions. */
  lemma {:induction false} BackwardTakes(node: Node, latest: int, count: int)
    ensures Slice(Backward(node, latest, count, []), 0, count)
         == TxsDesc(node, latest, 0)[..Max(0, Min(count, |TxsDesc(node, latest, 0)|))]
  {
    var all := TxsDesc(node, latest, 0);
    var m := BackwardPrefix(node, latest, count, []);
    assert Backward(node, latest, count, []) == all[..m] by {
      assert [] + all[..m] == all[..m];
    }
    if count > 0 {
      SlicePrefix(all, m, count);
    } else {
      assert m == 0;
    }
  }

  lemma {:induction false} SlicePrefix(all: seq<TxSummary>, m: nat, count: int)
    requires m <= |all| && count > 0
    ensures Slice(all[..m], 0, count) == all[..Min(count, m)]
  {
    assert all[..m][..Min(count, m)] == all[..Min(count, m)];
  }

  /** At most `count` transactions come back, and they are sorted by
      descending block whether or not the node is truthful. */
  lemma {:induction false} RecentTxsBounded(node: Node, latest: int, count: int)
    ensures |RecentTxs(node, latest, count)| <= Max(count, 0)
    ensures Sorted(RecentTxs(node, latest, count), LaterBlock)
  {
    var sorted := NewestFirst(Backward(node, latest, count, []));
    var r := RecentTxs(node, latest, count);
    assert r == Slice(sorted, 0, count);
    assert r == sorted[..ClampIndex(count, |sorted|)];
    PrefixSorted(sorted, ClampIndex(count, |sorted|));
  }

  /** `p.getBlock(b, true).catch(() => null)` for `hi` down to `lo`. */
  method FetchDesc(node: Node, hi: int, lo: int) returns (fetched: seq<Fetch>)
    requires lo <= hi
    ensures |fetched| == hi - lo + 1
    ensures forall k :: 0 <= k < |fetched| ==> fetched[k] == node.blockAt(hi - k)
  {
    fetched := [];
    var b := hi;
    while b >= lo
      invariant lo - 1 <= b <= hi
      invariant |fetched| == hi - b
      invariant forall k :: 0 <= k < |fetched| ==> fetched[k] == node.blockAt(hi - k)
    {
      fetched := fetched + [node.blockAt(b)];
      b := b - 1;
    }
  }

  /** One window of the backward scan. */
  lemma {:induction false} BackwardStep(node: Node, start: int, count: int, acc: seq<TxSummary>)
    requires start >= 0 && |acc| < count
    ensures Backward(node, start, count, acc)
         == Backward(node, start - BatchSize, count, acc + TxsDesc(node, start, Max(start - BatchSize + 1, 0)))
  {
  }

  /** All the transactions of a window fetched from `hi` down to `lo`. */
  lemma {:induction false} WindowDesc(node: Node, hi: int, lo: int, fs: seq<Fetch>)
    requires |fs| == hi - lo + 1
    requires forall k :: 0 <= k < |fs| ==> fs[k] == node.blockAt(hi - k)
    ensures Filter(AllTxs(FoundOf(fs)), t => true) == TxsDesc(node, hi, lo)
  {
    FoundOfDesc(node, hi, lo, fs);
    FilterAll(AllTxs(FoundOf(fs)));
  }

  /** One window of that loop: blocks `start` down to `start - 19` (or block
      zero) fetched at once, every transaction of them pushed. */
  method PushWindowDesc(node: Node, start: int, txs: seq<TxSummary>) returns (txs': seq<TxSummary>)
    requires start >= 0
    ensures txs' == txs + TxsDesc(node, start, Max(start - BatchSize + 1, 0))
  {
    var end := Max(start - BatchSize + 1, 0);
    var blocks := FetchDesc(node, start, end);
    WindowDesc(node, start, end, blocks);
    txs' := PushTxs(txs, blocks, t => true);
  }

  /** The `while` loop of `getRecentTransactions`: windows of twenty from
      the head down, until `count` transactions are collected or block zero
      has been fetched. */
  method ScanBackward(node: Node, latest: int, count: int) returns (txs: seq<TxSummary>)
    ensures txs == Backward(node, latest, count, [])
  {
    txs := [];
    var start: int := latest;
    while start >= 0 && |txs| < count
      invariant Backward(node, start, count, txs) == Backward(node, latest, count, [])
      decreases start + 1
    {
      BackwardStep(node, start, count, txs);
      txs := PushWindowDesc(node, start, txs);
      start := start - BatchSize;
    }
  }

  /** `getRecentTransactions(count)`. */
  method GetRecentTransactions(node: Node, count: int) returns (r: Option<seq<TxSummary>>)
    ensures node.latest.None? ==> r.None?
    ensures node.latest.Some? ==> r == Some(RecentTxs(node, node.latest.value, count))
  {
    if node.latest.None? {
      return None;
    }
    var txs := ScanBackward(node, node.latest.value, count);
    txs := NewestFirst(txs);
    r := Some(Slice(txs, 0, count));
  }

  // ------------------------------------------------------ forward scans

  /** One `onProgress` report. */
  datatype Progress = Progress(transactions: seq<TxSummary>, scanned: int, total: int)

  /** The accepted transactions of blocks `0 .. hi - 1`, in scan order. */
  function Collect(node: Node, hi: int, keep: TxSummary -> bool): seq<TxSummary> {
    Filter(AllTxs(FoundBlocks(node, 0, hi)), keep)
  }

  /** The report after the window ending at block `end`. */
  function ProgressAt(node: Node, latest: int, keep: TxSummary -> bool, end: int): Progress {
    Progress(Collect(node, end + 1, keep), Min(end + 1, latest + 1), latest + 1)
  }

  /** A window fetched from `lo` up to `hi` yields the blocks `FoundBlocks`
      names. */
  lemma {:induction false} FoundOfAsc(node: Node, lo: int, hi: int, fs: seq<Fetch>)
    requires |fs| == hi - lo
    requires forall k :: 0 <= k < |fs| ==> fs[k] == node.blockAt(lo + k)
    ensures FoundOf(fs) == FoundBlocks(node, lo, hi)
    decreases |fs|
  {
    if fs != [] {
      FoundOfAsc(node, lo, hi - 1, fs[..|fs| - 1]);
    }
  }

  /** Every report holds a prefix of the final result, in scan order. */
  lemma {:induction false} SnapshotPrefix(node: Node, keep: TxSummary -> bool, m: int, n: int)
    requires 0 <= m <= n
    ensures Collect(node, n, keep) == Collect(node, m, keep) + Filter(AllTxs(FoundBlocks(node, m, n)), keep)
  {
    FoundBlocksSplit(node, 0, m, n);
    AllTxsAppend(FoundBlocks(node, 0, m), FoundBlocks(node, m, n));
    FilterAppend(AllTxs(FoundBlocks(node, 0, m)), AllTxs(FoundBlocks(node, m, n)), keep);
  }

  /** One forward window: fetch blocks `lo .. hi`, push what they carry
      and make the report. */
  method ScanWindow(node: Node, latest: int, lo: int, hi: int, keep: TxSummary -> bool, all: seq<TxSummary>)
    returns (all': seq<TxSummary>, report: Progress)
    requires 0 <= lo <= hi
    requires all == Collect(node, lo, keep)
    ensures all' == Collect(node, hi + 1, keep)
    ensures report == ProgressAt(node, latest, keep, hi)
  {
    var blocks := FetchWindow(node, lo, hi);
    all' := PushTxs(all, blocks, keep);
    FoundOfAsc(node, lo, hi + 1, blocks);
    SnapshotPrefix(node, keep, lo, hi + 1);
    report := Progress(all', Min(hi + 1, latest + 1), latest + 1);
  }

  /** The loop shared by `getAllTransactions` and `getAllAddressTransactions`:
      windows of twenty from block zero, the transactions `keep` accepts
      pushed in scan order, a report after every window. */
  method ForwardScan(node: Node, latest: int, keep: TxSummary -> bool) returns (all: seq<TxSummary>, reports: seq<Progress>)
    ensures all == Collect(node, latest + 1, keep)
    ensures |reports| == |Windows(0, latest)|
    ensures forall k :: 0 <= k < |reports| ==> reports[k] == ProgressAt(node, latest, keep, Windows(0, latest)[k].1)
  {
    all, reports := [], [];
    ghost var windows: seq<(int, int)> := [];
    var i := 0;
    while i <= latest
      invariant 0 <= i
      invariant all == Collect(node, Min(i, latest + 1), keep)
      invariant windows + Windows(i, latest) == Windows(0, latest)
      invariant Reported(node, latest, keep, windows, reports)
      decreases latest - i + 1
    {
      var end := Min(i + BatchSize - 1, latest);
      assert Min(i, latest + 1) == i && Min(i + BatchSize, latest + 1) == end + 1;
      var report;
      all, report := ScanWindow(node, latest, i, end, keep, all);
      WindowsAdvance(windows, i, 0, latest);
      ReportedSnoc(node, latest, keep, windows, reports, (i, end), report);
      windows := windows + [(i, end)];
      reports := reports + [report];
      i := i + BatchSize;
    }
    assert Windows(i, latest) == [];
    assert windows + [] == windows;
  }

  /** One report per window so far, each the report after that window. */
  ghost predicate Reported(node: Node, latest: int, keep: TxSummary -> bool, windows: seq<(int, int)>, reports: seq<Progress>) {
    |reports| == |windows| && forall k :: 0 <= k < |reports| ==> reports[k] == ProgressAt(node, latest, keep, windows[k].1)
  }

  lemma {:induction false} ReportedSnoc(node: Node, latest: int, keep: TxSummary -> bool, windows: seq<(int, int)>, reports: seq<Progress>,
                                        w: (int, int), report: Progress)
    requires Reported(node, latest, keep, windows, reports)
    requires report == ProgressAt(node, latest, keep, w.1)
    ensures Reported(node, latest, keep, windows + [w], reports + [report])
  {
  }

  /** `getAllTransactions(onProgress)`: every transaction of the chain. */
  method GetAllTransactions(node: Node) returns (r: Option<seq<TxSummary>>, reports: seq<Progress>)
    ensures node.latest.None? ==> r.None? && reports == []
    ensures node.latest.Some? ==> r == Some(AllTxs(FoundBlocks(node, 0, node.latest.value + 1)))
    ensures node.latest.Some? ==> (|reports| == |Windows(0, node.latest.value)| &&
      forall k :: 0 <= k < |reports| ==> reports[k] == ProgressAt(node, node.latest.value, t => true, Windows(0, node.latest.value)[k].1))
  {
    if node.latest.None? {
      return None, [];
    }
    var all;
    all, reports := ForwardScan(node, node.latest.value, t => true);
    FilterAll(AllTxs(FoundBlocks(node, 0, node.latest.value + 1)));
    r := Some(all);
  }

  /** `tx.from?.toLowerCase() === addr || tx.to?.toLowerCase() === addr`. */
  predicate Involves(t: TxSummary, addr: string) {
    Lower(t.from) == addr || (t.to.Some? && Lower(t.to.value) == addr)
  }

  /** `getAllAddressTransactions(address, onProgress)`: the transactions sent
      from or to `address`, compared case-insensitively. */
  method GetAllAddressTransactions(node: Node, address: Address) returns (r: Option<seq<TxSummary>>, reports: seq<Progress>)
    ensures node.latest.None? ==> r.None? && reports == []
    ensures node.latest.Some? ==> r == Some(Collect(node, node.latest.value + 1, t => Involves(t, Lower(address))))
    ensures node.latest.Some? ==> (|reports| == |Windows(0, node.latest.value)| &&
      forall k :: 0 <= k < |reports| ==>
        reports[k] == ProgressAt(node, node.latest.value, t => Involves(t, Lower(address)), Windows(0, node.latest.value)[k].1))
  {
    if node.latest.None? {
      return None, [];
    }
    var addr := Lower(address);
    var all;
    all, reports := ForwardScan(node, node.latest.value, t => Involves(t, addr));
    r := Some(all);
  }

  /** The address filter does not depend on the letter case of the address
      searched for: a sender or recipient matches when it equals the address
      ignoring case. */
  lemma {:induction false} InvolvesCaseInsensitive(t: TxSummary, address: Address)
    ensures Involves(t, Lower(address)) == Involves(t, Lower(Lower(address)))
    ensures Involves(t, Lower(address)) <==>
      Lower(t.from) == Lower(address) || (t.to.Some? && Lower(t.to.value) == Lower(address))
  {
    LowerIdempotent(address);
  }

  /** Reports come one per window; `scanned` strictly increases, never
      exceeds `total`, and the last report has scanned the whole chain. */
  lemma {:induction false} ProgressShape(node: Node, latest: nat, keep: TxSummary -> bool)
    ensures |Windows(0, latest)| > 0
    ensures forall k :: 0 <= k < |Windows(0, latest)| ==>
              ProgressAt(node, latest, keep, Windows(0, latest)[k].1).scanned <= latest + 1
    ensures forall i, j :: 0 <= i < j < |Windows(0, latest)| ==>
              ProgressAt(node, latest, keep, Windows(0, latest)[i].1).scanned <
              ProgressAt(node, latest, keep, Windows(0, latest)[j].1).scanned
    ensures ProgressAt(node, latest, keep, Windows(0, latest)[|Windows(0, latest)| - 1].1).scanned == latest + 1
  {
    WindowsShape(0, latest);
  }

  /** Each report's transactions are a prefix of the next report's and of
      the final result. */
  lemma {:induction false} ReportsGrow(node: Node, latest: nat, keep: TxSummary -> bool, k: nat)
    requires k < |Windows(0, latest)|
    ensures ProgressAt(node, latest, keep, Windows(0, latest)[k].1).transactions <= Collect(node, latest + 1, keep)
  {
    WindowEndInRange(latest, k);
    ReportPrefix(node, latest, keep, Windows(0, latest)[k].1);
  }

  lemma {:induction false} ReportPrefix(node: Node, latest: nat, keep: TxSummary -> bool, end: int)
    requires 0 <= end <= latest
    ensures ProgressAt(node, latest, keep, end).transactions <= Collect(node, latest + 1, keep)
  {
    calc {
      ProgressAt(node, latest, keep, end).transactions;
    ==
      Collect(node, end + 1, keep);
    <= { CollectPrefix(node, keep, end + 1, latest + 1); }
      Collect(node, latest + 1, keep);
    }
  }

  lemma {:induction false} WindowEndInRange(latest: nat, k: nat)
    requires k < |Windows(0, latest)|
    ensures 0 <= Windows(0, latest)[k].1 <= latest
  {
    WindowsShape(0, latest);
  }

  /** Collecting fewer blocks gives a prefix. */
  lemma {:induction false} CollectPrefix(node: Node, keep: TxSummary -> bool, m: int, n: int)
    requires 0 <= m <= n
    ensures Collect(node, m, keep) <= Collect(node, n, keep)
  {
    SnapshotPrefix(node, keep, m, n);
    var done := Collect(node, m, keep);
    assert (done + Filter(AllTxs(FoundBlocks(node, m, n)), keep))[..|done|] == done;
  }
}
