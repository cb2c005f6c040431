/** `syncCache` of `lib/cache.js` as a whole: read the cache, scan the
    blocks after its cursor, classify the contracts found, rank the tokens,
    advance the cursor and write the cache back. */
module CacheSync {
  import opened Wrappers
  import opened Chain
  import opened Sorting
  import opened CacheStore
  import opened BlockScan
  import opened CacheScan
  import opened TokenProbe

  /** The scan stage of a sync of `c` up to `latest`. */
  function Scanned(c: CacheState, node: Node, latest: int): ScanState {
    ScanRange(ScanState(c, []), node, c.lastScannedBlock + 1, latest + 1)
  }

  /** The classification stage, over the contracts the scan found. */
  function Classified(st: ScanState, node: Node): Registry {
    ProbeAll(Registry(st.cache.checkedContracts, st.cache.tokens), node, st.newContracts)
  }

  /** What a sync makes of the cache `c` read from disk, against a chain
      whose head is `latest`, at clock reading `now`. A cache whose cursor
      is at or past the head comes back untouched. */
  function Sync(c: CacheState, node: Node, latest: int, now: string): (r: CacheState)
    ensures r.lastScannedBlock == Max(c.lastScannedBlock, latest)
    ensures c.lastScannedBlock < latest ==> r.lastSynced == Some(now)
    ensures c.lastScannedBlock >= latest ==> r == c
  {
    if c.lastScannedBlock + 1 > latest then c
    else
      var st := Scanned(c, node, latest);
      var reg := Classified(st, node);
      MoreSupplyIsStrict();
      st.cache.(checkedContracts := reg.checked, tokens := SortBy(reg.tokens, MoreSupply),
                lastScannedBlock := latest, lastSynced := Some(now))
  }

  /** The blocks a sync of `c` fetches. */
  function NewBlocks(c: CacheState, node: Node, latest: int): seq<Block> {
    FoundBlocks(node, c.lastScannedBlock + 1, latest + 1)
  }

  /** The scan stage appends the fetched blocks and their transactions,
      pushes the same addresses onto `contracts` and `newContracts`, and
      leaves the other fields alone. */
  lemma {:induction false} ScannedFacts(c: CacheState, node: Node, latest: int)
    ensures Scanned(c, node, latest).cache.blocks == c.blocks + Summaries(NewBlocks(c, node, latest))
    ensures Scanned(c, node, latest).cache.transactions == c.transactions + AllTxs(NewBlocks(c, node, latest))
    ensures Scanned(c, node, latest).cache.contracts == c.contracts + Scanned(c, node, latest).newContracts
    ensures Scanned(c, node, latest).cache.checkedContracts == c.checkedContracts
    ensures Scanned(c, node, latest).cache.tokens == c.tokens
    ensures NoDuplicates(c.contracts) ==> NoDuplicates(Scanned(c, node, latest).cache.contracts)
    ensures forall a :: a in Scanned(c, node, latest).cache.contracts <==>
              a in c.contracts || a in Created(node, AllTxs(NewBlocks(c, node, latest)))
  {
    ScanRangeStep(ScanState(c, []), node, c.lastScannedBlock + 1, latest + 1);
    assert Scanned(c, node, latest).newContracts[0..] == Scanned(c, node, latest).newContracts;
  }

  /** The finishing stage: the classified lists, the ranked tokens, the cursor. */
  lemma {:induction false} SyncFacts(c: CacheState, node: Node, latest: int, now: string)
    requires c.lastScannedBlock < latest
    ensures StrictOrder(MoreSupply)
    ensures Sync(c, node, latest, now) ==
      Scanned(c, node, latest).cache.(checkedContracts := Classified(Scanned(c, node, latest), node).checked,
                                    tokens := SortBy(Classified(Scanned(c, node, latest), node).tokens, MoreSupply),
                                    lastScannedBlock := latest, lastSynced := Some(now))
  {
    MoreSupplyIsStrict();
  }

  /** A sync appends exactly the fetched blocks and their transactions. */
  lemma {:induction false} SyncChainAppends(c: CacheState, node: Node, latest: int, now: string)
    requires c.lastScannedBlock < latest
    ensures Sync(c, node, latest, now).blocks == c.blocks + Summaries(NewBlocks(c, node, latest))
    ensures Sync(c, node, latest, now).transactions == c.transactions + AllTxs(NewBlocks(c, node, latest))
  {
    ScannedFacts(c, node, latest);
    SyncFacts(c, node, latest, now);
  }

  /** A sync grows `contracts` by exactly the addresses the receipts report
      as created, and checks exactly the contracts it added. */
  lemma {:induction false} SyncAppends(c: CacheState, node: Node, latest: int, now: string)
    requires c.lastScannedBlock < latest
    ensures forall a :: a in Sync(c, node, latest, now).contracts <==>
              a in c.contracts || a in Created(node, AllTxs(NewBlocks(c, node, latest)))
    ensures |c.contracts| <= |Sync(c, node, latest, now).contracts|
    ensures forall a :: a in Sync(c, node, latest, now).checkedContracts <==>
              a in c.checkedContracts || a in Sync(c, node, latest, now).contracts[|c.contracts|..]
  {
    var st := Scanned(c, node, latest);
    ScannedFacts(c, node, latest);
    SyncFacts(c, node, latest, now);
    ProbeAllChecked(Registry(st.cache.checkedContracts, st.cache.tokens), node, st.newContracts);
    assert st.newContracts == st.cache.contracts[|c.contracts|..];
  }

  /** Against a truthful node, the new blocks follow the old ones in strictly
      ascending order and the new transactions follow in block order, all at
      or below the new cursor. */
  lemma {:induction false} SyncChainWf(c: CacheState, node: Node, latest: int, now: string)
    requires Consistent(node) && c.lastScannedBlock < latest
    requires BlocksWf(c.blocks, c.lastScannedBlock) && TxsWf(c.transactions, c.lastScannedBlock)
    ensures BlocksWf(Sync(c, node, latest, now).blocks, latest)
    ensures TxsWf(Sync(c, node, latest, now).transactions, latest)
  {
    var lo, hi := c.lastScannedBlock + 1, latest + 1;
    var bs := NewBlocks(c, node, latest);
    SyncChainAppends(c, node, latest, now);
    FoundBlocksOrdered(node, lo, hi);
    AllTxsOrdered(bs, lo, hi);
    AppendAscending(c.blocks, Summaries(bs), c.lastScannedBlock, latest);
    AppendTxsAscending(c.transactions, AllTxs(bs), c.lastScannedBlock, latest);
  }

  lemma {:induction false} AppendAscending(prev: seq<BlockSummary>, next: seq<BlockSummary>, cursor: int, latest: int)
    requires BlocksWf(prev, cursor)
    requires forall i, j :: 0 <= i < j < |next| ==> next[i].number < next[j].number
    requires forall i :: 0 <= i < |next| ==> cursor < next[i].number <= latest
    requires cursor < latest
    ensures BlocksWf(prev + next, latest)
  {
    var s := prev + next;
    forall i, j | 0 <= i < j < |s| ensures s[i].number < s[j].number {
      if j >= |prev| && i < |prev| {
        assert s[j] == next[j - |prev|];
      } else if i >= |prev| {
        assert s[i] == next[i - |prev|] && s[j] == next[j - |prev|];
      }
    }
    forall i | 0 <= i < |s| ensures s[i].number <= latest {
      if i >= |prev| {
        assert s[i] == next[i - |prev|];
      }
    }
  }

  lemma {:induction false} AppendTxsAscending(prev: seq<TxSummary>, next: seq<TxSummary>, cursor: int, latest: int)
    requires TxsWf(prev, cursor)
    requires forall i, j :: 0 <= i < j < |next| ==> next[i].blockNumber <= next[j].blockNumber
    requires forall i :: 0 <= i < |next| ==> cursor < next[i].blockNumber <= latest
    requires cursor < latest
    ensures TxsWf(prev + next, latest)
  {
    var s := prev + next;
    forall i, j | 0 <= i < j < |s| ensures s[i].blockNumber <= s[j].blockNumber {
      if j >= |prev| && i < |prev| {
        assert s[j] == next[j - |prev|];
      } else if i >= |prev| {
        assert s[i] == next[i - |prev|] && s[j] == next[j - |prev|];
      }
    }
    forall i | 0 <= i < |s| ensures s[i].blockNumber <= latest {
      if i >= |prev| {
        assert s[i] == next[i - |prev|];
      }
    }
  }

  /** The contract, checked and token lists keep their part of the invariant. */
  lemma {:induction false} SyncListsWf(c: CacheState, node: Node, latest: int, now: string)
    requires Wf(c) && c.lastScannedBlock < latest
    ensures var r := Sync(c, node, latest, now);
      && NoDuplicates(r.contracts)
      && NoDuplicates(r.checkedContracts)
      && (forall a :: a in r.contracts ==> a in r.checkedContracts)
      && DistinctBy(r.tokens, TokenAddress)
      && (forall t :: t in r.tokens ==> t.address in r.checkedContracts)
      && Sorted(r.tokens, MoreSupply)
  {
    var st := Scanned(c, node, latest);
    var reg0 := Registry(st.cache.checkedContracts, st.cache.tokens);
    var reg := Classified(st, node);
    ScannedFacts(c, node, latest);
    SyncFacts(c, node, latest, now);
    ProbeAllChecked(reg0, node, st.newContracts);
    ProbeAllTokensWf(reg0, node, st.newContracts);
    SortDistinct(reg.tokens, MoreSupply, TokenAddress);
    SortedMembers(reg.tokens, MoreSupply);
  }

  /** Against a node that labels its blocks truthfully, a sync keeps the
      cache invariant. */
  lemma {:induction false} SyncWf(c: CacheState, node: Node, latest: int, now: string)
    requires Consistent(node) && Wf(c)
    ensures Wf(Sync(c, node, latest, now))
  {
    if c.lastScannedBlock < latest {
      SyncChainWf(c, node, latest, now);
      SyncListsWf(c, node, latest, now);
    }
  }

  /** With unique token addresses, the tokens listed for an address are the
      one `TokenAt` finds, or none. */
  ghost function ListedFor(ts: seq<Token>, a: Address): set<Token> {
    set t | t in ts && t.address == a
  }

  lemma {:induction false} ListedByTokenAt(ts: seq<Token>, a: Address)
    requires DistinctBy(ts, TokenAddress)
    ensures ListedFor(ts, a) == if TokenAt(ts, a).Some? then {TokenAt(ts, a).value} else {}
  {
    if TokenAt(ts, a).Some? {
      var t := TokenAt(ts, a).value;
      forall u | u in ts && u.address == a ensures u == t {
        var i, j :| 0 <= i < |ts| && 0 <= j < |ts| && ts[i] == u && ts[j] == t;
        assert TokenAddress(ts[i]) == TokenAddress(ts[j]);
      }
    }
  }

  /** Under a duplicate-free contract list, the addresses a scan reports as
      new are exactly those it added to `contracts`. */
  lemma {:induction false} NewContractsExact(c: CacheState, node: Node, latest: int, a: Address)
    requires NoDuplicates(c.contracts)
    ensures a in Scanned(c, node, latest).newContracts <==> a in Scanned(c, node, latest).cache.contracts && a !in c.contracts
  {
    var st := Scanned(c, node, latest);
    ScannedFacts(c, node, latest);
    if a in st.newContracts {
      var k :| 0 <= k < |st.newContracts| && st.newContracts[k] == a;
      assert st.cache.contracts[|c.contracts| + k] == a;
      forall i | 0 <= i < |c.contracts| ensures c.contracts[i] != a {
        assert st.cache.contracts[i] == c.contracts[i];
      }
    }
  }

  /** Each contract a sync discovers and has not checked before is listed as
      a token exactly when its probes qualify, with the values probed; every
      other address keeps the token entry it had. */
  lemma {:induction false} SyncTokens(c: CacheState, node: Node, latest: int, now: string, a: Address)
    requires Wf(c) && c.lastScannedBlock < latest
    ensures a in Sync(c, node, latest, now).contracts && a !in c.contracts && a !in c.checkedContracts ==>
      ListedFor(Sync(c, node, latest, now).tokens, a) ==
        if Qualifies(node.probe(a)) && MakeToken(a, node.probe(a)).Some? then {MakeToken(a, node.probe(a)).value} else {}
    ensures !(a in Sync(c, node, latest, now).contracts && a !in c.contracts && a !in c.checkedContracts) ==>
      ListedFor(Sync(c, node, latest, now).tokens, a) == ListedFor(c.tokens, a)
  {
    var st := Scanned(c, node, latest);
    var reg0 := Registry(st.cache.checkedContracts, st.cache.tokens);
    var reg := Classified(st, node);
    ScannedFacts(c, node, latest);
    SyncFacts(c, node, latest, now);
    NewContractsExact(c, node, latest, a);
    ProbeAllTokens(reg0, node, st.newContracts, a);
    ProbeAllTokensWf(reg0, node, st.newContracts);
    SortedMembers(reg.tokens, MoreSupply);
    var r := Sync(c, node, latest, now);
    assert r.tokens == SortBy(reg.tokens, MoreSupply);
    assert r.contracts == st.cache.contracts;
    assert ListedFor(r.tokens, a) == ListedFor(reg.tokens, a);
    ListedByTokenAt(reg.tokens, a);
    ListedByTokenAt(c.tokens, a);
  }

  /** A second sync against the same chain head changes nothing. */
  lemma {:induction false} SyncIdempotent(c: CacheState, node: Node, latest: int, t1: string, t2: string)
    ensures Sync(Sync(c, node, latest, t1), node, latest, t2) == Sync(c, node, latest, t1)
  {
  }

  /** Syncing in two steps yields the same blocks, transactions and cursor
      as syncing once: no block is scanned twice or skipped. */
  lemma {:induction false} SyncIncremental(c: CacheState, node: Node, mid: int, latest: int, t1: string, t2: string)
    requires c.lastScannedBlock < mid < latest
    ensures Sync(Sync(c, node, mid, t1), node, latest, t2).blocks == Sync(c, node, latest, t2).blocks
    ensures Sync(Sync(c, node, mid, t1), node, latest, t2).transactions == Sync(c, node, latest, t2).transactions
    ensures Sync(Sync(c, node, mid, t1), node, latest, t2).lastScannedBlock == Sync(c, node, latest, t2).lastScannedBlock
  {
    var c1 := Sync(c, node, mid, t1);
    var b1, b2 := SplitNewBlocks(c, node, mid, latest, t1);
    SyncChainAppends(c, node, mid, t1);
    SyncChainAppends(c1, node, latest, t2);
    SyncChainAppends(c, node, latest, t2);
    SummariesAppend(b1, b2);
    AllTxsAppend(b1, b2);
    AppendAssoc(c.blocks, Summaries(b1), Summaries(b2));
    AppendAssoc(c.transactions, AllTxs(b1), AllTxs(b2));
  }

  /** Syncing in two steps finds the same contracts as syncing once. */
  lemma {:induction false} SyncIncrementalContracts(c: CacheState, node: Node, mid: int, latest: int, t1: string, t2: string, a: Address)
    requires c.lastScannedBlock < mid < latest
    ensures a in Sync(Sync(c, node, mid, t1), node, latest, t2).contracts <==> a in Sync(c, node, latest, t2).contracts
  {
    var c1 := Sync(c, node, mid, t1);
    var b1, b2 := SplitNewBlocks(c, node, mid, latest, t1);
    SyncAppends(c, node, mid, t1);
    SyncAppends(c1, node, latest, t2);
    SyncAppends(c, node, latest, t2);
    AllTxsAppend(b1, b2);
    assert Created(node, AllTxs(b1) + AllTxs(b2)) == Created(node, AllTxs(b1)) + Created(node, AllTxs(b2));
  }

  /** The blocks of a one-shot sync are those of the first step followed by
      those of the second. */
  lemma {:induction false} SplitNewBlocks(c: CacheState, node: Node, mid: int, latest: int, t1: string)
    returns (b1: seq<Block>, b2: seq<Block>)
    requires c.lastScannedBlock < mid < latest
    ensures b1 == NewBlocks(c, node, mid) && b2 == NewBlocks(Sync(c, node, mid, t1), node, latest)
    ensures NewBlocks(c, node, latest) == b1 + b2
  {
    b1, b2 := NewBlocks(c, node, mid), NewBlocks(Sync(c, node, mid, t1), node, latest);
    FoundBlocksSplit(node, c.lastScannedBlock + 1, mid + 1, latest + 1);
  }

  /** `syncCache()`. A failing `getBlockNumber` rejects before anything is
      read or written; an up-to-date cache is returned without a write;
      otherwise the new cache is written (a failed write is swallowed) and
      returned. */
  method SyncCache(stored: Stored, node: Node, now: string, writeOk: bool) returns (result: Option<CacheState>, stored': Stored)
    ensures node.latest.None? ==> result == None && stored' == stored
    ensures node.latest.Some? ==> result == Some(Sync(ReadCache(stored), node, node.latest.value, now))
    ensures node.latest.Some? && ReadCache(stored).lastScannedBlock >= node.latest.value ==> stored' == stored
    ensures node.latest.Some? && ReadCache(stored).lastScannedBlock < node.latest.value ==>
              stored' == WriteCache(stored, result.value, writeOk)
  {
    if node.latest.None? {
      return None, stored;
    }
    var latest := node.latest.value;
    var cache := ReadCache(stored);
    var startBlock := cache.lastScannedBlock + 1;
    if startBlock > latest {
      return Some(cache), stored;
    }
    var c, newContracts, windows, requested := ScanBlocks(cache, node, startBlock, latest);
    ghost var st := Scanned(cache, node, latest);
    assert ScanState(c, newContracts) == st;
    var checked, tokens, probed := ClassifyContracts(c.checkedContracts, c.tokens, node, newContracts);
    assert Registry(checked, tokens) == Classified(st, node);
    SyncFacts(cache, node, latest, now);
    tokens := SortBy(tokens, MoreSupply);
    c := c.(checkedContracts := checked, tokens := tokens, lastScannedBlock := latest, lastSynced := Some(now));
    assert c == Sync(cache, node, latest, now);
    stored' := WriteCache(stored, c, writeOk);
    result := Some(c);
  }
}
