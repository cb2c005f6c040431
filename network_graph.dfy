/** `getNetworkGraphFromCache` (`lib/cache.js`): the address graph drawn from
    the cached transactions. Every non-empty lower-cased sender and recipient
    becomes a node, once, in order of first appearance; each unordered pair
    (sender, recipient) becomes an edge weighted by the number of
    transactions between the two, keyed by the pair sorted and joined with
    `-`. */
module NetworkGraph {
  import opened Wrappers
  import opened Chain
  import opened JsString
  import opened Assoc
  import opened CacheStore

  /** A graph node; `caption` is the `label` field. */
  datatype GraphNode = GraphNode(id: string, caption: string, balance: real)

  datatype Edge = Edge(source: string, target: string, weight: int)

  /** What the first loop builds: the address set, in insertion order, and
      the edge counts, in insertion order of their keys. */
  datatype Tally = Tally(addresses: seq<string>, edgeMap: Assoc<string, int>)

  /** `[a, b].sort().join('-')`: the default sort puts the smaller string
      first, and keeps the order of equal strings. */
  function EdgeKey(a: string, b: string): string {
    if StrLess(b, a) then b + "-" + a else a + "-" + b
  }

  /** The edge a transaction contributes: only one with a non-empty
      recipient has one. */
  function EdgeOf(tx: TxSummary): Option<string> {
    if tx.to.Some? && Lower(tx.to.value) != "" then Some(EdgeKey(Lower(tx.from), Lower(tx.to.value))) else None
  }

  /** `set.add(a)`: a new member goes last, a present one stays in place. */
  function AddOnce(s: seq<string>, a: string): seq<string> {
    if a in s then s else s + [a]
  }

  /** One turn of the first loop. */
  function TallyTx(t: Tally, tx: TxSummary): Tally {
    var from := Lower(tx.from);
    var addrs := if from != "" then AddOnce(t.addresses, from) else t.addresses;
    match EdgeOf(tx)
    case None => Tally(addrs, t.edgeMap)
    case Some(key) => Tally(AddOnce(addrs, Lower(tx.to.value)), Counted(t.edgeMap, key))
  }

  /** `edgeMap[key] = (edgeMap[key] || 0) + 1`. */
  function Counted(m: Assoc<string, int>, key: string): Assoc<string, int> {
    Put(m, key, Get(m, key).GetOr(0) + 1)
  }

  function TallyAll(txs: seq<TxSummary>): Tally {
    if txs == [] then Tally([], []) else TallyTx(TallyAll(txs[..|txs| - 1]), txs[|txs| - 1])
  }

  // ------------------------------------------------------ reference counts

  /** An address a transaction touches, as the graph sees it. */
  predicate Touches(tx: TxSummary, a: string) {
    a != "" && (Lower(tx.from) == a || (tx.to.Some? && Lower(tx.to.value) == a))
  }

  /** The number of transactions whose edge has key `k`. */
  function CountKey(txs: seq<TxSummary>, k: string): nat {
    if txs == [] then 0 else CountKey(txs[..|txs| - 1], k) + (if EdgeOf(txs[|txs| - 1]) == Some(k) then 1 else 0)
  }

  /** The number of transactions that contribute an edge. */
  function EdgeTotal(txs: seq<TxSummary>): nat {
    if txs == [] then 0 else EdgeTotal(txs[..|txs| - 1]) + (if EdgeOf(txs[|txs| - 1]).Some? then 1 else 0)
  }

  // ------------------------------------------------------ lemmas

  /** The key does not depend on which end sent the transaction. */
  lemma {:induction false} EdgeKeySymmetric(a: string, b: string)
    ensures EdgeKey(a, b) == EdgeKey(b, a)
  {
    if a != b {
      StrLessTotal(a, b);
      if StrLess(a, b) && StrLess(b, a) {
        StrLessTransitive(a, b, a);
        StrLessIrreflexive(a);
      }
    }
  }

  lemma {:induction false} AddOnceMembers(s: seq<string>, a: string)
    ensures forall x :: x in AddOnce(s, a) <==> x in s || x == a
    ensures NoDuplicates(s) ==> NoDuplicates(AddOnce(s, a))
    ensures s <= AddOnce(s, a)
  {
  }

  /** One transaction adds the addresses it touches and nothing else. */
  lemma {:induction false} TallyTxAddresses(t: Tally, tx: TxSummary)
    ensures forall a :: a in TallyTx(t, tx).addresses <==> a in t.addresses || Touches(tx, a)
    ensures NoDuplicates(t.addresses) ==> NoDuplicates(TallyTx(t, tx).addresses)
  {
    var from := Lower(tx.from);
    var addrs := if from != "" then AddOnce(t.addresses, from) else t.addresses;
    AddOnceMembers(t.addresses, from);
    if EdgeOf(tx).Some? {
      AddOnceMembers(addrs, Lower(tx.to.value));
    }
  }

  /** The node list holds every address some transaction touches, each once,
      and nothing else. */
  lemma {:induction false} TallyAddresses(txs: seq<TxSummary>)
    ensures NoDuplicates(TallyAll(txs).addresses)
    ensures forall a :: a in TallyAll(txs).addresses <==> exists i :: 0 <= i < |txs| && Touches(txs[i], a)
    decreases |txs|
  {
    if txs != [] {
      var init, tx := txs[..|txs| - 1], txs[|txs| - 1];
      TallyAddresses(init);
      TallyTxAddresses(TallyAll(init), tx);
      forall a ensures a in TallyAll(txs).addresses <==> exists i :: 0 <= i < |txs| && Touches(txs[i], a) {
        if a in TallyAll(init).addresses {
          var i :| 0 <= i < |init| && Touches(init[i], a);
          assert txs[i] == init[i];
        }
        if exists i :: 0 <= i < |txs| && Touches(txs[i], a) {
          var i :| 0 <= i < |txs| && Touches(txs[i], a);
          if i < |init| {
            assert init[i] == txs[i];
          }
        }
      }
    }
  }

  /** Each edge key is stored once; its count is the number of transactions
      between the two addresses, and a key is present exactly when that
      number is positive. */
  lemma {:induction false} TallyEdges(txs: seq<TxSummary>, k: string)
    ensures DistinctKeys(TallyAll(txs).edgeMap)
    ensures Get(TallyAll(txs).edgeMap, k).GetOr(0) == CountKey(txs, k)
    ensures Get(TallyAll(txs).edgeMap, k).None? <==> CountKey(txs, k) == 0
    decreases |txs|
  {
    if txs == [] {
      assert TallyAll(txs).edgeMap == [];
    } else {
      var init, tx := txs[..|txs| - 1], txs[|txs| - 1];
      TallyEdges(init, k);
      TallyEdgeStep(txs, k);
      BumpCounts(TallyAll(init).edgeMap, CountKey(init, k), EdgeOf(tx), k);
    }
  }

  /** The edge map after a transaction contributing `edge`, if any. */
  function Bumped(m: Assoc<string, int>, edge: Option<string>): Assoc<string, int> {
    match edge
    case None => m
    case Some(key) => Counted(m, key)
  }

  /** The edge map and the reference count after one more transaction. */
  lemma {:induction false} TallyEdgeStep(txs: seq<TxSummary>, k: string)
    requires txs != []
    ensures TallyAll(txs).edgeMap == Bumped(TallyAll(txs[..|txs| - 1]).edgeMap, EdgeOf(txs[|txs| - 1]))
    ensures CountKey(txs, k) == CountKey(txs[..|txs| - 1], k) + if EdgeOf(txs[|txs| - 1]) == Some(k) then 1 else 0
  {
  }

  /** The three facts `TallyEdges` states, carried over one transaction. */
  lemma {:induction false} BumpCounts(m: Assoc<string, int>, c: nat, edge: Option<string>, k: string)
    requires DistinctKeys(m) && Get(m, k).GetOr(0) == c && (Get(m, k).None? <==> c == 0)
    ensures DistinctKeys(Bumped(m, edge))
    ensures Get(Bumped(m, edge), k).GetOr(0) == c + if edge == Some(k) then 1 else 0
    ensures Get(Bumped(m, edge), k).None? <==> c + (if edge == Some(k) then 1 else 0) == 0
  {
    if edge.Some? {
      Bump(m, edge.value, k);
    }
  }

  /** Counting a key adds one to that key only. */
  lemma {:induction false} Bump(m: Assoc<string, int>, key: string, k: string)
    requires DistinctKeys(m)
    ensures DistinctKeys(Counted(m, key))
    ensures Get(Counted(m, key), k) == if k == key then Some(Get(m, key).GetOr(0) + 1) else Get(m, k)
  {
    var w := Get(m, key).GetOr(0) + 1;
    PutDistinct(m, key, w);
    GetPut(m, key, w, k);
  }

  /** The weights add up to the number of transactions with a recipient. */
  lemma {:induction false} TallyWeights(txs: seq<TxSummary>)
    ensures SumValues(TallyAll(txs).edgeMap) == EdgeTotal(txs)
    decreases |txs|
  {
    if txs != [] {
      var init, tx := txs[..|txs| - 1], txs[|txs| - 1];
      TallyWeights(init);
      var t := TallyAll(init);
      if EdgeOf(tx).Some? {
        var key := EdgeOf(tx).value;
        SumPut(t.edgeMap, key, Get(t.edgeMap, key).GetOr(0) + 1);
      }
    }
  }

  // ------------------------------------------------------ nodes and edges

  /** `parseFloat(ethers.formatEther(bal))`, as an exact number of ether. */
  function Ether(wei: nat): real {
    wei as real / 1000000000000000000.0
  }

  /** `` `${addr.slice(0, 6)}...${addr.slice(-4)}` ``. */
  function Label(addr: string): string {
    Slice(addr, 0, 6) + "..." + SliceFrom(addr, -4)
  }

  /** A full address is shown by its first six and its last four characters. */
  lemma {:induction false} LabelShape(addr: string)
    requires |addr| >= 6
    ensures Label(addr) == addr[..6] + "..." + addr[|addr| - 4..]
    ensures |Label(addr)| == 13
  {
  }

  /** The node for one address; a failed balance call leaves 0. */
  function NodeFor(node: Node, addr: string): (n: GraphNode)
    ensures n.id == addr && n.caption == Label(addr)
    ensures node.balance(addr).None? ==> n.balance == 0.0
    ensures node.balance(addr).Some? ==> n.balance == Ether(node.balance(addr).value)
  {
    GraphNode(addr, Label(addr), if node.balance(addr).Some? then Ether(node.balance(addr).value) else 0.0)
  }

  /** `const [source, target] = key.split('-')`, weighted by the count. */
  function EdgeFor(entry: (string, int)): Edge {
    var parts := SplitDash(entry.0);
    Edge(parts[0], if |parts| >= 2 then parts[1] else "", entry.1)
  }

  function EdgesOf(m: Assoc<string, int>): (es: seq<Edge>)
    ensures |es| == |m|
    ensures forall i :: 0 <= i < |m| ==> es[i] == EdgeFor(m[i])
  {
    if m == [] then [] else EdgesOf(m[..|m| - 1]) + [EdgeFor(m[|m| - 1])]
  }

  /** Between two addresses without a dash (every hex address), the edge
      splits back into the two, the smaller one as its source. */
  lemma {:induction false} EdgeEndpoints(a: string, b: string, w: int)
    requires NoDash(a) && NoDash(b)
    ensures EdgeFor((EdgeKey(a, b), w)) == if StrLess(b, a) then Edge(b, a, w) else Edge(a, b, w)
  {
    if StrLess(b, a) {
      SplitJoin(b, a);
    } else {
      SplitJoin(a, b);
    }
  }

  // ------------------------------------------------------ weights per pair

  /** A transaction with a recipient runs between `a` and `b`, either way. */
  predicate Between(tx: TxSummary, a: string, b: string) {
    tx.to.Some? && Lower(tx.to.value) != "" &&
    ((Lower(tx.from) == a && Lower(tx.to.value) == b) || (Lower(tx.from) == b && Lower(tx.to.value) == a))
  }

  /** The number of transactions between `a` and `b`, in either direction. */
  function CountPair(txs: seq<TxSummary>, a: string, b: string): nat {
    if txs == [] then 0 else CountPair(txs[..|txs| - 1], a, b) + (if Between(txs[|txs| - 1], a, b) then 1 else 0)
  }

  /** Every endpoint is free of dashes, as every hex address is. */
  predicate DashFree(txs: seq<TxSummary>) {
    forall i :: 0 <= i < |txs| ==> NoDash(Lower(txs[i].from)) && (txs[i].to.Some? ==> NoDash(Lower(txs[i].to.value)))
  }

  /** Between dash-free addresses, a key names one unordered pair. */
  lemma {:induction false} EdgeKeyInjective(a: string, b: string, c: string, d: string)
    requires NoDash(a) && NoDash(b) && NoDash(c) && NoDash(d)
    requires EdgeKey(a, b) == EdgeKey(c, d)
    ensures (a == c && b == d) || (a == d && b == c)
  {
    EdgeEndpoints(a, b, 0);
    EdgeEndpoints(c, d, 0);
  }

  /** A transaction has the edge of `(a, b)` exactly when it runs between them. */
  lemma {:induction false} EdgeOfPair(tx: TxSummary, a: string, b: string)
    requires NoDash(a) && NoDash(b)
    requires NoDash(Lower(tx.from)) && (tx.to.Some? ==> NoDash(Lower(tx.to.value)))
    ensures EdgeOf(tx) == Some(EdgeKey(a, b)) <==> Between(tx, a, b)
  {
    if EdgeOf(tx).Some? {
      var f, t := Lower(tx.from), Lower(tx.to.value);
      if EdgeKey(f, t) == EdgeKey(a, b) {
        EdgeKeyInjective(f, t, a, b);
      }
      EdgeKeySymmetric(a, b);
    }
  }

  lemma {:induction false} CountKeyPair(txs: seq<TxSummary>, a: string, b: string)
    requires NoDash(a) && NoDash(b) && DashFree(txs)
    ensures CountKey(txs, EdgeKey(a, b)) == CountPair(txs, a, b)
    decreases |txs|
  {
    if txs != [] {
      var init := txs[..|txs| - 1];
      assert DashFree(init) by {
        forall i | 0 <= i < |init| ensures init[i] == txs[i] { }
      }
      CountKeyPair(init, a, b);
      EdgeOfPair(txs[|txs| - 1], a, b);
    }
  }

  /** The edge between two dash-free addresses weighs the number of
      transactions between them, in either direction, and is absent when
      there is none. */
  lemma {:induction false} TallyPairs(txs: seq<TxSummary>, a: string, b: string)
    requires NoDash(a) && NoDash(b) && DashFree(txs)
    ensures Get(TallyAll(txs).edgeMap, EdgeKey(a, b)).GetOr(0) == CountPair(txs, a, b)
    ensures Get(TallyAll(txs).edgeMap, EdgeKey(a, b)).None? <==> CountPair(txs, a, b) == 0
  {
    TallyEdges(txs, EdgeKey(a, b));
    CountKeyPair(txs, a, b);
  }

  // ------------------------------------------------------ the method

  /** One turn of the first loop of `getNetworkGraphFromCache`. */
  method CountTransaction(addresses: seq<string>, edgeMap: Assoc<string, int>, tx: TxSummary)
    returns (addresses': seq<string>, edgeMap': Assoc<string, int>)
    ensures Tally(addresses', edgeMap') == TallyTx(Tally(addresses, edgeMap), tx)
  {
    addresses', edgeMap' := addresses, edgeMap;
    var from := Lower(tx.from);
    if from != "" && from !in addresses' {
      addresses' := addresses' + [from];
    }
    assert addresses' == if from != "" then AddOnce(addresses, from) else addresses;
    if tx.to.Some? && Lower(tx.to.value) != "" {
      var to := Lower(tx.to.value);
      if to !in addresses' {
        addresses' := addresses' + [to];
      }
      var key := EdgeKey(from, to);
      assert EdgeOf(tx) == Some(key);
      var prev := Get(edgeMap', key);
      edgeMap' := Put(edgeMap', key, (if prev.Some? then prev.value else 0) + 1);
    }
  }

  /** The first loop of `getNetworkGraphFromCache`. */
  method CountTransactions(txs: seq<TxSummary>) returns (addresses: seq<string>, edgeMap: Assoc<string, int>)
    ensures Tally(addresses, edgeMap) == TallyAll(txs)
  {
    addresses, edgeMap := [], [];
    for i := 0 to |txs|
      invariant Tally(addresses, edgeMap) == TallyAll(txs[..i])
    {
      assert txs[..i + 1][..i] == txs[..i];
      addresses, edgeMap := CountTransaction(addresses, edgeMap, txs[i]);
    }
    assert txs[..|txs|] == txs;
  }

  /** The balance loop: one node per address, in order. */
  method BuildNodes(node: Node, addresses: seq<string>) returns (nodes: seq<GraphNode>)
    ensures |nodes| == |addresses|
    ensures forall i :: 0 <= i < |addresses| ==> nodes[i] == NodeFor(node, addresses[i])
  {
    nodes := [];
    for i := 0 to |addresses|
      invariant |nodes| == i
      invariant forall j :: 0 <= j < i ==> nodes[j] == NodeFor(node, addresses[j])
    {
      var addr := addresses[i];
      var balance := 0.0;
      var bal := node.balance(addr);
      if bal.Some? {
        balance := Ether(bal.value);
      }
      nodes := nodes + [GraphNode(addr, Label(addr), balance)];
    }
  }

  /** `getNetworkGraphFromCache(cache)`. */
  method GetNetworkGraph(cache: CacheState, node: Node) returns (nodes: seq<GraphNode>, edges: seq<Edge>)
    ensures |nodes| == |TallyAll(cache.transactions).addresses|
    ensures forall i :: 0 <= i < |nodes| ==> nodes[i] == NodeFor(node, TallyAll(cache.transactions).addresses[i])
    ensures edges == EdgesOf(TallyAll(cache.transactions).edgeMap)
  {
    var addresses, edgeMap := CountTransactions(cache.transactions);
    nodes := BuildNodes(node, addresses);
    edges := EdgesOf(edgeMap);
  }
}
