/** What the windowed block scanners of `lib/cache.js` and `lib/ethereum.js`
    share: the windows of twenty blocks, the blocks a range yields once
    failed and missing fetches are skipped, and the transaction summaries
    those blocks carry. */
module BlockScan {
  import opened Wrappers
  import opened Chain

  const BatchSize: nat := 20

  /** The blocks of `lo .. hi - 1` that were fetched, in ascending order. */
  function FoundBlocks(node: Node, lo: int, hi: int): (r: seq<Block>)
    ensures |r| <= if hi <= lo then 0 else hi - lo
    decreases hi - lo
  {
    if hi <= lo then []
    else FoundBlocks(node, lo, hi - 1) + (if node.blockAt(hi - 1).Found? then [node.blockAt(hi - 1).block] else [])
  }

  function Summaries(bs: seq<Block>): (r: seq<BlockSummary>)
    ensures |r| == |bs|
    ensures forall i :: 0 <= i < |bs| ==> r[i] == SummarizeBlock(bs[i])
  {
    if bs == [] then [] else Summaries(bs[..|bs| - 1]) + [SummarizeBlock(bs[|bs| - 1])]
  }

  /** The summaries of every transaction of the given blocks, block by block. */
  function AllTxs(bs: seq<Block>): seq<TxSummary> {
    if bs == [] then [] else AllTxs(bs[..|bs| - 1]) + SummarizeAll(TxsOf(bs[|bs| - 1]), bs[|bs| - 1])
  }

  /** The number of transactions the given blocks carry. */
  function TxTotal(bs: seq<Block>): nat {
    if bs == [] then 0 else TxTotal(bs[..|bs| - 1]) + |TxsOf(bs[|bs| - 1])|
  }

  /** The transaction count grows by exactly the number of transactions the
      fetched blocks carry, and when every block of the range is fetched the
      block count grows by the length of the range. */
  lemma {:induction false} ScanCounts(node: Node, lo: int, hi: int)
    ensures |AllTxs(FoundBlocks(node, lo, hi))| == TxTotal(FoundBlocks(node, lo, hi))
    ensures (forall b :: lo <= b < hi ==> node.blockAt(b).Found?) ==> |FoundBlocks(node, lo, hi)| == Max(0, hi - lo)
    decreases hi - lo
  {
    if hi > lo {
      ScanCounts(node, lo, hi - 1);
      var prev := FoundBlocks(node, lo, hi - 1);
      if node.blockAt(hi - 1).Found? {
        var bs := prev + [node.blockAt(hi - 1).block];
        assert bs[..|bs| - 1] == prev;
        assert FoundBlocks(node, lo, hi) == bs;
        assert |AllTxs(bs)| == |AllTxs(prev)| + |TxsOf(bs[|bs| - 1])|;
      } else {
        assert FoundBlocks(node, lo, hi) == prev;
      }
    }
  }

  /** Against a node that labels blocks truthfully, the fetched blocks of a
      range are strictly ascending and lie inside the range. */
  lemma {:induction false} FoundBlocksOrdered(node: Node, lo: int, hi: int)
    requires Consistent(node)
    ensures forall i :: 0 <= i < |FoundBlocks(node, lo, hi)| ==> lo <= FoundBlocks(node, lo, hi)[i].number < hi
    ensures forall i, j :: 0 <= i < j < |FoundBlocks(node, lo, hi)| ==>
              FoundBlocks(node, lo, hi)[i].number < FoundBlocks(node, lo, hi)[j].number
    decreases hi - lo
  {
    if hi > lo {
      FoundBlocksOrdered(node, lo, hi - 1);
    }
  }

  /** The transactions of blocks that ascend strictly carry ascending block
      numbers, each the number of one of the blocks. */
  lemma {:induction false} AllTxsOrdered(bs: seq<Block>, lo: int, hi: int)
    requires forall i :: 0 <= i < |bs| ==> lo <= bs[i].number < hi
    requires forall i, j :: 0 <= i < j < |bs| ==> bs[i].number < bs[j].number
    ensures forall i :: 0 <= i < |AllTxs(bs)| ==> lo <= AllTxs(bs)[i].blockNumber < hi
    ensures forall i, j :: 0 <= i < j < |AllTxs(bs)| ==> AllTxs(bs)[i].blockNumber <= AllTxs(bs)[j].blockNumber
    decreases |bs|
  {
    if bs != [] {
      var last := bs[|bs| - 1];
      var init := bs[..|bs| - 1];
      AllTxsOrdered(init, lo, last.number);
      var t1: seq<TxSummary>, t2: seq<TxSummary> := AllTxs(init), SummarizeAll(TxsOf(last), last);
      assert AllTxs(bs) == t1 + t2;
      forall i, j | 0 <= i < j < |t1 + t2|
        ensures (t1 + t2)[i].blockNumber <= (t1 + t2)[j].blockNumber
      {
        if j >= |t1| {
          assert (t1 + t2)[j].blockNumber == last.number;
        }
      }
    }
  }

  lemma {:induction false} FoundBlocksSplit(node: Node, lo: int, mid: int, hi: int)
    requires lo <= mid <= hi
    ensures FoundBlocks(node, lo, hi) == FoundBlocks(node, lo, mid) + FoundBlocks(node, mid, hi)
    decreases hi - mid
  {
    if hi > mid {
      FoundBlocksSplit(node, lo, mid, hi - 1);
    }
  }

  lemma {:induction false} SummariesAppend(a: seq<Block>, b: seq<Block>)
    ensures Summaries(a + b) == Summaries(a) + Summaries(b)
  {
  }

  lemma {:induction false} AllTxsAppend(a: seq<Block>, b: seq<Block>)
    ensures AllTxs(a + b) == AllTxs(a) + AllTxs(b)
    decreases |b|
  {
    if b != [] {
      assert (a + b)[..|a + b| - 1] == a + b[..|b| - 1];
      AllTxsAppend(a, b[..|b| - 1]);
    } else {
      assert a + b == a;
    }
  }

  // ------------------------------------------------------ windows

  /** The windows `[i, min(i + 19, latest)]` for `i = start, start + 20, ...`. */
  function Windows(start: int, latest: int): seq<(int, int)>
    decreases latest - start + 1
  {
    if start > latest then [] else [(start, Min(start + BatchSize - 1, latest))] + Windows(start + BatchSize, latest)
  }

  function Flatten(ws: seq<(int, int)>): seq<int> {
    if ws == [] then [] else Range(ws[0].0, ws[0].1 + 1) + Flatten(ws[1..])
  }

  /** The windows are non-empty, at most twenty blocks wide, and together
      request every block from `start` to `latest` once, in ascending order. */
  lemma {:induction false} WindowsCover(start: int, latest: int)
    ensures forall w :: w in Windows(start, latest) ==> w.0 <= w.1 && w.1 - w.0 < BatchSize as int
    ensures Flatten(Windows(start, latest)) == Range(start, latest + 1)
    decreases latest - start + 1
  {
    if start <= latest {
      var end := Min(start + BatchSize - 1, latest);
      WindowsCover(start + BatchSize, latest);
      var ws := Windows(start, latest);
      assert ws[1..] == Windows(start + BatchSize, latest);
      assert Flatten(ws) == Range(start, end + 1) + Range(start + BatchSize, latest + 1);
      assert Range(start, end + 1) + Range(start + BatchSize, latest + 1) == Range(start, latest + 1) by {
        var a, b := Range(start, end + 1), Range(start + BatchSize, latest + 1);
        assert |a + b| == |Range(start, latest + 1)|;
        forall k | 0 <= k < |a + b| ensures (a + b)[k] == start + k {
          if k >= |a| {
            assert (a + b)[k] == b[k - |a|];
          }
        }
      }
    }
  }

  /** `Promise.all` over the blocks of one window. */
  method FetchWindow(node: Node, lo: int, hi: int) returns (fetched: seq<Fetch>)
    requires lo <= hi
    ensures |fetched| == hi - lo + 1
    ensures forall k :: 0 <= k < |fetched| ==> fetched[k] == node.blockAt(lo + k)
  {
    fetched := [];
    var b := lo;
    while b <= hi
      invariant lo <= b <= hi + 1
      invariant |fetched| == b - lo
      invariant forall k :: 0 <= k < |fetched| ==> fetched[k] == node.blockAt(lo + k)
    {
      fetched := fetched + [node.blockAt(b)];
      b := b + 1;
    }
  }

  lemma {:induction false} FlattenSnoc(ws: seq<(int, int)>, w: (int, int))
    ensures Flatten(ws + [w]) == Flatten(ws) + Range(w.0, w.1 + 1)
    decreases |ws|
  {
    var c := Range(w.0, w.1 + 1);
    if ws == [] {
      assert ws + [w] == [w] && [w][1..] == [];
      assert Flatten([w]) == c + [];
    } else {
      var a, rest := Range(ws[0].0, ws[0].1 + 1), ws[1..];
      assert (ws + [w])[0] == ws[0];
      assert (ws + [w])[1..] == rest + [w];
      FlattenSnoc(rest, w);
      assert Flatten(ws + [w]) == a + (Flatten(rest) + c);
      AppendAssoc(a, Flatten(rest), c);
    }
  }

  /** Taking the next window off the ones still to come. */
  lemma {:induction false} WindowsAdvance(done: seq<(int, int)>, i: int, start: int, latest: int)
    requires i <= latest && done + Windows(i, latest) == Windows(start, latest)
    ensures (done + [(i, Min(i + BatchSize - 1, latest))]) + Windows(i + BatchSize, latest) == Windows(start, latest)
  {
    var w := (i, Min(i + BatchSize - 1, latest));
    assert Windows(i, latest) == [w] + Windows(i + BatchSize, latest);
    AppendAssoc(done, [w], Windows(i + BatchSize, latest));
  }

  /** The windows start every twenty blocks from `start`, end at most
      nineteen blocks later and never past `latest`; the last one ends at
      `latest`. */
  lemma {:induction false} WindowsShape(start: int, latest: int)
    ensures forall k :: 0 <= k < |Windows(start, latest)| ==>
              Windows(start, latest)[k] == (start + 20 * k, Min(start + 20 * k + 19, latest))
              && start + 20 * k <= latest
    ensures start <= latest <==> |Windows(start, latest)| > 0
    ensures |Windows(start, latest)| > 0 ==> Windows(start, latest)[|Windows(start, latest)| - 1].1 == latest
    decreases latest - start + 1
  {
    if start <= latest {
      WindowsShape(start + BatchSize, latest);
      var ws := Windows(start, latest);
      var rest := Windows(start + BatchSize, latest);
      assert ws == [(start, Min(start + BatchSize - 1, latest))] + rest;
      forall k | 1 <= k < |ws|
        ensures ws[k] == (start + 20 * k, Min(start + 20 * k + 19, latest))
      {
        assert ws[k] == rest[k - 1];
        assert start + BatchSize + 20 * (k - 1) == start + 20 * k;
      }
    }
  }
}
