/** The blocks page (`app/blocks/page.js`): the twenty-five most recent
    blocks with the failed ones dropped, and its own variants of `truncate`
    and `timeAgo`. */
module BlocksPage {
  import opened Wrappers
  import opened JsString
  import opened Chain
  import opened Display
  import opened Ethereum
  import Dashboard

  /** This page's `truncate` has no `end === 0` case: `str.slice(-0)` is the
      whole string, so with `end` zero a long string is followed by `...`
      and then repeated in full. */
  function Truncate(str: Option<string>, start: nat, end: nat): (r: string)
    ensures end > 0 || str.None? || |str.value| <= start + end + 3 ==> r == Display.Truncate(str, start, end)
    ensures str.None? || str.value == [] ==> r == ""
    ensures str.Some? && |str.value| <= start + end + 3 ==> r == str.value
    ensures end == 0 && str.Some? && |str.value| > start + 3 ==> r == str.value[..start] + "..." + str.value
  {
    if str.None? || str.value == [] then ""
    else
      var s := str.value;
      if |s| <= start + end + 3 then s
      else Slice(s, 0, start) + "..." + SliceFrom(s, -(end as int))
  }

  /** The miner column: `truncate(block.miner, 10, 6)` of a 42-character address. */
  lemma {:induction false} MinerCell(miner: string)
    requires |miner| == 42
    ensures Truncate(Some(miner), 10, 6) == miner[..10] + "..." + miner[36..]
  {
  }

  /** `timeAgo` without a days bucket: anything from an hour on is counted
      in hours. */
  function Elapsed(diff: int): (a: Age)
    ensures a.JustNow? <==> diff < 5
    ensures 5 <= diff < 60 ==> a == Ago(diff, Seconds)
    ensures diff >= 60 ==> Floors(diff, a) && a.unit != Seconds && a.unit != Days
    ensures diff >= 60 ==> forall u :: u != Days && UnitLength(u) <= diff ==> UnitLength(u) <= UnitLength(a.unit)
  {
    if diff < 5 then JustNow
    else if diff < 60 then Ago(diff, Seconds)
    else if diff < 3600 then Ago(diff / 60, Minutes)
    else Ago(diff / 3600, Hours)
  }

  function TimeAgo(now: int, timestamp: int): string {
    Render(Elapsed(now - timestamp), Dashboard.UnitName)
  }

  /** Below a day this page agrees with the home page; from a day on it
      shows twenty-four hours or more instead of days. */
  lemma {:induction false} AgesAgree(diff: int)
    ensures diff < 86400 ==> Elapsed(diff) == Dashboard.Elapsed(diff)
    ensures diff >= 86400 ==> Elapsed(diff).unit == Hours && Elapsed(diff).amount >= 24
  {
  }

  /** The blocks shown, `getRecentBlocks(count).filter(Boolean)` once the
      call succeeded: no more than `count`, newest first, every one of them
      among the `count` most recent. */
  lemma {:induction false} ShownBlocks(node: Node, count: int, list: seq<Option<Block>>)
    requires Consistent(node) && node.latest.Some?
    requires AllOrFail(FetchNumbers(node, RecentNumbers(node.latest.value, count))) == Some(list)
    ensures |Present(list)| <= Min(Max(count, 0), node.latest.value + 1)
    ensures forall b :: b in Present(list) ==> Max(0, node.latest.value - count + 1) <= b.number <= node.latest.value
    ensures forall i, j :: 0 <= i < j < |Present(list)| ==> Present(list)[i].number > Present(list)[j].number
  {
    FetchedNumbers(node, count, list);
    NumberedShown(list, node.latest.value);
  }

  /** Dropping the nulls from answers numbered `latest`, `latest - 1`, …
      leaves strictly descending numbers inside that range. */
  lemma {:induction false} NumberedShown(list: seq<Option<Block>>, latest: int)
    requires forall k :: 0 <= k < |list| && list[k].Some? ==> list[k].value.number == latest - k
    ensures forall b :: b in Present(list) ==> latest - |list| < b.number <= latest
    ensures forall i, j :: 0 <= i < j < |Present(list)| ==> Present(list)[i].number > Present(list)[j].number
  {
    forall b | b in Present(list) ensures latest - |list| < b.number <= latest {
      var k :| 0 <= k < |list| && list[k] == Some(b);
    }
    PresentDescending(list, (b: Block) => b.number);
  }

  /** The `k`-th answer of the call is block `latest - k`, or null. */
  lemma {:induction false} FetchedNumbers(node: Node, count: int, list: seq<Option<Block>>)
    requires Consistent(node) && node.latest.Some?
    requires AllOrFail(FetchNumbers(node, RecentNumbers(node.latest.value, count))) == Some(list)
    ensures |list| == Min(Max(count, 0), node.latest.value + 1)
    ensures forall k :: 0 <= k < |list| && list[k].Some? ==> list[k].value.number == node.latest.value - k
  {
    var latest := node.latest.value;
    var ns := RecentNumbers(latest, count);
    RecentNumbersShape(latest, count);
    forall k | 0 <= k < |list| && list[k].Some? ensures list[k].value.number == latest - k {
      FetchedAt(node, ns, list, k);
      assert ns[k] == latest - k;
    }
  }

  /** Answer `k` of `Promise.all` over the fetches of `ns` is block `ns[k]`. */
  lemma {:induction false} FetchedAt(node: Node, ns: seq<int>, list: seq<Option<Block>>, k: nat)
    requires Consistent(node) && AllOrFail(FetchNumbers(node, ns)) == Some(list)
    requires k < |list| && list[k].Some?
    ensures k < |ns| && list[k].value.number == ns[k]
  {
    var fs := FetchNumbers(node, ns);
    assert list[k] == Fetched(fs[k]);
    assert fs[k] == node.blockAt(ns[k]);
  }
}
