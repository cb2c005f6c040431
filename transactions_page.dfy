/** The transactions page (`app/transactions/page.js`): the cached
    transactions, newest first, shown twenty-five to a page with a window of
    at most seven page buttons between "previous" and "next". */
module TransactionsPage {
  import opened Wrappers
  import opened JsString
  import opened Sorting
  import opened Chain
  import opened Display

  const PerPage: nat := 25

  // ------------------------------------------------------ order

  /** The comparator `b.blockNumber - a.blockNumber || b.timestamp - a.timestamp`
      is negative exactly when `a` is from a later block, or from the same
      block with a later timestamp. */
  predicate Newer(a: TxSummary, b: TxSummary) {
    a.blockNumber > b.blockNumber || (a.blockNumber == b.blockNumber && a.timestamp > b.timestamp)
  }

  lemma {:induction false} NewerIsStrict()
    ensures StrictOrder(Newer)
  {
  }

  /** The sorted copy of the fetched list: the same transactions, by block
      number descending and, within a block, by timestamp descending. */
  function NewestFirst(txs: seq<TxSummary>): (r: seq<TxSummary>)
    ensures multiset(r) == multiset(txs)
    ensures forall i, j :: 0 <= i < j < |r| ==>
              r[i].blockNumber > r[j].blockNumber
              || (r[i].blockNumber == r[j].blockNumber && r[i].timestamp >= r[j].timestamp)
  {
    NewerIsStrict();
    var r := SortBy(txs, Newer);
    assert forall i, j :: 0 <= i < j < |r| ==> !Newer(r[j], r[i]);
    r
  }

  /** Sorting a list that is already newest first changes nothing. */
  lemma {:induction false} NewestFirstStable(txs: seq<TxSummary>)
    requires forall i, j :: 0 <= i < j < |txs| ==> !Newer(txs[j], txs[i])
    ensures NewestFirst(txs) == txs
  {
    NewerIsStrict();
    SortBySorted(txs, Newer);
  }

  // ------------------------------------------------------ pages

  /** `Math.ceil(length / 25)`. */
  function TotalPages(n: nat): (p: nat)
    ensures n == 0 <==> p == 0
    ensures n > 0 ==> (p - 1) * 25 < n <= p * 25
  {
    (n + 24) / 25
  }

  /** `transactions.slice((page - 1) * 25, page * 25)`. */
  function PageSlice<T>(items: seq<T>, page: int): (r: seq<T>)
    ensures |r| <= PerPage
  {
    Slice(items, (page - 1) * 25, page * 25)
  }

  /** Every transaction is on exactly one page: the one numbered
      `k / 25 + 1`, at position `k % 25`; every page before the last is
      full, and the last is not empty. */
  lemma {:induction false} PagesPartition<T>(items: seq<T>, k: nat)
    requires k < |items|
    ensures 1 <= k / 25 + 1 <= TotalPages(|items|)
    ensures |PageSlice(items, k / 25 + 1)| > k % 25
    ensures PageSlice(items, k / 25 + 1)[k % 25] == items[k]
  {
    var p := k / 25 + 1;
    var lo, hi := (p - 1) * 25, Min(p * 25, |items|);
    assert lo == k - k % 25;
    assert PageSlice(items, p) == items[lo..hi];
  }

  lemma {:induction false} PagesFull<T>(items: seq<T>, p: int)
    requires 1 <= p <= TotalPages(|items|)
    ensures p < TotalPages(|items|) ==> |PageSlice(items, p)| == PerPage
    ensures |PageSlice(items, p)| > 0
  {
    var lo := (p - 1) * 25;
    assert lo < |items|;
    if p < TotalPages(|items|) {
      assert p * 25 <= (TotalPages(|items|) - 1) * 25 < |items|;
      assert PageSlice(items, p) == items[lo..p * 25];
    } else {
      assert PageSlice(items, p) == items[lo..Min(p * 25, |items|)];
    }
  }

  /** The page numbers of the buttons between "previous" and "next": seven
      consecutive pages, or all of them when there are no more than seven,
      centred on the current page where the ends allow it. */
  function PageButtons(total: nat, page: int): (r: seq<int>)
    ensures |r| == Min(total, 7)
    ensures forall i :: 0 <= i < |r| ==> 1 <= r[i] <= total
    ensures forall i :: 0 < i < |r| ==> r[i] == r[i - 1] + 1
    ensures 1 <= page <= total ==> page in r
    ensures total > 0 && (total <= 7 || page <= 4) ==> r[0] == 1
    ensures total > 7 && 4 < page < total - 3 ==> r[0] == page - 3
    ensures total > 7 && page >= total - 3 ==> r[|r| - 1] == total
  {
    var first :=
      if total <= 7 then 1
      else if page <= 4 then 1
      else if page >= total - 3 then total - 6
      else page - 3;
    var r := seq(Min(total, 7), i => first + i);
    assert 1 <= page <= total ==> r[page - first] == page;
    r
  }

  /** The pagination bar is drawn only when there is more than one page. */
  predicate PaginationShown(total: nat) { total > 1 }

  /** The page state of the transactions page: the sorted list it was
      given, and the page `setPage` moves between. */
  class Pager {
    const items: seq<TxSummary>
    var page: int

    function Total(): nat { TotalPages(|items|) }

    /** `paginated`: the transactions on the current page. */
    function Shown(): seq<TxSummary>
      reads this
    {
      PageSlice(items, page)
    }

    /** The page is a real page, or page one of an empty list. */
    ghost predicate Valid()
      reads this
    {
      1 <= page && (page <= Total() || page == 1)
    }

    constructor(fetched: seq<TxSummary>)
      ensures items == NewestFirst(fetched) && page == 1
      ensures Valid()
    {
      items := NewestFirst(fetched);
      page := 1;
    }

    /** "‹": disabled on the first page, otherwise one page back. */
    method Prev()
      requires Valid()
      modifies this
      ensures Valid()
      ensures page == if old(page) <= 1 then old(page) else old(page) - 1
    {
      if page > 1 {
        page := page - 1;
      }
    }

    /** "›": disabled on the last page, otherwise one page on. */
    method Next()
      requires Valid()
      modifies this
      ensures Valid()
      ensures page == if old(page) >= Total() then old(page) else old(page) + 1
    {
      if page < Total() {
        page := page + 1;
      }
    }

    /** A page-number button. */
    method Select(n: int)
      requires Valid() && n in PageButtons(Total(), page)
      modifies this
      ensures Valid() && page == n
    {
      page := n;
    }
  }

  /** On a valid page of a non-empty list something is shown, and never
      more than twenty-five transactions. */
  lemma {:induction false} ShownOnValidPage(p: Pager)
    requires p.Valid() && |p.items| > 0
    ensures 0 < |p.Shown()| <= PerPage
  {
    PagesFull(p.items, p.page);
  }

  // ------------------------------------------------------ time ago

  /** `timeAgo`'s buckets: seconds below a minute (negative differences
      included), then whole minutes, hours and days, rounded down. */
  function Elapsed(diff: int): (a: Age)
    ensures diff < 60 ==> a == Ago(diff, Seconds)
    ensures diff >= 60 ==> Floors(diff, a) && a.unit != Seconds
    ensures diff >= 60 ==> forall u :: UnitLength(u) <= diff ==> UnitLength(u) <= UnitLength(a.unit)
  {
    if diff < 60 then Ago(diff, Seconds)
    else if diff < 3600 then Ago(diff / 60, Minutes)
    else if diff < 86400 then Ago(diff / 3600, Hours)
    else Ago(diff / 86400, Days)
  }

  function UnitName(u: Unit): string {
    match u
    case Seconds => "s ago"
    case Minutes => " min ago"
    case Hours => " hrs ago"
    case Days => " days ago"
  }

  /** `timeAgo(timestamp)` at `now`, the clock in whole seconds. */
  function TimeAgo(now: int, timestamp: int): string {
    Render(Elapsed(now - timestamp), UnitName)
  }

  /** The number shown is the rounded-down amount of the unit chosen. */
  lemma {:induction false} TimeAgoAmount(now: int, timestamp: int)
    ensures ParseInt(TimeAgo(now, timestamp)) == Some(Elapsed(now - timestamp).amount)
  {
    var a := Elapsed(now - timestamp);
    RenderAmount(a.amount, a.unit, UnitName);
  }

  // ------------------------------------------------------ cells

  /** The hash column: `truncate(tx.hash, 10, 6)` of a 66-character hash. */
  lemma {:induction false} HashCell(hash: Hash)
    requires |hash| == 66
    ensures Truncate(Some(hash), 10, 6) == hash[..10] + "..." + hash[60..]
    ensures |Truncate(Some(hash), 10, 6)| == 19
  {
  }
}
