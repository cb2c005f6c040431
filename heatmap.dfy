/** The logic of `components/Heatmap.js`: the colour of a cell, the
    aggregation of `"YYYY-MM-DD-HH"` counts into a day-by-hour table with its
    maximum and total, the sorted list of days, the 24 cells and the total of
    a day row, and the progress percentage. */
module Heatmap {
  import opened Wrappers
  import opened JsString
  import opened Assoc
  import opened Sorting

  // ------------------------------------------------------ colours

  /** The legend, lightest to darkest; `getColor` only ever returns these. */
  const Legend: seq<string> := ["#ebedf0", "#d4edda", "#b8e6cc", "#69d49e", "#2db873", "#00a650"]

  function RMin(a: real, b: real): real { if a <= b then a else b }

  /** `getColor(count, maxCount)`. */
  function GetColor(count: int, maxCount: int): string {
    if count == 0 then "#ebedf0"
    else
      var intensity := RMin(count as real / Max(maxCount, 1) as real, 1.0);
      if intensity < 0.2 then "#d4edda"
      else if intensity < 0.4 then "#b8e6cc"
      else if intensity < 0.6 then "#69d49e"
      else if intensity < 0.8 then "#2db873"
      else "#00a650"
  }

  /** The legend position of a cell, by integer comparisons only: a count in
      the `k`-th fifth of the maximum takes shade `k + 1`. */
  function Shade(count: int, maxCount: int): (k: nat)
    ensures k < |Legend|
  {
    var m := Max(maxCount, 1);
    if count == 0 then 0
    else if 5 * count < m then 1
    else if 5 * count < 2 * m then 2
    else if 5 * count < 3 * m then 3
    else if 5 * count < 4 * m then 4
    else 5
  }

  /** Multiplying by a positive number keeps the order. */
  lemma {:induction false} ScaleOrder(x: real, y: real, p: real)
    requires p > 0.0
    ensures x < y <==> x * p < y * p
    ensures x <= y <==> x * p <= y * p
  {
  }

  /** `c / m < k / 5` between exact numbers is `5c < km`. */
  lemma {:induction false} FifthBelow(c: int, m: int, k: int)
    requires m > 0 && 0 <= k <= 5
    ensures (c as real / m as real < k as real / 5.0) <==> 5 * c < k * m
  {
    var p := 5.0 * m as real;
    ScaleOrder(c as real / m as real, k as real / 5.0, p);
    assert (c as real / m as real) * p == (5 * c) as real;
    assert (k as real / 5.0) * p == (k * m) as real;
  }

  /** The colour is the legend entry `Shade` names. */
  lemma {:induction false} GetColorShade(count: int, maxCount: int)
    ensures GetColor(count, maxCount) == Legend[Shade(count, maxCount)]
  {
    if count != 0 {
      var m := Max(maxCount, 1);
      var q := count as real / m as real;
      FifthBelow(count, m, 1);
      FifthBelow(count, m, 2);
      FifthBelow(count, m, 3);
      FifthBelow(count, m, 4);
      FifthBelow(count, m, 5);
      assert 0.2 == 1 as real / 5.0 && 0.4 == 2 as real / 5.0 && 0.6 == 3 as real / 5.0 && 0.8 == 4 as real / 5.0;
    }
  }

  /** No transactions is the lightest colour whatever the maximum, and only
      no transactions is. */
  lemma {:induction false} ZeroIsLightest(count: int, maxCount: int)
    ensures GetColor(count, maxCount) == Legend[0] <==> count == 0
  {
    GetColorShade(count, maxCount);
  }

  /** More transactions never give a lighter colour. */
  lemma {:induction false} ShadeMonotone(c1: int, c2: int, maxCount: int)
    requires 0 <= c1 <= c2
    ensures Shade(c1, maxCount) <= Shade(c2, maxCount)
  {
  }

  /** A cell at or above the maximum is the darkest colour. */
  lemma {:induction false} AtMaximumIsDarkest(count: int, maxCount: int)
    requires count > 0 && count >= maxCount
    ensures GetColor(count, maxCount) == Legend[5]
  {
    GetColorShade(count, maxCount);
  }

  // ------------------------------------------------------ aggregation

  /** An hour key: the parsed hour, `None` for `NaN`. */
  type Hour = Option<int>

  type HourCounts = Assoc<Hour, int>

  /** The day of a key, `key.slice(0, 10)`. */
  function DayOf(key: string): string {
    Slice(key, 0, 10)
  }

  /** The hour of a key, `parseInt(key.slice(11), 10)`. */
  function HourOf(key: string): Hour {
    ParseInt(SliceFrom(key, 11))
  }

  /** A well-formed key splits into its date and its hour. */
  lemma {:induction false} KeyParts(date: string, hh: string)
    requires |date| == 10 && hh != [] && AllDigits(hh)
    ensures DayOf(date + "-" + hh) == date && HourOf(date + "-" + hh) == Some(DigitsValue(hh))
  {
    KeySlices(date, hh);
    ParseDigitsRun(hh, []);
    assert hh + [] == hh;
    ParseIntDigits(hh);
  }

  lemma {:induction false} KeySlices(date: string, hh: string)
    requires |date| == 10
    ensures Slice(date + "-" + hh, 0, 10) == date
    ensures SliceFrom(date + "-" + hh, 11) == hh
  {
    var key := date + "-" + hh;
    assert key[0..10] == date;
    assert key[11..|key|] == hh;
  }

  /** One `[key, count]` entry with its key taken apart. */
  datatype Entry = Entry(date: string, hour: Hour, count: int)

  function EntryOf(kv: (string, int)): Entry {
    Entry(DayOf(kv.0), HourOf(kv.0), kv.1)
  }

  /** `Object.entries(heatmapData)` with each key taken apart. */
  function Entries(data: Assoc<string, int>): (es: seq<Entry>)
    ensures |es| == |data|
    ensures forall i :: 0 <= i < |data| ==> es[i] == EntryOf(data[i])
  {
    if data == [] then []
    else
      var init := data[..|data| - 1];
      assert forall i :: 0 <= i < |init| ==> init[i] == data[i];
      Entries(init) + [EntryOf(data[|data| - 1])]
  }

  /** `dayHourMap`: the hour counts of each day. A JavaScript object, but
      the order of its days is never observed (they are sorted before use),
      so a map models it. */
  type DayHourMap = map<string, HourCounts>

  /** `dayHourMap[date]`, or no hours for a day not yet seen. */
  function HoursOf(t: DayHourMap, date: string): HourCounts {
    if date in t then t[date] else []
  }

  /** One turn of the `forEach` on the table: the count is stored under its
      day and hour, replacing an earlier count for the same pair. */
  function Store(t: DayHourMap, e: Entry): DayHourMap {
    t[e.date := Put(HoursOf(t, e.date), e.hour, e.count)]
  }

  /** `dayHourMap` after the first `n` turns of the `forEach`. */
  function Table(es: seq<Entry>, n: nat): DayHourMap
    requires n <= |es|
  {
    if n == 0 then map[] else Store(Table(es, n - 1), es[n - 1])
  }

  /** `maxCount` after the first `n` turns, starting from 0. */
  function MaxCount(es: seq<Entry>, n: nat): int
    requires n <= |es|
  {
    if n == 0 then 0 else Max(MaxCount(es, n - 1), es[n - 1].count)
  }

  /** `totalTxs` after the first `n` turns, starting from 0. */
  function Total(es: seq<Entry>, n: nat): int
    requires n <= |es|
  {
    if n == 0 then 0 else Total(es, n - 1) + es[n - 1].count
  }

  /** The count of the last of the first `n` entries for the given day and
      hour. */
  function LastCount(es: seq<Entry>, n: nat, date: string, hour: Hour): Option<int>
    requires n <= |es|
  {
    if n == 0 then None
    else if es[n - 1].date == date && es[n - 1].hour == hour then Some(es[n - 1].count)
    else LastCount(es, n - 1, date, hour)
  }

  /** Some of the first `n` entries is for the day `date`. */
  predicate NamesDay(es: seq<Entry>, n: nat, date: string)
    requires n <= |es|
  {
    exists i :: 0 <= i < n && es[i].date == date
  }

  /** `totalTxs` is the sum of every count, `Object.values(heatmapData)`
      added up. */
  lemma {:induction false} TotalIsSum(data: Assoc<string, int>)
    ensures Total(Entries(data), |data|) == SumValues(data)
  {
    var es := Entries(data);
    forall i | 0 <= i < |data| ensures es[i].count == data[i].1 {
      assert es[i] == EntryOf(data[i]);
    }
    TotalOfCounts(es, data, |data|);
    assert data[..|data|] == data;
  }

  /** The total of the first `n` entries sums the first `n` counts. */
  lemma {:induction false} TotalOfCounts(es: seq<Entry>, data: Assoc<string, int>, n: nat)
    requires n <= |es| == |data|
    requires forall i :: 0 <= i < n ==> es[i].count == data[i].1
    ensures Total(es, n) == SumValues(data[..n])
  {
    if n > 0 {
      TotalOfCounts(es, data, n - 1);
      assert data[..n] == data[..n - 1] + [data[n - 1]];
      SumSnoc(data[..n - 1], data[n - 1]);
    }
  }

  /** `maxCount` is the largest count, or 0 when there is none or every
      count is negative. */
  lemma {:induction false} MaxCountBounds(es: seq<Entry>, n: nat)
    requires n <= |es|
    ensures MaxCount(es, n) >= 0
    ensures forall i :: 0 <= i < n ==> es[i].count <= MaxCount(es, n)
    ensures MaxCount(es, n) == 0 || exists i :: 0 <= i < n && es[i].count == MaxCount(es, n)
  {
    if n > 0 {
      MaxCountBounds(es, n - 1);
    }
  }

  lemma {:induction false} StoreDays(t: DayHourMap, e: Entry, date: string)
    ensures date in Store(t, e) <==> date in t || date == e.date
  {
  }

  lemma {:induction false} StoreCount(t: DayHourMap, e: Entry, date: string, hour: Hour)
    ensures Get(HoursOf(Store(t, e), date), hour)
         == if date == e.date && hour == e.hour then Some(e.count) else Get(HoursOf(t, date), hour)
  {
    GetPut(HoursOf(t, e.date), e.hour, e.count, hour);
  }

  lemma {:induction false} StoreDistinct(t: DayHourMap, e: Entry, date: string)
    requires DistinctKeys(HoursOf(t, date)) && DistinctKeys(HoursOf(t, e.date))
    ensures DistinctKeys(HoursOf(Store(t, e), date))
  {
    PutDistinct(HoursOf(t, e.date), e.hour, e.count);
  }

  /** The table holds exactly the days some entry names. */
  lemma {:induction false} TableDays(es: seq<Entry>, n: nat, date: string)
    requires n <= |es|
    ensures date in Table(es, n) <==> NamesDay(es, n, date)
  {
    if n > 0 {
      TableDays(es, n - 1, date);
      StoreDays(Table(es, n - 1), es[n - 1], date);
      if NamesDay(es, n, date) && es[n - 1].date != date {
        var i :| 0 <= i < n && es[i].date == date;
        assert NamesDay(es, n - 1, date);
      }
    }
  }

  /** For each day and hour the table holds the count of the last entry
      for them: a later key for the same hour overwrites an earlier one. */
  lemma {:induction false} TableCounts(es: seq<Entry>, n: nat, date: string, hour: Hour)
    requires n <= |es|
    ensures Get(HoursOf(Table(es, n), date), hour) == LastCount(es, n, date, hour)
  {
    if n > 0 {
      TableCounts(es, n - 1, date, hour);
      StoreCount(Table(es, n - 1), es[n - 1], date, hour);
    }
  }

  /** Every hour table holds each hour once. */
  lemma {:induction false} TableHoursDistinct(es: seq<Entry>, n: nat, date: string)
    requires n <= |es|
    ensures DistinctKeys(HoursOf(Table(es, n), date))
  {
    if n > 0 {
      TableHoursDistinct(es, n - 1, date);
      TableHoursDistinct(es, n - 1, es[n - 1].date);
      StoreDistinct(Table(es, n - 1), es[n - 1], date);
    }
  }

  /** The body of the `forEach`, on one `[key, count]` entry. */
  method AddEntry(t: DayHourMap, maxCount: int, totalTxs: int, kv: (string, int))
    returns (t': DayHourMap, maxCount': int, totalTxs': int)
    ensures t' == Store(t, EntryOf(kv))
    ensures maxCount' == Max(maxCount, kv.1)
    ensures totalTxs' == totalTxs + kv.1
  {
    var (key, count) := kv;
    var date := Slice(key, 0, 10);
    var hour := ParseInt(SliceFrom(key, 11));
    var hours: HourCounts := [];
    if date in t {
      hours := t[date];
    }
    t' := t[date := Put(hours, hour, count)];
    maxCount' := maxCount;
    if count > maxCount' {
      maxCount' := count;
    }
    totalTxs' := totalTxs + count;
  }

  /** The `forEach` over `Object.entries(heatmapData)`. */
  method Aggregate(data: Assoc<string, int>) returns (dayHourMap: DayHourMap, maxCount: int, totalTxs: int)
    ensures dayHourMap == Table(Entries(data), |data|)
    ensures maxCount == MaxCount(Entries(data), |data|)
    ensures totalTxs == Total(Entries(data), |data|)
  {
    var es := Entries(data);
    dayHourMap, maxCount, totalTxs := map[], 0, 0;
    var i := 0;
    while i < |data|
      invariant i <= |data|
      invariant dayHourMap == Table(es, i)
      invariant maxCount == MaxCount(es, i)
      invariant totalTxs == Total(es, i)
    {
      AggregateStep(es, i);
      assert es[i] == EntryOf(data[i]);
      dayHourMap, maxCount, totalTxs := AddEntry(dayHourMap, maxCount, totalTxs, data[i]);
      i := i + 1;
    }
  }

  /** One more turn of the `forEach` folds one more entry into each of the three results. */
  lemma {:induction false} AggregateStep(es: seq<Entry>, i: nat)
    requires i < |es|
    ensures Table(es, i + 1) == Store(Table(es, i), es[i])
    ensures MaxCount(es, i + 1) == Max(MaxCount(es, i), es[i].count)
    ensures Total(es, i + 1) == Total(es, i) + es[i].count
  {
  }

  // ------------------------------------------------------ rows

  predicate DateBefore(a: string, b: string) { StrLess(a, b) }

  lemma {:induction false} DateBeforeIsStrict()
    ensures StrictOrder(DateBefore)
  {
    forall a ensures !DateBefore(a, a) {
      StrLessIrreflexive(a);
    }
    forall a, b, c | DateBefore(a, b) && DateBefore(b, c) ensures DateBefore(a, c) {
      StrLessTransitive(a, b, c);
    }
  }

  /** The elements of a set in some order, each once. */
  ghost function Enumerate(s: set<string>): (r: seq<string>)
    ensures forall x :: x in r <==> x in s
    ensures forall i, j :: 0 <= i < j < |r| ==> r[i] != r[j]
  {
    if s == {} then []
    else
      var x :| x in s;
      [x] + Enumerate(s - {x})
  }

  /** `Object.keys(dayHourMap).sort()`: the order in which the keys are
      listed does not matter, since they are all different and sorted. */
  ghost function Dates(dayHourMap: DayHourMap): seq<string> {
    DateBeforeIsStrict();
    SortBy(Enumerate(dayHourMap.Keys), DateBefore)
  }

  /** The days come in strictly ascending order, each day of the table once. */
  lemma {:induction false} DatesAscending(dayHourMap: DayHourMap)
    ensures forall d :: d in Dates(dayHourMap) <==> d in dayHourMap
    ensures forall i, j :: 0 <= i < j < |Dates(dayHourMap)| ==> StrLess(Dates(dayHourMap)[i], Dates(dayHourMap)[j])
  {
    DateBeforeIsStrict();
    var ks := Enumerate(dayHourMap.Keys);
    var ds := Dates(dayHourMap);
    SortedMembers(ks, DateBefore);
    assert DistinctBy(ks, (s: string) => s);
    SortDistinct(ks, DateBefore, (s: string) => s);
    forall i, j | 0 <= i < j < |ds| ensures StrLess(ds[i], ds[j]) {
      assert ds[i] != ds[j];
      assert !DateBefore(ds[j], ds[i]);
      StrLessTotal(ds[i], ds[j]);
    }
  }

  /** `Array.from({ length: 24 }, (_, h) => hours[h] || 0)`. */
  function DayRow(hours: HourCounts): (row: seq<int>)
    ensures |row| == 24
    ensures forall h :: 0 <= h < 24 ==> row[h] == Get(hours, Some(h)).GetOr(0)
  {
    seq(24, h requires 0 <= h < 24 => Get(hours, Some(h)).GetOr(0))
  }

  /** `Object.values(hours).reduce((a, b) => a + b, 0)`. */
  function DayTotal(hours: HourCounts): int {
    SumValues(hours)
  }

  function Sum(s: seq<int>): int {
    if s == [] then 0 else Sum(s[..|s| - 1]) + s[|s| - 1]
  }

  lemma {:induction false} SumUpdate(s: seq<int>, k: nat, v: int)
    requires k < |s|
    ensures Sum(s[k := v]) == Sum(s) - s[k] + v
    decreases |s|
  {
    if k < |s| - 1 {
      SumUpdate(s[..|s| - 1], k, v);
      assert s[k := v][..|s| - 1] == s[..|s| - 1][k := v];
    } else {
      assert s[k := v][..|s| - 1] == s[..|s| - 1];
    }
  }

  /** An hour listed in front adds its count to its own cell, which the
      rest leaves empty. */
  lemma {:induction false} DayRowCons(h: int, v: int, rest: HourCounts)
    requires 0 <= h < 24 && Some(h) !in Keys(rest)
    ensures DayRow(rest)[h] == 0
    ensures DayRow([(Some(h), v)] + rest) == DayRow(rest)[h := v]
  {
    var hours := [(Some(h), v)] + rest;
    assert hours[1..] == rest;
    GetMissing(rest, Some(h));
    forall g | 0 <= g < 24 ensures DayRow(hours)[g] == DayRow(rest)[h := v][g] {
      assert Get(hours, Some(g)) == if g == h then Some(v) else Get(rest, Some(g));
    }
  }

  /** When every hour key is a real hour of the day, the day total is the sum
      of the 24 cells; a key outside 0-23 (or `NaN`) counts in the total but
      has no cell. */
  lemma {:induction false} DayTotalIsRowSum(hours: HourCounts)
    requires DistinctKeys(hours)
    requires forall i :: 0 <= i < |hours| ==> hours[i].0.Some? && 0 <= hours[i].0.value < 24
    ensures DayTotal(hours) == Sum(DayRow(hours))
  {
    if hours == [] {
      assert DayRow(hours) == seq(24, h => 0);
      ZeroSum(24);
    } else {
      var e, rest := hours[0], hours[1..];
      assert hours == [e] + rest;
      assert DistinctKeys(rest) by {
        forall i, j | 0 <= i < j < |rest| ensures rest[i].0 != rest[j].0 {
          assert rest[i] == hours[i + 1] && rest[j] == hours[j + 1];
        }
      }
      assert forall i :: 0 <= i < |rest| ==> rest[i] == hours[i + 1];
      DayTotalIsRowSum(rest);
      var h := e.0.value;
      assert Some(h) !in Keys(rest) by {
        forall i | 0 <= i < |rest| ensures Keys(rest)[i] != Some(h) {
          assert rest[i] == hours[i + 1];
        }
      }
      DayRowCons(h, e.1, rest);
      SumUpdate(DayRow(rest), h, e.1);
    }
  }

  lemma {:induction false} ZeroSum(n: nat)
    ensures Sum(seq(n, h => 0)) == 0
  {
    if n > 0 {
      assert seq(n, h => 0)[..n - 1] == seq(n - 1, h => 0);
      ZeroSum(n - 1);
    }
  }

  // ------------------------------------------------------ progress

  /** `Math.round(x)`: the nearest integer, halves rounded up. */
  function Round(x: real): int {
    (x + 0.5).Floor
  }

  /** `progress.total > 0 ? Math.round((scanned / total) * 100) : 0`. */
  function ProgressPercent(scanned: int, total: int): int {
    if total > 0 then Round(scanned as real / total as real * 100.0) else 0
  }

  /** No total shows 0%; within a scan the percentage stays between 0 and
      100, and a finished scan shows 100. */
  lemma {:induction false} ProgressBounds(scanned: int, total: int)
    ensures total <= 0 ==> ProgressPercent(scanned, total) == 0
    ensures 0 <= scanned <= total && total > 0 ==> 0 <= ProgressPercent(scanned, total) <= 100
    ensures 0 < scanned == total ==> ProgressPercent(scanned, total) == 100
  {
    if total > 0 && 0 <= scanned <= total {
      var t := total as real;
      var q := scanned as real / t;
      assert q * t == scanned as real;
      ScaleOrder(0.0, q, t);
      ScaleOrder(q, 1.0, t);
      FloorMonotone(0.5, q * 100.0 + 0.5);
      FloorMonotone(q * 100.0 + 0.5, 100.5);
      if scanned == total {
        ScaleOrder(1.0, q, t);
        assert q == 1.0;
      }
    }
  }

  /** More of the chain scanned never shows a smaller percentage. */
  lemma {:induction false} ProgressMonotone(s1: int, s2: int, total: int)
    requires s1 <= s2
    ensures ProgressPercent(s1, total) <= ProgressPercent(s2, total)
  {
    if total > 0 {
      var t := total as real;
      var q1, q2 := s1 as real / t, s2 as real / t;
      ScaleOrder(q1, q2, t);
      assert q1 * t == s1 as real && q2 * t == s2 as real;
      ScaleOrder(q1, q2, 100.0);
      FloorMonotone(q1 * 100.0 + 0.5, q2 * 100.0 + 0.5);
    }
  }

  lemma {:induction false} FloorMonotone(x: real, y: real)
    requires x <= y
    ensures x.Floor <= y.Floor
  {
    assert x.Floor as real <= x && y < y.Floor as real + 1.0;
  }
}
