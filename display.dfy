/** The string helpers the explorer's pages share: `truncate`, which shortens
    a hash or an address to its two ends, the "time ago" buckets, and
    `filter(Boolean)` over a list of possibly null blocks. */
module Display {
  import opened Wrappers
  import opened JsString

  // ------------------------------------------------------ truncate

  /** `truncate(str, start, end)` of `app/page.js`, `app/transactions/page.js`
      and `app/tokens/page.js`: `None` is `null`, and a falsy input (null or
      the empty string) gives `''`. A string longer than `start + end + 3`
      keeps its first `start` and its last `end` characters around `...`. */
  function Truncate(str: Option<string>, start: nat, end: nat): (r: string)
    ensures str.None? ==> r == ""
    ensures str.Some? && |str.value| <= start + end + 3 ==> r == str.value
    ensures str.Some? && |str.value| > start + end + 3 ==>
              r == str.value[..start] + "..." + str.value[|str.value| - end..]
    ensures str.Some? ==> |r| <= |str.value|
  {
    if str.None? || str.value == [] then ""
    else
      var s := str.value;
      if |s| <= start + end + 3 then s
      else if end == 0 then Slice(s, 0, start) + "..."
      else Slice(s, 0, start) + "..." + SliceFrom(s, -(end as int))
  }

  /** A truncated string is exactly `start + end + 3` long: it always loses
      characters, and what it keeps are the two ends of the input. */
  lemma {:induction false} TruncateShortens(s: string, start: nat, end: nat)
    requires |s| > start + end + 3
    ensures |Truncate(Some(s), start, end)| == start + end + 3 < |s|
    ensures Truncate(Some(s), start, end)[..start] == s[..start]
    ensures Truncate(Some(s), start, end)[start + 3..] == s[|s| - end..]
  {
    var r := Truncate(Some(s), start, end);
    assert r == s[..start] + "..." + s[|s| - end..];
    assert r[..start] == s[..start];
    assert r[start + 3..] == s[|s| - end..];
  }

  // ------------------------------------------------------ time ago

  datatype Unit = Seconds | Minutes | Hours | Days

  function UnitLength(u: Unit): (n: nat)
    ensures n >= 1
  {
    match u
    case Seconds => 1
    case Minutes => 60
    case Hours => 3600
    case Days => 86400
  }

  /** How long ago something happened, as the pages show it: "just now", or
      an amount of some unit. */
  datatype Age = JustNow | Ago(amount: int, unit: Unit)

  /** `diff` seconds, written in a unit of at least a minute: rounded down,
      as `Math.floor(diff / unit)`. */
  predicate Floors(diff: int, a: Age) {
    a.Ago? && a.amount >= 1 && a.amount * UnitLength(a.unit) <= diff < (a.amount + 1) * UnitLength(a.unit)
  }

  /** The age as a template literal: the amount in decimal followed by the
      unit's label. */
  function Render(a: Age, names: Unit -> string): string {
    match a
    case JustNow => "just now"
    case Ago(n, u) => IntToDecimal(n) + names(u)
  }

  /** Reading the number back: when the label does not start with a digit,
      `parseInt` of the rendered age is its amount. */
  lemma {:induction false} RenderAmount(n: int, u: Unit, names: Unit -> string)
    requires names(u) == [] || !IsDigit(names(u)[0])
    ensures ParseInt(Render(Ago(n, u), names)) == Some(n)
  {
    ParseIntOfDecimal(n, names(u));
  }

  // ------------------------------------------------------ null filter

  /** `list.filter(Boolean)` over blocks that may be `null`: the present
      ones, in order. */
  function Present<T(!new)>(xs: seq<Option<T>>): (r: seq<T>)
    ensures |r| <= |xs|
    ensures forall x :: x in r <==> Some(x) in xs
  {
    if xs == [] then []
    else
      var init := Present(xs[..|xs| - 1]);
      var last := xs[|xs| - 1];
      assert xs == xs[..|xs| - 1] + [last];
      if last.Some? then init + [last.value] else init
  }

  /** Filtering distributes over concatenation, so the order of the list is kept. */
  lemma {:induction false} PresentAppend<T(!new)>(a: seq<Option<T>>, b: seq<Option<T>>)
    ensures Present(a + b) == Present(a) + Present(b)
    decreases |b|
  {
    if b == [] {
      assert a + b == a;
    } else {
      var b' := b[..|b| - 1];
      assert (a + b)[..|a + b| - 1] == a + b';
      PresentAppend(a, b');
      AppendAssoc(Present(a), Present(b'), if b[|b| - 1].Some? then [b[|b| - 1].value] else []);
    }
  }

  /** Nothing is dropped from a list without nulls. */
  lemma {:induction false} PresentAll<T(!new)>(xs: seq<Option<T>>)
    requires forall k :: 0 <= k < |xs| ==> xs[k].Some?
    ensures |Present(xs)| == |xs|
    ensures forall k :: 0 <= k < |xs| ==> Present(xs)[k] == xs[k].value
    decreases |xs|
  {
    if xs != [] {
      PresentAll(xs[..|xs| - 1]);
    }
  }

  /** Filtering keeps the relative order: present elements whose keys
      descend strictly along the list still do once the nulls are gone. */
  lemma {:induction false} PresentDescending<T(!new)>(xs: seq<Option<T>>, key: T -> int)
    requires forall i, j :: 0 <= i < j < |xs| && xs[i].Some? && xs[j].Some? ==> key(xs[i].value) > key(xs[j].value)
    ensures forall i, j :: 0 <= i < j < |Present(xs)| ==> key(Present(xs)[i]) > key(Present(xs)[j])
    decreases |xs|
  {
    if xs != [] {
      var init, last := xs[..|xs| - 1], xs[|xs| - 1];
      PresentDescending(init, key);
      if last.Some? {
        var p := Present(init);
        forall i | 0 <= i < |p| ensures key(p[i]) > key(last.value) {
          assert p[i] in p;
          var m :| 0 <= m < |init| && init[m] == Some(p[i]);
          assert xs[m] == init[m];
        }
      }
    }
  }
}
