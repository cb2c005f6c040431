/** The JavaScript string operations the explorer relies on, over `seq<char>`.
    Characters compare by code point; JavaScript compares UTF-16 code units,
    which agree on every character below U+10000. */
module JsString {
  import opened Wrappers

  // ---------------------------------------------------------------- case

  /** `toLowerCase` on the ASCII letters, the only ones an address holds. */
  function LowerChar(c: char): char {
    if 'A' <= c <= 'Z' then (c as int + 32) as char else c
  }

  function Lower(s: string): (r: string)
    ensures |r| == |s|
    ensures forall i :: 0 <= i < |s| ==> r[i] == LowerChar(s[i])
  {
    if s == [] then [] else [LowerChar(s[0])] + Lower(s[1..])
  }

  /** Lower-casing twice is lower-casing once, and no upper-case ASCII letter survives. */
  lemma {:induction false} LowerIdempotent(s: string)
    ensures Lower(Lower(s)) == Lower(s)
    ensures forall i :: 0 <= i < |s| ==> !('A' <= Lower(s)[i] <= 'Z')
  {
    var r := Lower(s);
    forall i | 0 <= i < |s| ensures Lower(r)[i] == r[i] && !('A' <= r[i] <= 'Z') {
      LowerCharFixed(s[i]);
    }
  }

  lemma {:induction false} LowerCharFixed(c: char)
    ensures LowerChar(LowerChar(c)) == LowerChar(c) && !('A' <= LowerChar(c) <= 'Z')
  {
  }

  // ---------------------------------------------------------------- slice

  /** How `slice` turns a possibly negative index into a position in `0..len`. */
  function ClampIndex(i: int, len: nat): (r: nat)
    ensures r <= len
    ensures 0 <= i <= len ==> r == i
    ensures i < 0 && len as int + i >= 0 ==> r == len as int + i
  {
    if i < 0 then (if len + i < 0 then 0 else len + i)
    else if i > len then len
    else i
  }

  /** `s.slice(start, end)`: negative indices count from the end, out-of-range
      ones are clamped, and an empty range gives the empty sequence. */
  function Slice<T>(s: seq<T>, start: int, end: int): (r: seq<T>)
    ensures |r| <= |s|
    ensures 0 <= start <= end <= |s| ==> r == s[start..end]
  {
    var a := ClampIndex(start, |s|);
    var b := ClampIndex(end, |s|);
    if a < b then s[a..b] else []
  }

  /** `s.slice(start)`. Note `s.slice(-0)` is `s.slice(0)`, the whole string. */
  function SliceFrom<T>(s: seq<T>, start: int): (r: seq<T>)
    ensures start < 0 && -start <= |s| ==> r == s[|s| + start..]
    ensures start == 0 ==> r == s
  {
    Slice(s, start, |s|)
  }

  predicate StartsWith(s: string, prefix: string) {
    |prefix| <= |s| && s[..|prefix|] == prefix
  }

  // ---------------------------------------------------------------- trim

  /** The ECMAScript WhiteSpace and LineTerminator code points, which `trim`
      and `parseInt` skip. */
  predicate IsSpace(c: char) {
    var u := c as int;
    (0x09 <= u <= 0x0D) || u == 0x20 || u == 0xA0 || u == 0x1680
    || (0x2000 <= u <= 0x200A) || u == 0x2028 || u == 0x2029 || u == 0x202F
    || u == 0x205F || u == 0x3000 || u == 0xFEFF
  }

  function TrimStart(s: string): (r: string)
    ensures |r| <= |s| && r == s[|s| - |r|..]
    ensures r == [] || !IsSpace(r[0])
    ensures forall i :: 0 <= i < |s| - |r| ==> IsSpace(s[i])
  {
    if s != [] && IsSpace(s[0]) then TrimStart(s[1..]) else s
  }

  function TrimEnd(s: string): (r: string)
    ensures |r| <= |s| && r == s[..|r|]
    ensures r == [] || !IsSpace(r[|r| - 1])
    ensures forall i :: |r| <= i < |s| ==> IsSpace(s[i])
  {
    if s != [] && IsSpace(s[|s| - 1]) then TrimEnd(s[..|s| - 1]) else s
  }

  /** `s.trim()`: the longest infix of `s` that neither starts nor ends with white space. */
  function Trim(s: string): (r: string)
    ensures |r| <= |s|
    ensures r == [] || (!IsSpace(r[0]) && !IsSpace(r[|r| - 1]))
    ensures s == [] || (!IsSpace(s[0]) && !IsSpace(s[|s| - 1])) ==> r == s
  {
    TrimEnd(TrimStart(s))
  }

  /** `r` sits in `s` at offset `i`, with only white space around it. */
  predicate InfixAt(s: string, r: string, i: nat) {
    && i + |r| <= |s| && r == s[i..i + |r|]
    && (forall j :: 0 <= j < i ==> IsSpace(s[j]))
    && (forall j :: i + |r| <= j < |s| ==> IsSpace(s[j]))
  }

  /** `trim` removes white space at the two ends and nothing else: the result
      is an infix of `s` with only white space before and after it. */
  lemma {:induction false} TrimInfix(s: string)
    ensures exists i: nat :: InfixAt(s, Trim(s), i)
  {
    TrimAt(s);
  }

  /** The offset is the length of the leading white space. */
  lemma {:induction false} TrimAt(s: string)
    ensures InfixAt(s, Trim(s), |s| - |TrimStart(s)|)
  {
    InfixOfTrims(s, TrimStart(s), Trim(s));
  }

  /** Cutting white space off the front of `s`, giving `t`, and then off the
      back of `t`, giving `r`, leaves `r` at offset `|s| - |t|`. */
  lemma {:induction false} InfixOfTrims(s: string, t: string, r: string)
    requires |t| <= |s| && t == s[|s| - |t|..] && (forall k :: 0 <= k < |s| - |t| ==> IsSpace(s[k]))
    requires |r| <= |t| && r == t[..|r|] && (forall k :: |r| <= k < |t| ==> IsSpace(t[k]))
    ensures InfixAt(s, r, |s| - |t|)
  {
    PrefixOfSuffix(s, t, r, |s| - |t|);
    SpaceAfter(s, t, |s| - |t|, |r|);
  }

  /** A prefix `r` of the suffix `t` of `s` from `i` is the slice of `s` at `i`. */
  lemma {:induction false} PrefixOfSuffix(s: string, t: string, r: string, i: nat)
    requires i <= |s| && t == s[i..] && |r| <= |t| && r == t[..|r|]
    ensures r == s[i..i + |r|]
  {
  }

  /** White space at the end of the suffix `t` of `s` is white space at the end of `s`. */
  lemma {:induction false} SpaceAfter(s: string, t: string, i: nat, n: nat)
    requires i <= |s| && t == s[i..] && n <= |t|
    requires forall k :: n <= k < |t| ==> IsSpace(t[k])
    ensures forall j :: i + n <= j < |s| ==> IsSpace(s[j])
  {
    forall j | i + n <= j < |s| ensures IsSpace(s[j]) {
      assert s[j] == t[j - i];
    }
  }

  // ---------------------------------------------------------------- digits

  predicate IsDigit(c: char) { '0' <= c <= '9' }

  function DigitValue(c: char): nat requires IsDigit(c) { c as int - '0' as int }

  function DigitChar(d: nat): (c: char)
    requires d < 10
    ensures IsDigit(c) && DigitValue(c) == d
  {
    ('0' as int + d) as char
  }

  predicate AllDigits(s: string) { forall i :: 0 <= i < |s| ==> IsDigit(s[i]) }

  /** The number a string of decimal digits denotes. */
  function DigitsValue(s: string): nat
    requires AllDigits(s)
  {
    if s == [] then 0 else DigitsValue(s[..|s| - 1]) * 10 + DigitValue(s[|s| - 1])
  }

  /** Decimal rendering of a natural number, as template literals print it. */
  function NatToDecimal(n: nat): (r: string)
    ensures |r| >= 1 && AllDigits(r)
  {
    if n < 10 then [DigitChar(n)] else NatToDecimal(n / 10) + [DigitChar(n % 10)]
  }

  function IntToDecimal(n: int): string {
    if n < 0 then "-" + NatToDecimal(-n) else NatToDecimal(n)
  }

  /** Length of the longest all-digit prefix of `s`. */
  function DigitPrefix(s: string): (k: nat)
    ensures k <= |s| && AllDigits(s[..k])
    ensures k < |s| ==> !IsDigit(s[k])
  {
    if s != [] && IsDigit(s[0]) then
      var k := 1 + DigitPrefix(s[1..]);
      assert s[..k] == [s[0]] + s[1..][..k - 1];
      k
    else 0
  }

  /** `parseInt(s, 10)`: skip leading white space, read an optional sign and the
      longest run of digits; no digit at all gives NaN, here `None`. */
  function ParseInt(s: string): Option<int> {
    ParseSigned(TrimStart(s))
  }

  function ParseSigned(t: string): Option<int> {
    if |t| > 0 && t[0] == '-' then Negated(ParseDigits(t[1..]))
    else if |t| > 0 && t[0] == '+' then ParseDigits(t[1..])
    else ParseDigits(t)
  }

  /** The value after a minus sign; NaN stays NaN. */
  function Negated(v: Option<nat>): Option<int> {
    if v.Some? then Some(0 - v.value) else None
  }

  function ParseDigits(body: string): Option<nat> {
    var k := DigitPrefix(body);
    if k == 0 then None else Some(DigitsValue(body[..k]))
  }

  lemma {:induction false} DigitsOfDecimal(n: nat)
    ensures DigitsValue(NatToDecimal(n)) == n
  {
    if n >= 10 {
      DigitsOfDecimal(n / 10);
      var r := NatToDecimal(n);
      assert r[..|r| - 1] == NatToDecimal(n / 10);
    }
  }

  /** Reading back a rendered number: `parseInt` of the decimal rendering of `n`,
      followed by anything that does not start with a digit, is `n`. */
  lemma {:induction false} ParseIntOfDecimal(n: int, rest: string)
    requires rest == [] || !IsDigit(rest[0])
    ensures ParseInt(IntToDecimal(n) + rest) == Some(n)
  {
    if n < 0 {
      ParseIntOfNegative(n, rest);
    } else {
      ParseIntOfNatural(n, rest);
    }
  }

  lemma {:induction false} ParseIntOfNatural(n: int, rest: string)
    requires n >= 0
    requires rest == [] || !IsDigit(rest[0])
    ensures ParseInt(IntToDecimal(n) + rest) == Some(n)
  {
    var d := NatToDecimal(n);
    assert IntToDecimal(n) == d;
    ParseDigitsOfDecimal(n, rest);
    assert (d + rest)[0] == d[0];
    ParseIntDigits(d + rest);
  }

  lemma {:induction false} ParseIntOfNegative(n: int, rest: string)
    requires n < 0
    requires rest == [] || !IsDigit(rest[0])
    ensures ParseInt(IntToDecimal(n) + rest) == Some(n)
  {
    var d := NatToDecimal(-n);
    calc {
      ParseInt(IntToDecimal(n) + rest);
    == { assert IntToDecimal(n) == "-" + d; AppendAssoc("-", d, rest); }
      ParseInt("-" + (d + rest));
    == { ParseMinusDecimal(-n, rest); }
      Some(n);
    }
  }

  lemma {:induction false} ParseMinusDecimal(m: nat, rest: string)
    requires rest == [] || !IsDigit(rest[0])
    ensures ParseInt("-" + (NatToDecimal(m) + rest)) == Some(0 - m)
  {
    var body := NatToDecimal(m) + rest;
    calc {
      ParseInt("-" + body);
    == { ParseIntMinus(body); }
      Negated(ParseDigits(body));
    == { ParseDigitsOfDecimal(m, rest); }
      Negated(Some(m));
    }
  }

  /** A run of digits followed by a non-digit reads as those digits. */
  lemma {:induction false} ParseDigitsRun(d: string, rest: string)
    requires d != [] && AllDigits(d)
    requires rest == [] || !IsDigit(rest[0])
    ensures ParseDigits(d + rest) == Some(DigitsValue(d))
  {
    DigitPrefixOfDigits(d, rest);
    assert (d + rest)[..|d|] == d;
  }

  /** A minus sign in front negates what follows. */
  lemma {:induction false} ParseIntMinus(body: string)
    ensures ParseInt(['-'] + body) == Negated(ParseDigits(body))
  {
    var s := ['-'] + body;
    assert s[0] == '-' && s[1..] == body;
    assert TrimStart(s) == s by { assert !IsSpace(s[0]); }
    calc {
      ParseInt(s);
    ==
      ParseSigned(TrimStart(s));
    ==
      ParseSigned(s);
    ==
      Negated(ParseDigits(s[1..]));
    }
  }

  /** No white space and no sign in front: just the digits. */
  lemma {:induction false} ParseIntDigits(body: string)
    requires body != [] && IsDigit(body[0])
    ensures ParseInt(body) == ParseDigits(body)
  {
    assert TrimStart(body) == body by { assert !IsSpace(body[0]); }
  }

  lemma {:induction false} ParseDigitsOfDecimal(m: nat, rest: string)
    requires rest == [] || !IsDigit(rest[0])
    ensures ParseDigits(NatToDecimal(m) + rest) == Some(m)
  {
    DigitsOfDecimal(m);
    ParseDigitsRun(NatToDecimal(m), rest);
  }

  lemma {:induction false} DigitPrefixOfDigits(d: string, rest: string)
    requires AllDigits(d)
    requires rest == [] || !IsDigit(rest[0])
    ensures DigitPrefix(d + rest) == |d|
  {
    if d != [] {
      assert (d + rest)[1..] == d[1..] + rest;
      DigitPrefixOfDigits(d[1..], rest);
    }
  }

  // ---------------------------------------------------------------- order

  /** The order of JavaScript's default `sort` and of `<` on strings. */
  predicate StrLess(a: string, b: string) {
    if a == [] then b != []
    else if b == [] then false
    else if a[0] != b[0] then a[0] < b[0]
    else StrLess(a[1..], b[1..])
  }

  lemma {:induction false} StrLessIrreflexive(a: string)
    ensures !StrLess(a, a)
  {
    if a != [] { StrLessIrreflexive(a[1..]); }
  }

  lemma {:induction false} StrLessTransitive(a: string, b: string, c: string)
    requires StrLess(a, b) && StrLess(b, c)
    ensures StrLess(a, c)
  {
    if a != [] && b != [] && c != [] && a[0] == b[0] && b[0] == c[0] {
      StrLessTransitive(a[1..], b[1..], c[1..]);
    }
  }

  lemma {:induction false} StrLessTotal(a: string, b: string)
    requires a != b
    ensures StrLess(a, b) || StrLess(b, a)
  {
    if a != [] && b != [] && a[0] == b[0] {
      assert a == [a[0]] + a[1..] && b == [b[0]] + b[1..];
      StrLessTotal(a[1..], b[1..]);
    }
  }

  // ---------------------------------------------------------------- split

  predicate NoDash(s: string) { '-' !in s }

  /** `s.split('-')`. */
  function SplitDash(s: string): (parts: seq<string>)
    ensures |parts| >= 1
    decreases |s|
  {
    if NoDash(s) then [s]
    else
      var i := FirstDash(s);
      [s[..i]] + SplitDash(s[i + 1..])
  }

  function FirstDash(s: string): (i: nat)
    requires !NoDash(s)
    ensures i < |s| && s[i] == '-' && NoDash(s[..i])
  {
    if s[0] == '-' then 0
    else
      var i := 1 + FirstDash(s[1..]);
      assert s[..i] == [s[0]] + s[1..][..i - 1];
      i
  }

  /** Joining two dash-free strings with `-` and splitting again gives them back. */
  lemma {:induction false} SplitJoin(a: string, b: string)
    requires NoDash(a) && NoDash(b)
    ensures SplitDash(a + "-" + b) == [a, b]
  {
    var s := a + "-" + b;
    assert s[|a|] == '-';
    assert !NoDash(s);
    var i := FirstDash(s);
    assert i == |a|;
    assert s[..i] == a;
    assert s[i + 1..] == b;
  }
}
