/** `Array.prototype.sort` with a comparator, as the explorer uses it: a stable
    sort by a strict order `before` ("`a` must come before `b`"), modelled as a
    stable insertion sort. */
module Sorting {

  ghost predicate StrictOrder<T(!new)>(before: (T, T) -> bool) {
    && (forall a :: !before(a, a))
    && (forall a, b, c :: before(a, b) && before(b, c) ==> before(a, c))
  }

  /** A strict order whose ties are transitive, as every comparison of keys
      is: whatever comes after `a` comes after, or is untied with, any `b`. */
  ghost predicate WeakOrder<T(!new)>(before: (T, T) -> bool) {
    && StrictOrder(before)
    && (forall a, b, c :: before(a, c) ==> before(a, b) || before(b, c))
  }

  /** No element is strictly before one that precedes it. */
  ghost predicate Sorted<T>(s: seq<T>, before: (T, T) -> bool) {
    forall i, j :: 0 <= i < j < |s| ==> !before(s[j], s[i])
  }

  /** The keys `key(s[i])` are pairwise different. */
  ghost predicate DistinctBy<T, K>(s: seq<T>, key: T -> K) {
    forall i, j :: 0 <= i < j < |s| ==> key(s[i]) != key(s[j])
  }

  /** Insert `x` into `s` in front of the first element it must come before,
      so that it lands after every element it is tied with. */
  function Insert<T>(x: T, s: seq<T>, before: (T, T) -> bool): (r: seq<T>)
    ensures multiset(r) == multiset(s) + multiset{x}
  {
    if s == [] then [x]
    else if before(x, s[0]) then [x] + s
    else
      assert s == [s[0]] + s[1..];
      [s[0]] + Insert(x, s[1..], before)
  }

  lemma {:induction false} InsertSorted<T(!new)>(x: T, s: seq<T>, before: (T, T) -> bool)
    requires StrictOrder(before)
    requires Sorted(s, before)
    ensures Sorted(Insert(x, s, before), before)
  {
    if s == [] {
    } else if before(x, s[0]) {
      forall j | 0 <= j < |s| ensures !before(s[j], x) {
        assert j == 0 || !before(s[j], s[0]);
      }
    } else {
      SortedTail(s, before);
      InsertSorted(x, s[1..], before);
      var rest := Insert(x, s[1..], before);
      InsertMembers(x, s[1..], before);
      var r := [s[0]] + rest;
      forall j | 1 <= j < |r| ensures !before(r[j], s[0]) {
        assert r[j] == rest[j - 1];
      }
    }
  }

  /** `Insert` adds `x` and nothing else. */
  lemma {:induction false} InsertMembers<T>(x: T, s: seq<T>, before: (T, T) -> bool)
    ensures forall y :: y in Insert(x, s, before) <==> y == x || y in s
  {
    var r := Insert(x, s, before);
    forall y ensures y in r <==> y == x || y in s {
      assert y in r <==> y in multiset(r);
      assert y in s <==> y in multiset(s);
    }
  }

  /** The tail of a sorted sequence is sorted and holds nothing that must
      come before its head. */
  lemma {:induction false} SortedTail<T>(s: seq<T>, before: (T, T) -> bool)
    requires s != [] && Sorted(s, before)
    ensures Sorted(s[1..], before)
    ensures forall y :: y in s[1..] ==> !before(y, s[0])
  {
    var tail := s[1..];
    forall i, j | 0 <= i < j < |tail| ensures !before(tail[j], tail[i]) {
      assert tail[i] == s[i + 1] && tail[j] == s[j + 1];
    }
    forall y | y in tail ensures !before(y, s[0]) {
      var m :| 0 <= m < |tail| && tail[m] == y;
      assert s[m + 1] == y;
    }
  }

  /** The tail of a sequence with distinct keys has distinct keys, none of
      them the key of the head. */
  lemma {:induction false} DistinctTail<T, K>(s: seq<T>, key: T -> K)
    requires s != [] && DistinctBy(s, key)
    ensures DistinctBy(s[1..], key)
    ensures forall y :: y in s[1..] ==> key(y) != key(s[0]) && y in s
  {
    var tail := s[1..];
    forall i, j | 0 <= i < j < |tail| ensures key(tail[i]) != key(tail[j]) {
      assert tail[i] == s[i + 1] && tail[j] == s[j + 1];
    }
    forall y | y in tail ensures key(y) != key(s[0]) && y in s {
      var m :| 0 <= m < |tail| && tail[m] == y;
      assert s[m + 1] == y;
    }
  }

  /** The sorted arrangement of `s`, stable with respect to `before`. */
  function SortBy<T(!new)>(s: seq<T>, before: (T, T) -> bool): (r: seq<T>)
    requires StrictOrder(before)
    ensures Sorted(r, before)
    ensures multiset(r) == multiset(s)
    ensures |r| == |s|
  {
    if s == [] then []
    else
      var sorted := SortBy(s[..|s| - 1], before);
      InsertSorted(s[|s| - 1], sorted, before);
      assert s == s[..|s| - 1] + [s[|s| - 1]];
      Insert(s[|s| - 1], sorted, before)
  }

  lemma {:induction false} SortedMembers<T(!new)>(s: seq<T>, before: (T, T) -> bool)
    requires StrictOrder(before)
    ensures forall x :: x in SortBy(s, before) <==> x in s
  {
    var r := SortBy(s, before);
    forall x ensures x in r <==> x in s {
      assert x in r <==> x in multiset(r);
      assert x in s <==> x in multiset(s);
    }
  }

  lemma {:induction false} InsertDistinct<T(!new), K>(x: T, s: seq<T>, before: (T, T) -> bool, key: T -> K)
    requires StrictOrder(before)
    requires DistinctBy(s, key)
    requires forall y :: y in s ==> key(y) != key(x)
    ensures DistinctBy(Insert(x, s, before), key)
  {
    if s != [] && !before(x, s[0]) {
      DistinctTail(s, key);
      InsertDistinct(x, s[1..], before, key);
      var rest := Insert(x, s[1..], before);
      InsertMembers(x, s[1..], before);
      var r := [s[0]] + rest;
      assert key(s[0]) != key(x) by { assert s[0] in s; }
      forall j | 1 <= j < |r| ensures key(r[j]) != key(s[0]) {
        assert r[j] == rest[j - 1];
      }
      assert Insert(x, s, before) == r;
    }
  }

  /** Sorting keeps pairwise different keys pairwise different. */
  lemma {:induction false} SortDistinct<T(!new), K>(s: seq<T>, before: (T, T) -> bool, key: T -> K)
    requires StrictOrder(before)
    requires DistinctBy(s, key)
    ensures DistinctBy(SortBy(s, before), key)
  {
    if s != [] {
      var init := s[..|s| - 1];
      var x := s[|s| - 1];
      SortDistinct(init, before, key);
      SortedMembers(init, before);
      forall y | y in SortBy(init, before) ensures key(y) != key(x) {
        var m :| 0 <= m < |init| && init[m] == y;
        assert s[m] == y;
      }
      InsertDistinct(x, SortBy(init, before), before, key);
    }
  }

  /** An element that must come before none of `s` lands at its end. */
  lemma {:induction false} InsertLast<T>(x: T, s: seq<T>, before: (T, T) -> bool)
    requires forall i :: 0 <= i < |s| ==> !before(x, s[i])
    ensures Insert(x, s, before) == s + [x]
  {
    if s != [] {
      InsertLast(x, s[1..], before);
      assert s == [s[0]] + s[1..];
    }
  }

  /** Being stable, the sort leaves an already sorted sequence as it is. */
  lemma {:induction false} SortBySorted<T(!new)>(s: seq<T>, before: (T, T) -> bool)
    requires StrictOrder(before) && Sorted(s, before)
    ensures SortBy(s, before) == s
  {
    if s != [] {
      var init, x := s[..|s| - 1], s[|s| - 1];
      SortedSplit(s, before);
      assert forall i :: 0 <= i < |init| ==> init[i] == s[i];
      SortBySorted(init, before);
      InsertLast(x, init, before);
      SplitLast(s);
    }
  }

  /** A non-empty sequence is its front followed by its last element. */
  lemma SplitLast<T>(s: seq<T>)
    requires s != []
    ensures s == s[..|s| - 1] + [s[|s| - 1]]
  {
  }

  /** Taking off the last element of a sorted sequence leaves it sorted, and
      that element comes before none of the others. */
  lemma {:induction false} SortedSplit<T>(s: seq<T>, before: (T, T) -> bool)
    requires s != [] && Sorted(s, before)
    ensures Sorted(s[..|s| - 1], before)
    ensures forall i :: 0 <= i < |s| - 1 ==> !before(s[|s| - 1], s[i])
  {
    var init := s[..|s| - 1];
    forall i, j | 0 <= i < j < |init| ensures !before(init[j], init[i]) {
      assert init[i] == s[i] && init[j] == s[j];
    }
  }

  // ------------------------------------------------------ stability

  /** `[w]` when `w` is `x` or `y`, nothing otherwise. */
  function Pick<T(==)>(w: T, x: T, y: T): seq<T> {
    if w == x || w == y then [w] else []
  }

  /** The elements of `s` that are `x` or `y`, in their order in `s`. */
  function Only<T(==)>(s: seq<T>, x: T, y: T): seq<T> {
    if s == [] then [] else Pick(s[0], x, y) + Only(s[1..], x, y)
  }

  lemma {:induction false} OnlyAppend<T>(a: seq<T>, b: seq<T>, x: T, y: T)
    ensures Only(a + b, x, y) == Only(a, x, y) + Only(b, x, y)
  {
    if a != [] {
      calc {
        Only(a + b, x, y);
      == { assert (a + b)[0] == a[0] && (a + b)[1..] == a[1..] + b; }
        Pick(a[0], x, y) + Only(a[1..] + b, x, y);
      == { OnlyAppend(a[1..], b, x, y); }
        Pick(a[0], x, y) + (Only(a[1..], x, y) + Only(b, x, y));
      ==
        Only(a, x, y) + Only(b, x, y);
      }
    } else {
      assert a + b == b;
    }
  }

  lemma {:induction false} OnlyNone<T>(s: seq<T>, x: T, y: T)
    requires forall w :: w in s ==> w != x && w != y
    ensures Only(s, x, y) == []
  {
    if s != [] {
      assert s[0] in s;
      assert forall w :: w in s[1..] ==> w in s;
      OnlyNone(s[1..], x, y);
    }
  }

  /** Everything from the first element `z` must come before onwards also
      comes after `z`. */
  lemma {:induction false} AfterStop<T(!new)>(z: T, t: seq<T>, before: (T, T) -> bool)
    requires WeakOrder(before) && Sorted(t, before)
    requires t != [] && before(z, t[0])
    ensures forall w :: w in t ==> before(z, w)
  {
    forall w | w in t ensures before(z, w) {
      var m :| 0 <= m < |t| && t[m] == w;
      assert m == 0 || !before(t[m], t[0]);
    }
  }

  /** Where `Insert` puts `z`: behind every element it comes before none of. */
  function Pos<T>(z: T, t: seq<T>, before: (T, T) -> bool): (k: nat)
    ensures k <= |t|
  {
    if t == [] || before(z, t[0]) then 0 else 1 + Pos(z, t[1..], before)
  }

  lemma {:induction false} InsertAt<T>(z: T, t: seq<T>, before: (T, T) -> bool)
    ensures Insert(z, t, before) == t[..Pos(z, t, before)] + [z] + t[Pos(z, t, before)..]
    ensures Pos(z, t, before) < |t| ==> before(z, t[Pos(z, t, before)])
  {
    if t != [] && !before(z, t[0]) {
      var k := Pos(z, t[1..], before);
      calc {
        Insert(z, t, before);
      ==
        [t[0]] + Insert(z, t[1..], before);
      == { InsertAt(z, t[1..], before); }
        [t[0]] + (t[1..][..k] + [z] + t[1..][k..]);
      == { assert t[..k + 1] == [t[0]] + t[1..][..k]; assert t[k + 1..] == t[1..][k..]; }
        t[..k + 1] + [z] + t[k + 1..];
      }
      InsertAt(z, t[1..], before);
    }
  }

  lemma {:induction false} SortedDrop<T>(t: seq<T>, k: nat, before: (T, T) -> bool)
    requires k <= |t| && Sorted(t, before)
    ensures Sorted(t[k..], before)
  {
    var d := t[k..];
    forall i, j | 0 <= i < j < |d| ensures !before(d[j], d[i]) {
      assert d[i] == t[k + i] && d[j] == t[k + j];
    }
  }

  lemma OnlyOne<T>(z: T, x: T, y: T)
    ensures Only([z], x, y) == Pick(z, x, y)
  {
    assert Only([z], x, y) == Pick(z, x, y) + Only([z][1..], x, y);
  }

  /** Splicing `z` in is as good as putting it last, when it or everything
      behind it is dropped. */
  lemma {:induction false} OnlySpliced<T>(front: seq<T>, z: T, back: seq<T>, x: T, y: T)
    requires Pick(z, x, y) == [] || Only(back, x, y) == []
    ensures Only(front + [z] + back, x, y) == Only(front + back, x, y) + Pick(z, x, y)
  {
    var a, p, b := Only(front, x, y), Pick(z, x, y), Only(back, x, y);
    calc {
      Only(front + [z] + back, x, y);
    == { OnlyAppend(front + [z], back, x, y); }
      Only(front + [z], x, y) + b;
    == { OnlyAppend(front, [z], x, y); OnlyOne(z, x, y); }
      (a + p) + b;
    == { if p == [] { assert a + p == a; assert (a + b) + p == a + b; }
         else { assert (a + p) + b == a + p; assert a + b == a; } }
      (a + b) + p;
    == { OnlyAppend(front, back, x, y); }
      Only(front + back, x, y) + p;
    }
  }

  /** Behind the place where `z` goes there is no `x` or `y`, if `z` is one
      of them. */
  lemma {:induction false} TiedNotBehind<T(!new)>(z: T, t: seq<T>, before: (T, T) -> bool, x: T, y: T)
    requires WeakOrder(before) && Sorted(t, before)
    requires !before(x, y) && !before(y, x)
    ensures Pick(z, x, y) == [] || Only(t[Pos(z, t, before)..], x, y) == []
  {
    var k := Pos(z, t, before);
    var back := t[k..];
    if Pick(z, x, y) != [] && back != [] {
      InsertAt(z, t, before);
      SortedDrop(t, k, before);
      AfterStop(z, back, before);
      OnlyNone(back, x, y);
    }
  }

  /** Inserting an element tied with both `x` and `y` puts it behind every
      `x` and `y` already there. */
  lemma {:induction false} InsertOnly<T(!new)>(z: T, t: seq<T>, before: (T, T) -> bool, x: T, y: T)
    requires WeakOrder(before) && Sorted(t, before)
    requires !before(x, y) && !before(y, x)
    ensures Only(Insert(z, t, before), x, y) == Only(t, x, y) + Pick(z, x, y)
  {
    var k := Pos(z, t, before);
    var front, back := t[..k], t[k..];
    calc {
      Only(Insert(z, t, before), x, y);
    == { InsertAt(z, t, before); }
      Only(front + [z] + back, x, y);
    == { TiedNotBehind(z, t, before, x, y); OnlySpliced(front, z, back, x, y); }
      Only(front + back, x, y) + Pick(z, x, y);
    == { assert t == front + back; }
      Only(t, x, y) + Pick(z, x, y);
    }
  }

  /** One more element is inserted into the sorted front. */
  lemma {:induction false} SortBySnoc<T(!new)>(s: seq<T>, before: (T, T) -> bool)
    requires StrictOrder(before) && s != []
    ensures SortBy(s, before) == Insert(s[|s| - 1], SortBy(s[..|s| - 1], before), before)
    ensures Sorted(SortBy(s[..|s| - 1], before), before)
  {
  }

  lemma {:induction false} OnlySnoc<T>(s: seq<T>, x: T, y: T)
    requires s != []
    ensures Only(s, x, y) == Only(s[..|s| - 1], x, y) + Pick(s[|s| - 1], x, y)
  {
    var z := s[|s| - 1];
    SplitLast(s);
    OnlyAppend(s[..|s| - 1], [z], x, y);
    assert Only([z], x, y) == Pick(z, x, y) + Only([z][1..], x, y);
  }

  /** Stability: two tied elements come out of the sort in the order they
      went in; every `x` and `y` keep their mutual order. */
  lemma {:induction false} SortByStable<T(!new)>(s: seq<T>, before: (T, T) -> bool, x: T, y: T)
    requires WeakOrder(before)
    requires !before(x, y) && !before(y, x)
    ensures Only(SortBy(s, before), x, y) == Only(s, x, y)
  {
    if s != [] {
      var init, z := s[..|s| - 1], s[|s| - 1];
      calc {
        Only(SortBy(s, before), x, y);
      == { SortBySnoc(s, before); }
        Only(Insert(z, SortBy(init, before), before), x, y);
      == { SortBySnoc(s, before); InsertOnly(z, SortBy(init, before), before, x, y); }
        Only(SortBy(init, before), x, y) + Pick(z, x, y);
      == { SortByStable(init, before, x, y); }
        Only(init, x, y) + Pick(z, x, y);
      == { OnlySnoc(s, x, y); }
        Only(s, x, y);
      }
    }
  }
}
