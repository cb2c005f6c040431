/** A JavaScript object used as a dictionary: key/value pairs in insertion
    order (the order `Object.keys`, `Object.values` and `Object.entries`
    report for keys that are not array indices). Every key is listed once
    in a real object; `DistinctKeys` states this and `Put` keeps it. */
module Assoc {
  import opened Wrappers

  type Assoc<K, V> = seq<(K, V)>

  function Keys<K, V>(al: Assoc<K, V>): (ks: seq<K>)
    ensures |ks| == |al|
    ensures forall i :: 0 <= i < |al| ==> ks[i] == al[i].0
  {
    if al == [] then [] else [al[0].0] + Keys(al[1..])
  }

  predicate DistinctKeys<K(==), V>(al: Assoc<K, V>) {
    forall i, j :: 0 <= i < j < |al| ==> al[i].0 != al[j].0
  }

  /** `obj[k]`, or `None` for a missing key. */
  function Get<K(==), V>(al: Assoc<K, V>, k: K): Option<V> {
    if al == [] then None
    else if al[0].0 == k then Some(al[0].1)
    else Get(al[1..], k)
  }

  /** `obj[k] = v`: an existing key keeps its place and takes the new value,
      a new key goes last. */
  function Put<K(==), V>(al: Assoc<K, V>, k: K, v: V): Assoc<K, V> {
    if al == [] then [(k, v)]
    else if al[0].0 == k then [(k, v)] + al[1..]
    else [al[0]] + Put(al[1..], k, v)
  }

  /** `Object.values(obj).reduce((a, b) => a + b, 0)`. */
  function SumValues<K>(al: Assoc<K, int>): int {
    if al == [] then 0 else al[0].1 + SumValues(al[1..])
  }

  /** A key is missing exactly when it is not listed. */
  lemma {:induction false} GetMissing<K, V>(al: Assoc<K, V>, k: K)
    ensures Get(al, k).None? <==> k !in Keys(al)
  {
    if al != [] {
      GetMissing(al[1..], k);
      assert Keys(al) == [al[0].0] + Keys(al[1..]);
    }
  }

  /** With each key listed once, a key's value is the one listed beside it. */
  lemma {:induction false} GetDistinct<K, V>(al: Assoc<K, V>, i: nat)
    requires DistinctKeys(al) && i < |al|
    ensures Get(al, al[i].0) == Some(al[i].1)
  {
    if i > 0 {
      var tail := al[1..];
      assert tail[i - 1] == al[i];
      GetDistinct(tail, i - 1);
    }
  }

  /** After `obj[k] = v`, `obj[k]` is `v` and every other key reads as before. */
  lemma {:induction false} GetPut<K, V>(al: Assoc<K, V>, k: K, v: V, k': K)
    ensures Get(Put(al, k, v), k') == if k' == k then Some(v) else Get(al, k')
  {
    if al != [] && al[0].0 != k {
      GetPut(al[1..], k, v, k');
    }
  }

  /** `obj[k] = v` leaves the key order alone, or appends a new key. */
  lemma {:induction false} KeysPut<K, V>(al: Assoc<K, V>, k: K, v: V)
    ensures Keys(Put(al, k, v)) == if k in Keys(al) then Keys(al) else Keys(al) + [k]
  {
    if al != [] {
      assert Keys(al) == [al[0].0] + Keys(al[1..]);
      if al[0].0 != k {
        KeysPut(al[1..], k, v);
      }
    }
  }

  /** `obj[k] = v` keeps every key listed once. */
  lemma {:induction false} PutDistinct<K, V>(al: Assoc<K, V>, k: K, v: V)
    requires DistinctKeys(al)
    ensures DistinctKeys(Put(al, k, v))
  {
    var r := Put(al, k, v);
    KeysPut(al, k, v);
    forall i, j | 0 <= i < j < |r| ensures r[i].0 != r[j].0 {
      assert r[i].0 == Keys(r)[i] == Keys(al)[i] == al[i].0;
      if j < |al| {
        assert r[j].0 == Keys(r)[j] == Keys(al)[j] == al[j].0;
      } else {
        assert r[j].0 == Keys(r)[j] == k;
      }
    }
  }

  /** A pair listed last adds its value to the sum. */
  lemma {:induction false} SumSnoc<K>(al: Assoc<K, int>, kv: (K, int))
    ensures SumValues(al + [kv]) == SumValues(al) + kv.1
  {
    if al != [] {
      assert (al + [kv])[1..] == al[1..] + [kv];
      SumSnoc(al[1..], kv);
    } else {
      assert [kv][1..] == [];
    }
  }

  /** Writing `v` under `k` changes the sum by `v` minus what `k` held. */
  lemma {:induction false} SumPut<K>(al: Assoc<K, int>, k: K, v: int)
    ensures SumValues(Put(al, k, v)) == SumValues(al) - Get(al, k).GetOr(0) + v
  {
    if al != [] && al[0].0 != k {
      SumPut(al[1..], k, v);
    }
  }
}
