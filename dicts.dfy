/**
 * Python's `dict` as the source uses it: an insertion-ordered list of (key, value)
 * pairs. `d[k] = v` on a present key replaces the value where it stands; on a new key
 * it appends. Iteration (`d.items()`) visits the pairs in this order.
 */
module Dicts {
  import opened Wrappers

  function Keys<K, V>(d: seq<(K, V)>): (ks: seq<K>)
    ensures |ks| == |d| && forall i :: 0 <= i < |d| ==> ks[i] == d[i].0
  {
    seq(|d|, i requires 0 <= i < |d| => d[i].0)
  }

  predicate UniqueKeys<K(==), V>(d: seq<(K, V)>)
  {
    forall i, j :: 0 <= i < j < |d| ==> d[i].0 != d[j].0
  }

  predicate HasKey<K(==), V>(d: seq<(K, V)>, k: K)
  {
    exists i :: 0 <= i < |d| && d[i].0 == k
  }

  /** `d.get(k)`: the value stored under `k`, if any. */
  function Get<K(==), V>(d: seq<(K, V)>, k: K): (r: Option<V>)
    ensures r.Some? <==> HasKey(d, k)
    ensures r.Some? ==> (k, r.value) in d
  {
    if d == [] then None else if d[0].0 == k then Some(d[0].1) else Get(d[1..], k)
  }

  /** `d[k] = v`. */
  function Set<K(==), V>(d: seq<(K, V)>, k: K, v: V): (r: seq<(K, V)>)
  {
    if d == [] then [(k, v)] else if d[0].0 == k then [(k, v)] + d[1..] else [d[0]] + Set(d[1..], k, v)
  }

  /** After `d[k] = v`, `d[k]` is `v` and every other key reads as before. */
  lemma {:induction false} GetSet<K, V>(d: seq<(K, V)>, k: K, v: V, k': K)
    ensures Get(Set(d, k, v), k') == if k' == k then Some(v) else Get(d, k')
  {
    if d != [] && d[0].0 != k {
      GetSet(d[1..], k, v, k');
    }
  }

  /** An overwrite keeps the key order; a new key goes at the end. */
  lemma {:induction false} KeysSet<K, V>(d: seq<(K, V)>, k: K, v: V)
    ensures Keys(Set(d, k, v)) == if HasKey(d, k) then Keys(d) else Keys(d) + [k]
  {
    if d == [] {
    } else if d[0].0 == k {
      assert HasKey(d, k);
      KeysCons(d[0], d[1..]);
      KeysCons((k, v), d[1..]);
      assert [d[0]] + d[1..] == d;
    } else {
      KeysSet(d[1..], k, v);
      HasKeyTail(d, k);
      KeysCons(d[0], d[1..]);
      KeysCons(d[0], Set(d[1..], k, v));
      assert [d[0]] + d[1..] == d;
    }
  }

  lemma KeysCons<K, V>(x: (K, V), t: seq<(K, V)>)
    ensures Keys([x] + t) == [x.0] + Keys(t)
  {
    var a, b := Keys([x] + t), [x.0] + Keys(t);
    forall i | 0 <= i < |a|
      ensures a[i] == b[i]
    {
      if i > 0 {
        assert ([x] + t)[i] == t[i - 1];
      }
    }
  }

  /** A key other than the first is present exactly when it is present in the rest. */
  lemma HasKeyTail<K, V>(d: seq<(K, V)>, k: K)
    requires d != [] && d[0].0 != k
    ensures HasKey(d, k) <==> HasKey(d[1..], k)
  {
    if HasKey(d, k) {
      var i :| 0 <= i < |d| && d[i].0 == k;
      assert d[1..][i - 1].0 == k;
    }
    if HasKey(d[1..], k) {
      var i :| 0 <= i < |d[1..]| && d[1..][i].0 == k;
      assert d[i + 1].0 == k;
    }
  }

  /** `d[k] = v` leaves every pair under another key where it stands. */
  lemma {:induction false} SetKeeps<K, V>(d: seq<(K, V)>, k: K, v: V, i: nat)
    requires i < |d| && d[i].0 != k
    ensures |d| <= |Set(d, k, v)| && Set(d, k, v)[i] == d[i]
  {
    if d[0].0 != k && i > 0 {
      SetKeeps(d[1..], k, v, i - 1);
    } else if d[0].0 != k {
      SetLength(d[1..], k, v);
    }
  }

  lemma {:induction false} SetLength<K, V>(d: seq<(K, V)>, k: K, v: V)
    ensures |d| <= |Set(d, k, v)|
  {
    if d != [] && d[0].0 != k {
      SetLength(d[1..], k, v);
    }
  }

  /** Assignment never creates a duplicate key. */
  lemma SetUnique<K, V>(d: seq<(K, V)>, k: K, v: V)
    requires UniqueKeys(d)
    ensures UniqueKeys(Set(d, k, v))
  {
    KeysSet(d, k, v);
    var r := Set(d, k, v);
    assert forall i :: 0 <= i < |r| ==> r[i].0 == Keys(r)[i];
    if !HasKey(d, k) {
      assert forall i :: 0 <= i < |d| ==> Keys(d)[i] != k;
    }
  }

  /** With unique keys, a stored pair is exactly what `get` finds. */
  lemma {:induction false} GetUnique<K, V>(d: seq<(K, V)>, i: nat)
    requires UniqueKeys(d) && i < |d|
    ensures Get(d, d[i].0) == Some(d[i].1)
  {
    if i > 0 {
      GetUnique(d[1..], i - 1);
    }
  }

  /** Assigning to a present key replaces its pair where it stands. */
  lemma {:induction false} SetAt<K, V>(d: seq<(K, V)>, i: nat, v: V)
    requires UniqueKeys(d) && i < |d|
    ensures Set(d, d[i].0, v) == d[i := (d[i].0, v)]
  {
    if i > 0 {
      SetAt(d[1..], i - 1, v);
      assert [d[0]] + d[1..][i - 1 := (d[i].0, v)] == d[i := (d[i].0, v)];
    }
  }
}
