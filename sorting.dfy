/**
 * Python's stable `list.sort` / `sorted`, as an insertion sort by a strict order `lt`
 * ("`a` must come before `b`"). Elements that `lt` does not separate keep their input
 * order, which is what Python's sort guarantees (with or without `reverse=True`).
 */
module Sorting {

  /**
   * `lt` is a strict weak order, as a sort key's `<` is: asymmetric, transitive, and
   * "neither before the other" is transitive too.
   */
  ghost predicate StrictWeakOrder<T(!new)>(lt: (T, T) -> bool)
  {
    && (forall a, b :: lt(a, b) ==> !lt(b, a))
    && (forall a, b, c :: lt(a, b) && lt(b, c) ==> lt(a, c))
    && (forall a, b, c :: !lt(a, b) && !lt(b, c) ==> !lt(a, c))
  }

  /** No element is out of order with one before it. */
  predicate Sorted<T>(s: seq<T>, lt: (T, T) -> bool)
  {
    forall i, j :: 0 <= i < j < |s| ==> !lt(s[j], s[i])
  }

  /** Puts `x` after every element it does not have to precede. */
  function Insert<T>(x: T, s: seq<T>, lt: (T, T) -> bool): (r: seq<T>)
    ensures multiset(r) == multiset(s) + multiset{x}
    ensures |r| == |s| + 1
  {
    if s == [] then [x]
    else if lt(x, s[0]) then [x] + s
    else
      assert s == [s[0]] + s[1..];
      [s[0]] + Insert(x, s[1..], lt)
  }

  /** The sort: each element, taken in input order, inserted into the sorted prefix. */
  function Sort<T>(s: seq<T>, lt: (T, T) -> bool): (r: seq<T>)
    ensures multiset(r) == multiset(s)
    ensures |r| == |s|
  {
    if s == [] then []
    else
      assert s == s[..|s| - 1] + [s[|s| - 1]];
      Insert(s[|s| - 1], Sort(s[..|s| - 1], lt), lt)
  }

  /** Where `Insert` puts `x`: after a prefix that need not follow it, before one that must. */
  lemma {:induction false} InsertAt<T>(x: T, s: seq<T>, lt: (T, T) -> bool)
    returns (k: nat)
    ensures k <= |s| && Insert(x, s, lt) == s[..k] + ([x] + s[k..])
    ensures forall i :: 0 <= i < k ==> !lt(x, s[i])
    ensures k < |s| ==> lt(x, s[k])
  {
    if s == [] || lt(x, s[0]) {
      k := 0;
    } else {
      var k' := InsertAt(x, s[1..], lt);
      k := k' + 1;
      InsertStep(x, s, lt, k');
      PrefixStep(x, s, lt, k');
    }
  }

  /** Inserting past the head puts `x` one place further on. */
  lemma InsertStep<T>(x: T, s: seq<T>, lt: (T, T) -> bool, k': nat)
    requires s != [] && !lt(x, s[0]) && k' <= |s| - 1
    requires Insert(x, s[1..], lt) == s[1..][..k'] + ([x] + s[1..][k'..])
    ensures Insert(x, s, lt) == s[..k' + 1] + ([x] + s[k' + 1..])
  {
    var tail := [x] + s[k' + 1..];
    assert s[k' + 1..] == s[1..][k'..];
    assert s[..k' + 1] == [s[0]] + s[1..][..k'];
    Associate(s[0], s[1..][..k'], tail);
  }

  lemma PrefixStep<T>(x: T, s: seq<T>, lt: (T, T) -> bool, k': nat)
    requires s != [] && !lt(x, s[0]) && k' <= |s| - 1
    requires forall i :: 0 <= i < k' ==> !lt(x, s[1..][i])
    requires k' < |s| - 1 ==> lt(x, s[1..][k'])
    ensures forall i :: 0 <= i < k' + 1 ==> !lt(x, s[i])
    ensures k' + 1 < |s| ==> lt(x, s[k' + 1])
  {
    forall i | 0 < i < k' + 1
      ensures !lt(x, s[i])
    {
      assert s[i] == s[1..][i - 1];
    }
  }

  lemma Associate<T>(a: T, b: seq<T>, c: seq<T>)
    ensures [a] + (b + c) == ([a] + b) + c
  {
  }

  lemma InsertSorted<T(!new)>(x: T, s: seq<T>, lt: (T, T) -> bool)
    requires StrictWeakOrder(lt) && Sorted(s, lt)
    ensures Sorted(Insert(x, s, lt), lt)
  {
    var k := InsertAt(x, s, lt);
    var r := Insert(x, s, lt);
    forall i, j | 0 <= i < j < |r|
      ensures !lt(r[j], r[i])
    {
      if i < k && j == k {
        assert r[i] == s[i] && r[j] == x;
      } else if i == k && j > k {
        assert r[i] == x && r[j] == s[j - 1] && r[k + 1] == s[k];
        if j - 1 > k {
          assert !lt(s[j - 1], s[k]);
        }
      } else {
        var i' := if i < k then i else i - 1;
        var j' := if j < k then j else j - 1;
        assert r[i] == s[i'] && r[j] == s[j'];
      }
    }
  }

  /** The result is in order. */
  lemma {:induction false} SortSorted<T(!new)>(s: seq<T>, lt: (T, T) -> bool)
    requires StrictWeakOrder(lt)
    ensures Sorted(Sort(s, lt), lt)
  {
    if s != [] {
      SortSorted(s[..|s| - 1], lt);
      InsertSorted(s[|s| - 1], Sort(s[..|s| - 1], lt), lt);
    }
  }

  /**
   * Stability: when the input is in increasing `rank`, any two results that `lt` does not
   * order are in increasing `rank`, i.e. ties keep their input order.
   */
  predicate TiesByRank<T>(s: seq<T>, lt: (T, T) -> bool, rank: T -> int)
  {
    forall i, j :: 0 <= i < j < |s| ==> lt(s[i], s[j]) || rank(s[i]) < rank(s[j])
  }

  predicate RankIncreasing<T>(s: seq<T>, rank: T -> int)
  {
    forall i, j :: 0 <= i < j < |s| ==> rank(s[i]) < rank(s[j])
  }

  lemma {:induction false} SortStable<T(!new)>(s: seq<T>, lt: (T, T) -> bool, rank: T -> int)
    requires StrictWeakOrder(lt) && RankIncreasing(s, rank)
    ensures TiesByRank(Sort(s, lt), lt, rank)
  {
    if s != [] {
      var init, x := s[..|s| - 1], s[|s| - 1];
      SortStable(init, lt, rank);
      var t := Sort(init, lt);
      SortSorted(init, lt);
      forall y | y in t
        ensures rank(y) < rank(x)
      {
        assert y in multiset(init);
        var i :| 0 <= i < |init| && init[i] == y;
        assert s[i] == y;
      }
      InsertStable(x, t, lt, rank);
    }
  }

  /** Inserting an element ranked after all others keeps ties in rank order. */
  lemma InsertStable<T(!new)>(x: T, t: seq<T>, lt: (T, T) -> bool, rank: T -> int)
    requires StrictWeakOrder(lt) && Sorted(t, lt) && TiesByRank(t, lt, rank)
    requires forall y :: y in t ==> rank(y) < rank(x)
    ensures TiesByRank(Insert(x, t, lt), lt, rank)
  {
    var k := InsertAt(x, t, lt);
    var r := Insert(x, t, lt);
    forall i, j | 0 <= i < j < |r|
      ensures lt(r[i], r[j]) || rank(r[i]) < rank(r[j])
    {
      if j == k {
        assert r[i] == t[i] && r[j] == x;
        assert t[i] in t;
      } else if i == k {
        assert r[i] == x && r[j] == t[j - 1];
        assert t[j - 1] in t;
        if j - 1 > k {
          assert !lt(t[j - 1], t[k]);
        }
      } else {
        var i' := if i < k then i else i - 1;
        var j' := if j < k then j else j - 1;
        assert r[i] == t[i'] && r[j] == t[j'];
      }
    }
  }
}
