/** Sorting by an order that is given as a predicate, and sums over lists, which sorting does not change. */
module Sorting {

  /** `before` is a total order up to ties. */
  ghost predicate IsOrder<T(!new)>(before: (T, T) -> bool) {
    && (forall x, y :: before(x, y) || before(y, x))
    && (forall x, y, z :: before(x, y) && before(y, z) ==> before(x, z))
  }

  ghost predicate Sorted<T>(s: seq<T>, before: (T, T) -> bool) {
    forall i, j :: 0 <= i < j < |s| ==> before(s[i], s[j])
  }

  /** A sorted rearrangement of `s`; ties may end up in any order. */
  ghost predicate IsSortOf<T>(r: seq<T>, s: seq<T>, before: (T, T) -> bool) {
    Sorted(r, before) && multiset(r) == multiset(s)
  }

  method Sort<T(!new)>(s: seq<T>, before: (T, T) -> bool) returns (r: seq<T>)
    requires IsOrder(before)
    ensures IsSortOf(r, s, before)
  {
    r := [];
    for i := 0 to |s|
      invariant IsSortOf(r, s[..i], before)
    {
      var j := |r|;
      while j > 0 && before(s[i], r[j - 1])
        invariant 0 <= j <= |r|
        invariant forall k :: j <= k < |r| ==> before(s[i], r[k])
      {
        j := j - 1;
      }
      InsertSorted(r, j, s[i], before);
      assert s[..i + 1] == s[..i] + [s[i]];
      assert r == r[..j] + r[j..];
      r := r[..j] + [s[i]] + r[j..];
    }
    assert s[..|s|] == s;
  }

  lemma {:induction false} InsertSorted<T(!new)>(r: seq<T>, j: nat, x: T, before: (T, T) -> bool)
    requires IsOrder(before) && Sorted(r, before) && j <= |r|
    requires forall k :: j <= k < |r| ==> before(x, r[k])
    requires j > 0 ==> !before(x, r[j - 1])
    ensures Sorted(r[..j] + [x] + r[j..], before)
  {
    var r' := r[..j] + [x] + r[j..];
    assert forall k :: 0 <= k < |r'| ==> r'[k] == if k < j then r[k] else if k == j then x else r[k - 1];
    forall k | 0 <= k < j
      ensures before(r[k], x)
    {
      assert before(r[j - 1], x);
    }
  }

  function SumBy<T>(s: seq<T>, f: T -> int): int {
    if s == [] then 0 else f(s[0]) + SumBy(s[1..], f)
  }

  lemma {:induction false} SumByAppend<T>(s: seq<T>, t: seq<T>, f: T -> int)
    ensures SumBy(s + t, f) == SumBy(s, f) + SumBy(t, f)
  {
    if s == [] {
      assert s + t == t;
    } else {
      assert (s + t)[1..] == s[1..] + t;
      SumByAppend(s[1..], t, f);
    }
  }

  lemma {:induction false} SumByPermuted<T>(s: seq<T>, t: seq<T>, f: T -> int)
    requires multiset(s) == multiset(t)
    ensures SumBy(s, f) == SumBy(t, f)
  {
    if s == [] {
      assert t == [];
    } else {
      var k := SameElement(s, t);
      SumByPermuted(s[1..], t[..k] + t[k + 1..], f);
      SumByWithoutOne(t, k, f);
    }
  }

  /** The first element of a list, found in a rearrangement of it; without it they still match. */
  lemma {:induction false} SameElement<T>(s: seq<T>, t: seq<T>) returns (k: nat)
    requires s != [] && multiset(s) == multiset(t)
    ensures k < |t| && t[k] == s[0] && multiset(t[..k] + t[k + 1..]) == multiset(s[1..])
  {
    SameMember(s, t, s[0]);
    k :| 0 <= k < |t| && t[k] == s[0];
    WithoutOne(t, k);
    WithoutFirst(s);
  }

  lemma {:induction false} SameMember<T>(s: seq<T>, t: seq<T>, x: T)
    requires x in s && multiset(s) == multiset(t)
    ensures x in t
  {
    assert x in multiset(s);
  }

  lemma {:induction false} WithoutFirst<T>(s: seq<T>)
    requires s != []
    ensures multiset(s[1..]) == multiset(s) - multiset{s[0]}
  {
    assert s == [s[0]] + s[1..];
  }

  lemma {:induction false} WithoutOne<T>(s: seq<T>, k: nat)
    requires k < |s|
    ensures multiset(s[..k] + s[k + 1..]) == multiset(s) - multiset{s[k]}
  {
    assert s == s[..k] + [s[k]] + s[k + 1..];
  }

  lemma {:induction false} SumByWithoutOne<T>(s: seq<T>, k: nat, f: T -> int)
    requires k < |s|
    ensures SumBy(s, f) == f(s[k]) + SumBy(s[..k] + s[k + 1..], f)
  {
    assert s == s[..k] + s[k..];
    SumByAppend(s[..k], s[k..], f);
    SumByAppend(s[..k], s[k + 1..], f);
  }

  lemma {:induction false} SumBySorted<T>(r: seq<T>, s: seq<T>, before: (T, T) -> bool, f: T -> int)
    requires IsSortOf(r, s, before)
    ensures SumBy(r, f) == SumBy(s, f)
  {
    SumByPermuted(r, s, f);
  }

  /** Two lists with the same values place by place have the same sum. */
  lemma {:induction false} SumByPointwise<T>(s: seq<T>, t: seq<T>, f: T -> int, g: T -> int)
    requires |s| == |t| && forall i :: 0 <= i < |s| ==> f(s[i]) == g(t[i])
    ensures SumBy(s, f) == SumBy(t, g)
  {
    if s != [] {
      SumByPointwise(s[1..], t[1..], f, g);
    }
  }
}
