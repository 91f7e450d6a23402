/** Lists without repetitions, in the order of first appearance. */
module Lists {
  import opened Prelude

  /** The elements of `s`, each kept where it appears first. */
  function Dedup<T(==)>(s: seq<T>): seq<T> {
    if s == [] then []
    else
      var n := |s| - 1;
      if s[n] in s[..n] then Dedup(s[..n]) else Dedup(s[..n]) + [s[n]]
  }

  /** The first place of `x`. */
  function FirstAt<T(==)>(s: seq<T>, x: T): (i: nat)
    requires x in s
    ensures i < |s| && s[i] == x && x !in s[..i]
  {
    if s[0] == x then 0 else
      assert x in s[1..];
      var i := FirstAt(s[1..], x);
      assert s[..i + 1] == [s[0]] + s[1..][..i];
      i + 1
  }

  /** Dedup keeps every element once, and the order in which elements first appear. */
  lemma {:induction false} DedupKeepsFirsts<T>(s: seq<T>)
    ensures Distinct(Dedup(s))
    ensures forall x :: x in Dedup(s) <==> x in s
    ensures forall i, j :: 0 <= i < j < |Dedup(s)| && Dedup(s)[i] in s && Dedup(s)[j] in s ==>
      FirstAt(s, Dedup(s)[i]) < FirstAt(s, Dedup(s)[j])
  {
    if s != [] {
      var n := |s| - 1;
      DedupKeepsFirsts(s[..n]);
      assert s == s[..n] + [s[n]];
      forall x | x in s[..n]
        ensures FirstAt(s, x) == FirstAt(s[..n], x)
      {
        FirstAtPrefix(s, n, x);
      }
      if s[n] !in s[..n] {
        FirstAtLast(s);
      }
    }
  }

  lemma {:induction false} FirstAtPrefix<T>(s: seq<T>, n: nat, x: T)
    requires n <= |s| && x in s[..n]
    ensures FirstAt(s, x) == FirstAt(s[..n], x)
  {
    var k := FirstAt(s[..n], x);
    assert s[..n][..k] == s[..k];
    assert s[k] == x;
  }

  lemma {:induction false} FirstAtLast<T>(s: seq<T>)
    requires s != [] && s[|s| - 1] !in s[..|s| - 1]
    ensures FirstAt(s, s[|s| - 1]) == |s| - 1
  {
  }

  /** Lists with nothing in common stay without repetitions when joined. */
  lemma {:induction false} DistinctConcat<T>(s: seq<T>, t: seq<T>)
    requires Distinct(s) && forall x :: x in s ==> x !in t
    ensures Distinct(s + t) <==> Distinct(t)
  {
    if Distinct(s + t) {
      forall i, j | 0 <= i < j < |t|
        ensures t[i] != t[j]
      {
        assert (s + t)[|s| + i] == t[i] && (s + t)[|s| + j] == t[j];
      }
    }
    if Distinct(t) {
      forall i, j | 0 <= i < j < |s + t|
        ensures (s + t)[i] != (s + t)[j]
      {
        assert i < |s| <= j ==> s[i] in s && t[j - |s|] in t;
      }
    }
  }
}
