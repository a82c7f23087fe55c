/** Generic facts about sequences used by both the seeding code (distinct
    time-zone names) and the grouping step (distinct equipment ids). */
module Sequences {

  /** No element occurs twice. */
  predicate NoDuplicates<T(==)>(s: seq<T>) {
    forall i, j :: 0 <= i < j < |s| ==> s[i] != s[j]
  }

  /** Position of the first occurrence of `x` in `s`. */
  function FirstIndex<T(==)>(s: seq<T>, x: T): (k: nat)
    requires x in s
    ensures k < |s| && s[k] == x
    ensures forall i :: 0 <= i < k ==> s[i] != x
  {
    if s[0] == x then 0 else 1 + FirstIndex(s[1..], x)
  }

  /** The elements of `s` with repetitions dropped, each kept at its first
      appearance: the order in which a dictionary that is only ever added to
      enumerates its keys. */
  function Distinct<T(==,!new)>(s: seq<T>): (r: seq<T>)
    ensures NoDuplicates(r)
    ensures forall x :: x in r <==> x in s
  {
    if |s| == 0 then []
    else
      var d := Distinct(s[..|s| - 1]);
      if s[|s| - 1] in d then d else d + [s[|s| - 1]]
  }

  lemma {:induction false} FirstIndexOfPrefix<T>(s: seq<T>, y: T, x: T)
    requires x in s
    ensures x in s + [y] && FirstIndex(s + [y], x) == FirstIndex(s, x)
  {
    if s[0] != x {
      assert (s + [y])[1..] == s[1..] + [y];
      FirstIndexOfPrefix(s[1..], y, x);
    }
  }

  lemma {:induction false} FirstIndexOfNew<T>(s: seq<T>, y: T)
    requires y !in s
    ensures y in s + [y] && FirstIndex(s + [y], y) == |s|
  {
    if |s| > 0 {
      assert (s + [y])[1..] == s[1..] + [y];
      FirstIndexOfNew(s[1..], y);
    }
  }

  /** `Distinct` lists the elements in the order of their first appearance. */
  lemma {:induction false} DistinctKeepsFirstAppearanceOrder<T(!new)>(s: seq<T>)
    ensures forall i, j :: 0 <= i < j < |Distinct(s)| ==>
      FirstIndex(s, Distinct(s)[i]) < FirstIndex(s, Distinct(s)[j])
  {
    if |s| > 0 {
      var p := s[..|s| - 1];
      var y := s[|s| - 1];
      assert s == p + [y];
      DistinctKeepsFirstAppearanceOrder(p);
      var d := Distinct(p);
      forall x | x in d
        ensures FirstIndex(s, x) == FirstIndex(p, x) < |p|
      {
        FirstIndexOfPrefix(p, y, x);
      }
      if y !in d {
        FirstIndexOfNew(p, y);
      }
    }
  }

  /** Number of elements satisfying `p`. */
  function CountIf<T>(s: seq<T>, p: T -> bool): nat {
    if |s| == 0 then 0 else CountIf(s[..|s| - 1], p) + (if p(s[|s| - 1]) then 1 else 0)
  }

  /** Counting distributes over concatenation. */
  lemma {:induction false} CountIfAppend<T>(a: seq<T>, b: seq<T>, p: T -> bool)
    ensures CountIf(a + b, p) == CountIf(a, p) + CountIf(b, p)
  {
    if |b| > 0 {
      var b' := b[..|b| - 1];
      assert (a + b)[..|a + b| - 1] == a + b';
      CountIfAppend(a, b', p);
    } else {
      assert a + b == a;
    }
  }

  /** Counting one more element. */
  lemma CountIfSnoc<T>(a: seq<T>, x: T, p: T -> bool)
    ensures CountIf(a + [x], p) == CountIf(a, p) + (if p(x) then 1 else 0)
  {
    assert (a + [x])[..|a|] == a;
  }

  /** Counting does not depend on the order of the elements. */
  lemma {:induction false} CountIfPermutation<T>(a: seq<T>, b: seq<T>, p: T -> bool)
    requires multiset(a) == multiset(b)
    ensures CountIf(a, p) == CountIf(b, p)
    decreases |a|
  {
    if |a| == 0 {
      assert |b| == |multiset(b)| == 0;
    } else {
      var n := |a| - 1;
      var x := a[n];
      assert x in multiset(b);
      var j :| 0 <= j < |b| && b[j] == x;
      var rest := b[..j] + b[j + 1..];
      assert b == b[..j] + [x] + b[j + 1..];
      assert a == a[..n] + [x];
      assert multiset(b) == multiset(b[..j]) + multiset{x} + multiset(b[j + 1..]);
      assert multiset(a) == multiset(a[..n]) + multiset{x};
      forall y ensures multiset(rest)[y] == multiset(a[..n])[y] {
        assert multiset(a)[y] == multiset(b)[y];
      }
      assert multiset(rest) == multiset(a[..n]);
      CountIfPermutation(a[..n], rest, p);
      CountIfAppend(b[..j] + [x], b[j + 1..], p);
      CountIfAppend(b[..j], [x], p);
      CountIfAppend(b[..j], b[j + 1..], p);
      CountIfAppend(a[..n], [x], p);
    }
  }
}
