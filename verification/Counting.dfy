/** The pigeonhole principle, in the forms that the other modules use. */
module Counting {
  ghost predicate Distinct<T>(s: seq<T>) { forall i, j :: 0 <= i < j < |s| ==> s[i] != s[j] }

  lemma {:induction false} DistinctWithin<T>(s: seq<T>, values: set<T>)
    requires Distinct(s) && forall i :: 0 <= i < |s| ==> s[i] in values
    ensures |s| <= |values|
  {
    if s != [] {
      var n := |s| - 1;
      DistinctWithin(s[..n], values - {s[n]});
    }
  }

  lemma {:induction false} Pigeonhole<T>(a: seq<T>, b: seq<T>)
    requires Distinct(a) && forall x :: x in a ==> x in b
    ensures |a| <= |b|
    decreases |a|
  {
    if a != [] {
      var x := a[|a| - 1];
      assert x in b;
      var i :| 0 <= i < |b| && b[i] == x;
      var a', b' := a[..|a| - 1], b[..i] + b[i + 1..];
      forall y | y in a' ensures y in b' {
        assert y in b;
        var j :| 0 <= j < |b| && b[j] == y;
        assert j < i ==> b'[j] == y;
        assert j > i ==> b'[j - 1] == y;
      }
      Pigeonhole(a', b');
    }
  }

  function Below(n: nat): (r: set<nat>)
    ensures forall x: nat :: x in r <==> x < n
    ensures |r| == n
  {
    if n == 0 then {} else Below(n - 1) + {n - 1}
  }

  /** As many distinct numbers below `n` as there are take in every one of them. */
  lemma AllBelow(s: seq<nat>, n: nat, x: nat)
    requires Distinct(s) && |s| == n && forall i :: 0 <= i < n ==> s[i] < n
    requires x < n
    ensures x in s
  {
    if x !in s {
      DistinctWithin(s, Below(n) - {x});
    }
  }
}
