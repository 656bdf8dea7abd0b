/** Iteration by "the next larger one": how the record and hint iterators of the resolver step
    through a set without sorting it (libs/async/src/dns/dns.c:2168-2260, 5199-5235). */
module Enumeration {
  import opened Bytes

  /** `r` is the element of `s` with the smallest key above `low`; there may be none. */
  ghost predicate IsNext(s: seq<nat>, key: nat -> int, low: int, r: Option<nat>) {
    match r
    case None => forall y | y in s :: key(y) <= low
    case Some(x) => x in s && key(x) > low && forall y | y in s && key(y) > low :: key(x) <= key(y)
  }

  /** One turn of the search: the candidate so far, or the new element if that is better. */
  function Better(key: nat -> int, low: int, r: Option<nat>, x: nat): Option<nat> {
    if key(x) > low && (r.None? || key(x) < key(r.value)) then Some(x) else r
  }

  lemma BetterIsNext(s: seq<nat>, key: nat -> int, low: int, r: Option<nat>, x: nat)
    requires IsNext(s, key, low, r)
    ensures IsNext(s + [x], key, low, Better(key, low, r, x))
  {
  }

  /** The key above which the `i`-th step looks. */
  function Below(key: nat -> int, e: seq<nat>, i: nat): int
    requires i <= |e|
  {
    if i == 0 then -1 else key(e[i - 1])
  }

  /** `e` are the first steps of the iteration over `s`. */
  ghost predicate Steps(s: seq<nat>, key: nat -> int, e: seq<nat>) {
    forall i: nat {:trigger StepAt(s, key, e, i)} | i < |e| :: StepAt(s, key, e, i)
  }

  ghost predicate StepAt(s: seq<nat>, key: nat -> int, e: seq<nat>, i: nat)
    requires i < |e|
  {
    IsNext(s, key, Below(key, e, i), Some(e[i]))
  }

  lemma StepsSnoc(s: seq<nat>, key: nat -> int, e: seq<nat>, x: nat)
    requires Steps(s, key, e) && IsNext(s, key, Below(key, e, |e|), Some(x))
    ensures Steps(s, key, e + [x])
  {
    hide IsNext;
    forall i: nat | i < |e| + 1 ensures StepAt(s, key, e + [x], i) {
      if i < |e| { assert StepAt(s, key, e, i); }
    }
  }

  lemma {:induction false} StepsIncrease(s: seq<nat>, key: nat -> int, e: seq<nat>, i: nat, j: nat)
    requires Steps(s, key, e) && i < j < |e|
    ensures key(e[i]) < key(e[j])
    decreases j
  {
    assert StepAt(s, key, e, j);
    if i < j - 1 { StepsIncrease(s, key, e, i, j - 1); }
  }

  /** Nothing that is not above the last step was left out. */
  lemma {:induction false} StepsReach(s: seq<nat>, key: nat -> int, e: seq<nat>, n: nat, x: nat)
    requires Steps(s, key, e) && n <= |e| && x in s && 0 <= key(x) <= Below(key, e, n)
    requires forall y | y in s && key(y) == key(x) :: y == x
    ensures x in e[..n]
    decreases n
  {
    assert e[n - 1] == e[..n][n - 1];
    assert StepAt(s, key, e, n - 1);
    if key(x) <= Below(key, e, n - 1) {
      StepsReach(s, key, e, n - 1, x);
      assert e[..n - 1] <= e[..n];
    }
  }

  /** An iteration that has come to its end went through the whole set in the order of the
      keys, and met every element once. */
  lemma Complete(s: seq<nat>, key: nat -> int, e: seq<nat>)
    requires Steps(s, key, e) && IsNext(s, key, Below(key, e, |e|), None)
    requires forall x | x in s :: key(x) >= 0
    requires forall x, y | x in s && y in s && key(x) == key(y) :: x == y
    ensures forall i, j :: 0 <= i < j < |e| ==> key(e[i]) < key(e[j])
    ensures forall x :: x in s <==> x in e
    ensures forall i, j :: 0 <= i < j < |e| ==> e[i] != e[j]
  {
    forall i, j | 0 <= i < j < |e| ensures key(e[i]) < key(e[j]) { StepsIncrease(s, key, e, i, j); }
    forall x | x in s ensures x in e {
      StepsReach(s, key, e, |e|, x);
      assert e[..|e|] == e;
    }
    forall x | x in e ensures x in s {
      var i :| 0 <= i < |e| && e[i] == x;
      assert StepAt(s, key, e, i);
    }
  }
}
