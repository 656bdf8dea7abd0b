/** Iteration over the name servers of a zone by priority, and in a shuffled order among equals
    (`dns_hints_i_cmp`, `dns_hints_i_start`, `dns_hints_i_skip`, `dns_hints_grep` of
    libs/async/src/dns/dns.c:5189-5277). */
module HintIteration {
  import opened Bytes
  import opened Counting
  import opened Enumeration
  import opened Shuffle

  const WORD: int := 0x1_0000_0000
  const HALF: int := 0x8000_0000
  const ADDRS: nat := 16

  /** A zone holds at most 16 addresses; only their priorities matter here. */
  predicate Zone(priority: seq<nat>) { |priority| <= ADDRS && forall i :: 0 <= i < |priority| ==> priority[i] < WORD }

  /** The unsigned difference, taken as a signed number. */
  function Difference(a: nat, b: nat): int {
    var d := (a - b) % WORD;
    if d < HALF then d else d - WORD
  }

  /** The difference of two priorities has the right sign exactly if it fits. */
  lemma DifferenceSign(a: nat, b: nat)
    requires a < WORD && b < WORD
    ensures (Difference(a, b) < 0 <==> a < b) <==> -HALF <= a - b < HALF
  {
  }

  /** `dns_hints_i_cmp`. */
  function Compare(priority: seq<nat>, seed: bv32, a: nat, b: nat): int
    requires Zone(priority) && a < |priority| && b < |priority|
  {
    var cmp := Difference(priority[a], priority[b]);
    if cmp != 0 then cmp else Shuffle16(a, seed) - Shuffle16(b, seed)
  }

  /** No two priorities are half the range apart. */
  predicate Close(priority: seq<nat>) {
    forall i, j :: 0 <= i < |priority| && 0 <= j < |priority| ==> priority[i] - priority[j] < HALF
  }

  /** Priority first, and then the shuffle. */
  function Key(priority: seq<nat>, seed: bv32): nat -> int {
    (a: nat) => if a < |priority| && a < 0x1_0000 then priority[a] * 0x1_0000 + Shuffle16(a, seed) else -1
  }

  /** How far apart two priorities are. */
  function Apart(priority: seq<nat>, a: nat, b: nat): int
    requires a < |priority| && b < |priority|
  {
    priority[a] as int - priority[b] as int
  }

  lemma DifferenceIs(a: nat, b: nat)
    requires a < WORD && b < WORD
    ensures Difference(a, b) == if a - b >= HALF then a - b - WORD else if a - b < -HALF then a - b + WORD else a - b
  {
  }

  lemma KeyIs(priority: seq<nat>, seed: bv32, a: nat)
    requires Zone(priority) && a < |priority|
    ensures Key(priority, seed)(a) == priority[a] * 0x1_0000 + Shuffle16(a, seed) >= 0
  {
    hide Shuffle16;
  }

  /** What the comparison says, by how far apart two priorities are. */
  lemma ComparesAs(priority: seq<nat>, seed: bv32, a: nat, b: nat)
    requires Zone(priority) && a < |priority| && b < |priority|
    ensures var key, apart := Key(priority, seed), Apart(priority, a, b);
            && (-HALF < apart < HALF ==>
                 && (Compare(priority, seed, a, b) < 0 <==> key(a) < key(b))
                 && (Compare(priority, seed, a, b) > 0 <==> key(a) > key(b)))
            && (apart >= HALF || apart == -HALF ==> Compare(priority, seed, a, b) < 0)
            && (apart < -HALF ==> Compare(priority, seed, a, b) > 0)
    ensures var key := Key(priority, seed);
            && (priority[a] < priority[b] ==> key(a) < key(b))
            && (key(a) == key(b) ==> a == b)
            && key(a) >= 0
  {
    hide Shuffle16, Key, Difference;
    DifferenceIs(priority[a], priority[b]);
    KeyIs(priority, seed, a);
    KeyIs(priority, seed, b);
    if priority[a] == priority[b] && Shuffle16(a, seed) == Shuffle16(b, seed) { ShuffleInjective(a, b, seed); }
  }

  /** The comparison follows the priorities of all pairs exactly if none are too far apart. */
  lemma RightIffClose(priority: seq<nat>, seed: bv32)
    requires Zone(priority)
    ensures (forall a: nat, b: nat {:trigger Compare(priority, seed, a, b)} | a < |priority| && b < |priority| ::
               Compare(priority, seed, a, b) < 0 <==> Key(priority, seed)(a) < Key(priority, seed)(b))
            <==> Close(priority)
  {
    hide Shuffle16;
    if Close(priority) {
      forall a: nat, b: nat | a < |priority| && b < |priority|
        ensures Compare(priority, seed, a, b) < 0 <==> Key(priority, seed)(a) < Key(priority, seed)(b)
      {
        ComparesAs(priority, seed, a, b);
      }
    } else {
      var i, j :| 0 <= i < |priority| && 0 <= j < |priority| && priority[i] - priority[j] >= HALF;
      ComparesAs(priority, seed, i, j);
    }
  }

  // ----- The loops ------------------------------------------------------------------------------

  /** The loop of `dns_hints_i_start`, from hint `p`, with the best so far. */
  function StartFrom(priority: seq<nat>, seed: bv32, p0: nat, p: nat): (r: nat)
    requires Zone(priority) && p0 < |priority| && p <= |priority|
    ensures r < |priority|
    decreases |priority| - p
  {
    if p == |priority| then p0
    else StartFrom(priority, seed, if Compare(priority, seed, p, p0) < 0 then p else p0, p + 1)
  }

  /** `dns_hints_i_start`. */
  function First(priority: seq<nat>, seed: bv32): (r: nat)
    requires Zone(priority)
    ensures r <= |priority|
  {
    if |priority| == 0 then 0 else StartFrom(priority, seed, 0, 1)
  }

  /** The first loop of `dns_hints_i_skip`: the next hint from `p` on that counts as larger. */
  function LargerFrom(priority: seq<nat>, seed: bv32, p0: nat, p: nat): (r: nat)
    requires Zone(priority) && p0 < |priority| && p <= |priority|
    ensures p <= r <= |priority|
    ensures r < |priority| ==> Compare(priority, seed, r, p0) > 0
    ensures forall y: nat | p <= y < r :: Compare(priority, seed, y, p0) <= 0
    decreases |priority| - p
  {
    if p == |priority| || Compare(priority, seed, p, p0) > 0 then p else LargerFrom(priority, seed, p0, p + 1)
  }

  /** The second loop. */
  function SkipFrom(priority: seq<nat>, seed: bv32, p0: nat, pZ: nat, p: nat): (r: nat)
    requires Zone(priority) && p0 < |priority| && pZ < |priority| && p <= |priority|
    requires Compare(priority, seed, pZ, p0) > 0
    ensures r < |priority| && Compare(priority, seed, r, p0) > 0
    decreases |priority| - p
  {
    if p == |priority| then pZ
    else if Compare(priority, seed, p, p0) > 0 && Compare(priority, seed, p, pZ) < 0 then SkipFrom(priority, seed, p0, p, p + 1)
    else SkipFrom(priority, seed, p0, pZ, p + 1)
  }

  /** `dns_hints_i_skip`. */
  function Next(priority: seq<nat>, seed: bv32, p0: nat): (r: nat)
    requires Zone(priority) && p0 < |priority|
    ensures r <= |priority|
    ensures r < |priority| ==> Compare(priority, seed, r, p0) > 0
    ensures r == |priority| ==> forall y: nat | y < |priority| :: Compare(priority, seed, y, p0) <= 0
  {
    var z := LargerFrom(priority, seed, p0, 0);
    if z == |priority| then z else SkipFrom(priority, seed, p0, z, z + 1)
  }

  /** The state of the iterator after `i` hints. */
  function Nth(priority: seq<nat>, seed: bv32, i: nat): (r: nat)
    requires Zone(priority)
    ensures r <= |priority|
  {
    if i == 0 then First(priority, seed)
    else
      var p := Nth(priority, seed, i - 1);
      if p < |priority| then Next(priority, seed, p) else p
  }

  /** The first `k` hints. */
  function Handed(priority: seq<nat>, seed: bv32, k: nat): (e: seq<nat>)
    requires Zone(priority)
    ensures |e| == k && forall i :: 0 <= i < k ==> e[i] == Nth(priority, seed, i)
  {
    seq(k, (i: nat) => Nth(priority, seed, i))
  }

  // ----- When the iteration is right ----------------------------------------------------------------

  /** The iteration hands out as many hints as there are, in order, and stops. */
  ghost predicate Enumerates(priority: seq<nat>, seed: bv32)
    requires Zone(priority)
  {
    var n, key, e := |priority|, Key(priority, seed), Handed(priority, seed, |priority|);
    && (forall i :: 0 <= i < n ==> e[i] < n)
    && (forall i, j :: 0 <= i < j < n ==> key(e[i]) < key(e[j]))
    && Nth(priority, seed, n) == n
  }

  predicate Between(priority: seq<nat>, lo: nat, hi: nat) { exists m :: 0 <= m < |priority| && lo < priority[m] < hi }

  /** Hint `f` comes first in the order. */
  predicate Least(priority: seq<nat>, seed: bv32, f: nat) {
    f < |priority| && forall x: nat :: x < |priority| ==> Key(priority, seed)(f) <= Key(priority, seed)(x)
  }

  /** The hint that comes first stands behind position `i`. */
  predicate LeastBehind(priority: seq<nat>, seed: bv32, i: nat) {
    exists f: nat :: i < f < |priority| && Least(priority, seed, f)
  }

  /** No two priorities are more than half the range apart; and where two are exactly half the range
      apart, there is one between them, and the larger stands before the least hint of all. */
  predicate Fit(priority: seq<nat>, seed: bv32) {
    && (forall i: nat, j: nat :: i < |priority| && j < |priority| ==> Apart(priority, i, j) <= HALF)
    && (forall i: nat, j: nat :: i < |priority| && j < |priority| && Apart(priority, i, j) == HALF ==>
          Between(priority, priority[j], priority[i]) && LeastBehind(priority, seed, i))
  }

  /** Where no two priorities are exactly half the range apart this is to be close. */
  lemma FitIsClose(priority: seq<nat>, seed: bv32)
    requires forall i: nat, j: nat :: i < |priority| && j < |priority| ==> Apart(priority, i, j) != HALF
    ensures Fit(priority, seed) <==> Close(priority)
  {
    if Fit(priority, seed) {
      forall i, j | 0 <= i < |priority| && 0 <= j < |priority| ensures priority[i] - priority[j] < HALF {
        assert Apart(priority, i, j) <= HALF && Apart(priority, i, j) != HALF;
      }
    }
  }

  // ----- Fit priorities are enumerated ----------------------------------------------------------------

  /** What follows for one pair. */
  lemma FitPair(priority: seq<nat>, seed: bv32, a: nat, b: nat)
    requires Zone(priority) && Fit(priority, seed) && a < |priority| && b < |priority|
    ensures -HALF <= Apart(priority, a, b) <= HALF
    ensures Apart(priority, a, b) == HALF ==> LeastBehind(priority, seed, a) && Between(priority, priority[b], priority[a])
  {
  }

  /** Nothing behind the least hint counts as smaller. */
  lemma LeastKeeps(priority: seq<nat>, seed: bv32, f: nat, p: nat)
    requires Zone(priority) && Fit(priority, seed) && Least(priority, seed, f) && f < p < |priority|
    ensures Compare(priority, seed, p, f) >= 0
  {
    hide Key, Compare, Fit;
    FitPair(priority, seed, p, f);
    ComparesAs(priority, seed, p, f);
    ComparesAs(priority, seed, f, p);
    if Apart(priority, p, f) == HALF {
      var f' :| p < f' < |priority| && Least(priority, seed, f');
      ComparesAs(priority, seed, f, f');
    }
  }

  /** The least hint counts as smaller than all others. */
  lemma LeastCounts(priority: seq<nat>, seed: bv32, f: nat, p: nat)
    requires Zone(priority) && Fit(priority, seed) && Least(priority, seed, f) && p < |priority| && p != f
    ensures Compare(priority, seed, f, p) < 0
  {
    hide Key, Compare, Fit;
    FitPair(priority, seed, f, p);
    FitPair(priority, seed, p, f);
    ComparesAs(priority, seed, f, p);
    ComparesAs(priority, seed, p, f);
  }

  lemma {:induction false} StartStays(priority: seq<nat>, seed: bv32, f: nat, p: nat)
    requires Zone(priority) && Fit(priority, seed) && Least(priority, seed, f) && f < p <= |priority|
    ensures StartFrom(priority, seed, f, p) == f
    decreases |priority| - p
  {
    hide Fit, Compare, Zone;
    if p < |priority| {
      LeastKeeps(priority, seed, f, p);
      StartStays(priority, seed, f, p + 1);
    }
  }

  lemma {:induction false} StartFinds(priority: seq<nat>, seed: bv32, f: nat, p0: nat, p: nat)
    requires Zone(priority) && Fit(priority, seed) && Least(priority, seed, f) && p0 < p <= f
    ensures StartFrom(priority, seed, p0, p) == f
    decreases |priority| - p
  {
    hide Fit, Compare, Zone, Key;
    if p < f {
      StartFinds(priority, seed, f, if Compare(priority, seed, p, p0) < 0 then p else p0, p + 1);
    } else {
      LeastCounts(priority, seed, f, p0);
      StartStays(priority, seed, f, f + 1);
    }
  }

  lemma LeastOf(priority: seq<nat>, seed: bv32, n: nat) returns (f: nat)
    requires 0 < n <= |priority|
    ensures f < n && forall x: nat :: x < n ==> Key(priority, seed)(f) <= Key(priority, seed)(x)
  {
    hide Key;
    f := 0;
    for x := 1 to n
      invariant f < x && forall y: nat :: y < x ==> Key(priority, seed)(f) <= Key(priority, seed)(y)
    {
      if Key(priority, seed)(x) < Key(priority, seed)(f) { f := x; }
    }
  }

  /** The iteration starts with the least hint. */
  lemma FirstIsLeast(priority: seq<nat>, seed: bv32)
    requires Zone(priority) && Fit(priority, seed) && priority != []
    ensures Least(priority, seed, First(priority, seed))
  {
    hide Key, Fit;
    var f := LeastOf(priority, seed, |priority|);
    if f == 0 { StartStays(priority, seed, 0, 1); } else { StartFinds(priority, seed, f, 0, 1); }
  }

  /** Two hints that both count as larger than `p0` compare in the order of their keys. */
  lemma LargerCompare(priority: seq<nat>, seed: bv32, p0: nat, a: nat, b: nat)
    requires Zone(priority) && Fit(priority, seed) && p0 < |priority| && a < |priority| && b < |priority|
    requires Compare(priority, seed, a, p0) > 0 && Compare(priority, seed, b, p0) > 0
    ensures Compare(priority, seed, a, b) < 0 <==> Key(priority, seed)(a) < Key(priority, seed)(b)
    ensures Key(priority, seed)(a) > Key(priority, seed)(p0)
  {
    hide Key, Compare, Between, LeastBehind;
    ComparesAs(priority, seed, a, b);
    ComparesAs(priority, seed, a, p0);
    ComparesAs(priority, seed, b, p0);
    FitPair(priority, seed, a, b);
    FitPair(priority, seed, b, a);
    FitPair(priority, seed, a, p0);
    FitPair(priority, seed, b, p0);
    FitPair(priority, seed, p0, a);
    FitPair(priority, seed, p0, b);
  }

  lemma {:induction false} SkipFinds(priority: seq<nat>, seed: bv32, p0: nat, pZ: nat, p: nat)
    requires Zone(priority) && Fit(priority, seed) && p0 < |priority| && pZ < p <= |priority|
    requires Compare(priority, seed, pZ, p0) > 0
    requires forall y: nat | y < p && Compare(priority, seed, y, p0) > 0 :: Key(priority, seed)(pZ) <= Key(priority, seed)(y)
    ensures var r := SkipFrom(priority, seed, p0, pZ, p);
            forall y: nat | y < |priority| && Compare(priority, seed, y, p0) > 0 :: Key(priority, seed)(r) <= Key(priority, seed)(y)
    decreases |priority| - p
  {
    hide Key, Fit, Compare;
    if p < |priority| {
      if Compare(priority, seed, p, p0) > 0 { LargerCompare(priority, seed, p0, p, pZ); }
      if Compare(priority, seed, p, p0) > 0 && Compare(priority, seed, p, pZ) < 0 {
        SkipFinds(priority, seed, p0, p, p + 1);
      } else {
        SkipFinds(priority, seed, p0, pZ, p + 1);
      }
    }
  }

  /** The least hint above `p0` does count as larger. */
  lemma NextCounts(priority: seq<nat>, seed: bv32, p0: nat, y: nat)
    requires Zone(priority) && Fit(priority, seed) && p0 < |priority| && y < |priority|
    requires Key(priority, seed)(y) > Key(priority, seed)(p0)
    requires forall z: nat | z < |priority| && Key(priority, seed)(z) > Key(priority, seed)(p0) :: Key(priority, seed)(y) <= Key(priority, seed)(z)
    ensures Compare(priority, seed, y, p0) > 0
  {
    hide Key, Compare, LeastBehind;
    ComparesAs(priority, seed, y, p0);
    ComparesAs(priority, seed, p0, y);
    FitPair(priority, seed, y, p0);
    if Apart(priority, y, p0) == HALF {
      var m :| 0 <= m < |priority| && priority[p0] < priority[m] < priority[y];
      ComparesAs(priority, seed, p0, m);
      ComparesAs(priority, seed, m, y);
    }
  }

  function UpTo(n: nat): (s: seq<nat>)
    ensures |s| == n && forall i :: 0 <= i < n ==> s[i] == i
  {
    seq(n, (i: nat) => i)
  }

  function Found(priority: seq<nat>, p: nat): Option<nat> { if p < |priority| then Some(p) else None }

  lemma FirstIsNext(priority: seq<nat>, seed: bv32)
    requires Zone(priority) && Fit(priority, seed)
    ensures IsNext(UpTo(|priority|), Key(priority, seed), -1, Found(priority, First(priority, seed)))
  {
    hide Key, Fit, Compare, First;
    if priority != [] {
      FirstIsLeast(priority, seed);
      var f := First(priority, seed);
      ComparesAs(priority, seed, f, f);
      assert UpTo(|priority|)[f] == f;
    }
  }

  lemma NextIsNext(priority: seq<nat>, seed: bv32, p0: nat)
    requires Zone(priority) && Fit(priority, seed) && p0 < |priority|
    ensures IsNext(UpTo(|priority|), Key(priority, seed), Key(priority, seed)(p0), Found(priority, Next(priority, seed, p0)))
  {
    hide Key, Fit, Compare;
    var r, z, key, n := Next(priority, seed, p0), LargerFrom(priority, seed, p0, 0), Key(priority, seed), |priority|;
    if z < n {
      SkipFinds(priority, seed, p0, z, z + 1);
      LargerCompare(priority, seed, p0, r, r);
      assert UpTo(n)[r] == r;
    }
    forall y | y in UpTo(n) && key(y) > key(p0) ensures r < n && key(r) <= key(y) {
      var l := LeastAbove(priority, seed, p0, y);
      NextCounts(priority, seed, p0, l);
    }
  }

  /** If some hint is above `p0`, there is a least one. */
  lemma LeastAbove(priority: seq<nat>, seed: bv32, p0: nat, y: nat) returns (l: nat)
    requires y < |priority| && Key(priority, seed)(y) > Key(priority, seed)(p0)
    ensures l < |priority| && Key(priority, seed)(p0) < Key(priority, seed)(l) <= Key(priority, seed)(y)
    ensures forall z: nat | z < |priority| && Key(priority, seed)(z) > Key(priority, seed)(p0) :: Key(priority, seed)(l) <= Key(priority, seed)(z)
  {
    hide Key;
    l := y;
    for x := 0 to |priority|
      invariant l < |priority| && Key(priority, seed)(p0) < Key(priority, seed)(l) <= Key(priority, seed)(y)
      invariant forall z: nat | z < x && Key(priority, seed)(z) > Key(priority, seed)(p0) :: Key(priority, seed)(l) <= Key(priority, seed)(z)
    {
      if Key(priority, seed)(p0) < Key(priority, seed)(x) < Key(priority, seed)(l) { l := x; }
    }
  }

  /** The state after `k` hints is the next step of the enumeration. */
  ghost predicate OnTheWay(priority: seq<nat>, seed: bv32, k: nat)
    requires Zone(priority)
  {
    var s, key, e := UpTo(|priority|), Key(priority, seed), Handed(priority, seed, k);
    && Steps(s, key, e)
    && IsNext(s, key, Enumeration.Below(key, e, k), Found(priority, Nth(priority, seed, k)))
  }

  lemma NoneHanded(priority: seq<nat>, seed: bv32)
    requires Zone(priority) && Fit(priority, seed)
    ensures OnTheWay(priority, seed, 0)
  {
    hide Key, Fit, First, IsNext;
    FirstIsNext(priority, seed);
    assert Handed(priority, seed, 0) == [];
  }

  lemma OneMoreHanded(priority: seq<nat>, seed: bv32, k: nat)
    requires Zone(priority) && Fit(priority, seed) && OnTheWay(priority, seed, k) && Nth(priority, seed, k) < |priority|
    ensures OnTheWay(priority, seed, k + 1)
  {
    hide Key, Fit, First, Next, Nth, Handed, IsNext, Steps, Zone, UpTo;
    var s, key, p := UpTo(|priority|), Key(priority, seed), Nth(priority, seed, k);
    HandedMore(priority, seed, k);
    StepsSnoc(s, key, Handed(priority, seed, k), p);
    NextIsNext(priority, seed, p);
  }

  /** As long as the iteration goes on, its hints are steps of the enumeration. */
  lemma {:induction false} HandedSteps(priority: seq<nat>, seed: bv32, k: nat)
    requires Zone(priority) && Fit(priority, seed) && forall i: nat | i < k :: Nth(priority, seed, i) < |priority|
    ensures OnTheWay(priority, seed, k)
  {
    hide Fit, Nth, Zone, OnTheWay;
    if k == 0 {
      NoneHanded(priority, seed);
    } else {
      HandedSteps(priority, seed, k - 1);
      OneMoreHanded(priority, seed, k - 1);
    }
  }

  lemma HandedMore(priority: seq<nat>, seed: bv32, k: nat)
    requires Zone(priority)
    ensures Handed(priority, seed, k + 1) == Handed(priority, seed, k) + [Nth(priority, seed, k)]
    ensures Nth(priority, seed, k) < |priority| ==> Nth(priority, seed, k + 1) == Next(priority, seed, Nth(priority, seed, k))
  {
    hide Nth, Next, First;
    NthNext(priority, seed, k);
  }

  lemma NthNext(priority: seq<nat>, seed: bv32, k: nat)
    requires Zone(priority)
    ensures Nth(priority, seed, k) < |priority| ==> Nth(priority, seed, k + 1) == Next(priority, seed, Nth(priority, seed, k))
  {
    hide Next, First;
  }

  /** Where the iteration has stopped, all hints have been handed out once and in order. */
  lemma AllHanded(priority: seq<nat>, seed: bv32, k: nat)
    requires Zone(priority) && Fit(priority, seed) && Nth(priority, seed, k) == |priority|
    requires forall i: nat | i < k :: Nth(priority, seed, i) < |priority|
    ensures k == |priority|
    ensures var key, e := Key(priority, seed), Handed(priority, seed, k);
            && (forall i, j :: 0 <= i < j < k ==> key(e[i]) < key(e[j]))
            && (forall x: nat :: x < |priority| <==> x in e)
  {
    hide Key, Fit, IsNext, Steps, First, Next;
    var s, key, e := UpTo(|priority|), Key(priority, seed), Handed(priority, seed, k);
    HandedSteps(priority, seed, k);
    forall x, y | x in s && y in s ensures key(x) >= 0 && (key(x) == key(y) ==> x == y) { ComparesAs(priority, seed, x, y); }
    Complete(s, key, e);
    forall x: nat ensures x < |priority| <==> x in e { if x < |priority| { assert s[x] == x; } }
    Pigeonhole(s, e);
    Pigeonhole(e, s);
  }

  /** The iteration stops: it would run out of hints. */
  lemma Stops(priority: seq<nat>, seed: bv32) returns (k: nat)
    requires Zone(priority) && Fit(priority, seed)
    ensures Nth(priority, seed, k) == |priority| && forall i: nat | i < k :: Nth(priority, seed, i) < |priority|
  {
    hide Key, Fit, IsNext, Steps, First, Next;
    k := 0;
    while k <= |priority| && Nth(priority, seed, k) < |priority|
      invariant k <= |priority| + 1 && forall i: nat | i < k :: Nth(priority, seed, i) < |priority|
    {
      k := k + 1;
    }
    if k > |priority| {
      HandedSteps(priority, seed, k);
      var e := Handed(priority, seed, k);
      forall i, j | 0 <= i < j < |e| ensures e[i] != e[j] { StepsIncrease(UpTo(|priority|), Key(priority, seed), e, i, j); }
      DistinctWithin(e, Counting.Below(|priority|));
    }
  }

  lemma FitEnumerates(priority: seq<nat>, seed: bv32)
    requires Zone(priority) && Fit(priority, seed)
    ensures Enumerates(priority, seed)
  {
    hide Key, Fit, First, Next;
    var k := Stops(priority, seed);
    AllHanded(priority, seed, k);
  }

  // ----- Only those are --------------------------------------------------------------------------------

  /** Every hint has its place in a right enumeration. */
  lemma PlaceOf(priority: seq<nat>, seed: bv32, x: nat) returns (i: nat)
    requires Zone(priority) && Enumerates(priority, seed) && x < |priority|
    ensures i < |priority| && Nth(priority, seed, i) == x
  {
    hide Key, First, Next, Nth;
    var e := Handed(priority, seed, |priority|);
    AllBelow(e, |priority|, x);
    i :| 0 <= i < |priority| && e[i] == x;
  }

  /** The last hint has the largest key, and none counts as larger. */
  lemma NoneTooFar(priority: seq<nat>, seed: bv32, i: nat, j: nat)
    requires Zone(priority) && Enumerates(priority, seed) && i < |priority| && j < |priority|
    ensures Apart(priority, i, j) <= HALF
  {
    hide Key, Compare, First, Next;
    var n := |priority|;
    var last := Nth(priority, seed, n - 1);
    var a := PlaceOf(priority, seed, i);
    var e := Handed(priority, seed, n);
    assert e[n - 1] == last && e[a] == i;
    ComparesAs(priority, seed, j, last);
    ComparesAs(priority, seed, last, i);
    NextStops(priority, seed, last, j);
  }

  lemma NextStops(priority: seq<nat>, seed: bv32, p0: nat, y: nat)
    requires Zone(priority) && p0 < |priority| && y < |priority| && Next(priority, seed, p0) == |priority|
    ensures Compare(priority, seed, y, p0) <= 0
  {
  }

  lemma NextCountsLarger(priority: seq<nat>, seed: bv32, p0: nat)
    requires Zone(priority) && p0 < |priority| && Next(priority, seed, p0) < |priority|
    ensures Compare(priority, seed, Next(priority, seed, p0), p0) > 0
  {
  }

  /** Without a priority between them, the step from the lower to the upper half is never taken. */
  lemma {:induction false} NoStepAcross(priority: seq<nat>, seed: bv32, lo: nat, a: nat, b: nat)
    requires Zone(priority) && Enumerates(priority, seed) && a <= b < |priority|
    requires forall x: nat | x < |priority| :: priority[x] == lo || priority[x] == lo + HALF
    requires Nth(priority, seed, a) < |priority| && priority[Nth(priority, seed, a)] == lo
    ensures Nth(priority, seed, b) < |priority| && priority[Nth(priority, seed, b)] == lo
    decreases b
  {
    hide Key, Compare, First, Next;
    if a < b {
      NoStepAcross(priority, seed, lo, a, b - 1);
      var p, q := Nth(priority, seed, b - 1), Nth(priority, seed, b);
      assert Handed(priority, seed, |priority|)[b] == q;
      NextCountsLarger(priority, seed, p);
      ComparesAs(priority, seed, q, p);
    }
  }

  lemma SomeBetween(priority: seq<nat>, seed: bv32, i: nat, j: nat)
    requires Zone(priority) && Enumerates(priority, seed) && i < |priority| && j < |priority|
    requires Apart(priority, i, j) == HALF
    ensures Between(priority, priority[j], priority[i])
  {
    hide Key, Compare, First, Next, Enumerates;
    if !Between(priority, priority[j], priority[i]) {
      forall x: nat | x < |priority| ensures priority[x] == priority[j] || priority[x] == priority[j] + HALF {
        NoneTooFar(priority, seed, i, x);
        NoneTooFar(priority, seed, x, j);
      }
      var a := PlaceOf(priority, seed, j);
      var b := PlaceOf(priority, seed, i);
      InOrder(priority, seed, a, b);
      NoStepAcross(priority, seed, priority[j], a, b);
    }
  }

  lemma InOrder(priority: seq<nat>, seed: bv32, a: nat, b: nat)
    requires Zone(priority) && Enumerates(priority, seed) && a < |priority| && b < |priority|
    requires Nth(priority, seed, a) < |priority| && Nth(priority, seed, b) < |priority|
    requires priority[Nth(priority, seed, a)] < priority[Nth(priority, seed, b)]
    ensures a < b
  {
    hide Key, Compare, First, Next;
    var e := Handed(priority, seed, |priority|);
    ComparesAs(priority, seed, e[a], e[b]);
  }

  /** Whatever stands behind the hint that the start loop returns does not count as smaller. */
  lemma {:induction false} StartKeeps(priority: seq<nat>, seed: bv32, p0: nat, p: nat, q: nat)
    requires Zone(priority) && p0 < p <= q < |priority| && StartFrom(priority, seed, p0, p) < q
    ensures Compare(priority, seed, q, StartFrom(priority, seed, p0, p)) >= 0
    decreases |priority| - p
  {
    hide Compare;
    var p0' := if Compare(priority, seed, p, p0) < 0 then p else p0;
    if p < q {
      StartKeeps(priority, seed, p0', p + 1, q);
    } else if p0' == p0 {
      StartKeepsBest(priority, seed, p0, p + 1);
    } else {
      StartGrows(priority, seed, p, p + 1);
    }
  }

  /** The start loop returns the best so far or something further on. */
  lemma {:induction false} StartGrows(priority: seq<nat>, seed: bv32, p0: nat, p: nat)
    requires Zone(priority) && p0 < p <= |priority|
    ensures StartFrom(priority, seed, p0, p) == p0 || StartFrom(priority, seed, p0, p) >= p
    decreases |priority| - p
  {
    hide Compare;
    if p < |priority| { StartGrows(priority, seed, if Compare(priority, seed, p, p0) < 0 then p else p0, p + 1); }
  }

  lemma StartKeepsBest(priority: seq<nat>, seed: bv32, p0: nat, p: nat)
    requires Zone(priority) && p0 < p <= |priority| && StartFrom(priority, seed, p0, p) < p
    ensures StartFrom(priority, seed, p0, p) == p0
  {
    StartGrows(priority, seed, p0, p);
  }

  lemma SomeLeastBehind(priority: seq<nat>, seed: bv32, i: nat, j: nat)
    requires Zone(priority) && Enumerates(priority, seed) && i < |priority| && j < |priority|
    requires Apart(priority, i, j) == HALF
    ensures LeastBehind(priority, seed, i)
  {
    hide Key, Compare, Next;
    var f, e := First(priority, seed), Handed(priority, seed, |priority|);
    assert e[0] == f;
    forall x: nat | x < |priority| ensures Key(priority, seed)(f) <= Key(priority, seed)(x) {
      var a := PlaceOf(priority, seed, x);
      assert e[a] == x;
    }
    assert Least(priority, seed, f);
    NoneTooFar(priority, seed, i, f);
    ComparesAs(priority, seed, j, f);
    ComparesAs(priority, seed, i, f);
    if f < i { StartKeeps(priority, seed, 0, 1, i); }
  }

  /** Calling the iterator again and again hands out every hint once, in the order of priority and
      shuffle, and then stops, exactly for fit priorities. */
  lemma EnumeratesIffFit(priority: seq<nat>, seed: bv32)
    requires Zone(priority)
    ensures Enumerates(priority, seed) <==> Fit(priority, seed)
  {
    hide Enumerates, Between, LeastBehind;
    if Fit(priority, seed) {
      FitEnumerates(priority, seed);
    } else if Enumerates(priority, seed) {
      forall i: nat, j: nat | i < |priority| && j < |priority|
        ensures Apart(priority, i, j) <= HALF
        ensures Apart(priority, i, j) == HALF ==> Between(priority, priority[j], priority[i]) && LeastBehind(priority, seed, i)
      {
        NoneTooFar(priority, seed, i, j);
        if Apart(priority, i, j) == HALF {
          SomeBetween(priority, seed, i, j);
          SomeLeastBehind(priority, seed, i, j);
        }
      }
    }
  }

  /** Two priorities half the range apart: each of the two hints counts as the smaller, so the
      iteration starts at the second and ends there. */
  lemma FarApartIsWrong(seed: bv32)
    ensures var priority := [1, 1 + HALF as nat];
            && Zone(priority) && !Close(priority)
            && Compare(priority, seed, 1, 0) < 0 && Compare(priority, seed, 0, 1) < 0
            && Nth(priority, seed, 0) == 1 && Nth(priority, seed, 1) == 2
            && !Enumerates(priority, seed)
  {
    hide Shuffle16;
    var priority := [1, 1 + HALF as nat];
    assert Apart(priority, 1, 0) == HALF;
    assert Difference(priority[1], priority[0]) == -HALF == Difference(priority[0], priority[1]);
    assert Difference(priority[1], priority[1]) == 0;
    assert StartFrom(priority, seed, 0, 1) == StartFrom(priority, seed, 1, 2) == 1;
    assert LargerFrom(priority, seed, 1, 0) == LargerFrom(priority, seed, 1, 1) == LargerFrom(priority, seed, 1, 2) == 2;
    assert Handed(priority, seed, 2)[1] == 2;
  }

  // ----- The iterator ------------------------------------------------------------------------------

  class HintIterator {
    const priority: seq<nat>
    const seed: bv32
    var next: nat
    /** The hints handed out so far. */
    ghost var given: seq<nat>

    ghost predicate Valid()
      reads this
    {
      && Zone(priority)
      && given == Handed(priority, seed, |given|) && next == Nth(priority, seed, |given|)
      && forall i: nat | i < |given| :: Nth(priority, seed, i) < |priority|
    }

    /** `dns_hints_i_init`. */
    constructor (priority: seq<nat>, seed: bv32)
      requires Zone(priority)
      ensures Valid() && given == [] && this.priority == priority && this.seed == seed
    {
      this.priority, this.seed, given := priority, seed, [];
      var p0 := HintIterator.Start(priority, seed);
      next := p0;
    }

    /** `dns_hints_i_start`: the least hint, for fit priorities. */
    static method Start(priority: seq<nat>, seed: bv32) returns (p0: nat)
      requires Zone(priority)
      ensures p0 == First(priority, seed)
      ensures Fit(priority, seed) ==> IsNext(UpTo(|priority|), Key(priority, seed), -1, Found(priority, p0))
    {
      hide Compare, Key, IsNext, Fit;
      p0 := 0;
      if Fit(priority, seed) { FirstIsNext(priority, seed); }
      if |priority| == 0 { return; }
      for p := 1 to |priority|
        invariant p0 < p && StartFrom(priority, seed, p0, p) == First(priority, seed)
      {
        if Compare(priority, seed, p, p0) < 0 { p0 := p; }
      }
    }

    /** `dns_hints_i_skip`: the least larger hint, for fit priorities. */
    method Skip(p0: nat) returns (pZ: nat)
      requires Zone(priority) && p0 < |priority|
      ensures pZ == Next(priority, seed, p0)
      ensures Fit(priority, seed) ==> IsNext(UpTo(|priority|), Key(priority, seed), Key(priority, seed)(p0), Found(priority, pZ))
    {
      hide Compare, Key, IsNext, Fit;
      if Fit(priority, seed) { NextIsNext(priority, seed, p0); }
      pZ := 0;
      while pZ < |priority|
        invariant pZ <= |priority| && LargerFrom(priority, seed, p0, pZ) == LargerFrom(priority, seed, p0, 0)
      {
        if Compare(priority, seed, pZ, p0) > 0 { break; }
        pZ := pZ + 1;
      }
      if pZ == |priority| { return; }
      for p := pZ + 1 to |priority|
        invariant pZ < |priority| && Compare(priority, seed, pZ, p0) > 0
        invariant SkipFrom(priority, seed, p0, pZ, p) == Next(priority, seed, p0)
      {
        if Compare(priority, seed, p, p0) <= 0 { continue; }
        if Compare(priority, seed, p, pZ) >= 0 { continue; }
        pZ := p;
      }
    }

    /** One turn of the loop of `dns_hints_grep`. */
    method HandOne() returns (a: nat)
      requires Valid() && next < |priority|
      modifies this
      ensures Valid() && a == old(next) && given == old(given) + [a]
    {
      hide Fit, First, Next, Key, Nth, Handed;
      HandedMore(priority, seed, |given|);
      a := next;
      given := given + [a];
      next := Skip(a);
    }

    lemma NoneLeft()
      requires Valid()
      ensures next <= |priority|
    {
    }

    /** `dns_hints_grep`: the next hints of the iteration, at most `lim`; fewer only at its end.
        For fit priorities all hints have then been handed out, each once, in the order of
        priority and shuffle. */
    method Grep(lim: nat) returns (sa: seq<nat>)
      requires Valid()
      modifies this
      ensures Valid() && |sa| <= lim && given == old(given) + sa
      ensures |sa| < lim ==> next == |priority|
      ensures |sa| < lim && Fit(priority, seed) ==> Done()
    {
      hide Zone, Fit, First, Next, Key, Nth, Handed;
      sa := [];
      while next < |priority| && |sa| < lim
        invariant Valid() && |sa| <= lim && given == old(given) + sa
        decreases lim - |sa|
      {
        var a := HandOne();
        sa := sa + [a];
      }
      NoneLeft();
      if |sa| < lim && Fit(priority, seed) { AllGiven(); }
    }

    /** Every hint has been handed out once, and in order. */
    ghost predicate Done()
      reads this
    {
      && (forall i, j :: 0 <= i < j < |given| ==> Key(priority, seed)(given[i]) < Key(priority, seed)(given[j]))
      && (forall p: nat :: p < |priority| <==> p in given)
      && (forall i, j :: 0 <= i < j < |given| ==> given[i] != given[j])
    }

    lemma AllGiven()
      requires Valid() && next >= |priority| && Fit(priority, seed)
      ensures Done()
    {
      hide Fit, First, Next, Key;
      AllHanded(priority, seed, |given|);
      var key := Key(priority, seed);
      forall i, j | 0 <= i < j < |given| ensures given[i] != given[j] { assert key(given[i]) < key(given[j]); }
    }
  }
}
