/** The query-id permutation of the resolver (libs/async/src/dns/dns.c:441-543): a balanced
    Feistel network over twice `shift` bits, walked by a 32-bit step counter, with the values
    outside the range skipped.  The round function (TEA in the source) is arbitrary. */
module Permutor {
  import opened Counting
  import opened Modular

  const WORD: nat := 0x1_0000_0000
  const ROUNDS: nat := 8

  type RoundFunction = (nat, nat) -> nat

  // ----- Exclusive or ---------------------------------------------------------------

  function Xor(a: nat, b: nat): nat {
    if a == 0 && b == 0 then 0
    else 2 * Xor(a / 2, b / 2) + (if a % 2 == b % 2 then 0 else 1)
  }

  function Bit(a: nat, i: nat): nat { if i == 0 then a % 2 else Bit(a / 2, i - 1) }

  /** A bit of the result is set exactly if the two numbers differ in it. */
  lemma {:induction false} XorBits(a: nat, b: nat, i: nat)
    ensures Bit(Xor(a, b), i) == if Bit(a, i) != Bit(b, i) then 1 else 0
    decreases i
  {
    if i > 0 {
      XorBits(a / 2, b / 2, i - 1);
      assert Xor(a, b) / 2 == Xor(a / 2, b / 2);
    }
  }

  lemma {:induction false} XorCancels(a: nat, b: nat)
    ensures Xor(Xor(a, b), b) == a
    decreases a + b
  {
    if a != 0 || b != 0 {
      XorCancels(a / 2, b / 2);
      var x := Xor(a, b);
      assert x / 2 == Xor(a / 2, b / 2);
      if x == 0 && b == 0 { assert a % 2 == 0; }
    }
  }

  lemma {:induction false} XorBound(a: nat, b: nat, k: nat)
    requires a < Pow2(k) && b < Pow2(k)
    ensures Xor(a, b) < Pow2(k)
    decreases k
  {
    if k > 0 { XorBound(a / 2, b / 2, k - 1); }
  }

  // ----- The network ------------------------------------------------------------------

  /** The parameters that `dns_k_permutor_init` fixes: half the width in bits, the length of
      the range, and its upper end. */
  datatype Params = Params(f: RoundFunction, shift: nat, length: nat, limit: nat)

  /** A range of 1 to 2^31 values, and a domain of an even number of bits that covers it. */
  predicate Good(p: Params) {
    && 1 <= p.length <= 0x8000_0000
    && p.length <= p.limit + 1 <= WORD
    && p.shift <= 16
    && p.length <= Size(p)
  }

  function HalfSize(p: Params): nat { Pow2(p.shift) }

  /** The number of values that the network permutes. */
  function Size(p: Params): nat { Pow2(p.shift + p.shift) }

  lemma SizeIsSquare(p: Params)
    ensures Size(p) == HalfSize(p) * HalfSize(p)
  {
    Pow2Add(p.shift, p.shift);
  }

  /** `dns_k_permutor_F`: the round function masked to half the width. */
  function F(p: Params, k: nat, x: nat): nat { p.f(k, x) % HalfSize(p) }

  /** The halves after `k` rounds. */
  function Forward(p: Params, k: nat, l: nat, r: nat): (nat, nat) {
    if k == 0 then (l, r)
    else
      var (a, b) := Forward(p, k - 1, l, r);
      (b, Xor(a, F(p, k - 1, b)))
  }

  /** `k` rounds undone. */
  function Backward(p: Params, k: nat, l: nat, r: nat): (nat, nat) {
    if k == 0 then (l, r) else Backward(p, k - 1, Xor(r, F(p, k - 1, l)), l)
  }

  function High(p: Params, n: nat): nat { n / HalfSize(p) % HalfSize(p) }

  function Low(p: Params, n: nat): nat { n % HalfSize(p) }

  function Join(p: Params, h: (nat, nat)): nat { h.0 * HalfSize(p) + h.1 }

  function Encrypt(p: Params, n: nat): nat { Join(p, Forward(p, ROUNDS - 1, High(p, n), Low(p, n))) }

  function Decrypt(p: Params, n: nat): nat { Join(p, Backward(p, ROUNDS - 1, High(p, n), Low(p, n))) }

  lemma {:induction false} ForwardBound(p: Params, k: nat, l: nat, r: nat)
    requires l < HalfSize(p) && r < HalfSize(p)
    ensures Forward(p, k, l, r).0 < HalfSize(p) && Forward(p, k, l, r).1 < HalfSize(p)
  {
    if k > 0 {
      ForwardBound(p, k - 1, l, r);
      var (a, b) := Forward(p, k - 1, l, r);
      XorBound(a, F(p, k - 1, b), p.shift);
    }
  }

  lemma {:induction false} BackwardBound(p: Params, k: nat, l: nat, r: nat)
    requires l < HalfSize(p) && r < HalfSize(p)
    ensures Backward(p, k, l, r).0 < HalfSize(p) && Backward(p, k, l, r).1 < HalfSize(p)
    decreases k
  {
    if k > 0 {
      XorBound(r, F(p, k - 1, l), p.shift);
      BackwardBound(p, k - 1, Xor(r, F(p, k - 1, l)), l);
    }
  }

  lemma BackwardStep(p: Params, k: nat, l: nat, r: nat)
    ensures Backward(p, k + 1, l, r) == Backward(p, k, Xor(r, F(p, k, l)), l)
  {
  }

  lemma {:induction false} BackwardUndoesForward(p: Params, k: nat, l: nat, r: nat)
    ensures Backward(p, k, Forward(p, k, l, r).0, Forward(p, k, l, r).1) == (l, r)
  {
    if k > 0 {
      var (a, b) := Forward(p, k - 1, l, r);
      XorCancels(a, F(p, k - 1, b));
      BackwardUndoesForward(p, k - 1, l, r);
    }
  }

  lemma {:induction false} ForwardUndoesBackward(p: Params, k: nat, l: nat, r: nat)
    ensures Forward(p, k, Backward(p, k, l, r).0, Backward(p, k, l, r).1) == (l, r)
    decreases k
  {
    if k > 0 {
      ForwardUndoesBackward(p, k - 1, Xor(r, F(p, k - 1, l)), l);
      XorCancels(r, F(p, k - 1, l));
    }
  }

  lemma JoinSplit(p: Params, a: nat, b: nat)
    requires a < HalfSize(p) && b < HalfSize(p)
    ensures Join(p, (a, b)) < Size(p) && High(p, Join(p, (a, b))) == a && Low(p, Join(p, (a, b))) == b
  {
    var h := HalfSize(p);
    SizeIsSquare(p);
    DivModUnique(a, b, h);
    JoinFits(a, b, h);
    SmallMod(a, h);
  }

  lemma SplitJoin(p: Params, n: nat)
    requires n < Size(p)
    ensures Join(p, (High(p, n), Low(p, n))) == n && High(p, n) < HalfSize(p) && Low(p, n) < HalfSize(p)
  {
    hide Pow2;
    var h := HalfSize(p);
    SizeIsSquare(p);
    SplitFits(n, h);
    SmallMod(n / h, h);
  }

  /** The network is a bijection of its domain, and `dns_k_permutor_D` is its inverse. */
  lemma DecryptInvertsEncrypt(p: Params, n: nat)
    requires n < Size(p)
    ensures Encrypt(p, n) < Size(p) && Decrypt(p, Encrypt(p, n)) == n
    ensures Decrypt(p, n) < Size(p) && Encrypt(p, Decrypt(p, n)) == n
  {
    var l, r := High(p, n), Low(p, n);
    SplitJoin(p, n);
    ForwardBound(p, ROUNDS - 1, l, r);
    var e := Forward(p, ROUNDS - 1, l, r);
    JoinSplit(p, e.0, e.1);
    BackwardUndoesForward(p, ROUNDS - 1, l, r);
    BackwardBound(p, ROUNDS - 1, l, r);
    var d := Backward(p, ROUNDS - 1, l, r);
    JoinSplit(p, d.0, d.1);
    ForwardUndoesBackward(p, ROUNDS - 1, l, r);
  }

  /** Only the low bits of the step counter matter. */
  lemma EncryptPeriodic(p: Params, n: nat, m: nat)
    requires n % Size(p) == m % Size(p)
    ensures Encrypt(p, n) == Encrypt(p, m)
  {
    SplitPeriodic(p, n);
    SplitPeriodic(p, m);
  }

  lemma SplitPeriodic(p: Params, n: nat)
    ensures High(p, n % Size(p)) == High(p, n) && Low(p, n % Size(p)) == Low(p, n)
  {
    var h := HalfSize(p);
    SizeIsSquare(p);
    SplitReduced(n, h, Size(p));
    SmallMod(n / h % h, h);
  }

  // ----- The walk ------------------------------------------------------------------------

  /** Distance from step `s` to a step that yields 0, which is always inside the range. */
  function Gap(p: Params, s: nat): nat { (Decrypt(p, 0) - s) % Size(p) }

  lemma GapClosed(p: Params, s: nat)
    requires Gap(p, s) == 0
    ensures Encrypt(p, s) == 0
  {
    DecryptInvertsEncrypt(p, 0);
    var d, n := Decrypt(p, 0), Size(p);
    SameResidue(d, s, n);
    EncryptPeriodic(p, s, d);
  }

  /** The first step from `s` on whose value is inside the range. */
  function NextHit(p: Params, s: nat): (t: nat)
    requires Good(p)
    ensures s <= t && Encrypt(p, t) < p.length
    decreases Gap(p, s)
  {
    if Encrypt(p, s) < p.length then s
    else
      assert Gap(p, s + 1) < Gap(p, s) by { GapShrinks(p, s); }
      NextHit(p, s + 1)
  }

  lemma GapShrinks(p: Params, s: nat)
    requires Good(p) && Encrypt(p, s) >= p.length
    ensures Gap(p, s + 1) == Gap(p, s) - 1
  {
    if Gap(p, s) == 0 { GapClosed(p, s); }
    GapCounts(Decrypt(p, 0) - s, Size(p));
  }

  lemma NextHitUnfolds(p: Params, s: nat)
    requires Good(p)
    ensures NextHit(p, s) == if Encrypt(p, s) < p.length then s else NextHit(p, s + 1)
  {
    hide Encrypt;
  }

  lemma {:induction false} NothingSkipped(p: Params, s: nat, t: nat)
    requires Good(p) && s <= t < NextHit(p, s)
    ensures Encrypt(p, t) >= p.length
    decreases t - s
  {
    if s < t {
      NothingSkipped(p, s + 1, t);
    }
  }

  /** What one call of `dns_k_permutor_step` yields: the value, and the new step counter. */
  function Draw(p: Params, stepi: nat): (nat, nat)
    requires Good(p)
  {
    var t := NextHit(p, stepi);
    (Encrypt(p, t) + (p.limit + 1 - p.length), (t + 1) % WORD)
  }

  /** The results of `m` calls in a row. */
  function Draws(p: Params, stepi: nat, m: nat): (r: seq<nat>)
    requires Good(p)
    ensures |r| == m
    decreases m
  {
    if m == 0 then [] else [Draw(p, stepi).0] + Draws(p, Draw(p, stepi).1, m - 1)
  }

  // The same walk with a step counter that never wraps.

  function HitAt(p: Params, s: nat, k: nat): (t: nat)
    requires Good(p)
    ensures s <= t && Encrypt(p, t) < p.length
  {
    if k == 0 then NextHit(p, s) else NextHit(p, HitAt(p, s, k - 1) + 1)
  }

  lemma {:induction false} HitsIncrease(p: Params, s: nat, i: nat, j: nat)
    requires Good(p) && i < j
    ensures HitAt(p, s, i) < HitAt(p, s, j)
    decreases j
  {
    if i < j - 1 { HitsIncrease(p, s, i, j - 1); }
  }

  /** Every step inside the range up to the k-th hit is one of the hits before it. */
  lemma {:induction false} HitsAreAll(p: Params, s: nat, k: nat, t: nat) returns (i: nat)
    requires Good(p) && s <= t <= HitAt(p, s, k) && Encrypt(p, t) < p.length
    ensures i <= k && HitAt(p, s, i) == t
  {
    i := k;
    if t < HitAt(p, s, k) {
      if k == 0 {
        NothingSkipped(p, s, t);
      } else if t <= HitAt(p, s, k - 1) {
        i := HitsAreAll(p, s, k - 1, t);
      } else {
        NothingSkipped(p, HitAt(p, s, k - 1) + 1, t);
      }
    }
  }

  lemma {:induction false} HitTail(p: Params, s: nat, k: nat)
    requires Good(p)
    ensures HitAt(p, s, k + 1) == HitAt(p, HitAt(p, s, 0) + 1, k)
  {
    hide Encrypt, NextHit;
    if k > 0 { HitTail(p, s, k - 1); }
  }

  // ----- The 32-bit wrap of the step counter -------------------------------------------------

  lemma WordIsPower()
    ensures Pow2(16) == 0x1_0000 && Pow2(31) == 0x8000_0000 && Pow2(32) == WORD
  {
    assert Pow2(8) == 256;
    Pow2Add(8, 8);
    Pow2Add(16, 16);
    assert Pow2(32) == 2 * Pow2(31);
  }

  lemma SizeDividesWord(p: Params) returns (k: nat)
    requires p.shift <= 16
    ensures k * Size(p) == WORD
  {
    k := Pow2(32 - (p.shift + p.shift));
    Pow2Add(32 - (p.shift + p.shift), p.shift + p.shift);
    WordIsPower();
  }

  lemma EncryptWraps(p: Params, a: nat, b: nat)
    requires Good(p) && a % WORD == b % WORD
    ensures Encrypt(p, a) == Encrypt(p, b) && Gap(p, a) == Gap(p, b)
  {
    var k := SizeDividesWord(p);
    WrapResidue(a, Size(p), k, WORD);
    WrapResidue(b, Size(p), k, WORD);
    EncryptPeriodic(p, a, b);
    var d := Decrypt(p, 0);
    GapResidue(d, a, b, Size(p));
  }

  lemma WrapNext(a: nat, b: nat)
    requires a % WORD == b % WORD
    ensures (a + 1) % WORD == (b + 1) % WORD
  {
  }

  lemma {:induction false} NextHitWraps(p: Params, a: nat, b: nat)
    requires Good(p) && a % WORD == b % WORD
    ensures NextHit(p, a) % WORD == NextHit(p, b) % WORD
    decreases Gap(p, a)
  {
    hide Encrypt, Gap, NextHit, Good;
    EncryptWraps(p, a, b);
    NextHitUnfolds(p, a);
    NextHitUnfolds(p, b);
    if Encrypt(p, a) >= p.length {
      GapShrinks(p, a);
      WrapNext(a, b);
      NextHitWraps(p, a + 1, b + 1);
    }
  }

  lemma {:induction false} HitsWrap(p: Params, a: nat, b: nat, k: nat)
    requires Good(p) && a % WORD == b % WORD
    ensures HitAt(p, a, k) % WORD == HitAt(p, b, k) % WORD
  {
    hide Encrypt, NextHit;
    if k == 0 {
      NextHitWraps(p, a, b);
    } else {
      HitsWrap(p, a, b, k - 1);
      var x, y := HitAt(p, a, k - 1), HitAt(p, b, k - 1);
      WrapNext(x, y);
      NextHitWraps(p, x + 1, y + 1);
    }
  }

  lemma YieldWraps(p: Params, t: nat, k: nat)
    requires Good(p)
    ensures Encrypt(p, HitAt(p, t % WORD, k)) == Encrypt(p, HitAt(p, t, k))
  {
    HitsWrap(p, t % WORD, t, k);
    EncryptWraps(p, HitAt(p, t % WORD, k), HitAt(p, t, k));
  }

  lemma YieldTail(p: Params, s: nat, k: nat) returns (t: nat)
    requires Good(p) && 0 < k
    ensures t == Draw(p, s).1
    ensures Encrypt(p, HitAt(p, t, k - 1)) == Encrypt(p, HitAt(p, s, k))
  {
    hide Encrypt, NextHit;
    t := Draw(p, s).1;
    HitTail(p, s, k - 1);
    YieldWraps(p, HitAt(p, s, 0) + 1, k - 1);
  }

  lemma {:induction false} DrawsAreHits(p: Params, s: nat, m: nat, k: nat)
    requires Good(p) && k < m
    ensures Draws(p, s, m)[k] == Encrypt(p, HitAt(p, s, k)) + (p.limit + 1 - p.length)
    decreases m
  {
    hide Encrypt;
    if k > 0 {
      var t := YieldTail(p, s, k);
      DrawsAreHits(p, t, m - 1, k - 1);
    }
  }

  // ----- Every range value once in any `length` draws ------------------------------------------

  /** The step within `Size` of `s` that yields `v`. */
  function Slot(p: Params, s: nat, v: nat): (t: nat)
    ensures s <= t < s + Size(p)
  {
    s + (Decrypt(p, v) - s) % Size(p)
  }

  lemma SlotYields(p: Params, s: nat, v: nat)
    requires v < Size(p)
    ensures Encrypt(p, Slot(p, s, v)) == v
  {
    DecryptInvertsEncrypt(p, v);
    SlotResidue(Decrypt(p, v), s, Size(p));
    EncryptPeriodic(p, Slot(p, s, v), Decrypt(p, v));
  }

  /** The first `length` hits all lie within one period of the network. */
  lemma HitsInPeriod(p: Params, s: nat, k: nat)
    requires Good(p) && k < p.length
    ensures HitAt(p, s, k) < s + Size(p)
  {
    hide Encrypt, HitAt;
    if HitAt(p, s, k) >= s + Size(p) {
      var slots := seq(p.length, (v: nat) => Slot(p, s, v));
      var hits := seq(k, (i: nat) requires i < k => HitAt(p, s, i));
      forall v: nat | v < p.length ensures Encrypt(p, slots[v]) == v && slots[v] in hits {
        SlotYields(p, s, v);
        var i := HitsAreAll(p, s, k, Slot(p, s, v));
        assert hits[i] == slots[v];
      }
      Pigeonhole(slots, hits);
    }
  }

  lemma EncryptInjective(p: Params, a: nat, b: nat)
    requires Encrypt(p, a) == Encrypt(p, b)
    ensures a % Size(p) == b % Size(p)
  {
    var n := Size(p);
    SmallMod(a % n, n);
    SmallMod(b % n, n);
    EncryptPeriodic(p, a, a % n);
    EncryptPeriodic(p, b, b % n);
    DecryptInvertsEncrypt(p, a % n);
    DecryptInvertsEncrypt(p, b % n);
  }

  lemma HitsYieldApart(p: Params, s: nat, i: nat, j: nat)
    requires Good(p) && i < j < p.length
    ensures Encrypt(p, HitAt(p, s, i)) != Encrypt(p, HitAt(p, s, j))
  {
    HitsIncrease(p, s, i, j);
    HitsInPeriod(p, s, j);
    var a, b := HitAt(p, s, i), HitAt(p, s, j);
    PeriodApart(a, b, Size(p));
    if Encrypt(p, a) == Encrypt(p, b) { EncryptInjective(p, a, b); }
  }

  /** No value comes twice in any `length` consecutive results, from any counter value. */
  lemma DrawsDistinct(p: Params, s: nat)
    requires Good(p)
    ensures Distinct(Draws(p, s, p.length))
  {
    forall i, j | 0 <= i < j < p.length ensures Draws(p, s, p.length)[i] != Draws(p, s, p.length)[j] {
      DrawsAreHits(p, s, p.length, i);
      DrawsAreHits(p, s, p.length, j);
      HitsYieldApart(p, s, i, j);
    }
  }

  lemma DrawsInRange(p: Params, s: nat, m: nat, k: nat)
    requires Good(p) && k < m
    ensures p.limit + 1 - p.length <= Draws(p, s, m)[k] <= p.limit
  {
    DrawsAreHits(p, s, m, k);
  }

  /** Any `length` consecutive results are a permutation of the range low..high. */
  lemma DrawsCover(p: Params, s: nat, v: nat)
    requires Good(p)
    ensures v in Draws(p, s, p.length) <==> p.limit + 1 - p.length <= v <= p.limit
  {
    var low, d := p.limit + 1 - p.length, Draws(p, s, p.length);
    forall x | x in d ensures low <= x <= p.limit {
      var k :| 0 <= k < |d| && d[k] == x;
      DrawsInRange(p, s, p.length, k);
    }
    if low <= v <= p.limit && v !in d {
      DrawsDistinct(p, s);
      var range := seq(p.length, (i: nat) => low + i);
      forall x | x in d + [v] ensures x in range {
        assert range[x - low] == x;
      }
      Pigeonhole(d + [v], range);
    }
  }

  // ----- The generator ----------------------------------------------------------------------

  /** `dns_k_permutor_powof`: the bits that `n` values need.  The shifted word does not wrap
      for the ranges that the generator supports. */
  method PowOf(n: nat) returns (i: nat)
    requires 1 <= n <= 0x8000_0000
    ensures n <= Pow2(i) && i <= 31
    ensures i > 0 ==> Pow2(i - 1) < n
  {
    i := 0;
    var m := 1;
    WordIsPower();
    while m < n
      invariant i <= 31 && m == Pow2(i)
      invariant i > 0 ==> Pow2(i - 1) < n
      decreases 31 - i
    {
      m := m * 2 % WORD;
      i := i + 1;
    }
  }

  lemma WidthFits(i: nat, n: nat)
    requires 1 <= n <= Pow2(i) && i <= 31 && (i > 0 ==> Pow2(i - 1) < n)
    ensures var shift := (i + i % 2) / 2;
      shift <= 16 && n <= Pow2(shift + shift) < 4 * n
  {
    var shift := (i + i % 2) / 2;
    assert shift + shift == i + i % 2;
    if i % 2 == 1 { assert Pow2(i + 1) == 2 * Pow2(i); }
  }

  lemma CounterWraps(s: nat, counter: nat)
    requires counter == s % WORD
    ensures s % WORD == counter % WORD && (counter + 1) % WORD == (s + 1) % WORD < WORD
  {
  }

  lemma OffsetFits(n: nat, limit: nat, length: nat)
    requires n < length <= limit + 1 <= WORD
    ensures (n + (limit + 1 - length)) % WORD == n + (limit + 1 - length) <= limit
  {
  }

  class Permutor {
    var stepi: nat
    var length: nat
    var limit: nat
    var shift: nat
    var mask: nat
    var rounds: nat
    var f: RoundFunction

    function Parameters(): Params reads this { Params(f, shift, length, limit) }

    predicate Valid() reads this {
      Good(Parameters()) && mask + 1 == Pow2(shift) && rounds == ROUNDS && stepi < WORD
    }

    /** `dns_k_permutor_init` for the range low..high; at most three of four values of the
        domain lie outside the range. */
    constructor (low: nat, high: nat, f: RoundFunction)
      requires low <= high < WORD && high - low < 0x8000_0000
      ensures Valid() && stepi == 0 && rounds == 8 && this.f == f
      ensures limit == high && limit + 1 - length == low
      ensures Size(Parameters()) < 4 * length
    {
      hide Pow2;
      var n := high - low + 1;
      var i := PowOf(n);
      WidthFits(i, n);
      var width := i + i % 2;
      stepi, length, limit, rounds := 0, n, high, ROUNDS;
      shift := width / 2;
      mask := Pow2(width / 2) - 1;
      this.f := f;
    }

    /** `mask & x`: the mask is one less than a power of two. */
    function Masked(x: nat): (r: nat) reads this { x % (mask + 1) }

    /** `dns_k_permutor_F`. */
    method Round(k: nat, x: nat) returns (y: nat)
      requires Valid()
      ensures y == F(Parameters(), k, x)
    {
      y := Masked(f(k, x));
    }

    method Split(n: nat) returns (l: nat, r: nat)
      requires Valid()
      ensures l == High(Parameters(), n) && r == Low(Parameters(), n)
      ensures l < HalfSize(Parameters()) && r < HalfSize(Parameters())
    {
      hide Pow2, Good, Size;
      l := Masked(n / Pow2(shift));
      r := Masked(n);
    }

    method Merge(l: nat, r: nat) returns (n: nat)
      requires Valid() && l < HalfSize(Parameters()) && r < HalfSize(Parameters())
      ensures n == Join(Parameters(), (l, r))
    {
      SmallMod(l, mask + 1);
      SmallMod(r, mask + 1);
      n := Masked(l) * Pow2(shift) + Masked(r);
    }

    /** `dns_k_permutor_E` on two pairs of alternating cells. */
    method E(n: nat) returns (e: nat)
      requires Valid()
      ensures e == Encrypt(Parameters(), n)
    {
      hide Xor, Good, HalfSize, F, High, Low, Join;
      ghost var p := Parameters();
      var l, r := new nat[2], new nat[2];
      var i := 0;
      l[i], r[i] := Split(n);
      ForwardBound(p, ROUNDS - 1, High(p, n), Low(p, n));
      while true
        invariant 0 <= i < rounds - 1
        invariant Forward(p, i, High(p, n), Low(p, n)) == (l[i % 2], r[i % 2])
        decreases rounds - i
      {
        assert i % 2 != (i + 1) % 2;
        l[(i + 1) % 2] := r[i % 2];
        var y := Round(i, r[i % 2]);
        r[(i + 1) % 2] := Xor(l[i % 2], y);
        i := i + 1;
        if !(i < rounds - 1) { break; }
      }
      e := Merge(l[i % 2], r[i % 2]);
    }

    /** `dns_k_permutor_D`: the rounds from the last to the first. */
    method D(n: nat) returns (d: nat)
      requires Valid()
      ensures d == Decrypt(Parameters(), n)
    {
      hide Xor, Good, HalfSize, F, High, Low, Join;
      ghost var p := Parameters();
      var l, r := new nat[2], new nat[2];
      var i := rounds - 1;
      l[i % 2], r[i % 2] := Split(n);
      ghost var goal := Backward(p, ROUNDS - 1, High(p, n), Low(p, n));
      BackwardBound(p, ROUNDS - 1, High(p, n), Low(p, n));
      while true
        invariant 0 < i <= rounds - 1
        invariant Backward(p, i, l[i % 2], r[i % 2]) == goal
        decreases i
      {
        i := i - 1;
        assert i % 2 != (i + 1) % 2;
        BackwardStep(p, i, l[(i + 1) % 2], r[(i + 1) % 2]);
        r[i % 2] := l[(i + 1) % 2];
        var y := Round(i, l[(i + 1) % 2]);
        l[i % 2] := Xor(r[(i + 1) % 2], y);
        if !(i > 0) { break; }
      }
      d := Merge(l[i % 2], r[i % 2]);
    }

    /** `dns_k_permutor_step`: the loop ends, although the counter wraps at 32 bits. */
    method Step() returns (n: nat)
      requires Valid()
      modifies this`stepi
      ensures Valid() && (n, stepi) == Draw(Parameters(), old(stepi))
      ensures limit + 1 - length <= n <= limit
    {
      hide Encrypt, Gap, Pow2, Size, NextHit;
      ghost var p := Parameters();
      ghost var s: nat := stepi;
      n := E(stepi);
      stepi := (stepi + 1) % WORD;
      while n >= length
        invariant Valid() && Parameters() == p
        invariant stepi == (s + 1) % WORD && n == Encrypt(p, s)
        invariant NextHit(p, s) == NextHit(p, old(stepi))
        decreases Gap(p, s)
      {
        GapShrinks(p, s);
        NextHitUnfolds(p, s);
        CounterWraps(s + 1, stepi);
        EncryptWraps(p, s + 1, stepi);
        n := E(stepi);
        stepi := (stepi + 1) % WORD;
        s := s + 1;
      }
      NextHitUnfolds(p, s);
      OffsetFits(n, limit, length);
      n := (n + (limit + 1 - length)) % WORD;
    }
  }
}
