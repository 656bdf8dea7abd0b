/** Division with remainder, congruence and powers of two: the arithmetic behind the indices
    that the library wraps with masks. */
module Modular {
  function Pow2(n: nat): (r: nat)
    ensures r > 0
  {
    if n == 0 then 1 else 2 * Pow2(n - 1)
  }

  lemma DivModUnique(a: nat, b: nat, h: nat)
    requires b < h
    ensures (a * h + b) / h == a && (a * h + b) % h == b
  {
    var n := a * h + b;
    var q, m := n / h, n % h;
    Distribute(q, a, h);
    if q > a { MulMono(1, q - a, h); } else if q < a { MulMono(1, a - q, h); Distribute(a, q, h); }
  }

  lemma MulMono(a: int, b: int, h: nat)
    requires a <= b
    ensures a * h <= b * h
  {
  }

  lemma Distribute(a: int, b: int, h: int)
    ensures (a - b) * h == a * h - b * h
  {
  }

  lemma SmallMod(a: nat, h: nat)
    requires a < h
    ensures a % h == a && a / h == 0
  {
  }

  lemma JoinFits(a: nat, b: nat, h: nat)
    requires a < h && b < h
    ensures a * h + b < h * h
  {
    MulMono(a + 1, h, h);
    Distribute(a, -1, h);
  }

  lemma SplitFits(n: nat, h: nat)
    requires 0 < h && n < h * h
    ensures n / h < h && n / h * h + n % h == n
  {
    if n / h >= h { MulMono(h, n / h, h); }
  }

  lemma Regroup(q: int, c: int, b: int, h: int)
    ensures (q * h + c) * h + b == q * (h * h) + (c * h + b)
  {
    Distribute(q * h, -c, h);
    Associate(q, h, h);
  }

  lemma Associate(q: int, k: int, h: int)
    ensures q * k * h == q * (k * h)
  {
  }

  lemma Reduced(q: nat, c: nat, b: nat, h: nat, s: nat)
    requires c < h && b < h && s == h * h
    ensures (q * h + c) * h + b >= 0 && ((q * h + c) * h + b) % s == c * h + b
  {
    Regroup(q, c, b, h);
    JoinFits(c, b, h);
    MulNat(c, h);
    DivModUnique(q, c * h + b, s);
  }

  lemma DivModLaw(n: nat, h: nat)
    requires 0 < h
    ensures n == n / h * h + n % h && n % h < h
  {
  }

  lemma ReducedSplit(a: nat, q: nat, c: nat, b: nat, h: nat, s: nat)
    requires c < h && b < h && s == h * h && a == q * h + c
    ensures a * h + b >= 0 && (a * h + b) % s / h == c && (a * h + b) % s % h == b
  {
    MulNat(a, h);
    Reduced(q, c, b, h, s);
    MulNat(c, h);
    DivModUnique(c, b, h);
  }

  lemma SplitReduced(n: nat, h: nat, s: nat)
    requires 0 < h && s == h * h && 0 < s
    ensures n % s / h == n / h % h && n % s % h == n % h
  {
    DivModLaw(n, h);
    DivModLaw(n / h, h);
    ReducedSplit(n / h, n / h / h, n / h % h, n % h, h, s);
  }

  lemma MulNat(c: nat, h: nat)
    ensures c * h >= 0
  {
  }

  lemma SameResidue(a: int, b: int, n: nat)
    requires n > 0 && (a - b) % n == 0
    ensures a % n == b % n
  {
    var q := (a - b) / n;
    assert a == b + q * n;
    ShiftResidue(b, q, n);
  }

  lemma ShiftResidue(b: int, q: int, n: nat)
    requires n > 0
    ensures (b + q * n) % n == b % n
  {
    var x := b + q * n;
    var k := x / n - b / n - q;
    assert x == x / n * n + x % n;
    assert b == b / n * n + b % n;
    Distribute(x / n, b / n, n);
    Distribute(x / n - b / n, q, n);
    if k > 0 { MulMono(1, k, n); } else if k < 0 { MulMono(k, -1, n); }
  }

  lemma GapCounts(a: int, n: nat)
    requires n > 0 && a % n > 0
    ensures (a - 1) % n == a % n - 1
  {
    ShiftResidue(a % n - 1, a / n, n);
    assert a == a / n * n + a % n;
    SmallMod(a % n - 1, n);
  }

  lemma WrapResidue(x: nat, n: nat, k: nat, w: nat)
    requires n > 0 && w > 0 && k * n == w
    ensures (x % w) % n == x % n
  {
    Associate(x / w, k, n);
    assert x == x / w * w + x % w;
    ShiftResidue(x % w, x / w * k, n);
  }

  lemma GapResidue(d: int, a: int, b: int, n: nat)
    requires n > 0 && a % n == b % n
    ensures (d - a) % n == (d - b) % n
  {
    assert a == a / n * n + a % n;
    assert b == b / n * n + b % n;
    Distribute(b / n, a / n, n);
    ShiftResidue(d - b, b / n - a / n, n);
  }

  lemma SlotResidue(d: int, s: int, n: nat)
    requires n > 0
    ensures (s + (d - s) % n) % n == d % n
  {
    var q := (d - s) / n;
    assert d - s == q * n + (d - s) % n;
    ShiftResidue(s + (d - s) % n, q, n);
  }

  lemma {:induction false} Pow2Add(a: nat, b: nat)
    ensures Pow2(a + b) == Pow2(a) * Pow2(b)
    decreases b
  {
    if b > 0 { Pow2Add(a, b - 1); assert Pow2(a + b) == 2 * Pow2(a + (b - 1)); }
  }

  lemma {:induction false} Pow2Grows(a: nat, b: nat)
    requires a < b
    ensures Pow2(a) < Pow2(b)
    decreases b
  {
    if a + 1 < b { Pow2Grows(a, b - 1); }
  }

  lemma PeriodApart(a: nat, b: nat, n: nat)
    requires a < b < a + n
    ensures a % n != b % n
  {
    if a % n == b % n {
      GapResidue(b, a, b, n);
      SmallMod(b - a, n);
    }
  }

  // ----- Congruence ------------------------------------------------------------------

  predicate Cong(a: int, b: int, n: nat)
    requires n > 0
  {
    (a - b) % n == 0
  }

  lemma CongMultiple(b: int, q: int, n: nat)
    requires n > 0
    ensures Cong(b + q * n, b, n)
  {
    ShiftResidue(0, q, n);
  }

  lemma CongQuotient(a: int, b: int, n: nat) returns (q: int)
    requires n > 0 && Cong(a, b, n)
    ensures a == b + q * n
  {
    q := (a - b) / n;
  }

  lemma CongRem(a: int, n: nat)
    requires n > 0
    ensures Cong(a % n, a, n) && Cong(a, a % n, n)
  {
    CongMultiple(a % n, a / n, n);
    assert a == a % n + a / n * n;
    CongSym(a, a % n, n);
  }

  lemma CongRefl(a: int, n: nat)
    requires n > 0
    ensures Cong(a, a, n)
  {
    CongMultiple(a, 0, n);
  }

  lemma CongSym(a: int, b: int, n: nat)
    requires n > 0 && Cong(a, b, n)
    ensures Cong(b, a, n)
  {
    var q := CongQuotient(a, b, n);
    Distribute(0, q, n);
    CongMultiple(a, -q, n);
  }

  lemma CongAdd(a: int, b: int, c: int, d: int, n: nat)
    requires n > 0 && Cong(a, b, n) && Cong(c, d, n)
    ensures Cong(a + c, b + d, n)
  {
    var q := CongQuotient(a, b, n);
    var k := CongQuotient(c, d, n);
    Distribute(q, -k, n);
    Distribute(0, k, n);
    CongMultiple(b + d, q + k, n);
  }

  lemma CongSub(a: int, b: int, c: int, d: int, n: nat)
    requires n > 0 && Cong(a, b, n) && Cong(c, d, n)
    ensures Cong(a - c, b - d, n)
  {
    var q := CongQuotient(a, b, n);
    var k := CongQuotient(c, d, n);
    Distribute(q, k, n);
    CongMultiple(b - d, q - k, n);
  }

  lemma CongTrans(a: int, b: int, c: int, n: nat)
    requires n > 0 && Cong(a, b, n) && Cong(b, c, n)
    ensures Cong(a, c, n)
  {
    CongAdd(a, b, b, c, n);
    var q := CongQuotient(a + b, b + c, n);
    CongMultiple(c, q, n);
  }

  lemma CongSmall(a: nat, b: nat, n: nat)
    requires a < n && b < n && Cong(a, b, n)
    ensures a == b
  {
    var q := CongQuotient(a, b, n);
    if q > 0 { MulMono(1, q, n); } else if q < 0 { MulMono(q, -1, n); }
  }

  lemma CongDivisor(a: int, b: int, n: nat, k: nat, m: nat)
    requires n > 0 && m > 0 && m == k * n && Cong(a, b, m)
    ensures Cong(a, b, n)
  {
    var q := CongQuotient(a, b, m);
    Associate(q, k, n);
    CongMultiple(b, q * k, n);
  }
}
