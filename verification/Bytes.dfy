/** Octets and the stock option type used by the wire-format modules. */
module Bytes {
  type Byte = x: int | 0 <= x < 256 witness 0

  datatype Option<+T> = None | Some(value: T)

  function Min(a: nat, b: nat): nat { if a < b then a else b }

  function Max(a: nat, b: nat): nat { if a < b then b else a }

  /** A 16-bit quantity in network order. */
  function Word(n: nat): seq<Byte> { [n / 256 % 256, n % 256] }

  lemma SubSlice(d: seq<Byte>, lo: nat, hi: nat, a: nat, b: nat)
    requires lo <= hi <= |d| && a <= b <= hi - lo
    ensures d[lo..hi][a..b] == d[lo + a..lo + b]
  {
    assert forall i | 0 <= i < b - a :: d[lo..hi][a..b][i] == d[lo + a..lo + b][i];
  }
}
