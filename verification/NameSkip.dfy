/** Skipping a name in a packet (`dns_d_skip`, libs/async/src/dns/dns.c:1743-1777), with the
    16-bit offsets of the source. */
module NameSkip {
  import opened Bytes

  const OFFSETS: nat := 65536

  /** One turn of the loop: the offset it yields, and whether the loop goes on from there. */
  function Turn(d: seq<Byte>, src: nat): (nat, bool)
    requires src < |d| <= OFFSETS
  {
    var len, next := d[src] as nat, (src + 1) % OFFSETS;
    if len / 64 == 0 then
      if len == 0 then (next, false)
      else if |d| - next > len then (next + len, true)
      else (|d| % OFFSETS, false)
    else if len / 64 == 3 && |d| - src >= 2 then ((src + 2) % OFFSETS, false)
    else (|d| % OFFSETS, false)
  }

  /** Every turn makes progress and stays within the packet exactly when the end of the packet
      is itself an offset of 16 bits; a packet may grow to one byte more. */
  lemma TurnsForward(d: seq<Byte>)
    requires 0 < |d| <= OFFSETS
    ensures (forall src: nat {:trigger Turn(d, src)} | src < |d| :: src < Turn(d, src).0 <= |d|) <==> |d| < OFFSETS
  {
    if |d| == OFFSETS { assert Turn(d, OFFSETS - 1).0 < OFFSETS - 1; }
  }

  // ----- When the loop ends -------------------------------------------------------------------

  /** The offset after `k` turns, if the loop is still running. */
  function Turns(d: seq<Byte>, src: nat, k: nat): Option<nat>
    requires |d| <= OFFSETS
    decreases k
  {
    if src >= |d| then None
    else if k == 0 then Some(src)
    else
      var (p, more) := Turn(d, src);
      if more then Turns(d, p, k - 1) else None
  }

  /** The loop ends. */
  ghost predicate SkipEnds(d: seq<Byte>, src: nat)
    requires |d| <= OFFSETS
  {
    exists k: nat :: Turns(d, src, k).None?
  }

  /** The labels from `src` on meet the last offset of 16 bits. */
  predicate MeetsLast(d: seq<Byte>, src: nat): (m: bool)
    requires |d| <= OFFSETS
    ensures m ==> |d| == OFFSETS
    decreases |d| - src
  {
    src < |d| && (src == OFFSETS - 1 || (Turn(d, src).1 && MeetsLast(d, Turn(d, src).0)))
  }

  /** A label starts at the last offset, and the labels that follow its wrapped length lead back
      to it. */
  predicate GoesRound(d: seq<Byte>, src: nat)
    requires |d| <= OFFSETS
  {
    MeetsLast(d, src) && 0 < d[OFFSETS - 1] < 64 && MeetsLast(d, d[OFFSETS - 1])
  }

  lemma {:induction false} TurnsUntilLast(d: seq<Byte>, src: nat) returns (k: nat)
    requires |d| <= OFFSETS
    ensures Turns(d, src, k) == if MeetsLast(d, src) then Some(OFFSETS - 1) else None
    decreases |d| - src
  {
    k := 0;
    if src < |d| && src != OFFSETS - 1 {
      if Turn(d, src).1 { k := TurnsUntilLast(d, Turn(d, src).0); }
      k := k + 1;
    }
  }

  lemma {:induction false} TurnsAdd(d: seq<Byte>, src: nat, a: nat, b: nat)
    requires |d| <= OFFSETS
    ensures Turns(d, src, a + b) == match Turns(d, src, a) case None => None case Some(p) => Turns(d, p, b)
    decreases a
  {
    hide Turn;
    if src < |d| {
      if a == 0 {
        assert a + b == b;
      } else if Turn(d, src).1 {
        TurnsAdd(d, Turn(d, src).0, a - 1, b);
      }
    }
  }

  lemma {:induction false} RoundForever(d: seq<Byte>, src: nat, k: nat)
    requires |d| <= OFFSETS && GoesRound(d, src)
    ensures Turns(d, src, k).Some?
    decreases k
  {
    if k > 0 { RoundForever(d, Turn(d, src).0, k - 1); }
  }

  /** The loop ends on all bytes but those that lead round the last offset of 16 bits, in a
      packet of 65536 bytes. */
  lemma SkipEndsIff(d: seq<Byte>, src: nat)
    requires |d| <= OFFSETS
    ensures SkipEnds(d, src) <==> !GoesRound(d, src)
  {
    if GoesRound(d, src) {
      forall k: nat ensures Turns(d, src, k).Some? { RoundForever(d, src, k); }
    } else {
      hide Turns;
      var k := TurnsUntilLast(d, src);
      if MeetsLast(d, src) {
        LastTurn(d);
        TurnsAdd(d, src, k, 1);
        if Turns(d, src, k + 1).Some? {
          var n := TurnsUntilLast(d, d[OFFSETS - 1]);
          TurnsAdd(d, src, k + 1, n);
        }
      }
    }
  }

  lemma LastTurn(d: seq<Byte>)
    requires |d| == OFFSETS
    ensures Turns(d, OFFSETS - 1, 1) == if 0 < d[OFFSETS - 1] < 64 then Some(d[OFFSETS - 1] as nat) else None
  {
  }

  // ----- Packets of fewer bytes -----------------------------------------------------------------

  /** `dns_d_skip`. */
  function SkipName(d: seq<Byte>, src: nat): (r: nat)
    requires |d| < OFFSETS
    ensures src < |d| ==> src < r
    ensures r <= |d|
    decreases |d| - src
  {
    if src < |d| then
      var (p, more) := Turn(d, src);
      if more then SkipName(d, p) else p
    else |d|
  }

  /** One turn of the loop, without the wrap-around that such a packet does not reach. */
  lemma SkipTurn(d: seq<Byte>, src: nat)
    requires src < |d| < OFFSETS
    ensures var len := d[src] as nat;
            SkipName(d, src) ==
            if len == 0 then src + 1
            else if len < 64 then (if |d| - (src + 1) > len then SkipName(d, src + 1 + len) else |d|)
            else if len >= 192 && |d| - src >= 2 then src + 2
            else |d|
  {
  }

  lemma SkipPast(d: seq<Byte>, src: nat)
    requires |d| <= src && |d| < OFFSETS
    ensures SkipName(d, src) == |d|
  {
  }

  /** The bytes of one name: labels, and the root label or a pointer. */
  predicate Encoded(e: seq<Byte>) {
    && e != []
    && if e[0] == 0 then |e| == 1
       else if e[0] < 64 then |e| > 1 + e[0] as int && Encoded(e[1 + e[0] as int..])
       else e[0] >= 192 && |e| == 2
  }

  lemma TurnFits(d: seq<Byte>, src: nat)
    requires src < |d| < OFFSETS
    ensures d[src] == 0 ==> Turn(d, src) == (src + 1, false)
    ensures 0 < d[src] < 64 && |d| - (src + 1) > d[src] as int ==> Turn(d, src) == (src + 1 + d[src] as nat, true)
    ensures d[src] >= 192 && |d| - src >= 2 ==> Turn(d, src) == (src + 2, false)
  {
  }

  /** A name is skipped as a whole, whatever comes before and after it. */
  lemma {:induction false} SkipsEncoded(d: seq<Byte>, p: nat, e: seq<Byte>)
    requires p + |e| <= |d| < OFFSETS && d[p..p + |e|] == e && Encoded(e)
    ensures SkipName(d, p) == p + |e|
    decreases |e|
  {
    hide Turn;
    assert d[p] == e[0];
    TurnFits(d, p);
    if 0 < e[0] < 64 {
      var n := 1 + e[0] as int;
      assert d[p + n..p + n + |e[n..]|] == e[n..];
      SkipsEncoded(d, p + n, e[n..]);
    }
  }
}
