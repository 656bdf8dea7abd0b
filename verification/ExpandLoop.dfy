/** The loop of `dns_d_expand` on arbitrary bytes (libs/async/src/dns/dns.c:1780-1853): when it
    ends, and what it has written by then.  Offsets have 16 bits, as in the source. */
module ExpandLoop {
  import opened Bytes
  import opened Counting
  import opened NameSearch
  import opened NameSkip
  import opened NameSpec
  import opened NameTable

  /** One turn of the loop: the next offset and pointer count, or nothing when it returns.  The
      count starts again at every label. */
  function ExpandTurn(d: seq<Byte>, src: nat, nptrs: nat): (s: Option<(nat, nat)>)
    requires |d| <= OFFSETS
    ensures s.Some? && s.value.1 == 0 ==> s.value.0 <= |d|
    ensures s.Some? && s.value.1 > 0 ==> s.value.1 == nptrs + 1 <= MAXPTRS
  {
    if src >= |d| then None
    else if d[src] / 64 == 0 then
      var next := (src + 1) % OFFSETS;
      if d[src] == 0 || |d| - next < d[src] as int then None else Some(((next + d[src] as nat) % OFFSETS, 0))
    else if d[src] / 64 == 3 then
      if nptrs + 1 > MAXPTRS || |d| - src < 2 then None
      else Some(((d[src] as int) % 64 * 256 + d[src + 1] as int, nptrs + 1))
    else None
  }

  /** The loop after `k` turns, if it is still running. */
  function ExpandTurns(d: seq<Byte>, src: nat, nptrs: nat, k: nat): Option<(nat, nat)>
    requires |d| <= OFFSETS
    decreases k
  {
    if k == 0 then Some((src, nptrs))
    else
      match ExpandTurn(d, src, nptrs)
      case None => None
      case Some(s) => ExpandTurns(d, s.0, s.1, k - 1)
  }

  /** The loop ends. */
  ghost predicate Ends(d: seq<Byte>, src: nat)
    requires |d| <= OFFSETS
  {
    exists k: nat :: ExpandTurns(d, src, 0, k).None?
  }

  // ----- Label by label ---------------------------------------------------------------------

  /** The offset behind the next label, if there is one. */
  function LabelTurn(d: seq<Byte>, src: nat, nptrs: nat): (p: Option<nat>)
    requires |d| <= OFFSETS
    ensures p.Some? ==> p.value <= |d|
    decreases MAXPTRS - nptrs
  {
    match ExpandTurn(d, src, nptrs)
    case None => None
    case Some(s) => if s.1 == 0 then Some(s.0) else LabelTurn(d, s.0, s.1)
  }

  /** The offset behind the `n`-th label. */
  function OffsetAfter(d: seq<Byte>, src: nat, n: nat): (p: Option<nat>)
    requires |d| <= OFFSETS
    ensures n > 0 && p.Some? ==> p.value <= |d|
  {
    if n == 0 then Some(src)
    else
      match OffsetAfter(d, src, n - 1)
      case None => None
      case Some(p) => LabelTurn(d, p, 0)
  }

  /** The loop comes back to an offset behind a label; it is enough to look at the first few. */
  predicate Returns(d: seq<Byte>, src: nat)
    requires |d| <= OFFSETS
  {
    exists i: nat, j: nat :: i < j <= |d| + 2 && OffsetAfter(d, src, i).Some? && OffsetAfter(d, src, i) == OffsetAfter(d, src, j)
  }

  // ----- When the loop ends -------------------------------------------------------------------

  lemma {:induction false} TurnsCompose(d: seq<Byte>, src: nat, nptrs: nat, a: nat, b: nat)
    requires |d| <= OFFSETS
    ensures var s := ExpandTurns(d, src, nptrs, a);
            ExpandTurns(d, src, nptrs, a + b) == if s.None? then None else ExpandTurns(d, s.value.0, s.value.1, b)
    decreases a
  {
    if a > 0 {
      match ExpandTurn(d, src, nptrs)
      case None =>
      case Some(s) => TurnsCompose(d, s.0, s.1, a - 1, b);
    }
  }

  /** The turns for one label. */
  lemma {:induction false} LabelTurns(d: seq<Byte>, src: nat, nptrs: nat) returns (k: nat)
    requires |d| <= OFFSETS
    ensures k > 0
    ensures ExpandTurns(d, src, nptrs, k) ==
            (match LabelTurn(d, src, nptrs) case None => None case Some(p) => Some((p, 0)))
    decreases MAXPTRS - nptrs
  {
    match ExpandTurn(d, src, nptrs)
    case None => k := 1;
    case Some(s) =>
      if s.1 == 0 {
        k := 1;
        assert ExpandTurns(d, s.0, s.1, 0) == Some(s);
      } else {
        k := LabelTurns(d, s.0, s.1);
        k := k + 1;
      }
  }

  /** The turns for `n` labels, or until the loop has ended. */
  lemma {:induction false} OffsetTurns(d: seq<Byte>, src: nat, n: nat) returns (k: nat)
    requires |d| <= OFFSETS
    ensures k >= n
    ensures ExpandTurns(d, src, 0, k) ==
            (match OffsetAfter(d, src, n) case None => None case Some(p) => Some((p, 0)))
  {
    if n == 0 {
      k := 0;
    } else {
      var a := OffsetTurns(d, src, n - 1);
      match OffsetAfter(d, src, n - 1)
      case None =>
        TurnsCompose(d, src, 0, a, 1);
        k := a + 1;
      case Some(p) =>
        var b := LabelTurns(d, p, 0);
        TurnsCompose(d, src, 0, a, b);
        k := a + b;
    }
  }

  lemma {:induction false} SameOffset(d: seq<Byte>, src: nat, i: nat, j: nat, m: nat)
    requires |d| <= OFFSETS && OffsetAfter(d, src, i) == OffsetAfter(d, src, j)
    ensures OffsetAfter(d, src, i + m) == OffsetAfter(d, src, j + m)
  {
    hide LabelTurn;
    if m > 0 {
      SameOffset(d, src, i, j, m - 1);
      assert i + m - 1 == i + (m - 1) && j + m - 1 == j + (m - 1);
    }
  }

  lemma {:induction false} SomeBefore(d: seq<Byte>, src: nat, i: nat, j: nat)
    requires |d| <= OFFSETS && i <= j && OffsetAfter(d, src, j).Some?
    ensures OffsetAfter(d, src, i).Some?
    decreases j
  {
    if i < j { SomeBefore(d, src, i, j - 1); }
  }

  /** Once an offset has come back, labels are read forever. */
  lemma {:induction false} Forever(d: seq<Byte>, src: nat, i: nat, j: nat, n: nat)
    requires |d| <= OFFSETS && i < j && OffsetAfter(d, src, i).Some? && OffsetAfter(d, src, i) == OffsetAfter(d, src, j)
    ensures OffsetAfter(d, src, n).Some?
    decreases n
  {
    hide OffsetAfter;
    if n <= j {
      SomeBefore(d, src, n, j);
    } else {
      Forever(d, src, i, j, n - (j - i));
      SameOffset(d, src, i, j, n - j);
    }
  }

  /** Among more labels than there are offsets some offset comes back. */
  lemma SomeReturn(d: seq<Byte>, src: nat)
    requires |d| <= OFFSETS && OffsetAfter(d, src, |d| + 2).Some?
    ensures Returns(d, src)
  {
    if !Returns(d, src) {
      forall n: nat | n <= |d| + 2 ensures OffsetAfter(d, src, n).Some? { SomeBefore(d, src, n, |d| + 2); }
      var offsets := seq(|d| + 2, i requires 0 <= i < |d| + 2 => OffsetAfter(d, src, i + 1).value);
      DistinctWithin(offsets, Below(|d| + 1));
    }
  }

  lemma ReturnsForever(d: seq<Byte>, src: nat, k: nat)
    requires |d| <= OFFSETS && Returns(d, src)
    ensures ExpandTurns(d, src, 0, k).Some?
  {
    hide ExpandTurns, OffsetAfter;
    var i: nat, j: nat :| i < j <= |d| + 2 && OffsetAfter(d, src, i).Some? && OffsetAfter(d, src, i) == OffsetAfter(d, src, j);
    Forever(d, src, i, j, k);
    var t := OffsetTurns(d, src, k);
    TurnsCompose(d, src, 0, k, t - k);
  }

  /** The loop ends exactly if it does not come back to an offset behind a label. */
  lemma EndsIff(d: seq<Byte>, src: nat)
    requires |d| <= OFFSETS
    ensures Ends(d, src) <==> !Returns(d, src)
  {
    hide ExpandTurns, OffsetAfter, Returns;
    if Returns(d, src) {
      forall k: nat ensures ExpandTurns(d, src, 0, k).Some? { ReturnsForever(d, src, k); }
    } else {
      if OffsetAfter(d, src, |d| + 2).Some? { SomeReturn(d, src); }
      var k := OffsetTurns(d, src, |d| + 2);
    }
  }

  /** A label followed by a pointer to itself, behind a header: the loop never ends. */
  lemma ExpandCanLoop()
    ensures !Ends([0, 0, 0, 0, 0, 0, 0, 0, 0, 0, 0, 0, 1, 120, 192, 12], 12)
  {
    var d: seq<Byte> := [0, 0, 0, 0, 0, 0, 0, 0, 0, 0, 0, 0, 1, 120, 192, 12];
    assert ExpandTurn(d, 12, 0) == ExpandTurn(d, 12, 1) == Some((14, 0));
    assert ExpandTurn(d, 14, 0) == Some((12, 1));
    assert OffsetAfter(d, 12, 1) == Some(14);
    assert LabelTurn(d, 14, 0) == LabelTurn(d, 12, 1) == Some(14);
    assert OffsetAfter(d, 12, 2) == Some(14);
    EndsIff(d, 12);
  }

  // ----- Names that a push has written ---------------------------------------------------------

  /** In a stored name the label turn is the step of the specification. */
  lemma {:induction false} LabelTurnIsAfter(d: seq<Byte>, r: nat, p: nat, nptrs: nat)
    requires |d| <= OFFSETS && Labels(d, r, p).Some? && r <= p && nptrs + Hops(d, p) <= MAXPTRS
    ensures LabelTurn(d, p, nptrs) == if Labels(d, r, p).value == [] then None else Some(After(d, p))
    decreases p
  {
    if IsPtr(d, p) {
      PtrAfter(d, p);
      LabelTurnIsAfter(d, Target(d, p), Target(d, p), nptrs + 1);
    } else {
      NameStep(d, r, p);
      if d[p] != 0 { LiteralGoesOn(d, r, p); }
    }
  }

  lemma LiteralGoesOn(d: seq<Byte>, r: nat, p: nat)
    requires IsLit(d, p) && d[p] != 0 && Labels(d, r, p).Some?
    ensures p + 1 + d[p] as nat < |d| && After(d, p) == p + 1 + d[p] as nat
  {
    assert Labels(d, r, p + 1 + d[p]).Some?;
  }

  lemma {:induction false} OffsetIsPos(d: seq<Byte>, p: nat, n: nat)
    requires |d| <= OFFSETS && Stored(d, p) && n <= |Name(d, p).value|
    ensures OffsetAfter(d, p, n) == Some(Pos(d, p, n))
  {
    hide Labels, LabelTurn;
    if n > 0 {
      OffsetIsPos(d, p, n - 1);
      var q := Pos(d, p, n - 1);
      NamePos(d, p, n - 1);
      ShallowPos(d, p, n - 1);
      LabelTurnIsAfter(d, q, q, 0);
      PosStep(d, p, n - 1);
    }
  }

  /** The last label of a stored name is followed by none. */
  lemma NoneBehindLast(d: seq<Byte>, p: nat)
    requires |d| <= OFFSETS && Stored(d, p)
    ensures OffsetAfter(d, p, |Name(d, p).value| + 1).None?
  {
    hide Labels, Pos, LabelTurn;
    var n := |Name(d, p).value|;
    OffsetIsPos(d, p, n);
    NamePos(d, p, n);
    ShallowPos(d, p, n);
    LabelTurnIsAfter(d, Pos(d, p, n), Pos(d, p, n), 0);
  }

  /** The suffixes of a stored name differ in length, and so their offsets differ. */
  lemma OffsetsDiffer(d: seq<Byte>, p: nat, i: nat, j: nat)
    requires |d| <= OFFSETS && Stored(d, p) && i < j
    ensures OffsetAfter(d, p, i).Some? ==> OffsetAfter(d, p, i) != OffsetAfter(d, p, j)
  {
    hide Labels, Pos, LabelTurn, OffsetAfter;
    if OffsetAfter(d, p, j).Some? {
      var n := |Name(d, p).value|;
      NoneBehindLast(d, p);
      if j > n { SomeBefore(d, p, n + 1, j); }
      assert i < j <= n;
      OffsetIsPos(d, p, i);
      OffsetIsPos(d, p, j);
      NamePos(d, p, i);
      NamePos(d, p, j);
      assert |Name(d, Pos(d, p, i)).value| == n - i && |Name(d, Pos(d, p, j)).value| == n - j;
    }
  }

  /** So the loop ends on every stored name. */
  lemma StoredEnds(d: seq<Byte>, p: nat)
    requires |d| <= OFFSETS && Stored(d, p)
    ensures Ends(d, p)
  {
    hide Ends, Stored, OffsetAfter;
    forall i: nat, j: nat | i < j && OffsetAfter(d, p, i).Some? ensures OffsetAfter(d, p, i) != OffsetAfter(d, p, j) {
      OffsetsDiffer(d, p, i, j);
    }
    EndsIff(d, p);
  }

  // ----- What the loop writes -------------------------------------------------------------------

  /** What the loop makes of the text so far: the whole text, or nothing for an error. */
  function Outcome(d: seq<Byte>, src: nat, nptrs: nat, t: seq<Byte>, k: nat): Option<seq<Byte>>
    requires |d| <= OFFSETS && ExpandTurns(d, src, nptrs, k).None?
    decreases k
  {
    match ExpandTurn(d, src, nptrs)
    case None => if src < |d| && d[src] == 0 then Some(if t == [] then [DOT] else t) else None
    case Some(s) => Outcome(d, s.0, s.1, if s.1 == 0 then t + LabelText(d, src) else t, k - 1)
  }

  /** The label at `src` and its dot. */
  function LabelText(d: seq<Byte>, src: nat): seq<Byte>
    requires |d| <= OFFSETS && src < |d| && |d| - (src + 1) % OFFSETS >= d[src] as int
  {
    var next := (src + 1) % OFFSETS;
    d[next..next + d[src] as nat] + [DOT]
  }

  lemma OutcomeStep(d: seq<Byte>, src: nat, nptrs: nat, t: seq<Byte>, k: nat)
    requires |d| <= OFFSETS && ExpandTurns(d, src, nptrs, k).None?
    ensures k > 0
    ensures match ExpandTurn(d, src, nptrs)
            case None => Outcome(d, src, nptrs, t, k)
                         == if src < |d| && d[src] == 0 then Some(if t == [] then [DOT] else t) else None
            case Some(s) =>
              && (s.1 == 0 ==> src < |d| && |d| - (src + 1) % OFFSETS >= d[src] as int)
              && ExpandTurns(d, s.0, s.1, k - 1).None?
              && Outcome(d, src, nptrs, t, k) == Outcome(d, s.0, s.1, if s.1 == 0 then t + LabelText(d, src) else t, k - 1)
  {
  }

  /** Half-way through a name: the labels that have been copied, and those to come. */
  ghost predicate Expanding(d: seq<Byte>, ls: seq<Label>, done: seq<Label>, r: nat, src: nat, nptrs: nat) {
    && r <= src < |d|
    && Labels(d, r, src).Some? && Shallow(d, r, src)
    && ls == done + Labels(d, r, src).value
    && nptrs + Hops(d, src) <= MAXPTRS
  }

  lemma ExpandStart(d: seq<Byte>, p: nat)
    requires Stored(d, p)
    ensures Expanding(d, Name(d, p).value, [], p, p, 0)
  {
    ShallowPos(d, p, 0);
    assert [] + Name(d, p).value == Name(d, p).value;
  }

  lemma {:induction false} DotsSnoc(ls: seq<Label>, l: Label)
    ensures Dots(ls + [l]) == Dots(ls) + l + [DOT]
  {
    if ls == [] {
      assert [] + [l] == [l] && [l][1..] == [];
    } else {
      assert (ls + [l])[1..] == ls[1..] + [l];
      DotsSnoc(ls[1..], l);
    }
  }

  lemma HopsShallow(d: seq<Byte>, r: nat, p: nat)
    requires Labels(d, r, p).Some? && Shallow(d, r, p)
    ensures p < |d| && Hops(d, p) <= MAXPTRS
  {
  }

  lemma ExpandLabel(d: seq<Byte>, ls: seq<Label>, done: seq<Label>, r: nat, src: nat, nptrs: nat)
    requires |d| <= OFFSETS && Expanding(d, ls, done, r, src, nptrs) && d[src] != 0 && IsLit(d, src)
    ensures var l := d[src + 1..src + 1 + d[src]];
            && ExpandTurn(d, src, nptrs) == Some((src + 1 + d[src] as nat, 0)) && LabelText(d, src) == l + [DOT]
            && Expanding(d, ls, done + [l], r, src + 1 + d[src], 0)
  {
    hide Hops;
    var l := d[src + 1..src + 1 + d[src]];
    var rest := Labels(d, r, src + 1 + d[src]).value;
    assert done + ([l] + rest) == (done + [l]) + rest;
    HopsShallow(d, r, src + 1 + d[src]);
  }

  lemma ExpandPointer(d: seq<Byte>, ls: seq<Label>, done: seq<Label>, r: nat, src: nat, nptrs: nat)
    requires |d| <= OFFSETS && Expanding(d, ls, done, r, src, nptrs) && !IsLit(d, src)
    ensures d[src] / 64 != 0 && IsPtr(d, src) && ExpandTurn(d, src, nptrs) == Some((Target(d, src), nptrs + 1))
    ensures Expanding(d, ls, done, Target(d, src), Target(d, src), nptrs + 1)
  {
  }

  lemma ExpandStep(d: seq<Byte>, ls: seq<Label>, done: seq<Label>, r: nat, src: nat, nptrs: nat)
    requires |d| <= OFFSETS && Expanding(d, ls, done, r, src, nptrs) && d[src] != 0
    ensures d[src] / 64 == 0 ==>
              var l := d[src + 1..src + 1 + d[src]];
              && ExpandTurn(d, src, nptrs) == Some((src + 1 + d[src] as nat, 0)) && LabelText(d, src) == l + [DOT]
              && Expanding(d, ls, done + [l], r, src + 1 + d[src], 0)
              && Dots(done + [l]) == Dots(done) + l + [DOT]
    ensures d[src] / 64 != 0 ==>
              && IsPtr(d, src) && ExpandTurn(d, src, nptrs) == Some((Target(d, src), nptrs + 1))
              && Expanding(d, ls, done, Target(d, src), Target(d, src), nptrs + 1)
  {
    hide Expanding, ExpandTurn, LabelText, Dots;
    if IsLit(d, src) {
      ExpandLabel(d, ls, done, r, src, nptrs);
      DotsSnoc(done, d[src + 1..src + 1 + d[src]]);
    } else {
      ExpandPointer(d, ls, done, r, src, nptrs);
    }
  }

  lemma {:induction false} ExpandingOutcome(d: seq<Byte>, ls: seq<Label>, done: seq<Label>, r: nat, src: nat, nptrs: nat, k: nat)
    requires |d| <= OFFSETS && Expanding(d, ls, done, r, src, nptrs) && ExpandTurns(d, src, nptrs, k).None?
    ensures Outcome(d, src, nptrs, Dots(done), k) == Some(Text(ls))
    decreases k
  {
    if d[src] == 0 {
      assert Labels(d, r, src).value == [] && done + [] == done;
    } else {
      ExpandStep(d, ls, done, r, src, nptrs);
      if d[src] / 64 == 0 {
        var l := d[src + 1..src + 1 + d[src]];
        assert Dots(done) + LabelText(d, src) == Dots(done + [l]);
        ExpandingOutcome(d, ls, done + [l], r, src + 1 + d[src], 0, k - 1);
      } else {
        ExpandingOutcome(d, ls, done, Target(d, src), Target(d, src), nptrs + 1, k - 1);
      }
    }
  }

  /** A stored name expands to its text. */
  lemma StoredExpands(d: seq<Byte>, p: nat, k: nat)
    requires |d| <= OFFSETS && Stored(d, p) && ExpandTurns(d, p, 0, k).None?
    ensures Outcome(d, p, 0, [], k) == Some(Text(Name(d, p).value))
  {
    ExpandStart(d, p);
    ExpandingOutcome(d, Name(d, p).value, [], p, p, 0, k);
  }

  // ----- Too many pointers ------------------------------------------------------------------------

  lemma {:induction false} PointersEnd(d: seq<Byte>, p: nat, nptrs: nat) returns (k: nat)
    requires |d| <= OFFSETS && nptrs <= MAXPTRS < nptrs + Hops(d, p)
    ensures ExpandTurns(d, p, nptrs, k).None?
    decreases MAXPTRS - nptrs
  {
    if nptrs == MAXPTRS {
      k := 1;
    } else {
      k := PointersEnd(d, Target(d, p), nptrs + 1);
      k := k + 1;
    }
  }

  /** Expansion gives up behind 127 pointers. */
  lemma {:induction false} PointersFail(d: seq<Byte>, p: nat, nptrs: nat, t: seq<Byte>, k: nat)
    requires |d| <= OFFSETS && nptrs <= MAXPTRS < nptrs + Hops(d, p) && ExpandTurns(d, p, nptrs, k).None?
    ensures Outcome(d, p, nptrs, t, k) == None
    decreases MAXPTRS - nptrs
  {
    if nptrs < MAXPTRS { PointersFail(d, Target(d, p), nptrs + 1, t, k - 1); }
  }

  lemma WireTurn(d: seq<Byte>, p: nat, l: Label, nptrs: nat)
    requires 1 <= |l| <= 63 && LabelAt(d, p, l) && p + 1 + |l| < |d| <= OFFSETS
    ensures ExpandTurn(d, p, nptrs) == Some((p + 1 + |l|, 0))
  {
  }

  /** Labels in front of such a chain change nothing. */
  lemma {:induction false} LabelsEnd(d: seq<Byte>, p: nat, ls: seq<Label>) returns (k: nat)
    requires Sized(ls) && WireAt(d, p, ls) && p + WireLen(ls) < |d| <= OFFSETS && Hops(d, p + WireLen(ls)) > MAXPTRS
    ensures ExpandTurns(d, p, 0, k).None?
    decreases ls
  {
    hide LabelAt, Hops;
    if ls == [] {
      k := PointersEnd(d, p, 0);
    } else {
      WireTurn(d, p, ls[0], 0);
      k := LabelsEnd(d, p + 1 + |ls[0]|, ls[1..]);
      k := k + 1;
    }
  }

  lemma {:induction false} LabelsFail(d: seq<Byte>, p: nat, ls: seq<Label>, t: seq<Byte>, k: nat)
    requires Sized(ls) && WireAt(d, p, ls) && p + WireLen(ls) < |d| <= OFFSETS && Hops(d, p + WireLen(ls)) > MAXPTRS
    requires ExpandTurns(d, p, 0, k).None?
    ensures Outcome(d, p, 0, t, k) == None
    decreases ls
  {
    hide LabelAt, Hops, LabelText;
    if ls == [] {
      PointersFail(d, p, 0, t, k);
    } else {
      WireTurn(d, p, ls[0], 0);
      OutcomeStep(d, p, 0, t, k);
      LabelsFail(d, p + 1 + |ls[0]|, ls[1..], t + LabelText(d, p), k - 1);
    }
  }

  /** A pointer to a name that is 127 pointers away already: the expansion ends, with an error. */
  lemma TooFarFails(d: seq<Byte>, e: seq<Byte>, pre: seq<Label>, q: nat)
    requires Sized(pre) && WrittenPtr(d, e, pre, q) && q < |d| && Name(d, q).Some? && Hops(d, q) >= MAXPTRS
    requires |d + e| <= OFFSETS
    ensures Ends(d + e, |d|)
    ensures forall k: nat {:trigger ExpandTurns(d + e, |d|, 0, k)} | ExpandTurns(d + e, |d|, 0, k).None? ::
              Outcome(d + e, |d|, 0, [], k) == None
  {
    hide Hops, Labels, WireAt, WireLen, ExpandTurns, Outcome, PtrBytes;
    var f := d + e;
    PtrTooFar(d, e, pre, q);
    var end := LabelsEnd(f, |d|, pre);
    forall k: nat | ExpandTurns(f, |d|, 0, k).None? ensures Outcome(f, |d|, 0, [], k) == None {
      LabelsFail(f, |d|, pre, [], k);
    }
  }

  /** Whatever the table holds: the expansion of the name just written ends, and gives the text of the
      name exactly if the suffix found is fewer than 127 pointers away; else it gives an error. */
  lemma ReadsIff(d: seq<Byte>, dict: seq<nat>, e: seq<Byte>, ls: seq<Label>, m: Option<Match>)
    requires AllListed(d, dict) && GoodName(ls) && Written(d, dict, e, ls, m) && |d + e| <= OFFSETS
    ensures (m.Some? ==> m.value.i < |dict|) && Ends(d + e, |d|) && Name(d + e, |d|).Some?
    ensures forall k: nat {:trigger ExpandTurns(d + e, |d|, 0, k)} | ExpandTurns(d + e, |d|, 0, k).None? ::
              Outcome(d + e, |d|, 0, [], k) ==
              if m.None? || Hops(d, MatchPos(d, dict, m.value)) < MAXPTRS then Some(Text(Name(d + e, |d|).value)) else None
  {
    hide Search, Pos, Hops, Labels, Shallow, WrittenPtr, ExpandTurns, Outcome, Ends, Text, WireAt, WireLen;
    var f := d + e;
    if m.None? || Hops(d, MatchPos(d, dict, m.value)) < MAXPTRS {
      if m.None? { WholeReads(d, e, ls); } else { ShortReads(d, dict, e, ls, m.value); }
      StoredEnds(f, |d|);
      forall k: nat | ExpandTurns(f, |d|, 0, k).None? ensures Outcome(f, |d|, 0, [], k) == Some(Text(Name(f, |d|).value)) {
        StoredExpands(f, |d|, k);
      }
    } else {
      EntryPos(d, dict, m.value.i, m.value.k);
      PtrTooFar(d, e, ls[..m.value.j], MatchPos(d, dict, m.value));
      TooFarFails(d, e, ls[..m.value.j], MatchPos(d, dict, m.value));
    }
  }
}
