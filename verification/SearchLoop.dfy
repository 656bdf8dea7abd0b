/** The search of `dns_d_comp` on arbitrary bytes and any table (libs/async/src/dns/dns.c:1698-1736):
    when it ends. */
module SearchLoop {
  import opened Bytes
  import opened ExpandLoop
  import opened NameSearch
  import opened NameSkip
  import opened NameSpec
  import opened NameTable

  /** Before a turn of the loop over the labels of an entry: label `j` of the name begins the suffix, the
      buffer holds label `s`, and the labels of entry `i` are read from `p` on. */
  datatype Cursor = Cursor(j: nat, s: nat, i: nat, p: nat)

  function EntryStart(dict: seq<nat>, i: nat): nat { if i < |dict| then dict[i] else 0 }

  function SuffixStart(dict: seq<nat>, j: nat): Cursor { Cursor(j, j, 0, EntryStart(dict, 0)) }

  /** The innermost loop: how many labels agree, and whether both names end there. */
  function Compare(d: seq<Byte>, p: nat, cs: seq<Label>): (nat, bool)
    decreases cs
  {
    var (lab, next) := ReadLabel(d, p, 0);
    if cs == [] then (0, lab == [])
    else if lab != [] && StrCaseEq(cs[0], lab) then
      var (c, same) := Compare(d, next, cs[1..]);
      (c + 1, same)
    else (0, false)
  }

  /** The label left in the buffer by a comparison in which `c` labels agreed. */
  function Left(j: nat, s: nat, c: nat): nat { if c > 0 then j + c else s }

  /** One turn: the next cursor, or nothing when the search returns. */
  function SearchTurn(d: seq<Byte>, dict: seq<nat>, ls: seq<Label>, a: Cursor): Option<Cursor> {
    if a.j >= |ls| then None
    else if a.i >= |dict| then Some(SuffixStart(dict, a.j + 1))
    else
      var (lab, next) := ReadLabel(d, a.p, 0);
      if lab == [] then Some(Cursor(a.j, a.s, a.i + 1, EntryStart(dict, a.i + 1)))
      else
        var (c, same) := Compare(d, a.p, Candidate(ls, a.j, a.s));
        if same && a.p <= 0x3fff then None else Some(Cursor(a.j, Left(a.j, a.s, c), a.i, next))
  }

  /** The search after `k` turns, if it is still running. */
  function SearchTurns(d: seq<Byte>, dict: seq<nat>, ls: seq<Label>, a: Cursor, k: nat): Option<Cursor>
    decreases k
  {
    if k == 0 then Some(a)
    else
      match SearchTurn(d, dict, ls, a)
      case None => None
      case Some(b) => SearchTurns(d, dict, ls, b, k - 1)
  }

  ghost predicate EndsFrom(d: seq<Byte>, dict: seq<nat>, ls: seq<Label>, a: Cursor) {
    exists k: nat :: SearchTurns(d, dict, ls, a, k).None?
  }

  /** The search for the suffixes of a name ends. */
  ghost predicate SearchEnds(d: seq<Byte>, dict: seq<nat>, ls: seq<Label>) {
    EndsFrom(d, dict, ls, SuffixStart(dict, 0))
  }

  // ----- The labels of an entry -----------------------------------------------------------------

  /** `dns_l_expand` and the loop of `dns_d_expand` go over the same labels. */
  lemma {:induction false} LabelTurnReads(d: seq<Byte>, p: nat, nptrs: nat)
    requires |d| < OFFSETS && nptrs <= MAXPTRS
    ensures var (lab, next) := ReadLabel(d, p, nptrs);
            LabelTurn(d, p, nptrs) == if lab == [] then None else Some(next)
    decreases MAXPTRS - nptrs
  {
    if p < |d| && d[p] / 64 == 3 && nptrs + 1 <= MAXPTRS && |d| - p >= 2 {
      LabelTurnReads(d, (d[p] as int) % 64 * 256 + d[p + 1] as int, nptrs + 1);
    }
  }

  lemma {:induction false} OffsetNext(d: seq<Byte>, p: nat, n: nat)
    requires |d| < OFFSETS
    ensures var (lab, next) := ReadLabel(d, p, 0);
            OffsetAfter(d, p, n + 1) == if lab == [] then None else OffsetAfter(d, next, n)
  {
    hide LabelTurn, ReadLabel;
    LabelTurnReads(d, p, 0);
    if n > 0 { OffsetNext(d, p, n - 1); }
  }

  /** Both names can end only where the labels do. */
  lemma {:induction false} SameEnds(d: seq<Byte>, p: nat, cs: seq<Label>)
    requires |d| < OFFSETS && Compare(d, p, cs).1
    ensures OffsetAfter(d, p, |cs| + 1).None?
    decreases cs
  {
    hide OffsetAfter, ReadLabel, StrCaseEq;
    OffsetNext(d, p, |cs|);
    if cs != [] { SameEnds(d, ReadLabel(d, p, 0).1, cs[1..]); }
  }

  /** The labels from `p` on go on forever. */
  ghost predicate Endless(d: seq<Byte>, p: nat)
    requires |d| < OFFSETS
  {
    forall n: nat :: OffsetAfter(d, p, n).Some?
  }

  lemma EndlessIff(d: seq<Byte>, p: nat)
    requires |d| < OFFSETS
    ensures Endless(d, p) <==> Returns(d, p)
  {
    hide OffsetAfter;
    if Returns(d, p) {
      var i: nat, j: nat :| i < j <= |d| + 2 && OffsetAfter(d, p, i).Some? && OffsetAfter(d, p, i) == OffsetAfter(d, p, j);
      forall n: nat ensures OffsetAfter(d, p, n).Some? { Forever(d, p, i, j, n); }
    } else if Endless(d, p) {
      SomeReturn(d, p);
    }
  }

  // ----- Turn by turn -----------------------------------------------------------------------------

  lemma {:induction false} TurnsAdd(d: seq<Byte>, dict: seq<nat>, ls: seq<Label>, a: Cursor, x: nat, y: nat)
    ensures SearchTurns(d, dict, ls, a, x + y) ==
            match SearchTurns(d, dict, ls, a, x) case None => None case Some(b) => SearchTurns(d, dict, ls, b, y)
    decreases x
  {
    hide SearchTurn;
    if x == 0 {
      assert x + y == y;
    } else if SearchTurn(d, dict, ls, a).Some? {
      TurnsAdd(d, dict, ls, SearchTurn(d, dict, ls, a).value, x - 1, y);
      assert x + y - 1 == x - 1 + y;
    }
  }

  /** What is reached ends exactly if the search does. */
  lemma EndsLater(d: seq<Byte>, dict: seq<nat>, ls: seq<Label>, a: Cursor, k: nat)
    ensures EndsFrom(d, dict, ls, a) <==>
            (match SearchTurns(d, dict, ls, a, k) case None => true case Some(b) => EndsFrom(d, dict, ls, b))
  {
    hide SearchTurns;
    match SearchTurns(d, dict, ls, a, k)
    case None =>
    case Some(b) =>
      if EndsFrom(d, dict, ls, a) {
        var n: nat :| SearchTurns(d, dict, ls, a, n).None?;
        TurnsAdd(d, dict, ls, a, n, k);
        TurnsAdd(d, dict, ls, a, k, n);
        assert n + k == k + n;
      }
      if EndsFrom(d, dict, ls, b) {
        var n: nat :| SearchTurns(d, dict, ls, b, n).None?;
        TurnsAdd(d, dict, ls, a, k, n);
      }
  }

  lemma EndlessNext(d: seq<Byte>, p: nat)
    requires |d| < OFFSETS && Endless(d, p)
    ensures ReadLabel(d, p, 0).0 != [] && Endless(d, ReadLabel(d, p, 0).1)
  {
    hide OffsetAfter, ReadLabel;
    OffsetNext(d, p, 0);
    assert OffsetAfter(d, p, 0 + 1).Some?;
    forall n: nat ensures OffsetAfter(d, ReadLabel(d, p, 0).1, n).Some? {
      OffsetNext(d, p, n);
      assert OffsetAfter(d, p, n + 1).Some?;
    }
  }

  /** Nothing is found among labels that never end. */
  lemma {:induction false} EndlessGoesOn(d: seq<Byte>, dict: seq<nat>, ls: seq<Label>, a: Cursor, k: nat)
    requires |d| < OFFSETS && a.j < |ls| && a.i < |dict| && Endless(d, a.p)
    ensures SearchTurns(d, dict, ls, a, k).Some?
    decreases k
  {
    hide Endless, ReadLabel, Compare, Candidate;
    if k > 0 {
      EndlessNext(d, a.p);
      NeverSame(d, a.p, Candidate(ls, a.j, a.s));
      EndlessGoesOn(d, dict, ls, SearchTurn(d, dict, ls, a).value, k - 1);
    }
  }

  lemma NeverSame(d: seq<Byte>, p: nat, cs: seq<Label>)
    requires |d| < OFFSETS && Endless(d, p)
    ensures !Compare(d, p, cs).1
  {
    hide OffsetAfter, Compare;
    if Compare(d, p, cs).1 { SameEnds(d, p, cs); }
  }

  // ----- Entry by entry ---------------------------------------------------------------------------

  /** What the scan of an entry whose labels end comes to: the suffix is found, or the label left in the
      buffer.  At most `left` labels are looked at. */
  datatype Scanned = Found | Over(s: nat)

  function ScanLabels(d: seq<Byte>, ls: seq<Label>, j: nat, s: nat, p: nat, left: nat): Scanned
    requires j < |ls|
    decreases left
  {
    var (lab, next) := ReadLabel(d, p, 0);
    if lab == [] || left == 0 then Over(s)
    else
      var (c, same) := Compare(d, p, Candidate(ls, j, s));
      if same && p <= 0x3fff then Found else ScanLabels(d, ls, j, Left(j, s, c), next, left - 1)
  }

  lemma {:induction false} ScanTurns(d: seq<Byte>, dict: seq<nat>, ls: seq<Label>, j: nat, s: nat, i: nat, p: nat, left: nat)
    returns (k: nat)
    requires |d| < OFFSETS && j < |ls| && i < |dict| && OffsetAfter(d, p, left).None?
    ensures SearchTurns(d, dict, ls, Cursor(j, s, i, p), k) ==
            match ScanLabels(d, ls, j, s, p, left)
            case Found => None
            case Over(s') => Some(Cursor(j, s', i + 1, EntryStart(dict, i + 1)))
    decreases left
  {
    hide ReadLabel, Compare, Candidate, LabelTurn;
    var a := Cursor(j, s, i, p);
    var (lab, next) := ReadLabel(d, p, 0);
    if left > 0 { OffsetNext(d, p, left - 1); }
    k := 0;
    if lab != [] {
      var (c, same) := Compare(d, p, Candidate(ls, j, s));
      if !(same && p <= 0x3fff) { k := ScanTurns(d, dict, ls, j, Left(j, s, c), i, next, left - 1); }
    }
    OneMoreTurn(d, dict, ls, a, k);
    if lab == [] { assert SearchTurns(d, dict, ls, Cursor(j, s, i + 1, EntryStart(dict, i + 1)), 0).Some?; }
    k := k + 1;
  }

  lemma OneMoreTurn(d: seq<Byte>, dict: seq<nat>, ls: seq<Label>, a: Cursor, k: nat)
    ensures SearchTurns(d, dict, ls, a, k + 1) ==
            match SearchTurn(d, dict, ls, a) case None => None case Some(b) => SearchTurns(d, dict, ls, b, k)
  {
  }

  /** As many labels as there are offsets are enough for an entry whose labels end. */
  function ScanWhole(d: seq<Byte>, ls: seq<Label>, j: nat, s: nat, p: nat): Scanned
    requires j < |ls|
  {
    ScanLabels(d, ls, j, s, p, |d| + 2)
  }

  /** What becomes of the search when it comes to entry `i`. */
  lemma EntryTurns(d: seq<Byte>, dict: seq<nat>, ls: seq<Label>, j: nat, s: nat, i: nat)
    requires |d| < OFFSETS && j < |ls| && i < |dict|
    ensures var a := Cursor(j, s, i, dict[i]);
            EndsFrom(d, dict, ls, a) <==>
            !Returns(d, dict[i]) &&
            (match ScanWhole(d, ls, j, s, dict[i])
             case Found => true
             case Over(s') => EndsFrom(d, dict, ls, Cursor(j, s', i + 1, EntryStart(dict, i + 1))))
  {
    hide SearchTurns, OffsetAfter, Returns, ScanLabels;
    var a := Cursor(j, s, i, dict[i]);
    if Returns(d, dict[i]) {
      EndlessIff(d, dict[i]);
      forall k: nat ensures SearchTurns(d, dict, ls, a, k).Some? { EndlessGoesOn(d, dict, ls, a, k); }
    } else {
      if OffsetAfter(d, dict[i], |d| + 2).Some? { SomeReturn(d, dict[i]); }
      var k := ScanTurns(d, dict, ls, j, s, i, dict[i], |d| + 2);
      EndsLater(d, dict, ls, a, k);
    }
  }

  lemma SuffixTurns(d: seq<Byte>, dict: seq<nat>, ls: seq<Label>, a: Cursor)
    requires a.j < |ls| && a.i == |dict|
    ensures EndsFrom(d, dict, ls, a) <==> EndsFrom(d, dict, ls, SuffixStart(dict, a.j + 1))
  {
    EndsLater(d, dict, ls, a, 1);
    assert SearchTurns(d, dict, ls, SuffixStart(dict, a.j + 1), 0).Some?;
  }

  // ----- When the search ends -----------------------------------------------------------------------

  /** Looking for the whole name, the search comes to an entry whose labels lead back to themselves: it
      is not found in the entries before that one. */
  predicate Stuck(d: seq<Byte>, dict: seq<nat>, ls: seq<Label>, s: nat, i: nat)
    requires |d| < OFFSETS && ls != [] && i <= |dict|
    decreases |dict| - i
  {
    i < |dict| &&
    (Returns(d, dict[i]) ||
     match ScanWhole(d, ls, 0, s, dict[i])
     case Found => false
     case Over(s') => Stuck(d, dict, ls, s', i + 1))
  }

  predicate SomeReturns(d: seq<Byte>, dict: seq<nat>)
    requires |d| < OFFSETS
  {
    exists i :: 0 <= i < |dict| && Returns(d, dict[i])
  }

  lemma {:induction false} NoneReturns(d: seq<Byte>, dict: seq<nat>, ls: seq<Label>, j: nat, s: nat, i: nat)
    requires |d| < OFFSETS && !SomeReturns(d, dict) && j <= |ls| && i <= |dict|
    ensures EndsFrom(d, dict, ls, Cursor(j, s, i, EntryStart(dict, i)))
    decreases |ls| - j, |dict| - i
  {
    hide ScanWhole, Returns;
    if j == |ls| {
      assert SearchTurns(d, dict, ls, Cursor(j, s, i, EntryStart(dict, i)), 1).None?;
    } else if i == |dict| {
      SuffixTurns(d, dict, ls, Cursor(j, s, i, EntryStart(dict, i)));
      NoneReturns(d, dict, ls, j + 1, j + 1, 0);
    } else {
      EntryTurns(d, dict, ls, j, s, i);
      if ScanWhole(d, ls, j, s, dict[i]).Over? {
        NoneReturns(d, dict, ls, j, ScanWhole(d, ls, j, s, dict[i]).s, i + 1);
      }
    }
  }

  lemma {:induction false} StuckIff(d: seq<Byte>, dict: seq<nat>, ls: seq<Label>, s: nat, i: nat)
    requires |d| < OFFSETS && ls != [] && i <= |dict| && forall x :: 0 <= x < i ==> !Returns(d, dict[x])
    ensures EndsFrom(d, dict, ls, Cursor(0, s, i, EntryStart(dict, i))) <==> !Stuck(d, dict, ls, s, i)
    decreases |dict| - i
  {
    hide ScanWhole, Returns, EndsFrom;
    if i == |dict| {
      NoneReturns(d, dict, ls, 0, s, i);
    } else {
      EntryTurns(d, dict, ls, 0, s, i);
      if !Returns(d, dict[i]) && ScanWhole(d, ls, 0, s, dict[i]).Over? {
        StuckIff(d, dict, ls, ScanWhole(d, ls, 0, s, dict[i]).s, i + 1);
      }
    }
  }

  /** On any bytes and any table: the search ends exactly if the name is the root, or it is found whole
      before an entry whose labels lead back to themselves, or there is no such entry. */
  lemma SearchEndsIff(d: seq<Byte>, dict: seq<nat>, ls: seq<Label>)
    requires |d| < OFFSETS
    ensures SearchEnds(d, dict, ls) <==> ls == [] || !Stuck(d, dict, ls, 0, 0)
    ensures !SomeReturns(d, dict) ==> SearchEnds(d, dict, ls)
  {
    hide Stuck, EndsFrom;
    if ls == [] {
      RootEnds(d, dict);
    } else {
      StuckIff(d, dict, ls, 0, 0);
    }
    if !SomeReturns(d, dict) { NoneReturns(d, dict, ls, 0, 0, 0); }
  }

  lemma RootEnds(d: seq<Byte>, dict: seq<nat>)
    ensures EndsFrom(d, dict, [], SuffixStart(dict, 0))
  {
    assert SearchTurns(d, dict, [], SuffixStart(dict, 0), 1).None?;
  }

  /** So it ends wherever the table is sound. */
  lemma ListedEnds(d: seq<Byte>, dict: seq<nat>, ls: seq<Label>)
    requires |d| < OFFSETS && AllListed(d, dict)
    ensures SearchEnds(d, dict, ls)
  {
    hide Stored, Returns, Stuck, SearchEnds;
    forall i | 0 <= i < |dict| ensures !Returns(d, dict[i]) {
      if Stored(d, dict[i]) { StoredEnds(d, dict[i]); EndsIff(d, dict[i]); } else { OutsideEnds(d, dict[i]); }
    }
    SearchEndsIff(d, dict, ls);
  }

  lemma OutsideEnds(d: seq<Byte>, p: nat)
    requires |d| < OFFSETS && p >= |d|
    ensures !Returns(d, p)
  {
    EndlessIff(d, p);
    assert OffsetAfter(d, p, 1).None?;
  }
}
