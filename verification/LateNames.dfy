/** What the offsets that refused records leave in a full table can lead to: chains of pointers that
    grow with every round, until a name just pushed cannot be read back
    (libs/async/src/dns/dns.c:1247-1287, 1655-1876). */
module LateNames {
  import opened Bytes
  import opened ExpandLoop
  import opened NamePacket
  import opened NameSearch
  import opened NameSkip
  import opened NameSpec
  import opened NameTable

  /** A packet, its table, and the number of names pushed late. */
  datatype State = State(d: seq<Byte>, dict: seq<nat>, late: nat)

  /** Type and class of a question, which follow its name. */
  const FIELDS: seq<Byte> := [0, 1, 0, 1]

  /** `dns_d_comp` with room to spare writes `e` for the name `ls`. */
  ghost predicate Writes(s: State, ls: seq<Label>, e: seq<Byte>) {
    && GoodName(ls) && AllListed(s.d, s.dict)
    && var x := Search(s.d, s.dict, ls, 0);
       Written(s.d, s.dict, e, ls, x) && (x.Some? ==> x.value.i < |s.dict|)
  }

  function DictOf(s: State, ls: seq<Label>): seq<nat>
    requires AllListed(s.d, s.dict)
    requires var x := Search(s.d, s.dict, ls, 0); x.Some? ==> x.value.i < |s.dict|
  {
    DictAfter(s.d, s.dict, Search(s.d, s.dict, ls, 0))
  }

  function LateOf(s: State, ls: seq<Label>): nat
    requires AllListed(s.d, s.dict)
    requires var x := Search(s.d, s.dict, ls, 0); x.Some? ==> x.value.i < |s.dict|
  {
    Late(s.d, s.dict, Search(s.d, s.dict, ls, 0), s.late)
  }

  /** A question is pushed. */
  ghost predicate Pushes(s: State, ls: seq<Label>, e: seq<Byte>, s': State) {
    Writes(s, ls, e) && s' == State(s.d + e + FIELDS, DictOf(s, ls), LateOf(s, ls))
  }

  /** A record is refused behind its name. */
  ghost predicate Refuses(s: State, ls: seq<Label>, e: seq<Byte>, s': State) {
    Writes(s, ls, e) && s' == State(s.d, DictOf(s, ls), LateOf(s, ls))
  }

  ghost predicate Next(s: State, s': State) { exists ls, e :: Pushes(s, ls, e, s') || Refuses(s, ls, e, s') }

  ghost predicate Run(ss: seq<State>) {
    && ss != [] && ss[0] == State(Header(), [], 0)
    && forall i {:trigger ss[i]} :: 0 <= i < |ss| - 1 ==> Next(ss[i], ss[i + 1])
  }

  lemma Extend(ss: seq<State>, s': State)
    requires Run(ss) && Next(ss[|ss| - 1], s')
    ensures Run(ss + [s'])
  {
    hide Next;
    var ts := ss + [s'];
    forall i | 0 <= i < |ts| - 1 ensures Next(ts[i], ts[i + 1]) {
      if i < |ss| - 1 { assert Next(ss[i], ss[i + 1]); }
    }
  }

  // ----- What the search finds --------------------------------------------------------------------

  /** A suffix that first matches, when no entry has more labels than that suffix. */
  lemma SearchIs(d: seq<Byte>, dict: seq<nat>, ls: seq<Label>, j: nat, i: nat, k: nat)
    requires AllListed(d, dict) && GoodName(ls) && FirstMatch(d, dict, ls, j, i, k)
    requires j > 0 ==> forall x :: 0 <= x < |dict| ==> |Entry(d, dict, x)| <= |ls| - j
    ensures Search(d, dict, ls, 0) == Some(Match(j, j, i, k)) && Found(d, dict, ls, Match(j, j, i, k))
  {
    hide Search, Stored, Seen, FoldLabel;
    SearchComplete(d, dict, ls, 0, j, i, k);
    SearchFound(d, dict, ls, 0);
    if j > 0 {
      var m := Search(d, dict, ls, 0).value;
      assert |Entry(d, dict, m.i)| <= |ls| - j;
    }
  }

  // ----- What is written ----------------------------------------------------------------------------

  /** The name of the one label `c`. */
  function One(c: Byte): seq<Label> { [[c]] }

  /** A label and a pointer. */
  function LabelAndPtr(c: Byte, q: nat): seq<Byte>
    requires q <= 0x3fff
  {
    [1, c] + PtrBytes(q)
  }

  lemma OneLabel(c: Byte)
    requires c != 0 && c != DOT
    ensures GoodName(One(c)) && WireLen(One(c)) == 2
  {
  }

  lemma OneLabelAt(f: seq<Byte>, p: nat, c: Byte)
    requires p + 2 <= |f| && f[p] == 1 && f[p + 1] == c
    ensures WireAt(f, p, One(c))
  {
    assert f[p + 1..p + 2] == [c];
  }

  lemma NoLabelAt(f: seq<Byte>, p: nat, q: nat)
    requires q <= 0x3fff
    ensures WireLen([]) == 0 && WireAt(f, p, []) && |PtrBytes(q)| == 2
  {
  }

  lemma PointerWritten(d: seq<Byte>, c: Byte, q: nat)
    requires c != 0 && c != DOT && q <= 0x3fff
    ensures WrittenPtr(d, LabelAndPtr(c, q), One(c), q) && |LabelAndPtr(c, q)| == 4
    ensures WrittenPtr(d, PtrBytes(q), [], q) && |PtrBytes(q)| == 2
  {
    hide One, PtrBytes;
    OneLabel(c);
    OneLabelAt(d + LabelAndPtr(c, q), |d|, c);
    NoLabelAt(d + PtrBytes(q), |d|, q);
  }

  /** A name of one label in full. */
  lemma LabelWritten(d: seq<Byte>, c: Byte)
    requires c != 0 && c != DOT
    ensures WrittenWhole(d, [1, c, 0], One(c))
  {
    hide One;
    OneLabel(c);
    OneLabelAt(d + [1, c, 0], |d|, c);
  }

  /** What a name with a pointer reads as, behind it and the rest of its record. */
  lemma PointerRead(d: seq<Byte>, e: seq<Byte>, rest: seq<Byte>, pre: seq<Label>, q: nat)
    requires WrittenPtr(d, e, pre, q) && GoodName(pre) && Pointable(d, q)
    requires forall l | l in Name(d, q).value :: 0 !in l
    ensures var f := d + e + rest;
            && Stored(f, |d|) && Name(f, |d|) == Some(pre + Name(d, q).value)
            && Pos(f, |d|, |pre|) == |d| + WireLen(pre) && Hops(f, |d| + WireLen(pre)) == 1 + Hops(d, q)
  {
    hide Labels, Pos, Hops, WireLen, Shallow;
    PtrName(d, e, pre, q);
    PtrStart(d, e, pre, q);
    PtrTailPos(d, e, pre, q, |pre|);
    assert Stored(d + e, |d|);
    StoredPrefix(d + e, rest, |d|);
    PosPrefix(d + e, rest, |d|, |pre|);
    NamePos(d + e, |d|, |pre|);
    HopsPrefix(d + e, rest, |d| + WireLen(pre), |d| + WireLen(pre));
  }

  // ----- The names of a round -------------------------------------------------------------------------

  const W: Byte := 119

  function Short(): seq<Label> { [[X]] }

  function Long(): seq<Label> { [[W], [X]] }

  function Longer(): seq<Label> { [[Y], [W], [X]] }

  lemma Letters()
    ensures |Short()| == 1 && |Long()| == 2 && |Longer()| == 3
    ensures GoodName(Short()) && GoodName(Long()) && GoodName(Longer()) && FoldLabel(Short()[0]) != FoldLabel(Long()[0])
    ensures Long()[1..] == Short() == Short()[0..] && Longer()[1..] == Long() == Long()[0..]
    ensures Long()[..1] == One(W) && Longer()[..1] == One(Y) && Short()[..0] == []
    ensures One(W) + Short() == Long() && [] + Short() == Short()
    ensures (forall l :: !HasLabel([], l)) && !HasLabel(Short(), Long()[0])
  {
    assert FoldLabel([X])[0] == X && FoldLabel([W])[0] == W;
  }

  /** A suffix that an entry ends in, and whose first label no entry before that one has. */
  lemma FirstIs(d: seq<Byte>, dict: seq<nat>, ls: seq<Label>, j: nat, i: nat, k: nat)
    requires AllListed(d, dict) && j < |ls| && i < |dict| && k < |Entry(d, dict, i)|
    requires forall x :: 0 <= x < i ==> !HasLabel(Entry(d, dict, x), ls[j])
    requires forall x :: 0 <= x < k ==> FoldLabel(Entry(d, dict, i)[x]) != FoldLabel(ls[j])
    requires Entry(d, dict, i)[k..] == ls[j..] && Pos(d, dict[i], k) <= 0x3fff
    ensures FirstMatch(d, dict, ls, j, i, k)
  {
    hide Stored, Labels, Pos, FoldLabel, HasLabel;
  }

  /** The name `ls` stands at `p`. */
  predicate Named(d: seq<Byte>, p: nat, ls: seq<Label>) { Stored(d, p) && Name(d, p) == Some(ls) }

  /** Every entry is one of the names `x.` and `w.x.`, or an offset that a refused record has left. */
  predicate Kind(d: seq<Byte>, p: nat) { p >= |d| || Named(d, p, Short()) || Named(d, p, Long()) }

  predicate Shaped(d: seq<Byte>, dict: seq<nat>) {
    |dict| <= DICTSIZE && forall i {:trigger dict[i]} :: 0 <= i < |dict| ==> Kind(d, dict[i])
  }

  lemma ShapedEntries(d: seq<Byte>, dict: seq<nat>)
    requires Shaped(d, dict)
    ensures AllListed(d, dict)
    ensures forall i :: 0 <= i < |dict| ==>
              if dict[i] >= |d| then Entry(d, dict, i) == []
              else Entry(d, dict, i) == (if Named(d, dict[i], Long()) then Long() else Short())
    ensures forall i :: 0 <= i < |dict| ==> |Entry(d, dict, i)| <= 2
  {
    hide Stored, Short, Long, Labels;
    Letters();
  }

  lemma NamedInside(d: seq<Byte>, p: nat, ls: seq<Label>)
    requires Named(d, p, ls)
    ensures p < |d|
  {
  }

  /** What stands in the table stays, and what is written where a refused record had its name. */
  lemma NamedStays(d: seq<Byte>, e: seq<Byte>, p: nat, ls: seq<Label>)
    requires Named(d, p, ls)
    ensures Named(d + e + FIELDS, p, ls)
  {
    hide Stored;
    StoredPrefix(d, e + FIELDS, p);
    assert d + e + FIELDS == d + (e + FIELDS);
  }

  // ----- The steps of a round ---------------------------------------------------------------------------

  /** What has been found for `ls`, and what it leads to. */
  ghost predicate Finds(d: seq<Byte>, dict: seq<nat>, ls: seq<Label>, m: Match) {
    GoodName(ls) && AllListed(d, dict) && Search(d, dict, ls, 0) == Some(m) && Found(d, dict, ls, m)
  }

  lemma FindsAt(d: seq<Byte>, dict: seq<nat>, ls: seq<Label>, j: nat, i: nat, k: nat)
    requires AllListed(d, dict) && GoodName(ls) && FirstMatch(d, dict, ls, j, i, k)
    requires j > 0 ==> forall x :: 0 <= x < |dict| ==> |Entry(d, dict, x)| <= |ls| - j
    ensures Finds(d, dict, ls, Match(j, j, i, k))
  {
    hide AllListed, GoodName, FirstMatch, Search, Found;
    SearchIs(d, dict, ls, j, i, k);
  }

  /** What follows from a search that found something. */
  lemma WritesPointer(s: State, ls: seq<Label>, e: seq<Byte>, m: Match)
    requires Finds(s.d, s.dict, ls, m) && WrittenPtr(s.d, e, ls[..m.j], MatchPos(s.d, s.dict, m))
    ensures Writes(s, ls, e)
    ensures m.j == 0 ==>
              && DictOf(s, ls) == (if |s.dict| < DICTSIZE then s.dict + [|s.d|] else s.dict)
              && LateOf(s, ls) == (if |s.dict| >= DICTSIZE && |s.d| in s.dict then s.late + 1 else s.late)
    ensures m.j > 0 && MatchPos(s.d, s.dict, m) in s.dict ==>
              && DictOf(s, ls) == s.dict[FirstIndex(s.dict, MatchPos(s.d, s.dict, m)) := |s.d|]
              && LateOf(s, ls) == s.late
  {
    hide Search, AllListed, GoodName, WrittenPtr, MatchPos;
  }

  lemma FirstOf(dict: seq<nat>, i: nat)
    requires i < |dict| && forall x :: 0 <= x < i ==> dict[x] != dict[i]
    ensures dict[i] in dict && FirstIndex(dict, dict[i]) == i
  {
    FirstIndexIs(dict, dict[i], i);
  }

  /** The search for `w.x.` where `x.` stands in entry `i` and nothing before it. */
  lemma FindShorter(d: seq<Byte>, dict: seq<nat>, i: nat)
    requires Shaped(d, dict) && i < |dict| && Named(d, dict[i], Short()) && dict[i] <= 0x3fff
    requires forall x :: 0 <= x < |dict| ==> !Named(d, dict[x], Long())
    requires forall x :: 0 <= x < i ==> dict[x] >= |d|
    ensures Finds(d, dict, Long(), Match(1, 1, i, 0))
  {
    hide Labels, Stored, AllListed, GoodName, FoldLabel, Pos, FirstMatch, HasLabel, Short, Long, Longer, One, Shaped, Named, Finds;
    Letters();
    ShapedEntries(d, dict);
    NamedInside(d, dict[i], Short());
    StartPos(d, dict[i]);
    FirstIs(d, dict, Long(), 1, i, 0);
    FindsAt(d, dict, Long(), 1, i, 0);
  }

  /** The search for `y.w.x.` where `w.x.` first stands in entry `i`. */
  lemma FindLonger(d: seq<Byte>, dict: seq<nat>, i: nat)
    requires Shaped(d, dict) && i < |dict| && Named(d, dict[i], Long()) && dict[i] <= 0x3fff
    requires forall x :: 0 <= x < i ==> !Named(d, dict[x], Long())
    ensures Finds(d, dict, Longer(), Match(1, 1, i, 0))
  {
    hide Labels, Stored, AllListed, GoodName, FoldLabel, Pos, FirstMatch, HasLabel, Short, Long, Longer, One, Shaped, Named, Finds;
    Letters();
    ShapedEntries(d, dict);
    NamedInside(d, dict[i], Long());
    StartPos(d, dict[i]);
    FirstIs(d, dict, Longer(), 1, i, 0);
    FindsAt(d, dict, Longer(), 1, i, 0);
  }

  /** The search for `x.` where `w.x.` stands in entry `i` and nothing before it. */
  lemma FindSecond(d: seq<Byte>, dict: seq<nat>, i: nat)
    requires Shaped(d, dict) && i < |dict| && Named(d, dict[i], Long()) && Pos(d, dict[i], 1) <= 0x3fff
    requires forall x :: 0 <= x < i ==> dict[x] >= |d|
    ensures Finds(d, dict, Short(), Match(0, 0, i, 1))
  {
    hide Labels, Stored, AllListed, GoodName, FoldLabel, Pos, FirstMatch, HasLabel, Short, Long, Longer, One, Shaped, Named, Finds;
    Letters();
    ShapedEntries(d, dict);
    NamedInside(d, dict[i], Long());
    FirstIs(d, dict, Short(), 0, i, 1);
    FindsAt(d, dict, Short(), 0, i, 1);
  }

  /** The name `w.x.` is pushed and takes the place of `x.` in entry `i`. */
  lemma PushLong(s: State, i: nat) returns (s': State)
    requires Shaped(s.d, s.dict) && i < |s.dict| && Named(s.d, s.dict[i], Short()) && s.dict[i] <= 0x3fff
    requires forall x :: 0 <= x < |s.dict| ==> !Named(s.d, s.dict[x], Long())
    requires forall x :: 0 <= x < i ==> s.dict[x] >= |s.d|
    ensures Next(s, s') && s' == State(s.d + LabelAndPtr(W, s.dict[i]) + FIELDS, s.dict[i := |s.d|], s.late)
  {
    hide Writes, Short, Long, One, LabelAndPtr, Shaped, DictOf, LateOf, Named, WrittenPtr, Search, Found, AllListed, GoodName, Pos;
    var q := s.dict[i];
    Letters();
    FindShorter(s.d, s.dict, i);
    StartPos(s.d, q);
    PointerWritten(s.d, W, q);
    WritesPointer(s, Long(), LabelAndPtr(W, q), Match(1, 1, i, 0));
    NamedInside(s.d, q, Short());
    FirstOf(s.dict, i);
    s' := State(s.d + LabelAndPtr(W, q) + FIELDS, DictOf(s, Long()), LateOf(s, Long()));
    PushIsNext(s, Long(), LabelAndPtr(W, q), s');
  }

  lemma NotLong(d: seq<Byte>, p: nat)
    requires Named(d, p, Short())
    ensures !Named(d, p, Long())
  {
  }

  /** A record is refused behind `y.w.x.`, whose name takes the place of `w.x.` in entry `i`. */
  lemma RefuseLonger(s: State, i: nat) returns (s': State)
    requires Shaped(s.d, s.dict) && i < |s.dict| && Named(s.d, s.dict[i], Long()) && s.dict[i] <= 0x3fff
    requires forall x :: 0 <= x < i ==> !Named(s.d, s.dict[x], Long())
    ensures Next(s, s') && s' == State(s.d, s.dict[i := |s.d|], s.late)
  {
    hide Writes, Short, Long, Longer, One, LabelAndPtr, Shaped, DictOf, LateOf, Named, WrittenPtr, Search, Found, AllListed, GoodName, Pos;
    var q := s.dict[i];
    Letters();
    FindLonger(s.d, s.dict, i);
    StartPos(s.d, q);
    PointerWritten(s.d, Y, q);
    WritesPointer(s, Longer(), LabelAndPtr(Y, q), Match(1, 1, i, 0));
    FirstOf(s.dict, i);
    s' := State(s.d, DictOf(s, Longer()), LateOf(s, Longer()));
    assert Refuses(s, Longer(), LabelAndPtr(Y, q), s');
  }

  /** The name `x.` is pushed: a pointer to the pointer of `w.x.` in entry `i`. */
  lemma PushShort(s: State, i: nat) returns (s': State)
    requires Shaped(s.d, s.dict) && i < |s.dict| && Named(s.d, s.dict[i], Long())
    requires Pos(s.d, s.dict[i], 1) == s.dict[i] + 2 <= 0x3fff
    requires forall x :: 0 <= x < i ==> s.dict[x] >= |s.d|
    ensures Pushes(s, Short(), PtrBytes(s.dict[i] + 2), s')
    ensures s' == State(s.d + PtrBytes(s.dict[i] + 2) + FIELDS,
                        if |s.dict| < DICTSIZE then s.dict + [|s.d|] else s.dict,
                        if |s.dict| >= DICTSIZE && |s.d| in s.dict then s.late + 1 else s.late)
  {
    hide Writes, Short, Long, Longer, One, PtrBytes, Shaped, DictOf, LateOf, Named, WrittenPtr, Search, Found, AllListed, GoodName, Pos;
    var q := s.dict[i];
    Letters();
    FindSecond(s.d, s.dict, i);
    PointerWritten(s.d, X, q + 2);
    WritesPointer(s, Short(), PtrBytes(q + 2), Match(0, 0, i, 1));
    s' := State(s.d + PtrBytes(q + 2) + FIELDS, DictOf(s, Short()), LateOf(s, Short()));
  }

  lemma PushIsNext(s: State, ls: seq<Label>, e: seq<Byte>, s': State)
    requires Pushes(s, ls, e, s')
    ensures Next(s, s')
  {
  }

  // ----- What is read after each of them --------------------------------------------------------------

  lemma ShortPointable(d: seq<Byte>, a: nat)
    requires Named(d, a, Short()) && Hops(d, a) < MAXPTRS
    ensures Pointable(d, a) && Name(d, a) == Some(Short()) && forall l | l in Short() :: 0 !in l
  {
    hide Labels, Shallow;
    Letters();
  }

  lemma LongRead(d: seq<Byte>, a: nat)
    requires Named(d, a, Short()) && a <= 0x3fff && Hops(d, a) < MAXPTRS
    ensures var f := d + LabelAndPtr(W, a) + FIELDS;
            && Named(f, |d|, Long())
            && Pos(f, |d|, 1) == |d| + 2 && Hops(f, |d| + 2) == 1 + Hops(d, a)
  {
    hide Labels, Hops, WrittenPtr, Pos, PtrBytes, Shallow, Stored, Pointable, FoldLabel, GoodName;
    hide Short, Long, Longer, LabelAndPtr;
    Letters();
    ShortPointable(d, a);
    PointerWritten(d, W, a);
    OneLabel(W);
    PointerRead(d, LabelAndPtr(W, a), FIELDS, One(W), a);
  }

  lemma SecondPointable(d: seq<Byte>, w: nat)
    requires Named(d, w, Long()) && Pos(d, w, 1) == w + 2 && Hops(d, w + 2) < MAXPTRS
    ensures Pointable(d, w + 2) && Name(d, w + 2) == Some(Short()) && forall l | l in Short() :: 0 !in l
  {
    hide Labels, Pos, FoldLabel, Short, Long, Longer, One;
    Letters();
    NamePos(d, w, 1);
    ShallowPos(d, w, 1);
    EntryInside(d, w + 2);
  }

  lemma EntryInside(d: seq<Byte>, p: nat)
    requires Name(d, p).Some?
    ensures p < |d|
  {
  }

  lemma ShortRead(d: seq<Byte>, w: nat)
    requires Named(d, w, Long()) && Pos(d, w, 1) == w + 2 <= 0x3fff && Hops(d, w + 2) < MAXPTRS
    ensures var f := d + PtrBytes(w + 2) + FIELDS;
            Named(f, |d|, Short()) && Hops(f, |d|) == 1 + Hops(d, w + 2)
  {
    hide Labels, Hops, WrittenPtr, Pos, Stored, PtrBytes, Shallow, Pointable, FoldLabel, GoodName;
    hide Short, Long, Longer, LabelAndPtr;
    Letters();
    SecondPointable(d, w);
    PointerWritten(d, X, w + 2);
    GoodNothing();
    PointerRead(d, PtrBytes(w + 2), FIELDS, [], w + 2);
  }

  lemma GoodNothing()
    ensures GoodName([]) && WireLen([]) == 0
  {
  }

  // ----- Round after round ------------------------------------------------------------------------

  /** The entries behind the first two are all `x.` */
  predicate RestShort(d: seq<Byte>, dict: seq<nat>) {
    2 <= |dict| <= DICTSIZE && forall x {:trigger dict[x]} :: 2 <= x < |dict| ==> Named(d, dict[x], Short())
  }

  /** Every round has added an entry, or a late name. */
  predicate Counted(s: State, n: nat) { n + 2 == |s.dict| + s.late && (s.late > 0 ==> |s.dict| == DICTSIZE) }

  /** After `n` rounds: two entries are `w.x.`, whose second label is read over `2 n + 3` pointers. */
  ghost predicate Wound(s: State, n: nat) {
    && RestShort(s.d, s.dict) && Counted(s, n) && |s.d| <= 60 + 14 * n
    && var w := s.dict[0];
       && s.dict[1] == w && Named(s.d, w, Long()) && w + 2 < |s.d|
       && Pos(s.d, w, 1) == w + 2 && Hops(s.d, w + 2) == 2 * n + 3
  }

  /** Half-way to it: entry `i` is `w.x.`, and the other one `x.`, read over `2 n + 2` pointers. */
  ghost predicate Half(s: State, i: nat, n: nat) {
    && i < 2 && RestShort(s.d, s.dict) && Counted(s, n) && |s.d| <= 52 + 14 * n
    && Named(s.d, s.dict[i], Long()) && Named(s.d, s.dict[1 - i], Short()) && Hops(s.d, s.dict[1 - i]) == 2 * n + 2
  }

  lemma WoundShaped(s: State, n: nat)
    requires Wound(s, n)
    ensures Shaped(s.d, s.dict) && Shaped(s.d, s.dict[0 := |s.d|])
  {
    hide Stored, Labels, Pos, Hops, Short, Long;
  }

  lemma HalfShaped(s: State, i: nat, n: nat)
    requires Half(s, i, n)
    ensures Shaped(s.d, s.dict) && Shaped(s.d, s.dict[i := |s.d|])
    ensures forall x :: 0 <= x < i ==> !Named(s.d, s.dict[x], Long())
    ensures var dict' := s.dict[i := |s.d|]; forall x :: 0 <= x < |dict'| ==> !Named(s.d, dict'[x], Long())
  {
    hide Stored, Labels, Hops, Short, Long, Named;
    forall x | 0 <= x < |s.dict| && x != i ensures !Named(s.d, s.dict[x], Long()) { NotLong(s.d, s.dict[x]); }
    if Named(s.d, |s.d|, Long()) { NamedInside(s.d, |s.d|, Long()); }
  }

  lemma RestStays(d: seq<Byte>, e: seq<Byte>, dict: seq<nat>)
    requires RestShort(d, dict)
    ensures RestShort(d + e + FIELDS, dict)
  {
    hide Named, Short;
    forall x | 2 <= x < |dict| ensures Named(d + e + FIELDS, dict[x], Short()) { NamedStays(d, e, dict[x], Short()); }
  }

  /** Only the first two entries are replaced, and `x.` is appended while there is room. */
  lemma RestReplaced(d: seq<Byte>, dict: seq<nat>, i: nat, p: nat)
    requires RestShort(d, dict) && i < 2
    ensures RestShort(d, dict[i := p])
  {
    hide Named, Short;
  }

  lemma RestLonger(d: seq<Byte>, dict: seq<nat>, p: nat)
    requires RestShort(d, dict) && Named(d, p, Short())
    ensures RestShort(d, if |dict| < DICTSIZE then dict + [p] else dict)
  {
    hide Named, Short;
  }

  /** What `x.` leaves behind. */
  lemma HalfReached(s: State, w: nat, n: nat, t: State)
    requires Wound(s, n) && n < 62 && w == s.dict[0] && w + 2 <= 0x3fff
    requires var dict := s.dict[0 := |s.d|];
             t == State(s.d + PtrBytes(w + 2) + FIELDS,
                        if |dict| < DICTSIZE then dict + [|s.d|] else dict,
                        if |dict| >= DICTSIZE && |s.d| in dict then s.late + 1 else s.late)
    ensures Half(t, 1, n + 1)
  {
    hide Labels, Hops, Pos, Named, Short, Long, PtrBytes, RestShort;
    var d, dict := s.d, s.dict[0 := |s.d|];
    SizeOf(d, s.dict);
    assert dict[0] == |d|;
    ShortRead(d, w);
    NamedStays(d, PtrBytes(w + 2), w, Long());
    RestReplaced(d, s.dict, 0, |d|);
    RestStays(d, PtrBytes(w + 2), dict);
    RestLonger(t.d, dict, |d|);
    PointerWritten(d, X, w + 2);
  }

  lemma SizeOf(d: seq<Byte>, dict: seq<nat>)
    requires RestShort(d, dict)
    ensures 2 <= |dict| <= DICTSIZE
  {
  }

  /** A record is refused behind `y.w.x.`, and `x.` is pushed. */
  lemma FirstHalf(ss: seq<State>, n: nat) returns (ts: seq<State>)
    requires ss != [] && Run(ss) && Wound(ss[|ss| - 1], n) && n < 62
    ensures ts != [] && Run(ts) && Half(ts[|ts| - 1], 1, n + 1)
  {
    hide Run, Next, Pushes, Labels, Hops, Pos, Named, Shaped, Short, Long, PtrBytes, RestShort, Counted, Half;
    var s := ss[|ss| - 1];
    SizeOf(s.d, s.dict);
    var w := s.dict[0];
    WoundShaped(s, n);
    NamedInside(s.d, w, Long());
    var s1 := RefuseLonger(s, 0);
    var s2 := PushShort(s1, 1);
    PushIsNext(s1, Short(), PtrBytes(w + 2), s2);
    HalfReached(s, w, n, s2);
    Extend(ss, s1);
    Extend(ss + [s1], s2);
    ts := ss + [s1] + [s2];
  }

  /** What `w.x.` leaves behind. */
  lemma WoundReached(s: State, i: nat, n: nat, t: State)
    requires Half(s, i, n) && n <= 62 && s.dict[1 - i] <= 0x3fff
    requires t == State(s.d + LabelAndPtr(W, s.dict[1 - i]) + FIELDS, s.dict[i := |s.d|][1 - i := |s.d|], s.late)
    ensures Wound(t, n)
  {
    hide Labels, Hops, Pos, Named, Short, Long, LabelAndPtr, RestShort;
    var d, a := s.d, s.dict[1 - i];
    SizeOf(d, s.dict);
    LongRead(d, a);
    RestReplaced(d, s.dict, i, |d|);
    RestReplaced(d, s.dict[i := |d|], 1 - i, |d|);
    RestStays(d, LabelAndPtr(W, a), t.dict);
    PointerWritten(d, W, a);
  }

  /** Another one is refused behind `y.w.x.`, and `w.x.` is pushed. */
  lemma SecondHalf(ss: seq<State>, i: nat, n: nat) returns (ts: seq<State>)
    requires ss != [] && Run(ss) && Half(ss[|ss| - 1], i, n) && n <= 62
    ensures ts != [] && Run(ts) && Wound(ts[|ts| - 1], n)
  {
    hide Run, Next, Labels, Hops, Pos, Named, Shaped, Short, Long, LabelAndPtr, RestShort, Counted, Wound;
    var s := ss[|ss| - 1];
    SizeOf(s.d, s.dict);
    HalfShaped(s, i, n);
    NamedInside(s.d, s.dict[i], Long());
    NamedInside(s.d, s.dict[1 - i], Short());
    var s1 := RefuseLonger(s, i);
    var s2 := PushLong(s1, 1 - i);
    WoundReached(s, i, n, s2);
    Extend(ss, s1);
    Extend(ss + [s1], s2);
    ts := ss + [s1] + [s2];
  }

  // ----- The first names ------------------------------------------------------------------------------

  /** The name `x.` is pushed, and `w.x.`, which takes its place, and `x.` again. */
  lemma FirstNames() returns (ss: seq<State>)
    ensures ss != [] && Run(ss) && Half(ss[|ss| - 1], 0, 0)
  {
    hide Next, Pushes, Labels, Hops, Pos, Named, Short, Long, PtrBytes, LabelAndPtr, Stored, Search;
    var s0 := State(Header(), [], 0);
    var s1 := PushFirst(s0);
    var s2 := PushLong(s1, 0);
    LongRead(s1.d, 12);
    PointerWritten(s1.d, W, 12);
    var s3 := PushShort(s2, 0);
    PushIsNext(s2, Short(), PtrBytes(21), s3);
    ShortRead(s2.d, 19);
    PointerWritten(s2.d, X, 21);
    NamedStays(s2.d, PtrBytes(21), 19, Long());
    ss := [s0, s1, s2, s3];
  }

  lemma PushFirst(s: State) returns (s': State)
    requires s == State(Header(), [], 0)
    ensures Next(s, s') && s' == State(s.d + [1, X, 0] + FIELDS, [12], 0)
    ensures Named(s'.d, 12, Short()) && Hops(s'.d, 12) == 0 && Shaped(s'.d, [12]) && !Named(s'.d, 12, Long())
  {
    hide Stored, Search, Labels, Hops, Short, Long;
    var d, e := s.d, [1, X, 0];
    Letters();
    SearchNothing(d, s.dict, Short());
    ShortIsOne();
    LabelWritten(d, X);
    WholeReads(d, e, Short());
    StartPos(d + e, |d|);
    NamedStays(d + e, [], |d|, Short());
    HopsPrefix(d + e, FIELDS, |d|, |d|);
    assert d + e + [] + FIELDS == d + e + FIELDS;
    s' := State(d + e + FIELDS, [12], 0);
    NotLong(s'.d, 12);
    PushIsNext(s, Short(), e, s');
  }

  lemma ShortIsOne()
    ensures Short() == One(X)
  {
  }

  lemma {:induction false} Rounds(n: nat) returns (ss: seq<State>)
    requires n <= 62
    ensures ss != [] && Run(ss) && Wound(ss[|ss| - 1], n)
  {
    hide Run, Wound, Half;
    if n == 0 {
      ss := FirstNames();
      ss := SecondHalf(ss, 0, 0);
    } else {
      ss := Rounds(n - 1);
      ss := FirstHalf(ss, n - 1);
      ss := SecondHalf(ss, 1, n);
    }
  }

  // ----- A name that is lost ----------------------------------------------------------------------

  /** The bound of 47 late names cannot be raised: after 62 rounds, of which fourteen have filled the table
      and 48 have made late names, a record is refused behind `y.w.x.`; then the name `x.` is pushed
      without an error, and its expansion fails. */
  lemma LateNameLost() returns (ss: seq<State>, e: seq<Byte>, s': State)
    ensures ss != [] && Run(ss) && ss[|ss| - 1].late == LATE + 1 && Pushes(ss[|ss| - 1], Short(), e, s')
    ensures var p := |ss[|ss| - 1].d|;
            && !Stored(s'.d, p) && |s'.d| <= OFFSETS && Ends(s'.d, p)
            && forall k: nat {:trigger ExpandTurns(s'.d, p, 0, k)} ::
                 ExpandTurns(s'.d, p, 0, k).None? ==> Outcome(s'.d, p, 0, [], k) == None
  {
    hide Run, Pushes, Stored, Labels, Hops, Short, Long, Pos, PtrBytes, Outcome, ExpandTurns, Shaped;
    ss := Rounds(62);
    var s := ss[|ss| - 1];
    SizeOf(s.d, s.dict);
    var w := s.dict[0];
    WoundShaped(s, 62);
    NamedInside(s.d, w, Long());
    var s1 := RefuseLonger(s, 0);
    Extend(ss, s1);
    ss := ss + [s1];
    s' := PushShort(s1, 1);
    e := PtrBytes(w + 2);
    SecondName(s.d, w);
    PointerWritten(s.d, X, w + 2);
    TooManyPointers(s.d, w + 2);
    var end := PointersEnd(s'.d, |s.d|, 0);
    forall k: nat | ExpandTurns(s'.d, |s.d|, 0, k).None? ensures Outcome(s'.d, |s.d|, 0, [], k) == None {
      PointersFail(s'.d, |s.d|, 0, [], k);
    }
  }

  lemma SecondName(d: seq<Byte>, w: nat)
    requires Named(d, w, Long()) && Pos(d, w, 1) == w + 2
    ensures Name(d, w + 2).Some?
  {
    NamePos(d, w, 1);
  }

  lemma TooManyPointers(d: seq<Byte>, q: nat)
    requires Name(d, q).Some? && q <= 0x3fff && Hops(d, q) == MAXPTRS
    ensures var f := d + PtrBytes(q) + FIELDS;
            Hops(f, |d|) == MAXPTRS + 1 && !Stored(f, |d|)
  {
    hide PtrBytes, Labels, Shallow, Hops, Home, After, WrittenPtr, Pos, WireLen;
    EntryInside(d, q);
    PointerWritten(d, X, q);
    PtrTooFar(d, PtrBytes(q), [], q);
    GoodNothing();
    var f := d + PtrBytes(q);
    HopsPrefix(f, FIELDS, |d|, |d|);
    if Stored(f + FIELDS, |d|) {
      ShallowPos(f + FIELDS, |d|, 0);
      StartPos(f + FIELDS, |d|);
    }
  }
}
