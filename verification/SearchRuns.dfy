/** The searches in a run of pushes: they end while the drafts are sound; and a run in which a record
    refused behind the host in its data leads to one that never ends
    (libs/async/src/dns/dns.c:1279-1387, 1698-1736, 2657-2683). */
module SearchRuns {
  import opened Bytes
  import opened Drafts
  import opened ExpandLoop
  import opened Messages
  import opened NameAlike
  import opened NameSearch
  import opened NameSkip
  import opened NameSpec
  import opened NameTable
  import opened RecordBuilding
  import opened Records
  import opened SearchLoop
  import NamePacket
  import PacketRecords

  /** The search ends for every name of a record, as long as the draft is sound. */
  lemma SearchesEnd(ms: seq<Message>, ps: seq<Piece>, ls: seq<Label>)
    requires Run(ms) && AllPossible(Begin(ms[|ms| - 1]), ps)
    requires var s := PutAll(Begin(ms[|ms| - 1]), ps); s.sound && |s.bytes| < OFFSETS
    ensures var s := PutAll(Begin(ms[|ms| - 1]), ps); SearchEnds(s.bytes, s.dict, ls)
  {
    hide Run, RecordsInv, TableInv, AllListed, SearchEnds, AllPossible, NamesAt, NoRepeats, AllPlain, EveryRight, NoneRepeated;
    RunInv(ms);
    var m := ms[|ms| - 1];
    SoundBefore(Begin(m), ps);
    NamePacket.TableListed(m.bytes, m.dict, m.late);
    AlikeSelf(m.bytes, m.dict);
    SelfTwins(ps);
    Followed(Begin(m), ps, ps, m.bytes);
    var s := PutAll(Begin(m), ps);
    BothListed(s.bytes, m.bytes + Flat(ps), s.dict, s.late);
    ListedEnds(s.bytes, s.dict, ls);
  }

  lemma SelfTwins(ps: seq<Piece>)
    ensures Twins(ps, ps)
  {
  }

  // ----- A search that never ends --------------------------------------------------------------------

  const A: Byte := 97

  /** The name of the one label `c`. */
  function One(c: Byte): seq<Label> { [[c]] }

  /** A name in full, for which the search finds nothing. */
  function InFull(ls: seq<Label>, e: seq<Byte>): Piece { Host(ls, e, None, None, true) }

  ghost predicate FoundNowhere(s: Draft, p: Piece) {
    && p.Host? && p.x == None && p.target == None && p.listed
    && GoodName(p.ls) && Encoded(p.e) && WrittenWhole(s.bytes, p.e, p.ls)
    && AllListed(s.bytes, s.dict) && Search(s.bytes, s.dict, p.ls, 0) == None
  }

  lemma FullPossible(s: Draft, p: Piece)
    requires FoundNowhere(s, p)
    ensures Possible(s, p) && Put(s, p).bytes == s.bytes + p.e
    ensures |s.dict| < DICTSIZE ==> Put(s, p).dict == s.dict + [|s.bytes|]
  {
    hide AllListed, WrittenWhole;
  }

  predicate AllRaw(ps: seq<Piece>) { forall i :: 0 <= i < |ps| ==> ps[i].Raw? }

  lemma {:induction false} RawsPossible(s: Draft, ps: seq<Piece>)
    requires AllRaw(ps)
    ensures AllPossible(s, ps) && PutAll(s, ps).dict == s.dict && PutAll(s, ps).bytes == s.bytes + Flat(ps)
    decreases ps
  {
    if ps != [] { RawsPossible(Put(s, ps[0]), ps[1..]); }
  }

  lemma {:induction false} PutBoth(s: Draft, a: seq<Piece>, b: seq<Piece>)
    ensures PutAll(s, a + b) == PutAll(PutAll(s, a), b)
    ensures AllPossible(s, a + b) <==> AllPossible(s, a) && AllPossible(PutAll(s, a), b)
    decreases a
  {
    hide Put, Possible;
    if a == [] {
      assert a + b == b;
    } else {
      assert (a + b)[1..] == a[1..] + b;
      PutBoth(Put(s, a[0]), a[1..], b);
    }
  }

  /** A name in full and then other bytes. */
  lemma FullThenRaw(s: Draft, p: Piece, ps: seq<Piece>)
    requires FoundNowhere(s, p) && |s.dict| < DICTSIZE && AllRaw(ps)
    ensures var t := PutAll(s, [p] + ps);
            AllPossible(s, [p] + ps) && t.dict == s.dict + [|s.bytes|] && t.bytes == s.bytes + p.e + Flat(ps)
  {
    hide Possible, Put, FoundNowhere;
    FullPossible(s, p);
    RawsPossible(Put(s, p), ps);
    assert ([p] + ps)[1..] == ps;
  }

  /** A record is pushed whose data holds no names. */
  lemma PushesRaw(m: Message, r: Record, ls: seq<Label>) returns (m': Message)
    requires FoundNowhere(Begin(m), InFull(ls, r.name)) && |m.dict| < DICTSIZE && DataOf(r.kind, [Raw(r.rdata)])
    requires Fields(r) && r.section != QD && PacketRecords.InOrder(m.records, r.section) && |m.bytes + Enc(r)| < OFFSETS
    ensures Step(m, m') && m'.bytes == m.bytes + Enc(r) && m'.dict == m.dict + [|m.bytes|] && m'.records == m.records + [r]
  {
    hide FoundNowhere, Fields, PacketRecords.InOrder, Enc, Memoize, CountsOf, Names, PutAll, AllPossible, Fixed, Ttl;
    var owner, w, data := InFull(ls, r.name), [0, 0], [Raw(r.rdata)];
    var ps := [Raw(Fixed(r)), Raw(Ttl(r.ttl)), Raw(w)] + data;
    assert Whole(r, owner, w, data) == [owner] + ps;
    FullThenRaw(Begin(m), owner, ps);
    FlatOne(r.rdata);
    var s := PutAll(Begin(m), Whole(r, owner, w, data));
    m' := Message(m.bytes + Enc(r), s.dict, s.late, m.records + [r],
                  if s.sound then m.names + [Names(|m.bytes|, Whole(r, owner, w, data))] else m.names,
                  s.sound, m.beyond, Memoize(m.memos, r.section, m.bytes + Enc(r), CountsOf(m.records)));
    assert PushedStep(m, r, owner, w, data, m');
  }

  lemma FlatOne(b: seq<Byte>)
    ensures Flat([Raw(b)]) == b
  {
    assert [Raw(b)][1..] == [];
  }

  // ----- The bytes of the run ----------------------------------------------------------------------------

  /** An address record of the root. */
  function RootRecord(s: Section): Record { Record(s, [0], 1, 1, 0, [1, 2, 3, 4]) }

  function MxRecord(): Record { Record(AN, [1, A, 0], TYPE_MX, 1, 0, [0, 1] + [1, Q, 0]) }

  /** A text record whose text is a byte, a label `x` where the host of the MX record stood, and a
      pointer to that label. */
  function TextRecord(): Record { Record(AR, [1, A, 0], 16, 1, 0, [5, 0, 1, X, 192, 57]) }

  /** The root twice, and the text record. */
  function TwoRoots(): seq<Byte> { Header() + Enc(RootRecord(AN)) + Enc(RootRecord(NS)) }

  function TrapPacket(): seq<Byte> { TwoRoots() + Enc(TextRecord()) }

  lemma TwoRootsBytes()
    ensures |TwoRoots()| == 42 && TwoRoots()[12] == 0 && TwoRoots()[27] == 0
    ensures |Enc(RootRecord(AN))| == 15 && |Enc(RootRecord(NS))| == 15
  {
  }

  lemma TrapBytes()
    ensures var d := TrapPacket();
            && |d| == 61 && d[12] == 0 && d[27] == 0 && d[42] == 1 && d[43] == A && d[44] == 0
            && d[57] == 1 && d[58] == X && d[59] == 192 && d[60] == 57
  {
    TwoRootsBytes();
    hide TwoRoots;
    assert Enc(TextRecord()) == [1, A, 0] + [0, 16, 0, 1] + [0, 0, 0, 0, 0, 6] + [5, 0, 1, X, 192, 57];
  }

  lemma RootStored(d: seq<Byte>, p: nat)
    requires p < |d| && d[p] == 0
    ensures Stored(d, p) && Name(d, p) == Some([])
  {
  }

  lemma OneStored(d: seq<Byte>, p: nat, c: Byte)
    requires p + 3 <= |d| && d[p] == 1 && d[p + 1] == c && d[p + 2] == 0 && c != 0
    ensures Stored(d, p) && Name(d, p) == Some(One(c))
  {
    assert d[p + 1..p + 2] == [c];
    assert Labels(d, p, p + 2) == Some([]);
    assert [[c]] + [] == [[c]];
  }

  lemma StoredReturnsNot(d: seq<Byte>, p: nat)
    requires |d| < OFFSETS && Stored(d, p)
    ensures !Returns(d, p)
  {
    StoredEnds(d, p);
    EndsIff(d, p);
  }

  /** The labels from 57 on lead back to 59. */
  lemma TrapReturns()
    ensures |TrapPacket()| < OFFSETS && Returns(TrapPacket(), 57)
  {
    hide TrapPacket;
    TrapBytes();
    var d := TrapPacket();
    assert ExpandTurn(d, 57, 0) == ExpandTurn(d, 57, 1) == Some((59, 0));
    assert ExpandTurn(d, 59, 0) == Some((57, 1));
    assert OffsetAfter(d, 57, 1) == Some(59);
    assert LabelTurn(d, 59, 0) == LabelTurn(d, 57, 1) == Some(59);
    assert OffsetAfter(d, 57, 2) == Some(59);
  }

  /** Nothing of the name of the one label `l` is found in a root, or in another label. */
  lemma ScanRoot(d: seq<Byte>, ls: seq<Label>, p: nat)
    requires ls != [] && p < |d| && d[p] == 0
    ensures ScanWhole(d, ls, 0, 0, p) == Over(0)
  {
    assert d[p + 1..p + 1] == [];
  }

  lemma ScanOne(d: seq<Byte>, ls: seq<Label>, p: nat, c: Byte)
    requires GoodName(ls) && ls != [] && p + 3 <= |d| && d[p] == 1 && d[p + 1] == c && d[p + 2] == 0 && !StrCaseEq(ls[0], [c])
    ensures ScanWhole(d, ls, 0, 0, p) == Over(0)
  {
    hide StrCaseEq;
    assert d[p + 1..p + 2] == [c];
    assert d[p + 3..p + 3] == [];
    assert ReadLabel(d, p, 0) == ([c], p + 2) && ReadLabel(d, p + 2, 0) == ([], p + 3);
    assert Compare(d, p, Candidate(ls, 0, 0)) == (0, false);
    assert ScanLabels(d, ls, 0, 0, p + 2, |d| + 1) == Over(0);
  }

  /** The name `zz.` */
  function Sleep(): seq<Label> { [[Z, Z]] }

  /** The search goes on behind an entry that it leaves. */
  lemma StuckBehind(d: seq<Byte>, dict: seq<nat>, ls: seq<Label>, i: nat)
    requires |d| < OFFSETS && ls != [] && i < |dict| && !Returns(d, dict[i])
    requires ScanWhole(d, ls, 0, 0, dict[i]) == Over(0) && Stuck(d, dict, ls, 0, i + 1)
    ensures Stuck(d, dict, ls, 0, i)
  {
  }

  lemma StuckHere(d: seq<Byte>, dict: seq<nat>, ls: seq<Label>, i: nat)
    requires |d| < OFFSETS && ls != [] && i < |dict| && Returns(d, dict[i])
    ensures Stuck(d, dict, ls, 0, i)
  {
  }

  lemma TrapStuck()
    ensures |TrapPacket()| < OFFSETS && Stuck(TrapPacket(), [12, 27, 42, 57, 42], Sleep(), 0, 0)
  {
    hide TrapPacket, ScanWhole, Returns, Stored, Stuck, StrCaseEq;
    TrapBytes();
    TrapReturns();
    var d, dict, ls := TrapPacket(), [12, 27, 42, 57, 42], Sleep();
    assert GoodName(ls) && !StrCaseEq(ls[0], [A]) by {
      StrCaseEqIsFold(ls[0], [A]);
      assert |FoldLabel(ls[0])| == 2;
    }
    RootStored(d, 12);
    RootStored(d, 27);
    OneStored(d, 42, A);
    StoredReturnsNot(d, 12);
    StoredReturnsNot(d, 27);
    StoredReturnsNot(d, 42);
    ScanRoot(d, ls, 12);
    ScanRoot(d, ls, 27);
    ScanOne(d, ls, 42, A);
    StuckHere(d, dict, ls, 3);
    StuckBehind(d, dict, ls, 2);
    StuckBehind(d, dict, ls, 1);
    StuckBehind(d, dict, ls, 0);
  }

  // ----- The run ------------------------------------------------------------------------------------------

  lemma RootNowhere(s: Draft)
    requires AllListed(s.bytes, s.dict)
    ensures FoundNowhere(s, InFull([], [0]))
  {
    hide AllListed;
  }

  lemma OneWritten(d: seq<Byte>, c: Byte)
    requires c != 0 && c != DOT
    ensures GoodName(One(c)) && WrittenWhole(d, [1, c, 0], One(c)) && Encoded([1, c, 0])
  {
    assert (d + [1, c, 0])[|d| + 1..|d| + 2] == [c];
    assert WireAt(d + [1, c, 0], |d| + 2, []);
    assert [1, c, 0][2..] == [0];
    assert One(c)[1..] == [] && WireLen(One(c)) == 2;
  }

  lemma OneNowhere(s: Draft, c: Byte)
    requires c != 0 && c != DOT && AllListed(s.bytes, s.dict)
    requires forall i :: 0 <= i < |s.dict| ==> !HasLabel(Entry(s.bytes, s.dict, i), [c])
    ensures FoundNowhere(s, InFull(One(c), [1, c, 0]))
  {
    hide AllListed, Search, WrittenWhole, HasLabel, Encoded;
    OneWritten(s.bytes, c);
    SearchNothing(s.bytes, s.dict, One(c));
  }

  /** Addresses of the root are pushed into two sections. */
  lemma TwoRootsPushed() returns (ms: seq<Message>)
    ensures |ms| == 3 && Run(ms) && ms[2].bytes == TwoRoots() && ms[2].dict == [12, 27]
    ensures ms[2].records == [RootRecord(AN), RootRecord(NS)]
  {
    hide Step, Enc, FoundNowhere, Stored;
    var m0 := Message(Header(), [], 0, [], [], true, false, UNSTUDIED);
    TwoRootsBytes();
    RootNowhere(Begin(m0));
    var m1 := PushesRaw(m0, RootRecord(AN), []);
    RootStored(m1.bytes, 12);
    RootNowhere(Begin(m1));
    var m2 := PushesRaw(m1, RootRecord(NS), []);
    ms := [m0, m1, m2];
  }

  /** The pieces of the MX record before its host. */
  function MxFields(r: Record, w: seq<Byte>): seq<Piece> { [Raw(Fixed(r)), Raw(Ttl(r.ttl)), Raw(w), Raw([0, 1])] }

  function MxOwner(): Piece { InFull(One(A), [1, A, 0]) }

  function MxHost(): Piece { InFull(One(Q), [1, Q, 0]) }

  lemma MxWhole(w: seq<Byte>)
    requires |w| == 2
    ensures RecordOf(MxRecord(), MxOwner(), w, [Raw([0, 1]), MxHost()])
    ensures Whole(MxRecord(), MxOwner(), w, [Raw([0, 1]), MxHost()]) == ([MxOwner()] + MxFields(MxRecord(), w)) + [MxHost()]
    ensures Whole(MxRecord(), MxOwner(), w, [Raw([0, 1]), MxHost()])[1..] == MxFields(MxRecord(), w) + [MxHost()]
    ensures AllRaw(MxFields(MxRecord(), w)) && |Flat(MxFields(MxRecord(), w))| == 12
  {
    hide Fixed, Ttl, Encoded;
    var r := MxRecord();
    FieldSizes(r);
    FlatTwo(Raw([0, 1]), MxHost(), []);
    assert [Raw([0, 1]), MxHost()] + [] == [Raw([0, 1]), MxHost()];
    FlatTwo(Raw(Fixed(r)), Raw(Ttl(r.ttl)), [Raw(w), Raw([0, 1])]);
    FlatTwo(Raw(w), Raw([0, 1]), []);
    assert [Raw(w), Raw([0, 1])] + [] == [Raw(w), Raw([0, 1])];
  }

  lemma NoLabel(l: Label)
    ensures !HasLabel([], l)
  {
  }

  /** What the table reads while the MX record is written: `a.` and two roots. */
  lemma MxListed(d: seq<Byte>)
    requires |d| == 57 && d[12] == 0 && d[27] == 0 && d[42] == 1 && d[43] == A && d[44] == 0
    ensures var dict := [12, 27, 42];
            AllListed(d, dict) && forall i :: 0 <= i < |dict| ==> !HasLabel(Entry(d, dict, i), [Q])
  {
    hide Stored, Labels;
    RootStored(d, 12);
    RootStored(d, 27);
    OneStored(d, 42, A);
    NoLabel([Q]);
    assert FoldLabel([A])[0] == A && FoldLabel([Q])[0] == Q;
    var dict := [12, 27, 42];
    assert Entry(d, dict, 0) == Entry(d, dict, 1) == [] && Entry(d, dict, 2) == One(A);
  }

  /** An MX record is written up to its host `q.`, which goes into the table, and refused. */
  lemma MxRefused(m: Message) returns (m': Message)
    requires m.bytes == TwoRoots() && m.dict == [12, 27]
    ensures Step(m, m') && m'.dict == [12, 27, 42, 57] && m'.bytes == m.bytes && m'.records == m.records && m'.beyond
  {
    hide Step, RefusedStep, Enc, Stored, FoundNowhere, HasLabel, AllPossible, PutAll, Possible, Put, RecordOf, AllListed, Whole;
    var w := [0, 0];
    var r, s, data := MxRecord(), Begin(m), [Raw([0, 1]), MxHost()];
    var front := [MxOwner()] + MxFields(r, w);
    TwoRootsBytes();
    MxWhole(w);
    RootsListed(m.bytes);
    OneNowhere(s, A);
    FullThenRaw(s, MxOwner(), MxFields(r, w));
    var t := PutAll(s, front);
    assert t.bytes[42] == 1 && t.bytes[43] == A && t.bytes[44] == 0;
    assert t.dict == [12, 27, 42];
    MxListed(t.bytes);
    OneNowhere(t, Q);
    FullThenRaw(t, MxHost(), []);
    PutBoth(s, front, [MxHost()]);
    assert [MxHost()] + [] == [MxHost()];
    var ps := Whole(r, MxOwner(), w, data);
    assert ps[1..][4] == MxHost();
    m' := RefusedWhole(m, r, MxOwner(), w, data);
  }

  /** A record is refused after all of it has been written. */
  lemma RefusedWhole(m: Message, r: Record, owner: Piece, w: seq<Byte>, data: seq<Piece>) returns (m': Message)
    requires RecordOf(r, owner, w, data) && AllPossible(Begin(m), Whole(r, owner, w, data))
    requires Lists(Whole(r, owner, w, data)[1..])
    ensures Step(m, m') && m' == m.(dict := PutAll(Begin(m), Whole(r, owner, w, data)).dict, late := m'.late, beyond := true)
  {
    hide RecordOf, AllPossible, PutAll;
    var ps := Whole(r, owner, w, data);
    assert ps[..|ps|] == ps;
    m' := m.(dict := PutAll(Begin(m), ps).dict, late := PutAll(Begin(m), ps).late, beyond := true);
    assert RefusedStep(m, r, owner, w, data, |ps|, m');
  }

  lemma RootsListed(d: seq<Byte>)
    requires |d| == 42 && d[12] == 0 && d[27] == 0
    ensures AllListed(d, [12, 27]) && AllListed(d, [12, 27, 42, 57])
    ensures forall i :: 0 <= i < 2 ==> !HasLabel(Entry(d, [12, 27], i), [A])
    ensures forall i :: 0 <= i < 4 ==> !HasLabel(Entry(d, [12, 27, 42, 57], i), [A])
  {
    hide Stored, Labels, HasLabel;
    RootStored(d, 12);
    RootStored(d, 27);
    NoLabel([A]);
  }

  /** Addresses of the root are pushed into the second and third section.  An MX record for the second,
      of `a.` with host `q.`, is refused because of the third; and a text record of `a.` is pushed, whose
      text has a label and a pointer to it at the offset of that host.  In each of them the search finds
      nothing.  For the name `zz.` it never ends. */
  lemma SearchCanLoop() returns (ms: seq<Message>)
    ensures Run(ms) && |ms| == 5 && ms[4].records == [RootRecord(AN), RootRecord(NS), TextRecord()]
    ensures !PacketRecords.InOrder(ms[2].records, AN) && ms[3].bytes == ms[2].bytes && ms[3].records == ms[2].records
    ensures !SearchEnds(ms[4].bytes, ms[4].dict, Sleep())
  {
    hide Run, Step, Enc, FoundNowhere, Stored, HasLabel, AllListed, SearchEnds, Stuck;
    ms := TwoRootsPushed();
    var m := MxRefused(ms[2]);
    TwoRootsBytes();
    TrapBytes();
    RootsListed(m.bytes);
    OneNowhere(Begin(m), A);
    var m' := PushesRaw(m, TextRecord(), One(A));
    assert ms[2].records[1].section == NS;
    ExtendRun(ms, m);
    ExtendRun(ms + [m], m');
    ms := ms + [m] + [m'];
    TrapStuck();
    assert ms[4].dict == [12, 27, 42, 57, 42];
    SearchEndsIff(TrapPacket(), ms[4].dict, Sleep());
  }

  lemma ExtendRun(ms: seq<Message>, m: Message)
    requires Run(ms) && Step(ms[|ms| - 1], m)
    ensures Run(ms + [m])
  {
    hide Step, Start;
    var ns := ms + [m];
    forall i | 0 <= i < |ns| - 1 ensures Step(ns[i], ns[i + 1]) {
      if i < |ms| - 1 { assert Step(ms[i], ms[i + 1]); }
    }
  }
}
