/** Whole messages: `dns_p_push` (libs/async/src/dns/dns.c:1279-1387) as one step on a buffer that
    holds names, table, records and memo together, with the names in the data of a record, and what is
    read back of every record after any run of such steps, refused ones included. */
module Messages {
  import opened Bytes
  import opened Drafts
  import opened ExpandLoop
  import opened NameAlike
  import opened NameSearch
  import opened NameSkip
  import opened NameSpec
  import opened NameTable
  import opened RecordBuilding
  import opened Records
  import NamePacket
  import PacketRecords

  /** `late` counts the names pushed onto a full table with an offset that a refused record had left.
      `beyond` tells that a record was refused after a name in its data had gone into the table.  The
      message is sound as long as all of its drafts were, and so long `names` has the names of every
      record: that of its owner, and then those in its data. */
  datatype Message = Message(bytes: seq<Byte>, dict: seq<nat>, late: nat, records: seq<Record>,
    names: seq<seq<Pushed>>, sound: bool, beyond: bool, memos: Memos)

  ghost predicate Start(m: Message) {
    && |m.bytes| == HEADER && m.dict == [] && m.late == 0
    && m.records == [] && m.names == [] && m.sound && !m.beyond && m.memos == UNSTUDIED
  }

  const TYPE_NS: nat := 2
  const TYPE_CNAME: nat := 5
  const TYPE_SOA: nat := 6
  const TYPE_PTR: nat := 12
  const TYPE_MX: nat := 15
  const TYPE_SRV: nat := 33

  predicate NameOnly(kind: nat) { kind == TYPE_NS || kind == TYPE_CNAME || kind == TYPE_PTR }

  predicate IsRaw(p: Piece, n: nat) { p.Raw? && |p.bytes| == n }

  /** What `dns_any_push` writes as the data of a record: `dns_d_push` adds its names to the table, and
      the target of an SRV record is compressed but not added. */
  predicate DataOf(kind: nat, ps: seq<Piece>) {
    if NameOnly(kind) then |ps| == 1 && ps[0].Host? && ps[0].listed
    else if kind == TYPE_MX then |ps| == 2 && IsRaw(ps[0], 2) && ps[1].Host? && ps[1].listed
    else if kind == TYPE_SOA then
      |ps| == 3 && ps[0].Host? && ps[0].listed && ps[1].Host? && ps[1].listed && IsRaw(ps[2], 20)
    else if kind == TYPE_SRV then |ps| == 2 && IsRaw(ps[0], 6) && ps[1].Host? && !ps[1].listed
    else |ps| == 1 && ps[0].Raw?
  }

  /** A record piece by piece, with `w` in the place of the length of its data. */
  function Whole(r: Record, owner: Piece, w: seq<Byte>, data: seq<Piece>): seq<Piece> {
    [owner, Raw(Fixed(r))] + if r.section == QD then [] else [Raw(Ttl(r.ttl)), Raw(w)] + data
  }

  predicate RecordOf(r: Record, owner: Piece, w: seq<Byte>, data: seq<Piece>) {
    && owner.Host? && owner.listed && r.name == owner.e
    && |w| == 2 && DataOf(r.kind, data) && r.rdata == Flat(data)
  }

  function Begin(m: Message): Draft { Draft(m.bytes, m.dict, m.late, m.sound) }

  /** A record is refused after some of its pieces have been written, or all: the packet ends where it
      did, and the table keeps what was put into it. */
  ghost predicate RefusedStep(m: Message, r: Record, owner: Piece, w: seq<Byte>, data: seq<Piece>, n: nat, m': Message) {
    && RecordOf(r, owner, w, data) && n <= |Whole(r, owner, w, data)|
    && var ps := Whole(r, owner, w, data)[..n];
       && AllPossible(Begin(m), ps)
       && m' == m.(dict := PutAll(Begin(m), ps).dict, late := PutAll(Begin(m), ps).late,
                   beyond := m.beyond || (n > 0 && Lists(ps[1..])))
  }

  /** A record is pushed.  The two bytes `w` in the place of the length are replaced at the end. */
  ghost predicate PushedStep(m: Message, r: Record, owner: Piece, w: seq<Byte>, data: seq<Piece>, m': Message) {
    && RecordOf(r, owner, w, data) && Fields(r)
    && PacketRecords.InOrder(m.records, r.section) && |m.bytes + Enc(r)| < OFFSETS
    && var ps := Whole(r, owner, w, data);
       && AllPossible(Begin(m), ps)
       && var s := PutAll(Begin(m), ps);
          m' == Message(m.bytes + Enc(r), s.dict, s.late, m.records + [r],
                        if s.sound then m.names + [Names(|m.bytes|, ps)] else m.names,
                        s.sound, m.beyond, Memoize(m.memos, r.section, m.bytes + Enc(r), CountsOf(m.records)))
  }

  ghost predicate Step(m: Message, m': Message) {
    || m' == m
    || (exists r, owner, w, data, n :: RefusedStep(m, r, owner, w, data, n, m'))
    || (exists r, owner, w, data :: PushedStep(m, r, owner, w, data, m'))
  }

  ghost predicate Run(ms: seq<Message>) {
    && ms != [] && Start(ms[0])
    && forall i {:trigger ms[i]} :: 0 <= i < |ms| - 1 ==> Step(ms[i], ms[i + 1])
  }

  // ----- The invariant ------------------------------------------------------------------------

  /** Where the names of a record stand: its owner at its start, and those in its data, which starts at
      `p`, where `dns_any_parse` looks for them. */
  ghost predicate InData(d: seq<Byte>, kind: nat, p: nat, ns: seq<Pushed>) {
    if NameOnly(kind) then |ns| == 1 && ns[0].at == p
    else if kind == TYPE_MX then |ns| == 1 && ns[0].at == p + 2
    else if kind == TYPE_SOA then |ns| == 2 && ns[0].at == p < ns[1].at <= |d| && Encoded(d[p..ns[1].at])
    else if kind == TYPE_SRV then |ns| == 1 && ns[0].at == p + 6
    else ns == []
  }

  ghost predicate Placed(d: seq<Byte>, r: Record, p: nat, ns: seq<Pushed>) {
    && ns != [] && ns[0].at == p
    && if r.section == QD then |ns| == 1 else InData(d, r.kind, p + |r.name| + 10, ns[1..])
  }

  ghost predicate NamesAt(m: Message, k: nat)
    requires k < |m.records| && k < |m.names|
  {
    Placed(m.bytes, m.records[k], Offset(m.records, k), m.names[k]) && AllBack(m.bytes, m.names[k])
  }

  /** No name of the records repeats a label. */
  predicate AllPlain(names: seq<seq<Pushed>>) { forall k {:trigger names[k]} :: 0 <= k < |names| ==> Plain(names[k]) }

  predicate EveryRight(names: seq<seq<Pushed>>) { forall k {:trigger names[k]} :: 0 <= k < |names| ==> AllRight(names[k]) }

  ghost predicate NamesInv(m: Message) {
    && |m.names| <= |m.records| && (m.sound ==> |m.names| == |m.records|)
    && (forall k {:trigger NamesAt(m, k)} :: 0 <= k < |m.names| ==> NamesAt(m, k))
    && (m.sound ==> Table(m.bytes, m.dict, m.late))
    && (AllPlain(m.names) ==> EveryRight(m.names) && (m.sound ==> NoRepeats(m.bytes, m.dict)))
  }

  /** The table keeps its size; no offset lies beyond the end unless a name in refused data has left
      it there, and then all is sound up to 47 late names. */
  ghost predicate TableInv(m: Message) {
    && |m.dict| <= DICTSIZE && (m.late > 0 ==> |m.dict| >= DICTSIZE)
    && (!m.beyond ==> AllBelow(m.dict, |m.bytes| + 1))
    && (!m.beyond && m.late <= LATE ==> m.sound)
  }

  ghost predicate RecordsInv(m: Message) {
    && Built(m.bytes, m.records)
    && m.memos == if m.records == [] then UNSTUDIED else Study(m.bytes, CountsOf(m.records))
  }

  ghost predicate Inv(m: Message) { RecordsInv(m) && NamesInv(m) && TableInv(m) }

  lemma StartInv(m: Message)
    requires Start(m)
    ensures Inv(m)
  {
    assert m.bytes[HEADER..] == [];
  }

  // ----- A record is pushed -------------------------------------------------------------------

  /** The pieces of a record, with the length of its data in place, are its bytes. */
  lemma WholeIsEnc(r: Record, owner: Piece, w: seq<Byte>, data: seq<Piece>)
    requires RecordOf(r, owner, w, data)
    ensures Flat(Whole(r, owner, Word(|r.rdata|), data)) == Enc(r)
  {
    hide DataOf, Ttl, Fixed, Word;
    var t := Raw(Ttl(r.ttl));
    FlatTwo(owner, Raw(Fixed(r)), if r.section == QD then [] else [t, Raw(Word(|r.rdata|))] + data);
    if r.section != QD { FlatTwo(t, Raw(Word(|r.rdata|)), data); }
  }

  lemma FlatCons(p: Piece, ps: seq<Piece>)
    ensures Flat([p] + ps) == Of(p) + Flat(ps)
  {
    hide Of;
    assert ([p] + ps)[1..] == ps;
  }

  lemma FlatTwo(a: Piece, b: Piece, ps: seq<Piece>)
    ensures Flat([a, b] + ps) == Of(a) + Of(b) + Flat(ps)
  {
    hide Flat, Of;
    FlatCons(a, [b] + ps);
    FlatCons(b, ps);
    assert [a, b] + ps == [a] + ([b] + ps);
  }

  lemma WholeTwins(r: Record, owner: Piece, w: seq<Byte>, data: seq<Piece>)
    requires RecordOf(r, owner, w, data)
    ensures Twins(Whole(r, owner, w, data), Whole(r, owner, Word(|r.rdata|), data))
  {
  }

  lemma {:induction false} EncodedIn(s: Draft, ps: seq<Piece>, i: nat)
    requires AllPossible(s, ps) && i < |ps| && ps[i].Host?
    ensures Encoded(ps[i].e) && |ps[i].e| > 0
    decreases ps
  {
    hide Put, Written, AllListed;
    if i > 0 { EncodedIn(Put(s, ps[0]), ps[1..], i - 1); }
  }

  /** The names of a record are that of the owner and those in its data. */
  lemma NamesOf(at: nat, r: Record, owner: Piece, w: seq<Byte>, data: seq<Piece>)
    requires RecordOf(r, owner, w, data)
    ensures var ns := Names(at, Whole(r, owner, w, data));
            && ns != [] && ns[0].at == at
            && ns[1..] == if r.section == QD then [] else Names(at + |r.name| + 10, data)
  {
    hide DataOf, Ttl, Fixed, Right;
    FieldSizes(r);
    var f, t := Raw(Fixed(r)), Raw(Ttl(r.ttl));
    var rest := if r.section == QD then [] else [t, Raw(w)] + data;
    NamesTwo(at, owner, f, rest);
    NameOne(at, owner);
    NameOne(at + |owner.e|, f);
    if r.section != QD {
      NamesTwo(at + |owner.e| + 4, t, Raw(w), data);
      NameOne(at + |owner.e| + 4, t);
      NameOne(at + |owner.e| + 8, Raw(w));
    }
  }

  lemma FieldSizes(r: Record)
    ensures |Fixed(r)| == 4 && |Ttl(r.ttl)| == 4
  {
  }

  lemma NamesTwo(at: nat, a: Piece, b: Piece, ps: seq<Piece>)
    ensures Names(at, [a, b] + ps) == Names(at, [a]) + Names(at + |Of(a)|, [b]) + Names(at + |Of(a)| + |Of(b)|, ps)
  {
    hide Names, Of;
    NamesNext(at, [a, b] + ps);
    assert ([a, b] + ps)[1..] == [b] + ps;
    NamesNext(at + |Of(a)|, [b] + ps);
    assert ([b] + ps)[1..] == ps;
  }

  /** They stand where they are looked for. */
  lemma DataNames(d: seq<Byte>, kind: nat, p: nat, data: seq<Piece>)
    requires DataOf(kind, data) && p + |Flat(data)| <= |d| && d[p..p + |Flat(data)|] == Flat(data)
    requires forall i :: 0 <= i < |data| && data[i].Host? ==> Encoded(data[i].e) && |data[i].e| > 0
    ensures InData(d, kind, p, Names(p, data))
  {
    hide Right, Encoded;
    if |data| == 1 {
      assert data == [data[0]];
      NameOne(p, data[0]);
    } else {
      var rest := if |data| == 2 then [] else [data[2]];
      assert data == [data[0], data[1]] + rest;
      NamesTwo(p, data[0], data[1], rest);
      NameOne(p, data[0]);
      NameOne(p + |Of(data[0])|, data[1]);
      FlatTwo(data[0], data[1], rest);
      if kind == TYPE_SOA {
        NameOne(p + |Of(data[0])| + |Of(data[1])|, data[2]);
        FirstOf(d, p, data[0].e, data[1].e + Flat(rest));
      }
    }
  }

  lemma FirstOf(d: seq<Byte>, p: nat, a: seq<Byte>, b: seq<Byte>)
    requires p + |a + b| <= |d| && d[p..p + |a + b|] == a + b
    ensures d[p..p + |a|] == a
  {
    SubSlice(d, p, p + |a + b|, 0, |a|);
  }

  /** The names of the record just pushed stand where they are looked for. */
  lemma NewPlaced(m: Message, r: Record, owner: Piece, w: seq<Byte>, data: seq<Piece>, m': Message)
    requires PushedStep(m, r, owner, w, data, m')
    ensures Placed(m'.bytes, r, |m.bytes|, Names(|m.bytes|, Whole(r, owner, w, data)))
  {
    hide PutAll, Names, Memoize, CountsOf, Possible, AllPossible, Encoded, DataOf, InData, Enc, PacketRecords.InOrder;
    var d, ps := m.bytes + Enc(r), Whole(r, owner, w, data);
    NamesOf(|m.bytes|, r, owner, w, data);
    if r.section != QD {
      forall i | 0 <= i < |data| && data[i].Host? ensures Encoded(data[i].e) && |data[i].e| > 0 {
        assert ps[4 + i] == data[i];
        EncodedIn(Begin(m), ps, 4 + i);
      }
      DataStands(m.bytes, r);
      DataNames(d, r.kind, |m.bytes| + |r.name| + 10, data);
    }
  }

  /** The data of a record behind a packet. */
  lemma DataStands(d: seq<Byte>, r: Record)
    requires r.section != QD
    ensures var p := |d| + |r.name| + 10; p + |r.rdata| == |d + Enc(r)| && (d + Enc(r))[p..p + |r.rdata|] == r.rdata
  {
    FieldSizes(r);
    hide Fixed, Ttl;
    assert d + Enc(r) == (d + r.name + Fixed(r) + Ttl(r.ttl) + Word(|r.rdata|)) + r.rdata;
  }

  /** The names and the table of a record that leaves the message sound. */
  lemma NewFollowed(m: Message, r: Record, owner: Piece, w: seq<Byte>, data: seq<Piece>, m': Message)
    requires PushedStep(m, r, owner, w, data, m') && m'.sound && Table(m.bytes, m.dict, m.late)
    ensures var ns := Names(|m.bytes|, Whole(r, owner, w, data));
            && AllBack(m'.bytes, ns) && AllListed(m.bytes, m.dict)
            && Table(m'.bytes, m'.dict, m'.late)
            && (NoRepeats(m.bytes, m.dict) && Plain(ns) ==> AllRight(ns) && NoRepeats(m'.bytes, m'.dict))
  {
    hide PutAll, Names, Memoize, CountsOf, AllPossible, PacketRecords.InOrder, Whole, Flat, Enc, AllBack, Plain, AllRight, NoRepeats;
    hide Chains, Alike, Twins;
    AlikeSelf(m.bytes, m.dict);
    WholeTwins(r, owner, w, data);
    WholeIsEnc(r, owner, w, data);
    Followed(Begin(m), Whole(r, owner, w, data), Whole(r, owner, Word(|r.rdata|), data), m.bytes);
  }

  lemma OwnerEncoded(m: Message, r: Record, owner: Piece, w: seq<Byte>, data: seq<Piece>, m': Message)
    requires PushedStep(m, r, owner, w, data, m')
    ensures Encoded(r.name) && |r.name| > 0
  {
    hide PutAll, Names, Memoize, CountsOf, Possible, AllPossible, Encoded, DataOf, InData, Enc, PacketRecords.InOrder;
    EncodedIn(Begin(m), Whole(r, owner, w, data), 0);
  }

  lemma PushedKeepsRecords(m: Message, r: Record, owner: Piece, w: seq<Byte>, data: seq<Piece>, m': Message)
    requires RecordsInv(m) && PushedStep(m, r, owner, w, data, m')
    ensures RecordsInv(m')
  {
    hide Enc, Built, Study, Memoize, CountsOf, PacketRecords.InOrder, PutAll, Names, Whole, AllPossible, Encoded;
    OwnerEncoded(m, r, owner, w, data, m');
    PacketRecords.OneMoreRecord(m.bytes, m.records, r, m.memos);
  }

  /** Offsets of records do not move when another one is pushed. */
  lemma OffsetSnoc(rs: seq<Record>, r: Record, k: nat)
    requires k <= |rs|
    ensures Offset(rs + [r], k) == Offset(rs, k)
  {
    assert (rs + [r])[..k] == rs[..k];
  }

  lemma PlacedStays(d: seq<Byte>, e: seq<Byte>, r: Record, p: nat, ns: seq<Pushed>)
    requires Placed(d, r, p, ns)
    ensures Placed(d + e, r, p, ns)
  {
    hide Encoded;
    if r.section != QD && r.kind == TYPE_SOA {
      var o := p + |r.name| + 10;
      assert (d + e)[o..ns[1..][1].at] == d[o..ns[1..][1].at];
    }
  }

  /** What is known of the names of earlier records stays. */
  lemma NamesStay(m: Message, r: Record, m': Message, k: nat)
    requires k < |m.records| && k < |m.names| && NamesAt(m, k)
    requires m'.bytes == m.bytes + Enc(r) && m'.records == m.records + [r]
    requires k < |m'.names| && m'.names[k] == m.names[k]
    ensures NamesAt(m', k)
  {
    hide Enc, AllBack, Placed, Offset;
    OffsetSnoc(m.records, r, k);
    PlacedStays(m.bytes, Enc(r), m.records[k], Offset(m.records, k), m.names[k]);
    BackStays(m.bytes, Enc(r), m.names[k]);
  }

  lemma AllNamesStay(m: Message, r: Record, owner: Piece, w: seq<Byte>, data: seq<Piece>, m': Message)
    requires Built(m.bytes, m.records) && NamesInv(m) && PushedStep(m, r, owner, w, data, m') && (m'.sound ==> m.sound)
    ensures |m'.names| <= |m'.records| && (m'.sound ==> |m'.names| == |m'.records|)
    ensures forall k {:trigger NamesAt(m', k)} :: 0 <= k < |m'.names| ==> NamesAt(m', k)
  {
    hide Enc, Memoize, Table, CountsOf, NoRepeats, NamesAt, PacketRecords.InOrder, PutAll, Names, Whole, AllPossible, RecordOf, Built;
    hide AllPlain, EveryRight, Fields;
    forall k | 0 <= k < |m.names| ensures NamesAt(m', k) { NamesStay(m, r, m', k); }
    if m'.sound { NewNamesAt(m, r, owner, w, data, m'); }
  }

  lemma NewNamesAt(m: Message, r: Record, owner: Piece, w: seq<Byte>, data: seq<Piece>, m': Message)
    requires Built(m.bytes, m.records) && PushedStep(m, r, owner, w, data, m') && m'.sound
    requires Table(m.bytes, m.dict, m.late) && |m.names| == |m.records|
    ensures NamesAt(m', |m.records|)
  {
    hide Enc, Memoize, Table, CountsOf, NoRepeats, PacketRecords.InOrder, PutAll, Names, Whole, AllPossible, RecordOf, Built, Placed;
    hide Offset, AllBack, Fields, Plain, AllRight;
    NewPlaced(m, r, owner, w, data, m');
    NewFollowed(m, r, owner, w, data, m');
    OffsetSnoc(m.records, r, |m.records|);
    OffsetEndBuilt(m);
  }

  lemma OffsetEndBuilt(m: Message)
    requires Built(m.bytes, m.records)
    ensures Offset(m.records, |m.records|) == |m.bytes|
  {
    OffsetEnd(m.bytes, m.records);
  }

  lemma PlainSnoc(names: seq<seq<Pushed>>, ns: seq<Pushed>)
    ensures AllPlain(names + [ns]) <==> AllPlain(names) && Plain(ns)
    ensures EveryRight(names) && AllRight(ns) ==> EveryRight(names + [ns])
  {
    hide Plain, AllRight;
    if AllPlain(names + [ns]) {
      forall k | 0 <= k < |names| ensures Plain(names[k]) { assert (names + [ns])[k] == names[k]; }
      assert (names + [ns])[|names|] == ns;
    }
  }

  lemma PushedKeepsNames(m: Message, r: Record, owner: Piece, w: seq<Byte>, data: seq<Piece>, m': Message)
    requires Inv(m) && PushedStep(m, r, owner, w, data, m')
    ensures NamesInv(m')
  {
    hide Enc, Memoize, Table, CountsOf, NoRepeats, NamesAt, PacketRecords.InOrder, PutAll, Names, Whole, AllPossible, RecordOf, Built;
    hide AllPlain, EveryRight, Fields, Study, AllBelow, Plain, AllRight;
    StillSound(m, r, owner, w, data, m');
    AllNamesStay(m, r, owner, w, data, m');
    if m'.sound {
      NewFollowed(m, r, owner, w, data, m');
      NamePacket.TableListed(m'.bytes, m'.dict, m'.late);
      PlainSnoc(m.names, Names(|m.bytes|, Whole(r, owner, w, data)));
    }
  }

  lemma StillSound(m: Message, r: Record, owner: Piece, w: seq<Byte>, data: seq<Piece>, m': Message)
    requires PushedStep(m, r, owner, w, data, m')
    ensures m'.sound ==> m.sound
  {
    hide Enc, Memoize, CountsOf, Names, Whole, AllPossible, RecordOf;
    if m'.sound { SoundBefore(Begin(m), Whole(r, owner, w, data)); }
  }

  lemma PushedKeepsTable(m: Message, r: Record, owner: Piece, w: seq<Byte>, data: seq<Piece>, m': Message)
    requires TableInv(m) && PushedStep(m, r, owner, w, data, m')
    ensures TableInv(m')
  {
    hide Enc, Memoize, CountsOf, Names, DataOf, PacketRecords.InOrder, Fields, PutAll, AllPossible, Fixed, Ttl;
    var ps := Whole(r, owner, w, data);
    EntriesFrom(Begin(m), ps, 0);
    if !m.beyond {
      FirstBelow(Begin(m), ps);
      EndOfPieces(m, r, owner, w, data);
    }
  }

  /** The offset at the end becomes that of the owner's name. */
  lemma FirstBelow(s: Draft, ps: seq<Piece>)
    requires AllPossible(s, ps) && ps != [] && ps[0].Host? && ps[0].listed
    requires |s.dict| <= DICTSIZE && AllBelow(s.dict, |s.bytes| + 1)
    ensures s.sound && PutAll(s, ps).late <= LATE ==> PutAll(s, ps).sound
    ensures AllBelow(PutAll(s, ps).dict, |PutAll(s, ps).bytes|)
  {
    hide Possible, DictAdd;
    var t := Put(s, ps[0]);
    HostNotEmpty(s, ps[0]);
    DictAddFrom(s.bytes, s.dict, s.late, ps[0].target);
    EntriesFrom(t, ps[1..], 0);
    StaysSound(t, ps[1..]);
  }

  lemma {:induction false} BytesPut(s: Draft, ps: seq<Piece>)
    ensures PutAll(s, ps).bytes == s.bytes + Flat(ps)
    decreases ps
  {
    if ps != [] { BytesPut(Put(s, ps[0]), ps[1..]); }
  }

  lemma EndOfPieces(m: Message, r: Record, owner: Piece, w: seq<Byte>, data: seq<Piece>)
    requires RecordOf(r, owner, w, data)
    ensures |PutAll(Begin(m), Whole(r, owner, w, data)).bytes| == |m.bytes + Enc(r)|
  {
    BytesPut(Begin(m), Whole(r, owner, w, data));
    WholeTwins(r, owner, w, data);
    TwinsFlat(Whole(r, owner, w, data), Whole(r, owner, Word(|r.rdata|), data));
    WholeIsEnc(r, owner, w, data);
  }

  lemma {:induction false} TwinsFlat(ps: seq<Piece>, qs: seq<Piece>)
    requires Twins(ps, qs)
    ensures |Flat(ps)| == |Flat(qs)|
    decreases ps
  {
    TwinsNext(ps, qs);
    if ps != [] { TwinsFlat(ps[1..], qs[1..]); }
  }

  lemma PushedKeepsInv(m: Message, r: Record, owner: Piece, w: seq<Byte>, data: seq<Piece>, m': Message)
    requires Inv(m) && PushedStep(m, r, owner, w, data, m')
    ensures Inv(m')
  {
    hide RecordsInv, NamesInv, TableInv, PushedStep;
    PushedKeepsRecords(m, r, owner, w, data, m');
    PushedKeepsNames(m, r, owner, w, data, m');
    PushedKeepsTable(m, r, owner, w, data, m');
  }

  // ----- A record is refused ------------------------------------------------------------------

  lemma NoRepeatsLeft(d: seq<Byte>, dict: seq<nat>, dict': seq<nat>)
    requires AllListed(d, dict) && NoRepeats(d, dict) && AllListed(d, dict')
    requires forall p | p in dict' :: p >= |d| || p in dict
    ensures NoRepeats(d, dict')
  {
    hide Stored;
    forall i | 0 <= i < |dict'| ensures NoRepeat(Entry(d, dict', i)) {
      assert dict'[i] in dict';
      if dict'[i] < |d| {
        var x :| 0 <= x < |dict| && dict[x] == dict'[i];
        assert NoRepeat(Entry(d, dict, x));
      }
    }
  }

  lemma RefusedKeepsTable(m: Message, r: Record, owner: Piece, w: seq<Byte>, data: seq<Piece>, n: nat, m': Message)
    requires TableInv(m) && RefusedStep(m, r, owner, w, data, n, m')
    ensures TableInv(m')
    ensures forall p | p in m'.dict :: p >= |m.bytes| || p in m.dict
    ensures Reach(m.dict, m.late) <= Reach(m'.dict, m'.late)
  {
    hide DataOf, DictAdd, Fixed, Ttl;
    var ps := Whole(r, owner, w, data)[..n];
    EntriesFrom(Begin(m), ps, |m.bytes|);
    if !m'.beyond && n > 0 {
      assert ps[0] == owner;
      NothingListed(Put(Begin(m), owner), ps[1..]);
      DictAddFrom(m.bytes, m.dict, m.late, owner.target);
    }
  }

  lemma RefusedKeepsInv(m: Message, r: Record, owner: Piece, w: seq<Byte>, data: seq<Piece>, n: nat, m': Message)
    requires Inv(m) && RefusedStep(m, r, owner, w, data, n, m')
    ensures Inv(m')
  {
    hide Built, Study, Stored, NoRepeats, CountsOf, Offset, AllPlain, EveryRight, PutAll, AllPossible, Whole, RecordOf, TableInv, Chains;
    hide Placed, AllBack;
    RefusedKeepsTable(m, r, owner, w, data, n, m');
    forall k | 0 <= k < |m'.names| ensures NamesAt(m', k) { assert NamesAt(m, k); }
    if m.sound {
      SmallTable(m');
      TableRefused(m.bytes, m.dict, m.late, m'.dict, m'.late);
      if NoRepeats(m.bytes, m.dict) { NoRepeatsLeft(m.bytes, m.dict, m'.dict); }
    }
  }

  lemma SmallTable(m: Message)
    requires TableInv(m)
    ensures |m.dict| <= DICTSIZE
  {
  }

  lemma StepKeepsInv(m: Message, m': Message)
    requires Inv(m) && Step(m, m')
    ensures Inv(m')
  {
    hide Inv, PushedStep, RefusedStep;
    if r, owner, w, data :| PushedStep(m, r, owner, w, data, m') {
      PushedKeepsInv(m, r, owner, w, data, m');
    } else if r, owner, w, data, n :| RefusedStep(m, r, owner, w, data, n, m') {
      RefusedKeepsInv(m, r, owner, w, data, n, m');
    }
  }

  lemma {:induction false} RunInv(ms: seq<Message>)
    requires Run(ms)
    ensures ms != [] && Inv(ms[|ms| - 1])
  {
    hide Inv, PushedStep, RefusedStep, Start;
    var n := |ms| - 1;
    if n == 0 {
      StartInv(ms[0]);
    } else {
      RunInv(ms[..n]);
      StepKeepsInv(ms[n - 1], ms[n]);
    }
  }

  // ----- What is read back -----------------------------------------------------------------------

  /** After any run: the walk visits exactly the records pushed, each parses to what was pushed, and
      the memo kept on the way gives its section. */
  lemma RecordsReadBack(ms: seq<Message>, k: nat)
    requires Run(ms) && k <= |ms[|ms| - 1].records|
    ensures var m := ms[|ms| - 1]; var c, p := CountsOf(m.records), Offset(m.records, k);
            && |m.bytes| < OFFSETS && Nth(m.bytes, c, k) == p && (p < |m.bytes| <==> k < |m.records|)
            && (k < |m.records| ==>
                  && Parse(m.bytes, c, p) == Some(Expected(m.records[k]))
                  && SectionAt(m.bytes, c, m.memos, p) == Some(m.records[k].section))
  {
    hide Run, Built, Nth, Parse, SectionAt, Study, NamesInv, TableInv, CountsOf, Offset, Expected;
    RunInv(ms);
    var m := ms[|ms| - 1];
    WalkVisits(m.bytes, m.records, k);
    if k < |m.records| {
      ParsesBack(m.bytes, m.records, k);
      SectionKnown(m.bytes, m.records, k);
    }
  }

  /** The offsets from which `dns_any_parse` expands the names in the data at `p`: the second name of an
      SOA record stands where `dns_d_skip` leads from the first. */
  function NameOffsets(d: seq<Byte>, kind: nat, p: nat): seq<nat>
    requires |d| < OFFSETS
  {
    if NameOnly(kind) then [p]
    else if kind == TYPE_MX then [p + 2]
    else if kind == TYPE_SOA then [p, SkipName(d, p)]
    else if kind == TYPE_SRV then [p + 6]
    else []
  }

  predicate StandAt(ns: seq<Pushed>, offsets: seq<nat>) {
    |ns| == |offsets| && forall i :: 0 <= i < |ns| ==> ns[i].at == offsets[i]
  }

  lemma InDataOffsets(d: seq<Byte>, kind: nat, p: nat, ns: seq<Pushed>)
    requires |d| < OFFSETS && InData(d, kind, p, ns)
    ensures StandAt(ns, NameOffsets(d, kind, p))
  {
    hide Encoded, SkipName;
    if kind == TYPE_SOA { SkipsEncoded(d, p, d[p..ns[1].at]); }
  }

  /** The expansion of a name from its offset. */
  ghost predicate ReadsBack(d: seq<Byte>, n: Pushed)
    requires |d| < OFFSETS
  {
    && Stored(d, n.at) && Ends(d, n.at)
    && (SameLabels(Name(d, n.at).value, n.name) <==> n.right)
    && forall t: nat {:trigger ExpandTurns(d, n.at, 0, t)} | ExpandTurns(d, n.at, 0, t).None? && n.right ::
         var text := Outcome(d, n.at, 0, [], t);
         text.Some? && SameLetters(text.value, Text(n.name))
  }

  lemma BackReads(d: seq<Byte>, n: Pushed)
    requires |d| < OFFSETS && Back(d, n)
    ensures ReadsBack(d, n)
  {
    hide Ends, Outcome, ExpandTurns, Text, SameLetters, SameName, SameLabels, Labels, Shallow;
    StoredEnds(d, n.at);
    SameNameIff(Name(d, n.at).value, n.name);
    forall t: nat | ExpandTurns(d, n.at, 0, t).None? && n.right
      ensures var text := Outcome(d, n.at, 0, [], t);
              text.Some? && SameLetters(text.value, Text(n.name))
    {
      StoredExpands(d, n.at, t);
      SameText(Name(d, n.at).value, n.name);
    }
  }

  /** After any run, of every record pushed while the message was sound: its owner's name and the names
      in its data stand where they are looked for; each reads back as the name pushed, up to case,
      exactly if the right label was compared; its expansion ends, and gives the text of the name
      then. */
  lemma NamesReadBack(ms: seq<Message>, k: nat, i: nat)
    requires Run(ms) && k < |ms[|ms| - 1].names| && i < |ms[|ms| - 1].names[k]|
    ensures var m := ms[|ms| - 1];
            && k < |m.records| && |m.bytes| < OFFSETS
            && var r, p, ns := m.records[k], Offset(m.records, k), m.names[k];
               && ns[0].at == p
               && StandAt(ns[1..], if r.section == QD then [] else NameOffsets(m.bytes, r.kind, p + |r.name| + 10))
               && ReadsBack(m.bytes, ns[i])
  {
    hide Run, Built, Table, ReadsBack, Back, Offset, TableInv, InData, NameOffsets, NoRepeats, Study, CountsOf;
    RunInv(ms);
    var m := ms[|ms| - 1];
    BuiltFacts(m.bytes, m.records);
    assert NamesAt(m, k);
    var r, ns := m.records[k], m.names[k];
    BackReads(m.bytes, ns[i]);
    if r.section != QD { InDataOffsets(m.bytes, r.kind, Offset(m.records, k) + |r.name| + 10, ns[1..]); }
  }

  /** The names of all records are among these, with up to 47 late names, as long as no record is refused
      after a name in its data has gone into the table; no name is late while the table has room; and
      the right label is always compared while no name of a record repeats a label. */
  lemma NamesRight(ms: seq<Message>)
    requires Run(ms)
    ensures var m := ms[|ms| - 1];
            && (|m.dict| < DICTSIZE ==> m.late == 0)
            && (!m.beyond && m.late <= LATE ==> m.sound)
            && (m.sound ==> |m.names| == |m.records|)
            && (AllPlain(m.names) ==> EveryRight(m.names))
  {
    hide Run, NamesAt, RecordsInv, AllPlain, EveryRight;
    RunInv(ms);
  }
}
