/** The record routines in place on a packet buffer: `dns_d_skip`, `dns_p_qend`, `dns_rr_skip`,
    `dns_s_study`, `dns_p_study`, `dns_rr_section` and `dns_p_push` of
    libs/async/src/dns/dns.c.  The counts of the header are kept as numbers; the bytes of a name
    are those that `dns_d_push` appends, and the bytes of the data those of `dns_any_push`. */
module PacketRecords {
  import opened Bytes
  import opened NameSkip
  import opened Records
  import opened RecordBuilding

  datatype Result = Pushed | NoBufs | BadOrder

  class Packet {
    const data: array<Byte>
    var end: nat
    var counts: Counts
    var memos: Memos
    /** The records pushed so far. */
    ghost var records: seq<Record>

    ghost predicate Sized()
      reads this
    {
      end <= data.Length < OFFSETS
    }

    ghost function Content(): (d: seq<Byte>)
      requires Sized()
      reads this, data
      ensures |d| == end < OFFSETS
    {
      data[..end]
    }

    /** The packet holds exactly its records, and its memo is fresh. */
    ghost predicate Valid()
      reads this, data
    {
      && Sized() && Built(Content(), records) && counts == CountsOf(records)
      && memos == (if records == [] then UNSTUDIED else Study(Content(), counts))
    }

    /** `dns_p_init`. */
    constructor (size: nat)
      requires HEADER <= size < OFFSETS
      ensures Valid() && fresh(data) && data.Length == size && records == []
    {
      data := new Byte[size](_ => 0);
      end, counts, memos, records := HEADER, Counts(0, 0, 0, 0), UNSTUDIED, [];
      new;
      assert data[..end][HEADER..] == [];
    }

    /** `dns_d_skip`. */
    method SkipNameAt(src0: nat) returns (src: nat)
      requires Sized()
      ensures src == SkipName(Content(), src0)
    {
      hide SkipName, Turn;
      ghost var d := Content();
      src := src0;
      while src < end
        invariant SkipName(d, src) == SkipName(d, src0)
        decreases end - src
      {
        assert data[src] == d[src];
        SkipTurn(d, src);
        if data[src] / 64 == 0 {
          var len := data[src] as nat;
          src := src + 1;
          if len == 0 { return; }
          if end - src <= len { return end; }
          src := src + len;
        } else if data[src] / 64 == 3 {
          if end - src < 2 { return end; }
          return src + 2;
        } else {
          return end;
        }
      }
      SkipPast(d, src);
      src := end;
    }

    /** `dns_p_qend`. */
    method QuestionEnd() returns (qend: nat)
      requires Sized()
      ensures qend == QEnd(Content(), counts)
    {
      hide SkipName;
      ghost var d := Content();
      qend := HEADER;
      var i := 0;
      while i < counts.qd && qend < end
        invariant i <= counts.qd && (qend <= end || i == 0)
        invariant QEnd(d, counts) == QuestionsEnd(d, qend, counts.qd - i)
      {
        qend := SkipNameAt(qend);
        if qend == end { return; }
        if end - qend < 4 { return end; }
        qend := qend + 4;
        i := i + 1;
      }
      qend := Min(qend, end);
    }

    /** `dns_rr_skip`. */
    method SkipRecord(src: nat) returns (r: nat)
      requires Sized() && src < end
      ensures r == RecordEnd(Content(), counts, src)
    {
      var rp := SkipNameAt(src);
      if end - rp < 4 { return end; }
      rp := rp + 4;
      var qend := QuestionEnd();
      if rp <= qend { return rp; }
      if end - rp < 6 { return end; }
      rp := rp + 6;
      var rdlen := data[rp - 2] as nat * 256 + data[rp - 1] as nat;
      if end - rp < rdlen { return end; }
      return rp + rdlen;
    }

    /** `dns_s_study`. */
    method StudySection(base: nat, count: nat) returns (rp: nat)
      requires Sized()
      ensures rp == StudyEnd(Content(), counts, base, count)
    {
      hide RecordEnd;
      ghost var d := Content();
      rp := base;
      var left := count;
      while left > 0 && rp < end
        invariant StudyEnd(d, counts, rp, left) == StudyEnd(d, counts, base, count)
        decreases left
      {
        rp := SkipRecord(rp);
        left := left - 1;
      }
    }

    /** `dns_p_study`. */
    method StudyPacket()
      requires Sized()
      modifies this`memos
      ensures memos == Study(Content(), counts)
    {
      hide StudyEnd;
      var e1 := StudySection(HEADER, counts.qd);
      var e2 := StudySection(e1, counts.an);
      var e3 := StudySection(e2, counts.ns);
      var e4 := StudySection(e3, counts.ar);
      memos := Memos(Memo(HEADER, e1), Memo(e1, e2), Memo(e2, e3), Memo(e3, e4));
    }

    /** `dns_rr_section`: the memo first, and then the hard way. */
    method SectionOfStart(src: nat) returns (s: Option<Section>)
      requires Sized()
      ensures s == SectionAt(Content(), counts, memos, src)
    {
      hide RecordEnd;
      if memos.qd.base <= src < memos.qd.end { return Some(QD); }
      if memos.an.base <= src < memos.an.end { return Some(AN); }
      if memos.ns.base <= src < memos.ns.end { return Some(NS); }
      if memos.ar.base <= src < memos.ar.end { return Some(AR); }
      ghost var d := Content();
      var rp, index := HEADER, 0;
      while rp < src && rp < end
        invariant index + RecordsBefore(d, counts, rp, src) == RecordsBefore(d, counts, HEADER, src)
        decreases end - rp
      {
        rp := SkipRecord(rp);
        index := index + 1;
      }
      if index < counts.qd { return Some(QD); }
      if index < counts.qd + counts.an { return Some(AN); }
      if index < counts.qd + counts.an + counts.ns { return Some(NS); }
      if index < counts.qd + counts.an + counts.ns + counts.ar { return Some(AR); }
      return None;
    }

    method Put(bytes: seq<Byte>)
      requires Sized() && |bytes| <= data.Length - end
      modifies this`end, data
      ensures Sized() && Content() == old(Content()) + bytes
    {
      ghost var d := data[..end];
      forall i | 0 <= i < |bytes| { data[end + i] := bytes[i]; }
      end := end + |bytes|;
      assert data[..end] == d + bytes;
    }

    /** `dns_p_push` writes the record or refuses it: for want of space, or because a record of
        a later section is there already.  A refused record leaves the packet as it was.  `full`
        is the length of the name before compression, for which `dns_d_push` wants room. */
    method Push(r: Record, full: nat) returns (res: Result)
      requires Valid() && Good(r) && |r.name| <= full
      modifies this, data
      ensures Valid()
      ensures res == Pushed ==> records == old(records) + [r] && Content() == old(Content()) + Enc(r)
      ensures res != Pushed ==> records == old(records) && Content() == old(Content())
      ensures res == NoBufs <==> Max(full, |Enc(r)|) > data.Length - old(end)
      ensures res == BadOrder <==> Max(full, |Enc(r)|) <= data.Length - old(end) && !InOrder(old(records), r.section)
    {
      hide Built, Study, Enc, Tail, Fixed, Ttl, InOrder, CountsOf;
      EncParts(Content(), r);
      ghost var d, rs := Content(), records;
      var end0 := end;
      res := NoBufs;
      if full > data.Length - end { return; }
      Put(r.name);
      if data.Length - end < 4 { Restore(end0, d); return; }
      Put(Word(r.kind) + Word(r.class_));
      if r.section != QD {
        if data.Length - end < 6 + |r.rdata| { Restore(end0, d); return; }
        Put(Ttl(r.ttl));
        Put(Word(|r.rdata|) + r.rdata);
      }
      OrderByCounts(rs, r.section);
      if Later(r.section) > 0 {
        Restore(end0, d);
        return BadOrder;
      }
      Update(r, d);
      res := Pushed;
    }

    /** The counts, and the memo kept on the way. */
    method Update(r: Record, ghost d: seq<Byte>)
      requires Sized() && Good(r) && InOrder(records, r.section)
      requires Built(d, records) && counts == CountsOf(records) && Content() == d + Enc(r)
      requires memos == if records == [] then UNSTUDIED else Study(d, counts)
      modifies this
      ensures Valid() && records == old(records) + [r] && Content() == old(Content())
    {
      hide Built, Study, StudyEnd, Enc, Good, InOrder, CountsOf;
      ghost var m, c := memos, counts;
      CountsFit(d, records);
      match r.section {
        case QD =>
          if memos.qd.base == 0 { StudyPacket(); }
          counts := counts.(qd := (counts.qd + 1) % 0x1_0000);
          memos := Memos(memos.qd.(end := end), Memo(end, end), Memo(end, end), Memo(end, end));
        case AN =>
          if memos.an.base == 0 { StudyPacket(); }
          counts := counts.(an := (counts.an + 1) % 0x1_0000);
          memos := memos.(an := memos.an.(end := end), ns := Memo(end, end), ar := Memo(end, end));
        case NS =>
          if memos.ns.base == 0 { StudyPacket(); }
          counts := counts.(ns := (counts.ns + 1) % 0x1_0000);
          memos := memos.(ns := memos.ns.(end := end), ar := Memo(end, end));
        case AR =>
          if memos.ar.base == 0 { StudyPacket(); }
          counts := counts.(ar := (counts.ar + 1) % 0x1_0000);
          memos := memos.(ar := memos.ar.(end := end));
      }
      assert memos == Memoize(m, r.section, Content(), c);
      OneMoreRecord(d, records, r, m);
      records := records + [r];
    }

    method Restore(end0: nat, ghost d: seq<Byte>)
      requires Sized() && end0 == |d| <= end && Content()[..end0] == d
      modifies this`end
      ensures Sized() && end == end0 && Content() == d
    {
      end := end0;
    }

    /** The number of records in later sections. */
    function Later(s: Section): nat
      reads this
    {
      match s
      case QD => counts.an + counts.ns + counts.ar
      case AN => counts.ns + counts.ar
      case NS => counts.ar
      case AR => 0
    }
  }

  /** No record of a later section is there. */
  predicate InOrder(rs: seq<Record>, s: Section) { forall i :: 0 <= i < |rs| ==> Rank(rs[i].section) <= Rank(s) }

  lemma EncParts(d: seq<Byte>, r: Record)
    ensures d + r.name + (Word(r.kind) + Word(r.class_)) == d + Enc(r)[..|r.name| + 4]
    ensures |Enc(r)| == |r.name| + 4 + (if r.section == QD then 0 else 6 + |r.rdata|)
    ensures |Ttl(r.ttl)| == 4
    ensures r.section == QD ==> d + Enc(r)[..|r.name| + 4] == d + Enc(r)
    ensures r.section != QD ==> d + Enc(r)[..|r.name| + 4] + Ttl(r.ttl) + (Word(|r.rdata|) + r.rdata) == d + Enc(r)
    ensures d == (d + Enc(r))[..|d|]
  {
    var e := Enc(r);
    assert e[..|r.name| + 4] == r.name + Fixed(r);
    assert e == e[..|r.name| + 4] + Tail(r);
    if r.section == QD { assert e[..|r.name| + 4] == e; }
  }

  lemma OrderByCounts(rs: seq<Record>, s: Section)
    ensures var c := CountsOf(rs);
            InOrder(rs, s) <==> (match s
                                 case QD => c.an + c.ns + c.ar
                                 case AN => c.ns + c.ar
                                 case NS => c.ar
                                 case AR => 0) == 0
  {
    CountsUpTo(rs);
    AllUpTo(rs, Rank(s));
    AllUpTo(rs, 3);
  }

  lemma {:induction false} AllUpTo(rs: seq<Record>, r: nat)
    ensures UpTo(rs, r) <= |rs|
    ensures UpTo(rs, r) == |rs| <==> forall i :: 0 <= i < |rs| ==> Rank(rs[i].section) <= r
  {
    if rs != [] {
      var n := |rs| - 1;
      AllUpTo(rs[..n], r);
      assert forall i :: 0 <= i < n ==> rs[i] == rs[..n][i];
    }
  }

  /** A record takes at least five bytes, so that the 16-bit counts do not wrap. */
  lemma {:induction false} BodySize(rs: seq<Record>)
    requires forall i :: 0 <= i < |rs| ==> Good(rs[i])
    ensures 5 * |rs| <= |Body(rs)|
  {
    hide Enc, Encoded;
    if rs != [] {
      var n := |rs| - 1;
      assert Good(rs[n]);
      RecordSize(rs[n]);
      BodySize(rs[..n]);
    }
  }

  lemma RecordSize(r: Record)
    requires Good(r)
    ensures |Enc(r)| >= 5
  {
  }

  lemma CountsFit(d: seq<Byte>, rs: seq<Record>)
    requires Built(d, rs)
    ensures var c := CountsOf(rs); c.qd + c.an + c.ns + c.ar < 0xFFFF
  {
    BodySize(rs);
    CountsUpTo(rs);
  }

  lemma OneMoreRecord(d: seq<Byte>, rs: seq<Record>, r: Record, m: Memos)
    requires Built(d, rs) && Good(r) && InOrder(rs, r.section) && |d + Enc(r)| < OFFSETS
    requires m == if rs == [] then UNSTUDIED else Study(d, CountsOf(rs))
    ensures Built(d + Enc(r), rs + [r]) && CountsOf(rs + [r]) == Bump(CountsOf(rs), r.section)
    ensures Study(d + Enc(r), CountsOf(rs + [r])) == Memoize(m, r.section, d + Enc(r), CountsOf(rs))
  {
    hide Study, Memoize, Enc, Body, Kept, Built, CountsOf, InOrder, Good;
    HeaderAndBody(d, rs);
    var h, rs', d' := d[..HEADER], rs + [r], d + Enc(r);
    BodySnoc(h, d, rs, r);
    BuiltSnoc(d, rs, r);
    if rs != [] { KeptIsStudied(h, rs); } else { KeptNothing(h); }
    KeptSnoc(h, rs, r);
    KeptIsStudied(h, rs');
  }

  lemma HeaderAndBody(d: seq<Byte>, rs: seq<Record>)
    requires Built(d, rs)
    ensures |d| >= HEADER && d == d[..HEADER] + Body(rs)
  {
  }

  lemma BodySnoc(h: seq<Byte>, d: seq<Byte>, rs: seq<Record>, r: Record)
    requires d == h + Body(rs)
    ensures d + Enc(r) == h + Body(rs + [r]) && CountsOf(rs + [r]) == Bump(CountsOf(rs), r.section)
  {
    hide Enc;
    assert (rs + [r])[..|rs|] == rs;
    assert h + Body(rs) + Enc(r) == h + (Body(rs) + Enc(r));
  }

  lemma KeptNothing(h: seq<Byte>)
    requires |h + Body([])| < OFFSETS
    ensures Kept(h, []) == UNSTUDIED
  {
  }

  lemma KeptSnoc(h: seq<Byte>, rs: seq<Record>, r: Record)
    requires |h + Body(rs + [r])| < OFFSETS && |h + Body(rs)| < OFFSETS
    ensures Kept(h, rs + [r]) == Memoize(Kept(h, rs), r.section, h + Body(rs + [r]), CountsOf(rs))
  {
    hide Memoize, Body, CountsOf;
    assert (rs + [r])[..|rs|] == rs;
  }

  lemma BuiltSnoc(d: seq<Byte>, rs: seq<Record>, r: Record)
    requires Built(d, rs) && Good(r) && InOrder(rs, r.section) && |d + Enc(r)| < OFFSETS
    ensures Built(d + Enc(r), rs + [r])
  {
    hide Enc, Good;
    var rs' := rs + [r];
    assert rs'[..|rs|] == rs;
    assert (d + Enc(r))[HEADER..] == Body(rs) + Enc(r);
  }
}
