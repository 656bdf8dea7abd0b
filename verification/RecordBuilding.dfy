/** Packets built record by record (`dns_p_push`, libs/async/src/dns/dns.c:1279-1387): the walk
    over them, what `dns_rr_parse` reads back, and the memo that is kept on the way. */
module RecordBuilding {
  import opened Bytes
  import opened NameSkip
  import M = Modular
  import opened Records

  /** `name` are the bytes that `dns_d_push` wrote, `rdata` those that `dns_any_push` wrote after
      the length. */
  datatype Record = Record(section: Section, name: seq<Byte>, kind: nat, class_: nat, ttl: nat, rdata: seq<Byte>)

  /** The type whose data `dns_any_push` writes without a length. */
  const OPT: nat := 41

  predicate Good(r: Record) { Encoded(r.name) && Fields(r) }

  predicate Fields(r: Record) { r.kind < 0x1_0000 && r.kind != OPT && r.class_ < 0x1_0000 && |r.rdata| < 0x1_0000 }

  /** The time to live, without its top bit. */
  function Ttl(t: nat): seq<Byte> { [t / 0x100_0000 % 128, t / 0x1_0000 % 256, t / 0x100 % 256, t % 256] }

  function Fixed(r: Record): seq<Byte> { Word(r.kind) + Word(r.class_) }

  function Tail(r: Record): seq<Byte> {
    if r.section == QD then [] else Ttl(r.ttl) + Word(|r.rdata|) + r.rdata
  }

  function Enc(r: Record): seq<Byte> { r.name + Fixed(r) + Tail(r) }

  function Body(rs: seq<Record>): seq<Byte> {
    if rs == [] then [] else Body(rs[..|rs| - 1]) + Enc(rs[|rs| - 1])
  }

  /** Where record `k` starts. */
  function Offset(rs: seq<Record>, k: nat): nat
    requires k <= |rs|
  {
    HEADER + |Body(rs[..k])|
  }

  function Rank(s: Section): nat {
    match s
    case QD => 0
    case AN => 1
    case NS => 2
    case AR => 3
  }

  predicate Ordered(rs: seq<Record>) {
    forall i, j :: 0 <= i < j < |rs| ==> Rank(rs[i].section) <= Rank(rs[j].section)
  }

  /** The number of records of the sections up to rank `r`. */
  function UpTo(rs: seq<Record>, r: nat): nat {
    if rs == [] then 0 else UpTo(rs[..|rs| - 1], r) + (if Rank(rs[|rs| - 1].section) <= r then 1 else 0)
  }

  function Bump(c: Counts, s: Section): Counts {
    match s
    case QD => c.(qd := c.qd + 1)
    case AN => c.(an := c.an + 1)
    case NS => c.(ns := c.ns + 1)
    case AR => c.(ar := c.ar + 1)
  }

  function CountsOf(rs: seq<Record>): Counts {
    if rs == [] then Counts(0, 0, 0, 0) else Bump(CountsOf(rs[..|rs| - 1]), rs[|rs| - 1].section)
  }

  /** A packet that holds exactly these records behind its header. */
  ghost predicate Built(d: seq<Byte>, rs: seq<Record>) {
    && HEADER <= |d| < OFFSETS && d[HEADER..] == Body(rs)
    && Ordered(rs) && forall i :: 0 <= i < |rs| ==> Good(rs[i])
  }

  // ----- Counts and offsets -----------------------------------------------------------------

  lemma {:induction false} CountsUpTo(rs: seq<Record>)
    ensures var c := CountsOf(rs);
            && UpTo(rs, 0) == c.qd && UpTo(rs, 1) == c.qd + c.an
            && UpTo(rs, 2) == c.qd + c.an + c.ns && UpTo(rs, 3) == c.qd + c.an + c.ns + c.ar == |rs|
  {
    if rs != [] { CountsUpTo(rs[..|rs| - 1]); }
  }

  lemma {:induction false} UpToSplits(rs: seq<Record>, r: nat, k: nat)
    requires Ordered(rs) && k < |rs|
    ensures Rank(rs[k].section) <= r <==> k < UpTo(rs, r)
    ensures UpTo(rs, r) <= |rs|
  {
    var n := |rs| - 1;
    UpToBound(rs[..n], r);
    if k < n { UpToSplits(rs[..n], r, k); }
    else if n > 0 { UpToSplits(rs[..n], r, n - 1); }
  }

  lemma {:induction false} UpToBound(rs: seq<Record>, r: nat)
    ensures UpTo(rs, r) <= |rs|
  {
    if rs != [] { UpToBound(rs[..|rs| - 1], r); }
  }

  /** The index of a record tells its section. */
  lemma SectionOfRecord(rs: seq<Record>, k: nat)
    requires Ordered(rs) && k < |rs|
    ensures SectionOf(CountsOf(rs), k) == Some(rs[k].section)
  {
    CountsUpTo(rs);
    UpToSplits(rs, 0, k);
    UpToSplits(rs, 1, k);
    UpToSplits(rs, 2, k);
    UpToSplits(rs, 3, k);
  }

  lemma LastStands(d: seq<Byte>, rs: seq<Record>)
    requires HEADER <= |d| && d[HEADER..] == Body(rs) && rs != []
    ensures var n := |rs| - 1; var p := Offset(rs, n);
            && p <= |d| && d[..p][HEADER..] == Body(rs[..n]) && d[p..] == Enc(rs[n])
            && Offset(rs, |rs|) == |d|
  {
    hide Enc;
    var n := |rs| - 1;
    var b := Body(rs[..n]);
    assert rs[..|rs|] == rs;
    assert d[HEADER..][..|b|] == b && d[HEADER..][|b|..] == Enc(rs[n]);
  }

  /** Record `k` stands between its offset and the next. */
  lemma {:induction false} RecordStands(d: seq<Byte>, rs: seq<Record>, k: nat)
    requires HEADER <= |d| && d[HEADER..] == Body(rs) && k < |rs|
    ensures Offset(rs, k + 1) == Offset(rs, k) + |Enc(rs[k])| <= |d|
    ensures d[Offset(rs, k)..Offset(rs, k + 1)] == Enc(rs[k])
    decreases |rs|
  {
    hide Enc, Body;
    var n := |rs| - 1;
    LastStands(d, rs);
    if k < n {
      var p := Offset(rs, n);
      RecordStands(d[..p], rs[..n], k);
      assert rs[..n][..k] == rs[..k] && rs[..n][..k + 1] == rs[..k + 1];
      SubSlice(d, 0, p, Offset(rs, k), Offset(rs, k + 1));
    }
  }

  lemma OffsetEnd(d: seq<Byte>, rs: seq<Record>)
    requires HEADER <= |d| && d[HEADER..] == Body(rs)
    ensures Offset(rs, |rs|) == |d| && Offset(rs, 0) == HEADER
  {
    assert rs[..|rs|] == rs;
  }

  lemma {:induction false} OffsetsIncrease(d: seq<Byte>, rs: seq<Record>, j: nat, k: nat)
    requires Built(d, rs) && j <= k <= |rs|
    ensures j < k ==> Offset(rs, j) < Offset(rs, k)
    ensures Offset(rs, j) <= |d|
    decreases k
  {
    hide Body, Ordered;
    if j < k {
      OffsetsIncrease(d, rs, j, k - 1);
      RecordStands(d, rs, k - 1);
    } else if k < |rs| {
      RecordStands(d, rs, k);
    } else {
      OffsetEnd(d, rs);
    }
  }

  lemma SplitRecord(d: seq<Byte>, o: nat, r: Record)
    requires o + |Enc(r)| <= |d| && d[o..o + |Enc(r)|] == Enc(r)
    ensures var p := o + |r.name|;
            && p + 4 <= |d| && d[o..p] == r.name && d[p..p + 4] == Fixed(r)
            && o + |Enc(r)| == p + 4 + |Tail(r)| && d[p + 4..p + 4 + |Tail(r)|] == Tail(r)
  {
    var e, n := Enc(r), |r.name|;
    assert e[..n] == r.name && e[n..n + 4] == Fixed(r) && e[n + 4..] == Tail(r);
    SubSlice(d, o, o + |e|, 0, n);
    SubSlice(d, o, o + |e|, n, n + 4);
    SubSlice(d, o, o + |e|, n + 4, |e|);
  }

  lemma FixedParts(d: seq<Byte>, p: nat, r: Record)
    requires p + 4 <= |d| && d[p..p + 4] == Fixed(r) && r.kind < 0x1_0000 && r.class_ < 0x1_0000
    ensures Word16(d, p) == r.kind && Word16(d, p + 2) == r.class_
  {
    var s := d[p..p + 4];
    assert s[..2] == Word(r.kind) && s[2..] == Word(r.class_);
    SubSlice(d, p, p + 4, 0, 2);
    SubSlice(d, p, p + 4, 2, 4);
    WordAt(d, p, r.kind);
    WordAt(d, p + 2, r.class_);
  }

  lemma RecordBuilt(d: seq<Byte>, rs: seq<Record>, k: nat)
    requires Built(d, rs) && k < |rs|
    ensures Offset(rs, k + 1) == Offset(rs, k) + |Enc(rs[k])| <= |d| < OFFSETS
    ensures Good(rs[k]) && d[Offset(rs, k)..Offset(rs, k + 1)] == Enc(rs[k])
  {
    hide Body, Enc, Ordered, Offset, Good;
    RecordStands(d, rs, k);
  }

  /** The parts of a record that stands at `o` and ends at `e`. */
  ghost predicate Parts(d: seq<Byte>, o: nat, e: nat, r: Record) {
    var p := o + |r.name|;
    && |d| < OFFSETS && SkipName(d, o) == p && o < p && p + 4 <= |d|
    && Word16(d, p) == r.kind && Word16(d, p + 2) == r.class_
    && (r.section == QD ==> e == p + 4)
    && (r.section != QD ==>
          && e == p + 10 + |r.rdata| <= |d|
          && d[p + 4..p + 8] == Ttl(r.ttl) && Word16(d, p + 8) == |r.rdata|
          && d[p + 10..p + 10 + |r.rdata|] == r.rdata)
  }

  /** The parts of record `k` in the packet. */
  lemma RecordParts(d: seq<Byte>, rs: seq<Record>, k: nat)
    requires Built(d, rs) && k < |rs|
    ensures Parts(d, Offset(rs, k), Offset(rs, k + 1), rs[k])
  {
    hide Parts, Enc, Built, Offset, Good;
    RecordBuilt(d, rs, k);
    PartsAt(d, Offset(rs, k), Offset(rs, k + 1), rs[k]);
  }

  lemma PartsAt(d: seq<Byte>, o: nat, e: nat, r: Record)
    requires Good(r) && e == o + |Enc(r)| <= |d| < OFFSETS && d[o..e] == Enc(r)
    ensures Parts(d, o, e, r)
  {
    hide SkipName, Fixed, Enc, Word16, Encoded, Word, Ttl, Tail;
    SplitRecord(d, o, r);
    SkipsEncoded(d, o, r.name);
    FixedParts(d, o + |r.name|, r);
    if r.section == QD { NoTail(r); } else { TailParts(d, o + |r.name| + 4, r); }
  }

  lemma NoTail(r: Record)
    requires r.section == QD
    ensures |Tail(r)| == 0
  {
  }

  lemma WordAt(d: seq<Byte>, p: nat, n: nat)
    requires n < 0x1_0000 && p + 2 <= |d| && d[p..p + 2] == Word(n)
    ensures Word16(d, p) == n
  {
    var s := d[p..p + 2];
    assert s[0] == d[p] && s[1] == d[p + 1];
  }

  lemma TailParts(d: seq<Byte>, p: nat, r: Record)
    requires r.section != QD && |r.rdata| < 0x1_0000 && p + |Tail(r)| <= |d|
    requires d[p..p + |Tail(r)|] == Tail(r)
    ensures |Tail(r)| == 6 + |r.rdata|
    ensures d[p..p + 4] == Ttl(r.ttl) && Word16(d, p + 4) == |r.rdata|
    ensures d[p + 6..p + 6 + |r.rdata|] == r.rdata
  {
    var s, n := Tail(r), |r.rdata|;
    assert s[..4] == Ttl(r.ttl) && s[4..6] == Word(n) && s[6..] == r.rdata;
    SubSlice(d, p, p + 6 + n, 0, 4);
    SubSlice(d, p, p + 6 + n, 4, 6);
    SubSlice(d, p, p + 6 + n, 6, 6 + n);
    WordAt(d, p + 4, n);
  }

  // ----- The walk -----------------------------------------------------------------------------

  /** The questions end where the first record of another section starts. */
  lemma {:induction false} QuestionsWalk(d: seq<Byte>, rs: seq<Record>, k: nat, n: nat)
    requires Built(d, rs) && k + n == UpTo(rs, 0)
    ensures k + n <= |rs| && QuestionsEnd(d, Offset(rs, k), n) == Offset(rs, k + n)
    decreases n
  {
    hide Built, SkipName, Offset, UpTo, Ordered;
    BuiltFacts(d, rs);
    UpToBound(rs, 0);
    OffsetsIncrease(d, rs, k, k);
    if n > 0 {
      UpToSplits(rs, 0, k);
      RecordParts(d, rs, k);
      QuestionsWalk(d, rs, k + 1, n - 1);
    }
  }

  lemma BuiltFacts(d: seq<Byte>, rs: seq<Record>)
    requires Built(d, rs)
    ensures HEADER <= |d| < OFFSETS && Ordered(rs) && Offset(rs, |rs|) == |d| && Offset(rs, 0) == HEADER
  {
    OffsetEnd(d, rs);
  }

  lemma QuestionsEndAt(d: seq<Byte>, rs: seq<Record>)
    requires Built(d, rs)
    ensures UpTo(rs, 0) <= |rs| && |d| < OFFSETS && QEnd(d, CountsOf(rs)) == Offset(rs, UpTo(rs, 0))
  {
    hide Built, Offset, UpTo, QuestionsEnd, CountsOf, Ordered;
    BuiltFacts(d, rs);
    CountsUpTo(rs);
    UpToBound(rs, 0);
    QuestionsWalk(d, rs, 0, UpTo(rs, 0));
  }

  /** Skipping record `k` leads to record `k + 1`. */
  lemma RecordSkips(d: seq<Byte>, rs: seq<Record>, k: nat)
    requires Built(d, rs) && k < |rs|
    ensures Offset(rs, k) < |d| < OFFSETS && RecordEnd(d, CountsOf(rs), Offset(rs, k)) == Offset(rs, k + 1)
  {
    hide Built, SkipName, Offset, UpTo, Ordered, QEnd, RecordEnd, Word16;
    BuiltFacts(d, rs);
    RecordParts(d, rs, k);
    QuestionsEndAt(d, rs);
    UpToSplits(rs, 0, k);
    var o := Offset(rs, k);
    var p := o + |rs[k].name|;
    if rs[k].section == QD {
      if k + 1 < UpTo(rs, 0) { OffsetsIncrease(d, rs, k + 1, UpTo(rs, 0)); }
      QuestionSkips(d, CountsOf(rs), o, p);
    } else {
      if UpTo(rs, 0) < k { OffsetsIncrease(d, rs, UpTo(rs, 0), k); }
      OtherSkips(d, CountsOf(rs), o, p, |rs[k].rdata|);
    }
  }

  lemma QuestionSkips(d: seq<Byte>, c: Counts, src: nat, p: nat)
    requires src < p && p + 4 <= |d| < OFFSETS && SkipName(d, src) == p && p + 4 <= QEnd(d, c)
    ensures RecordEnd(d, c, src) == p + 4
  {
    hide SkipName, QEnd;
  }

  lemma OtherSkips(d: seq<Byte>, c: Counts, src: nat, p: nat, n: nat)
    requires src < p && p + 10 + n <= |d| < OFFSETS && SkipName(d, src) == p && src >= QEnd(d, c) && Word16(d, p + 8) == n
    ensures RecordEnd(d, c, src) == p + 10 + n
  {
    hide SkipName, QEnd, Word16;
  }

  /** The walk from the header visits exactly the records that were pushed, in order. */
  lemma {:induction false} WalkVisits(d: seq<Byte>, rs: seq<Record>, k: nat)
    requires Built(d, rs) && k <= |rs|
    ensures |d| < OFFSETS && Nth(d, CountsOf(rs), k) == Offset(rs, k)
    ensures Nth(d, CountsOf(rs), k) < |d| <==> k < |rs|
  {
    hide Built, RecordEnd, Offset;
    BuiltFacts(d, rs);
    OffsetsIncrease(d, rs, k, |rs|);
    if k > 0 {
      WalkVisits(d, rs, k - 1);
      RecordSkips(d, rs, k - 1);
    }
  }

  // ----- Reading back ---------------------------------------------------------------------------

  /** What `dns_rr_parse` finds: the type, the class, the time to live and the data. */
  datatype Parsed = Parsed(question: bool, kind: nat, class_: nat, ttl: nat, rdata: seq<Byte>)

  function Parse(d: seq<Byte>, c: Counts, src: nat): Option<Parsed>
    requires |d| < OFFSETS
  {
    if src >= |d| then None
    else
      var p := SkipName(d, src);
      if |d| - p < 4 then None
      else
        var kind, class_ := Word16(d, p), Word16(d, p + 2);
        if src < QEnd(d, c) then Some(Parsed(true, kind, class_, 0, []))
        else if |d| - (p + 4) < 4 then None
        else
          var ttl := (d[p + 4] as nat % 128 * 256 + d[p + 5] as nat) * 0x1_0000 + Word16(d, p + 6);
          if |d| - (p + 8) < 2 then None
          else
            var rdlen := Word16(d, p + 8);
            if |d| - (p + 10) < rdlen then None
            else Some(Parsed(false, kind, class_, ttl, d[p + 10..p + 10 + rdlen]))
  }

  /** The record that was pushed: a time to live loses its top bit. */
  function Expected(r: Record): Parsed {
    if r.section == QD then Parsed(true, r.kind, r.class_, 0, [])
    else Parsed(false, r.kind, r.class_, r.ttl % 0x8000_0000, r.rdata)
  }

  lemma TtlReads(d: seq<Byte>, p: nat, t: nat)
    requires p + 4 <= |d| && d[p..p + 4] == Ttl(t)
    ensures (d[p] as nat % 128 * 256 + d[p + 1] as nat) * 0x1_0000 + Word16(d, p + 2) == t % 0x8000_0000
  {
    var s := d[p..p + 4];
    assert s[0] == d[p] && s[1] == d[p + 1] && s[2] == d[p + 2] && s[3] == d[p + 3];
    TtlSplits(t, t / 0x1_0000, t % 0x1_0000);
  }

  lemma TtlSplits(t: nat, q: nat, m: nat)
    requires t == q * 0x1_0000 + m && m < 0x1_0000
    ensures t / 0x100_0000 % 128 * 256 + t / 0x1_0000 % 256 == q % 0x8000
    ensures t / 0x100 % 256 * 256 + t % 256 == m
    ensures t % 0x8000_0000 == q % 0x8000 * 0x1_0000 + m
  {
    TtlHigh(t, q, m);
    TtlLow(t, q, m);
    M.DivModUnique(q / 0x8000, q % 0x8000 * 0x1_0000 + m, 0x8000_0000);
  }

  lemma TtlHigh(t: nat, q: nat, m: nat)
    requires t == q * 0x1_0000 + m && m < 0x1_0000
    ensures t / 0x100_0000 % 128 * 256 + t / 0x1_0000 % 256 == q % 0x8000
  {
    var y, x := q / 256, q % 256;
    var z, w := y / 128, y % 128;
    M.DivModUnique(y, x * 0x1_0000 + m, 0x100_0000);
    M.DivModUnique(q, m, 0x1_0000);
    M.DivModUnique(z, w * 256 + x, 0x8000);
  }

  lemma TtlLow(t: nat, q: nat, m: nat)
    requires t == q * 0x1_0000 + m && m < 0x1_0000
    ensures t / 0x100 % 256 * 256 + t % 256 == m
  {
    var u, v := m / 256, m % 256;
    M.DivModUnique(q * 256 + u, v, 256);
    M.DivModUnique(q, u, 256);
  }

  /** A record start is a question's exactly when it lies before the end of the questions. */
  lemma QuestionStart(d: seq<Byte>, rs: seq<Record>, k: nat)
    requires Built(d, rs) && k < |rs|
    ensures |d| < OFFSETS && (Offset(rs, k) < QEnd(d, CountsOf(rs)) <==> rs[k].section == QD)
  {
    hide Built, Offset, QEnd, UpTo, Ordered;
    BuiltFacts(d, rs);
    QuestionsEndAt(d, rs);
    UpToSplits(rs, 0, k);
    var n := UpTo(rs, 0);
    if k < n { OffsetsIncrease(d, rs, k, n); } else { OffsetsIncrease(d, rs, n, k); }
  }

  lemma ParsesQuestion(d: seq<Byte>, c: Counts, src: nat, p: nat, r: Record)
    requires src < p && p + 4 <= |d| < OFFSETS && SkipName(d, src) == p && src < QEnd(d, c)
    requires r.section == QD && Word16(d, p) == r.kind && Word16(d, p + 2) == r.class_
    ensures Parse(d, c, src) == Some(Expected(r))
  {
    hide SkipName, QEnd, Word16;
  }

  lemma ParsesRecord(d: seq<Byte>, c: Counts, src: nat, p: nat, r: Record)
    requires src < p && p + 10 + |r.rdata| <= |d| < OFFSETS && SkipName(d, src) == p && src >= QEnd(d, c)
    requires r.section != QD && Word16(d, p) == r.kind && Word16(d, p + 2) == r.class_
    requires d[p + 4..p + 8] == Ttl(r.ttl) && Word16(d, p + 8) == |r.rdata| && d[p + 10..p + 10 + |r.rdata|] == r.rdata
    ensures Parse(d, c, src) == Some(Expected(r))
  {
    hide SkipName, QEnd, Word16, Ttl;
    TtlReads(d, p + 4, r.ttl);
  }

  /** Every pushed record is read back. */
  lemma ParsesBack(d: seq<Byte>, rs: seq<Record>, k: nat)
    requires Built(d, rs) && k < |rs|
    ensures |d| < OFFSETS && Parse(d, CountsOf(rs), Offset(rs, k)) == Some(Expected(rs[k]))
  {
    hide Built, SkipName, Offset, QEnd, Ttl, Word16, Parse;
    RecordParts(d, rs, k);
    QuestionStart(d, rs, k);
    var r, p := rs[k], Offset(rs, k) + |rs[k].name|;
    if r.section == QD {
      ParsesQuestion(d, CountsOf(rs), Offset(rs, k), p, r);
    } else {
      ParsesRecord(d, CountsOf(rs), Offset(rs, k), p, r);
    }
  }

  /** The section of every pushed record is known from the memo. */
  lemma SectionKnown(d: seq<Byte>, rs: seq<Record>, k: nat)
    requires Built(d, rs) && k < |rs|
    ensures |d| < OFFSETS
    ensures SectionAt(d, CountsOf(rs), Study(d, CountsOf(rs)), Offset(rs, k)) == Some(rs[k].section)
  {
    hide Built, Offset, Study, SectionAt, Ordered;
    BuiltFacts(d, rs);
    WalkVisits(d, rs, k);
    MemoAgrees(d, CountsOf(rs), k);
    SectionOfRecord(rs, k);
  }

  /** An OPT record as it is written: neither the length of its data nor the data. */
  function OptBytes(name: seq<Byte>, class_: nat, ttl: nat): seq<Byte> { name + Word(OPT) + Word(class_) + Ttl(ttl) }

  lemma OptSkips(d: seq<Byte>, name: seq<Byte>, class_: nat, ttl: nat, rest: seq<Byte>)
    requires Encoded(name) && |d + OptBytes(name, class_, ttl) + rest| < OFFSETS
    ensures SkipName(d + OptBytes(name, class_, ttl) + rest, |d|) == |d| + |name| && |name| > 0
  {
    var f := d + OptBytes(name, class_, ttl) + rest;
    assert f[|d|..|d| + |name|] == name;
    SkipsEncoded(f, |d|, name);
  }

  /** So the first two bytes behind it are taken for the length of its data: it parses exactly if they are
      there with as many more behind them, whatever these belong to, and the walk goes on behind it exactly
      if it is the last record. */
  lemma OptIsCut(d: seq<Byte>, c: Counts, name: seq<Byte>, class_: nat, ttl: nat, rest: seq<Byte>)
    requires Encoded(name) && class_ < 0x1_0000 && |d + OptBytes(name, class_, ttl) + rest| < OFFSETS
    requires QEnd(d + OptBytes(name, class_, ttl) + rest, c) <= |d|
    ensures var f, e := d + OptBytes(name, class_, ttl) + rest, |d + OptBytes(name, class_, ttl)|;
            && (RecordEnd(f, c, |d|) == e <==> rest == [])
            && Parse(f, c, |d|) ==
               (if |rest| < 2 || |rest| - 2 < Word16(rest, 0) then None
                else Some(Parsed(false, 41, class_, ttl % 0x8000_0000, rest[2..2 + Word16(rest, 0)])))
  {
    hide Ttl, QEnd, Encoded, OptBytes, SkipName, Word, Word16;
    TtlSize(ttl);
    OptSkips(d, name, class_, ttl, rest);
    OptParts(d, name, class_, ttl, rest);
    if |rest| >= 2 && Word16(rest, 0) <= |rest| - 2 {
      var f, p := d + OptBytes(name, class_, ttl) + rest, |d| + |name| + 8;
      assert f[p..|f|] == rest;
      SubSlice(f, p, |f|, 2, 2 + Word16(rest, 0));
    }
  }

  /** The bytes behind the name of an OPT record. */
  lemma OptParts(d: seq<Byte>, name: seq<Byte>, class_: nat, ttl: nat, rest: seq<Byte>)
    requires class_ < 0x1_0000
    ensures var f, p := d + OptBytes(name, class_, ttl) + rest, |d| + |name|;
            && |f| == p + 8 + |rest| && |d + OptBytes(name, class_, ttl)| == p + 8 && f[p + 8..] == rest
            && Word16(f, p) == OPT && Word16(f, p + 2) == class_
            && (f[p + 4] as nat % 128 * 256 + f[p + 5] as nat) * 0x1_0000 + Word16(f, p + 6) == ttl % 0x8000_0000
            && (|rest| >= 2 ==> Word16(f, p + 8) == Word16(rest, 0))
  {
    TtlSize(ttl);
    hide Ttl;
    var f, p := d + OptBytes(name, class_, ttl) + rest, |d| + |name|;
    assert f[p..p + 2] == Word(OPT) && f[p + 2..p + 4] == Word(class_) && f[p + 4..p + 8] == Ttl(ttl);
    assert f[p + 8..] == rest;
    WordAt(f, p, OPT);
    WordAt(f, p + 2, class_);
    TtlReads(f, p + 4, ttl);
    if |rest| >= 2 { assert f[p + 8] == rest[0] && f[p + 9] == rest[1]; }
  }

  lemma TtlSize(t: nat)
    ensures |Ttl(t)| == 4
  {
  }

  // ----- The memo kept on the way -----------------------------------------------------------------

  /** The end of `dns_p_push`: `d` holds the new record already, `c` are the counts before. */
  function Memoize(m: Memos, s: Section, d: seq<Byte>, c: Counts): Memos
    requires |d| < OFFSETS
  {
    var here := Memo(|d|, |d|);
    match s
    case QD =>
      var m1 := if m.qd.base == 0 then Study(d, c) else m;
      Memos(m1.qd.(end := |d|), here, here, here)
    case AN =>
      var m1 := if m.an.base == 0 then Study(d, c) else m;
      m1.(an := m1.an.(end := |d|), ns := here, ar := here)
    case NS =>
      var m1 := if m.ns.base == 0 then Study(d, c) else m;
      m1.(ns := m1.ns.(end := |d|), ar := here)
    case AR =>
      var m1 := if m.ar.base == 0 then Study(d, c) else m;
      m1.(ar := m1.ar.(end := |d|))
  }

  /** The memo after pushing the records one by one onto a packet with the header `h`. */
  function Kept(h: seq<Byte>, rs: seq<Record>): Memos
    requires |h + Body(rs)| < OFFSETS
  {
    if rs == [] then UNSTUDIED
    else
      var before := rs[..|rs| - 1];
      Memoize(Kept(h, before), rs[|rs| - 1].section, h + Body(rs), CountsOf(before))
  }

  function MemosOf(rs: seq<Record>): Memos
    requires UpTo(rs, 2) <= |rs| && UpTo(rs, 1) <= |rs| && UpTo(rs, 0) <= |rs|
  {
    var q, a, n := Offset(rs, UpTo(rs, 0)), Offset(rs, UpTo(rs, 1)), Offset(rs, UpTo(rs, 2));
    Memos(Memo(HEADER, q), Memo(q, a), Memo(a, n), Memo(n, Offset(rs, |rs|)))
  }

  lemma StudyOf(d: seq<Byte>, rs: seq<Record>)
    requires Built(d, rs)
    ensures UpTo(rs, 2) <= |rs| && UpTo(rs, 1) <= |rs| && UpTo(rs, 0) <= |rs|
    ensures |d| < OFFSETS && Study(d, CountsOf(rs)) == MemosOf(rs)
  {
    hide Built, Study, Offset, Nth, UpTo;
    CountsUpTo(rs);
    BuiltFacts(d, rs);
    StudyMemos(d, CountsOf(rs));
    WalkVisits(d, rs, UpTo(rs, 0));
    WalkVisits(d, rs, UpTo(rs, 1));
    WalkVisits(d, rs, UpTo(rs, 2));
    WalkVisits(d, rs, |rs|);
  }

  /** The memo that is kept push by push is the one that a fresh study would make. */
  lemma {:induction false} KeptIsStudied(h: seq<Byte>, rs: seq<Record>)
    requires |h| == HEADER && rs != [] && Built(h + Body(rs), rs)
    ensures Kept(h, rs) == Study(h + Body(rs), CountsOf(rs))
  {
    var n, d := |rs| - 1, h + Body(rs);
    var before, s := rs[..n], rs[n].section;
    StudyOf(d, rs);
    if n == 0 {
      NoCounts(d);
      assert Body(rs[..0]) == [];
      assert rs[..0] == [] && rs[..1] == rs;
    } else {
      BuiltBefore(h, rs);
      KeptIsStudied(h, before);
      StudyOf(h + Body(before), before);
      OneMoreMemo(h, rs);
    }
  }

  lemma OffsetBefore(rs: seq<Record>, k: nat)
    requires rs != [] && k < |rs|
    ensures Offset(rs[..|rs| - 1], k) == Offset(rs, k)
  {
    assert rs[..|rs| - 1][..k] == rs[..k];
  }

  lemma OneMoreMemo(h: seq<Byte>, rs: seq<Record>)
    requires |h| == HEADER && |rs| > 1 && Built(h + Body(rs), rs)
    requires UpTo(rs, 2) <= |rs| && UpTo(rs, 1) <= |rs| && UpTo(rs, 0) <= |rs|
    ensures var before := rs[..|rs| - 1];
            && UpTo(before, 2) <= |before| && UpTo(before, 1) <= |before| && UpTo(before, 0) <= |before|
            && Memoize(MemosOf(before), rs[|rs| - 1].section, h + Body(rs), CountsOf(before)) == MemosOf(rs)
  {
    hide Body, Study, Built, Ordered;
    var n := |rs| - 1;
    var before := rs[..n];
    BuiltFacts(h + Body(rs), rs);
    UpToSplits(rs, 0, n);
    UpToSplits(rs, 1, n);
    UpToSplits(rs, 2, n);
    forall k: nat | k <= n ensures Offset(before, k) == Offset(rs, k) { OffsetBefore(rs, k); }
  }

  lemma NoCounts(d: seq<Byte>)
    requires |d| < OFFSETS
    ensures Study(d, Counts(0, 0, 0, 0)) == Memos(Memo(HEADER, HEADER), Memo(HEADER, HEADER), Memo(HEADER, HEADER), Memo(HEADER, HEADER))
  {
  }

  lemma BodyGrows(rs: seq<Record>)
    requires rs != []
    ensures |Body(rs[..|rs| - 1])| <= |Body(rs)|
  {
  }

  lemma BuiltBefore(h: seq<Byte>, rs: seq<Record>)
    requires |h| == HEADER && rs != [] && Built(h + Body(rs), rs)
    ensures Built(h + Body(rs[..|rs| - 1]), rs[..|rs| - 1])
  {
    hide Body, Encoded, Enc;
    var before := rs[..|rs| - 1];
    BodyGrows(rs);
    assert (h + Body(before))[HEADER..] == Body(before);
    assert forall i :: 0 <= i < |before| ==> before[i] == rs[i];
  }
}
