/** Records in a packet as a value (libs/async/src/dns/dns.c:1090-1107, 1279-1387, 1437-1471,
    1935-2055): where they end, which section they belong to, and the memo of the sections. */
module Records {
  import opened Bytes
  import opened NameSkip

  const HEADER: nat := 12

  datatype Section = QD | AN | NS | AR

  /** The four counts of the header. */
  datatype Counts = Counts(qd: nat, an: nat, ns: nat, ar: nat)

  datatype Memo = Memo(base: nat, end: nat)

  datatype Memos = Memos(qd: Memo, an: Memo, ns: Memo, ar: Memo)

  const UNSTUDIED: Memos := Memos(Memo(0, 0), Memo(0, 0), Memo(0, 0), Memo(0, 0))

  function Word16(d: seq<Byte>, p: nat): nat
    requires p + 2 <= |d|
  {
    d[p] as nat * 256 + d[p + 1] as nat
  }

  // ----- Reading ------------------------------------------------------------------------------

  /** The loop of `dns_p_qend`, from `p`, over `n` questions. */
  function QuestionsEnd(d: seq<Byte>, p: nat, n: nat): (r: nat)
    requires |d| < OFFSETS
    ensures r <= |d| && (p <= |d| ==> p <= r)
    decreases n
  {
    if n == 0 || p >= |d| then Min(p, |d|)
    else
      var s := SkipName(d, p);
      if |d| - s < 4 then |d| else QuestionsEnd(d, s + 4, n - 1)
  }

  function QEnd(d: seq<Byte>, c: Counts): nat
    requires |d| < OFFSETS
  {
    QuestionsEnd(d, HEADER, c.qd)
  }

  /** `dns_rr_skip`: the end of the record at `src`; the end of the packet if it is cut off. */
  function RecordEnd(d: seq<Byte>, c: Counts, src: nat): (r: nat)
    requires src < |d| < OFFSETS
    ensures src < r <= |d|
  {
    var p := SkipName(d, src);
    if |d| - p < 4 then |d|
    else if p + 4 <= QEnd(d, c) then p + 4
    else if |d| - (p + 4) < 6 then |d|
    else
      var rdlen := Word16(d, p + 8);
      if |d| - (p + 10) < rdlen then |d| else p + 10 + rdlen
  }

  /** The start of the `i`-th record of a walk from the header. */
  function Nth(d: seq<Byte>, c: Counts, i: nat): (r: nat)
    requires |d| < OFFSETS
    ensures HEADER <= |d| ==> HEADER <= r <= |d|
  {
    if i == 0 then HEADER
    else
      var p := Nth(d, c, i - 1);
      if p < |d| then RecordEnd(d, c, p) else p
  }

  /** The loop of `dns_s_study`, from `rp`, over `count` records. */
  function StudyEnd(d: seq<Byte>, c: Counts, rp: nat, count: nat): nat
    requires |d| < OFFSETS
    decreases count
  {
    if count == 0 || rp >= |d| then rp else StudyEnd(d, c, RecordEnd(d, c, rp), count - 1)
  }

  /** `dns_p_study`. */
  function Study(d: seq<Byte>, c: Counts): Memos
    requires |d| < OFFSETS
  {
    var e1 := StudyEnd(d, c, HEADER, c.qd);
    var e2 := StudyEnd(d, c, e1, c.an);
    var e3 := StudyEnd(d, c, e2, c.ns);
    var e4 := StudyEnd(d, c, e3, c.ar);
    Memos(Memo(HEADER, e1), Memo(e1, e2), Memo(e2, e3), Memo(e3, e4))
  }

  predicate Within(m: Memo, src: nat) { m.base <= src < m.end }

  /** The first half of `dns_rr_section`. */
  function SectionByMemo(m: Memos, src: nat): Option<Section> {
    if Within(m.qd, src) then Some(QD)
    else if Within(m.an, src) then Some(AN)
    else if Within(m.ns, src) then Some(NS)
    else if Within(m.ar, src) then Some(AR)
    else None
  }

  /** The number of records before `src`, counting from `rp`. */
  function RecordsBefore(d: seq<Byte>, c: Counts, rp: nat, src: nat): nat
    requires |d| < OFFSETS
    decreases |d| - rp
  {
    if rp < src && rp < |d| then 1 + RecordsBefore(d, c, RecordEnd(d, c, rp), src) else 0
  }

  /** The section of the record with a given index; beyond all counts, none. */
  function SectionOf(c: Counts, index: nat): Option<Section> {
    if index < c.qd then Some(QD)
    else if index < c.qd + c.an then Some(AN)
    else if index < c.qd + c.an + c.ns then Some(NS)
    else if index < c.qd + c.an + c.ns + c.ar then Some(AR)
    else None
  }

  /** The second half of `dns_rr_section`. */
  function SectionByCount(d: seq<Byte>, c: Counts, src: nat): Option<Section>
    requires |d| < OFFSETS
  {
    SectionOf(c, RecordsBefore(d, c, HEADER, src))
  }

  /** `dns_rr_section`. */
  function SectionAt(d: seq<Byte>, c: Counts, m: Memos, src: nat): Option<Section>
    requires |d| < OFFSETS
  {
    var s := SectionByMemo(m, src);
    if s.Some? then s else SectionByCount(d, c, src)
  }

  // ----- The memo classifies as counting does ----------------------------------------------------

  lemma {:induction false} NthIncreases(d: seq<Byte>, c: Counts, i: nat, j: nat)
    requires |d| < OFFSETS && i <= j
    ensures Nth(d, c, i) <= Nth(d, c, j)
    ensures i < j && Nth(d, c, i) < |d| ==> Nth(d, c, i) < Nth(d, c, j)
    decreases j
  {
    if i < j { NthIncreases(d, c, i, j - 1); }
  }

  lemma {:induction false} StudyIsNth(d: seq<Byte>, c: Counts, a: nat, n: nat)
    requires |d| < OFFSETS
    ensures StudyEnd(d, c, Nth(d, c, a), n) == Nth(d, c, a + n)
    decreases n
  {
    hide RecordEnd;
    if n > 0 {
      if Nth(d, c, a) < |d| {
        StudyIsNth(d, c, a + 1, n - 1);
      } else {
        StudyIsNth(d, c, a, n - 1);
      }
    }
  }

  lemma StudyMemos(d: seq<Byte>, c: Counts)
    requires |d| < OFFSETS
    ensures var q, a, n := c.qd, c.qd + c.an, c.qd + c.an + c.ns;
            Study(d, c) == Memos(
              Memo(HEADER, Nth(d, c, q)), Memo(Nth(d, c, q), Nth(d, c, a)),
              Memo(Nth(d, c, a), Nth(d, c, n)), Memo(Nth(d, c, n), Nth(d, c, n + c.ar)))
  {
    hide RecordEnd;
    StudyIsNth(d, c, 0, c.qd);
    StudyIsNth(d, c, c.qd, c.an);
    StudyIsNth(d, c, c.qd + c.an, c.ns);
    StudyIsNth(d, c, c.qd + c.an + c.ns, c.ar);
  }

  lemma {:induction false} CountsRecords(d: seq<Byte>, c: Counts, k: nat, i: nat)
    requires |d| < OFFSETS && k <= i && Nth(d, c, i) < |d|
    ensures RecordsBefore(d, c, Nth(d, c, k), Nth(d, c, i)) == i - k
    decreases i - k
  {
    hide RecordEnd;
    NthIncreases(d, c, k, i);
    if k < i { CountsRecords(d, c, k + 1, i); }
  }

  /** After a study the memo says of every record start what counting from the header says,
      and both tell the section from the index of the record. */
  lemma MemoAgrees(d: seq<Byte>, c: Counts, i: nat)
    requires |d| < OFFSETS && Nth(d, c, i) < |d|
    ensures SectionAt(d, c, Study(d, c), Nth(d, c, i)) == SectionByCount(d, c, Nth(d, c, i)) == SectionOf(c, i)
  {
    hide Nth, Study, StudyEnd, RecordsBefore;
    FirstNth(d, c);
    CountsRecords(d, c, 0, i);
    StudyMemos(d, c);
    var q, a, n := c.qd, c.qd + c.an, c.qd + c.an + c.ns;
    Boundary(d, c, i, q);
    Boundary(d, c, i, a);
    Boundary(d, c, i, n);
    Boundary(d, c, i, n + c.ar);
  }

  lemma FirstNth(d: seq<Byte>, c: Counts)
    requires |d| < OFFSETS
    ensures Nth(d, c, 0) == HEADER
  {
  }

  lemma Boundary(d: seq<Byte>, c: Counts, i: nat, k: nat)
    requires |d| < OFFSETS && Nth(d, c, i) < |d|
    ensures Nth(d, c, i) < Nth(d, c, k) <==> i < k
    ensures HEADER <= Nth(d, c, i)
  {
    if i < k { NthIncreases(d, c, i, k); } else { NthIncreases(d, c, k, i); }
    NthIncreases(d, c, 0, i);
  }
}
