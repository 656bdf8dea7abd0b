/** Iteration over the records of a packet in packet order or in a shuffled order
    (`dns_rr_i_start`, `dns_rr_i_skip`, `dns_rr_i_shuffle`, `dns_rr_grep` of
    libs/async/src/dns/dns.c:2168-2348). */
module RecordIteration {
  import opened Bytes
  import opened NameSkip
  import opened Records
  import opened Enumeration
  import opened Shuffle
  import PacketRecords
  import RecordBuilding

  datatype Sort = ByPacket | Shuffled(seed: bv32)

  /** What an iterator looks for in a packet: records of some sections, or of all, that parse and
      satisfy the other conditions of `dns_rr_i_match`. */
  datatype Query = Query(d: seq<Byte>, c: Counts, m: Memos, filter: set<Section>, accepts: nat -> bool, sort: Sort)

  predicate InFilter(filter: set<Section>, s: Option<Section>) { filter == {} || (s.Some? && s.value in filter) }

  predicate Matches(q: Query, p: nat)
    requires |q.d| < OFFSETS
  {
    InFilter(q.filter, SectionAt(q.d, q.c, q.m, p)) && q.accepts(p)
  }

  /** The memo is fresh, or there is none yet. */
  ghost predicate Fresh(q: Query) { |q.d| < OFFSETS && (q.m == Study(q.d, q.c) || q.m == UNSTUDIED) }

  // ----- Order ----------------------------------------------------------------------------------

  /** The number of a section in the source; zero for none. */
  function Flag(s: Option<Section>): nat {
    match s
    case None => 0
    case Some(QD) => 1
    case Some(AN) => 2
    case Some(NS) => 4
    case Some(AR) => 8
  }

  function FlagAt(q: Query, p: nat): nat
    requires |q.d| < OFFSETS
  {
    Flag(SectionAt(q.d, q.c, q.m, p))
  }

  /** `dns_rr_i_packet` and `dns_rr_i_shuffle`. */
  function Compare(q: Query, a: nat, b: nat): int
    requires |q.d| < OFFSETS && a < |q.d| && b < |q.d|
  {
    match q.sort
    case ByPacket => a - b
    case Shuffled(seed) =>
      var cmp := FlagAt(q, a) - FlagAt(q, b);
      if cmp != 0 then cmp else Shuffle16(a, seed) - Shuffle16(b, seed)
  }

  /** The number that orders a record. */
  function Key(q: Query): nat -> int
    requires |q.d| < OFFSETS
  {
    (p: nat) =>
      if p >= |q.d| then -1
      else match q.sort
        case ByPacket => p
        case Shuffled(seed) => FlagAt(q, p) * 0x1_0000 + Shuffle16(p, seed)
  }

  /** Earlier sections come first in the shuffled order, and nothing comes before the first. */
  lemma SectionsInOrder(s: Section, t: Section)
    ensures Flag(None) < Flag(Some(s)) && (Flag(Some(s)) < Flag(Some(t)) <==> RecordBuilding.Rank(s) < RecordBuilding.Rank(t))
  {
  }

  lemma CompareIsKey(q: Query, a: nat, b: nat)
    requires |q.d| < OFFSETS && a < |q.d| && b < |q.d|
    ensures var key := Key(q);
            && (Compare(q, a, b) < 0 <==> key(a) < key(b))
            && (Compare(q, a, b) > 0 <==> key(a) > key(b))
            && (key(a) == key(b) ==> a == b)
            && key(a) >= 0
  {
    hide Shuffle16, FlagAt;
    if q.sort.Shuffled? {
      var seed := q.sort.seed;
      if FlagAt(q, a) == FlagAt(q, b) && Shuffle16(a, seed) == Shuffle16(b, seed) { ShuffleInjective(a, b, seed); }
    }
  }

  // ----- The records that match -------------------------------------------------------------------

  function If(b: bool, p: nat): seq<nat> { if b then [p] else [] }

  /** The matching records from `rp` on, in packet order. */
  function From(q: Query, rp: nat): seq<nat>
    requires |q.d| < OFFSETS
    decreases |q.d| - rp
  {
    if rp < |q.d| then If(Matches(q, rp), rp) + From(q, RecordEnd(q.d, q.c, rp)) else []
  }

  /** All of them. */
  function Matching(q: Query): seq<nat>
    requires |q.d| < OFFSETS
  {
    From(q, HEADER)
  }

  /** The matching records among the first `k`. */
  function Before(q: Query, k: nat): seq<nat>
    requires |q.d| < OFFSETS
  {
    if k == 0 then []
    else
      var p := Nth(q.d, q.c, k - 1);
      Before(q, k - 1) + If(p < |q.d| && Matches(q, p), p)
  }

  lemma FromStep(q: Query, k: nat)
    requires |q.d| < OFFSETS && k > 0
    ensures var p := Nth(q.d, q.c, k - 1);
            From(q, p) == If(p < |q.d| && Matches(q, p), p) + From(q, Nth(q.d, q.c, k))
  {
    hide Matches, RecordEnd;
  }

  lemma {:induction false} BeforeAndFrom(q: Query, k: nat)
    requires |q.d| < OFFSETS
    ensures Matching(q) == Before(q, k) + From(q, Nth(q.d, q.c, k))
  {
    hide Matches, RecordEnd, From;
    if k > 0 {
      BeforeAndFrom(q, k - 1);
      var p := Nth(q.d, q.c, k - 1);
      FromStep(q, k);
      assert Before(q, k - 1) + From(q, p) == Before(q, k) + From(q, Nth(q.d, q.c, k));
    }
  }

  lemma {:induction false} BeforeIsBelow(q: Query, k: nat, x: nat)
    requires |q.d| < OFFSETS && x in Before(q, k)
    ensures x < Nth(q.d, q.c, k) && x < |q.d| && exists i: nat :: i < k && x == Nth(q.d, q.c, i)
    decreases k
  {
    hide Matches, RecordEnd;
    var p := Nth(q.d, q.c, k - 1);
    NthIncreases(q.d, q.c, k - 1, k);
    if x in Before(q, k - 1) { BeforeIsBelow(q, k - 1, x); } else { assert x == p; }
  }

  lemma {:induction false} FromIsAbove(q: Query, rp: nat, x: nat)
    requires |q.d| < OFFSETS && x in From(q, rp)
    ensures rp <= x < |q.d|
    decreases |q.d| - rp
  {
    hide Matches, SkipName;
    if x != rp { FromIsAbove(q, RecordEnd(q.d, q.c, rp), x); }
  }

  /** The index of a matching record. */
  lemma {:induction false} IndexOf(q: Query, k: nat, x: nat) returns (i: nat)
    requires |q.d| < OFFSETS && x in From(q, Nth(q.d, q.c, k))
    ensures Nth(q.d, q.c, i) == x < |q.d|
    decreases |q.d| - Nth(q.d, q.c, k)
  {
    hide Matches, SkipName;
    var p := Nth(q.d, q.c, k);
    i := k;
    if x != p { i := IndexOf(q, k + 1, x); }
  }

  /** Where `dns_rr_i_start` begins: at the first section that is wanted. */
  function Base(m: Memos, filter: set<Section>): nat {
    if QD in filter && m.qd.base != 0 then m.qd.base
    else if AN in filter && m.an.base != 0 then m.an.base
    else if NS in filter && m.ns.base != 0 then m.ns.base
    else if AR in filter && m.ar.base != 0 then m.ar.base
    else HEADER
  }

  lemma {:induction false} NoneBefore(q: Query, k: nat)
    requires |q.d| < OFFSETS
    requires forall i: nat :: i < k && Nth(q.d, q.c, i) < |q.d| ==> !Matches(q, Nth(q.d, q.c, i))
    ensures Before(q, k) == []
  {
    hide Matches, RecordEnd;
    if k > 0 { NoneBefore(q, k - 1); }
  }

  /** The sections before the base hold nothing that is wanted. */
  lemma BaseLosesNothing(q: Query)
    requires Fresh(q)
    ensures From(q, Base(q.m, q.filter)) == Matching(q)
  {
    hide Study, SectionAt, From, RecordEnd;
    var k := if q.m == UNSTUDIED || QD in q.filter then 0
             else if AN in q.filter then q.c.qd
             else if NS in q.filter then q.c.qd + q.c.an
             else if AR in q.filter then q.c.qd + q.c.an + q.c.ns
             else 0;
    StudyMemos(q.d, q.c);
    BaseIs(q, k);
    forall i: nat | i < k && Nth(q.d, q.c, i) < |q.d| ensures !Matches(q, Nth(q.d, q.c, i)) {
      MemoAgrees(q.d, q.c, i);
    }
    NoneBefore(q, k);
    BeforeAndFrom(q, k);
    assert [] + From(q, Nth(q.d, q.c, k)) == From(q, Nth(q.d, q.c, k));
  }

  lemma BaseIs(q: Query, k: nat)
    requires Fresh(q)
    requires k == if q.m == UNSTUDIED || QD in q.filter then 0
                  else if AN in q.filter then q.c.qd
                  else if NS in q.filter then q.c.qd + q.c.an
                  else if AR in q.filter then q.c.qd + q.c.an + q.c.ns
                  else 0
    ensures Base(q.m, q.filter) == Nth(q.d, q.c, k)
  {
    hide Study, RecordEnd;
    var d, c := q.d, q.c;
    StudyMemos(d, c);
    NthIncreases(d, c, 0, c.qd);
    NthIncreases(d, c, 0, c.qd + c.an);
    NthIncreases(d, c, 0, c.qd + c.an + c.ns);
  }

  // ----- The iterator -----------------------------------------------------------------------------

  class RecordIterator {
    const packet: PacketRecords.Packet
    const filter: set<Section>
    const accepts: nat -> bool
    const sort: Sort
    var started: bool
    var next: nat
    /** The records handed out so far. */
    ghost var given: seq<nat>

    constructor (packet: PacketRecords.Packet, filter: set<Section>, accepts: nat -> bool, sort: Sort)
      ensures this.packet == packet && this.filter == filter && this.accepts == accepts && this.sort == sort
      ensures !started && given == []
    {
      this.packet, this.filter, this.accepts, this.sort := packet, filter, accepts, sort;
      started, next, given := false, 0, [];
    }

    ghost function Asked(): Query
      requires packet.Sized()
      reads packet, packet.data
    {
      Query(packet.Content(), packet.counts, packet.memos, filter, accepts, sort)
    }

    ghost predicate Ready()
      reads packet, packet.data
    {
      packet.Sized() && Fresh(Asked())
    }

    /** `r` is the offset of the next record above `low`, or the end of the packet. */
    ghost predicate Follows(low: int, r: nat)
      requires packet.Sized()
      reads packet, packet.data
    {
      IsNext(Matching(Asked()), Key(Asked()), low, if r < packet.end then Some(r) else None)
    }

    ghost predicate Valid()
      reads this, packet, packet.data
    {
      && Ready() && Steps(Matching(Asked()), Key(Asked()), given)
      && (if started then Follows(Below(Key(Asked()), given, |given|), next) else given == [])
    }

    /** One record of the walk. */
    method Look(rp: nat) returns (hit: bool, nxt: nat)
      requires packet.Sized() && rp < packet.end
      ensures hit == Matches(Asked(), rp) && nxt == RecordEnd(Asked().d, Asked().c, rp)
      ensures From(Asked(), rp) == If(hit, rp) + From(Asked(), nxt)
    {
      var s := packet.SectionOfStart(rp);
      hit := (filter == {} || (s.Some? && s.value in filter)) && accepts(rp);
      nxt := packet.SkipRecord(rp);
    }

    method Differ(a: nat, b: nat) returns (cmp: int)
      requires packet.Sized() && a < packet.end && b < packet.end
      ensures cmp == Compare(Asked(), a, b)
    {
      hide Shuffle16, SectionAt;
      match sort
      case ByPacket => cmp := a - b;
      case Shuffled(seed) =>
        var s := packet.SectionOfStart(a);
        var t := packet.SectionOfStart(b);
        cmp := Flag(s) - Flag(t);
        if cmp == 0 {
          var x: int := ShuffleLoop(a, seed);
          var y: int := ShuffleLoop(b, seed);
          cmp := x - y;
        }
    }

    /** The search has looked at `done`, and goes on at `rp`; `r` is the best so far. */
    ghost predicate Searched(low: int, done: seq<nat>, rp: nat, r: Option<nat>)
      requires packet.Sized()
      reads packet, packet.data
    {
      && Matching(Asked()) == done + From(Asked(), rp)
      && IsNext(done, Key(Asked()), low, r)
      && (r.Some? ==> r.value < packet.end)
    }

    lemma SearchedStep(low: int, done: seq<nat>, rp: nat, r: Option<nat>, hit: bool, nxt: nat) returns (done': seq<nat>)
      requires packet.Sized() && rp < packet.end && Searched(low, done, rp, r)
      requires From(Asked(), rp) == If(hit, rp) + From(Asked(), nxt)
      ensures Searched(low, done', nxt, if hit then Better(Key(Asked()), low, r, rp) else r)
    {
      hide From, IsNext, Key;
      done' := done + If(hit, rp);
      assert done + (If(hit, rp) + From(Asked(), nxt)) == done' + From(Asked(), nxt);
      if hit { BetterIsNext(done, Key(Asked()), low, r, rp); } else { assert done' == done; }
    }

    lemma SearchedAll(low: int, done: seq<nat>, rp: nat, r: Option<nat>, e: nat)
      requires packet.Sized() && rp >= packet.end && Searched(low, done, rp, r)
      requires if r.Some? then e == r.value else e >= packet.end
      ensures Follows(low, e)
    {
      assert done + [] == done;
    }

    /** In packet order the first record found is the next one. */
    lemma FirstFollows(low: int, done: seq<nat>, rp: nat)
      requires packet.Sized() && rp < packet.end && sort.ByPacket? && Matches(Asked(), rp) && low < rp
      requires Searched(low, done, rp, None)
      ensures Follows(low, rp)
    {
      var q := Asked();
      forall y | y in From(q, rp) ensures rp <= y < packet.end { FromIsAbove(q, rp, y); }
      assert rp in If(true, rp) && rp in From(q, rp);
    }

    /** `dns_rr_i_start`. */
    method Start() returns (r0: nat)
      requires Ready()
      ensures Follows(-1, r0)
    {
      hide Matches, From, IsNext, Key, Compare, Study, SectionAt, RecordEnd;
      ghost var q := Asked();
      var rp := Base(packet.memos, filter);
      BaseLosesNothing(q);
      ghost var done: seq<nat> := [];
      StartSearched(rp);
      while rp < packet.end
        invariant Searched(-1, done, rp, None)
        decreases packet.end - rp
      {
        var hit, nxt := Look(rp);
        if hit { break; }
        done := SearchedStep(-1, done, rp, None, hit, nxt);
        RecordForward(q, rp);
        rp := nxt;
      }
      if rp >= packet.end {
        SearchedAll(-1, done, rp, None, packet.end);
        return packet.end;
      }
      r0 := rp;
      if sort.ByPacket? {
        FirstFollows(-1, done, rp);
        return;
      }
      CompareIsKey(q, rp, rp);
      r0 := Smallest(done, rp);
    }

    /** The loop of `dns_rr_i_start` over the records after the first one found. */
    method Smallest(ghost done0: seq<nat>, first: nat) returns (r0: nat)
      requires packet.Sized() && first < packet.end && Matches(Asked(), first) && Key(Asked())(first) >= 0
      requires Searched(-1, done0, first, None)
      ensures Follows(-1, r0)
    {
      hide Matches, From, IsNext, Key, Compare, SectionAt, RecordEnd;
      ghost var q, done := Asked(), done0;
      var hit, rp := Look(first);
      done := SearchedStep(-1, done, first, None, hit, rp);
      r0 := first;
      while rp < packet.end
        invariant r0 < packet.end && Searched(-1, done, rp, Some(r0))
        decreases packet.end - rp
      {
        var nxt;
        hit, nxt := Look(rp);
        var cmp := Differ(rp, r0);
        CompareIsKey(q, rp, r0);
        done := SearchedStep(-1, done, rp, Some(r0), hit, nxt);
        RecordForward(q, rp);
        if hit && cmp < 0 { r0 := rp; }
        rp := nxt;
      }
      SearchedAll(-1, done, rp, Some(r0), r0);
    }

    /** `dns_rr_i_skip`, from a record that was handed out. */
    method Skip(r0: nat) returns (r1: nat)
      requires Ready() && r0 in Matching(Asked())
      ensures Follows(Key(Asked())(r0), r1)
    {
      hide Matches, From, Matching, IsNext, Key, Compare, Fresh, SectionAt, RecordEnd;
      ghost var q, low := Asked(), Key(Asked())(r0);
      MatchingInside(q, r0);
      if sort.ByPacket? { KeyByPacket(q, r0); }
      ghost var done: seq<nat> := [];
      var rp := HEADER;
      StartSearchedAt(low);
      if sort.ByPacket? {
        rp := packet.SkipRecord(r0);
        RecordForward(q, r0);
        done := SkipSearched(r0, low);
      }
      while rp < packet.end
        invariant Searched(low, done, rp, None)
        invariant sort.ByPacket? ==> rp > r0
        decreases packet.end - rp
      {
        var hit, nxt := Look(rp);
        var cmp := Differ(rp, r0);
        CompareIsKey(q, rp, r0);
        if hit && cmp > 0 { break; }
        done := SearchedStep(low, done, rp, None, hit, nxt);
        RecordForward(q, rp);
        rp := nxt;
      }
      if rp >= packet.end {
        SearchedAll(low, done, rp, None, packet.end);
        return packet.end;
      }
      if sort.ByPacket? {
        FirstFollows(low, done, rp);
        return rp;
      }
      r1 := SmallestAbove(r0, low, done, rp);
    }

    /** The loop of `dns_rr_i_skip` over the records after the first one found. */
    method SmallestAbove(r0: nat, ghost low: int, ghost done0: seq<nat>, first: nat) returns (r1: nat)
      requires packet.Sized() && first < packet.end && r0 < packet.end && Matches(Asked(), first)
      requires low == Key(Asked())(r0) < Key(Asked())(first)
      requires Searched(low, done0, first, None)
      ensures Follows(low, r1)
    {
      hide Matches, From, IsNext, Key, Compare, SectionAt, RecordEnd;
      ghost var q, done := Asked(), done0;
      var hit, rp := Look(first);
      done := SearchedStep(low, done, first, None, hit, rp);
      r1 := first;
      while rp < packet.end
        invariant r1 < packet.end && Searched(low, done, rp, Some(r1))
        decreases packet.end - rp
      {
        var nxt;
        hit, nxt := Look(rp);
        var above := Differ(rp, r0);
        var cmp := Differ(rp, r1);
        CompareIsKey(q, rp, r0);
        CompareIsKey(q, rp, r1);
        done := SearchedStep(low, done, rp, Some(r1), hit, nxt);
        RecordForward(q, rp);
        if hit && above > 0 && cmp < 0 { r1 := rp; }
        rp := nxt;
      }
      SearchedAll(low, done, rp, Some(r1), r1);
    }

    /** `dns_rr_grep`: the next records, at most `lim`; fewer only at the end, and then every
        matching record has been handed out once, in order. */
    method Grep(lim: nat) returns (rr: seq<nat>)
      requires Valid()
      modifies this
      ensures Valid() && |rr| <= lim && given == old(given) + rr
      ensures |rr| < lim ==> Done()
    {
      hide Steps, IsNext, Key, Fresh, Matching;
      rr := [];
      if !started {
        next := Start();
        started := true;
      }
      while |rr| < lim && next < packet.end
        invariant Valid() && started && |rr| <= lim && given == old(given) + rr
        decreases lim - |rr|
      {
        StepsSnoc(Matching(Asked()), Key(Asked()), given, next);
        NextMatches(next);
        rr := rr + [next];
        given := given + [next];
        next := Skip(next);
      }
      if |rr| < lim { AllGiven(); }
    }

    lemma NextMatches(r: nat)
      requires packet.Sized() && r < packet.end && IsNext(Matching(Asked()), Key(Asked()), Below(Key(Asked()), given, |given|), Some(r))
      ensures r in Matching(Asked())
    {
    }

    /** Every matching record has been handed out once, and in order. */
    ghost predicate Done()
      requires packet.Sized()
      reads this, packet, packet.data
    {
      && (forall i, j :: 0 <= i < j < |given| ==> Key(Asked())(given[i]) < Key(Asked())(given[j]))
      && (forall p :: p in Matching(Asked()) <==> p in given)
      && (forall i, j :: 0 <= i < j < |given| ==> given[i] != given[j])
    }

    lemma AllGiven()
      requires Valid() && started && next >= packet.end
      ensures Done()
    {
      hide Steps, IsNext, Key, Compare, Fresh;
      var q := Asked();
      var s, key := Matching(q), Key(q);
      forall x, y | x in s && y in s ensures key(x) >= 0 && (key(x) == key(y) ==> x == y) {
        FromIsAbove(q, HEADER, x);
        FromIsAbove(q, HEADER, y);
        CompareIsKey(q, x, y);
      }
      Complete(s, key, given);
    }

    lemma StartSearchedAt(low: int)
      requires packet.Sized()
      ensures Searched(low, [], HEADER, None)
    {
      assert [] + From(Asked(), HEADER) == Matching(Asked());
    }

    /** In packet order the records up to `r0` are not above it. */
    lemma SkipSearched(r0: nat, low: int) returns (done: seq<nat>)
      requires Ready() && r0 in Matching(Asked()) && sort.ByPacket? && r0 < packet.end && low == r0
      ensures Searched(low, done, RecordEnd(Asked().d, Asked().c, r0), None)
    {
      hide Matches, RecordEnd, Fresh;
      var q := Asked();
      var i := IndexOf(q, 0, r0);
      BeforeAndFrom(q, i + 1);
      done := Before(q, i + 1);
      forall y | y in done ensures y <= r0 < |q.d| && y < |q.d| {
        BeforeIsBelow(q, i + 1, y);
        var k: nat :| k < i + 1 && y == Nth(q.d, q.c, k);
        NthIncreases(q.d, q.c, k, i);
      }
    }

    lemma StartSearched(rp: nat)
      requires packet.Sized() && From(Asked(), rp) == Matching(Asked())
      ensures Searched(-1, [], rp, None)
    {
      assert [] + From(Asked(), rp) == From(Asked(), rp);
    }
  }

  lemma MatchingInside(q: Query, p: nat)
    requires |q.d| < OFFSETS && p in Matching(q)
    ensures p < |q.d|
  {
    FromIsAbove(q, HEADER, p);
  }

  lemma KeyByPacket(q: Query, p: nat)
    requires p < |q.d| < OFFSETS && q.sort.ByPacket?
    ensures Key(q)(p) == p
  {
  }

  lemma RecordForward(q: Query, rp: nat)
    requires rp < |q.d| < OFFSETS
    ensures rp < RecordEnd(q.d, q.c, rp) <= |q.d|
  {
  }
}
