/** The optimistic dequeue counters of an implicit producer
    (libs/async/include/suil/async/detail/concurrentqueue.h:705-721, 2142-2167, 3452-3640):
    one producer enqueues, any number of consumers dequeue, and every atomic access is one
    step.  The counters are kept unbounded here and are compared, as in the source, modulo
    2^64 with `circular_less_than`. */
module OptimisticDequeue {
  type Tid = nat
  type Item = nat

  const WORD: nat := 0x1_0000_0000_0000_0000
  const HALF: nat := 0x8000_0000_0000_0000
  const BLOCK_SIZE: nat := 32

  /** `circular_less_than` on 64-bit values. */
  predicate CircularLess(a: nat, b: nat) { (a - b) % WORD > HALF }

  /** The producer: idle; with room for the item; with the item constructed in its slot. */
  datatype Producer = PIdle | PReady(item: Item) | PStored(item: Item)

  datatype Pc =
    | Idle
    | HasTail(tail: nat)
    | HasOver(tail: nat, over: nat)
    | Checked(over: nat)
    | Ticketed(over: nat, mine: nat)
    | Winner(mine: nat)
    | Loser(mine: nat)
    | Reading(index: nat)
    | Emptying(index: nat, item: Item)
    | Freeing(block: nat)

  /** `log` is the history of what has been enqueued.  `at` maps the number of a block of
      indices to the memory block that serves it, `cells` the slots of memory blocks to
      elements, `counts` is their `elementsCompletelyDequeued`, `pool` holds the memory blocks
      that are free, `freed` lists the blocks of indices that were given up, and `got` is what
      consumers have received from which index. */
  datatype State = State(
    tail: nat, head: nat, optimistic: nat, overcommit: nat,
    log: seq<Item>, at: map<nat, nat>, cells: map<(nat, nat), Item>, counts: map<nat, nat>,
    pool: set<nat>, freed: seq<nat>, got: map<nat, Item>,
    producer: Producer, pc: map<Tid, Pc>)

  function BlockOf(i: nat): nat { i / BLOCK_SIZE }

  function At(s: State, b: nat): nat { if b in s.at then s.at[b] else 0 }

  function Count(s: State, m: nat): nat { if m in s.counts then s.counts[m] else 0 }

  function CellOf(s: State, i: nat): (nat, nat) { (At(s, BlockOf(i)), i % BLOCK_SIZE) }

  function Cell(s: State, i: nat): Item { if CellOf(s, i) in s.cells then s.cells[CellOf(s, i)] else 0 }

  // ----- Steps -------------------------------------------------------------------------

  /** `enqueue`.  At a block boundary there must be room in the circular index space and a
      free memory block, whose counter is cleared. */
  ghost predicate ProducerStep(s: State, s': State) {
    match s.producer
    case PIdle =>
      exists item ::
        if s.tail % BLOCK_SIZE != 0 then s' == s.(producer := PReady(item))
        else CircularLess(s.head, s.tail + BLOCK_SIZE) && exists m | m in s.pool :: s' == NewBlock(s, m, item)
    case PReady(item) => s' == Construct(s, item)
    case PStored(_) => s' == s.(producer := PIdle, tail := s.tail + 1)
  }

  function NewBlock(s: State, m: nat, item: Item): State {
    s.(producer := PReady(item), pool := s.pool - {m}, counts := s.counts[m := 0],
       at := s.at[BlockOf(s.tail) := m])
  }

  function Construct(s: State, item: Item): State {
    s.(producer := PStored(item), log := s.log + [item], cells := s.cells[CellOf(s, s.tail) := item])
  }

  function Goto(s: State, t: Tid, p: Pc): State { s.(pc := s.pc[t := p]) }

  /** The next atomic step of `dequeue`. */
  function ConsumerNext(s: State, t: Tid): State
    requires t in s.pc
  {
    match s.pc[t]
    case Idle => Goto(s, t, HasTail(s.tail))
    case HasTail(tl) => Goto(s, t, HasOver(tl, s.overcommit))
    case HasOver(tl, ov) =>
      if CircularLess((s.optimistic - ov) % WORD, tl) then Goto(s, t, Checked(ov)) else Goto(s, t, Idle)
    case Checked(ov) => Goto(s, t, Ticketed(ov, s.optimistic)).(optimistic := s.optimistic + 1)
    case Ticketed(ov, mine) =>
      if CircularLess((mine - ov) % WORD, s.tail) then Goto(s, t, Winner(mine)) else Goto(s, t, Loser(mine))
    case Winner(_) => Goto(s, t, Reading(s.head)).(head := s.head + 1)
    case Loser(_) => Goto(s, t, Idle).(overcommit := s.overcommit + 1)
    case Reading(i) => Goto(s, t, Emptying(i, Cell(s, i)))
    case Emptying(i, item) =>
      var m := At(s, BlockOf(i));
      var s' := s.(counts := s.counts[m := Count(s, m) + 1], got := s.got[i := item]);
      if Count(s, m) == BLOCK_SIZE - 1 then Goto(s', t, Freeing(BlockOf(i))) else Goto(s', t, Idle)
    case Freeing(b) =>
      Goto(s, t, Idle).(at := s.at - {b}, pool := s.pool + {At(s, b)}, freed := s.freed + [b])
  }

  /** A consumer compares its ticket before 2^63 other dequeues have overtaken it; this is
      what makes 64-bit circular comparison meaningful at all. */
  predicate Timely(s: State, t: Tid)
    requires t in s.pc
  {
    s.pc[t].Ticketed? ==> s.pc[t].mine <= s.pc[t].over + s.tail + HALF
  }

  ghost predicate Step(s: State, s': State) {
    ProducerStep(s, s') || exists t :: ConsumerStep(s, t, s')
  }

  ghost predicate ConsumerStep(s: State, t: Tid, s': State) {
    t in s.pc && Timely(s, t) && s' == ConsumerNext(s, t)
  }

  ghost predicate Init(s: State) {
    && s.tail == s.head == s.optimistic == s.overcommit == 0
    && s.log == [] && s.at == map[] && s.freed == [] && s.got == map[]
    && s.producer == PIdle
    && forall t | t in s.pc :: s.pc[t] == Idle
  }

  ghost predicate Run(run: seq<State>) {
    && |run| > 0
    && Init(run[0])
    && forall i :: 0 <= i < |run| - 1 ==> Step(run[i], run[i + 1])
  }

  function Last(run: seq<State>): State
    requires |run| > 0
  {
    run[|run| - 1]
  }

  // ----- What has become of tickets, indices and blocks -------------------------------------

  /** The `c`-th increment of the optimistic count. */
  datatype Ticket = Pending(t: Tid) | Won(t: Tid) | Lost(t: Tid) | Used | Repaid

  /** The `i`-th increment of the head index. */
  datatype Take = Busy(t: Tid) | Done

  datatype Ghost = Ghost(tickets: seq<Ticket>, takes: seq<Take>, releasing: map<nat, Tid>)

  datatype Kind = Repayments | Uses | Standings | Gains

  /** Repaid tickets, used tickets, tickets not known to have failed, tickets that won. */
  predicate Counts(k: Kind, x: Ticket) {
    match k
    case Repayments => x.Repaid?
    case Uses => x.Used?
    case Standings => !x.Lost? && !x.Repaid?
    case Gains => x.Used? || x.Won?
  }

  function Tally(k: Kind, ts: seq<Ticket>): nat {
    if ts == [] then 0 else Tally(k, ts[..|ts| - 1]) + (if Counts(k, ts[|ts| - 1]) then 1 else 0)
  }

  /** How many of the first `n` indices of block `b` are done with. */
  function DoneIn(takes: seq<Take>, b: nat, n: nat): nat {
    if n == 0 then 0
    else DoneIn(takes, b, n - 1)
         + (if b * BLOCK_SIZE + n - 1 < |takes| && takes[b * BLOCK_SIZE + n - 1].Done? then 1 else 0)
  }

  ghost predicate LocalOk(s: State, g: Ghost, t: Tid)
    requires t in s.pc
  {
    match s.pc[t]
    case HasOver(_, ov) => ov <= s.overcommit
    case Checked(ov) => ov <= s.overcommit
    case Ticketed(ov, c) =>
      c < |g.tickets| && g.tickets[c] == Pending(t) && ov <= Tally(Repayments, g.tickets[..c])
    case Winner(c) => c < |g.tickets| && g.tickets[c] == Won(t)
    case Loser(c) => c < |g.tickets| && g.tickets[c] == Lost(t)
    case Reading(i) => i < |g.takes| && g.takes[i] == Busy(t)
    case Emptying(i, item) => i < |g.takes| && g.takes[i] == Busy(t) && i < |s.log| && item == s.log[i]
    case Freeing(b) => b in g.releasing && g.releasing[b] == t
    case _ => true
  }

  /** The thread that a ticket names is where the ticket says, and no ticket wins that could
      run ahead of the tail. */
  ghost predicate TicketOk(s: State, g: Ghost, c: nat)
    requires c < |g.tickets|
  {
    match g.tickets[c]
    case Pending(t) => t in s.pc && s.pc[t].Ticketed? && s.pc[t].mine == c
    case Won(t) => t in s.pc && s.pc[t] == Winner(c) && Tally(Standings, g.tickets[..c]) < s.tail
    case Lost(t) => t in s.pc && s.pc[t] == Loser(c)
    case Used => Tally(Standings, g.tickets[..c]) < s.tail
    case Repaid => true
  }

  ghost predicate TakeOk(s: State, g: Ghost, i: nat)
    requires i < |g.takes|
  {
    match g.takes[i]
    case Busy(t) =>
      && t in s.pc && (s.pc[t].Reading? || s.pc[t].Emptying?) && s.pc[t].index == i
      && i !in s.got
    case Done => i in s.got && i < |s.log| && s.got[i] == s.log[i]
  }

  predicate IsDone(g: Ghost, i: nat) { i < |g.takes| && g.takes[i].Done? }

  /** An element that has been constructed and not yet consumed is where its index says. */
  ghost predicate CellOk(s: State, g: Ghost, i: nat)
    requires i < |s.log|
  {
    IsDone(g, i) || (BlockOf(i) in s.at && Cell(s, i) == s.log[i])
  }

  /** The producer has reached block `b`. */
  predicate Started(s: State, b: nat) {
    b * BLOCK_SIZE < s.tail || (b * BLOCK_SIZE == s.tail && !s.producer.PIdle?)
  }

  /** A block is served by memory from when it is started until all its 32 indices are done;
      then exactly one thread gives the memory back. */
  ghost predicate BlockOk(s: State, g: Ghost, b: nat) {
    var n := DoneIn(g.takes, b, BLOCK_SIZE);
    if b in s.at then
      && Started(s, b) && s.at[b] !in s.pool && Count(s, s.at[b]) == n && b !in s.freed
      && (n == BLOCK_SIZE <==> b in g.releasing)
      && (b in g.releasing ==> g.releasing[b] in s.pc && s.pc[g.releasing[b]] == Freeing(b))
    else
      && b !in g.releasing
      && if b in s.freed then n == BLOCK_SIZE else !Started(s, b)
  }

  ghost predicate Shape(s: State, g: Ghost) {
    && |g.tickets| == s.optimistic && |g.takes| == s.head
    && s.overcommit == Tally(Repayments, g.tickets)
    && s.head == Tally(Uses, g.tickets)
    && |s.log| == s.tail + (if s.producer.PStored? then 1 else 0)
    && s.head <= s.tail < s.head + HALF
    && (s.tail % BLOCK_SIZE != 0 || !s.producer.PIdle? ==> (BlockOf(s.tail) + 1) * BLOCK_SIZE < s.head + HALF)
    && (forall i | i in s.got :: i < |g.takes|)
    && (forall i, j :: 0 <= i < j < |s.freed| ==> s.freed[i] != s.freed[j])
    && (forall a, b | a in s.at && b in s.at && a != b :: s.at[a] != s.at[b])
  }

  ghost predicate Inv(s: State, g: Ghost) {
    && Shape(s, g)
    && (forall t {:trigger LocalOk(s, g, t)} | t in s.pc :: LocalOk(s, g, t))
    && (forall c: nat {:trigger TicketOk(s, g, c)} | c < |g.tickets| :: TicketOk(s, g, c))
    && (forall i: nat {:trigger TakeOk(s, g, i)} | i < |g.takes| :: TakeOk(s, g, i))
    && (forall i: nat {:trigger CellOk(s, g, i)} | i < |s.log| :: CellOk(s, g, i))
    && (forall b: nat {:trigger BlockOk(s, g, b)} :: BlockOk(s, g, b))
  }

  // ----- Counting -----------------------------------------------------------------------

  lemma {:induction false} TallyUpdate(k: Kind, ts: seq<Ticket>, c: nat, x: Ticket)
    requires c < |ts|
    ensures Tally(k, ts[c := x]) + (if Counts(k, ts[c]) then 1 else 0)
            == Tally(k, ts) + (if Counts(k, x) then 1 else 0)
    decreases |ts|
  {
    var n := |ts| - 1;
    if c < n {
      assert ts[c := x][..n] == ts[..n][c := x];
      TallyUpdate(k, ts[..n], c, x);
    } else {
      assert ts[c := x][..n] == ts[..n];
    }
  }

  /** The same for a prefix. */
  lemma TallyPrefix(k: Kind, ts: seq<Ticket>, c: nat, x: Ticket, m: nat)
    requires c < |ts| && m <= |ts|
    ensures Tally(k, ts[c := x][..m]) ==
            Tally(k, ts[..m]) + (if c < m && Counts(k, x) then 1 else 0) - (if c < m && Counts(k, ts[c]) then 1 else 0)
  {
    if c < m {
      assert ts[c := x][..m] == ts[..m][c := x];
      TallyUpdate(k, ts[..m], c, x);
    } else {
      assert ts[c := x][..m] == ts[..m];
    }
  }

  lemma TallySnoc(k: Kind, ts: seq<Ticket>, x: Ticket)
    ensures Tally(k, ts + [x]) == Tally(k, ts) + (if Counts(k, x) then 1 else 0)
  {
    assert (ts + [x])[..|ts|] == ts;
  }

  lemma {:induction false} StandingBound(ts: seq<Ticket>)
    ensures Tally(Standings, ts) + Tally(Repayments, ts) <= |ts|
    ensures Tally(Gains, ts) <= Tally(Standings, ts)
    ensures Tally(Uses, ts) <= Tally(Gains, ts)
  {
    if ts != [] { StandingBound(ts[..|ts| - 1]); }
  }

  /** If no ticket that gained ran ahead of the tail when it was drawn, all gains together are
      within the tail: look at the last one. */
  lemma {:induction false} GainsBound(ts: seq<Ticket>, tail: nat)
    requires forall c: nat | c < |ts| && Counts(Gains, ts[c]) :: Tally(Standings, ts[..c]) < tail
    ensures Tally(Gains, ts) <= tail
    decreases |ts|
  {
    if ts != [] {
      var n := |ts| - 1;
      if Counts(Gains, ts[n]) {
        StandingBound(ts[..n]);
      } else {
        forall c: nat | c < n && Counts(Gains, ts[..n][c]) ensures Tally(Standings, ts[..n][..c]) < tail {
          assert ts[..n][..c] == ts[..c];
        }
        GainsBound(ts[..n], tail);
      }
    }
  }

  lemma {:induction false} WonIsNotUsed(ts: seq<Ticket>, c: nat)
    requires c < |ts| && ts[c].Won?
    ensures Tally(Uses, ts) < Tally(Gains, ts)
    decreases |ts|
  {
    StandingBound(ts[..|ts| - 1]);
    if c < |ts| - 1 { WonIsNotUsed(ts[..|ts| - 1], c); }
  }

  lemma {:induction false} DoneInUpdate(takes: seq<Take>, i: nat, b: nat, n: nat)
    requires i < |takes| && takes[i].Busy?
    ensures DoneIn(takes[i := Done], b, n) ==
            DoneIn(takes, b, n) + (if b * BLOCK_SIZE <= i < b * BLOCK_SIZE + n then 1 else 0)
    decreases n
  {
    if n > 0 { DoneInUpdate(takes, i, b, n - 1); }
  }

  lemma {:induction false} DoneInSnoc(takes: seq<Take>, t: Tid, b: nat, n: nat)
    ensures DoneIn(takes + [Busy(t)], b, n) == DoneIn(takes, b, n)
    decreases n
  {
    if n > 0 { DoneInSnoc(takes, t, b, n - 1); }
  }

  predicate DoneAt(takes: seq<Take>, i: nat) { i < |takes| && takes[i].Done? }

  /** The counter is full exactly when all indices are done. */
  lemma {:induction false} DoneInBound(takes: seq<Take>, b: nat, n: nat)
    ensures DoneIn(takes, b, n) <= n
    ensures DoneIn(takes, b, n) == n <==>
              forall i: nat {:trigger DoneAt(takes, i)} :: b * BLOCK_SIZE <= i < b * BLOCK_SIZE + n ==> DoneAt(takes, i)
    ensures b * BLOCK_SIZE >= |takes| ==> DoneIn(takes, b, n) == 0
    decreases n
  {
    if n > 0 {
      DoneInBound(takes, b, n - 1);
      assert DoneIn(takes, b, n) ==
             DoneIn(takes, b, n - 1) + (if DoneAt(takes, b * BLOCK_SIZE + n - 1) then 1 else 0);
    }
  }

  // ----- Frames ---------------------------------------------------------------------------

  /** Nothing that another thread than `t` relies on has been taken away. */
  ghost predicate Grows(s: State, g: Ghost, s': State, g': Ghost, t: Tid) {
    && s'.overcommit >= s.overcommit
    && |g'.tickets| >= |g.tickets| && |g'.takes| >= |g.takes|
    && s.log <= s'.log
    && (forall c: nat :: c < |g.tickets| ==> g'.tickets[c] == g.tickets[c] || Holder(g.tickets[c]) == {t})
    && (forall c: nat :: c <= |g.tickets| ==> Tally(Repayments, g'.tickets[..c]) >= Tally(Repayments, g.tickets[..c]))
    && (forall i: nat :: i < |g.takes| ==> g'.takes[i] == g.takes[i] || g.takes[i] == Busy(t))
    && (forall b: nat :: b in g.releasing && g.releasing[b] != t ==> b in g'.releasing && g'.releasing[b] == g.releasing[b])
  }

  function Holder(x: Ticket): set<Tid> {
    if x.Pending? || x.Won? || x.Lost? then {x.t} else {}
  }

  lemma OthersKeep(s: State, g: Ghost, s': State, g': Ghost, t: Tid)
    requires Inv(s, g) && Grows(s, g, s', g', t)
    requires t in s.pc && t in s'.pc && s'.pc == s.pc[t := s'.pc[t]] && LocalOk(s', g', t)
    ensures forall u {:trigger LocalOk(s', g', u)} | u in s'.pc :: LocalOk(s', g', u)
  {
    forall u | u in s'.pc ensures LocalOk(s', g', u) {
      if u != t { assert LocalOk(s, g, u); }
    }
  }

  /** The same for a step of the producer. */
  lemma AllKeep(s: State, g: Ghost, s': State)
    requires Inv(s, g) && s'.overcommit == s.overcommit && s.log <= s'.log && s'.pc == s.pc
    ensures forall u {:trigger LocalOk(s', g, u)} | u in s'.pc :: LocalOk(s', g, u)
  {
    forall u | u in s'.pc ensures LocalOk(s', g, u) { assert LocalOk(s, g, u); }
  }

  /** Tickets other than those of `t` keep their meaning. */
  lemma TicketsKeep(s: State, g: Ghost, s': State, g': Ghost, t: Tid)
    requires Inv(s, g) && s'.tail >= s.tail && |g'.tickets| >= |g.tickets|
    requires t in s'.pc ==> s'.pc == s.pc[t := s'.pc[t]]
    requires t !in s'.pc ==> s'.pc == s.pc
    requires forall c: nat :: c < |g.tickets| ==> Tally(Standings, g'.tickets[..c]) <= Tally(Standings, g.tickets[..c])
    requires forall c: nat :: c < |g.tickets| && Holder(g.tickets[c]) != {t} ==> g'.tickets[c] == g.tickets[c]
    requires forall c: nat :: c < |g'.tickets| && (c >= |g.tickets| || Holder(g.tickets[c]) == {t}) ==> TicketOk(s', g', c)
    ensures forall c: nat {:trigger TicketOk(s', g', c)} | c < |g'.tickets| :: TicketOk(s', g', c)
  {
    forall c: nat | c < |g'.tickets| ensures TicketOk(s', g', c) {
      if c < |g.tickets| && Holder(g.tickets[c]) != {t} {
        assert TicketOk(s, g, c);
      }
    }
  }

  lemma TakesKeep(s: State, g: Ghost, s': State, g': Ghost, t: Tid)
    requires Inv(s, g) && |g'.takes| >= |g.takes| && s.log <= s'.log
    requires t in s'.pc ==> s'.pc == s.pc[t := s'.pc[t]]
    requires t !in s'.pc ==> s'.pc == s.pc
    requires forall i: nat :: i < |g.takes| && g.takes[i] != Busy(t) ==>
               g'.takes[i] == g.takes[i] && (i in s'.got <==> i in s.got) && (i in s.got ==> s'.got[i] == s.got[i])
    requires forall i: nat :: i < |g'.takes| && (i >= |g.takes| || g.takes[i] == Busy(t)) ==> TakeOk(s', g', i)
    ensures forall i: nat {:trigger TakeOk(s', g', i)} | i < |g'.takes| :: TakeOk(s', g', i)
  {
    forall i: nat | i < |g'.takes| ensures TakeOk(s', g', i) {
      if i < |g.takes| && g.takes[i] != Busy(t) { assert TakeOk(s, g, i); }
    }
  }

  /** Blocks and cells do not change when neither memory nor what is done changes. */
  lemma MemoryKeeps(s: State, g: Ghost, s': State, g': Ghost, t: Tid)
    requires Inv(s, g) && s'.log == s.log && s'.at == s.at && s'.cells == s.cells && s'.counts == s.counts
    requires s'.pool == s.pool && s'.freed == s.freed && s'.tail == s.tail && s'.producer == s.producer
    requires t in s.pc && t in s'.pc && s'.pc == s.pc[t := s'.pc[t]] && !s.pc[t].Freeing?
    requires g'.releasing == g.releasing
    requires g'.takes == g.takes || g'.takes == g.takes + [Busy(t)]
    ensures forall i: nat {:trigger CellOk(s', g', i)} | i < |s'.log| :: CellOk(s', g', i)
    ensures forall b: nat {:trigger BlockOk(s', g', b)} :: BlockOk(s', g', b)
  {
    forall i: nat | i < |s'.log| ensures CellOk(s', g', i) { assert CellOk(s, g, i); }
    forall b: nat ensures BlockOk(s', g', b) {
      assert BlockOk(s, g, b);
      DoneInSnoc(g.takes, t, b, BLOCK_SIZE);
    }
  }

  lemma HoldsNone(s: State, g: Ghost, t: Tid)
    requires Inv(s, g) && t in s.pc && !s.pc[t].Ticketed? && !s.pc[t].Winner? && !s.pc[t].Loser?
    ensures forall c: nat | c < |g.tickets| :: Holder(g.tickets[c]) != {t}
  {
    hide BlockOk, CellOk, Tally, TakeOk, Shape;
    forall c: nat | c < |g.tickets| ensures Holder(g.tickets[c]) != {t} { assert TicketOk(s, g, c); }
  }

  lemma HoldsOne(s: State, g: Ghost, t: Tid, c: nat)
    requires Inv(s, g) && c < |g.tickets| && Holder(g.tickets[c]) == {t}
    ensures forall d: nat | d < |g.tickets| && d != c :: Holder(g.tickets[d]) != {t}
  {
    hide BlockOk, CellOk, Tally, TakeOk, Shape;
    assert TicketOk(s, g, c);
    forall d: nat | d < |g.tickets| && d != c ensures Holder(g.tickets[d]) != {t} { assert TicketOk(s, g, d); }
  }

  lemma ReadsNone(s: State, g: Ghost, t: Tid)
    requires Inv(s, g) && t in s.pc && !s.pc[t].Reading? && !s.pc[t].Emptying?
    ensures forall i: nat | i < |g.takes| :: g.takes[i] != Busy(t)
  {
    hide BlockOk, CellOk, Tally, TicketOk, Shape;
    forall i: nat | i < |g.takes| ensures g.takes[i] != Busy(t) { assert TakeOk(s, g, i); }
  }

  // ----- Consumers -----------------------------------------------------------------------

  /** Moving on without touching what is shared. */
  lemma GotoKeepsInv(s: State, t: Tid, pc: Pc, g: Ghost)
    requires Inv(s, g) && t in s.pc && (s.pc[t].Idle? || s.pc[t].HasTail? || s.pc[t].HasOver?)
    requires LocalOk(Goto(s, t, pc), g, t)
    ensures Inv(Goto(s, t, pc), g)
  {
    hide BlockOk, CellOk, Tally, TicketOk, TakeOk, LocalOk;
    var s' := Goto(s, t, pc);
    HoldsNone(s, g, t);
    ReadsNone(s, g, t);
    OthersKeep(s, g, s', g, t);
    TicketsKeep(s, g, s', g, t);
    TakesKeep(s, g, s', g, t);
    MemoryKeeps(s, g, s', g, t);
  }

  /** Loads, and the first comparison. */
  lemma LoadKeepsInv(s: State, t: Tid, g: Ghost)
    requires Inv(s, g) && t in s.pc && (s.pc[t].Idle? || s.pc[t].HasTail? || s.pc[t].HasOver?)
    ensures Inv(ConsumerNext(s, t), g)
  {
    hide Shape, BlockOk, CellOk, Tally, TicketOk, TakeOk, CircularLess;
    assert LocalOk(s, g, t);
    GotoKeepsInv(s, t, ConsumerNext(s, t).pc[t], g);
  }

  lemma DrawKeepsInv(s: State, t: Tid, g: Ghost)
    requires Inv(s, g) && t in s.pc && s.pc[t].Checked?
    ensures Inv(ConsumerNext(s, t), g.(tickets := g.tickets + [Pending(t)]))
  {
    var s', g' := ConsumerNext(s, t), g.(tickets := g.tickets + [Pending(t)]);
    assert LocalOk(s, g, t);
    assert forall c: nat :: c <= |g.tickets| ==> g'.tickets[..c] == g.tickets[..c];
    assert g.tickets[..|g.tickets|] == g.tickets;
    TallySnoc(Repayments, g.tickets, Pending(t));
    TallySnoc(Uses, g.tickets, Pending(t));
    HoldsNone(s, g, t);
    ReadsNone(s, g, t);
    OthersKeep(s, g, s', g', t);
    TicketsKeep(s, g, s', g', t);
    TakesKeep(s, g, s', g', t);
    MemoryKeeps(s, g, s', g', t);
  }

  /** What the second comparison decides, in unbounded numbers. */
  lemma CompareExact(mine: nat, over: nat, tail: nat)
    requires over <= mine <= over + tail + HALF
    ensures CircularLess((mine - over) % WORD, tail) ==> mine - over < tail
  {
    var d := mine - over - tail;
    if d >= 0 {
      assert ((mine - over) % WORD - tail) % WORD == d % WORD == d;
    }
  }

  ghost function GhostJudged(s: State, t: Tid, g: Ghost): Ghost
    requires t in s.pc && s.pc[t].Ticketed? && s.pc[t].mine < |g.tickets|
  {
    g.(tickets := g.tickets[s.pc[t].mine := if ConsumerNext(s, t).pc[t].Winner? then Won(t) else Lost(t)])
  }

  /** A ticket that wins was not ahead of the tail, even if all tickets before it that may
      still win do. */
  lemma JudgedTicket(s: State, t: Tid, g: Ghost)
    requires Inv(s, g) && t in s.pc && s.pc[t].Ticketed? && Timely(s, t)
    ensures var c := s.pc[t].mine;
            && c < |g.tickets| && g.tickets[c] == Pending(t)
            && TicketOk(ConsumerNext(s, t), GhostJudged(s, t, g), c)
            && LocalOk(ConsumerNext(s, t), GhostJudged(s, t, g), t)
  {
    assert LocalOk(s, g, t);
    var c := s.pc[t].mine;
    StandingBound(g.tickets[..c]);
    CompareExact(c, s.pc[t].over, s.tail);
    assert GhostJudged(s, t, g).tickets[..c] == g.tickets[..c];
  }

  lemma JudgeKeepsInv(s: State, t: Tid, g: Ghost)
    requires Inv(s, g) && t in s.pc && s.pc[t].Ticketed? && Timely(s, t)
    ensures s.pc[t].mine < |g.tickets| && Inv(ConsumerNext(s, t), GhostJudged(s, t, g))
  {
    JudgedTicket(s, t, g);
    var x := if ConsumerNext(s, t).pc[t].Winner? then Won(t) else Lost(t);
    JudgedAs(s, g, ConsumerNext(s, t), t, s.pc[t].mine, x);
  }

  lemma JudgedAs(s: State, g: Ghost, s': State, t: Tid, c: nat, x: Ticket)
    requires Inv(s, g) && t in s.pc && s.pc[t].Ticketed? && t in s'.pc && s' == Goto(s, t, s'.pc[t])
    requires c < |g.tickets| && g.tickets[c] == Pending(t) && (x == Won(t) || x == Lost(t))
    requires TicketOk(s', g.(tickets := g.tickets[c := x]), c) && LocalOk(s', g.(tickets := g.tickets[c := x]), t)
    ensures Inv(s', g.(tickets := g.tickets[c := x]))
  {
    hide BlockOk, CellOk, TakeOk, Tally, LocalOk;
    var g' := g.(tickets := g.tickets[c := x]);
    JudgeTallies(g.tickets, c, t, x);
    HoldsOne(s, g, t, c);
    ReadsNone(s, g, t);
    OthersKeep(s, g, s', g', t);
    TicketsKeep(s, g, s', g', t);
    TakesKeep(s, g, s', g', t);
    MemoryKeeps(s, g, s', g', t);
  }

  lemma JudgeTallies(ts: seq<Ticket>, c: nat, t: Tid, x: Ticket)
    requires c < |ts| && ts[c] == Pending(t) && (x == Won(t) || x == Lost(t))
    ensures Tally(Repayments, ts[c := x]) == Tally(Repayments, ts) && Tally(Uses, ts[c := x]) == Tally(Uses, ts)
    ensures forall m: nat :: m <= |ts| ==>
              Tally(Repayments, ts[c := x][..m]) == Tally(Repayments, ts[..m])
    ensures forall m: nat :: m <= |ts| ==>
              Tally(Standings, ts[c := x][..m]) <= Tally(Standings, ts[..m])
  {
    TallyUpdate(Repayments, ts, c, x);
    TallyUpdate(Uses, ts, c, x);
    forall m: nat | m <= |ts|
      ensures Tally(Repayments, ts[c := x][..m]) == Tally(Repayments, ts[..m])
      ensures Tally(Standings, ts[c := x][..m]) <= Tally(Standings, ts[..m])
    {
      TallyPrefix(Repayments, ts, c, x, m);
      TallyPrefix(Standings, ts, c, x, m);
    }
  }

  /** A winner's index is below the tail. */
  lemma WinnerInReach(s: State, t: Tid, g: Ghost)
    requires Inv(s, g) && t in s.pc && s.pc[t].Winner?
    ensures s.head < s.tail
  {
    assert LocalOk(s, g, t);
    forall c: nat | c < |g.tickets| && Counts(Gains, g.tickets[c])
      ensures Tally(Standings, g.tickets[..c]) < s.tail
    {
      assert TicketOk(s, g, c);
    }
    GainsBound(g.tickets, s.tail);
    WonIsNotUsed(g.tickets, s.pc[t].mine);
  }

  lemma UseTallies(ts: seq<Ticket>, c: nat, t: Tid)
    requires c < |ts| && ts[c] == Won(t)
    ensures Tally(Repayments, ts[c := Used]) == Tally(Repayments, ts)
    ensures Tally(Uses, ts[c := Used]) == Tally(Uses, ts) + 1
    ensures forall m: nat :: m <= |ts| ==> Tally(Repayments, ts[c := Used][..m]) == Tally(Repayments, ts[..m])
    ensures forall m: nat :: m <= |ts| ==> Tally(Standings, ts[c := Used][..m]) == Tally(Standings, ts[..m])
  {
    hide Tally;
    TallyUpdate(Repayments, ts, c, Used);
    TallyUpdate(Uses, ts, c, Used);
    forall m: nat | m <= |ts|
      ensures Tally(Repayments, ts[c := Used][..m]) == Tally(Repayments, ts[..m])
      ensures Tally(Standings, ts[c := Used][..m]) == Tally(Standings, ts[..m])
    {
      TallyPrefix(Repayments, ts, c, Used, m);
      TallyPrefix(Standings, ts, c, Used, m);
    }
  }

  lemma TakeKeepsInv(s: State, t: Tid, g: Ghost)
    requires Inv(s, g) && t in s.pc && s.pc[t].Winner?
    ensures s.pc[t].mine < |g.tickets|
    ensures Inv(ConsumerNext(s, t), g.(tickets := g.tickets[s.pc[t].mine := Used], takes := g.takes + [Busy(t)]))
  {
    hide BlockOk, CellOk, Tally;
    WinnerInReach(s, t, g);
    assert LocalOk(s, g, t);
    var c, ts, s' := s.pc[t].mine, g.tickets, ConsumerNext(s, t);
    var g' := g.(tickets := ts[c := Used], takes := g.takes + [Busy(t)]);
    assert TicketOk(s, g, c);
    UseTallies(ts, c, t);
    HoldsOne(s, g, t, c);
    ReadsNone(s, g, t);
    OthersKeep(s, g, s', g', t);
    TicketsKeep(s, g, s', g', t);
    TakesKeep(s, g, s', g', t);
    MemoryKeeps(s, g, s', g', t);
  }

  lemma RepayTallies(ts: seq<Ticket>, c: nat, t: Tid)
    requires c < |ts| && ts[c] == Lost(t)
    ensures Tally(Repayments, ts[c := Repaid]) == Tally(Repayments, ts) + 1
    ensures Tally(Uses, ts[c := Repaid]) == Tally(Uses, ts)
    ensures forall m: nat :: m <= |ts| ==> Tally(Repayments, ts[c := Repaid][..m]) >= Tally(Repayments, ts[..m])
    ensures forall m: nat :: m <= |ts| ==> Tally(Standings, ts[c := Repaid][..m]) == Tally(Standings, ts[..m])
  {
    hide Tally;
    TallyUpdate(Repayments, ts, c, Repaid);
    TallyUpdate(Uses, ts, c, Repaid);
    forall m: nat | m <= |ts|
      ensures Tally(Repayments, ts[c := Repaid][..m]) >= Tally(Repayments, ts[..m])
      ensures Tally(Standings, ts[c := Repaid][..m]) == Tally(Standings, ts[..m])
    {
      TallyPrefix(Repayments, ts, c, Repaid, m);
      TallyPrefix(Standings, ts, c, Repaid, m);
    }
  }

  lemma RepayKeepsInv(s: State, t: Tid, g: Ghost)
    requires Inv(s, g) && t in s.pc && s.pc[t].Loser?
    ensures s.pc[t].mine < |g.tickets|
    ensures Inv(ConsumerNext(s, t), g.(tickets := g.tickets[s.pc[t].mine := Repaid]))
  {
    hide BlockOk, CellOk, TakeOk, Tally;
    assert LocalOk(s, g, t);
    var c, ts, s' := s.pc[t].mine, g.tickets, ConsumerNext(s, t);
    var g' := g.(tickets := ts[c := Repaid]);
    RepayTallies(ts, c, t);
    HoldsOne(s, g, t, c);
    ReadsNone(s, g, t);
    OthersKeep(s, g, s', g', t);
    TicketsKeep(s, g, s', g', t);
    TakesKeep(s, g, s', g', t);
    MemoryKeeps(s, g, s', g', t);
  }

  /** The element at a taken index has been constructed and is still in its cell. */
  lemma TakenIsThere(s: State, t: Tid, g: Ghost, i: nat)
    requires Inv(s, g) && i < |g.takes| && g.takes[i] == Busy(t)
    ensures i < |s.log| && BlockOf(i) in s.at && Cell(s, i) == s.log[i]
  {
    assert CellOk(s, g, i);
  }

  lemma ReadKeepsInv(s: State, t: Tid, g: Ghost)
    requires Inv(s, g) && t in s.pc && s.pc[t].Reading?
    ensures Inv(ConsumerNext(s, t), g)
  {
    assert LocalOk(s, g, t);
    var i, s' := s.pc[t].index, ConsumerNext(s, t);
    TakenIsThere(s, t, g, i);
    HoldsNone(s, g, t);
    forall j: nat | j < |g.takes| && g.takes[j] == Busy(t) ensures TakeOk(s', g, j) { assert TakeOk(s, g, j); }
    OthersKeep(s, g, s', g, t);
    TicketsKeep(s, g, s', g, t);
    TakesKeep(s, g, s', g, t);
    MemoryKeeps(s, g, s', g, t);
  }

  ghost function GhostEmptying(s: State, t: Tid, g: Ghost): Ghost
    requires t in s.pc && s.pc[t].Emptying? && s.pc[t].index < |g.takes|
  {
    var i := s.pc[t].index;
    g.(takes := g.takes[i := Done],
       releasing := if ConsumerNext(s, t).pc[t].Freeing? then g.releasing[BlockOf(i) := t] else g.releasing)
  }

  /** The block of the element that is done with, and the others. */
  lemma EmptyingBlock(s: State, t: Tid, g: Ghost, b: nat)
    requires Inv(s, g) && t in s.pc && s.pc[t].Emptying? && s.pc[t].index < |g.takes| && g.takes[s.pc[t].index] == Busy(t)
    ensures BlockOk(ConsumerNext(s, t), GhostEmptying(s, t, g), b)
  {
    hide Tally, TicketOk, TakeOk, LocalOk, CellOk, DoneIn, Shape;
    var i, s', g' := s.pc[t].index, ConsumerNext(s, t), GhostEmptying(s, t, g);
    TakenIsThere(s, t, g, i);
    NotYetDone(g.takes, i);
    assert BlockOk(s, g, b) && BlockOk(s, g, BlockOf(i));
    OneMoreDone(g.takes, i, b);
    if b != BlockOf(i) { MemoryApart(s, g, BlockOf(i), b); }
  }

  lemma NotYetDone(takes: seq<Take>, i: nat)
    requires i < |takes| && takes[i].Busy?
    ensures DoneIn(takes, BlockOf(i), BLOCK_SIZE) < BLOCK_SIZE
  {
    DoneInBound(takes, BlockOf(i), BLOCK_SIZE);
    assert !DoneAt(takes, i);
  }

  lemma OneMoreDone(takes: seq<Take>, i: nat, b: nat)
    requires i < |takes| && takes[i].Busy?
    ensures DoneIn(takes[i := Done], b, BLOCK_SIZE) == DoneIn(takes, b, BLOCK_SIZE) + (if b == BlockOf(i) then 1 else 0)
  {
    hide DoneIn;
    DoneInUpdate(takes, i, b, BLOCK_SIZE);
    assert b == BlockOf(i) <==> b * BLOCK_SIZE <= i < b * BLOCK_SIZE + BLOCK_SIZE;
  }

  lemma MemoryApart(s: State, g: Ghost, a: nat, b: nat)
    requires Shape(s, g) && a != b
    ensures a in s.at && b in s.at ==> s.at[a] != s.at[b]
  {
  }

  lemma EmptyingLocal(s: State, t: Tid, g: Ghost)
    requires Inv(s, g) && t in s.pc && s.pc[t].Emptying?
    ensures var i := s.pc[t].index;
            && i < |g.takes| && g.takes[i] == Busy(t)
            && TakeOk(ConsumerNext(s, t), GhostEmptying(s, t, g), i)
            && LocalOk(ConsumerNext(s, t), GhostEmptying(s, t, g), t)
            && (ConsumerNext(s, t).pc[t].Freeing? ==> BlockOf(i) !in g.releasing)
  {
    assert LocalOk(s, g, t);
    var i := s.pc[t].index;
    TakenIsThere(s, t, g, i);
    assert BlockOk(s, g, BlockOf(i));
  }

  lemma EmptyingShape(s: State, t: Tid, g: Ghost)
    requires Inv(s, g) && t in s.pc && s.pc[t].Emptying? && s.pc[t].index < |g.takes|
    ensures Shape(ConsumerNext(s, t), GhostEmptying(s, t, g))
  {
    hide Tally, TicketOk, TakeOk, LocalOk, CellOk, BlockOk;
  }

  lemma EmptyingCell(s: State, t: Tid, g: Ghost, j: nat)
    requires Inv(s, g) && t in s.pc && s.pc[t].Emptying? && s.pc[t].index < |g.takes| && j < |s.log|
    ensures CellOk(ConsumerNext(s, t), GhostEmptying(s, t, g), j)
  {
    hide Tally, TicketOk, TakeOk, LocalOk, BlockOk, Shape;
    assert CellOk(s, g, j);
  }

  lemma EmptyingKeepsInv(s: State, t: Tid, g: Ghost)
    requires Inv(s, g) && t in s.pc && s.pc[t].Emptying?
    ensures s.pc[t].index < |g.takes| && Inv(ConsumerNext(s, t), GhostEmptying(s, t, g))
  {
    hide BlockOk, CellOk, Tally, TicketOk, DoneIn, Shape;
    EmptyingLocal(s, t, g);
    EmptyingShape(s, t, g);
    var i, s', g' := s.pc[t].index, ConsumerNext(s, t), GhostEmptying(s, t, g);
    HoldsNone(s, g, t);
    forall j: nat | j < |g.takes| && j != i ensures g.takes[j] != Busy(t) { assert TakeOk(s, g, j); }
    OthersKeep(s, g, s', g', t);
    TicketsKeep(s, g, s', g', t);
    TakesKeep(s, g, s', g', t);
    forall j: nat | j < |s'.log| ensures CellOk(s', g', j) { EmptyingCell(s, t, g, j); }
    forall b: nat ensures BlockOk(s', g', b) { EmptyingBlock(s, t, g, b); }
  }

  lemma FreeingKeepsInv(s: State, t: Tid, g: Ghost)
    requires Inv(s, g) && t in s.pc && s.pc[t].Freeing?
    ensures Inv(ConsumerNext(s, t), g.(releasing := g.releasing - {s.pc[t].block}))
  {
    hide Tally, TicketOk, DoneIn;
    assert LocalOk(s, g, t);
    var b, s' := s.pc[t].block, ConsumerNext(s, t);
    var g' := g.(releasing := g.releasing - {b});
    assert BlockOk(s, g, b);
    DoneInBound(g.takes, b, BLOCK_SIZE);
    HoldsNone(s, g, t);
    forall j: nat | j < |g.takes| ensures g.takes[j] != Busy(t) { assert TakeOk(s, g, j); }
    forall a: nat | a in g.releasing && a != b ensures g.releasing[a] != t { assert BlockOk(s, g, a); }
    OthersKeep(s, g, s', g', t);
    TicketsKeep(s, g, s', g', t);
    TakesKeep(s, g, s', g', t);
    forall j: nat | j < |s'.log| ensures CellOk(s', g', j) {
      assert CellOk(s, g, j);
      if BlockOf(j) == b { assert DoneAt(g.takes, j); }
    }
    forall a: nat ensures BlockOk(s', g', a) { assert BlockOk(s, g, a); }
  }

  // ----- The producer ------------------------------------------------------------------------

  /** What the comparison at a block boundary decides, in unbounded numbers. */
  lemma RoomExact(head: nat, tail: nat)
    requires head <= tail < head + HALF
    ensures CircularLess(head, tail + BLOCK_SIZE) <==> tail + BLOCK_SIZE < head + HALF
  {
    var d := tail + BLOCK_SIZE - head;
    assert (head - (tail + BLOCK_SIZE)) % WORD == (WORD - d) % WORD;
  }

  /** A block that has not been started has no memory, is not in the list of freed blocks, and
      its counter would be zero. */
  lemma FreshBlock(s: State, g: Ghost, b: nat)
    requires Inv(s, g) && !Started(s, b)
    ensures b !in s.at && b !in s.freed && b !in g.releasing && DoneIn(g.takes, b, BLOCK_SIZE) == 0
  {
    assert BlockOk(s, g, b);
    DoneInBound(g.takes, b, BLOCK_SIZE);
    assert b * BLOCK_SIZE >= |g.takes|;
  }

  /** The block that the producer is filling has memory. */
  lemma CurrentBlock(s: State, g: Ghost)
    requires Inv(s, g) && Started(s, BlockOf(s.tail))
    ensures BlockOf(s.tail) in s.at
  {
    var b := BlockOf(s.tail);
    assert BlockOk(s, g, b);
    DoneInBound(g.takes, b, BLOCK_SIZE);
    assert !DoneAt(g.takes, s.tail);
    assert b * BLOCK_SIZE <= s.tail < b * BLOCK_SIZE + BLOCK_SIZE;
  }

  lemma NewBlockKeepsInv(s: State, m: nat, item: Item, g: Ghost)
    requires Inv(s, g) && s.producer.PIdle? && s.tail % BLOCK_SIZE == 0 && m in s.pool
    requires CircularLess(s.head, s.tail + BLOCK_SIZE)
    ensures Inv(NewBlock(s, m, item), g)
  {
    var b, s' := BlockOf(s.tail), NewBlock(s, m, item);
    RoomExact(s.head, s.tail);
    FreshBlock(s, g, b);
    forall a | a in s.at ensures s.at[a] != m { assert BlockOk(s, g, a); }
    AllKeep(s, g, s');
    ProducerKeeps(s, g, s');
    forall i: nat | i < |s'.log| ensures CellOk(s', g, i) { assert CellOk(s, g, i); }
    forall a: nat ensures BlockOk(s', g, a) { assert BlockOk(s, g, a); }
  }

  /** Tickets and takes do not depend on what the producer does. */
  lemma ProducerKeeps(s: State, g: Ghost, s': State)
    requires Inv(s, g) && s'.tail >= s.tail && s.log <= s'.log && s'.pc == s.pc && s'.got == s.got
    ensures forall c: nat {:trigger TicketOk(s', g, c)} | c < |g.tickets| :: TicketOk(s', g, c)
    ensures forall i: nat {:trigger TakeOk(s', g, i)} | i < |g.takes| :: TakeOk(s', g, i)
  {
    forall c: nat | c < |g.tickets| ensures TicketOk(s', g, c) { assert TicketOk(s, g, c); }
    forall i: nat | i < |g.takes| ensures TakeOk(s', g, i) { assert TakeOk(s, g, i); }
  }

  lemma BeginKeepsInv(s: State, item: Item, g: Ghost)
    requires Inv(s, g) && s.producer.PIdle? && s.tail % BLOCK_SIZE != 0
    ensures Inv(s.(producer := PReady(item)), g)
  {
    var s' := s.(producer := PReady(item));
    AllKeep(s, g, s');
    ProducerKeeps(s, g, s');
    forall i: nat | i < |s'.log| ensures CellOk(s', g, i) { assert CellOk(s, g, i); }
    forall a: nat ensures BlockOk(s', g, a) { assert BlockOk(s, g, a); }
  }

  lemma ConstructKeepsInv(s: State, g: Ghost)
    requires Inv(s, g) && s.producer.PReady?
    ensures Inv(Construct(s, s.producer.item), g)
  {
    var s' := Construct(s, s.producer.item);
    CurrentBlock(s, g);
    AllKeep(s, g, s');
    ProducerKeeps(s, g, s');
    forall i: nat | i < |s'.log| ensures CellOk(s', g, i) {
      if i < |s.log| {
        assert CellOk(s, g, i);
        assert i != s.tail;
        assert CellOf(s, i) == CellOf(s, s.tail) && BlockOf(i) in s.at ==> BlockOf(i) == BlockOf(s.tail);
      }
    }
    forall a: nat ensures BlockOk(s', g, a) { assert BlockOk(s, g, a); }
  }

  lemma PublishKeepsInv(s: State, g: Ghost)
    requires Inv(s, g) && s.producer.PStored?
    ensures Inv(s.(producer := PIdle, tail := s.tail + 1), g)
  {
    hide Tally, TicketOk, TakeOk, LocalOk, DoneIn;
    var s' := s.(producer := PIdle, tail := s.tail + 1);
    AllKeep(s, g, s');
    ProducerKeeps(s, g, s');
    forall i: nat | i < |s'.log| ensures CellOk(s', g, i) { assert CellOk(s, g, i); }
    forall a: nat ensures BlockOk(s', g, a) {
      assert BlockOk(s, g, a);
      assert Started(s', a) <==> Started(s, a);
    }
  }

  // ----- Every run ----------------------------------------------------------------------------

  ghost predicate Safe(s: State) { exists g :: Inv(s, g) }

  lemma ConsumerKeepsSafe(s: State, t: Tid, s': State, g: Ghost)
    requires Inv(s, g) && ConsumerStep(s, t, s')
    ensures Safe(s')
  {
    match s.pc[t]
    case Idle => LoadKeepsInv(s, t, g);
    case HasTail(_) => LoadKeepsInv(s, t, g);
    case HasOver(_, _) => LoadKeepsInv(s, t, g);
    case Checked(_) => DrawKeepsInv(s, t, g);
    case Ticketed(_, _) => JudgeKeepsInv(s, t, g);
    case Winner(_) => TakeKeepsInv(s, t, g);
    case Loser(_) => RepayKeepsInv(s, t, g);
    case Reading(_) => ReadKeepsInv(s, t, g);
    case Emptying(_, _) => EmptyingKeepsInv(s, t, g);
    case Freeing(_) => FreeingKeepsInv(s, t, g);
  }

  lemma ProducerKeepsSafe(s: State, s': State, g: Ghost)
    requires Inv(s, g) && ProducerStep(s, s')
    ensures Safe(s')
  {
    match s.producer
    case PIdle =>
      if s.tail % BLOCK_SIZE != 0 {
        var item :| s' == s.(producer := PReady(item));
        BeginKeepsInv(s, item, g);
      } else {
        var item, m :| m in s.pool && s' == NewBlock(s, m, item);
        NewBlockKeepsInv(s, m, item, g);
      }
    case PReady(_) => ConstructKeepsInv(s, g);
    case PStored(_) => PublishKeepsInv(s, g);
  }

  lemma InitSafe(s: State)
    requires Init(s)
    ensures Safe(s)
  {
    var g := Ghost([], [], map[]);
    forall t | t in s.pc ensures LocalOk(s, g, t) { assert s.pc[t] == Idle; }
    forall b: nat ensures BlockOk(s, g, b) { DoneInBound([], b, BLOCK_SIZE); }
    assert Inv(s, g);
  }

  /** The invariant holds at the end of every run, of any length and any interleaving. */
  lemma {:induction false} RunSafe(run: seq<State>)
    requires Run(run)
    ensures Safe(Last(run))
  {
    if |run| == 1 {
      InitSafe(run[0]);
    } else {
      var prefix := run[..|run| - 1];
      assert Run(prefix) by {
        forall i | 0 <= i < |prefix| - 1 ensures Step(prefix[i], prefix[i + 1]) { assert Step(run[i], run[i + 1]); }
      }
      RunSafe(prefix);
      var s, s' := run[|run| - 2], run[|run| - 1];
      var g :| Inv(s, g);
      assert Step(run[|run| - 2], run[|run| - 2 + 1]);
      if ProducerStep(s, s') {
        ProducerKeepsSafe(s, s', g);
      } else {
        var t :| ConsumerStep(s, t, s');
        ConsumerKeepsSafe(s, t, s', g);
      }
    }
  }

  /** The index that a consumer has taken. */
  function IndexOf(p: Pc): int { if p.Reading? || p.Emptying? then p.index else -1 }

  /** Every index that is taken is below the published tail, nobody else has taken it, and
      nothing was received from it before. */
  lemma TakenOnce(run: seq<State>, t: Tid)
    requires Run(run) && t in Last(run).pc && IndexOf(Last(run).pc[t]) >= 0
    ensures var s := Last(run);
            var i := IndexOf(s.pc[t]);
            && i < s.tail && i !in s.got
            && (forall u | u in s.pc && u != t :: IndexOf(s.pc[u]) != i)
            && BlockOf(i) in s.at && BlockOf(i) !in s.freed
            && i < |s.log| && Cell(s, i) == s.log[i]
  {
    RunSafe(run);
    var s := Last(run);
    var g :| Inv(s, g);
    assert LocalOk(s, g, t);
    var i := IndexOf(s.pc[t]);
    assert TakeOk(s, g, i);
    TakenIsThere(s, t, g, i);
    assert BlockOk(s, g, BlockOf(i));
    forall u | u in s.pc && u != t ensures IndexOf(s.pc[u]) != i { assert LocalOk(s, g, u); }
  }

  /** What is received from an index is what was enqueued there. */
  lemma ReceivedIsEnqueued(run: seq<State>)
    requires Run(run)
    ensures var s := Last(run);
            forall i | i in s.got :: i < s.head <= s.tail <= |s.log| && s.got[i] == s.log[i]
  {
    RunSafe(run);
    var s := Last(run);
    var g :| Inv(s, g);
    forall i | i in s.got ensures s.got[i] == s.log[i] { assert TakeOk(s, g, i); }
  }

  /** A block of indices is given up at most once, only after something was received from each
      of its 32 indices; its memory then serves no index, and no two blocks share memory. */
  lemma FreedOnce(run: seq<State>)
    requires Run(run)
    ensures var s := Last(run);
            && (forall x, y :: 0 <= x < y < |s.freed| ==> s.freed[x] != s.freed[y])
            && (forall b, i | b in s.freed && b * BLOCK_SIZE <= i < b * BLOCK_SIZE + BLOCK_SIZE :: i in s.got)
            && (forall a, b | a in s.at && b in s.at && a != b :: s.at[a] != s.at[b])
            && (forall a | a in s.at :: s.at[a] !in s.pool && a !in s.freed)
  {
    RunSafe(run);
    var s := Last(run);
    var g :| Inv(s, g);
    forall b, i | b in s.freed && b * BLOCK_SIZE <= i < b * BLOCK_SIZE + BLOCK_SIZE ensures i in s.got {
      assert BlockOk(s, g, b);
      DoneInBound(g.takes, b, BLOCK_SIZE);
      assert DoneAt(g.takes, i);
      assert TakeOk(s, g, i);
    }
    forall a | a in s.at ensures s.at[a] !in s.pool && a !in s.freed { assert BlockOk(s, g, a); }
  }

  /** No dequeue is in flight. */
  ghost predicate NoDequeue(s: State) { forall t | t in s.pc :: s.pc[t].Idle? }

  /** With no dequeue in flight the counters agree, exactly the indices below the head have been
      received, and exactly the blocks that lie wholly below the head have been given up. */
  lemma CountersAgreeWhenQuiet(run: seq<State>)
    requires Run(run) && NoDequeue(Last(run))
    ensures var s := Last(run);
            && s.optimistic - s.overcommit == s.head
            && (forall i: nat :: i in s.got <==> i < s.head)
            && (forall b: nat :: b in s.freed <==> (b + 1) * BLOCK_SIZE <= s.head)
  {
    RunSafe(run);
    var s := Last(run);
    var g :| Inv(s, g);
    forall c: nat | c < |g.tickets| ensures g.tickets[c].Used? || g.tickets[c].Repaid? { assert TicketOk(s, g, c); }
    AllSettled(g.tickets);
    forall i: nat ensures i in s.got <==> i < s.head {
      if i < s.head { assert TakeOk(s, g, i); }
    }
    forall b: nat ensures b in s.freed <==> (b + 1) * BLOCK_SIZE <= s.head {
      assert BlockOk(s, g, b);
      DoneInBound(g.takes, b, BLOCK_SIZE);
      assert b in s.freed ==> DoneAt(g.takes, b * BLOCK_SIZE + BLOCK_SIZE - 1);
      if (b + 1) * BLOCK_SIZE <= s.head {
        forall i: nat | b * BLOCK_SIZE <= i < b * BLOCK_SIZE + BLOCK_SIZE ensures DoneAt(g.takes, i) {
          assert TakeOk(s, g, i);
        }
        assert Started(s, b);
      }
    }
  }

  lemma {:induction false} AllSettled(ts: seq<Ticket>)
    requires forall c: nat | c < |ts| :: ts[c].Used? || ts[c].Repaid?
    ensures Tally(Uses, ts) + Tally(Repayments, ts) == |ts|
  {
    if ts != [] { AllSettled(ts[..|ts| - 1]); }
  }
}
