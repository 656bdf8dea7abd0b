/** What `dequeue` and `enqueue` of the run queue answer
    (libs/async/include/suil/async/detail/concurrentqueue.h:3452-3640): when a dequeue returns nothing,
    whatever other threads do meanwhile, and what each of the two does when it runs alone. */
module DequeueAnswers {
  import opened OptimisticDequeue

  // ----- Every dequeue ends ---------------------------------------------------------------------

  /** The steps that are left at most. */
  function StepsLeft(p: Pc): nat {
    match p
    case Idle => 0
    case HasTail(_) => 8
    case HasOver(_, _) => 7
    case Checked(_) => 6
    case Ticketed(_, _) => 5
    case Winner(_) => 4
    case Loser(_) => 1
    case Reading(_) => 3
    case Emptying(_, _) => 2
    case Freeing(_) => 1
  }

  predicate HasTicket(p: Pc) { p.Ticketed? || p.Winner? || p.Loser? }

  /** What the counters say beyond the tickets in hand, with one thread at `p`. */
  function Excess(s: State, p: Pc): int { s.optimistic - s.overcommit - s.head - if HasTicket(p) then 1 else 0 }

  /** A step of a consumer moves no other, and brings its own dequeue nearer to the end. */
  lemma ConsumerMoves(s: State, t: Tid)
    requires t in s.pc
    ensures var s' := ConsumerNext(s, t);
            && t in s'.pc && s'.pc == s.pc[t := s'.pc[t]]
            && (s.pc[t] != Idle ==> StepsLeft(s'.pc[t]) < StepsLeft(s.pc[t]) <= 8)
            && Excess(s', s'.pc[t]) == Excess(s, s.pc[t])
  {
    hide ConsumerNext, StepsLeft, Excess;
    var p := s.pc[t];
    if p.Idle? || p.HasTail? || p.HasOver? { EarlyMoves(s, t); }
    else if p.Emptying? || p.Freeing? || p.Loser? { LateMoves(s, t); }
    else { MiddleMoves(s, t); }
  }

  lemma EarlyMoves(s: State, t: Tid)
    requires t in s.pc && (s.pc[t].Idle? || s.pc[t].HasTail? || s.pc[t].HasOver?)
    ensures var s' := ConsumerNext(s, t);
            && t in s'.pc && s' == Goto(s, t, s'.pc[t])
            && (s.pc[t] != Idle ==> StepsLeft(s'.pc[t]) < StepsLeft(s.pc[t]) <= 8)
            && Excess(s', s'.pc[t]) == Excess(s, s.pc[t])
  {
    hide CircularLess, At, Count, Cell, BlockOf, CellOf;
  }

  lemma MiddleMoves(s: State, t: Tid)
    requires t in s.pc && (s.pc[t].Checked? || s.pc[t].Ticketed? || s.pc[t].Winner? || s.pc[t].Reading?)
    ensures var s' := ConsumerNext(s, t);
            && t in s'.pc && s'.pc == s.pc[t := s'.pc[t]]
            && StepsLeft(s'.pc[t]) < StepsLeft(s.pc[t]) <= 8
            && Excess(s', s'.pc[t]) == Excess(s, s.pc[t])
  {
    hide CircularLess, At, Count, Cell, BlockOf, CellOf;
  }

  lemma LateMoves(s: State, t: Tid)
    requires t in s.pc && (s.pc[t].Emptying? || s.pc[t].Freeing? || s.pc[t].Loser?)
    ensures var s' := ConsumerNext(s, t);
            && t in s'.pc && s'.pc == s.pc[t := s'.pc[t]]
            && StepsLeft(s'.pc[t]) < StepsLeft(s.pc[t]) <= 8
            && Excess(s', s'.pc[t]) == Excess(s, s.pc[t])
  {
    hide CircularLess, At, Count, Cell, BlockOf, CellOf;
  }

  /** A dequeue ends within nine steps of its own, whatever other threads do: its own steps bring it nearer to the
      end (each of them, by ConsumerMoves), and those of others do not touch it. */
  lemma EndsSoon(s: State, s': State, t: Tid)
    requires t in s.pc && Step(s, s')
    ensures t in s'.pc
    ensures s'.pc[t] == s.pc[t] || s.pc[t] == Idle || StepsLeft(s'.pc[t]) < StepsLeft(s.pc[t])
  {
    hide ConsumerNext, StepsLeft;
    if ProducerStep(s, s') {
      ProducerMoves(s, s');
    } else {
      var u :| ConsumerStep(s, u, s');
      ConsumerMoves(s, u);
    }
  }

  lemma ProducerMoves(s: State, s': State)
    requires ProducerStep(s, s')
    ensures s'.pc == s.pc && s'.head == s.head && s'.optimistic == s.optimistic && s'.overcommit == s.overcommit
    ensures s'.tail >= s.tail && s'.got == s.got && s'.freed == s.freed && s.log <= s'.log
  {
    match s.producer
    case PIdle =>
      if s.tail % BLOCK_SIZE != 0 {
        var item :| s' == s.(producer := PReady(item));
      } else {
        var item, m :| m in s.pool && s' == NewBlock(s, m, item);
        assert NewBlock(s, m, item).head == s.head;
      }
    case PReady(_) =>
    case PStored(_) =>
  }

  // ----- Who has drawn a ticket -----------------------------------------------------------------

  /** The threads that hold a ticket, and among them those whose ticket has failed. */
  ghost function Holders(s: State): set<Tid> { set t | t in s.pc && HasTicket(s.pc[t]) }

  ghost function Losers(s: State): set<Tid> { set t | t in s.pc && s.pc[t].Loser? }

  ghost function Standing(s: State): set<Tid> { set t | t in s.pc && (s.pc[t].Ticketed? || s.pc[t].Winner?) }

  lemma HoldersSplit(s: State)
    ensures |Holders(s)| == |Standing(s)| + |Losers(s)|
  {
    assert Holders(s) == Standing(s) + Losers(s) && Standing(s) !! Losers(s);
  }

  lemma HoldersMove(s: State, t: Tid, p: Pc)
    requires t in s.pc
    ensures |Holders(Goto(s, t, p))| + (if HasTicket(s.pc[t]) then 1 else 0) == |Holders(s)| + (if HasTicket(p) then 1 else 0)
  {
    var a, b := Holders(s), Holders(Goto(s, t, p));
    assert a - {t} == b - {t};
    OneLess(a, t);
    OneLess(b, t);
  }

  lemma OneLess(a: set<Tid>, t: Tid)
    ensures |a| == |a - {t}| + (if t in a then 1 else 0)
  {
    if t in a { assert a == a - {t} + {t}; } else { assert a == a - {t}; }
  }

  /** The optimistic count less the overcommit are the indices taken and the tickets in hand. */
  ghost predicate Balanced(s: State) { s.optimistic == s.overcommit + s.head + |Holders(s)| }

  lemma ConsumerBalanced(s: State, t: Tid)
    requires t in s.pc && Balanced(s)
    ensures Balanced(ConsumerNext(s, t))
  {
    hide ConsumerNext;
    var s' := ConsumerNext(s, t);
    ConsumerMoves(s, t);
    HoldersMove(s, t, s'.pc[t]);
    assert Holders(s') == Holders(Goto(s, t, s'.pc[t]));
  }

  lemma {:induction false} CountsBalance(run: seq<State>, k: nat)
    requires Run(run) && k < |run|
    ensures Balanced(run[k])
  {
    if k == 0 {
      assert Holders(run[0]) == {};
    } else {
      CountsBalance(run, k - 1);
      var s, s' := run[k - 1], run[k - 1 + 1];
      assert Step(s, s');
      if ProducerStep(s, s') {
        ProducerMoves(s, s');
        assert Holders(s') == Holders(s);
      } else {
        var t :| ConsumerStep(s, t, s');
        ConsumerBalanced(s, t);
      }
    }
  }

  /** In every reachable state: the optimistic count less the overcommit is the head, and the tickets that are
      not known to have failed, and those that have failed and are not repaid yet. */
  lemma ClaimsExact(run: seq<State>)
    requires Run(run)
    ensures var s := Last(run); s.optimistic - s.overcommit == s.head + |Standing(s)| + |Losers(s)|
  {
    CountsBalance(run, |run| - 1);
    HoldersSplit(Last(run));
  }

  // ----- When a dequeue fails -------------------------------------------------------------------

  lemma SafeAt(run: seq<State>, k: nat)
    requires Run(run) && k < |run|
    ensures Safe(run[k])
  {
    hide Safe, Step;
    var prefix := run[..k + 1];
    forall i | 0 <= i < |prefix| - 1 ensures Step(prefix[i], prefix[i + 1]) { assert Step(run[i], run[i + 1]); }
    RunSafe(prefix);
  }

  /** The circular comparison is exact between numbers that are less than half the word apart. */
  lemma LessExact(a: nat, b: nat)
    requires b < a + HALF && a <= b + HALF
    ensures CircularLess(a % WORD, b) <==> a < b
  {
    var d := a - b;
    assert (a % WORD - b) % WORD == d % WORD;
    if d < 0 { assert d % WORD == d + WORD; } else { assert d % WORD == d; }
  }

  /** The first comparison sends a dequeue away exactly if the optimistic count less the overcommit that it has
      read has reached the tail that it has read. */
  lemma FirstCompare(s: State, g: Ghost, t: Tid)
    requires Inv(s, g) && t in s.pc && s.pc[t].HasOver? && s.pc[t].tail <= s.tail
    requires s.optimistic <= s.pc[t].over + s.pc[t].tail + HALF
    ensures s.pc[t].over <= s.optimistic
    ensures ConsumerNext(s, t).pc[t] == Idle <==> s.pc[t].tail <= s.optimistic - s.pc[t].over
  {
    assert LocalOk(s, g, t);
    SettledBound(g.tickets);
    LessExact(s.optimistic - s.pc[t].over, s.pc[t].tail);
  }

  lemma SettledBound(ts: seq<Ticket>)
    ensures Tally(Uses, ts) + Tally(Repayments, ts) <= |ts|
  {
    StandingBound(ts);
  }

  /** A comparison that fails, of numbers of which the second is not half a word ahead. */
  lemma FailMeans(a: nat, b: nat)
    requires b < a + HALF && !CircularLess(a % WORD, b)
    ensures b <= a
  {
    if a < b { LessExact(a, b); }
  }

  /** From state `i` to state `j + 1` of the run thread `t` is inside one dequeue. */
  ghost predicate Dequeue(run: seq<State>, i: nat, j: nat, t: Tid) {
    && i < j < |run| - 1 && (forall k | 0 <= k < |run| :: t in run[k].pc)
    && run[i].pc[t] == Idle && (forall k | i < k <= j :: run[k].pc[t] != Idle) && run[j + 1].pc[t] == Idle
  }

  /** While `t` has not yet compared its ticket, the tail does not run half the index space ahead of it. */
  ghost predicate NotOvertaken(run: seq<State>, t: Tid) {
    forall k {:trigger run[k]} | 0 <= k < |run| && t in run[k].pc && run[k].pc[t].Ticketed? ::
      run[k].tail + run[k].pc[t].over < run[k].pc[t].mine + HALF
  }

  /** Before a ticket is drawn. */
  predicate Fresh(p: Pc) { p.Idle? || p.HasTail? || p.HasOver? || p.Checked? }

  /** The overcommit `ov` was read at state `a`, before `t` drew a ticket. */
  ghost predicate OverRead(run: seq<State>, i: nat, k: nat, t: Tid, ov: nat, a: nat)
    requires k < |run| && t in run[k].pc
  {
    i <= a <= k && t in run[a].pc && Fresh(run[a].pc[t]) && ov == run[a].overcommit
  }

  /** The optimistic count `n` was read at state `b`, before that too. */
  ghost predicate CountRead(run: seq<State>, k: nat, t: Tid, n: nat, a: nat, b: nat)
    requires k < |run|
  {
    a <= b <= k && t in run[b].pc && Fresh(run[b].pc[t]) && n == run[b].optimistic
  }

  /** At state `c` the tail was within the optimistic count of state `b` less the overcommit of state `a`. */
  ghost predicate Full(run: seq<State>, i: nat, k: nat, t: Tid, a: nat, b: nat, c: nat)
    requires k < |run|
  {
    && i <= a <= b <= k && i <= c <= k
    && t in run[a].pc && Fresh(run[a].pc[t]) && t in run[b].pc && Fresh(run[b].pc[t])
    && run[c].tail + run[a].overcommit <= run[b].optimistic
  }

  /** What thread `t` knows at state `k`. */
  ghost predicate Told(run: seq<State>, i: nat, k: nat, t: Tid)
    requires i <= k < |run| && t in run[k].pc
  {
    match run[k].pc[t]
    case HasTail(tl) => tl == run[i].tail
    case HasOver(tl, ov) => tl == run[i].tail && exists a :: OverRead(run, i, k, t, ov, a)
    case Checked(ov) => exists a :: OverRead(run, i, k, t, ov, a)
    case Ticketed(ov, mine) => exists a, b :: OverRead(run, i, k, t, ov, a) && CountRead(run, k, t, mine, a, b)
    case Loser(_) => exists a, b, c :: Full(run, i, k, t, a, b, c)
    case _ => true
  }

  /** Nothing is forgotten. */
  lemma ToldByOthers(run: seq<State>, i: nat, k: nat, t: Tid)
    requires i <= k < |run| - 1 && t in run[k].pc && t in run[k + 1].pc && Told(run, i, k, t) && run[k + 1].pc[t] == run[k].pc[t]
    ensures Told(run, i, k + 1, t)
  {
    match run[k].pc[t]
    case HasOver(_, ov) => var a :| OverRead(run, i, k, t, ov, a); assert OverRead(run, i, k + 1, t, ov, a);
    case Checked(ov) => var a :| OverRead(run, i, k, t, ov, a); assert OverRead(run, i, k + 1, t, ov, a);
    case Ticketed(ov, mine) =>
      var a, b :| OverRead(run, i, k, t, ov, a) && CountRead(run, k, t, mine, a, b);
      assert OverRead(run, i, k + 1, t, ov, a) && CountRead(run, k + 1, t, mine, a, b);
    case Loser(_) => var a, b, c :| Full(run, i, k, t, a, b, c); assert Full(run, i, k + 1, t, a, b, c);
    case _ =>
  }

  /** What a dequeue learns by its own steps. */
  lemma OwnStep(s: State, t: Tid)
    requires t in s.pc && s.pc[t] != Idle
    ensures var p, s' := s.pc[t], ConsumerNext(s, t);
            && t in s'.pc
            && match s'.pc[t]
               case HasTail(_) => false
               case HasOver(tl, ov) => p == HasTail(tl) && ov == s.overcommit
               case Checked(ov) => p.HasOver? && p.over == ov
               case Ticketed(ov, mine) => p == Checked(ov) && mine == s.optimistic
               case Loser(mine) => p.Ticketed? && p.mine == mine && !CircularLess((mine - p.over) % WORD, s.tail)
               case _ => true
  {
    hide CircularLess, At, Count, Cell, BlockOf, CellOf;
    if s.pc[t].HasTail? || s.pc[t].HasOver? {
    } else if s.pc[t].Emptying? || s.pc[t].Freeing? || s.pc[t].Loser? {
    } else {
    }
  }

  lemma OverWithinMine(s: State, g: Ghost, t: Tid)
    requires Inv(s, g) && t in s.pc && s.pc[t].Ticketed?
    ensures s.pc[t].over <= s.pc[t].mine
  {
    assert LocalOk(s, g, t);
    StandingBound(g.tickets[..s.pc[t].mine]);
  }

  lemma ToldByItself(run: seq<State>, i: nat, k: nat, t: Tid)
    requires i < k < |run| - 1 && t in run[k].pc && t in run[k + 1].pc && Told(run, i, k, t) && Safe(run[k])
    requires NotOvertaken(run, t) && run[k].pc[t] != Idle && run[k + 1] == ConsumerNext(run[k], t)
    ensures Told(run, i, k + 1, t)
  {
    hide ConsumerNext, CircularLess, Inv;
    var s := run[k];
    OwnStep(s, t);
    match run[k + 1].pc[t]
    case HasOver(_, ov) => assert OverRead(run, i, k + 1, t, ov, k);
    case Checked(ov) => var a :| OverRead(run, i, k, t, ov, a); assert OverRead(run, i, k + 1, t, ov, a);
    case Ticketed(ov, mine) =>
      var a :| OverRead(run, i, k, t, ov, a);
      assert OverRead(run, i, k + 1, t, ov, a) && CountRead(run, k + 1, t, mine, a, k);
    case Loser(mine) =>
      var ov := s.pc[t].over;
      var a, b :| OverRead(run, i, k, t, ov, a) && CountRead(run, k, t, mine, a, b);
      var g :| Inv(s, g);
      OverWithinMine(s, g, t);
      FailMeans(mine - ov, s.tail);
      assert Full(run, i, k + 1, t, a, b, k);
    case _ =>
  }

  lemma ToldAtFirst(run: seq<State>, i: nat, t: Tid)
    requires i + 1 < |run| && t in run[i].pc && run[i].pc[t] == Idle && run[i + 1] == ConsumerNext(run[i], t)
    ensures t in run[i + 1].pc && Told(run, i, i + 1, t)
  {
  }

  /** A step that moves `t` is its own. */
  lemma Mover(s: State, s': State, t: Tid)
    requires Step(s, s') && t in s.pc
    ensures t in s'.pc && (s'.pc[t] == s.pc[t] || s' == ConsumerNext(s, t))
  {
    hide ConsumerNext;
    if ProducerStep(s, s') {
      ProducerMoves(s, s');
    } else {
      var u :| ConsumerStep(s, u, s');
      ConsumerMoves(s, u);
    }
  }

  lemma InDequeue(run: seq<State>, i: nat, j: nat, t: Tid, k: nat)
    requires Run(run) && Dequeue(run, i, j, t) && i < k <= j
    ensures k < |run| - 1 && t in run[k - 1].pc && t in run[k].pc && t in run[k + 1].pc && Step(run[k - 1], run[k])
    ensures run[k - 1].pc[t] == Idle <==> k == i + 1
    ensures run[k].pc[t] != Idle
  {
    hide Step;
    assert Step(run[k - 1], run[k - 1 + 1]);
  }

  lemma {:induction false} ToldAlways(run: seq<State>, i: nat, j: nat, t: Tid, k: nat)
    requires Run(run) && Dequeue(run, i, j, t) && NotOvertaken(run, t) && i < k <= j
    ensures Told(run, i, k, t)
  {
    hide Told, ConsumerNext, NotOvertaken, Safe, Run, Dequeue, Step;
    InDequeue(run, i, j, t, k);
    Mover(run[k - 1], run[k], t);
    if k == i + 1 {
      ToldAtFirst(run, i, t);
    } else {
      ToldAlways(run, i, j, t, k - 1);
      SafeAt(run, k - 1);
      if run[k].pc[t] == run[k - 1].pc[t] { ToldByOthers(run, i, k - 1, t); } else { ToldByItself(run, i, k - 1, t); }
    }
  }

  /** The last step of a dequeue that has received nothing. */
  lemma LastStep(s: State, g: Ghost, t: Tid, s': State)
    requires Inv(s, g) && t in s.pc && s.pc[t] != Idle && s' == ConsumerNext(s, t) && t in s'.pc && s'.pc[t] == Idle
    requires s'.got == s.got && s'.freed == s.freed
    ensures var p := s.pc[t];
            p.Loser? || (p.HasOver? && p.over <= s.overcommit && !CircularLess((s.optimistic - p.over) % WORD, p.tail))
  {
    hide CircularLess, At, Count, Cell, BlockOf, CellOf, BlockOk, CellOk, Shape, Tally;
    assert LocalOk(s, g, t);
    if s.pc[t].Emptying? { NotGotYet(s, g, t); }
  }

  lemma NotGotYet(s: State, g: Ghost, t: Tid)
    requires Inv(s, g) && t in s.pc && s.pc[t].Emptying?
    ensures s.pc[t].index !in s.got
  {
    assert LocalOk(s, g, t);
    assert TakeOk(s, g, s.pc[t].index);
  }

  lemma FirstFails(s: State, g: Ghost, t: Tid, tail: nat)
    requires Inv(s, g) && t in s.pc && s.pc[t].HasOver? && s.pc[t].tail == tail <= s.tail && s.pc[t].over <= s.overcommit
    requires !CircularLess((s.optimistic - s.pc[t].over) % WORD, tail)
    ensures tail + s.pc[t].over <= s.optimistic
  {
    SettledBound(g.tickets);
    FailMeans(s.optimistic - s.pc[t].over, tail);
  }

  lemma {:induction false} TailGrows(run: seq<State>, i: nat, k: nat)
    requires Run(run) && i <= k < |run|
    ensures run[i].tail <= run[k].tail && run[i].head <= run[k].head
    decreases k - i
  {
    hide ConsumerNext, ProducerStep;
    if i < k {
      TailGrows(run, i, k - 1);
      assert Step(run[k - 1], run[k - 1 + 1]);
      StepGrows(run[k - 1], run[k]);
    }
  }

  lemma StepGrows(s: State, s': State)
    requires Step(s, s')
    ensures s.tail <= s'.tail && s.head <= s'.head
  {
    if ProducerStep(s, s') {
      ProducerMoves(s, s');
    } else {
      var u :| ConsumerStep(s, u, s');
      NextGrows(s, u);
    }
  }

  lemma NextGrows(s: State, t: Tid)
    requires t in s.pc
    ensures s.tail == ConsumerNext(s, t).tail && s.head <= ConsumerNext(s, t).head
  {
    var p := s.pc[t];
    hide ConsumerNext;
    if p.Idle? || p.HasTail? || p.HasOver? { EarlyMoves(s, t); }
    else if p.Emptying? || p.Freeing? || p.Loser? { LateGrows(s, t); }
    else { MiddleGrows(s, t); }
  }

  lemma MiddleGrows(s: State, t: Tid)
    requires t in s.pc && (s.pc[t].Checked? || s.pc[t].Ticketed? || s.pc[t].Winner? || s.pc[t].Reading?)
    ensures s.tail == ConsumerNext(s, t).tail && s.head <= ConsumerNext(s, t).head
  {
    hide CircularLess, At, Count, Cell, BlockOf, CellOf;
  }

  lemma LateGrows(s: State, t: Tid)
    requires t in s.pc && (s.pc[t].Emptying? || s.pc[t].Freeing? || s.pc[t].Loser?)
    ensures s.tail == ConsumerNext(s, t).tail && s.head <= ConsumerNext(s, t).head
  {
    hide CircularLess, At, Count, Cell, BlockOf, CellOf;
  }

  /** Where it fails, in terms of what was read. */
  lemma FailedFull(run: seq<State>, i: nat, j: nat, t: Tid) returns (a: nat, b: nat, c: nat)
    requires Run(run) && Dequeue(run, i, j, t) && NotOvertaken(run, t)
    requires run[j + 1].got == run[j].got && run[j + 1].freed == run[j].freed
    ensures Full(run, i, j, t, a, b, c)
  {
    hide ConsumerNext, CircularLess, NotOvertaken, Inv;
    ToldAlways(run, i, j, t, j);
    SafeAt(run, j);
    assert Step(run[j], run[j + 1]);
    Mover(run[j], run[j + 1], t);
    var s := run[j];
    var g :| Inv(s, g);
    LastStep(s, g, t, run[j + 1]);
    if s.pc[t].Loser? {
      a, b, c :| Full(run, i, j, t, a, b, c);
    } else {
      a :| OverRead(run, i, j, t, s.pc[t].over, a);
      TailGrows(run, i, j);
      FirstFails(s, g, t, run[i].tail);
      b, c := j, i;
    }
  }

  /** A dequeue that returns nothing, whatever other threads do between its start and its end: it has passed a
      state in which the tail was within what had been taken at some state `a`, with the tickets that others had
      in hand there and those that they drew until state `b`. */
  lemma NothingMeansFull(run: seq<State>, i: nat, j: nat, t: Tid) returns (a: nat, b: nat, c: nat)
    requires Run(run) && Dequeue(run, i, j, t) && NotOvertaken(run, t)
    requires run[j + 1].got == run[j].got && run[j + 1].freed == run[j].freed
    ensures i <= a <= b <= j && i <= c <= j
    ensures t in run[a].pc && t in run[b].pc && Fresh(run[a].pc[t]) && Fresh(run[b].pc[t])
    ensures run[c].tail <= run[a].head + |Holders(run[a])| + (run[b].optimistic - run[a].optimistic)
  {
    hide NotOvertaken, Step;
    a, b, c := FailedFull(run, i, j, t);
    CountsBalance(run, a);
  }

  /** All other threads are idle. */
  ghost predicate Alone(s: State, t: Tid) { forall u | u in s.pc && u != t :: s.pc[u] == Idle }

  /** Before `t` draws a ticket, and with no other dequeue in flight, nothing is taken and no ticket drawn. */
  lemma {:induction false} FreshKeeps(run: seq<State>, i: nat, j: nat, t: Tid, a: nat, b: nat)
    requires Run(run) && Dequeue(run, i, j, t) && (forall k | i <= k <= j + 1 :: Alone(run[k], t))
    requires i <= a <= b <= j && Fresh(run[b].pc[t])
    ensures Fresh(run[a].pc[t]) && run[b].optimistic == run[a].optimistic && run[b].head == run[a].head
    decreases b - a
  {
    hide ConsumerNext, Step;
    if a < b {
      assert Step(run[b - 1], run[b - 1 + 1]);
      assert Alone(run[b - 1], t) && Alone(run[b], t);
      FreshStep(run[b - 1], run[b], t);
      FreshKeeps(run, i, j, t, a, b - 1);
    }
  }

  lemma FreshStep(s: State, s': State, t: Tid)
    requires Step(s, s') && t in s.pc && t in s'.pc && Alone(s, t) && Alone(s', t) && Fresh(s'.pc[t]) && s'.pc[t] != Idle
    ensures Fresh(s.pc[t]) && s'.optimistic == s.optimistic && s'.head == s.head
  {
    hide ConsumerNext;
    if ProducerStep(s, s') {
      ProducerMoves(s, s');
    } else {
      var u :| ConsumerStep(s, u, s');
      FreshOwn(s, u, t);
    }
  }

  lemma FreshOwn(s: State, u: Tid, t: Tid)
    requires u in s.pc && t in s.pc && Alone(s, t)
    requires var s' := ConsumerNext(s, u); t in s'.pc && Alone(s', t) && Fresh(s'.pc[t]) && s'.pc[t] != Idle
    ensures var s' := ConsumerNext(s, u); Fresh(s.pc[t]) && s'.optimistic == s.optimistic && s'.head == s.head
  {
    hide ConsumerNext;
    if u == t {
      if s.pc[t] != Idle { OwnStep(s, t); }
      EarlyMoves(s, t);
    } else {
      BeginMoves(s, u);
    }
  }

  lemma BeginMoves(s: State, t: Tid)
    requires t in s.pc && s.pc[t] == Idle
    ensures t in ConsumerNext(s, t).pc && ConsumerNext(s, t).pc[t] == HasTail(s.tail)
  {
    hide CircularLess, At, Count, Cell, BlockOf, CellOf;
  }

  /** So with no other dequeue in flight the queue was empty. */
  lemma NothingMeansEmpty(run: seq<State>, i: nat, j: nat, t: Tid) returns (c: nat)
    requires Run(run) && Dequeue(run, i, j, t) && NotOvertaken(run, t)
    requires run[j + 1].got == run[j].got && run[j + 1].freed == run[j].freed
    requires forall k | i <= k <= j + 1 :: Alone(run[k], t)
    ensures i <= c <= j && run[c].head == run[c].tail
  {
    hide NotOvertaken, Step, Inv;
    var a, b;
    a, b, c := NothingMeansFull(run, i, j, t);
    FreshKeeps(run, i, j, t, a, b);
    NoHolders(run[a], t);
    if a <= c { TailGrows(run, a, c); } else { FreshKeeps(run, i, j, t, c, a); }
    SafeAt(run, c);
    var g :| Inv(run[c], g);
    HeadWithin(run[c], g);
  }

  lemma NoHolders(s: State, t: Tid)
    requires Alone(s, t) && t in s.pc && Fresh(s.pc[t])
    ensures Holders(s) == {}
  {
    forall u | u in s.pc ensures !HasTicket(s.pc[u]) { if u != t { assert s.pc[u] == Idle; } }
  }

  lemma HeadWithin(s: State, g: Ghost)
    requires Inv(s, g)
    ensures s.head <= s.tail
  {
  }

  // ----- Alone ------------------------------------------------------------------------------------

  /** Steps of the one consumer `t`. */
  ghost predicate Path(ss: seq<State>, t: Tid) {
    ss != [] && forall i {:trigger ss[i]} :: 0 <= i < |ss| - 1 ==> ConsumerStep(ss[i], t, ss[i + 1])
  }

  lemma PathStep(ss: seq<State>, t: Tid, s': State)
    requires Path(ss, t) && ConsumerStep(ss[|ss| - 1], t, s')
    ensures Path(ss + [s'], t)
  {
    hide ConsumerStep;
    var ts := ss + [s'];
    forall i | 0 <= i < |ts| - 1 ensures ConsumerStep(ts[i], t, ts[i + 1]) {
      if i < |ss| - 1 { assert ConsumerStep(ss[i], t, ss[i + 1]); }
    }
  }

  /** The element at the head has been received; nothing else has changed but the bookkeeping of its block. */
  ghost predicate Received(s: State, s': State) {
    && s.head < |s.log| && s'.got == s.got[s.head := s.log[s.head]]
    && s'.head == s.head + 1 && s'.optimistic == s.optimistic + 1
    && s' == s.(head := s'.head, optimistic := s'.optimistic, got := s'.got,
                counts := s'.counts, at := s'.at, pool := s'.pool, freed := s'.freed)
  }

  /** From any reachable state: a dequeue that runs alone receives the element at the head exactly if not all
      elements are claimed by tickets in hand, and else returns nothing and changes nothing.  With no other dequeue
      in flight it receives an element exactly if there is one. */
  lemma DequeuesAlone(run: seq<State>, t: Tid) returns (ss: seq<State>)
    requires Run(run) && t in Last(run).pc && Last(run).pc[t] == Idle && |Last(run).pc| <= HALF
    ensures Path(ss, t) && ss[0] == Last(run) && |ss| <= 10
    ensures var s, s' := Last(run), ss[|ss| - 1];
            if s.head + |Holders(s)| < s.tail then Received(s, s') else s' == s
  {
    hide Path, Received, Inv, Step, ConsumerNext;
    var s := Last(run);
    RunSafe(run);
    CountsBalance(run, |run| - 1);
    var g :| Inv(s, g);
    HoldersBound(s);
    ss := Asks(s, t, g);
    if s.head + |Holders(s)| < s.tail {
      ss := Draws(s, t, g, ss);
      ss := Wins(s, t, g, ss);
      ss := Takes(s, t, g, ss);
    } else {
      ss := Leaves(s, t, g, ss);
    }
  }

  lemma HoldersBound(s: State)
    ensures |Holders(s)| <= |s.pc|
  {
    assert Holders(s) <= s.pc.Keys;
    SubsetSize(Holders(s), s.pc.Keys);
  }

  lemma SubsetSize(a: set<Tid>, b: set<Tid>)
    requires a <= b
    ensures |a| <= |b|
  {
    assert b == a + (b - a);
  }

  /** Tail and overcommit are read. */
  lemma Asks(s: State, t: Tid, g: Ghost) returns (ss: seq<State>)
    requires Inv(s, g) && t in s.pc && s.pc[t] == Idle
    ensures Path(ss, t) && ss[0] == s && |ss| == 3 && ss[2] == Goto(s, t, HasOver(s.tail, s.overcommit))
  {
    hide Inv, CircularLess, At, Count, Cell, BlockOf, CellOf;
    var s1, s2 := Goto(s, t, HasTail(s.tail)), Goto(s, t, HasOver(s.tail, s.overcommit));
    assert Goto(s1, t, HasOver(s.tail, s.overcommit)) == s2;
    assert ConsumerStep(s, t, s1);
    assert ConsumerStep(s1, t, s2);
    ss := [s, s1, s2];
  }

  lemma FirstCompares(s: State, t: Tid, g: Ghost)
    requires Inv(s, g) && t in s.pc && Balanced(s) && |Holders(s)| <= HALF
    ensures s.overcommit <= s.optimistic
    ensures CircularLess((s.optimistic - s.overcommit) % WORD, s.tail) <==> s.head + |Holders(s)| < s.tail
  {
    LessExact(s.optimistic - s.overcommit, s.tail);
  }

  lemma Leaves(s: State, t: Tid, g: Ghost, before: seq<State>) returns (ss: seq<State>)
    requires Inv(s, g) && t in s.pc && s.pc[t] == Idle && Balanced(s) && |Holders(s)| <= HALF && s.head + |Holders(s)| >= s.tail
    requires Path(before, t) && before[0] == s && |before| == 3 && before[2] == Goto(s, t, HasOver(s.tail, s.overcommit))
    ensures Path(ss, t) && ss[0] == s && |ss| <= 10 && ss[|ss| - 1] == s
  {
    hide Inv, CircularLess, At, Count, Cell, BlockOf, CellOf, Path;
    FirstCompares(s, t, g);
    assert s.pc[t := HasOver(s.tail, s.overcommit)][t := Idle] == s.pc;
    assert ConsumerStep(before[2], t, s);
    PathStep(before, t, s);
    ss := before + [s];
  }

  lemma PassStep(s: State, t: Tid, tl: nat, ov: nat)
    requires t in s.pc && s.pc[t] == HasOver(tl, ov) && CircularLess((s.optimistic - ov) % WORD, tl)
    ensures ConsumerStep(s, t, Goto(s, t, Checked(ov)))
  {
    hide CircularLess, At, Count, Cell, BlockOf, CellOf;
  }

  lemma DrawStep(s: State, t: Tid, ov: nat)
    requires t in s.pc && s.pc[t] == Checked(ov)
    ensures ConsumerStep(s, t, Goto(s, t, Ticketed(ov, s.optimistic)).(optimistic := s.optimistic + 1))
  {
    hide CircularLess, At, Count, Cell, BlockOf, CellOf;
  }

  lemma WinStep(s: State, t: Tid, ov: nat, mine: nat)
    requires t in s.pc && s.pc[t] == Ticketed(ov, mine) && CircularLess((mine - ov) % WORD, s.tail) && mine <= ov + s.tail + HALF
    ensures ConsumerStep(s, t, Goto(s, t, Winner(mine)))
  {
    hide CircularLess, At, Count, Cell, BlockOf, CellOf;
  }

  /** A ticket is drawn. */
  lemma Draws(s: State, t: Tid, g: Ghost, before: seq<State>) returns (ss: seq<State>)
    requires Inv(s, g) && t in s.pc && s.pc[t] == Idle && Balanced(s) && |Holders(s)| <= HALF && s.head + |Holders(s)| < s.tail
    requires Path(before, t) && before[0] == s && |before| == 3 && before[2] == Goto(s, t, HasOver(s.tail, s.overcommit))
    ensures Path(ss, t) && ss[0] == s && |ss| == 5
    ensures ss[4] == Goto(s, t, Ticketed(s.overcommit, s.optimistic)).(optimistic := s.optimistic + 1)
  {
    hide Inv, CircularLess, Path, ConsumerStep;
    FirstCompares(s, t, g);
    var ov, n := s.overcommit, s.optimistic;
    var s3, s4 := Goto(s, t, Checked(ov)), Goto(s, t, Ticketed(ov, n)).(optimistic := n + 1);
    assert Goto(before[2], t, Checked(ov)) == s3;
    assert Goto(s3, t, Ticketed(ov, n)).(optimistic := n + 1) == s4;
    PassStep(before[2], t, s.tail, ov);
    DrawStep(s3, t, ov);
    PathStep(before, t, s3);
    PathStep(before + [s3], t, s4);
    ss := before + [s3] + [s4];
  }

  /** It wins. */
  lemma Wins(s: State, t: Tid, g: Ghost, before: seq<State>) returns (ss: seq<State>)
    requires Inv(s, g) && t in s.pc && s.pc[t] == Idle && Balanced(s) && |Holders(s)| <= HALF && s.head + |Holders(s)| < s.tail
    requires Path(before, t) && before[0] == s && |before| == 5
    requires before[4] == Goto(s, t, Ticketed(s.overcommit, s.optimistic)).(optimistic := s.optimistic + 1)
    ensures Path(ss, t) && ss[0] == s && |ss| == 6
    ensures ss[5] == Goto(s, t, Winner(s.optimistic)).(optimistic := s.optimistic + 1)
  {
    hide Inv, CircularLess, Path, ConsumerStep;
    FirstCompares(s, t, g);
    var s5 := Goto(s, t, Winner(s.optimistic)).(optimistic := s.optimistic + 1);
    assert Goto(before[4], t, Winner(s.optimistic)) == s5;
    WinStep(before[4], t, s.overcommit, s.optimistic);
    PathStep(before, t, s5);
    ss := before + [s5];
  }

  lemma TakeStep(s: State, t: Tid)
    requires t in s.pc && s.pc[t].Winner?
    ensures ConsumerStep(s, t, Goto(s, t, Reading(s.head)).(head := s.head + 1))
  {
    hide CircularLess, At, Count, Cell, BlockOf, CellOf;
  }

  lemma ReadStep(s: State, t: Tid)
    requires t in s.pc && s.pc[t].Reading?
    ensures ConsumerStep(s, t, Goto(s, t, Emptying(s.pc[t].index, Cell(s, s.pc[t].index))))
  {
    hide CircularLess, At, Count, Cell, BlockOf, CellOf;
  }

  lemma HeadThere(s: State, g: Ghost)
    requires Inv(s, g) && s.head < s.tail
    ensures s.head < |s.log| && Cell(s, s.head) == s.log[s.head]
  {
    assert CellOk(s, g, s.head);
  }

  /** The element at the head is taken and read. */
  lemma Reads(s: State, t: Tid, g: Ghost, before: seq<State>) returns (ss: seq<State>)
    requires Inv(s, g) && t in s.pc && s.pc[t] == Idle && s.head < s.tail
    requires Path(before, t) && before[0] == s && |before| == 6
    requires before[5] == Goto(s, t, Winner(s.optimistic)).(optimistic := s.optimistic + 1)
    ensures Path(ss, t) && ss[0] == s && |ss| == 8 && s.head < |s.log|
    ensures ss[7] == Goto(s, t, Emptying(s.head, s.log[s.head])).(optimistic := s.optimistic + 1, head := s.head + 1)
  {
    hide Inv, At, Count, Cell, BlockOf, CellOf, Path, ConsumerStep;
    HeadThere(s, g);
    var h, item := s.head, s.log[s.head];
    var taken := s.(optimistic := s.optimistic + 1, head := h + 1);
    var s6, s7 := Goto(taken, t, Reading(h)), Goto(taken, t, Emptying(h, item));
    TakeStep(before[5], t);
    assert Goto(before[5], t, Reading(h)).(head := h + 1) == s6;
    SameCell(s, s6, h);
    ReadStep(s6, t);
    assert Goto(s6, t, Emptying(h, item)) == s7;
    PathStep(before, t, s6);
    PathStep(before + [s6], t, s7);
    ss := before + [s6] + [s7];
  }

  /** It is received, and its slot counted as empty. */
  lemma Empties(s: State, t: Tid)
    requires t in s.pc && s.pc[t].Emptying?
    ensures var i, s' := s.pc[t].index, ConsumerNext(s, t);
            && t in s'.pc && ConsumerStep(s, t, s') && (s'.pc[t] == Idle || s'.pc[t].Freeing?)
            && s' == Goto(s, t, s'.pc[t]).(got := s.got[i := s.pc[t].item], counts := s'.counts)
  {
    hide CircularLess, At, Count, Cell, BlockOf, CellOf;
  }

  /** The last one gives the block back. */
  lemma Frees(s: State, t: Tid)
    requires t in s.pc && s.pc[t].Freeing?
    ensures var s' := ConsumerNext(s, t);
            && t in s'.pc && ConsumerStep(s, t, s')
            && s' == Goto(s, t, Idle).(at := s'.at, pool := s'.pool, freed := s'.freed)
  {
    hide CircularLess, At, Count, Cell, BlockOf, CellOf;
  }

  lemma Takes(s: State, t: Tid, g: Ghost, before: seq<State>) returns (ss: seq<State>)
    requires Inv(s, g) && t in s.pc && s.pc[t] == Idle && s.head < s.tail
    requires Path(before, t) && before[0] == s && |before| == 6
    requires before[5] == Goto(s, t, Winner(s.optimistic)).(optimistic := s.optimistic + 1)
    ensures Path(ss, t) && ss[0] == s && |ss| <= 10 && Received(s, ss[|ss| - 1])
  {
    hide Inv, ConsumerNext, Path, ConsumerStep;
    ss := Reads(s, t, g, before);
    var s7 := ss[7];
    var s8 := ConsumerNext(s7, t);
    Empties(s7, t);
    PathStep(ss, t, s8);
    ss := ss + [s8];
    if s8.pc[t] == Idle {
      assert s8.pc == s.pc;
    } else {
      var s9 := ConsumerNext(s8, t);
      Frees(s8, t);
      PathStep(ss, t, s9);
      ss := ss + [s9];
      assert s9.pc == s.pc;
    }
  }

  lemma SameCell(s: State, s': State, i: nat)
    requires s'.at == s.at && s'.cells == s.cells
    ensures Cell(s', i) == Cell(s, i)
  {
  }

  /** Steps of the producer. */
  ghost predicate Produces(ss: seq<State>) { ss != [] && forall i {:trigger ss[i]} :: 0 <= i < |ss| - 1 ==> ProducerStep(ss[i], ss[i + 1]) }

  /** There is room: in the block begun, or in the index space for another block, and memory for it. */
  predicate Room(s: State) { s.tail % BLOCK_SIZE != 0 || (s.tail + BLOCK_SIZE < s.head + HALF && s.pool != {}) }

  /** From any reachable state: an enqueue that runs alone puts the item behind all others exactly if there is room,
      and else does nothing. */
  lemma EnqueuesAlone(run: seq<State>, item: Item) returns (ss: seq<State>)
    requires Run(run) && Last(run).producer == PIdle
    ensures Room(Last(run)) ==> Produces(ss) && ss[0] == Last(run) && |ss| == 4
    ensures Room(Last(run)) ==>
              var s, s' := Last(run), ss[3];
              && s'.producer == PIdle && s'.tail == s.tail + 1 && s'.log == s.log + [item] && s.tail == |s.log|
              && s' == s.(tail := s'.tail, log := s'.log, cells := s'.cells, at := s'.at, pool := s'.pool, counts := s'.counts)
    ensures !Room(Last(run)) ==> forall s' :: !ProducerStep(Last(run), s')
  {
    hide Step, Inv;
    RunSafe(run);
    var s := Last(run);
    var g :| Inv(s, g);
    ss := EnqueuePath(s, item, g);
  }

  lemma EnqueuePath(s: State, item: Item, g: Ghost) returns (ss: seq<State>)
    requires Inv(s, g) && s.producer == PIdle
    ensures Room(s) ==> Produces(ss) && ss[0] == s && |ss| == 4
    ensures Room(s) ==>
              var s' := ss[3];
              && s'.producer == PIdle && s'.tail == s.tail + 1 && s'.log == s.log + [item] && s.tail == |s.log|
              && s' == s.(tail := s'.tail, log := s'.log, cells := s'.cells, at := s'.at, pool := s'.pool, counts := s'.counts)
    ensures !Room(s) ==> forall s' :: !ProducerStep(s, s')
  {
    hide Inv, CircularLess, CellOf, BlockOf;
    TailOf(s, g);
    RoomExact(s.head, s.tail);
    if Room(s) {
      var s1 := s.(producer := PReady(item));
      if s.tail % BLOCK_SIZE == 0 {
        var m :| m in s.pool;
        s1 := NewBlock(s, m, item);
      }
      var s2 := Construct(s1, item);
      var s3 := s2.(producer := PIdle, tail := s2.tail + 1);
      assert ProducerStep(s, s1) && ProducerStep(s1, s2) && ProducerStep(s2, s3);
      ss := [s, s1, s2, s3];
    } else {
      ss := [];
    }
  }

  lemma TailOf(s: State, g: Ghost)
    requires Inv(s, g)
    ensures s.producer == PIdle ==> s.tail == |s.log|
    ensures s.head <= s.tail < s.head + HALF
  {
  }

  // ----- Memory -------------------------------------------------------------------------------------

  /** All memory blocks: those that are free, and those that serve a block of indices. */
  function Memory(s: State): set<nat> { s.pool + s.at.Values }

  lemma ValueAdded(m: map<nat, nat>, b: nat, x: nat)
    requires b !in m
    ensures m[b := x].Values == m.Values + {x}
  {
    var m' := m[b := x];
    forall y | y in m.Values ensures y in m'.Values {
      var k :| k in m && m[k] == y;
      assert k in m' && m'[k] == y;
    }
    assert b in m' && m'[b] == x;
  }

  lemma ValueRemoved(m: map<nat, nat>, b: nat)
    requires b in m
    ensures (m - {b}).Values + {m[b]} == m.Values
  {
    var m' := m - {b};
    forall y | y in m.Values ensures y in m'.Values + {m[b]} {
      var k :| k in m && m[k] == y;
      if k != b { assert k in m' && m'[k] == y; }
    }
  }

  lemma NewBlockMemory(s: State, g: Ghost, m: nat, item: Item)
    requires Inv(s, g) && s.producer.PIdle? && s.tail % BLOCK_SIZE == 0 && m in s.pool
    ensures Memory(NewBlock(s, m, item)) == Memory(s)
  {
    var b, s' := BlockOf(s.tail), NewBlock(s, m, item);
    FreshBlock(s, g, b);
    ValueAdded(s.at, b, m);
    assert s'.at == s.at[b := m] && s'.pool == s.pool - {m};
  }

  lemma ProducerMemory(s: State, g: Ghost, s': State)
    requires Inv(s, g) && ProducerStep(s, s')
    ensures Memory(s') == Memory(s)
  {
    hide Inv, CircularLess, CellOf;
    match s.producer
    case PIdle =>
      if s.tail % BLOCK_SIZE != 0 {
        var item :| s' == s.(producer := PReady(item));
      } else {
        var item, m :| m in s.pool && s' == NewBlock(s, m, item);
        NewBlockMemory(s, g, m, item);
      }
    case PReady(_) =>
    case PStored(_) =>
  }

  lemma FreedBlock(s: State, g: Ghost, t: Tid)
    requires Inv(s, g) && t in s.pc && s.pc[t].Freeing?
    ensures s.pc[t].block in s.at
  {
    assert LocalOk(s, g, t) && BlockOk(s, g, s.pc[t].block);
  }

  lemma ConsumerMemory(s: State, g: Ghost, t: Tid)
    requires Inv(s, g) && t in s.pc
    ensures Memory(ConsumerNext(s, t)) == Memory(s)
  {
    hide Inv, CircularLess, Count, Cell, BlockOf, CellOf;
    if s.pc[t].Freeing? {
      FreedBlock(s, g, t);
      ValueRemoved(s.at, s.pc[t].block);
    }
  }

  /** No memory is lost and none is made up: in every reachable state the free blocks and those in use are together
      those that were free at the start. */
  lemma {:induction false} MemoryConserved(run: seq<State>, k: nat)
    requires Run(run) && k < |run|
    ensures run[k].pool + run[k].at.Values == run[0].pool
  {
    hide Inv;
    if k == 0 {
      assert run[0].at.Values == {};
    } else {
      MemoryConserved(run, k - 1);
      SafeAt(run, k - 1);
      var s, s' := run[k - 1], run[k - 1 + 1];
      var g :| Inv(s, g);
      assert Step(s, s');
      if ProducerStep(s, s') {
        ProducerMemory(s, g, s');
      } else {
        var t :| ConsumerStep(s, t, s');
        ConsumerMemory(s, g, t);
      }
    }
  }
}
