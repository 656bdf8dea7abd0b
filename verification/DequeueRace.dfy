/** A race in which a dequeue returns nothing although an element is there that nobody will take
    (libs/async/include/suil/async/detail/concurrentqueue.h:3546-3640), and when that cannot be. */
module DequeueRace {
  import opened DequeueAnswers
  import opened OptimisticDequeue

  /** Every index below `tail` is taken, or can be claimed by a ticket that has not failed. */
  ghost predicate Claimed(s: State, tail: nat) { tail <= s.head + |Standing(s)| }

  /** In a reachable state all is claimed exactly if the optimistic count, less the overcommit and less the
      tickets that have failed and are not repaid yet, has reached the tail. */
  lemma ClaimedIff(run: seq<State>, tail: nat)
    requires Run(run)
    ensures var s := Last(run); Claimed(s, tail) <==> tail + s.overcommit + |Losers(s)| <= s.optimistic
  {
    ClaimsExact(run);
  }

  /** While a dequeue is before a state in which it has no ticket yet, it has no ticket that failed. */
  lemma {:induction false} NotYetLost(run: seq<State>, i: nat, j: nat, t: Tid, k: nat, b: nat)
    requires Run(run) && Dequeue(run, i, j, t) && i <= k <= b <= j && Fresh(run[b].pc[t])
    ensures !run[k].pc[t].Loser?
    ensures run[b].pc[t] != Idle ==> run[k].pc[t] == Idle || StepsLeft(run[k].pc[t]) >= StepsLeft(run[b].pc[t])
    decreases b - k
  {
    hide Step, StepsLeft;
    if k < b && k > i {
      NotYetLost(run, i, j, t, k + 1, b);
      assert Step(run[k], run[k + 1]);
      EndsSoon(run[k], run[k + 1], t);
      FreshFar(run[k].pc[t], run[b].pc[t]);
    }
  }

  lemma FreshFar(p: Pc, q: Pc)
    ensures Fresh(q) && q != Idle ==> StepsLeft(q) > 5
    ensures p.Loser? ==> StepsLeft(p) == 1
  {
  }

  /** The overcommit grows only while a ticket that has failed is repaid. */
  lemma OverStays(s: State, s': State)
    requires Step(s, s') && Losers(s) == {}
    ensures s'.overcommit == s.overcommit
  {
    hide ConsumerNext;
    if ProducerStep(s, s') {
      ProducerMoves(s, s');
    } else {
      var u :| ConsumerStep(s, u, s');
      assert u !in Losers(s);
      NextOver(s, u);
    }
  }

  lemma NextOver(s: State, t: Tid)
    requires t in s.pc && !s.pc[t].Loser?
    ensures ConsumerNext(s, t).overcommit == s.overcommit
  {
    hide CircularLess, At, Count, Cell, BlockOf, CellOf;
  }

  lemma {:induction false} OverSame(run: seq<State>, a: nat, b: nat)
    requires Run(run) && a <= b < |run| && forall k {:trigger run[k]} | a <= k <= b :: Losers(run[k]) == {}
    ensures run[a].overcommit == run[b].overcommit
    decreases b - a
  {
    hide Step, Losers;
    if a < b {
      assert Step(run[b - 1], run[b - 1 + 1]);
      OverStays(run[b - 1], run[b]);
      OverSame(run, a, b - 1);
    }
  }

  /** While no other thread holds a ticket that has failed, a dequeue that returns nothing has passed a state in
      which every index below a tail of that time was claimed. */
  lemma NothingMeansClaimed(run: seq<State>, i: nat, j: nat, t: Tid) returns (b: nat, c: nat)
    requires Run(run) && Dequeue(run, i, j, t) && NotOvertaken(run, t)
    requires run[j + 1].got == run[j].got && run[j + 1].freed == run[j].freed
    requires forall k {:trigger run[k]} | i <= k <= j :: Losers(run[k]) <= {t}
    ensures i <= b <= j && i <= c <= j && Claimed(run[b], run[c].tail)
  {
    hide Step, NotOvertaken, ConsumerNext;
    var a;
    a, b, c := FailedFull(run, i, j, t);
    forall k | a <= k <= b ensures Losers(run[k]) == {} {
      NotYetLost(run, i, j, t, k, b);
      assert t !in Losers(run[k]);
    }
    OverSame(run, a, b);
    CountsBalance(run, b);
    HoldersSplit(run[b]);
  }

  /** One element enqueued, with three consumers. */
  function Begun(opt: nat, a: Pc, b: Pc, c: Pc): State {
    State(1, 0, opt, 0, [7], map[0 := 0], map[(0, 0) := 7], map[0 := 0], {}, [], map[], PIdle, map[0 := a, 1 := b, 2 := c])
  }

  /** Two elements enqueued; the first consumer is about to take an index, the second has a ticket that has
      failed. */
  function Raced(c: Pc): State {
    State(2, 0, 2, 0, [7, 8], map[0 := 0], map[(0, 0) := 7, (0, 1) := 8], map[0 := 0], {}, [], map[], PIdle,
          map[0 := Winner(0), 1 := Loser(1), 2 := c])
  }

  function Empty(): State {
    State(0, 0, 0, 0, [], map[], map[], map[], {0}, [], map[], PIdle, map[0 := Idle, 1 := Idle, 2 := Idle])
  }

  lemma RunMore(run: seq<State>, s: State)
    requires Run(run) && Step(Last(run), s)
    ensures Run(run + [s])
  {
    hide Step, Init;
    var more := run + [s];
    forall i | 0 <= i < |more| - 1 ensures Step(more[i], more[i + 1]) { if i < |run| - 1 { assert Step(run[i], run[i + 1]); } }
  }

  /** The third consumer has not begun. */
  ghost predicate Early(run: seq<State>) {
    Run(run) && forall k: nat {:trigger run[k]} | k < |run| :: 2 in run[k].pc && run[k].pc[2] == Idle
  }

  lemma EarlyMore(run: seq<State>, s: State)
    requires Early(run) && Step(Last(run), s) && 2 in s.pc && s.pc[2] == Idle
    ensures Early(run + [s])
  {
    hide Step, Run;
    RunMore(run, s);
  }

  lemma FirstEnqueued() returns (run: seq<State>)
    ensures Early(run) && Last(run) == Begun(0, Idle, Idle, Idle)
  {
    var s0 := Empty();
    var s1 := NewBlock(s0, 0, 7);
    var s2 := Construct(s1, 7);
    var s3 := s2.(producer := PIdle, tail := 1);
    assert CircularLess(0, 32);
    assert ProducerStep(s0, s1) && ProducerStep(s1, s2) && ProducerStep(s2, s3);
    assert s3 == Begun(0, Idle, Idle, Idle);
    run := [s0, s1, s2, s3];
  }

  lemma Set(a: Pc, b: Pc, c: Pc, p: Pc)
    ensures var m := map[0 := a, 1 := b, 2 := c];
            && m[0 := p] == map[0 := p, 1 := b, 2 := c]
            && m[1 := p] == map[0 := a, 1 := p, 2 := c]
            && m[2 := p] == map[0 := a, 1 := b, 2 := p]
  {
  }

  /** Two consumers read the tail and the overcommit, and pass the first comparison. */
  lemma BothChecked(run: seq<State>) returns (more: seq<State>)
    requires Early(run) && Last(run) == Begun(0, Idle, Idle, Idle)
    ensures Early(more) && Last(more) == Begun(0, Checked(0), Checked(0), Idle)
  {
    hide Early;
    Set(Idle, Idle, Idle, HasTail(1));
    Set(HasTail(1), Idle, Idle, HasOver(1, 0));
    Set(HasOver(1, 0), Idle, Idle, Checked(0));
    var s1, s2, s3 := Begun(0, HasTail(1), Idle, Idle), Begun(0, HasOver(1, 0), Idle, Idle), Begun(0, Checked(0), Idle, Idle);
    assert CircularLess(0, 1);
    assert ConsumerStep(Begun(0, Idle, Idle, Idle), 0, s1) && ConsumerStep(s1, 0, s2) && ConsumerStep(s2, 0, s3);
    EarlyMore(run, s1);
    EarlyMore(run + [s1], s2);
    EarlyMore(run + [s1] + [s2], s3);
    more := SecondChecked(run + [s1] + [s2] + [s3]);
  }

  lemma SecondChecked(run: seq<State>) returns (more: seq<State>)
    requires Early(run) && Last(run) == Begun(0, Checked(0), Idle, Idle)
    ensures Early(more) && Last(more) == Begun(0, Checked(0), Checked(0), Idle)
  {
    hide Early;
    Set(Checked(0), Idle, Idle, HasTail(1));
    Set(Checked(0), HasTail(1), Idle, HasOver(1, 0));
    Set(Checked(0), HasOver(1, 0), Idle, Checked(0));
    var s0, s1 := Begun(0, Checked(0), Idle, Idle), Begun(0, Checked(0), HasTail(1), Idle);
    var s2, s3 := Begun(0, Checked(0), HasOver(1, 0), Idle), Begun(0, Checked(0), Checked(0), Idle);
    assert CircularLess(0, 1);
    assert ConsumerStep(s0, 1, s1) && ConsumerStep(s1, 1, s2) && ConsumerStep(s2, 1, s3);
    EarlyMore(run, s1);
    EarlyMore(run + [s1], s2);
    EarlyMore(run + [s1] + [s2], s3);
    more := run + [s1] + [s2] + [s3];
  }

  /** Both draw a ticket; the first wins, the second fails. */
  lemma BothDrawn(run: seq<State>) returns (more: seq<State>)
    requires Early(run) && Last(run) == Begun(0, Checked(0), Checked(0), Idle)
    ensures Early(more) && Last(more) == Begun(2, Winner(0), Loser(1), Idle)
  {
    hide Early;
    Set(Checked(0), Checked(0), Idle, Ticketed(0, 0));
    Set(Ticketed(0, 0), Checked(0), Idle, Winner(0));
    Set(Winner(0), Checked(0), Idle, Ticketed(0, 1));
    Set(Winner(0), Ticketed(0, 1), Idle, Loser(1));
    var s0, s1 := Begun(0, Checked(0), Checked(0), Idle), Begun(1, Ticketed(0, 0), Checked(0), Idle);
    var s2 := Begun(1, Winner(0), Checked(0), Idle);
    var s3, s4 := Begun(2, Winner(0), Ticketed(0, 1), Idle), Begun(2, Winner(0), Loser(1), Idle);
    assert CircularLess(0, 1) && !CircularLess(1, 1);
    assert ConsumerStep(s0, 0, s1) && ConsumerStep(s1, 0, s2) && ConsumerStep(s2, 1, s3) && ConsumerStep(s3, 1, s4);
    EarlyMore(run, s1);
    EarlyMore(run + [s1], s2);
    EarlyMore(run + [s1] + [s2], s3);
    EarlyMore(run + [s1] + [s2] + [s3], s4);
    more := run + [s1] + [s2] + [s3] + [s4];
  }

  lemma SecondEnqueued(run: seq<State>) returns (more: seq<State>)
    requires Early(run) && Last(run) == Begun(2, Winner(0), Loser(1), Idle)
    ensures Early(more) && Last(more) == Raced(Idle)
  {
    hide Early;
    var s1 := Begun(2, Winner(0), Loser(1), Idle).(producer := PReady(8));
    var s2 := Construct(s1, 8);
    var s3 := s2.(producer := PIdle, tail := 2);
    assert ProducerStep(Begun(2, Winner(0), Loser(1), Idle), s1) && ProducerStep(s1, s2) && ProducerStep(s2, s3);
    assert s3 == Raced(Idle);
    EarlyMore(run, s1);
    EarlyMore(run + [s1], s2);
    EarlyMore(run + [s1] + [s2], s3);
    more := run + [s1] + [s2] + [s3];
  }

  lemma RacedUnclaimed(c: Pc)
    requires c == Idle || c.HasTail? || c.HasOver?
    ensures !Claimed(Raced(c), 2)
  {
    assert Standing(Raced(c)) == {0};
  }

  /** The dequeue of the third consumer returns nothing: it reads the tail 2 and the overcommit 0, and the
      optimistic count is 2.  But in every state it passes only one of the two elements is claimed. */
  lemma NothingThoughUnclaimed() returns (run: seq<State>, i: nat, j: nat)
    ensures Run(run) && Dequeue(run, i, j, 2) && NotOvertaken(run, 2)
    ensures run[j + 1].got == run[j].got && run[j + 1].freed == run[j].freed
    ensures forall k {:trigger run[k]} | i <= k <= j + 1 :: !Claimed(run[k], run[i].tail)
  {
    hide Claimed;
    run := FirstEnqueued();
    run := BothChecked(run);
    run := BothDrawn(run);
    run := SecondEnqueued(run);
    i, j := |run| - 1, |run| + 1;
    RacedUnclaimed(Idle);
    RacedUnclaimed(HasTail(2));
    RacedUnclaimed(HasOver(2, 0));
    run := ThirdLeaves(run);
  }

  lemma ThirdLeaves(run: seq<State>) returns (more: seq<State>)
    requires Early(run) && Last(run) == Raced(Idle)
    ensures Run(more) && more == run + [Raced(HasTail(2)), Raced(HasOver(2, 0)), Raced(Idle)]
  {
    Set(Winner(0), Loser(1), Idle, HasTail(2));
    Set(Winner(0), Loser(1), HasTail(2), HasOver(2, 0));
    Set(Winner(0), Loser(1), HasOver(2, 0), Idle);
    var s1, s2, s3 := Raced(HasTail(2)), Raced(HasOver(2, 0)), Raced(Idle);
    assert !CircularLess(2, 2);
    assert ConsumerStep(Raced(Idle), 2, s1) && ConsumerStep(s1, 2, s2) && ConsumerStep(s2, 2, s3);
    RunMore(run, s1);
    RunMore(run + [s1], s2);
    RunMore(run + [s1] + [s2], s3);
    more := run + [s1] + [s2] + [s3];
  }
}
