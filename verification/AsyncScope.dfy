/** The counted join of `AsyncScope` (libs/async/include/suil/async/scope.hpp:143-200).

    The scope is joined once.  Work is spawned by the joining coroutine before it joins, or by
    work that has not finished.  Every atomic access is one step, in any order. */
module AsyncScope {
  type Wid = nat

  /** A piece of spawned work: running, inside `spawn`, about to resume the joiner, finished. */
  datatype Work = Running | Spawning | Waking | Finished

  /** The joining coroutine: still spawning, past `await_ready`, past the store of the
      continuation, suspended, and past the join. */
  datatype Joiner = Preparing | Starting | Checked | Stored | Suspended | Continued

  /** `resumes` counts how often the joiner went on, whether it was suspended or not. */
  datatype State = State(count: int, continuation: bool, joiner: Joiner, work: map<Wid, Work>, resumes: nat)

  function Active(w: Work): bool { w.Running? || w.Spawning? }

  function Live(s: State): set<Wid> { set w | w in s.work && Active(s.work[w]) }

  function SetWork(s: State, w: Wid, x: Work): State { s.(work := s.work[w := x]) }

  // ----- Steps ------------------------------------------------------------------------------

  /** `on_work_started` for the new work `w`. */
  function Start(s: State, w: Wid): State { SetWork(s, w, Running).(count := s.count + 1) }

  function Subtract(s: State): State { s.(count := s.count - 1) }

  function Continue(s: State): State { s.(joiner := Continued, resumes := s.resumes + 1) }

  ghost predicate JoinerStep(s: State, s': State) {
    match s.joiner
    case Preparing =>
      || s' == s.(joiner := Starting)
      || s' == if s.count == 0 then Continue(s) else s.(joiner := Checked)
    case Starting => exists w | w !in s.work :: s' == Start(s, w).(joiner := Preparing)
    case Checked => s' == s.(continuation := true, joiner := Stored)
    case Stored => s' == if s.count > 1 then Subtract(s).(joiner := Suspended) else Continue(Subtract(s))
    case _ => false
  }

  ghost predicate WorkStep(s: State, w: Wid, s': State) {
    && w in s.work
    && match s.work[w]
       case Running =>
         || s' == SetWork(s, w, Spawning)
         || s' == SetWork(Subtract(s), w, if s.count == 1 then Waking else Finished)
       case Spawning => exists v | v !in s.work :: s' == SetWork(Start(s, v), w, Running)
       case Waking => s' == SetWork(Continue(s), w, Finished)
       case Finished => false
  }

  ghost predicate Step(s: State, s': State) { JoinerStep(s, s') || exists w :: WorkStep(s, w, s') }

  ghost predicate Init(s: State) { s == State(1, false, Preparing, map[], 0) }

  ghost predicate Run(run: seq<State>) {
    && |run| > 0 && Init(run[0])
    && forall i :: 0 <= i < |run| - 1 ==> Step(run[i], run[i + 1])
  }

  // ----- Invariant --------------------------------------------------------------------------

  predicate BeforeJoin(j: Joiner) { j.Preparing? || j.Starting? || j.Checked? || j.Stored? }

  ghost predicate Inv(s: State) {
    && s.count == |Live(s)| + (if BeforeJoin(s.joiner) then 1 else 0)
    && (s.joiner.Stored? || s.joiner.Suspended? ==> s.continuation)
    && (s.joiner.Continued? ==> Live(s) == {})
    && s.resumes == (if s.joiner.Continued? then 1 else 0)
    && (forall w | w in s.work && s.work[w].Waking? :: s.joiner.Suspended? && Live(s) == {})
    && (forall v, w | v in s.work && w in s.work && s.work[v].Waking? && s.work[w].Waking? :: v == w)
    && (s.joiner.Suspended? ==> Live(s) != {} || exists w :: w in s.work && s.work[w].Waking?)
  }

  lemma LiveAfter(s: State, w: Wid, x: Work)
    ensures Live(SetWork(s, w, x)) == if Active(x) then Live(s) + {w} else Live(s) - {w}
    ensures w in s.work ==> (w in Live(s) <==> Active(s.work[w]))
    ensures w !in s.work ==> w !in Live(s)
  {
  }

  lemma JoinerStartsInv(s: State, w: Wid)
    requires Inv(s) && s.joiner.Starting? && w !in s.work
    ensures Inv(Start(s, w).(joiner := Preparing))
  {
    LiveAfter(s, w, Running);
    assert Live(Start(s, w).(joiner := Preparing)) == Live(s) + {w};
  }

  lemma JoinerKeepsInv(s: State, s': State)
    requires Inv(s) && JoinerStep(s, s')
    ensures Inv(s')
  {
    if s.joiner.Starting? {
      var w :| w !in s.work && s' == Start(s, w).(joiner := Preparing);
      JoinerStartsInv(s, w);
    } else {
      assert Live(s') == Live(s);
    }
  }

  lemma SpawnKeepsInv(s: State, w: Wid, v: Wid)
    requires Inv(s) && w in s.work && s.work[w].Spawning? && v !in s.work
    ensures Inv(SetWork(Start(s, v), w, Running))
  {
    LiveAfter(s, w, Spawning);
    var s' := SetWork(Start(s, v), w, Running);
    assert Live(s') == Live(s) + {v};
  }

  lemma FinishKeepsInv(s: State, w: Wid)
    requires Inv(s) && w in s.work && s.work[w].Running?
    ensures Inv(SetWork(Subtract(s), w, if s.count == 1 then Waking else Finished))
  {
    var s' := SetWork(Subtract(s), w, if s.count == 1 then Waking else Finished);
    LiveAfter(s, w, Finished);
    assert Live(s') == Live(s) - {w};
    if s.count == 1 {
      assert s'.work[w].Waking?;
    } else if s.joiner.Suspended? {
      assert |Live(s')| > 0;
    }
  }

  lemma WakeKeepsInv(s: State, w: Wid)
    requires Inv(s) && w in s.work && s.work[w].Waking?
    ensures Inv(SetWork(Continue(s), w, Finished))
  {
    assert Live(SetWork(Continue(s), w, Finished)) == Live(s);
  }

  lemma WorkKeepsInv(s: State, w: Wid, s': State)
    requires Inv(s) && WorkStep(s, w, s')
    ensures Inv(s')
  {
    match s.work[w]
    case Running =>
      if s' == SetWork(s, w, Spawning) {
        LiveAfter(s, w, Spawning);
        assert Live(s') == Live(s);
      } else {
        FinishKeepsInv(s, w);
      }
    case Spawning =>
      var v :| v !in s.work && s' == SetWork(Start(s, v), w, Running);
      SpawnKeepsInv(s, w, v);
    case Waking => WakeKeepsInv(s, w);
  }

  lemma {:induction false} RunInv(run: seq<State>)
    requires Run(run)
    ensures Inv(run[|run| - 1])
    decreases |run|
  {
    var n := |run| - 1;
    if n == 0 {
      assert Live(run[0]) == {};
    } else {
      RunInv(run[..n]);
      var s, s' := run[n - 1], run[n - 1 + 1];
      assert Step(s, s');
      if JoinerStep(s, s') {
        JoinerKeepsInv(s, s');
      } else {
        var w :| WorkStep(s, w, s');
        WorkKeepsInv(s, w, s');
      }
    }
  }

  // ----- Over whole runs ----------------------------------------------------------------------

  /** The count is the live work, and one more until the join has subtracted its share. */
  lemma CountIsLiveWork(run: seq<State>)
    requires Run(run)
    ensures var s := run[|run| - 1];
            s.count == |Live(s)| + (if BeforeJoin(s.joiner) then 1 else 0)
  {
    RunInv(run);
  }

  /** The count is never zero where `on_work_started` asserts so, nor where it is decremented. */
  lemma NeverFromZero(run: seq<State>, w: Wid)
    requires Run(run)
    ensures var s := run[|run| - 1];
            && (s.joiner.Preparing? || s.joiner.Starting? || s.joiner.Stored? ==> s.count > 0)
            && (w in s.work && Active(s.work[w]) ==> s.count > 0)
  {
    RunInv(run);
    var s := run[|run| - 1];
    if w in s.work && Active(s.work[w]) { assert w in Live(s); }
  }

  /** The joiner goes on at most once, and only when all work has finished; the work that
      resumes it finds the continuation stored and the joiner suspended. */
  lemma JoinsOnce(run: seq<State>, w: Wid)
    requires Run(run)
    ensures var s := run[|run| - 1];
            && s.resumes <= 1
            && (s.resumes == 1 <==> s.joiner == Continued)
            && (s.resumes == 1 && w in s.work ==> s.work[w] == Finished)
            && (w in s.work && s.work[w] == Waking ==> s.joiner == Suspended && s.continuation && s.count == 0)
  {
    RunInv(run);
    var s := run[|run| - 1];
    if s.resumes == 1 && w in s.work { assert w !in Live(s); }
  }

  /** A suspended joiner is not forgotten: some work still runs, or is about to resume it. */
  lemma JoinerNotForgotten(run: seq<State>) returns (w: Wid)
    requires Run(run) && run[|run| - 1].joiner == Suspended
    ensures w in run[|run| - 1].work && run[|run| - 1].work[w] != Finished
  {
    RunInv(run);
    var s := run[|run| - 1];
    if Live(s) != {} { w :| w in Live(s); } else { w :| w in s.work && s.work[w].Waking?; }
  }

  // ----- What each operation achieves alone -------------------------------------------------------

  /** Steps of the joiner, or of one piece of work. */
  ghost predicate JoinerPath(ss: seq<State>) {
    ss != [] && forall i {:trigger ss[i]} :: 0 <= i < |ss| - 1 ==> JoinerStep(ss[i], ss[i + 1])
  }

  ghost predicate WorkPath(ss: seq<State>, w: Wid) {
    ss != [] && forall i {:trigger ss[i]} :: 0 <= i < |ss| - 1 ==> WorkStep(ss[i], w, ss[i + 1])
  }

  /** A join goes on at once exactly if no work is left; else it is suspended, with its continuation stored and
      the live work counted. */
  lemma JoinAlone(run: seq<State>) returns (ss: seq<State>)
    requires Run(run) && run[|run| - 1].joiner == Preparing
    ensures JoinerPath(ss) && ss[0] == run[|run| - 1] && |ss| == 4
    ensures var s, s' := ss[0], ss[3];
            && s'.work == s.work && s'.continuation && s'.count == |Live(s)|
            && if Live(s) == {} then s'.joiner == Continued && s'.resumes == s.resumes + 1
               else s'.joiner == Suspended && s'.resumes == s.resumes
  {
    RunInv(run);
    var s := run[|run| - 1];
    var s1 := s.(joiner := Checked);
    var s2 := s1.(continuation := true, joiner := Stored);
    var s3 := if s.count > 1 then Subtract(s2).(joiner := Suspended) else Continue(Subtract(s2));
    assert JoinerStep(s, s1) && JoinerStep(s1, s2) && JoinerStep(s2, s3);
    ss := [s, s1, s2, s3];
  }

  /** Work that finishes is no longer live; it resumes the joiner exactly if that is suspended and no other work is
      live. */
  lemma FinishAlone(run: seq<State>, w: Wid) returns (ss: seq<State>)
    requires Run(run) && w in run[|run| - 1].work && run[|run| - 1].work[w] == Running
    ensures WorkPath(ss, w) && ss[0] == run[|run| - 1] && |ss| <= 3
    ensures var s, s' := ss[0], ss[|ss| - 1];
            && s'.work == s.work[w := Finished] && Live(s') == Live(s) - {w} && s'.continuation == s.continuation
            && if s.joiner == Suspended && Live(s) == {w} then s'.joiner == Continued && s'.resumes == s.resumes + 1
               else s'.joiner == s.joiner && s'.resumes == s.resumes
  {
    RunInv(run);
    var s := run[|run| - 1];
    LiveAfter(s, w, Finished);
    OneLeft(s, w);
    if s.count == 1 {
      var s1 := SetWork(Subtract(s), w, Waking);
      var s2 := SetWork(Continue(s1), w, Finished);
      assert WorkStep(s, w, s1) && WorkStep(s1, w, s2);
      assert s.work[w := Waking][w := Finished] == s.work[w := Finished];
      assert Live(s2) == Live(SetWork(s, w, Finished));
      ss := [s, s1, s2];
    } else {
      var s1 := SetWork(Subtract(s), w, Finished);
      assert WorkStep(s, w, s1);
      assert Live(s1) == Live(SetWork(s, w, Finished));
      ss := [s, s1];
    }
  }

  lemma OneLeft(s: State, w: Wid)
    requires Inv(s) && w in s.work && s.work[w] == Running
    ensures s.count == 1 <==> s.joiner == Suspended && Live(s) == {w}
  {
    assert w in Live(s);
    assert Live(s) == Live(s) - {w} + {w};
    assert |Live(s)| == |Live(s) - {w}| + 1;
  }

  /** The joiner can spawn new work before it joins; it is live and counted. */
  lemma JoinerSpawns(s: State, v: Wid) returns (ss: seq<State>)
    requires s.joiner == Preparing && v !in s.work
    ensures JoinerPath(ss) && |ss| == 3 && ss[0] == s
    ensures ss[2] == s.(work := s.work[v := Running], count := s.count + 1)
  {
    var s1 := s.(joiner := Starting);
    var s2 := Start(s1, v).(joiner := Preparing);
    assert JoinerStep(s, s1) && JoinerStep(s1, s2);
    ss := [s, s1, s2];
  }

  /** So can running work, at any time. */
  lemma WorkSpawns(s: State, w: Wid, v: Wid) returns (ss: seq<State>)
    requires w in s.work && s.work[w] == Running && v !in s.work
    ensures WorkPath(ss, w) && |ss| == 3 && ss[0] == s
    ensures ss[2] == s.(work := s.work[v := Running], count := s.count + 1)
  {
    var s1 := SetWork(s, w, Spawning);
    var s2 := SetWork(Start(s1, v), w, Running);
    assert WorkStep(s, w, s1) && WorkStep(s1, w, s2);
    assert s2.work == s.work[v := Running];
    ss := [s, s1, s2];
  }
}
