/** What `tryLock`, `lockAsync` and `unlock` of the coroutine mutex achieve
    (libs/async/src/mutex.cpp:42-123), seen at the FIFO lock that the mutex refines. */
module MutexAnswers {
  import opened AsyncMutex
  import opened Bytes

  // ----- tryLock --------------------------------------------------------------------------------

  /** `tryLock` succeeds exactly if nobody holds the lock; then the caller holds it, and else nothing has
      changed. */
  lemma TryLockAnswer(run: seq<State>, t: Tid)
    requires Run(run) && t in Last(run).pc && Last(run).pc[t] == Outside
    ensures var s, (s', ok) := Last(run), TryLock(Last(run), t);
            && (ok <==> forall u | u in s.pc :: !Holds(s.pc[u]))
            && (ok ==> s' == s.(state := Nil, pc := s.pc[t := Holding]))
            && (!ok ==> s' == s)
  {
    var g := RunInv(run);
    var s := Last(run);
    forall u | u in s.pc ensures Holds(s.pc[u]) <==> g.owner == Some(u) { assert TaskOk(s, g, u); }
  }

  // ----- unlock ---------------------------------------------------------------------------------

  /** The steps that are left of an `unlock` at most.  The operations that are still to be reversed are
      counted one by one; before they have been detached there are at most as many as tasks. */
  ghost function Rank(s: State, g: Ghost, p: Pc): nat {
    match p
    case Holding => |s.pc| + 4
    case Releasing => |s.pc| + 3
    case Exchanging => |s.pc| + 2
    case Reversing(_, _) => |g.rem| + 1
    case Taking(_) => 1
    case _ => 0
  }

  /** What the last step of `unlock` does to the lock: it becomes free if nobody waits, and else passes to
      the first in the queue. */
  ghost predicate Released(a: Fifo, b: Fifo) {
    b == if a.queue == [] then Fifo(None, []) else Fifo(Some(a.queue[0]), a.queue[1..])
  }

  lemma {:induction false} UniqueSize(q: seq<Tid>, keys: set<Tid>)
    requires Unique(q) && forall x | x in q :: x in keys
    ensures |q| <= |keys|
    decreases q
  {
    if q != [] {
      var rest, fewer := q[1..], keys - {q[0]};
      forall x | x in rest ensures x in fewer {
        var i :| 0 <= i < |rest| && rest[i] == x;
        assert q[i + 1] == x;
      }
      forall i, j | 0 <= i < j < |rest| ensures rest[i] != rest[j] { assert q[i + 1] != q[j + 1]; }
      UniqueSize(rest, fewer);
    }
  }

  lemma WaitersBound(s: State, g: Ghost)
    requires Inv(s, g)
    ensures |g.rem| + |g.front| + |g.stack| <= |s.pc|
  {
    UniqueSize(Queue(g), s.pc.Keys);
  }

  /** Every step of an `unlock` either is not its last one, and then it changes nothing of the lock and
      lowers the rank; or it is the last one, and releases the lock. */
  lemma UnlockStep(s: State, g: Ghost, t: Tid) returns (g': Ghost)
    requires Inv(s, g) && t in s.pc && Holds(s.pc[t])
    ensures var s' := Unlock(s, t);
            && Inv(s', g') && t in s'.pc
            && if s'.pc[t] == Outside then Released(Abstract(g), Abstract(g'))
               else Abstract(g') == Abstract(g) && Holds(s'.pc[t]) && Rank(s', g', s'.pc[t]) < Rank(s, g, s.pc[t])
  {
    g' := g;
    assert TaskOk(s, g, t);
    WaitersBound(s, g);
    match s.pc[t]
    case Holding => OwnerMoves(s, g, t, Unlock(s, t), g);
    case Releasing =>
      if s.state == Nil { g' := ReleaseKeepsInv(s, g, t); } else { OwnerMoves(s, g, t, Unlock(s, t), g); }
    case Exchanging =>
      g' := g.(rem := g.stack, stack := []);
      OwnerMoves(s, g, t, Unlock(s, t), g');
    case Reversing(_, _) => g' := ReverseKeepsInv(s, g, t);
    case Taking(_) => g' := TakeKeepsInv(s, g, t);
  }

  /** A run together with the task that takes each step. */
  ghost predicate By(run: seq<State>, who: seq<Tid>) {
    |who| + 1 == |run| && forall i :: 0 <= i < |who| ==> Step(run[i], who[i], run[i + 1])
  }

  /** How many of the steps from `i` to `j` are those of `t`. */
  function OwnSteps(who: seq<Tid>, t: Tid, i: nat, j: nat): nat
    requires i <= j <= |who|
  {
    if i == j then 0 else OwnSteps(who, t, i, j - 1) + (if who[j - 1] == t then 1 else 0)
  }

  /** From state `i` to state `j` of the run `t` holds the lock or unlocks it. */
  ghost predicate Unlocking(run: seq<State>, t: Tid, i: nat, j: nat) {
    i <= j < |run| && forall k | i <= k <= j :: t in run[k].pc && Holds(run[k].pc[t])
  }

  /** The steps of other tasks leave the rank as it is. */
  lemma OthersStep(s: State, g: Ghost, u: Tid, s': State, t: Tid) returns (g': Ghost)
    requires Inv(s, g) && Step(s, u, s') && t in s.pc && Holds(s.pc[t]) && u != t
    ensures Inv(s', g') && t in s'.pc && s'.pc[t] == s.pc[t] && Rank(s', g', s'.pc[t]) == Rank(s, g, s.pc[t])
  {
    hide Inv;
    OwnerIs(s, g, t);
    g' := StepRefines(s, g, u, s');
    OtherPc(s, g, u, s', t);
  }

  lemma OwnerIs(s: State, g: Ghost, t: Tid)
    requires Inv(s, g) && t in s.pc && Holds(s.pc[t])
    ensures g.owner == Some(t) && t in s.pc
  {
    assert TaskOk(s, g, t);
  }

  lemma OtherPc(s: State, g: Ghost, u: Tid, s': State, t: Tid)
    requires Inv(s, g) && Step(s, u, s') && t in s.pc && Holds(s.pc[t]) && u != t
    ensures t in s'.pc && s'.pc[t] == s.pc[t] && |s'.pc| == |s.pc|
  {
    assert TaskOk(s, g, t) && TaskOk(s, g, u);
    assert s'.pc.Keys == s.pc.Keys;
    assert |s'.pc| == |s'.pc.Keys| && |s.pc| == |s.pc.Keys|;
  }

  lemma InvAt(run: seq<State>, i: nat) returns (g: Ghost)
    requires Run(run) && i < |run|
    ensures Inv(run[i], g)
  {
    hide Inv, Step;
    var prefix := run[..i + 1];
    forall k | 0 <= k < |prefix| - 1 ensures StepAny(prefix[k], prefix[k + 1]) { assert StepAny(run[k], run[k + 1]); }
    g := RunInv(prefix);
  }

  lemma {:induction false} RankAt(run: seq<State>, who: seq<Tid>, t: Tid, i: nat, j: nat) returns (g: Ghost)
    requires Run(run) && By(run, who) && Unlocking(run, t, i, j)
    ensures Inv(run[j], g) && Rank(run[j], g, run[j].pc[t]) + OwnSteps(who, t, i, j) <= |run[i].pc| + 4
    decreases j - i
  {
    hide Inv, Step, Unlock;
    if i == j {
      g := InvAt(run, i);
      RankBound(run[i], g, t);
    } else {
      g := RankAt(run, who, t, i, j - 1);
      assert Step(run[j - 1], who[j - 1], run[j - 1 + 1]);
      if who[j - 1] == t {
        OwnStep(run[j - 1], t, run[j]);
        g := UnlockStep(run[j - 1], g, t);
      } else {
        g := OthersStep(run[j - 1], g, who[j - 1], run[j], t);
      }
    }
  }

  lemma RankBound(s: State, g: Ghost, t: Tid)
    requires Inv(s, g) && t in s.pc
    ensures Rank(s, g, s.pc[t]) <= |s.pc| + 4
  {
    hide Inv;
    WaitersBound(s, g);
  }

  lemma OwnStep(s: State, t: Tid, s': State)
    requires Step(s, t, s') && Holds(s.pc[t])
    ensures s' == Unlock(s, t)
  {
  }

  /** An `unlock` ends: while it runs it takes at most as many steps of its own as there are tasks, and three
      more, whatever other tasks do in between; and it can always take the next one. */
  lemma UnlockEnds(run: seq<State>, who: seq<Tid>, t: Tid, i: nat, j: nat)
    requires Run(run) && By(run, who) && Unlocking(run, t, i, j)
    ensures OwnSteps(who, t, i, j) <= |run[i].pc| + 3
    ensures exists s' :: Step(run[j], t, s')
  {
    hide Inv;
    var g := RankAt(run, who, t, i, j);
    assert Step(run[j], t, Unlock(run[j], t));
  }

  /** The tasks that wait, first come first. */
  function Waiting(s: State): seq<Tid> { if |s.handed| <= |s.pushed| then s.pushed[|s.handed|..] else [] }

  /** With its last step an `unlock` makes the mutex free if nobody waits, and else resumes the first of those
      who wait, who then holds the lock. */
  lemma UnlockAnswer(run: seq<State>, t: Tid, s': State)
    requires Run(run) && t in Last(run).pc && Holds(Last(run).pc[t]) && Step(Last(run), t, s')
    requires t in s'.pc && !Holds(s'.pc[t])
    ensures var s := Last(run);
            && s'.pc[t] == Outside && s'.pushed == s.pushed
            && if Waiting(s) == [] then s'.state == NotLocked && s'.handed == s.handed && s'.pc == s.pc[t := Outside]
               else
                 var n := Waiting(s)[0];
                 && n in s.pc && s.pc[n] == Suspended
                 && s'.handed == s.handed + [n] && s'.pc == s.pc[t := Outside][n := Holding]
  {
    var s := Last(run);
    var g := RunInv(run);
    OwnerIs(s, g, t);
    var g' := UnlockStep(s, g, t);
    WaitingIs(s, g);
    if Waiting(s) != [] { FirstWaits(s, g); }
  }

  lemma WaitingIs(s: State, g: Ghost)
    requires Inv(s, g)
    ensures Waiting(s) == Queue(g)
  {
  }

  lemma FirstWaits(s: State, g: Ghost)
    requires Inv(s, g) && Queue(g) != []
    ensures Queue(g)[0] in s.pc && s.pc[Queue(g)[0]] == Suspended
  {
    assert TaskOk(s, g, Queue(g)[0]);
  }

  // ----- lockAsync ---------------------------------------------------------------------------------

  /** A task that is locking comes to hold the lock only when nobody holds it, waits only behind those who wait
      already, and only while somebody holds the lock; and otherwise changes nothing that others see. */
  lemma LockAnswer(run: seq<State>, t: Tid, s': State)
    requires Run(run) && t in Last(run).pc && Step(Last(run), t, s') && !Holds(Last(run).pc[t])
    ensures var s := Last(run);
            && t in s'.pc && s'.handed == s.handed
            && (Holds(s'.pc[t]) ==> s'.pc[t] == Holding && s'.pushed == s.pushed && forall u | u in s.pc :: !Holds(s.pc[u]))
            && (s'.pc[t] == Suspended ==> s'.pushed == s.pushed + [t] && exists u | u in s.pc :: Holds(s.pc[u]))
            && (!Holds(s'.pc[t]) && s'.pc[t] != Suspended ==> s'.pushed == s.pushed && s'.state == s.state)
  {
    var s := Last(run);
    var g := RunInv(run);
    assert TaskOk(s, g, t);
    forall u | u in s.pc ensures Holds(s.pc[u]) <==> g.owner == Some(u) { assert TaskOk(s, g, u); }
    if g.owner.Some? { assert Holds(s.pc[g.owner.value]); }
  }

  /** Steps of the one task `t`. */
  ghost predicate Path(ss: seq<State>, t: Tid) { ss != [] && forall i :: 0 <= i < |ss| - 1 ==> Step(ss[i], t, ss[i + 1]) }

  /** If no other task moves, and no compare-exchange fails without a reason, locking ends within four steps:
      with the lock if nobody holds it, and else at the end of the queue. */
  lemma LocksAlone(run: seq<State>, t: Tid) returns (ss: seq<State>)
    requires Run(run) && t in Last(run).pc
    requires var p := Last(run).pc[t]; p == Outside || p.Loaded? || p.Pushing?
    ensures Path(ss, t) && ss[0] == Last(run) && |ss| <= 5
    ensures var s, s' := Last(run), ss[|ss| - 1];
            && t in s'.pc && s'.handed == s.handed
            && if exists u | u in s.pc :: Holds(s.pc[u])
               then s'.pc == s.pc[t := Suspended] && s'.pushed == s.pushed + [t]
               else s'.pc == s.pc[t := Holding] && s'.pushed == s.pushed
  {
    var s := Last(run);
    var g := RunInv(run);
    forall u | u in s.pc ensures Holds(s.pc[u]) <==> g.owner == Some(u) { assert TaskOk(s, g, u); }
    var held := s.state != NotLocked;
    if g.owner.Some? { assert Holds(s.pc[g.owner.value]); }
    assert held <==> exists u | u in s.pc :: Holds(s.pc[u]);
    ss := LockPath(s, t);
  }

  /** Only the program counter of `t` and the link of its own operation have changed. */
  ghost predicate Same(s: State, s': State, t: Tid, p: Pc) {
    s'.pc == s.pc[t := p] && s'.state == s.state && s'.pushed == s.pushed && s'.handed == s.handed
  }

  /** From a fresh load of the state. */
  lemma FreshPath(s: State, t: Tid) returns (ss: seq<State>)
    requires t in s.pc && s.pc[t] == Loaded(s.state)
    ensures Path(ss, t) && ss[0] == s && |ss| <= 3
    ensures var s' := ss[|ss| - 1];
            && s'.handed == s.handed
            && if s.state != NotLocked then s'.pc == s.pc[t := Suspended] && s'.pushed == s.pushed + [t]
               else s'.pc == s.pc[t := Holding] && s'.pushed == s.pushed
  {
    if s.state == NotLocked {
      ss := [s, Goto(s, t, Holding).(state := Nil)];
    } else {
      var s1 := Goto(s, t, Pushing(s.state)).(next := s.next[t := s.state]);
      assert s1.pc[t := Suspended] == s.pc[t := Suspended];
      ss := [s, s1, Push(s1, t)];
    }
  }

  /** To a fresh load of the state. */
  lemma Reloads(s: State, t: Tid) returns (ss: seq<State>)
    requires t in s.pc && (s.pc[t] == Outside || s.pc[t].Loaded? || s.pc[t].Pushing?) && s.pc[t] != Loaded(s.state)
    ensures Path(ss, t) && ss[0] == s && |ss| <= 3 && Same(s, ss[|ss| - 1], t, Loaded(s.state))
  {
    if s.pc[t].Loaded? && s.pc[t].seen != NotLocked {
      var seen := s.pc[t].seen;
      var s1 := Goto(s, t, Pushing(seen)).(next := s.next[t := seen]);
      assert s1.pc[t := Loaded(s.state)] == s.pc[t := Loaded(s.state)];
      ss := [s, s1, Goto(s1, t, Loaded(s.state))];
    } else {
      ss := [s, Goto(s, t, Loaded(s.state))];
    }
  }

  lemma PathBehind(a: seq<State>, b: seq<State>, t: Tid)
    requires Path(a, t) && Path(b, t) && b[0] == a[|a| - 1]
    ensures Path(a + b[1..], t)
  {
    hide Step;
    var ss := a + b[1..];
    forall i | 0 <= i < |ss| - 1 ensures Step(ss[i], t, ss[i + 1]) {
      if i < |a| - 1 { assert Step(a[i], t, a[i + 1]); }
      else { assert ss[i] == b[i - (|a| - 1)] && Step(b[i - (|a| - 1)], t, b[i - (|a| - 1) + 1]); }
    }
  }

  lemma LockPath(s: State, t: Tid) returns (ss: seq<State>)
    requires t in s.pc && (s.pc[t] == Outside || s.pc[t].Loaded? || s.pc[t].Pushing?)
    ensures Path(ss, t) && ss[0] == s && |ss| <= 5
    ensures var s' := ss[|ss| - 1];
            && s'.handed == s.handed
            && if s.state != NotLocked then s'.pc == s.pc[t := Suspended] && s'.pushed == s.pushed + [t]
               else s'.pc == s.pc[t := Holding] && s'.pushed == s.pushed
  {
    hide Path, Step;
    if s.pc[t] == Loaded(s.state) {
      ss := FreshPath(s, t);
    } else {
      var before := Reloads(s, t);
      var s1 := before[|before| - 1];
      ss := FreshPath(s1, t);
      PathBehind(before, ss, t);
      assert s1.pc[t := Suspended] == s.pc[t := Suspended] && s1.pc[t := Holding] == s.pc[t := Holding];
      ss := before + ss[1..];
    }
  }
}
