/** What waiting for a manual-reset event, `set` and `reset` achieve (libs/async/src/event.cpp:219-262). */
module EventAnswers {
  import opened Bytes
  import opened ManualResetEvent

  // ----- A set event stays set --------------------------------------------------------------------

  /** Only `reset` ends the set state, and wakes and stops nobody; only the exchange of `set` begins it. */
  lemma SetUntilReset(s: State, t: Tid, s': State)
    requires Step(s, t, s') && (t in s.pc && s.pc[t].Pushing? ==> s.pc[t].seen != IsSet)
    ensures s.state == IsSet && s'.state != IsSet ==> s' == s.(state := Nil)
    ensures s.state != IsSet && s'.state == IsSet ==> s'.sets == s.sets + 1
  {
  }

  /** The word after a step of a waiter: it has seen the word as it is. */
  lemma SeesWord(s: State, t: Tid, s': State)
    requires Step(s, t, s') && t in s'.pc && s'.pc[t].Loaded? && s'.pc[t] != s.pc[t]
    ensures s'.pc[t].seen == s.state
  {
  }

  // ----- Waiting ------------------------------------------------------------------------------------

  /** A run together with the task that takes each step. */
  ghost predicate By(run: seq<State>, who: seq<Tid>) {
    Run(run) && |who| + 1 == |run| && forall i :: 0 <= i < |who| ==> Step(run[i], who[i], run[i + 1])
  }

  /** From state `i` to state `j + 1` task `t` waits for the event and goes on without having been suspended. */
  ghost predicate WentOn(run: seq<State>, t: Tid, i: nat, j: nat) {
    && i < j < |run| - 1 && (forall k {:trigger run[k]} | i <= k <= j + 1 :: t in run[k].pc)
    && run[i].pc[t] == Outside && run[i + 1].pc[t].Loaded? && run[j + 1].pc[t] == Outside
    && forall k {:trigger run[k]} | i < k <= j :: run[k].pc[t].Loaded? || run[k].pc[t].Pushing?
  }

  /** The step of another task leaves a task that is about to wait where it is. */
  lemma OthersLeave(s: State, u: Tid, s': State, t: Tid)
    requires Step(s, u, s') && t in s.pc && u != t && !s.pc[t].Waiting?
    ensures t in s'.pc && s'.pc[t] == s.pc[t]
  {
  }

  /** What a task about to wait has read was the word at some time since it began. */
  lemma {:induction false} SeenSince(run: seq<State>, who: seq<Tid>, t: Tid, i: nat, j: nat, k: nat) returns (a: nat)
    requires By(run, who) && WentOn(run, t, i, j) && i < k <= j && run[k].pc[t].Loaded?
    ensures i <= a < k && run[a].state == run[k].pc[t].seen
  {
    hide Step, Run;
    assert Step(run[k - 1], who[k - 1], run[k - 1 + 1]);
    if who[k - 1] != t {
      OthersLeave(run[k - 1], who[k - 1], run[k], t);
      a := SeenSince(run, who, t, i, j, k - 1);
    } else if run[k].pc[t] != run[k - 1].pc[t] {
      SeesWord(run[k - 1], t, run[k]);
      a := k - 1;
    } else {
      a := SeenSince(run, who, t, i, j, k - 1);
    }
  }

  lemma LeavesWhenSet(s: State, u: Tid, s': State, t: Tid)
    requires Step(s, u, s') && t in s.pc && t in s'.pc && (s.pc[t].Loaded? || s.pc[t].Pushing?) && s'.pc[t] == Outside
    ensures s.pc[t] == Loaded(IsSet)
  {
  }

  /** Whatever other tasks do: a task that goes on without being suspended has passed a state in which the event
      was set. */
  lemma GoesOnIfSet(run: seq<State>, who: seq<Tid>, t: Tid, i: nat, j: nat) returns (a: nat)
    requires By(run, who) && WentOn(run, t, i, j)
    ensures i <= a <= j && run[a].state == IsSet
  {
    hide Step, Run;
    assert Step(run[j], who[j], run[j + 1]);
    LeavesWhenSet(run[j], who[j], run[j + 1], t);
    a := SeenSince(run, who, t, i, j, j);
  }

  // ----- Alone --------------------------------------------------------------------------------------

  /** Steps of task `t` alone. */
  ghost predicate Path(ss: seq<State>, t: Tid) {
    ss != [] && forall i {:trigger ss[i]} :: 0 <= i < |ss| - 1 ==> Step(ss[i], t, ss[i + 1])
  }

  lemma PathStep(s: State, t: Tid, ss: seq<State>)
    requires Path(ss, t) && Step(s, t, ss[0])
    ensures Path([s] + ss, t)
  {
    hide Step;
    var ts := [s] + ss;
    forall i | 0 <= i < |ts| - 1 ensures Step(ts[i], t, ts[i + 1]) {
      if i > 0 { assert Step(ss[i - 1], t, ss[i - 1 + 1]); }
    }
  }

  /** A task that waits for an event that is set goes on and changes nothing; else it is suspended, in front of
      those that wait already. */
  lemma WaitAlone(s: State, t: Tid) returns (ss: seq<State>)
    requires t in s.pc && s.pc[t] == Outside
    ensures Path(ss, t) && ss[0] == s && 3 <= |ss| <= 4
    ensures var s' := ss[|ss| - 1];
            if s.state == IsSet then s' == s
            else
              && s' == s.(state := At(t), next := s.next[t := s.state], pc := s.pc[t := Waiting(|s.pushes|)],
                          pushes := s.pushes + [Push(t, s.sets)])
  {
    var s1 := Goto(s, t, Loaded(s.state));
    assert Step(s, t, s1);
    if s.state == IsSet {
      assert s.pc[t := Loaded(s.state)][t := Outside] == s.pc;
      assert Step(s1, t, s);
      ss := [s, s1, s];
    } else {
      var s2 := Goto(s1, t, Pushing(s.state)).(next := s.next[t := s.state]);
      var s3 := PushSelf(s2, t);
      assert Step(s1, t, s2) && Step(s2, t, s3);
      assert s3.pc == s.pc[t := Waiting(|s.pushes|)];
      ss := [s, s1, s2, s3];
    }
  }

  /** `reset` takes a set event back, and wakes and stops nobody. */
  lemma ResetAlone(s: State, t: Tid)
    requires t in s.pc && s.pc[t] == Outside
    ensures Step(s, t, s.(state := if s.state == IsSet then Nil else s.state))
  {
  }

  /** The rest of the walk resumes exactly the tasks in the chain. */
  lemma {:induction false} Walks(s: State, g: Ghost, t: Tid) returns (ss: seq<State>)
    requires Inv(s, g) && t in s.pc && s.pc[t].Walking?
    ensures Path(ss, t) && ss[0] == s && |ss| == 2 * |ChainOf(g, t)| + 2
    ensures var s', c := ss[|ss| - 1], ChainOf(g, t);
            && s'.pc.Keys == s.pc.Keys && s' == s.(pc := s'.pc, resumes := s'.resumes)
            && forall u {:trigger s'.pc[u]} | u in s.pc :: s'.pc[u] == if u == t || u in c then Outside else s.pc[u]
    decreases |ChainOf(g, t)|
  {
    hide Inv, Step, Path;
    var c := ChainOf(g, t);
    WalkingAt(s, g, t);
    if c == [] {
      WalkOver(s, t);
      ss := [s, Goto(s, t, Outside)];
    } else {
      var s1, s2, g2 := ResumesFirst(s, g, t);
      ss := Walks(s2, g2, t);
      PathStep(s1, t, ss);
      PathStep(s, t, [s1] + ss);
      ss := [s] + ([s1] + ss);
    }
  }

  lemma WalkOver(s: State, t: Tid)
    requires t in s.pc && s.pc[t].Walking? && s.pc[t].current == Nil
    ensures Path([s, Goto(s, t, Outside)], t)
  {
  }

  lemma ResumesFirst(s: State, g: Ghost, t: Tid) returns (s1: State, s2: State, g2: Ghost)
    requires Inv(s, g) && t in s.pc && s.pc[t].Walking? && ChainOf(g, t) != []
    ensures Step(s, t, s1) && Step(s1, t, s2) && Inv(s2, g2) && ChainOf(g2, t) == ChainOf(g, t)[1..]
    ensures t in s2.pc && s2.pc[t].Walking? && s2.pc.Keys == s.pc.Keys && s2 == s.(pc := s2.pc, resumes := s2.resumes)
    ensures forall u {:trigger s2.pc[u]} | u in s.pc && u != t :: s2.pc[u] == if u == ChainOf(g, t)[0] then Outside else s.pc[u]
  {
    hide Inv;
    WalkingAt(s, g, t);
    var w := s.pc[t].current;
    s1 := Goto(s, t, Resuming(w, NextOf(s, w.op), s.pc[t].turn));
    LooksAhead(s, g, t);
    g2 := ResumeKeepsInv(s1, g, t);
    s2 := ResumeOne(s1, t);
  }

  lemma WalkingAt(s: State, g: Ghost, t: Tid)
    requires Inv(s, g) && t in s.pc && s.pc[t].Walking?
    ensures if ChainOf(g, t) == [] then s.pc[t].current == Nil else s.pc[t].current == At(ChainOf(g, t)[0])
    ensures t !in ChainOf(g, t)
  {
    assert TaskOk(s, g, t);
    Free(s, g, t, Some(t));
  }

  lemma LooksAhead(s: State, g: Ghost, t: Tid)
    requires Inv(s, g) && t in s.pc && s.pc[t].Walking? && s.pc[t].current.At?
    ensures Inv(Goto(s, t, Resuming(s.pc[t].current, NextOf(s, s.pc[t].current.op), s.pc[t].turn)), g)
  {
    var s' := Goto(s, t, Resuming(s.pc[t].current, NextOf(s, s.pc[t].current.op), s.pc[t].turn));
    assert TaskOk(s, g, t);
    MoveKeepsInv(s, g, t, s');
  }

  /** Who is on the stack: the tasks that wait since the last call of `set`. */
  lemma StackIs(s: State, g: Ghost, u: Tid)
    requires Inv(s, g) && u in s.pc
    ensures s.pc[u].Waiting? ==> s.pc[u].id < |s.pushes|
    ensures (if s.state == IsSet then false else u in g.stack) <==> s.pc[u].Waiting? && s.pushes[s.pc[u].id].since == s.sets
  {
    assert TaskOk(s, g, u) && ListOk(s, g, None);
    assert u in g.stack ==> u in ListAt(g, None);
    if s.pc[u].Waiting? && g.place[u].Some? { assert TaskOk(s, g, g.place[u].value); }
  }

  lemma SetBegins(s: State, t: Tid)
    requires t in s.pc && s.pc[t] == Outside
    ensures var s' := BeginSet(s, t);
            && Step(s, t, s') && t in s'.pc && s'.pc.Keys == s.pc.Keys
            && s' == s.(state := IsSet, sets := s.sets + 1, pc := s'.pc)
            && s'.pc == s.pc[t := s'.pc[t]]
            && s'.pc[t] == if s.state == IsSet then Outside else Walking(s.state, s.sets)
  {
    if s.state == IsSet { assert s.pc[t := Outside] == s.pc; }
  }

  lemma UniqueSize(q: seq<Tid>, keys: set<Tid>)
    requires Unique(q) && forall x | x in q :: x in keys
    ensures |q| <= |keys|
    decreases q
  {
    if q != [] {
      HeadOnce(q);
      var rest := q[1..];
      forall x | x in rest ensures x in keys - {q[0]} { assert x in q; }
      forall i, j | 0 <= i < j < |rest| ensures rest[i] != rest[j] { assert q[i + 1] != q[j + 1]; }
      UniqueSize(rest, keys - {q[0]});
    }
  }

  lemma ListSize(s: State, g: Ghost, p: Option<Tid>)
    requires Inv(s, g)
    ensures |ListAt(g, p)| <= |s.pc.Keys|
  {
    assert ListOk(s, g, p);
    UniqueSize(ListAt(g, p), s.pc.Keys);
  }

  /** Task `u` after a call of `set`: woken if it has waited since the call before it, and else as it was. */
  predicate Woken(s: State, s': State, u: Tid)
    requires u in s.pc && u in s'.pc
  {
    && (s.pc[u].Waiting? ==> s.pc[u].id < |s.pushes|)
    && s'.pc[u] == if s.pc[u].Waiting? && s.pushes[s.pc[u].id].since == s.sets then Outside else s.pc[u]
  }

  ghost predicate SetDone(s: State, s': State) {
    && s'.state == IsSet && s'.sets == s.sets + 1 && s'.pushes == s.pushes && s'.next == s.next && s'.pc.Keys == s.pc.Keys
    && forall u {:trigger s'.pc[u]} | u in s.pc :: Woken(s, s', u)
  }

  lemma SetAgain(s: State, g: Ghost, t: Tid)
    requires Inv(s, g) && t in s.pc && s.pc[t] == Outside && s.state == IsSet
    ensures SetDone(s, BeginSet(s, t))
  {
    hide Inv;
    SetBegins(s, t);
    forall u | u in s.pc ensures Woken(s, BeginSet(s, t), u) { StackIs(s, g, u); }
  }

  lemma SetWalks(s: State, g: Ghost, t: Tid) returns (ss: seq<State>)
    requires Inv(s, g) && t in s.pc && s.pc[t] == Outside && s.state != IsSet
    ensures Path(ss, t) && ss[0] == BeginSet(s, t) && |ss| <= 2 * |s.pc.Keys| + 2 && SetDone(s, ss[|ss| - 1])
  {
    hide Inv, Path, BeginSet, Woken;
    SetBegins(s, t);
    var g1 := BeginSetKeepsInv(s, g, t);
    ListSize(s, g, None);
    ss := Walks(BeginSet(s, t), g1, t);
    var s' := ss[|ss| - 1];
    forall u | u in s.pc ensures Woken(s, s', u) { WalkedWoken(s, g, t, s', u); }
  }

  lemma WalkedWoken(s: State, g: Ghost, t: Tid, s': State, u: Tid)
    requires Inv(s, g) && t in s.pc && s.pc[t] == Outside && s.state != IsSet && u in s.pc && u in s'.pc
    requires s'.pc[u] == if u == t || u in g.stack then Outside else s.pc[u]
    ensures Woken(s, s', u)
  {
    hide Inv;
    StackIs(s, g, u);
  }

  /** From any reachable state: a call of `set` that runs alone sets the event, resumes exactly the tasks that wait
      since the call before it, and ends. */
  lemma SetAlone(run: seq<State>, t: Tid) returns (ss: seq<State>)
    requires Run(run) && t in Last(run).pc && Last(run).pc[t] == Outside
    ensures Path(ss, t) && ss[0] == Last(run) && |ss| <= 2 * |Last(run).pc.Keys| + 3
    ensures SetDone(Last(run), ss[|ss| - 1])
  {
    hide Inv, SetDone, Step, BeginSet;
    RunSafe(run);
    var s := Last(run);
    var g :| Inv(s, g);
    SetBegins(s, t);
    if s.state == IsSet {
      SetAgain(s, g, t);
      ss := [s, BeginSet(s, t)];
    } else {
      ss := SetWalks(s, g, t);
      PathStep(s, t, ss);
      ss := [s] + ss;
    }
  }

  // ----- With other tasks ---------------------------------------------------------------------------

  /** The steps that are left of a call of `set`. */
  function Rank(g: Ghost, t: Tid, p: Pc): nat {
    match p
    case Walking(_, _) => 2 * |ChainOf(g, t)| + 1
    case Resuming(_, _, _) => 2 * |ChainOf(g, t)|
    case _ => 0
  }

  /** The next step of a running `set` is always possible, and every step of its own brings it nearer to the
      end. */
  lemma SetStep(s: State, g: Ghost, t: Tid) returns (s': State, g': Ghost)
    requires Inv(s, g) && t in s.pc && InSet(s.pc[t])
    ensures Step(s, t, s') && Inv(s', g') && t in s'.pc
    ensures forall s'' | Step(s, t, s'') :: s'' == s'
    ensures Rank(g', t, s'.pc[t]) < Rank(g, t, s.pc[t])
  {
    g' := g;
    if s.pc[t].Walking? {
      var w, k := s.pc[t].current, s.pc[t].turn;
      WalkingAt(s, g, t);
      if w.At? {
        s' := Goto(s, t, Resuming(w, NextOf(s, w.op), k));
        LooksAhead(s, g, t);
      } else {
        s' := Goto(s, t, Outside);
        g' := StepKeepsInv(s, g, t, s');
      }
    } else {
      g' := ResumeKeepsInv(s, g, t);
      s' := ResumeOne(s, t);
    }
  }

  function OwnSteps(who: seq<Tid>, t: Tid, i: nat, j: nat): nat
    requires i <= j <= |who|
  {
    if i == j then 0 else OwnSteps(who, t, i, j - 1) + (if who[j - 1] == t then 1 else 0)
  }

  /** From state `i` to state `j` of the run `t` is in one call of `set`. */
  ghost predicate Setting(run: seq<State>, t: Tid, i: nat, j: nat) {
    i <= j < |run| && forall k {:trigger run[k]} | i <= k <= j :: t in run[k].pc && InSet(run[k].pc[t])
  }

  lemma InvAt(run: seq<State>, i: nat) returns (g: Ghost)
    requires Run(run) && i < |run|
    ensures Inv(run[i], g)
  {
    hide Inv, Step;
    var prefix := run[..i + 1];
    forall k | 0 <= k < |prefix| - 1 ensures StepAny(prefix[k], prefix[k + 1]) { assert StepAny(run[k], run[k + 1]); }
    RunSafe(prefix);
    g :| Inv(run[i], g);
  }

  lemma {:induction false} RankAt(run: seq<State>, who: seq<Tid>, t: Tid, i: nat, j: nat) returns (g: Ghost)
    requires By(run, who) && Setting(run, t, i, j)
    ensures Inv(run[j], g) && Rank(g, t, run[j].pc[t]) + OwnSteps(who, t, i, j) <= 2 * |run[i].pc.Keys| + 1
    decreases j - i
  {
    hide Inv, Step, Run;
    if i == j {
      g := InvAt(run, i);
      ListSize(run[i], g, Some(t));
    } else {
      var g0 := RankAt(run, who, t, i, j - 1);
      assert Step(run[j - 1], who[j - 1], run[j - 1 + 1]);
      if who[j - 1] == t {
        var s';
        s', g := SetStep(run[j - 1], g0, t);
      } else {
        g := StepKeepsInv(run[j - 1], g0, who[j - 1], run[j]);
        SetKept(run[j - 1], g0, who[j - 1], run[j], t);
      }
    }
  }

  lemma SetKept(s: State, g: Ghost, u: Tid, s': State, t: Tid)
    requires Inv(s, g) && Step(s, u, s') && t in s.pc && InSet(s.pc[t]) && u != t
    ensures t in s'.pc && s'.pc[t] == s.pc[t]
  {
    OthersLeave(s, u, s', t);
  }

  /** Whatever other tasks do, a call of `set` ends within twice as many steps as there are tasks, and one; its
      next step is always possible. */
  lemma SetEnds(run: seq<State>, who: seq<Tid>, t: Tid, i: nat, j: nat) returns (s': State)
    requires By(run, who) && Setting(run, t, i, j)
    ensures OwnSteps(who, t, i, j) <= 2 * |run[i].pc.Keys| && Step(run[j], t, s')
  {
    hide Inv, Step, Run;
    var g := RankAt(run, who, t, i, j);
    var g';
    s', g' := SetStep(run[j], g, t);
  }
}
