/** The coroutine mutex (libs/async/src/mutex.cpp:42-123): waiters push themselves on a
    lock-free stack, and the holder reverses the stack into a private queue.

    Every load, store, compare-exchange and exchange is one step of one task, and tasks
    interleave in any order.  Only the holder unlocks.  A task's lock operation is named after
    the task, and is used again whenever the task locks again. */
module AsyncMutex {
  import opened Bytes

  type Tid = nat

  /** The word `_state`, and a pointer to a lock operation: `NOT_LOCKED` is 1, and
      `LOCKED_NO_WAITERS` and the null pointer are both 0. */
  datatype Word = NotLocked | Nil | At(op: Tid)

  datatype Pc =
    | Outside
    | Loaded(seen: Word)
    | Pushing(seen: Word)
    | Suspended
    | Holding
    | Releasing
    | Exchanging
    | Reversing(nxt: Word, header: Word)
    | Taking(header: Word)

  /** `pushed` and `handed` are histories: the tasks whose push succeeded, and the tasks that
      an unlock resumed. */
  datatype State = State(
    state: Word,
    waiters: Word,
    next: map<Tid, Word>,
    pc: map<Tid, Pc>,
    pushed: seq<Tid>,
    handed: seq<Tid>)

  function Goto(s: State, t: Tid, p: Pc): State { s.(pc := s.pc[t := p]) }

  function NextOf(s: State, t: Tid): Word { if t in s.next then s.next[t] else Nil }

  // ----- Steps ------------------------------------------------------------------------------

  /** `tryLock`: a strong compare-exchange, and whether it has succeeded. */
  function TryLock(s: State, t: Tid): (State, bool) {
    if s.state == NotLocked then (Goto(s, t, Holding).(state := Nil), true) else (s, false)
  }

  /** `await_suspend` loads the state, or `tryLock` is called. */
  ghost predicate Begin(s: State, t: Tid, s': State) { s' == Goto(s, t, Loaded(s.state)) || s' == TryLock(s, t).0 }

  /** A weak compare-exchange may fail although the values are equal; it then reloads. */
  ghost predicate Lock(s: State, t: Tid, s': State)
    requires t in s.pc && (s.pc[t].Loaded? || s.pc[t].Pushing?)
  {
    match s.pc[t]
    case Loaded(seen) =>
      if seen == NotLocked then
        || (s.state == NotLocked && s' == Goto(s, t, Holding).(state := Nil))
        || s' == Goto(s, t, Loaded(s.state))
      else s' == Goto(s, t, Pushing(seen)).(next := s.next[t := seen])
    case Pushing(seen) =>
      || (s.state == seen && s' == Push(s, t))
      || s' == Goto(s, t, Loaded(s.state))
    case _ => true
  }

  function Push(s: State, t: Tid): State {
    Goto(s, t, Suspended).(state := At(t), pushed := s.pushed + [t])
  }

  /** The next step of `unlock`. */
  function Unlock(s: State, t: Tid): State
    requires t in s.pc
  {
    match s.pc[t]
    case Holding => Goto(s, t, if s.waiters == Nil then Releasing else Taking(s.waiters))
    case Releasing =>
      if s.state == Nil then Goto(s, t, Outside).(state := NotLocked) else Goto(s, t, Exchanging)
    case Exchanging => Goto(s, t, Reversing(s.state, s.waiters)).(state := Nil)
    case Reversing(At(n), h) =>
      var rest := NextOf(s, n);
      Goto(s, t, if rest == Nil then Taking(At(n)) else Reversing(rest, At(n))).(next := s.next[n := h])
    case Taking(At(n)) => Goto(Goto(s, t, Outside), n, Holding).(waiters := NextOf(s, n), handed := s.handed + [n])
    case _ => s
  }

  ghost predicate Step(s: State, t: Tid, s': State) {
    && t in s.pc
    && match s.pc[t]
       case Outside => Begin(s, t, s')
       case Loaded(_) => Lock(s, t, s')
       case Pushing(_) => Lock(s, t, s')
       case Suspended => false
       case _ => s' == Unlock(s, t)
  }

  ghost predicate Init(s: State) {
    && s.state == NotLocked && s.waiters == Nil && s.pushed == [] && s.handed == []
    && forall t | t in s.pc :: s.pc[t] == Outside
  }

  ghost predicate Run(run: seq<State>) {
    && |run| > 0 && Init(run[0])
    && forall i :: 0 <= i < |run| - 1 ==> StepAny(run[i], run[i + 1])
  }

  ghost predicate StepAny(s: State, s': State) { exists t :: Step(s, t, s') }

  // ----- The FIFO lock ------------------------------------------------------------------------

  /** A lock with a fair queue, one atomic action at a time. */
  datatype Fifo = Fifo(holder: Option<Tid>, queue: seq<Tid>)

  ghost predicate FifoStep(a: Fifo, b: Fifo) {
    match a.holder
    case None => a.queue == [] && b.queue == [] && b.holder.Some?
    case Some(_) =>
      || (b.holder == a.holder && |b.queue| > 0 && b.queue[..|b.queue| - 1] == a.queue)
      || (a.queue == [] && b == Fifo(None, []))
      || (a.queue != [] && b == Fifo(Some(a.queue[0]), a.queue[1..]))
  }

  // ----- Invariant ------------------------------------------------------------------------------

  /** `front` are the waiters in order, under `_waiters` or under the local header; `rem` is
      the detached stack that is not yet reversed; `stack` is the stack under `_state`. */
  datatype Ghost = Ghost(owner: Option<Tid>, front: seq<Tid>, rem: seq<Tid>, stack: seq<Tid>)

  function Reverse(s: seq<Tid>): (r: seq<Tid>)
    ensures |r| == |s|
  {
    if s == [] then [] else Reverse(s[1..]) + [s[0]]
  }

  function Queue(g: Ghost): seq<Tid> { Reverse(g.rem) + g.front + Reverse(g.stack) }

  function Abstract(g: Ghost): Fifo { Fifo(g.owner, Queue(g)) }

  /** The operations `s` are linked from `w`. */
  predicate Chain(next: map<Tid, Word>, w: Word, s: seq<Tid>)
    decreases s
  {
    if s == [] then w == Nil else w == At(s[0]) && s[0] in next && Chain(next, next[s[0]], s[1..])
  }

  predicate Holds(p: Pc) { p.Holding? || p.Releasing? || p.Exchanging? || p.Reversing? || p.Taking? }

  ghost predicate OwnerOk(s: State, g: Ghost, p: Pc) {
    match p
    case Holding => g.rem == [] && Chain(s.next, s.waiters, g.front)
    case Releasing => g.rem == [] && g.front == [] && s.waiters == Nil
    case Exchanging => g.rem == [] && g.front == [] && s.waiters == Nil && g.stack != []
    case Reversing(n, h) => g.rem != [] && Chain(s.next, n, g.rem) && Chain(s.next, h, g.front)
    case Taking(h) => g.rem == [] && g.front != [] && Chain(s.next, h, g.front)
    case _ => false
  }

  ghost predicate TaskOk(s: State, g: Ghost, t: Tid)
    requires t in s.pc
  {
    && (Holds(s.pc[t]) <==> g.owner == Some(t))
    && (s.pc[t] == Suspended <==> t in Queue(g))
    && (s.pc[t].Pushing? ==> s.pc[t].seen != NotLocked && t in s.next && s.next[t] == s.pc[t].seen)
  }

  predicate Unique(q: seq<Tid>) { forall i, j :: 0 <= i < j < |q| ==> q[i] != q[j] }

  ghost predicate Inv(s: State, g: Ghost) {
    && (s.state == NotLocked <==> g.owner == None)
    && (g.owner == None ==> Queue(g) == [] && s.waiters == Nil)
    && (g.owner.Some? ==>
          && g.owner.value in s.pc && OwnerOk(s, g, s.pc[g.owner.value])
          && Chain(s.next, s.state, g.stack))
    && Unique(Queue(g))
    && (forall t | t in Queue(g) :: t in s.pc)
    && (forall t {:trigger TaskOk(s, g, t)} | t in s.pc :: TaskOk(s, g, t))
    && s.pushed == s.handed + Queue(g)
  }

  // ----- Lists ----------------------------------------------------------------------------------

  lemma {:induction false} ChainFrame(next: map<Tid, Word>, w: Word, s: seq<Tid>, x: Tid, v: Word)
    requires Chain(next, w, s) && x !in s
    ensures Chain(next[x := v], w, s)
    decreases s
  {
    if s != [] { ChainFrame(next, next[s[0]], s[1..], x, v); }
  }

  lemma {:induction false} ReverseHas(s: seq<Tid>, t: Tid)
    ensures t in Reverse(s) <==> t in s
  {
    if s != [] { ReverseHas(s[1..], t); assert s == [s[0]] + s[1..]; }
  }

  lemma ReverseCons(t: Tid, s: seq<Tid>)
    ensures Reverse([t] + s) == Reverse(s) + [t]
  {
    assert ([t] + s)[1..] == s;
  }

  /** What every step needs to know of the tasks that it does not move. */
  lemma OthersOk(s: State, g: Ghost, s': State, g': Ghost, t: Tid, u: Tid)
    requires Inv(s, g) && u in s.pc && u in s'.pc && s'.pc[u] == s.pc[u]
    requires g'.owner == Some(u) <==> g.owner == Some(u)
    requires u in Queue(g') <==> u in Queue(g)
    requires s.pc[u].Pushing? && u in s.next ==> u in s'.next && s'.next[u] == s.next[u]
    ensures TaskOk(s', g', u)
  {
    assert TaskOk(s, g, u);
  }

  lemma InQueue(g: Ghost, t: Tid)
    ensures t in Queue(g) <==> t in g.front || t in g.rem || t in g.stack
  {
    ReverseHas(g.rem, t);
    ReverseHas(g.stack, t);
  }

  lemma NotQueued(s: State, g: Ghost, t: Tid)
    requires Inv(s, g) && t in s.pc && s.pc[t] != Suspended
    ensures t !in g.front && t !in g.rem && t !in g.stack && t !in Queue(g)
  {
    assert TaskOk(s, g, t);
    InQueue(g, t);
  }

  // ----- Steps keep the invariant and refine the FIFO lock ----------------------------------------

  ghost predicate Refines(g: Ghost, g': Ghost) { Abstract(g) == Abstract(g') || FifoStep(Abstract(g), Abstract(g')) }

  lemma MoveKeepsInv(s: State, g: Ghost, t: Tid, p: Pc)
    requires Inv(s, g) && t in s.pc && (s.pc[t].Outside? || s.pc[t].Loaded? || s.pc[t].Pushing?)
    requires p.Outside? || p.Loaded?
    ensures Inv(Goto(s, t, p), g)
  {
    assert TaskOk(s, g, t);
    var s' := Goto(s, t, p);
    forall u | u in s'.pc ensures TaskOk(s', g, u) { if u != t { OthersOk(s, g, s', g, t, u); } }
  }

  lemma AcquireKeepsInv(s: State, g: Ghost, t: Tid) returns (g': Ghost)
    requires Inv(s, g) && t in s.pc && (s.pc[t].Outside? || s.pc[t].Loaded?) && s.state == NotLocked
    ensures Inv(Goto(s, t, Holding).(state := Nil), g') && FifoStep(Abstract(g), Abstract(g')) && g.owner == None
  {
    assert TaskOk(s, g, t);
    g' := Ghost(Some(t), [], [], []);
    var s' := Goto(s, t, Holding).(state := Nil);
    forall u | u in s'.pc ensures TaskOk(s', g', u) { if u != t { OthersOk(s, g, s', g', t, u); } }
  }

  lemma LinkKeepsInv(s: State, g: Ghost, t: Tid)
    requires Inv(s, g) && t in s.pc && s.pc[t].Loaded? && s.pc[t].seen != NotLocked
    ensures Inv(Goto(s, t, Pushing(s.pc[t].seen)).(next := s.next[t := s.pc[t].seen]), g)
  {
    assert TaskOk(s, g, t);
    NotQueued(s, g, t);
    var seen := s.pc[t].seen;
    var s' := Goto(s, t, Pushing(seen)).(next := s.next[t := seen]);
    if g.owner.Some? { OwnerFrame(s, g, s.pc[g.owner.value], t, seen); }
    forall u | u in s'.pc ensures TaskOk(s', g, u) { if u != t { OthersOk(s, g, s', g, t, u); } }
  }

  lemma OwnerFrame(s: State, g: Ghost, p: Pc, x: Tid, v: Word)
    requires OwnerOk(s, g, p) && Chain(s.next, s.state, g.stack) && x !in g.front && x !in g.rem && x !in g.stack
    ensures OwnerOk(s.(next := s.next[x := v]), g, p) && Chain(s.next[x := v], s.state, g.stack)
  {
    ChainFrame(s.next, s.state, g.stack, x, v);
    match p
    case Holding => ChainFrame(s.next, s.waiters, g.front, x, v);
    case Reversing(n, h) => ChainFrame(s.next, n, g.rem, x, v); ChainFrame(s.next, h, g.front, x, v);
    case Taking(h) => ChainFrame(s.next, h, g.front, x, v);
    case _ =>
  }

  lemma PushKeepsInv(s: State, g: Ghost, t: Tid) returns (g': Ghost)
    requires Inv(s, g) && t in s.pc && s.pc[t].Pushing? && s.state == s.pc[t].seen
    ensures Inv(Push(s, t), g') && FifoStep(Abstract(g), Abstract(g')) && g'.rem == g.rem
  {
    assert TaskOk(s, g, t);
    NotQueued(s, g, t);
    g' := g.(stack := [t] + g.stack);
    var s' := Push(s, t);
    ReverseCons(t, g.stack);
    assert Queue(g') == Queue(g) + [t];
    assert g'.stack[1..] == g.stack;
    forall u | u in s'.pc ensures TaskOk(s', g', u) { if u != t { OthersOk(s, g, s', g', t, u); } }
  }

  /** The holder of the lock moves on; the queue stays as it is. */
  lemma OwnerMoves(s: State, g: Ghost, t: Tid, s': State, g': Ghost)
    requires Inv(s, g) && t in s.pc && Holds(s.pc[t])
    requires t in s'.pc && s'.pc == s.pc[t := s'.pc[t]] && Holds(s'.pc[t])
    requires g'.owner == g.owner && Queue(g') == Queue(g)
    requires s'.state != NotLocked && Chain(s'.next, s'.state, g'.stack) && OwnerOk(s', g', s'.pc[t])
    requires forall u | u in s.pc && s.pc[u].Pushing? && u in s.next :: u in s'.next && s'.next[u] == s.next[u]
    requires s'.pushed == s.pushed && s'.handed == s.handed
    ensures Inv(s', g')
  {
    assert TaskOk(s, g, t);
    forall u | u in s'.pc ensures TaskOk(s', g', u) { if u != t { OthersOk(s, g, s', g', t, u); } }
  }

  lemma UnlockKeepsInv(s: State, g: Ghost, t: Tid) returns (g': Ghost)
    requires Inv(s, g) && t in s.pc && Holds(s.pc[t])
    ensures Inv(Unlock(s, t), g') && Refines(g, g') && g.owner == Some(t)
  {
    g' := g;
    assert TaskOk(s, g, t);
    match s.pc[t]
    case Holding => OwnerMoves(s, g, t, Unlock(s, t), g);
    case Releasing => g' := ReleaseKeepsInv(s, g, t);
    case Exchanging =>
      g' := g.(rem := g.stack, stack := []);
      OwnerMoves(s, g, t, Unlock(s, t), g');
    case Reversing(_, _) => g' := ReverseKeepsInv(s, g, t);
    case Taking(_) => g' := TakeKeepsInv(s, g, t);
  }

  lemma ReleaseKeepsInv(s: State, g: Ghost, t: Tid) returns (g': Ghost)
    requires Inv(s, g) && t in s.pc && s.pc[t] == Releasing
    ensures Inv(Unlock(s, t), g') && Refines(g, g')
    ensures if s.state == Nil then Queue(g) == [] && Abstract(g') == Fifo(None, []) else g' == g
  {
    assert TaskOk(s, g, t);
    var s' := Unlock(s, t);
    g' := g;
    if s.state == Nil {
      assert g.stack == [];
      g' := g.(owner := None);
      forall u | u in s'.pc ensures TaskOk(s', g', u) { if u != t { OthersOk(s, g, s', g', t, u); } }
    } else {
      OwnerMoves(s, g, t, s', g);
    }
  }

  lemma ReverseKeepsInv(s: State, g: Ghost, t: Tid) returns (g': Ghost)
    requires Inv(s, g) && t in s.pc && s.pc[t].Reversing?
    ensures Inv(Unlock(s, t), g') && Abstract(g') == Abstract(g) && |g'.rem| < |g.rem|
    ensures t in Unlock(s, t).pc && (Unlock(s, t).pc[t].Taking? || Unlock(s, t).pc[t].Reversing?)
  {
    assert TaskOk(s, g, t);
    var n, h := s.pc[t].nxt.op, s.pc[t].header;
    assert g.rem == [n] + g.rem[1..];
    g' := g.(rem := g.rem[1..], front := [n] + g.front);
    ReverseCons(n, g.rem[1..]);
    assert Queue(g') == Queue(g);
    var s' := Unlock(s, t);
    OnceInQueue(s, g, n);
    ChainFrame(s.next, s.state, g.stack, n, h);
    ChainFrame(s.next, NextOf(s, n), g.rem[1..], n, h);
    ChainFrame(s.next, h, g.front, n, h);
    assert g'.front[1..] == g.front;
    forall u | u in s.pc && s.pc[u].Pushing? ensures u in s.next && s'.next[u] == s.next[u] {
      assert TaskOk(s, g, u);
      InQueue(g, n);
    }
    OwnerMoves(s, g, t, s', g');
  }

  lemma UniqueApart(a: seq<Tid>, b: seq<Tid>)
    requires Unique(a + b)
    ensures forall x | x in a :: x !in b
  {
    forall i, j | 0 <= i < |a| && 0 <= j < |b| ensures a[i] != b[j] {
      assert (a + b)[i] == a[i] && (a + b)[|a| + j] == b[j];
    }
  }

  /** The first of the detached operations is nowhere else. */
  lemma OnceInQueue(s: State, g: Ghost, n: Tid)
    requires Inv(s, g) && g.rem != [] && g.rem[0] == n
    ensures n !in g.rem[1..] && n !in g.front && n !in g.stack
  {
    var rest, tail := Reverse(g.rem[1..]), g.front + Reverse(g.stack);
    assert Queue(g) == rest + ([n] + tail);
    UniqueApart(rest, [n] + tail);
    assert Queue(g) == (rest + [n]) + tail;
    assert (rest + [n])[|rest|] == n;
    UniqueApart(rest + [n], tail);
    assert n !in tail;
    ReverseHas(g.rem[1..], n);
    ReverseHas(g.stack, n);
  }

  lemma TakeQueue(s: State, g: Ghost, n: Tid)
    requires Inv(s, g) && g.rem == [] && g.front != [] && g.front[0] == n
    ensures var g' := g.(owner := Some(n), front := g.front[1..]);
            && Queue(g) == [n] + Queue(g') && Unique(Queue(g'))
            && n !in Queue(g') && forall u :: u in Queue(g) <==> u == n || u in Queue(g')
  {
    hide Inv, Unique;
    var g' := g.(owner := Some(n), front := g.front[1..]);
    assert Queue(g) == [n] + Queue(g');
    UniqueQueue(s, g);
    UniqueApart([n], Queue(g'));
    UniqueTail(n, Queue(g'));
  }

  lemma UniqueQueue(s: State, g: Ghost)
    requires Inv(s, g)
    ensures Unique(Queue(g))
  {
  }

  lemma UniqueTail(n: Tid, q: seq<Tid>)
    requires Unique([n] + q)
    ensures Unique(q)
  {
    forall i, j | 0 <= i < j < |q| ensures q[i] != q[j] {
      assert ([n] + q)[i + 1] == q[i] && ([n] + q)[j + 1] == q[j];
    }
  }

  lemma TakeKeepsInv(s: State, g: Ghost, t: Tid) returns (g': Ghost)
    requires Inv(s, g) && t in s.pc && s.pc[t].Taking?
    ensures Inv(Unlock(s, t), g') && FifoStep(Abstract(g), Abstract(g'))
    ensures Queue(g) != [] && Abstract(g') == Fifo(Some(Queue(g)[0]), Queue(g)[1..])
    ensures t in Unlock(s, t).pc && Unlock(s, t).pc[t] == Outside
  {
    hide Queue, Unique;
    assert TaskOk(s, g, t);
    var n := s.pc[t].header.op;
    g' := g.(owner := Some(n), front := g.front[1..]);
    var s' := Unlock(s, t);
    TakeQueue(s, g, n);
    assert n in Queue(g) && TaskOk(s, g, n);
    forall u | u in s'.pc ensures TaskOk(s', g', u) {
      if u != n && u != t { OthersOk(s, g, s', g', t, u); }
    }
  }

  lemma BeginRefines(s: State, g: Ghost, t: Tid, s': State) returns (g': Ghost)
    requires Inv(s, g) && t in s.pc && s.pc[t] == Outside && Begin(s, t, s')
    ensures Inv(s', g') && Refines(g, g') && (g.owner.Some? ==> g' == g)
  {
    hide Inv, FifoStep, Queue;
    g' := g;
    if s' == Goto(s, t, Loaded(s.state)) { MoveKeepsInv(s, g, t, Loaded(s.state)); }
    else if s.state == NotLocked { g' := AcquireKeepsInv(s, g, t); }
  }

  lemma LockRefines(s: State, g: Ghost, t: Tid, s': State) returns (g': Ghost)
    requires Inv(s, g) && t in s.pc && (s.pc[t].Loaded? || s.pc[t].Pushing?) && Lock(s, t, s')
    ensures Inv(s', g') && Refines(g, g') && (g.owner.Some? ==> g'.rem == g.rem)
  {
    hide Inv, FifoStep, Queue;
    g' := g;
    if s' == Goto(s, t, Loaded(s.state)) { MoveKeepsInv(s, g, t, Loaded(s.state)); }
    else if s.pc[t].Pushing? { g' := PushKeepsInv(s, g, t); }
    else if s.pc[t].seen != NotLocked { LinkKeepsInv(s, g, t); }
    else { g' := AcquireKeepsInv(s, g, t); }
  }

  /** Every step keeps the invariant, and is invisible or a step of the FIFO lock. */
  lemma StepRefines(s: State, g: Ghost, t: Tid, s': State) returns (g': Ghost)
    requires Inv(s, g) && Step(s, t, s')
    ensures Inv(s', g') && Refines(g, g')
    ensures g.owner.Some? && g.owner != Some(t) ==> g'.rem == g.rem
  {
    hide Inv, FifoStep, Queue, Begin, Lock, Unlock;
    match s.pc[t]
    case Outside => g' := BeginRefines(s, g, t, s');
    case Loaded(_) => g' := LockRefines(s, g, t, s');
    case Pushing(_) => g' := LockRefines(s, g, t, s');
    case _ => g' := UnlockKeepsInv(s, g, t);
  }

  // ----- Over whole runs ----------------------------------------------------------------------

  /** The mutex in state `s` behaves as the FIFO lock `a`. */
  ghost predicate Related(s: State, a: Fifo) { exists g :: Inv(s, g) && a == Abstract(g) }

  ghost predicate Follows(a: Fifo, b: Fifo) { a == b || FifoStep(a, b) }

  /** Every run of the mutex is, step for step, a run of the FIFO lock. */
  lemma {:induction false} RunRefines(run: seq<State>) returns (fifo: seq<Fifo>)
    requires Run(run)
    ensures |fifo| == |run| && fifo[0] == Fifo(None, [])
    ensures forall i :: 0 <= i < |run| ==> Related(run[i], fifo[i])
    ensures forall i :: 0 <= i < |run| - 1 ==> Follows(fifo[i], fifo[i + 1])
    decreases |run|
  {
    hide Inv, FifoStep, Step;
    var n := |run| - 1;
    if n == 0 {
      var g := Ghost(None, [], [], []);
      InitKeepsInv(run[0], g);
      fifo := [Abstract(g)];
    } else {
      var before := RunRefines(run[..n]);
      var g :| Inv(run[n - 1], g) && before[n - 1] == Abstract(g);
      assert StepAny(run[n - 1], run[n - 1 + 1]);
      var t :| Step(run[n - 1], t, run[n]);
      var g' := StepRefines(run[n - 1], g, t, run[n]);
      assert Related(run[n], Abstract(g'));
      fifo := before + [Abstract(g')];
    }
  }

  lemma InitKeepsInv(s: State, g: Ghost)
    requires Init(s) && g == Ghost(None, [], [], [])
    ensures Inv(s, g) && Abstract(g) == Fifo(None, [])
  {
  }

  function Last(run: seq<State>): State
    requires |run| > 0
  {
    run[|run| - 1]
  }

  lemma RunInv(run: seq<State>) returns (g: Ghost)
    requires Run(run)
    ensures Inv(Last(run), g)
  {
    var fifo := RunRefines(run);
    g :| Inv(Last(run), g) && fifo[|run| - 1] == Abstract(g);
  }

  /** At most one task holds the mutex or is unlocking it. */
  lemma MutualExclusion(run: seq<State>, t: Tid, u: Tid)
    requires Run(run) && t in Last(run).pc && u in Last(run).pc
    requires Holds(Last(run).pc[t]) && Holds(Last(run).pc[u])
    ensures t == u
  {
    var g := RunInv(run);
    assert TaskOk(Last(run), g, t) && TaskOk(Last(run), g, u);
  }

  /** The lock is handed over in the order of the pushes, and the waiting tasks are exactly
      those that were pushed and not handed the lock yet; none of them waits twice. */
  lemma FirstComeFirstServed(run: seq<State>)
    requires Run(run)
    ensures Last(run).handed <= Last(run).pushed
    ensures var waiting := Last(run).pushed[|Last(run).handed|..];
            && Unique(waiting)
            && forall t :: t in waiting <==> t in Last(run).pc && Last(run).pc[t] == Suspended
  {
    var s := Last(run);
    var g := RunInv(run);
    assert s.pushed[|s.handed|..] == Queue(g);
    forall t ensures t in Queue(g) <==> t in s.pc && s.pc[t] == Suspended {
      if t in s.pc { assert TaskOk(s, g, t); }
    }
  }

  /** A mutex that is not locked has no waiter anywhere, and no holder. */
  lemma UnlockedMeansIdle(run: seq<State>, t: Tid)
    requires Run(run) && t in Last(run).pc && Last(run).state == NotLocked
    ensures Last(run).waiters == Nil && Last(run).pc[t] != Suspended && !Holds(Last(run).pc[t])
  {
    var g := RunInv(run);
    assert TaskOk(Last(run), g, t);
  }

  /** A suspended task is on exactly one of the three lists, each linked through `_next`: the
      stack, the private queue, and the part of a detached stack not yet reversed. */
  lemma OnePlace(run: seq<State>, t: Tid) returns (g: Ghost)
    requires Run(run) && t in Last(run).pc && Last(run).pc[t] == Suspended
    ensures Inv(Last(run), g) && Chain(Last(run).next, Last(run).state, g.stack)
    ensures (if t in g.stack then 1 else 0) + (if t in g.front then 1 else 0) + (if t in g.rem then 1 else 0) == 1
  {
    g := RunInv(run);
    assert TaskOk(Last(run), g, t);
    InQueue(g, t);
    var q := Queue(g);
    if t in g.stack {
      ReverseHas(g.stack, t);
      var i :| 0 <= i < |g.stack| && Reverse(g.stack)[i] == t;
      assert q[|g.rem| + |g.front| + i] == t;
    }
    if t in g.front {
      var i :| 0 <= i < |g.front| && g.front[i] == t;
      assert q[|g.rem| + i] == t;
    }
    if t in g.rem {
      ReverseHas(g.rem, t);
      var i :| 0 <= i < |g.rem| && Reverse(g.rem)[i] == t;
      assert q[i] == t;
    }
  }

  /** The assertions of `unlock` hold whenever it is called by the holder. */
  lemma AssertionsHold(run: seq<State>, t: Tid)
    requires Run(run) && t in Last(run).pc
    ensures Last(run).pc[t] == Holding ==> Last(run).state != NotLocked
    ensures Last(run).pc[t] == Exchanging ==> Last(run).state.At?
    ensures Last(run).pc[t].Reversing? ==> Last(run).pc[t].nxt.At?
    ensures Last(run).pc[t].Taking? ==> Last(run).pc[t].header.At?
  {
    var g := RunInv(run);
    assert TaskOk(Last(run), g, t);
  }

  /** While a task waits, some task holds the lock and will pass it on: the lock cannot be free. */
  lemma WaiterHasHolder(run: seq<State>, t: Tid) returns (h: Tid)
    requires Run(run) && t in Last(run).pc && Last(run).pc[t] == Suspended
    ensures h in Last(run).pc && Holds(Last(run).pc[h]) && h != t
  {
    var g := RunInv(run);
    assert TaskOk(Last(run), g, t);
    h := g.owner.value;
    assert TaskOk(Last(run), g, h);
  }
}
