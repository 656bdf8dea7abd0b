/** The manual-reset event for coroutines (libs/async/src/event.cpp:200-262): the state is the
    set mark, or a lock-free stack of waiting operations that `set` detaches as a whole.

    Every load and every exchange is one step of one task, and tasks interleave in any order.
    A task's operation is named after the task, and is used again whenever it waits again. */
module ManualResetEvent {
  import opened Bytes

  type Tid = nat

  /** The word `_state`, and a pointer to an operation. */
  datatype Word = IsSet | Nil | At(op: Tid)

  /** `id` numbers the pushes and `turn` the calls of `set`, in the order of their exchanges. */
  datatype Pc =
    | Outside
    | Loaded(seen: Word)
    | Pushing(seen: Word)
    | Waiting(id: nat)
    | Walking(current: Word, turn: nat)
    | Resuming(current: Word, nxt: Word, turn: nat)

  /** A successful push, and the number of exchanges of `set` before it. */
  datatype Push = Push(task: Tid, since: nat)

  /** A resumption of the task of push `id` by the `turn`-th call of `set`. */
  datatype Resume = Resume(id: nat, turn: nat)

  /** `sets`, `pushes` and `resumes` are histories. */
  datatype State = State(
    state: Word,
    next: map<Tid, Word>,
    pc: map<Tid, Pc>,
    sets: nat,
    pushes: seq<Push>,
    resumes: seq<Resume>)

  function Goto(s: State, t: Tid, p: Pc): State { s.(pc := s.pc[t := p]) }

  function NextOf(s: State, t: Tid): Word { if t in s.next then s.next[t] else Nil }

  // ----- Steps ------------------------------------------------------------------------------

  /** A task outside: `await_ready`, the load in `await_suspend`, `set`, or `reset`, whose weak
      compare-exchange may fail without a reason. */
  ghost predicate Begin(s: State, t: Tid, s': State) {
    || s' == s
    || s' == Goto(s, t, Loaded(s.state))
    || s' == BeginSet(s, t)
    || (s.state == IsSet && s' == s.(state := Nil))
  }

  function BeginSet(s: State, t: Tid): State {
    var s1 := s.(state := IsSet, sets := s.sets + 1);
    if s.state == IsSet then s1 else Goto(s1, t, Walking(s.state, s.sets))
  }

  function PushSelf(s: State, t: Tid): State {
    Goto(s, t, Waiting(|s.pushes|)).(state := At(t), pushes := s.pushes + [Push(t, s.sets)])
  }

  function ResumeOne(s: State, t: Tid): State
    requires t in s.pc && s.pc[t].Resuming? && s.pc[t].current.At?
    requires s.pc[t].current.op in s.pc && s.pc[s.pc[t].current.op].Waiting?
  {
    var u := s.pc[t].current.op;
    Goto(Goto(s, u, Outside), t, Walking(s.pc[t].nxt, s.pc[t].turn))
    .(resumes := s.resumes + [Resume(s.pc[u].id, s.pc[t].turn)])
  }

  ghost predicate Step(s: State, t: Tid, s': State) {
    && t in s.pc
    && match s.pc[t]
       case Outside => Begin(s, t, s')
       case Loaded(w) =>
         s' == if w == IsSet then Goto(s, t, Outside) else Goto(s, t, Pushing(w)).(next := s.next[t := w])
       case Pushing(w) =>
         (s.state == w && s' == PushSelf(s, t)) || s' == Goto(s, t, Loaded(s.state))
       case Waiting(_) => false
       case Walking(w, k) =>
         s' == if w.At? then Goto(s, t, Resuming(w, NextOf(s, w.op), k)) else Goto(s, t, Outside)
       case Resuming(w, _, _) =>
         w.At? && w.op in s.pc && s.pc[w.op].Waiting? && s' == ResumeOne(s, t)
  }

  ghost predicate StepAny(s: State, s': State) { exists t :: Step(s, t, s') }

  ghost predicate Init(s: State) {
    && (s.state == Nil || s.state == IsSet) && s.sets == 0 && s.pushes == [] && s.resumes == []
    && forall t | t in s.pc :: s.pc[t] == Outside
  }

  ghost predicate Run(run: seq<State>) {
    && |run| > 0 && Init(run[0])
    && forall i :: 0 <= i < |run| - 1 ==> StepAny(run[i], run[i + 1])
  }

  // ----- Invariant --------------------------------------------------------------------------

  /** The stack, the chain that each running `set` still has to resume, and where each waiting
      task is: on the stack, or in the chain of a task. */
  datatype Ghost = Ghost(stack: seq<Tid>, chains: map<Tid, seq<Tid>>, place: map<Tid, Option<Tid>>)

  predicate Chain(next: map<Tid, Word>, w: Word, s: seq<Tid>)
    decreases s
  {
    if s == [] then w == Nil else w == At(s[0]) && s[0] in next && Chain(next, next[s[0]], s[1..])
  }

  predicate Unique(q: seq<Tid>) { forall i, j :: 0 <= i < j < |q| ==> q[i] != q[j] }

  function ChainOf(g: Ghost, t: Tid): seq<Tid> { if t in g.chains then g.chains[t] else [] }

  function ListAt(g: Ghost, p: Option<Tid>): seq<Tid> {
    match p
    case None => g.stack
    case Some(u) => ChainOf(g, u)
  }

  predicate InSet(p: Pc) { p.Walking? || p.Resuming? }

  /** A task in a list waits, and that list is its place. */
  ghost predicate ListOk(s: State, g: Ghost, p: Option<Tid>) {
    && Unique(ListAt(g, p))
    && forall t | t in ListAt(g, p) :: t in s.pc && s.pc[t].Waiting? && t in g.place && g.place[t] == p
  }

  ghost predicate WaitOk(s: State, g: Ghost, t: Tid)
    requires t in s.pc && s.pc[t].Waiting?
  {
    var id := s.pc[t].id;
    && t in g.place && t in ListAt(g, g.place[t])
    && id < |s.pushes| && s.pushes[id].task == t
    && match g.place[t]
       case None => s.pushes[id].since == s.sets
       case Some(u) => u in s.pc && InSet(s.pc[u]) && s.pushes[id].since == s.pc[u].turn
  }

  ghost predicate TaskOk(s: State, g: Ghost, t: Tid)
    requires t in s.pc
  {
    && (!InSet(s.pc[t]) ==> ChainOf(g, t) == [])
    && match s.pc[t]
       case Pushing(w) => w != IsSet && t in s.next && s.next[t] == w
       case Waiting(_) => WaitOk(s, g, t)
       case Walking(w, k) => k < s.sets && Chain(s.next, w, ChainOf(g, t))
       case Resuming(w, n, k) =>
         k < s.sets && ChainOf(g, t) != [] && w == At(ChainOf(g, t)[0]) && Chain(s.next, n, ChainOf(g, t)[1..])
       case _ => true
  }

  /** Two running calls of `set` have different numbers. */
  ghost predicate TurnsOk(s: State, t: Tid, u: Tid)
    requires t in s.pc && u in s.pc
  {
    InSet(s.pc[t]) && InSet(s.pc[u]) && t != u ==> s.pc[t].turn != s.pc[u].turn
  }

  ghost predicate Resumed(s: State, id: nat) { exists i :: 0 <= i < |s.resumes| && s.resumes[i].id == id }

  ghost predicate StillWaits(s: State, id: nat)
    requires id < |s.pushes|
  {
    s.pushes[id].task in s.pc && s.pc[s.pushes[id].task] == Waiting(id)
  }

  /** A push is answered by one resumption, or its task still waits. */
  ghost predicate PushOk(s: State, id: nat)
    requires id < |s.pushes|
  {
    Resumed(s, id) <==> !StillWaits(s, id)
  }

  ghost predicate ResumesOk(s: State) {
    && (forall i, j :: 0 <= i < j < |s.resumes| ==> s.resumes[i].id != s.resumes[j].id)
    && (forall i :: 0 <= i < |s.resumes| ==>
          s.resumes[i].id < |s.pushes| && s.resumes[i].turn == s.pushes[s.resumes[i].id].since)
  }

  ghost predicate Inv(s: State, g: Ghost) {
    && (if s.state == IsSet then g.stack == [] else Chain(s.next, s.state, g.stack))
    && (forall p {:trigger ListOk(s, g, p)} :: ListOk(s, g, p))
    && (forall t {:trigger TaskOk(s, g, t)} | t in s.pc :: TaskOk(s, g, t))
    && (forall t, u {:trigger TurnsOk(s, t, u)} | t in s.pc && u in s.pc :: TurnsOk(s, t, u))
    && (forall id: nat {:trigger PushOk(s, id)} | id < |s.pushes| :: PushOk(s, id))
    && ResumesOk(s)
  }

  // ----- Lists ----------------------------------------------------------------------------------

  lemma {:induction false} ChainFrame(next: map<Tid, Word>, w: Word, s: seq<Tid>, x: Tid, v: Word)
    requires Chain(next, w, s) && x !in s
    ensures Chain(next[x := v], w, s)
    decreases s
  {
    if s != [] { ChainFrame(next, next[s[0]], s[1..], x, v); }
  }

  /** A task that does not wait is in no list. */
  lemma Free(s: State, g: Ghost, t: Tid, p: Option<Tid>)
    requires Inv(s, g) && t in s.pc && !s.pc[t].Waiting?
    ensures t !in ListAt(g, p)
  {
    assert ListOk(s, g, p);
  }

  // ----- Steps keep the invariant -----------------------------------------------------------------

  /** The steps of one task that move no operation between lists. */
  lemma MoveKeepsInv(s: State, g: Ghost, t: Tid, s': State)
    requires Inv(s, g) && t in s.pc && !s.pc[t].Waiting? && t in s'.pc && !s'.pc[t].Waiting?
    requires s' == s.(pc := s'.pc, next := s'.next) && s'.pc == s.pc[t := s'.pc[t]]
    requires s'.next == s.next || (!InSet(s.pc[t]) && t in s'.next && s'.next == s.next[t := s'.next[t]])
    requires InSet(s'.pc[t]) ==> InSet(s.pc[t]) && s.pc[t].turn == s'.pc[t].turn
    requires InSet(s.pc[t]) && !InSet(s'.pc[t]) ==> ChainOf(g, t) == []
    requires TaskOk(s', g, t)
    ensures Inv(s', g)
  {
    Free(s, g, t, None);
    forall p ensures ListOk(s', g, p) { assert ListOk(s, g, p); }
    if s'.next != s.next && s.state != IsSet { ChainFrame(s.next, s.state, g.stack, t, s'.next[t]); }
    forall u | u in s'.pc ensures TaskOk(s', g, u) { if u != t { OtherMoved(s, g, t, s', u); } }
    forall u, v | u in s'.pc && v in s'.pc ensures TurnsOk(s', u, v) { assert TurnsOk(s, u, v); }
    forall id: nat | id < |s'.pushes| ensures PushOk(s', id) { assert PushOk(s, id); }
  }

  lemma OtherMoved(s: State, g: Ghost, t: Tid, s': State, u: Tid)
    requires Inv(s, g) && t in s.pc && !s.pc[t].Waiting? && t in s'.pc && u in s.pc && u != t
    requires s' == s.(pc := s'.pc, next := s'.next) && s'.pc == s.pc[t := s'.pc[t]]
    requires s'.next == s.next || (t in s'.next && s'.next == s.next[t := s'.next[t]])
    requires InSet(s'.pc[t]) ==> InSet(s.pc[t]) && s.pc[t].turn == s'.pc[t].turn
    requires InSet(s.pc[t]) && !InSet(s'.pc[t]) ==> ChainOf(g, t) == []
    ensures TaskOk(s', g, u)
  {
    assert TaskOk(s, g, u);
    Free(s, g, t, Some(u));
    if s'.next != s.next && InSet(s.pc[u]) {
      if s.pc[u].Walking? { ChainFrame(s.next, s.pc[u].current, ChainOf(g, u), t, s'.next[t]); }
      else { ChainFrame(s.next, s.pc[u].nxt, ChainOf(g, u)[1..], t, s'.next[t]); }
    }
  }

  ghost predicate Pushes(s: State, g: Ghost, t: Tid, s': State, g': Ghost) {
    && Inv(s, g) && t in s.pc && s.pc[t].Pushing? && s.state == s.pc[t].seen && s' == PushSelf(s, t)
    && g' == g.(stack := [t] + g.stack, place := g.place[t := None])
  }

  lemma PushKeepsInv(s: State, g: Ghost, t: Tid) returns (g': Ghost)
    requires Inv(s, g) && t in s.pc && s.pc[t].Pushing? && s.state == s.pc[t].seen
    ensures Inv(PushSelf(s, t), g') && g'.chains == g.chains
  {
    var s' := PushSelf(s, t);
    assert TaskOk(s, g, t);
    g' := g.(stack := [t] + g.stack, place := g.place[t := None]);
    assert g'.stack[1..] == g.stack;
    forall p ensures ListOk(s', g', p) { PushedList(s, g, t, s', g', p); }
    forall u | u in s'.pc ensures TaskOk(s', g', u) { PushedTask(s, g, t, s', g', u); }
    forall u, v | u in s'.pc && v in s'.pc ensures TurnsOk(s', u, v) { assert TurnsOk(s, u, v); }
    forall id: nat | id < |s'.pushes| ensures PushOk(s', id) { PushedAnswer(s, g, t, s', g', id); }
  }

  lemma PushedList(s: State, g: Ghost, t: Tid, s': State, g': Ghost, p: Option<Tid>)
    requires Pushes(s, g, t, s', g')
    ensures ListOk(s', g', p)
  {
    assert ListOk(s, g, p);
    Free(s, g, t, p);
  }

  lemma PushedTask(s: State, g: Ghost, t: Tid, s': State, g': Ghost, u: Tid)
    requires Pushes(s, g, t, s', g') && u in s'.pc
    ensures TaskOk(s', g', u)
  {
    assert TaskOk(s, g, u) && TaskOk(s, g, t);
    assert t in g'.stack;
    if u != t && s.pc[u].Waiting? && g.place[u] == None { assert g'.stack[1..] == g.stack; }
  }

  lemma PushedAnswer(s: State, g: Ghost, t: Tid, s': State, g': Ghost, id: nat)
    requires Pushes(s, g, t, s', g') && id < |s'.pushes|
    ensures PushOk(s', id)
  {
    if id < |s.pushes| {
      assert PushOk(s, id);
      assert StillWaits(s', id) <==> StillWaits(s, id);
    }
    assert Resumed(s', id) <==> Resumed(s, id);
  }

  lemma BeginSetKeepsInv(s: State, g: Ghost, t: Tid) returns (g': Ghost)
    requires Inv(s, g) && t in s.pc && s.pc[t].Outside?
    ensures Inv(BeginSet(s, t), g')
    ensures s.state == IsSet ==> g' == g
    ensures s.state != IsSet ==> g'.chains == g.chains[t := g.stack]
  {
    var s' := BeginSet(s, t);
    assert TaskOk(s, g, t) && ListOk(s, g, None);
    if s.state == IsSet {
      g' := g;
    } else {
      g' := Ghost([], g.chains[t := g.stack], map u | u in g.place :: if u in g.stack then Some(t) else g.place[u]);
    }
    forall p ensures ListOk(s', g', p) { Detached(s, g, t, s', g', p); }
    forall u | u in s'.pc ensures TaskOk(s', g', u) { DetachedTask(s, g, t, s', g', u); }
    forall u, v | u in s'.pc && v in s'.pc ensures TurnsOk(s', u, v) { NewTurn(s, g, t, u, v); }
    hide TaskOk, ListOk, TurnsOk;
    forall id: nat | id < |s'.pushes| ensures PushOk(s', id) { assert PushOk(s, id); }
  }

  lemma DetachedTask(s: State, g: Ghost, t: Tid, s': State, g': Ghost, u: Tid)
    requires Inv(s, g) && t in s.pc && s.pc[t].Outside? && s' == BeginSet(s, t) && u in s'.pc
    requires s.state == IsSet ==> g' == g
    requires s.state != IsSet ==> g'.stack == [] && g'.chains == g.chains[t := g.stack]
    requires s.state != IsSet ==> g'.place == map u | u in g.place :: if u in g.stack then Some(t) else g.place[u]
    ensures TaskOk(s', g', u)
  {
    hide PushOk, TurnsOk, ResumesOk;
    assert TaskOk(s, g, t) && TaskOk(s, g, u) && ListOk(s, g, None);
    if s.pc[u].Waiting? && g.place[u].Some? { assert u !in g.stack; }
  }

  /** The number of a new call of `set` is higher than those of all calls that run. */
  lemma NewTurn(s: State, g: Ghost, t: Tid, u: Tid, v: Tid)
    requires Inv(s, g) && t in s.pc && s.pc[t].Outside? && u in BeginSet(s, t).pc && v in BeginSet(s, t).pc
    ensures TurnsOk(BeginSet(s, t), u, v)
  {
    hide PushOk, ListOk, ResumesOk, Chain;
    assert TurnsOk(s, u, v) && TaskOk(s, g, u) && TaskOk(s, g, v);
  }

  lemma Detached(s: State, g: Ghost, t: Tid, s': State, g': Ghost, p: Option<Tid>)
    requires Inv(s, g) && t in s.pc && s.pc[t].Outside? && s' == BeginSet(s, t)
    requires s.state == IsSet ==> g' == g
    requires s.state != IsSet ==> g'.stack == [] && g'.chains == g.chains[t := g.stack]
    requires s.state != IsSet ==> g'.place == map u | u in g.place :: if u in g.stack then Some(t) else g.place[u]
    ensures ListOk(s', g', p)
  {
    assert ListOk(s, g, p) && ListOk(s, g, None) && TaskOk(s, g, t);
    forall u | u in ListAt(g', p) ensures u in s'.pc && s'.pc[u].Waiting? && u in g'.place && g'.place[u] == p {
      if u in g.stack { assert u in ListAt(g, None); } else { assert u in ListAt(g, p); }
    }
  }

  lemma ResumeKeepsInv(s: State, g: Ghost, t: Tid) returns (g': Ghost)
    requires Inv(s, g) && t in s.pc && s.pc[t].Resuming?
    ensures s.pc[t].current.At? && s.pc[t].current.op in s.pc && s.pc[s.pc[t].current.op].Waiting?
    ensures Inv(ResumeOne(s, t), g')
    ensures ChainOf(g, t) != [] && s.pc[t].current.op == ChainOf(g, t)[0] && g'.chains == g.chains[t := ChainOf(g, t)[1..]]
  {
    assert TaskOk(s, g, t) && ListOk(s, g, Some(t));
    var c := ChainOf(g, t);
    var w := c[0];
    assert w in ListAt(g, Some(t)) && TaskOk(s, g, w);
    var s', k := ResumeOne(s, t), s.pc[w].id;
    g' := g.(chains := g.chains[t := c[1..]], place := g.place - {w});
    forall p ensures ListOk(s', g', p) { Shortened(s, g, t, s', g', p); }
    forall u | u in s'.pc ensures TaskOk(s', g', u) { ShortenedTask(s, g, t, s', g', u); }
    hide TaskOk, ListOk;
    forall u, v | u in s'.pc && v in s'.pc ensures TurnsOk(s', u, v) { assert TurnsOk(s, u, v); }
    assert PushOk(s, k) && StillWaits(s, k);
    forall id: nat | id < |s'.pushes| ensures PushOk(s', id) { Answered(s, s', k, id, t, w); }
    assert ResumesOk(s') by {
      forall i | 0 <= i < |s.resumes| ensures s.resumes[i].id != k { assert !Resumed(s, k); }
    }
  }

  lemma Shortened(s: State, g: Ghost, t: Tid, s': State, g': Ghost, p: Option<Tid>)
    requires Inv(s, g) && t in s.pc && s.pc[t].Resuming? && ChainOf(g, t) != [] && s.pc[t].current == At(ChainOf(g, t)[0])
    requires ChainOf(g, t)[0] in s.pc && s.pc[ChainOf(g, t)[0]].Waiting? && s' == ResumeOne(s, t)
    requires g' == g.(chains := g.chains[t := ChainOf(g, t)[1..]], place := g.place - {ChainOf(g, t)[0]})
    ensures ListOk(s', g', p)
  {
    var c, w := ChainOf(g, t), ChainOf(g, t)[0];
    assert ListOk(s, g, p) && ListOk(s, g, Some(t)) && w in ListAt(g, Some(t));
    HeadOnce(c);
    assert w !in ListAt(g', p);
    forall u | u in ListAt(g', p) ensures u in s'.pc && s'.pc[u].Waiting? && u in g'.place && g'.place[u] == p {
      assert u in ListAt(g, p);
    }
  }

  lemma ShortenedTask(s: State, g: Ghost, t: Tid, s': State, g': Ghost, u: Tid)
    requires Inv(s, g) && t in s.pc && s.pc[t].Resuming? && ChainOf(g, t) != [] && s.pc[t].current == At(ChainOf(g, t)[0])
    requires ChainOf(g, t)[0] in s.pc && s.pc[ChainOf(g, t)[0]].Waiting? && s' == ResumeOne(s, t)
    requires g' == g.(chains := g.chains[t := ChainOf(g, t)[1..]], place := g.place - {ChainOf(g, t)[0]})
    requires u in s'.pc
    ensures TaskOk(s', g', u)
  {
    hide PushOk, TurnsOk, ResumesOk, Unique;
    var c := ChainOf(g, t);
    assert TaskOk(s, g, t) && TaskOk(s, g, u) && TaskOk(s, g, c[0]) && ListOk(s, g, Some(t));
    assert c == [c[0]] + c[1..] && c[0] in c;
    if s.pc[u].Waiting? && u != c[0] { assert g'.place[u] == g.place[u]; }
  }

  lemma HeadOnce(c: seq<Tid>)
    requires Unique(c) && c != []
    ensures c[0] !in c[1..]
  {
    forall i | 0 <= i < |c[1..]| ensures c[1..][i] != c[0] { }
  }

  lemma Answered(s: State, s': State, k: nat, id: nat, t: Tid, w: Tid)
    requires id < |s.pushes| && PushOk(s, id) && t in s.pc && w in s.pc && t != w
    requires s.pc[w] == Waiting(k) && !s.pc[t].Waiting? && k < |s.pushes| && s.pushes[k].task == w
    requires s'.pushes == s.pushes && t in s'.pc && s'.pc == s.pc[w := Outside][t := s'.pc[t]] && InSet(s'.pc[t])
    requires |s'.resumes| == |s.resumes| + 1 && s'.resumes[..|s.resumes|] == s.resumes && s'.resumes[|s.resumes|].id == k
    ensures PushOk(s', id)
  {
    if id == k {
      assert Resumed(s', id);
    } else {
      assert StillWaits(s', id) <==> StillWaits(s, id);
      if Resumed(s, id) {
        var i :| 0 <= i < |s.resumes| && s.resumes[i].id == id;
        assert s'.resumes[i].id == id;
      }
      if Resumed(s', id) {
        var i :| 0 <= i < |s'.resumes| && s'.resumes[i].id == id;
        assert s.resumes[i].id == id;
      }
    }
  }

  lemma StepKeepsInv(s: State, g: Ghost, t: Tid, s': State) returns (g': Ghost)
    requires Inv(s, g) && Step(s, t, s')
    ensures Inv(s', g') && forall u {:trigger ChainOf(g', u)} | u != t :: ChainOf(g', u) == ChainOf(g, u)
  {
    g' := g;
    assert TaskOk(s, g, t) && ListOk(s, g, None);
    match s.pc[t]
    case Outside =>
      if s' == s { }
      else if s' == BeginSet(s, t) { g' := BeginSetKeepsInv(s, g, t); }
      else if s' == Goto(s, t, Loaded(s.state)) { MoveKeepsInv(s, g, t, s'); }
      else { ResetKeepsInv(s, g); }
    case Loaded(w) => MoveKeepsInv(s, g, t, s');
    case Pushing(w) =>
      if s' == Goto(s, t, Loaded(s.state)) { MoveKeepsInv(s, g, t, s'); } else { g' := PushKeepsInv(s, g, t); }
    case Walking(w, k) => MoveKeepsInv(s, g, t, s');
    case Resuming(_, _, _) => g' := ResumeKeepsInv(s, g, t);
  }

  lemma ResetKeepsInv(s: State, g: Ghost)
    requires Inv(s, g) && s.state == IsSet
    ensures Inv(s.(state := Nil), g)
  {
    var s' := s.(state := Nil);
    forall p ensures ListOk(s', g, p) { assert ListOk(s, g, p); }
    forall u | u in s'.pc ensures TaskOk(s', g, u) { assert TaskOk(s, g, u); }
    forall u, v | u in s'.pc && v in s'.pc ensures TurnsOk(s', u, v) { assert TurnsOk(s, u, v); }
    forall id: nat | id < |s'.pushes| ensures PushOk(s', id) { assert PushOk(s, id); }
  }

  // ----- Over whole runs ----------------------------------------------------------------------

  ghost predicate Safe(s: State) { exists g :: Inv(s, g) }

  function Last(run: seq<State>): State
    requires |run| > 0
  {
    run[|run| - 1]
  }

  lemma {:induction false} RunSafe(run: seq<State>)
    requires Run(run)
    ensures Safe(Last(run))
    decreases |run|
  {
    hide Inv, Step;
    var n := |run| - 1;
    if n == 0 {
      InitKeepsInv(run[0]);
    } else {
      RunSafe(run[..n]);
      var g :| Inv(run[n - 1], g);
      assert StepAny(run[n - 1], run[n - 1 + 1]);
      var t :| Step(run[n - 1], t, run[n]);
      var g' := StepKeepsInv(run[n - 1], g, t, run[n]);
    }
  }

  lemma InitKeepsInv(s: State)
    requires Init(s)
    ensures Safe(s)
  {
    var g := Ghost([], map[], map[]);
    forall p ensures ListOk(s, g, p) { }
    assert Inv(s, g);
  }

  /** No push is answered twice, and each is answered by the first call of `set` after it. */
  lemma ResumedByFirstSet(run: seq<State>, i: nat)
    requires Run(run) && i < |Last(run).resumes|
    ensures var r := Last(run).resumes[i];
            && r.id < |Last(run).pushes| && r.turn == Last(run).pushes[r.id].since
            && forall j :: 0 <= j < |Last(run).resumes| && Last(run).resumes[j].id == r.id ==> j == i
  {
    RunSafe(run);
    var g :| Inv(Last(run), g);
  }

  /** Every push is answered, or else its task still waits, and not both. */
  lemma AnsweredOrWaiting(run: seq<State>, id: nat)
    requires Run(run) && id < |Last(run).pushes|
    ensures Resumed(Last(run), id) <==> !StillWaits(Last(run), id)
  {
    RunSafe(run);
    var g :| Inv(Last(run), g);
    assert PushOk(Last(run), id);
  }

  /** A waiting task is on the stack, or in the chain of exactly one running `set`; on the stack
      it cannot be when the event is set. */
  lemma OnePlace(run: seq<State>, t: Tid) returns (g: Ghost)
    requires Run(run) && t in Last(run).pc && Last(run).pc[t].Waiting?
    ensures Inv(Last(run), g)
    ensures t in g.place && forall p :: t in ListAt(g, p) <==> p == g.place[t]
    ensures Last(run).state == IsSet ==> g.place[t].Some?
    ensures g.place[t].Some? ==> g.place[t].value in Last(run).pc && InSet(Last(run).pc[g.place[t].value])
  {
    RunSafe(run);
    g :| Inv(Last(run), g);
    assert TaskOk(Last(run), g, t);
    forall p ensures t in ListAt(g, p) ==> p == g.place[t] { assert ListOk(Last(run), g, p); }
  }

  /** When a call of `set` has walked its whole chain, every task that was pushed since the
      call of `set` before it has been resumed. */
  lemma SetResumesAll(run: seq<State>, u: Tid, id: nat)
    requires Run(run) && u in Last(run).pc && Last(run).pc[u].Walking? && Last(run).pc[u].current == Nil
    requires id < |Last(run).pushes| && Last(run).pushes[id].since == Last(run).pc[u].turn
    ensures Resumed(Last(run), id)
  {
    var s := Last(run);
    RunSafe(run);
    var g :| Inv(s, g);
    assert PushOk(s, id);
    WaitsElsewhere(s, g, id, u);
  }

  /** Whoever still waits was not detached by a call of `set` that has nothing left to walk. */
  lemma WaitsElsewhere(s: State, g: Ghost, id: nat, u: Tid)
    requires Inv(s, g) && id < |s.pushes|
    requires u in s.pc && s.pc[u].Walking? && s.pc[u].current == Nil
    ensures StillWaits(s, id) ==> s.pushes[id].since != s.pc[u].turn
  {
    if StillWaits(s, id) {
      var t := s.pushes[id].task;
      assert TaskOk(s, g, t) && TaskOk(s, g, u);
      if g.place[t].Some? { assert TurnsOk(s, u, g.place[t].value); }
    }
  }

  /** A task that a running `set` is about to resume does wait: nothing else woke it. */
  lemma NextIsWaiting(run: seq<State>, u: Tid)
    requires Run(run) && u in Last(run).pc && Last(run).pc[u].Resuming?
    ensures var w := Last(run).pc[u].current;
            w.At? && w.op in Last(run).pc && Last(run).pc[w.op].Waiting?
  {
    RunSafe(run);
    var g :| Inv(Last(run), g);
    var g' := ResumeKeepsInv(Last(run), g, u);
  }
}
