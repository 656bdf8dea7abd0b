/** What `try_get` and `add` of the free list achieve
    (libs/async/include/suil/async/detail/concurrentqueue.h:1943-2057): what an answer says about the
    list, whatever other threads do meanwhile, and what a thread that runs alone does to it. */
module FreeListAnswers {
  import opened FreeList

  // ----- Answers ------------------------------------------------------------------------------

  /** From state `i` to state `j + 1` of the run thread `t` is inside one `try_get`. */
  ghost predicate TryGet(run: seq<State>, i: nat, j: nat, t: Tid) {
    && i < j < |run| - 1 && (forall k | 0 <= k < |run| :: t in run[k].pc)
    && run[i].pc[t] == Idle && run[i + 1].pc[t] == LoadHead
    && (forall k | i < k <= j :: run[k].pc[t] != Idle)
    && run[j + 1].pc[t] == Idle
  }

  /** At some state from `i + 1` to `k` the list was empty. */
  ghost predicate WasEmpty(run: seq<State>, i: nat, k: nat)
    requires k < |run|
  {
    exists m :: i < m <= k && Chain(run[m], [])
  }

  /** Between two states from `i + 1` to `k` the node `n` was taken from the front of the list. */
  ghost predicate WasTaken(run: seq<State>, i: nat, k: nat, n: Node)
    requires k < |run|
  {
    exists m, list :: i < m < k && Chain(run[m], [n] + list) && Chain(run[m + 1], list)
  }

  /** The head that `try_get` has loaded and not yet looked at, if its next look is at that one. */
  function Loaded(p: Pc): set<Ptr> {
    match p
    case Test(h) => {h}
    case DropOne(_, h) => {h}
    case ZLoadHead(_, Continue(h)) => {h}
    case ZSetNext(_, _, Continue(h)) => {h}
    case ZSetRefs(_, _, Continue(h)) => {h}
    case ZCasHead(_, _, Continue(h)) => {h}
    case ZRetry(_, _, Continue(h)) => {h}
    case _ => {}
  }

  /** Within `try_get`. */
  predicate Getting(p: Pc) {
    match p
    case Idle => false
    case AddFlag(_) => false
    case ZLoadHead(_, Return) => false
    case ZSetNext(_, _, Return) => false
    case ZSetRefs(_, _, Return) => false
    case ZCasHead(_, _, Return) => false
    case ZRetry(_, _, Return) => false
    case _ => true
  }

  /** What thread `t` knows at state `k`. */
  ghost predicate Told(run: seq<State>, i: nat, k: nat, t: Tid)
    requires k < |run| && t in run[k].pc
  {
    var p := run[k].pc[t];
    && Getting(p)
    && (Null in Loaded(p) ==> WasEmpty(run, i, k))
    && (p.DropTwo? ==> WasTaken(run, i, k, p.node))
  }

  lemma EmptyChain(s: State)
    requires s.head == Null
    ensures Chain(s, [])
  {
  }

  lemma EmptyLater(run: seq<State>, i: nat, k: nat)
    requires k < |run| - 1 && WasEmpty(run, i, k)
    ensures WasEmpty(run, i, k + 1)
  {
    hide Chain;
  }

  lemma TakenLater(run: seq<State>, i: nat, k: nat, n: Node)
    requires k < |run| - 1 && WasTaken(run, i, k, n)
    ensures WasTaken(run, i, k + 1, n)
  {
    hide Chain;
    var m, list :| i < m < k && Chain(run[m], [n] + list) && Chain(run[m + 1], list);
  }

  /** Of the steps of others `t` only sees that time passes. */
  lemma ToldByOthers(run: seq<State>, i: nat, k: nat, t: Tid)
    requires i < k < |run| - 1 && t in run[k].pc && t in run[k + 1].pc && Told(run, i, k, t)
    requires run[k + 1].pc[t] == run[k].pc[t]
    ensures Told(run, i, k + 1, t)
  {
    hide WasEmpty, WasTaken, Getting, Loaded;
    var p := run[k].pc[t];
    if Null in Loaded(p) { EmptyLater(run, i, k); }
    if p.DropTwo? { TakenLater(run, i, k, p.node); }
  }

  /** How `t` comes by what it knows. */
  lemma OwnStep(s: State, t: Tid)
    requires t in s.pc && Getting(s.pc[t]) && Next(s, t).pc[t] != Idle
    ensures var p, p' := s.pc[t], Next(s, t).pc[t];
            && Getting(p')
            && (Null in Loaded(p') ==> Null in Loaded(p) || s.head == Null)
            && (p'.DropTwo? ==> p.CasHead? && p.node == p'.node && s.head == At(p.node))
  {
  }

  lemma ToldByItself(run: seq<State>, i: nat, k: nat, t: Tid)
    requires i < k < |run| - 1 && t in run[k].pc && t in run[k + 1].pc && Told(run, i, k, t) && Safe(run[k])
    requires run[k + 1] == Next(run[k], t) && run[k + 1].pc[t] != Idle
    ensures Told(run, i, k + 1, t)
  {
    hide Chain, Getting, Loaded, Next, Inv;
    var s, s' := run[k], run[k + 1];
    var p, p' := s.pc[t], s'.pc[t];
    OwnStep(s, t);
    if Null in Loaded(p') {
      if Null in Loaded(p) {
        EmptyLater(run, i, k);
      } else {
        EmptyChain(s);
        assert Chain(run[k], []);
      }
    }
    if p'.DropTwo? {
      var g :| Inv(s, g);
      TakenFirst(s, t, g);
      assert Chain(run[k], [p.node] + g.list[1..]) && Chain(run[k + 1], g.list[1..]);
    }
  }

  /** The compare-exchange of the head takes the first node of the list. */
  lemma TakenFirst(s: State, t: Tid, g: Ghost)
    requires Inv(s, g) && t in s.pc && s.pc[t].CasHead? && s.head == At(s.pc[t].node)
    ensures |g.list| > 0 && g.list == [s.pc[t].node] + g.list[1..]
    ensures Chain(s, [s.pc[t].node] + g.list[1..]) && Chain(Next(s, t), g.list[1..])
  {
    assert ThreadOk(s, g, t);
    assert g.list[0] == s.pc[t].node;
    assert g.list == [g.list[0]] + g.list[1..];
    ChainPop(s, Next(s, t), g.list);
  }

  lemma {:induction false} ToldAlways(run: seq<State>, i: nat, j: nat, t: Tid, k: nat)
    requires Run(run) && TryGet(run, i, j, t) && i < k <= j
    ensures Told(run, i, k, t)
  {
    hide Told, Next, Chain;
    if k == i + 1 {
      ToldAtFirst(run, i, t);
    } else {
      ToldAlways(run, i, j, t, k - 1);
      SafeAt(run, k - 1);
      assert Steps(run[k - 1], run[k - 1 + 1]);
      var u :| u in run[k - 1].pc && Step(run[k - 1], u, run[k]);
      if u == t { ToldByItself(run, i, k - 1, t); } else { OthersStep(run[k - 1], u, run[k], t); ToldByOthers(run, i, k - 1, t); }
    }
  }

  lemma ToldAtFirst(run: seq<State>, i: nat, t: Tid)
    requires i + 1 < |run| && t in run[i + 1].pc && run[i + 1].pc[t] == LoadHead
    ensures Told(run, i, i + 1, t)
  {
  }

  lemma OthersStep(s: State, u: Tid, s': State, t: Tid)
    requires u in s.pc && Step(s, u, s') && t in s.pc && t != u
    ensures t in s'.pc && s'.pc[t] == s.pc[t]
  {
    hide Next;
    NextOfOther(s, u, t);
  }

  lemma NextOfOther(s: State, u: Tid, t: Tid)
    requires u in s.pc && t in s.pc && t != u
    ensures var s' := Next(s, u); t in s'.pc && s'.pc[t] == s.pc[t]
  {
    hide Refs, NextOf;
  }

  lemma SafeAt(run: seq<State>, k: nat)
    requires Run(run) && k < |run|
    ensures Safe(run[k])
  {
    var prefix := run[..k + 1];
    assert Run(prefix) by {
      forall i | 0 <= i < |prefix| - 1 ensures Steps(prefix[i], prefix[i + 1]) { assert Steps(run[i], run[i + 1]); }
    }
    RunInv(prefix);
  }

  /** The last step of `try_get`. */
  lemma LastStep(s: State, t: Tid, g: Ghost)
    requires Inv(s, g) && t in s.pc && Getting(s.pc[t]) && Next(s, t).pc[t] == Idle
    ensures var p, s' := s.pc[t], Next(s, t);
            || (Null in Loaded(p) && s'.owned == s.owned)
            || (p.DropTwo? && p.node !in s.owned && s'.owned == s.owned + {p.node})
  {
    assert ThreadOk(s, g, t);
    if s.pc[t].DropTwo? { assert NodeOk(s, g, s.pc[t].node); }
  }

  /** An answer of `try_get`, whatever other threads do between its start and its end: either it has got
      nothing, and then the list was empty at some state in between; or it has got one node that no
      client had, and that was the first of the list at some state in between and then left it. */
  lemma AnswerIsRight(run: seq<State>, i: nat, j: nat, t: Tid)
    requires Run(run) && TryGet(run, i, j, t)
    ensures var before, after := run[j].owned, run[j + 1].owned;
            || (after == before && WasEmpty(run, i, j))
            || (exists n :: n !in before && after == before + {n} && WasTaken(run, i, j, n))
  {
    hide Chain, WasEmpty, WasTaken, Next, Inv, Getting, Loaded;
    ToldAlways(run, i, j, t, j);
    var s, s' := run[j], run[j + 1];
    SafeAt(run, j);
    assert Steps(run[j], run[j + 1]);
    var u :| u in s.pc && Step(s, u, s');
    if u != t { OthersStep(s, u, s', t); }
    var g :| Inv(s, g);
    LastStep(s, t, g);
  }

  // ----- Alone ----------------------------------------------------------------------------------

  /** Thread `t` takes `k` steps, and no other thread takes any. */
  function Alone(s: State, t: Tid, k: nat): (s': State)
    requires t in s.pc
    ensures t in s'.pc
    decreases k
  {
    if k == 0 then s else Alone(Next(s, t), t, k - 1)
  }

  /** The list is longer by nothing, or shorter by its first node, which is now with a client. */
  ghost predicate Gets(s: State, s': State, list: seq<Node>) {
    if list == [] then s' == s
    else
      var n := list[0];
      && n in s.refs && s.refs[n] > 0 && Chain(s', list[1..])
      && s' == s.(head := s'.head, owned := s.owned + {n}, refs := s.refs[n := s.refs[n] - 1])
  }

  /** From any reachable state: `try_get` alone gets the first node of the list, and nothing only from an
      empty list.  It takes at most six steps. */
  lemma GetsAlone(run: seq<State>, t: Tid) returns (list: seq<Node>, k: nat)
    requires Run(run) && t in Last(run).pc && Last(run).pc[t] == Idle
    ensures var s := Last(run); Chain(s, list) && k <= 6 && Gets(s, Alone(Goto(s, t, LoadHead), t, k), list)
  {
    hide Chain, Gets, Steps, Inv, Alone;
    RunInv(run);
    var s := Last(run);
    var g :| Inv(s, g);
    list := g.list;
    if list == [] { k := 2; GetsNothing(s, t, g); } else { k := 6; GetsFirst(s, t, g); }
  }

  lemma NextKnowsThread(s: State, t: Tid)
    requires t in s.pc
    ensures t in Next(s, t).pc
  {
  }

  lemma AloneStep(s: State, t: Tid, s': State, k: nat)
    requires t in s.pc && Next(s, t) == s'
    ensures t in s'.pc && Alone(s, t, k + 1) == Alone(s', t, k)
  {
    NextKnowsThread(s, t);
    hide Next;
    assert Alone(s, t, k + 1) == Alone(Next(s, t), t, k + 1 - 1);
  }

  lemma AloneNot(s: State, t: Tid)
    requires t in s.pc
    ensures Alone(s, t, 0) == s
  {
  }

  lemma Back(s: State, t: Tid)
    requires t in s.pc && s.pc[t] == Idle
    ensures Goto(s, t, Idle) == s
  {
    assert s.pc[t := Idle] == s.pc;
  }

  lemma GetsNothing(s: State, t: Tid, g: Ghost)
    requires Inv(s, g) && t in s.pc && s.pc[t] == Idle && g.list == []
    ensures Chain(s, []) && Gets(s, Alone(Goto(s, t, LoadHead), t, 2), [])
  {
    hide Alone;
    var s0, s1 := Goto(s, t, LoadHead), Goto(s, t, Test(Null));
    Back(s, t);
    AloneStep(s0, t, s1, 1);
    AloneStep(s1, t, s, 0);
    AloneNot(s, t);
  }

  lemma FirstRefs(s: State, g: Ghost)
    requires Inv(s, g) && g.list != []
    ensures var n := g.list[0];
            && s.head == At(n) && n in s.refs && 0 < s.refs[n] <= REFS_MASK && NextOf(s, n) == PtrAt(g.list, 1)
            && s.refs[n] % (REFS_MASK + 1) != 0
  {
    var n := g.list[0];
    assert LinkOk(s, g.list, 0);
    assert NodeOk(s, g, n);
    HoldersBound(s, n);
  }

  lemma GetsFirst(s: State, t: Tid, g: Ghost)
    requires Inv(s, g) && t in s.pc && s.pc[t] == Idle && g.list != []
    ensures Chain(s, g.list) && Gets(s, Alone(Goto(s, t, LoadHead), t, 6), g.list)
  {
    hide Inv;
    assert Chain(s, g.list) by { InvChain(s, g); }
    FirstRefs(s, g);
    FirstStays(s, g.list);
    FirstTaken(s, t, g.list);
  }

  lemma InvChain(s: State, g: Ghost)
    requires Inv(s, g)
    ensures Chain(s, g.list)
  {
  }

  lemma FirstStays(s: State, list: seq<Node>)
    requires Chain(s, list) && list != []
    ensures Chain(s.(head := PtrAt(list, 1)), list[1..])
  {
    var s' := s.(head := PtrAt(list, 1));
    assert LinkOk(s, list, 0);
    ChainPop(s, s', list);
  }

  /** What a thread that runs alone comes to, one step after the other. */
  lemma LoadStep(s: State, t: Tid)
    requires t in s.pc
    ensures Next(Goto(s, t, LoadHead), t) == Goto(s, t, Test(s.head))
  {
  }

  lemma TestStep(s: State, t: Tid, n: Node)
    requires t in s.pc && Refs(s, n) % (REFS_MASK + 1) != 0
    ensures Next(Goto(s, t, Test(At(n))), t) == Goto(s, t, TryRef(n, Refs(s, n)))
  {
  }

  lemma RefStep(s: State, t: Tid, n: Node)
    requires t in s.pc
    ensures Next(Goto(s, t, TryRef(n, Refs(s, n))), t) == Goto(SetRefs(s, n, Refs(s, n) + 1), t, ReadNext(n))
  {
  }

  lemma NextStep(s: State, t: Tid, n: Node)
    requires t in s.pc
    ensures Next(Goto(s, t, ReadNext(n)), t) == Goto(s, t, CasHead(n, NextOf(s, n)))
  {
  }

  lemma CasStep(s: State, t: Tid, n: Node, nx: Ptr)
    requires t in s.pc && s.head == At(n)
    ensures Next(Goto(s, t, CasHead(n, nx)), t) == Goto(s.(head := nx), t, DropTwo(n))
  {
  }

  lemma DropStep(s: State, t: Tid, n: Node)
    requires t in s.pc
    ensures Next(Goto(s, t, DropTwo(n)), t) == Goto(SetRefs(s, n, Refs(s, n) - 2), t, Idle).(owned := s.owned + {n})
  {
  }

  lemma FirstTaken(s: State, t: Tid, list: seq<Node>)
    requires t in s.pc && s.pc[t] == Idle && list != [] && Chain(s.(head := PtrAt(list, 1)), list[1..])
    requires var n := list[0];
             && s.head == At(n) && n in s.refs && 0 < s.refs[n] <= REFS_MASK && NextOf(s, n) == PtrAt(list, 1)
             && s.refs[n] % (REFS_MASK + 1) != 0
    ensures Gets(s, Alone(Goto(s, t, LoadHead), t, 6), list)
  {
    hide Chain, Alone, Next, Goto;
    var n, r := list[0], s.refs[list[0]];
    var counted := SetRefs(s, n, r + 1);
    var taken := counted.(head := PtrAt(list, 1));
    var s6 := s.(head := PtrAt(list, 1), owned := s.owned + {n}, refs := s.refs[n := r - 1]);
    LoadStep(s, t);
    TestStep(s, t, n);
    RefStep(s, t, n);
    NextStep(counted, t, n);
    CasStep(counted, t, n, PtrAt(list, 1));
    DropStep(taken, t, n);
    Dropped(s, t, n, s6);
    GotoKnows(s, counted, taken, t);
    AloneStep(Goto(taken, t, DropTwo(n)), t, s6, 0);
    AloneStep(Goto(counted, t, CasHead(n, PtrAt(list, 1))), t, Goto(taken, t, DropTwo(n)), 1);
    AloneStep(Goto(counted, t, ReadNext(n)), t, Goto(counted, t, CasHead(n, PtrAt(list, 1))), 2);
    AloneStep(Goto(s, t, TryRef(n, r)), t, Goto(counted, t, ReadNext(n)), 3);
    AloneStep(Goto(s, t, Test(At(n))), t, Goto(s, t, TryRef(n, r)), 4);
    AloneStep(Goto(s, t, LoadHead), t, Goto(s, t, Test(At(n))), 5);
    AloneNot(s6, t);
    ChainOf(s.(head := PtrAt(list, 1)), s6, list[1..]);
  }

  lemma GotoKnows(s: State, a: State, b: State, t: Tid)
    requires t in s.pc && a.pc == s.pc && b.pc == s.pc
    ensures forall p :: t in Goto(s, t, p).pc && t in Goto(a, t, p).pc && t in Goto(b, t, p).pc
  {
  }

  lemma Dropped(s: State, t: Tid, n: Node, s6: State)
    requires t in s.pc && s.pc[t] == Idle && n in s.refs && 0 < s.refs[n] <= REFS_MASK
    requires s6 == s.(head := s6.head, owned := s.owned + {n}, refs := s.refs[n := s.refs[n] - 1])
    ensures var taken := SetRefs(s, n, s.refs[n] + 1).(head := s6.head);
            Goto(SetRefs(taken, n, Refs(taken, n) - 2), t, Idle).(owned := taken.owned + {n}) == s6
  {
    assert s.pc[t := Idle] == s.pc;
  }

  lemma ChainOf(s: State, s': State, list: seq<Node>)
    requires Chain(s, list) && s'.head == s.head && s'.next == s.next
    ensures Chain(s', list)
  {
    ChainFrame(s, s', list);
  }

  /** The node is now the first of the list; or, while other threads still hold references, only marked
      for the last of them to add. */
  ghost predicate Adds(s: State, s': State, n: Node, list: seq<Node>)
    requires n in s.refs
  {
    if s.refs[n] == 0 then
      && Chain(s', [n] + list)
      && s' == s.(head := At(n), next := s.next[n := s.head], refs := s.refs[n := 1], owned := s.owned - {n})
    else
      && Chain(s', list)
      && s' == s.(refs := s.refs[n := SHOULD_BE_ON_FREELIST + s.refs[n]], owned := s.owned - {n})
  }

  /** From any reachable state: `add` alone puts the node on the list, or marks it if it is still
      referenced.  It takes at most five steps. */
  lemma AddsAlone(run: seq<State>, t: Tid, n: Node) returns (list: seq<Node>, k: nat)
    requires Run(run) && t in Last(run).pc && Last(run).pc[t] == Idle && n in Last(run).owned
    ensures var s := Last(run);
            n in s.refs && Chain(s, list) && k <= 5 && Adds(s, Alone(BeginAdd(s, t, n), t, k), n, list)
  {
    hide Chain, Adds, Steps, Inv, Alone, BeginAdd;
    RunInv(run);
    var s := Last(run);
    var g :| Inv(s, g);
    list := g.list;
    InvChain(s, g);
    OwnedRefs(s, g, n);
    if s.refs[n] == 0 { k := 5; AddsFirst(s, t, n, g); } else { k := 1; AddsMark(s, t, n, g); }
  }

  lemma OwnedRefs(s: State, g: Ghost, n: Node)
    requires Inv(s, g) && n in s.owned
    ensures n in s.refs && n in s.next && s.refs[n] <= REFS_MASK && n !in g.list
  {
    assert NodeOk(s, g, n);
    HoldersBound(s, n);
  }

  lemma AddsMark(s: State, t: Tid, n: Node, g: Ghost)
    requires Inv(s, g) && t in s.pc && s.pc[t] == Idle && n in s.owned && n in s.refs && 0 < s.refs[n] <= REFS_MASK
    ensures Adds(s, Alone(BeginAdd(s, t, n), t, 1), n, g.list)
  {
    hide Alone, Chain;
    var s0 := BeginAdd(s, t, n);
    var s1 := s.(refs := s.refs[n := SHOULD_BE_ON_FREELIST + s.refs[n]], owned := s.owned - {n});
    assert s.pc[t := Idle] == s.pc;
    assert Next(s0, t) == s1;
    AloneStep(s0, t, s1, 0);
    AloneNot(s1, t);
    ChainOf(s, s1, g.list);
  }

  lemma FlagStep(s: State, t: Tid, n: Node)
    requires t in s.pc && Refs(s, n) == 0
    ensures Next(Goto(s, t, AddFlag(n)), t) == Goto(SetRefs(s, n, SHOULD_BE_ON_FREELIST), t, ZLoadHead(n, Return))
  {
  }

  lemma ZLoadStep(s: State, t: Tid, n: Node)
    requires t in s.pc
    ensures Next(Goto(s, t, ZLoadHead(n, Return)), t) == Goto(s, t, ZSetNext(n, s.head, Return))
  {
  }

  lemma ZNextStep(s: State, t: Tid, n: Node)
    requires t in s.pc
    ensures Next(Goto(s, t, ZSetNext(n, s.head, Return)), t) == Goto(s.(next := s.next[n := s.head]), t, ZSetRefs(n, s.head, Return))
  {
  }

  lemma ZRefsStep(s: State, t: Tid, n: Node)
    requires t in s.pc
    ensures Next(Goto(s, t, ZSetRefs(n, s.head, Return)), t) == Goto(SetRefs(s, n, 1), t, ZCasHead(n, s.head, Return))
  {
  }

  lemma ZCasStep(s: State, t: Tid, n: Node)
    requires t in s.pc
    ensures Next(Goto(s, t, ZCasHead(n, s.head, Return)), t) == Goto(s.(head := At(n)), t, Idle)
  {
  }

  lemma AddsFirst(s: State, t: Tid, n: Node, g: Ghost)
    requires Inv(s, g) && t in s.pc && s.pc[t] == Idle && n in s.owned && n in s.refs && s.refs[n] == 0
    requires n in s.next && n !in g.list && Chain(s, g.list)
    ensures Adds(s, Alone(BeginAdd(s, t, n), t, 5), n, g.list)
  {
    hide Alone, Chain, Next, Goto, Inv;
    var a := s.(owned := s.owned - {n});
    var b := SetRefs(a, n, SHOULD_BE_ON_FREELIST);
    var c := b.(next := s.next[n := s.head]);
    var d := SetRefs(c, n, 1);
    var s5 := d.(head := At(n));
    Beginning(s, t, n);
    GotoKnows(s, a, b, t);
    GotoKnows(s, c, d, t);
    FlagStep(a, t, n);
    ZLoadStep(b, t, n);
    ZNextStep(b, t, n);
    ZRefsStep(c, t, n);
    ZCasStep(d, t, n);
    Back(s5, t);
    AloneStep(Goto(d, t, ZCasHead(n, s.head, Return)), t, s5, 0);
    AloneStep(Goto(c, t, ZSetRefs(n, s.head, Return)), t, Goto(d, t, ZCasHead(n, s.head, Return)), 1);
    AloneStep(Goto(b, t, ZSetNext(n, s.head, Return)), t, Goto(c, t, ZSetRefs(n, s.head, Return)), 2);
    AloneStep(Goto(b, t, ZLoadHead(n, Return)), t, Goto(b, t, ZSetNext(n, s.head, Return)), 3);
    AloneStep(Goto(a, t, AddFlag(n)), t, Goto(b, t, ZLoadHead(n, Return)), 4);
    AloneNot(s5, t);
    assert s5.refs == s.refs[n := 1];
    Pushed(s, s5, g.list, n);
  }

  lemma Beginning(s: State, t: Tid, n: Node)
    requires t in s.pc
    ensures BeginAdd(s, t, n) == Goto(s.(owned := s.owned - {n}), t, AddFlag(n))
  {
  }

  lemma Pushed(s: State, s': State, list: seq<Node>, n: Node)
    requires Chain(s, list) && n !in list && n in s.next
    requires s'.next == s.next[n := s.head] && s'.head == At(n)
    ensures Chain(s', [n] + list)
  {
    var s1 := s.(next := s'.next);
    ChainFrame(s, s1, list);
    ChainPush(s1, s', list, n);
  }

  // ----- Every operation ends ----------------------------------------------------------------------

  /** The steps that a thread needs at most, if no other thread takes any.  It depends on whether the
      head that it has seen is still the head, or at least on the list. */
  ghost function TestRank(s: State, g: Ghost, h: Ptr): nat {
    if h == s.head then 5 else if h.Null? || h.node in g.list then 10 else 19
  }

  ghost function AfterRank(g: Ghost, a: After): nat {
    match a
    case Return => 0
    case Continue(h) => if h.Null? || h.node in g.list then 10 else 19
  }

  /** Three ranks for a node: as the first of the list, on the list, and elsewhere. */
  ghost function NodeRank(s: State, g: Ghost, n: Node, first: nat, listed: nat, other: nat): nat {
    if s.head == At(n) then first else if n in g.list then listed else other
  }

  ghost function Rank(s: State, g: Ghost, p: Pc): nat {
    match p
    case Idle => 0
    case LoadHead => 6
    case Test(h) => TestRank(s, g, h)
    case TryRef(n, r) => if Refs(s, n) == r then NodeRank(s, g, n, 4, 9, 18) else NodeRank(s, g, n, 7, 9, 18)
    case ReadNext(n) => NodeRank(s, g, n, 3, 8, 17)
    case CasHead(n, _) => NodeRank(s, g, n, 2, 7, 16)
    case DropTwo(_) => 1
    case DropOne(n, h) => if n in g.list then 1 + TestRank(s, g, h) else 5 + AfterRank(g, Continue(h))
    case AddFlag(_) => 5
    case ZLoadHead(_, a) => 4 + AfterRank(g, a)
    case ZSetNext(_, h, a) => (if h == s.head then 3 else 7) + AfterRank(g, a)
    case ZSetRefs(_, h, a) => (if h == s.head then 2 else 6) + AfterRank(g, a)
    case ZCasHead(_, h, a) => (if h == s.head then 1 else 5) + AfterRank(g, a)
    case ZRetry(_, h, a) => (if h == s.head then 4 else 8) + AfterRank(g, a)
  }

  lemma NextInv(s: State, t: Tid, g: Ghost)
    requires Inv(s, g) && t in s.pc && s.pc[t] != Idle
    ensures Inv(Next(s, t), GhostNext(s, t, g))
  {
    hide Inv, Next, GhostNext;
    match s.pc[t]
    case LoadHead => TryGetKeepsInv(s, t, g); SameGhost(s, t, g);
    case Test(_) => TryGetKeepsInv(s, t, g); SameGhost(s, t, g);
    case ReadNext(_) => TryGetKeepsInv(s, t, g); SameGhost(s, t, g);
    case ZLoadHead(_, _) => TryGetKeepsInv(s, t, g); SameGhost(s, t, g);
    case TryRef(_, _) => TryRefKeepsInv(s, t, g); SameGhost(s, t, g);
    case CasHead(_, _) => CasHeadKeepsInv(s, t, g);
    case DropTwo(_) => DropTwoKeepsInv(s, t, g);
    case DropOne(_, _) => DropOneKeepsInv(s, t, g);
    case AddFlag(_) => AddFlagKeepsInv(s, t, g);
    case ZSetNext(_, _, _) => ZeroedKeepsInv(s, t, g); SameGhost(s, t, g);
    case ZSetRefs(_, _, _) => ZeroedKeepsInv(s, t, g); SameGhost(s, t, g);
    case ZCasHead(_, _, _) => ZCasHeadKeepsInv(s, t, g);
    case ZRetry(_, _, _) => ZRetryKeepsInv(s, t, g);
  }

  lemma SameGhost(s: State, t: Tid, g: Ghost)
    requires t in s.pc
    requires var p := s.pc[t]; !p.CasHead? && !p.DropTwo? && !p.DropOne? && !p.AddFlag? && !p.ZCasHead? && !p.ZRetry?
    ensures GhostNext(s, t, g) == g
  {
  }

  /** A node on the list has a count that is neither zero nor marked. */
  lemma ListedRefs(s: State, g: Ghost, n: Node)
    requires Inv(s, g) && n in g.list
    ensures n in s.refs && 0 < s.refs[n] <= REFS_MASK && s.refs[n] % (REFS_MASK + 1) != 0
  {
    var i :| 0 <= i < |g.list| && g.list[i] == n;
    assert LinkOk(s, g.list, i);
    assert NodeOk(s, g, n);
    HoldersBound(s, n);
  }

  /** The rank falls in `try_get`. */
  lemma GetFalls(s: State, t: Tid, g: Ghost)
    requires Inv(s, g) && t in s.pc
    requires var p := s.pc[t]; p.LoadHead? || p.Test? || p.TryRef? || p.ReadNext? || p.CasHead? || p.DropTwo?
    ensures var s', g' := Next(s, t), GhostNext(s, t, g); t in s'.pc && Rank(s', g', s'.pc[t]) < Rank(s, g, s.pc[t])
  {
    hide Inv;
    var p := s.pc[t];
    HeadListed(s, g);
    if Busy(p) && p.node in g.list { ListedRefs(s, g, p.node); }
    if p.Test? && p.head.At? && p.head.node in g.list { ListedRefs(s, g, p.head.node); }
  }

  /** And in `add`, and where a reference is given back. */
  lemma AddFalls(s: State, t: Tid, g: Ghost)
    requires Inv(s, g) && t in s.pc && s.pc[t] != Idle
    requires var p := s.pc[t]; !(p.LoadHead? || p.Test? || p.TryRef? || p.ReadNext? || p.CasHead? || p.DropTwo?)
    ensures var s', g' := Next(s, t), GhostNext(s, t, g); t in s'.pc && Rank(s', g', s'.pc[t]) < Rank(s, g, s.pc[t])
  {
    hide Inv;
    var p := s.pc[t];
    HeadListed(s, g);
    if p.node in g.list { ListedRefs(s, g, p.node); }
  }

  /** Every step of the thread itself lowers the rank. */
  lemma RankFalls(s: State, t: Tid, g: Ghost)
    requires Inv(s, g) && t in s.pc && s.pc[t] != Idle
    ensures var s', g' := Next(s, t), GhostNext(s, t, g); t in s'.pc && Rank(s', g', s'.pc[t]) < Rank(s, g, s.pc[t])
  {
    hide Inv, Next, GhostNext, Rank;
    var p := s.pc[t];
    if p.LoadHead? || p.Test? || p.TryRef? || p.ReadNext? || p.CasHead? || p.DropTwo? {
      GetFalls(s, t, g);
    } else {
      AddFalls(s, t, g);
    }
  }

  lemma {:induction false} EndsWithin(s: State, t: Tid, g: Ghost) returns (k: nat)
    requires Inv(s, g) && t in s.pc
    ensures k <= Rank(s, g, s.pc[t]) && Alone(s, t, k).pc[t] == Idle
    decreases Rank(s, g, s.pc[t])
  {
    hide Inv, Next, GhostNext, Rank, Alone;
    if s.pc[t] == Idle {
      k := 0;
      AloneNot(s, t);
    } else {
      RankFalls(s, t, g);
      NextInv(s, t, g);
      var k' := EndsWithin(Next(s, t), t, GhostNext(s, t, g));
      AloneStep(s, t, Next(s, t), k');
      k := k' + 1;
    }
  }

  lemma RankBound(s: State, g: Ghost, p: Pc)
    ensures Rank(s, g, p) <= 27
  {
  }

  /** From any reachable state, and in the middle of any operation: a thread that runs alone ends its
      operation within 27 steps. */
  lemma EndsAlone(run: seq<State>, t: Tid) returns (k: nat)
    requires Run(run) && t in Last(run).pc
    ensures k <= 27 && Alone(Last(run), t, k).pc[t] == Idle
  {
    hide Inv, Alone, Rank, Steps;
    RunInv(run);
    var s := Last(run);
    var g :| Inv(s, g);
    k := EndsWithin(s, t, g);
    RankBound(s, g, s.pc[t]);
  }
}
