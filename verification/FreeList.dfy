/** The reference-counted lock-free free list of the run queue
    (libs/async/include/suil/async/detail/concurrentqueue.h:1920-2063).

    Every atomic load, store and read-modify-write of `add`, `try_get` and
    `add_knowing_refcount_is_zero` is one step of one thread; threads interleave
    in any order.  `freeListRefs` is the 32-bit word of the source: bit 31 says
    that the node should be on the list, the low 31 bits count references. */
module FreeList {
  type Tid = nat
  type Node = nat

  const REFS_MASK: nat := 0x7FFF_FFFF
  const SHOULD_BE_ON_FREELIST: nat := 0x8000_0000
  const WORD: nat := 0x1_0000_0000

  datatype Ptr = Null | At(node: Node)

  /** What a thread does once `add_knowing_refcount_is_zero` returns. */
  datatype After = Return | Continue(head: Ptr)

  /** The program counter of a thread, with its live local variables. */
  datatype Pc =
    | Idle
      // try_get
    | LoadHead
    | Test(head: Ptr)
    | TryRef(node: Node, refs: nat)
    | ReadNext(node: Node)
    | CasHead(node: Node, next: Ptr)
    | DropTwo(node: Node)
    | DropOne(node: Node, head: Ptr)
      // add
    | AddFlag(node: Node)
      // add_knowing_refcount_is_zero
    | ZLoadHead(node: Node, after: After)
    | ZSetNext(node: Node, head: Ptr, after: After)
    | ZSetRefs(node: Node, head: Ptr, after: After)
    | ZCasHead(node: Node, head: Ptr, after: After)
    | ZRetry(node: Node, head: Ptr, after: After)

  /** `owned` is the set of nodes that are in the hands of the list's clients. */
  datatype State = State(
    head: Ptr,
    next: map<Node, Ptr>,
    refs: map<Node, nat>,
    pc: map<Tid, Pc>,
    owned: set<Node>)

  function Refs(s: State, n: Node): nat { if n in s.refs then s.refs[n] else 0 }

  function NextOf(s: State, n: Node): Ptr { if n in s.next then s.next[n] else Null }

  function Resume(a: After): Pc {
    match a
    case Return => Idle
    case Continue(h) => Test(h)
  }

  function Goto(s: State, t: Tid, p: Pc): State { s.(pc := s.pc[t := p]) }

  function SetRefs(s: State, n: Node, v: int): State {
    s.(refs := s.refs[n := v % WORD])
  }

  /** The next atomic step of a thread that is inside an operation. */
  function Next(s: State, t: Tid): State
    requires t in s.pc
  {
    match s.pc[t]
    case Idle => s
    case LoadHead => Goto(s, t, Test(s.head))
    case Test(Null) => Goto(s, t, Idle)
    case Test(At(n)) =>
      var r := Refs(s, n);
      if r % (REFS_MASK + 1) == 0 then Goto(s, t, LoadHead) else Goto(s, t, TryRef(n, r))
    case TryRef(n, r) =>
      if Refs(s, n) == r then Goto(SetRefs(s, n, r + 1), t, ReadNext(n)) else Goto(s, t, LoadHead)
    case ReadNext(n) => Goto(s, t, CasHead(n, NextOf(s, n)))
    case CasHead(n, nx) =>
      if s.head == At(n) then Goto(s.(head := nx), t, DropTwo(n)) else Goto(s, t, DropOne(n, s.head))
    case DropTwo(n) => Goto(SetRefs(s, n, Refs(s, n) - 2), t, Idle).(owned := s.owned + {n})
    case DropOne(n, h) =>
      var s' := SetRefs(s, n, Refs(s, n) - 1);
      if Refs(s, n) == SHOULD_BE_ON_FREELIST + 1
      then Goto(s', t, ZLoadHead(n, Continue(h)))
      else Goto(s', t, Test(h))
    case AddFlag(n) =>
      var s' := SetRefs(s, n, Refs(s, n) + SHOULD_BE_ON_FREELIST);
      if Refs(s, n) == 0 then Goto(s', t, ZLoadHead(n, Return)) else Goto(s', t, Idle)
    case ZLoadHead(n, a) => Goto(s, t, ZSetNext(n, s.head, a))
    case ZSetNext(n, h, a) => Goto(s.(next := s.next[n := h]), t, ZSetRefs(n, h, a))
    case ZSetRefs(n, h, a) => Goto(SetRefs(s, n, 1), t, ZCasHead(n, h, a))
    case ZCasHead(n, h, a) =>
      if s.head == h then Goto(s.(head := At(n)), t, Resume(a)) else Goto(s, t, ZRetry(n, s.head, a))
    case ZRetry(n, h, a) =>
      var s' := SetRefs(s, n, Refs(s, n) + SHOULD_BE_ON_FREELIST - 1);
      if Refs(s, n) == 1 then Goto(s', t, ZSetNext(n, h, a)) else Goto(s', t, Resume(a))
  }

  /** One step of thread `t`: an idle thread starts `try_get`, or `add` of a node
      that a client owns; any other thread takes its next atomic step. */
  ghost predicate Step(s: State, t: Tid, s': State) {
    && t in s.pc
    && if s.pc[t].Idle?
       then s' == Goto(s, t, LoadHead) || exists n | n in s.owned :: s' == BeginAdd(s, t, n)
       else s' == Next(s, t)
  }

  function BeginAdd(s: State, t: Tid, n: Node): State {
    Goto(s, t, AddFlag(n)).(owned := s.owned - {n})
  }

  /** All nodes start with the clients; there are few enough threads for 31 bits. */
  ghost predicate Init(s: State) {
    && s.head == Null
    && s.next.Keys == s.refs.Keys == s.owned
    && (forall n | n in s.refs :: s.refs[n] == 0)
    && (forall n | n in s.next :: s.next[n] == Null)
    && (forall t | t in s.pc :: s.pc[t] == Idle)
    && |s.pc| < REFS_MASK
  }

  ghost predicate Steps(s: State, s': State) { exists t :: t in s.pc && Step(s, t, s') }

  ghost predicate Run(run: seq<State>) {
    && |run| > 0
    && Init(run[0])
    && forall i :: 0 <= i < |run| - 1 ==> Steps(run[i], run[i + 1])
  }

  function Last(run: seq<State>): State
    requires |run| > 0
  {
    run[|run| - 1]
  }

  /** No operation is in flight. */
  ghost predicate Quiet(s: State) { forall t | t in s.pc :: s.pc[t].Idle? }

  // ----- What the threads hold ------------------------------------------------

  /** The thread has incremented the node's count and not yet decremented it. */
  predicate Holds(p: Pc, n: Node) {
    (p.ReadNext? || p.CasHead? || p.DropTwo? || p.DropOne?) && p.node == n
  }

  ghost function Holders(pc: map<Tid, Pc>, n: Node): set<Tid> {
    set t | t in pc && Holds(pc[t], n)
  }

  /** The part a thread plays for the node it names. */
  datatype Role = Bystander | Adder | Popper | Zeroer | Linker

  function RoleOf(p: Pc): Role {
    if p.AddFlag? then Adder
    else if p.DropTwo? then Popper
    else if p.ZLoadHead? || p.ZSetNext? || p.ZSetRefs? then Zeroer
    else if p.ZCasHead? || p.ZRetry? then Linker
    else Bystander
  }

  /** The thread is working on the node it names. */
  predicate Busy(p: Pc) { !p.Idle? && !p.LoadHead? && !p.Test? }

  /** The thread is the one that currently disposes of the node. */
  predicate HasToken(p: Pc, n: Node) { Busy(p) && RoleOf(p) != Bystander && p.node == n }

  /** Where a node is: with a client, on the list, marked and left to its holders,
      or in the hands of one thread. */
  datatype Place = Owned | Listed | Marked | By(t: Tid)

  datatype Ghost = Ghost(list: seq<Node>, place: map<Node, Place>)

  function PtrAt(list: seq<Node>, i: nat): Ptr { if i < |list| then At(list[i]) else Null }

  predicate LinkOk(s: State, list: seq<Node>, i: nat)
    requires i < |list|
  {
    list[i] in s.next && s.next[list[i]] == PtrAt(list, i + 1)
  }

  ghost predicate Chain(s: State, list: seq<Node>) {
    && s.head == PtrAt(list, 0)
    && (forall i {:trigger LinkOk(s, list, i)} | 0 <= i < |list| :: LinkOk(s, list, i))
    && (forall i, j :: 0 <= i < j < |list| ==> list[i] != list[j])
  }

  predicate NextKnown(s: State, n: Node) { Known(s, NextOf(s, n)) }

  predicate Known(s: State, p: Ptr) { p.At? ==> p.node in s.refs }

  predicate AfterKnown(s: State, a: After) { a.Continue? ==> Known(s, a.head) }

  /** The local variables of a thread agree with the shared state. */
  ghost predicate LocalOk(s: State, p: Pc) {
    match p
    case Idle => true
    case LoadHead => true
    case Test(h) => Known(s, h)
    case TryRef(n, r) => n in s.refs && r % (REFS_MASK + 1) != 0 && r < WORD
    case ReadNext(n) => n in s.refs
    case CasHead(n, nx) => n in s.refs && NextOf(s, n) == nx
    case DropTwo(n) => n in s.refs
    case DropOne(n, h) => n in s.refs && Known(s, h)
    case AddFlag(n) => n in s.refs
    case ZLoadHead(n, a) => n in s.refs && AfterKnown(s, a)
    case ZSetNext(n, h, a) => n in s.refs && Known(s, h) && AfterKnown(s, a)
    case ZSetRefs(n, h, a) => n in s.refs && Known(s, h) && AfterKnown(s, a) && NextOf(s, n) == h
    case ZCasHead(n, h, a) => n in s.refs && Known(s, h) && AfterKnown(s, a) && NextOf(s, n) == h
    case ZRetry(n, h, a) => n in s.refs && Known(s, h) && AfterKnown(s, a)
  }

  /** The reference word of a node, from where the node is and who holds it. */
  ghost predicate RefsOk(s: State, pl: Place, n: Node)
    requires n in s.refs
  {
    var c := |Holders(s.pc, n)|;
    match pl
    case Owned => n in s.owned && s.refs[n] == c
    case Listed => s.refs[n] == 1 + c
    case Marked => s.refs[n] == SHOULD_BE_ON_FREELIST + c && c > 0
    case By(t) =>
      && t in s.pc
      && HasToken(s.pc[t], n)
      && match RoleOf(s.pc[t]) {
           case Adder => s.refs[n] == c
           case Zeroer => s.refs[n] == SHOULD_BE_ON_FREELIST && c == 0
           case _ => s.refs[n] == 1 + c
         }
  }

  ghost predicate NodeOk(s: State, g: Ghost, n: Node)
    requires n in s.refs && n in g.place
  {
    && RefsOk(s, g.place[n], n)
    && (n in g.list <==> g.place[n] == Listed)
    && (n in s.owned ==> g.place[n] == Owned)
  }

  ghost predicate ThreadOk(s: State, g: Ghost, t: Tid)
    requires t in s.pc && s.next.Keys == s.refs.Keys == g.place.Keys
  {
    var p := s.pc[t];
    LocalOk(s, p) && (Busy(p) && HasToken(p, p.node) ==> g.place[p.node] == By(t))
  }

  ghost predicate Shape(s: State, g: Ghost) {
    && s.next.Keys == s.refs.Keys == g.place.Keys
    && s.owned <= s.refs.Keys
    && |s.pc| < REFS_MASK
    && (forall n {:trigger NextKnown(s, n)} | n in s.next :: NextKnown(s, n))
  }

  ghost predicate Inv(s: State, g: Ghost) {
    && Shape(s, g)
    && Chain(s, g.list)
    && (forall n {:trigger NodeOk(s, g, n)} | n in s.refs :: NodeOk(s, g, n))
    && (forall t {:trigger ThreadOk(s, g, t)} | t in s.pc :: ThreadOk(s, g, t))
  }

  ghost predicate Safe(s: State) { exists g :: Inv(s, g) }

  // ----- Counting holders ------------------------------------------------------

  lemma HoldersUpdate(pc: map<Tid, Pc>, t: Tid, p: Pc, n: Node)
    requires t in pc
    ensures |Holders(pc[t := p], n)| + (if Holds(pc[t], n) then 1 else 0)
            == |Holders(pc, n)| + (if Holds(p, n) then 1 else 0)
  {
    var old', new' := Holders(pc, n), Holders(pc[t := p], n);
    assert new' - {t} == old' - {t};
    assert t in new' <==> Holds(p, n);
    assert t in old' <==> Holds(pc[t], n);
    assert |new'| == |new' - {t}| + (if t in new' then 1 else 0);
    assert |old'| == |old' - {t}| + (if t in old' then 1 else 0);
  }

  lemma HoldersBound(s: State, n: Node)
    ensures |Holders(s.pc, n)| <= |s.pc|
  {
    var hs, keys := Holders(s.pc, n), s.pc.Keys;
    assert hs <= keys;
    SubsetSize(hs, keys);
  }

  lemma SubsetSize(a: set<Tid>, b: set<Tid>)
    requires a <= b
    ensures |a| <= |b|
  {
    assert b == a + (b - a);
  }

  lemma HolderCounts(s: State, t: Tid, n: Node)
    requires t in s.pc && Holds(s.pc[t], n)
    ensures |Holders(s.pc, n)| >= 1
  {
    assert t in Holders(s.pc, n);
  }

  /** Moving thread `t` to `p` changes the holders of a node by the two obvious terms. */
  lemma HoldersAfter(s: State, t: Tid, p: Pc, n: Node)
    requires t in s.pc
    ensures |Holders(s.pc[t := p], n)| + (if Holds(s.pc[t], n) then 1 else 0)
            == |Holders(s.pc, n)| + (if Holds(p, n) then 1 else 0)
    ensures |Holders(s.pc, n)| <= |s.pc|
    ensures Holds(s.pc[t], n) ==> |Holders(s.pc, n)| >= 1
  {
    HoldersUpdate(s.pc, t, p, n);
    HoldersBound(s, n);
    if Holds(s.pc[t], n) { HolderCounts(s, t, n); }
  }

  // ----- Every step keeps the invariant ---------------------------------------

  /** `p` concerns no node but `n`. */
  predicate Only(p: Pc, n: Node) { Busy(p) ==> p.node == n }

  predicate UsesNext(p: Pc, n: Node) {
    (p.CasHead? || p.ZSetRefs? || p.ZCasHead?) && p.node == n
  }

  /** From `s` to `s'` only thread `t` moved and only node `n` was touched. */
  ghost predicate Touches(s: State, g: Ghost, s': State, g': Ghost, t: Tid, n: Node)
    requires t in s.pc && t in s'.pc
  {
    && s'.pc == s.pc[t := s'.pc[t]]
    && Only(s.pc[t], n) && Only(s'.pc[t], n)
    && s'.refs.Keys == s.refs.Keys && s'.next.Keys == s.next.Keys && g'.place.Keys == g.place.Keys
    && (forall m | m in s.refs && m != n :: s'.refs[m] == s.refs[m])
    && (forall m | m in s.next && m != n :: s'.next[m] == s.next[m])
    && (forall m | m in g.place && m != n :: g'.place[m] == g.place[m])
    && (forall m | m != n :: m in s'.owned <==> m in s.owned)
    && (forall m | m != n :: m in g'.list <==> m in g.list)
  }

  lemma OtherNode(s: State, g: Ghost, s': State, g': Ghost, t: Tid, n: Node, m: Node)
    requires Inv(s, g) && t in s.pc && t in s'.pc && Touches(s, g, s', g', t, n)
    requires m in s.refs && m != n
    ensures m in s'.refs && m in g'.place && NodeOk(s', g', m)
  {
    HoldersAfter(s, t, s'.pc[t], m);
    assert NodeOk(s, g, m);
    assert |Holders(s'.pc, m)| == |Holders(s.pc, m)|;
    if g.place[m].By? {
      assert g.place[m].t != t;
    }
  }

  lemma OtherThread(s: State, g: Ghost, s': State, g': Ghost, t: Tid, n: Node, u: Tid)
    requires Inv(s, g) && t in s.pc && t in s'.pc && Touches(s, g, s', g', t, n)
    requires forall v | v in s.pc && v != t && HasToken(s.pc[v], n) :: n in g'.place && g'.place[n] == By(v)
    requires s'.next == s.next || forall v | v in s.pc && v != t :: !UsesNext(s.pc[v], n)
    requires u in s.pc && u != t
    ensures u in s'.pc && s'.next.Keys == s'.refs.Keys == g'.place.Keys && ThreadOk(s', g', u)
  {
    assert ThreadOk(s, g, u);
  }

  /** It is enough to look at the thread that moved and the node that it touched. */
  lemma Assemble(s: State, g: Ghost, s': State, g': Ghost, t: Tid, n: Node)
    requires Inv(s, g) && t in s.pc && t in s'.pc && Touches(s, g, s', g', t, n)
    requires forall v | v in s.pc && v != t && HasToken(s.pc[v], n) :: n in g'.place && g'.place[n] == By(v)
    requires s'.next == s.next || forall v | v in s.pc && v != t :: !UsesNext(s.pc[v], n)
    requires Chain(s', g'.list) && ThreadOk(s', g', t)
    requires n in s.refs ==> NextKnown(s', n) && NodeOk(s', g', n)
    requires n in s'.owned ==> n in s.refs
    ensures Inv(s', g')
  {
    assert s'.pc.Keys == s.pc.Keys;
    assert |s'.pc| == |s'.pc.Keys| == |s.pc|;
    forall m | m in s'.next ensures NextKnown(s', m) { assert m != n ==> NextKnown(s, m); }
    forall m | m in s'.refs ensures NodeOk(s', g', m) {
      if m != n { OtherNode(s, g, s', g', t, n, m); }
    }
    forall u | u in s'.pc ensures ThreadOk(s', g', u) {
      if u != t { OtherThread(s, g, s', g', t, n, u); }
    }
  }

  /** A node that has a token in thread `t`, or is owned or listed, has none elsewhere. */
  lemma TokenUnique(s: State, g: Ghost, t: Tid, n: Node)
    requires Inv(s, g) && n in s.refs && (g.place[n] == By(t) || !g.place[n].By?)
    ensures forall v | v in s.pc && v != t :: !HasToken(s.pc[v], n)
  {
    forall v | v in s.pc && v != t ensures !HasToken(s.pc[v], n) {
      assert ThreadOk(s, g, v);
    }
  }

  lemma MoveKeepsInv(s: State, g: Ghost, t: Tid, p: Pc, n: Node)
    requires Inv(s, g) && t in s.pc && Only(s.pc[t], n) && Only(p, n)
    requires Holds(p, n) == Holds(s.pc[t], n) && RoleOf(p) == RoleOf(s.pc[t])
    requires LocalOk(s, p)
    ensures Inv(Goto(s, t, p), g)
  {
    var s' := Goto(s, t, p);
    if n in s.refs { MoveNode(s, g, t, p, n); }
    assert ThreadOk(s', g, t) by { assert ThreadOk(s, g, t); }
    TokensOfOthers(s, g, t, n);
    ChainFrame(s, s', g.list);
    assert n in s.refs ==> NextKnown(s, n);
    Assemble(s, g, s', g, t, n);
  }

  lemma TokensOfOthers(s: State, g: Ghost, t: Tid, n: Node)
    requires Inv(s, g) && t in s.pc
    ensures forall v | v in s.pc && v != t && HasToken(s.pc[v], n) :: n in g.place && g.place[n] == By(v)
  {
    forall v | v in s.pc && v != t && HasToken(s.pc[v], n)
      ensures n in g.place && g.place[n] == By(v)
    {
      assert ThreadOk(s, g, v);
    }
  }

  lemma MoveNode(s: State, g: Ghost, t: Tid, p: Pc, n: Node)
    requires Inv(s, g) && t in s.pc && n in s.refs && Only(s.pc[t], n) && Only(p, n)
    requires Holds(p, n) == Holds(s.pc[t], n) && RoleOf(p) == RoleOf(s.pc[t])
    ensures NodeOk(Goto(s, t, p), g, n)
  {
    HoldersAfter(s, t, p, n);
    assert NodeOk(s, g, n);
    assert |Holders(Goto(s, t, p).pc, n)| == |Holders(s.pc, n)|;
  }

  // ----- One lemma for each kind of step ---------------------------------------

  /** No addition or subtraction of the protocol leaves the 32-bit word. */
  lemma WordBound(s: State, g: Ghost, n: Node)
    requires Inv(s, g) && n in s.refs
    ensures Refs(s, n) < SHOULD_BE_ON_FREELIST + REFS_MASK
    ensures Refs(s, n) >= SHOULD_BE_ON_FREELIST
            ==> g.place[n] == Marked || (g.place[n].By? && g.place[n].t in s.pc && RoleOf(s.pc[g.place[n].t]) == Zeroer)
  {
    assert NodeOk(s, g, n);
    HoldersBound(s, n);
  }

  lemma SetRefsExact(s: State, n: Node, v: int)
    requires 0 <= v < WORD
    ensures SetRefs(s, n, v) == s.(refs := s.refs[n := v])
  {
  }

  /** A node keeps its place when its holders and its count change together. */
  lemma CountChange(s: State, g: Ghost, s': State, t: Tid, n: Node)
    requires Inv(s, g) && n in s.refs && t in s.pc && t in s'.pc
    requires s'.pc == s.pc[t := s'.pc[t]] && s'.owned == s.owned && n in s'.refs
    requires !HasToken(s.pc[t], n) && !HasToken(s'.pc[t], n)
    requires s'.refs[n] + |Holders(s.pc, n)| == s.refs[n] + |Holders(s'.pc, n)|
    requires s.refs[n] % (REFS_MASK + 1) != 0
    requires g.place[n] == Marked ==> |Holders(s'.pc, n)| > 0
    ensures NodeOk(s', g, n)
  {
    assert NodeOk(s, g, n);
  }

  /** Where the nodes are after thread `t` has taken its next step. */
  ghost function GhostNext(s: State, t: Tid, g: Ghost): Ghost
    requires t in s.pc
  {
    match s.pc[t]
    case CasHead(n, _) =>
      if s.head == At(n) && |g.list| > 0 then Ghost(g.list[1..], g.place[n := By(t)]) else g
    case DropTwo(n) => g.(place := g.place[n := Owned])
    case DropOne(n, _) =>
      if Refs(s, n) == SHOULD_BE_ON_FREELIST + 1 then g.(place := g.place[n := By(t)]) else g
    case AddFlag(n) =>
      if Refs(s, n) == 0 then g else g.(place := g.place[n := Marked])
    case ZCasHead(n, h, _) =>
      if s.head == h then Ghost([n] + g.list, g.place[n := Listed]) else g
    case ZRetry(n, _, _) =>
      if Refs(s, n) == 1 then g else g.(place := g.place[n := Marked])
    case _ => g
  }

  lemma BeginKeepsInv(s: State, t: Tid, n: Node, g: Ghost)
    requires Inv(s, g) && t in s.pc && s.pc[t].Idle? && n in s.owned
    ensures Inv(BeginAdd(s, t, n), g.(place := g.place[n := By(t)]))
  {
    HoldersAfter(s, t, AddFlag(n), n);
    assert NodeOk(s, g, n);
    TokenUnique(s, g, t, n);
    var s', g' := BeginAdd(s, t, n), g.(place := g.place[n := By(t)]);
    ChainFrame(s, s', g.list);
    assert NextKnown(s, n);
    assert NodeOk(s', g', n);
    Assemble(s, g, s', g', t, n);
  }

  lemma TryGetKeepsInv(s: State, t: Tid, g: Ghost)
    requires Inv(s, g) && t in s.pc
    requires s.pc[t].LoadHead? || s.pc[t].Test? || s.pc[t].ReadNext? || s.pc[t].ZLoadHead?
    ensures Inv(Next(s, t), g)
  {
    var p := Next(s, t).pc[t];
    assert ThreadOk(s, g, t);
    if p.TryRef? { WordBound(s, g, p.node); }
    HeadKnown(s, g);
    MoveKeepsInv(s, g, t, p, if Busy(p) then p.node else if Busy(s.pc[t]) then s.pc[t].node else 0);
  }

  lemma TryRefNode(s: State, t: Tid, g: Ghost)
    requires Inv(s, g) && t in s.pc && s.pc[t].TryRef? && Refs(s, s.pc[t].node) == s.pc[t].refs
    ensures var n := s.pc[t].node;
            n in s.refs && n in g.place && n in Next(s, t).refs && NodeOk(Next(s, t), g, n)
  {
    hide Chain;
    var n := s.pc[t].node;
    assert ThreadOk(s, g, t) && NodeOk(s, g, n);
    HoldersAfter(s, t, ReadNext(n), n);
    WordBound(s, g, n);
    SetRefsExact(s, n, Refs(s, n) + 1);
    CountChange(s, g, Next(s, t), t, n);
  }

  lemma TryRefKeepsInv(s: State, t: Tid, g: Ghost)
    requires Inv(s, g) && t in s.pc && s.pc[t].TryRef?
    ensures Inv(Next(s, t), g)
  {
    hide NodeOk, RefsOk, Chain;
    var n, s' := s.pc[t].node, Next(s, t);
    assert ThreadOk(s, g, t);
    if Refs(s, n) != s.pc[t].refs {
      MoveKeepsInv(s, g, t, LoadHead, n);
    } else {
      TryRefNode(s, t, g);
      TokensOfOthers(s, g, t, n);
      ChainFrame(s, s', g.list);
      assert NextKnown(s, n);
      Assemble(s, g, s', g, t, n);
    }
  }

  lemma CasHeadKeepsInv(s: State, t: Tid, g: Ghost)
    requires Inv(s, g) && t in s.pc && s.pc[t].CasHead?
    ensures Inv(Next(s, t), GhostNext(s, t, g))
  {
    var n, s', g' := s.pc[t].node, Next(s, t), GhostNext(s, t, g);
    assert ThreadOk(s, g, t) && NodeOk(s, g, n);
    if s.head != At(n) {
      HeadKnown(s, g);
      MoveKeepsInv(s, g, t, s'.pc[t], n);
    } else {
      HoldersAfter(s, t, s'.pc[t], n);
      assert g.list[0] == n;
      TokenUnique(s, g, t, n);
      ChainPop(s, s', g.list);
      assert NextKnown(s, n);
      assert NodeOk(s', g', n);
      Assemble(s, g, s', g', t, n);
    }
  }

  lemma ChainFrame(s: State, s': State, list: seq<Node>)
    requires Chain(s, list) && s'.head == s.head
    requires forall m | m in list :: m in s.next ==> m in s'.next && s'.next[m] == s.next[m]
    ensures Chain(s', list)
  {
    forall i | 0 <= i < |list| ensures LinkOk(s', list, i) { assert LinkOk(s, list, i); }
  }

  lemma HeadKnown(s: State, g: Ghost)
    requires Inv(s, g)
    ensures Known(s, s.head)
  {
    if s.head.At? { assert LinkOk(s, g.list, 0); }
  }

  lemma ChainPop(s: State, s': State, list: seq<Node>)
    requires Chain(s, list) && |list| > 0 && s'.next == s.next && s'.head == NextOf(s, list[0])
    ensures Chain(s', list[1..])
    ensures list[0] !in list[1..]
    ensures forall m :: m != list[0] ==> (m in list[1..] <==> m in list)
  {
    assert list == [list[0]] + list[1..];
    assert LinkOk(s, list, 0);
    forall i | 0 <= i < |list[1..]| ensures LinkOk(s', list[1..], i) { assert LinkOk(s, list, i + 1); }
  }

  lemma DropTwoKeepsInv(s: State, t: Tid, g: Ghost)
    requires Inv(s, g) && t in s.pc && s.pc[t].DropTwo?
    ensures Inv(Next(s, t), GhostNext(s, t, g))
  {
    var n, s', g' := s.pc[t].node, Next(s, t), GhostNext(s, t, g);
    assert ThreadOk(s, g, t) && NodeOk(s, g, n);
    HoldersAfter(s, t, Idle, n);
    TokenUnique(s, g, t, n);
    ChainFrame(s, s', g.list);
    assert NextKnown(s, n);
    assert NodeOk(s', g', n);
    Assemble(s, g, s', g', t, n);
  }

  /** The last holder of a marked node takes it in hand; otherwise only the count changes. */
  lemma DropOneNode(s: State, t: Tid, g: Ghost)
    requires Inv(s, g) && t in s.pc && s.pc[t].DropOne?
    ensures var n := s.pc[t].node;
            && n in s.refs && n in g.place && n in GhostNext(s, t, g).place
            && NodeOk(Next(s, t), GhostNext(s, t, g), n)
            && (GhostNext(s, t, g).place[n] == g.place[n] || !g.place[n].By?)
  {
    hide Chain;
    var n, s' := s.pc[t].node, Next(s, t);
    assert ThreadOk(s, g, t) && NodeOk(s, g, n);
    HoldersAfter(s, t, s'.pc[t], n);
  }

  lemma DropOneKeepsInv(s: State, t: Tid, g: Ghost)
    requires Inv(s, g) && t in s.pc && s.pc[t].DropOne?
    ensures Inv(Next(s, t), GhostNext(s, t, g))
  {
    hide NodeOk, RefsOk, Chain;
    var n, s', g' := s.pc[t].node, Next(s, t), GhostNext(s, t, g);
    assert ThreadOk(s, g, t);
    DropOneNode(s, t, g);
    TokensOfOthers(s, g, t, n);
    ChainFrame(s, s', g.list);
    assert NextKnown(s, n);
    Assemble(s, g, s', g', t, n);
  }

  lemma AddFlagNode(s: State, t: Tid, g: Ghost)
    requires Inv(s, g) && t in s.pc && s.pc[t].AddFlag?
    ensures var n := s.pc[t].node;
            && n in s.refs && g.place[n] == By(t) && n in GhostNext(s, t, g).place
            && NodeOk(Next(s, t), GhostNext(s, t, g), n) && n !in s.owned
  {
    hide Chain;
    var n, s' := s.pc[t].node, Next(s, t);
    assert ThreadOk(s, g, t) && NodeOk(s, g, n);
    HoldersAfter(s, t, s'.pc[t], n);
  }

  lemma AddFlagKeepsInv(s: State, t: Tid, g: Ghost)
    requires Inv(s, g) && t in s.pc && s.pc[t].AddFlag?
    ensures Inv(Next(s, t), GhostNext(s, t, g))
  {
    hide NodeOk, RefsOk, Chain;
    var n, s', g' := s.pc[t].node, Next(s, t), GhostNext(s, t, g);
    assert ThreadOk(s, g, t);
    AddFlagNode(s, t, g);
    TokenUnique(s, g, t, n);
    ChainFrame(s, s', g.list);
    assert NextKnown(s, n);
    Assemble(s, g, s', g', t, n);
  }

  lemma ZeroedNode(s: State, t: Tid, g: Ghost)
    requires Inv(s, g) && t in s.pc && (s.pc[t].ZSetNext? || s.pc[t].ZSetRefs?)
    ensures var n := s.pc[t].node;
            && n in s.refs && g.place[n] == By(t) && NodeOk(Next(s, t), g, n) && n !in s.owned && n !in g.list
            && |Holders(s.pc, n)| == 0
  {
    hide Chain;
    var n, s' := s.pc[t].node, Next(s, t);
    assert ThreadOk(s, g, t) && NodeOk(s, g, n);
    HoldersAfter(s, t, s'.pc[t], n);
  }

  /** While the count is zero nobody but the thread that zeroed it uses the node's `next`. */
  lemma ZeroedKeepsInv(s: State, t: Tid, g: Ghost)
    requires Inv(s, g) && t in s.pc && (s.pc[t].ZSetNext? || s.pc[t].ZSetRefs?)
    ensures Inv(Next(s, t), g)
  {
    hide NodeOk, RefsOk, Chain;
    var n, s' := s.pc[t].node, Next(s, t);
    assert ThreadOk(s, g, t);
    ZeroedNode(s, t, g);
    TokenUnique(s, g, t, n);
    forall v | v in s.pc && v != t ensures !UsesNext(s.pc[v], n) {
      if Holds(s.pc[v], n) { HolderCounts(s, v, n); }
    }
    ChainFrame(s, s', g.list);
    assert NextKnown(s, n);
    Assemble(s, g, s', g, t, n);
  }

  lemma ZCasHeadKeepsInv(s: State, t: Tid, g: Ghost)
    requires Inv(s, g) && t in s.pc && s.pc[t].ZCasHead?
    ensures Inv(Next(s, t), GhostNext(s, t, g))
  {
    var n, s', g' := s.pc[t].node, Next(s, t), GhostNext(s, t, g);
    assert ThreadOk(s, g, t) && NodeOk(s, g, n);
    if s.head != s.pc[t].head {
      HeadKnown(s, g);
      MoveKeepsInv(s, g, t, s'.pc[t], n);
    } else {
      HoldersAfter(s, t, s'.pc[t], n);
      TokenUnique(s, g, t, n);
      ChainPush(s, s', g.list, n);
      assert NextKnown(s, n);
      assert NodeOk(s', g', n);
      Assemble(s, g, s', g', t, n);
    }
  }

  lemma ChainPush(s: State, s': State, list: seq<Node>, n: Node)
    requires Chain(s, list) && n !in list && n in s.next && s.next[n] == s.head
    requires s'.next == s.next && s'.head == At(n)
    ensures Chain(s', [n] + list)
    ensures forall m :: m != n ==> (m in [n] + list <==> m in list)
  {
    forall i | 0 <= i < |[n] + list| ensures LinkOk(s', [n] + list, i) {
      if i > 0 { assert LinkOk(s, list, i - 1); }
    }
  }

  lemma ZRetryNode(s: State, t: Tid, g: Ghost)
    requires Inv(s, g) && t in s.pc && s.pc[t].ZRetry?
    ensures var n := s.pc[t].node;
            && n in s.refs && g.place[n] == By(t) && n in GhostNext(s, t, g).place
            && NodeOk(Next(s, t), GhostNext(s, t, g), n) && n !in s.owned
  {
    hide Chain;
    var n, s' := s.pc[t].node, Next(s, t);
    assert ThreadOk(s, g, t) && NodeOk(s, g, n);
    HoldersAfter(s, t, s'.pc[t], n);
  }

  lemma ZRetryKeepsInv(s: State, t: Tid, g: Ghost)
    requires Inv(s, g) && t in s.pc && s.pc[t].ZRetry?
    ensures Inv(Next(s, t), GhostNext(s, t, g))
  {
    hide NodeOk, RefsOk, Chain;
    var n, s', g' := s.pc[t].node, Next(s, t), GhostNext(s, t, g);
    assert ThreadOk(s, g, t);
    ZRetryNode(s, t, g);
    TokenUnique(s, g, t, n);
    ChainFrame(s, s', g.list);
    assert NextKnown(s, n);
    Assemble(s, g, s', g', t, n);
  }

  lemma StepKeepsInv(s: State, t: Tid, s': State, g: Ghost)
    requires Inv(s, g) && t in s.pc && Step(s, t, s')
    ensures Safe(s')
  {
    match s.pc[t]
    case Idle =>
      if s' == Goto(s, t, LoadHead) {
        MoveKeepsInv(s, g, t, LoadHead, 0);
      } else {
        var n :| n in s.owned && s' == BeginAdd(s, t, n);
        BeginKeepsInv(s, t, n, g);
      }
    case LoadHead => TryGetKeepsInv(s, t, g);
    case Test(_) => TryGetKeepsInv(s, t, g);
    case ReadNext(_) => TryGetKeepsInv(s, t, g);
    case ZLoadHead(_, _) => TryGetKeepsInv(s, t, g);
    case TryRef(_, _) => TryRefKeepsInv(s, t, g);
    case CasHead(_, _) => CasHeadKeepsInv(s, t, g);
    case DropTwo(_) => DropTwoKeepsInv(s, t, g);
    case DropOne(_, _) => DropOneKeepsInv(s, t, g);
    case AddFlag(_) => AddFlagKeepsInv(s, t, g);
    case ZSetNext(_, _, _) => ZeroedKeepsInv(s, t, g);
    case ZSetRefs(_, _, _) => ZeroedKeepsInv(s, t, g);
    case ZCasHead(_, _, _) => ZCasHeadKeepsInv(s, t, g);
    case ZRetry(_, _, _) => ZRetryKeepsInv(s, t, g);
  }

  lemma InitInv(s: State)
    requires Init(s)
    ensures Inv(s, Ghost([], map n | n in s.refs :: Owned))
  {
    var g := Ghost([], map n | n in s.refs :: Owned);
    forall n | n in s.refs ensures NodeOk(s, g, n) {
      assert Holders(s.pc, n) == {};
    }
    forall t | t in s.pc ensures ThreadOk(s, g, t) {
    }
    forall n | n in s.next ensures NextKnown(s, n) {
      assert s.next[n] == Null;
    }
  }

  // ----- What holds in every state of every run ---------------------------------

  /** The invariant holds at the end of every run, of any length and any interleaving. */
  lemma {:induction false} RunInv(run: seq<State>)
    requires Run(run)
    ensures Safe(Last(run))
  {
    if |run| == 1 {
      InitInv(run[0]);
    } else {
      var prefix := run[..|run| - 1];
      assert Run(prefix) by {
        forall i | 0 <= i < |prefix| - 1 ensures Steps(prefix[i], prefix[i + 1]) {
          assert Steps(run[i], run[i + 1]);
        }
      }
      RunInv(prefix);
      var s, s' := run[|run| - 2], run[|run| - 1];
      var g :| Inv(s, g);
      assert Steps(run[|run| - 2], run[|run| - 2 + 1]);
      var t :| t in s.pc && Step(s, t, s');
      StepKeepsInv(s, t, s', g);
    }
  }

  ghost predicate OnList(s: State, n: Node) { exists list :: Chain(s, list) && n in list }

  /** The nodes reachable from the head are determined by the links. */
  lemma ChainUnique(s: State, a: seq<Node>, b: seq<Node>, k: nat)
    requires Chain(s, a) && Chain(s, b) && k <= |a|
    ensures k <= |b| && a[..k] == b[..k]
  {
    if k > 0 {
      ChainUnique(s, a, b, k - 1);
      if k > 1 { assert LinkOk(s, a, k - 2) && LinkOk(s, b, k - 2); }
      assert a[..k] == a[..k - 1] + [a[k - 1]];
      assert PtrAt(a, k - 1) == PtrAt(b, k - 1);
    }
  }

  lemma OnListExact(s: State, g: Ghost, n: Node)
    requires Inv(s, g)
    ensures OnList(s, n) <==> n in g.list
  {
    if OnList(s, n) {
      var list :| Chain(s, list) && n in list;
      ChainUnique(s, list, g.list, |list|);
      ChainUnique(s, g.list, list, |g.list|);
    }
  }

  /** The links from the head form one finite chain without repetition, so a node is on the
      list at most once, and no node on it is with a client or being added or removed. */
  lemma ListedOnce(run: seq<State>)
    requires Run(run)
    ensures var s := Last(run);
            && (exists list :: Chain(s, list))
            && (forall n | OnList(s, n) :: n in s.refs && n !in s.owned && forall t | t in s.pc :: !HasToken(s.pc[t], n))
  {
    RunInv(run);
    var s := Last(run);
    var g :| Inv(s, g);
    assert Chain(s, g.list);
    forall n | OnList(s, n)
      ensures n in s.refs && n !in s.owned && forall t | t in s.pc :: !HasToken(s.pc[t], n)
    {
      OnListExact(s, g, n);
      var i :| 0 <= i < |g.list| && g.list[i] == n;
      assert LinkOk(s, g.list, i);
      assert NodeOk(s, g, n);
      forall t | t in s.pc ensures !HasToken(s.pc[t], n) { assert ThreadOk(s, g, t); }
    }
  }

  /** When `try_get` is about to return a node, no client owns it, it is off the list, no other
      thread is removing or adding it, and its should-be-on-list bit is clear: the node gets
      exactly one new owner. */
  lemma NoSecondOwner(run: seq<State>, t: Tid)
    requires Run(run) && t in Last(run).pc && Last(run).pc[t].DropTwo?
    ensures var s := Last(run);
            var n := s.pc[t].node;
            && n !in s.owned && !OnList(s, n)
            && Refs(s, n) < SHOULD_BE_ON_FREELIST
            && (forall u | u in s.pc && u != t :: !HasToken(s.pc[u], n))
  {
    RunInv(run);
    var s := Last(run);
    var g :| Inv(s, g);
    var n := s.pc[t].node;
    assert ThreadOk(s, g, t);
    assert NodeOk(s, g, n);
    HoldersBound(s, n);
    TokenUnique(s, g, t, n);
    OnListExact(s, g, n);
  }

  /** The low 31 bits of `freeListRefs` are the references that threads hold, plus the one of
      the list when the node is on it, is just being linked, or has just been unlinked. */
  lemma CountsExact(run: seq<State>, n: Node)
    requires Run(run) && n in Last(run).refs
    ensures var s := Last(run);
            Refs(s, n) % (REFS_MASK + 1)
            == |Holders(s.pc, n)|
               + (if OnList(s, n) || exists t | t in s.pc :: HasToken(s.pc[t], n) && RoleOf(s.pc[t]) in {Linker, Popper}
                  then 1 else 0)
  {
    RunInv(run);
    var s := Last(run);
    var g :| Inv(s, g);
    assert NodeOk(s, g, n);
    HoldersBound(s, n);
    OnListExact(s, g, n);
    TokensOfOthersAll(s, g, n);
  }

  lemma TokensOfOthersAll(s: State, g: Ghost, n: Node)
    requires Inv(s, g)
    ensures forall v | v in s.pc && HasToken(s.pc[v], n) :: n in g.place && g.place[n] == By(v)
  {
    forall v | v in s.pc && HasToken(s.pc[v], n)
      ensures n in g.place && g.place[n] == By(v)
    {
      assert ThreadOk(s, g, v);
    }
  }

  /** A node that should be on the list and still has references is held by some thread that
      is not taking it; every holder lets go of it in its next steps, and the last one to do
      so adds the node to the list. */
  lemma MarkedHasHolder(run: seq<State>, n: Node)
    requires Run(run) && n in Last(run).refs
    requires Refs(Last(run), n) > SHOULD_BE_ON_FREELIST
    ensures var s := Last(run);
            && |Holders(s.pc, n)| == Refs(s, n) - SHOULD_BE_ON_FREELIST
            && forall t | t in Holders(s.pc, n) :: LetsGo(s, t, n)
  {
    RunInv(run);
    var s := Last(run);
    var g :| Inv(s, g);
    assert NodeOk(s, g, n);
    HoldersBound(s, n);
    forall t | t in Holders(s.pc, n) ensures LetsGo(s, t, n) { HolderLetsGo(s, g, t, n); }
  }

  /** A holder of node `n` moves on towards dropping its reference; if it is the only holder
      and drops it, it goes on to add the node. */
  ghost predicate LetsGo(s: State, t: Tid, n: Node)
    requires t in s.pc
  {
    var p' := Next(s, t).pc[t];
    match s.pc[t]
    case ReadNext(_) => p' == CasHead(n, NextOf(s, n))
    case CasHead(_, _) => p' == DropOne(n, s.head)
    case DropOne(_, h) => p' == if Holders(s.pc, n) == {t} then ZLoadHead(n, Continue(h)) else Test(h)
    case _ => false
  }

  lemma HeadListed(s: State, g: Ghost)
    requires Inv(s, g)
    ensures s.head.At? ==> s.head.node in g.list
  {
    if s.head.At? { assert s.head == PtrAt(g.list, 0); }
  }

  lemma HolderLetsGo(s: State, g: Ghost, t: Tid, n: Node)
    requires Inv(s, g) && n in s.refs && g.place[n] == Marked && t in s.pc && Holds(s.pc[t], n)
    ensures LetsGo(s, t, n)
  {
    assert ThreadOk(s, g, t) && NodeOk(s, g, n);
    HeadListed(s, g);
    var hs := Holders(s.pc, n);
    assert t in hs;
    assert hs == (hs - {t}) + {t};
    assert |hs| == |hs - {t}| + 1;
    assert hs == {t} <==> |hs| == 1;
  }

  /** No block is lost: when no operation is in flight, every node is either with a client,
      with no references, or on the list, with exactly the list's reference. */
  lemma NothingLostWhenQuiet(run: seq<State>)
    requires Run(run)
    requires Quiet(Last(run))
    ensures var s := Last(run);
            forall n | n in s.refs ::
              && (n in s.owned <==> !OnList(s, n))
              && Refs(s, n) == if n in s.owned then 0 else 1
  {
    RunInv(run);
    var s := Last(run);
    var g :| Inv(s, g);
    forall n | n in s.refs
      ensures n in s.owned <==> !OnList(s, n)
      ensures Refs(s, n) == if n in s.owned then 0 else 1
    {
      assert NodeOk(s, g, n);
      assert Holders(s.pc, n) == {};
      OnListExact(s, g, n);
    }
  }
}
