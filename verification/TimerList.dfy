/** The timers of a scheduler thread: an intrusive doubly linked list
    (libs/async/src/list.cpp:39-80) kept in the order of the deadlines
    (libs/async/src/thread.cpp:246-324).  Each method runs under the lock of the list. */
module TimerList {
  /** A timer with the list item embedded in it; the deadline is fixed while it is listed. */
  class Timer {
    const dd: int
    const armed: bool
    var prev: Timer?
    var next: Timer?

    constructor (dd: int, armed: bool)
      ensures this.dd == dd && this.armed == armed && prev == null && next == null
    {
      this.dd, this.armed := dd, armed;
      prev, next := null, null;
    }
  }

  predicate Unique(s: seq<Timer>) { forall i, j :: 0 <= i < j < |s| ==> s[i] != s[j] }

  predicate Sorted(s: seq<Timer>) { forall i, j :: 0 <= i < j < |s| ==> s[i].dd <= s[j].dd }

  function At(s: seq<Timer>, i: int): Timer? { if 0 <= i < |s| then s[i] else null }

  function InsertAt<T>(s: seq<T>, k: nat, t: T): seq<T>
    requires k <= |s|
  {
    s[..k] + [t] + s[k..]
  }

  function RemoveAt<T>(s: seq<T>, k: nat): seq<T>
    requires k < |s|
  {
    s[..k] + s[k + 1..]
  }

  // ----- Links ----------------------------------------------------------------------------

  datatype Link = Link(prev: Timer?, next: Timer?)

  ghost function Links(s: seq<Timer>): (r: seq<Link>)
    reads s
    ensures |r| == |s| && forall i :: 0 <= i < |s| ==> r[i] == Link(s[i].prev, s[i].next)
  {
    seq(|s|, i requires 0 <= i < |s| reads s => Link(s[i].prev, s[i].next))
  }

  ghost predicate Chained(s: seq<Timer>, links: seq<Link>) {
    && |links| == |s|
    && forall i :: 0 <= i < |s| ==> links[i] == Link(At(s, i - 1), At(s, i + 1))
  }

  /** `links` with the neighbours of position `k` turned to `t`. */
  function SetNext(links: seq<Link>, k: int, t: Timer?): seq<Link> {
    if 0 <= k < |links| then links[k := links[k].(next := t)] else links
  }

  function SetPrev(links: seq<Link>, k: int, t: Timer?): seq<Link> {
    if 0 <= k < |links| then links[k := links[k].(prev := t)] else links
  }

  lemma InsertGet<T>(s: seq<T>, k: nat, t: T)
    requires k <= |s|
    ensures var r := InsertAt(s, k, t);
            && |r| == |s| + 1 && r[k] == t
            && (forall i :: 0 <= i < k ==> r[i] == s[i]) && (forall i :: k < i < |r| ==> r[i] == s[i - 1])
  {
  }

  lemma RemoveGet<T>(s: seq<T>, k: nat)
    requires k < |s|
    ensures var r := RemoveAt(s, k);
            && |r| == |s| - 1
            && (forall i :: 0 <= i < k ==> r[i] == s[i]) && (forall i :: k <= i < |r| ==> r[i] == s[i + 1])
  {
  }

  lemma InsertChained(s: seq<Timer>, links: seq<Link>, k: nat, t: Timer)
    requires Chained(s, links) && k <= |s|
    ensures Chained(InsertAt(s, k, t), InsertAt(SetPrev(SetNext(links, k - 1, t), k, t), k, Link(At(s, k - 1), At(s, k))))
  {
    hide InsertAt;
    var turned := SetPrev(SetNext(links, k - 1, t), k, t);
    InsertGet(s, k, t);
    InsertGet(turned, k, Link(At(s, k - 1), At(s, k)));
  }

  lemma RemoveChained(s: seq<Timer>, links: seq<Link>, k: nat)
    requires Chained(s, links) && k < |s|
    ensures Chained(RemoveAt(s, k), RemoveAt(SetPrev(SetNext(links, k - 1, At(s, k + 1)), k + 1, At(s, k - 1)), k))
  {
    hide RemoveAt;
    RemoveGet(s, k);
    RemoveGet(SetPrev(SetNext(links, k - 1, At(s, k + 1)), k + 1, At(s, k - 1)), k);
  }

  // ----- The list -----------------------------------------------------------------------------

  class List {
    var first: Timer?
    var last: Timer?
    ghost var items: seq<Timer>

    ghost predicate Valid()
      reads this, items
    {
      && Unique(items) && Chained(items, Links(items))
      && first == At(items, 0) && last == At(items, |items| - 1)
    }

    /** `mill_list_init`. */
    constructor ()
      ensures Valid() && items == []
    {
      first, last, items := null, null, [];
    }

    /** What the list says about the neighbours of position `k`. */
    lemma Neighbours(k: nat)
      requires Valid() && k <= |items|
      ensures k < |items| ==> items[k].prev == At(items, k - 1) && items[k].next == At(items, k + 1)
      ensures k == |items| ==> last == At(items, k - 1)
    {
      if k < |items| { assert Links(items)[k] == Link(items[k].prev, items[k].next); }
    }

    /** `mill_list_insert`, before `it` or at the end. */
    method Insert(item: Timer, it: Timer?, ghost k: nat)
      requires Valid() && item !in items && k <= |items| && it == At(items, k)
      modifies this, items, item
      ensures Valid() && items == InsertAt(old(items), k, item)
    {
      hide Chained, Unique, InsertAt, SetNext, SetPrev, Links;
      ghost var links, before := Links(items), items;
      InsertChained(items, links, k, item);
      InsertShape(items, k, item);
      Neighbours(k);
      LinkIn(items, item, it, if it != null then it.prev else last, k);
      if first == null || first == it { first := item; }
      if it == null { last := item; }
      items := InsertAt(items, k, item);
      LinksInsert(before, k, item);
    }

    /** `mill_list_erase`.  An item that is in no list has no neighbours, and erasing it
        empties the list: the erasure is right only for an item of the list, or when there is
        none. */
    method Erase(item: Timer, ghost k: nat) returns (nxt: Timer?)
      requires Valid() && k <= |items|
      requires if k < |items| then item == items[k] else item !in items && item.prev == null && item.next == null
      modifies this, items, item
      ensures Valid() && item.prev == null && item.next == null
      ensures items == if k < |old(items)| then RemoveAt(old(items), k) else []
      ensures nxt == At(old(items), k + 1)
    {
      hide Chained, Unique, RemoveAt, SetNext, SetPrev, Links;
      ghost var links, before := Links(items), items;
      Neighbours(k);
      nxt := item.next;
      var prv := item.prev;
      if k < |items| {
        RemoveChained(items, links, k);
        RemoveShape(items, k);
      } else {
        NothingListed();
      }
      if prv == null { first := nxt; }
      if nxt == null { last := prv; }
      LinkOut(items, prv, nxt, if k < |items| then k - 1 else -1, k + 1);
      ghost var turned := Links(items);
      item.prev := null;
      item.next := null;
      items := if k < |items| then RemoveAt(items, k) else [];
      if k < |before| { LinksRemove(before, turned, k, item); }
    }
  }

  /** The stores into the item and its neighbours. */
  method LinkIn(ghost s: seq<Timer>, item: Timer, it: Timer?, before: Timer?, ghost k: nat)
    requires Unique(s) && item !in s && k <= |s| && it == At(s, k) && before == At(s, k - 1)
    modifies s, item
    ensures item.prev == before && item.next == it
    ensures Links(s) == SetPrev(SetNext(old(Links(s)), k - 1, item), k, item)
  {
    hide Unique, SetNext, SetPrev, Links;
    ghost var links := Links(s);
    item.prev := before;
    item.next := it;
    assert Links(s) == links;
    TurnNext(s, k - 1, item.prev, item);
    TurnPrev(s, k, item.next, item);
  }

  /** The stores into the neighbours of an item. */
  method LinkOut(ghost s: seq<Timer>, prv: Timer?, nxt: Timer?, ghost i: int, ghost j: nat)
    requires Unique(s) && i < |s| && prv == At(s, i) && nxt == At(s, j)
    modifies s
    ensures Links(s) == SetPrev(SetNext(old(Links(s)), i, nxt), j, prv)
  {
    hide Unique, SetNext, SetPrev, Links;
    TurnNext(s, i, prv, nxt);
    TurnPrev(s, j, nxt, prv);
  }

  lemma NothingListed()
    ensures Unique([]) && Chained([], Links([]))
  {
  }

  /** The stores into a neighbour, if there is one. */
  method TurnNext(ghost s: seq<Timer>, ghost k: int, node: Timer?, t: Timer?)
    requires Unique(s) && k < |s| && node == At(s, k)
    modifies s
    ensures Links(s) == SetNext(old(Links(s)), k, t)
  {
    if node != null { node.next := t; }
    assert Links(s) == SetNext(old(Links(s)), k, t);
  }

  method TurnPrev(ghost s: seq<Timer>, ghost k: int, node: Timer?, t: Timer?)
    requires Unique(s) && 0 <= k && node == At(s, k)
    modifies s
    ensures Links(s) == SetPrev(old(Links(s)), k, t)
  {
    if node != null { node.prev := t; }
    assert Links(s) == SetPrev(old(Links(s)), k, t);
  }

  lemma LinksInsert(s: seq<Timer>, k: nat, item: Timer)
    requires k <= |s|
    ensures Links(InsertAt(s, k, item)) == InsertAt(Links(s), k, Link(item.prev, item.next))
  {
  }

  lemma LinksRemove(s: seq<Timer>, links: seq<Link>, k: nat, item: Timer)
    requires Unique(s) && k < |s| && item == s[k] && |links| == |s|
    requires forall i :: 0 <= i < |s| && i != k ==> links[i] == Link(s[i].prev, s[i].next)
    ensures Links(RemoveAt(s, k)) == RemoveAt(links, k)
  {
  }

  lemma InsertShape(s: seq<Timer>, k: nat, item: Timer)
    requires Unique(s) && k <= |s| && item !in s
    ensures var r := InsertAt(s, k, item);
            && Unique(r)
            && At(r, 0) == (if s == [] || k == 0 then item else At(s, 0))
            && At(r, |r| - 1) == (if k == |s| then item else At(s, |s| - 1))
            && (k > 0 ==> At(s, k) != At(s, 0) || s == [])
  {
    var r := InsertAt(s, k, item);
    forall i, j | 0 <= i < j < |r| ensures r[i] != r[j] {
      var a, b := if i < k then i else i - 1, if j < k then j else j - 1;
      if i != k && j != k { assert r[i] == s[a] && r[j] == s[b]; }
      else if i == k { assert r[j] == s[b] && s[b] in s; }
      else { assert r[i] == s[a] && s[a] in s; }
    }
  }

  lemma RemoveShape(s: seq<Timer>, k: nat)
    requires Unique(s) && k < |s|
    ensures var r := RemoveAt(s, k);
            && Unique(r) && (forall i :: 0 <= i < |s| && i != k ==> s[i] != s[k])
            && At(r, 0) == (if k == 0 then At(s, 1) else At(s, 0))
            && At(r, |r| - 1) == (if k == |s| - 1 then At(s, k - 1) else At(s, |s| - 1))
  {
  }

  // ----- The order of the timers ----------------------------------------------------------------

  /** The first position whose deadline is later than `dd`. */
  function Place(s: seq<Timer>, dd: int): (k: nat)
    ensures k <= |s|
  {
    if s == [] || dd < s[0].dd then 0 else 1 + Place(s[1..], dd)
  }

  function Added(s: seq<Timer>, t: Timer): seq<Timer> { InsertAt(s, Place(s, t.dd), t) }

  lemma {:induction false} PlaceSplits(s: seq<Timer>, dd: int)
    requires Sorted(s)
    ensures forall i :: 0 <= i < Place(s, dd) ==> s[i].dd <= dd
    ensures forall i :: Place(s, dd) <= i < |s| ==> dd < s[i].dd
  {
    if s != [] && s[0].dd <= dd {
      PlaceSplits(s[1..], dd);
      forall i | 0 <= i < Place(s, dd) ensures s[i].dd <= dd { if i > 0 { assert s[i] == s[1..][i - 1]; } }
      forall i | Place(s, dd) <= i < |s| ensures dd < s[i].dd { assert s[i] == s[1..][i - 1]; }
    }
  }

  /** A new timer goes behind all timers that are due no later and before all others: the list
      stays sorted, and equal deadlines stay in the order of arrival. */
  lemma AddedStable(s: seq<Timer>, t: Timer)
    requires Sorted(s)
    ensures var r, k := Added(s, t), Place(s, t.dd);
            && Sorted(r) && multiset(r) == multiset(s) + multiset{t}
            && r[k] == t && r[..k] == s[..k] && r[k + 1..] == s[k..]
            && (forall i :: 0 <= i < k ==> r[i].dd <= t.dd)
            && (forall i :: k < i < |r| ==> t.dd < r[i].dd)
  {
    PlaceSplits(s, t.dd);
    InsertSorted(s, Place(s, t.dd), t);
  }

  lemma InsertSorted(s: seq<Timer>, k: nat, t: Timer)
    requires Sorted(s) && k <= |s|
    requires forall i :: 0 <= i < k ==> s[i].dd <= t.dd
    requires forall i :: k <= i < |s| ==> t.dd < s[i].dd
    ensures var r := InsertAt(s, k, t);
            && Sorted(r) && multiset(r) == multiset(s) + multiset{t}
            && r[k] == t && r[..k] == s[..k] && r[k + 1..] == s[k..]
            && (forall i :: 0 <= i < k ==> r[i].dd <= t.dd)
            && (forall i :: k < i < |r| ==> t.dd < r[i].dd)
  {
    var r := InsertAt(s, k, t);
    InsertParts(s, k, t);
    forall i, j | 0 <= i < j < |r| ensures r[i].dd <= r[j].dd {
      var a, b := if i < k then i else i - 1, if j < k then j else j - 1;
      assert i != k ==> r[i] == s[a];
      assert j != k ==> r[j] == s[b];
    }
  }

  lemma InsertParts(s: seq<Timer>, k: nat, t: Timer)
    requires k <= |s|
    ensures var r := InsertAt(s, k, t);
            && multiset(r) == multiset(s) + multiset{t}
            && r[k] == t && r[..k] == s[..k] && r[k + 1..] == s[k..]
            && (forall i :: 0 <= i < k ==> r[i] == s[i])
            && (forall i :: k < i < |r| ==> r[i] == s[i - 1])
  {
    assert s == s[..k] + s[k..];
  }

  // ----- What resumed code does to the list ------------------------------------------------------

  /** Code that a timer resumes adds timers, and cancels some. */
  datatype Act = Add(timer: Timer) | Cancel(timer: Timer)

  function IndexOf(s: seq<Timer>, t: Timer): (k: nat)
    requires t in s
    ensures k < |s| && s[k] == t
  {
    if s[0] == t then 0 else 1 + IndexOf(s[1..], t)
  }

  /** `cancelTimer`: an armed timer that is not listed empties the list. */
  function Cancelled(s: seq<Timer>, t: Timer): seq<Timer> {
    if !t.armed then s else if t in s then RemoveAt(s, IndexOf(s, t)) else []
  }

  function Acted(s: seq<Timer>, a: Act): seq<Timer> {
    match a
    case Add(t) => Added(s, t)
    case Cancel(t) => Cancelled(s, t)
  }

  function Resumed(s: seq<Timer>, acts: seq<Act>): seq<Timer>
    decreases |acts|
  {
    if acts == [] then s else Resumed(Acted(s, acts[0]), acts[1..])
  }

  /** The timers that leave the list: the one cancelled, or all that were listed. */
  function TakenBy(s: seq<Timer>, a: Act): seq<Timer> {
    if a.Add? || !a.timer.armed then [] else if a.timer in s then [a.timer] else s
  }

  function Taken(s: seq<Timer>, acts: seq<Act>): seq<Timer>
    decreases |acts|
  {
    if acts == [] then [] else TakenBy(s, acts[0]) + Taken(Acted(s, acts[0]), acts[1..])
  }

  function Adds(acts: seq<Act>): seq<Timer> {
    if acts == [] then [] else (if acts[0].Add? then [acts[0].timer] else []) + Adds(acts[1..])
  }

  lemma RemoveSorted(s: seq<Timer>, k: nat)
    requires Sorted(s) && k < |s|
    ensures Sorted(RemoveAt(s, k)) && multiset(s) == multiset(RemoveAt(s, k)) + multiset{s[k]}
  {
    var r := RemoveAt(s, k);
    assert s == s[..k] + [s[k]] + s[k + 1..];
    forall i, j | 0 <= i < j < |r| ensures r[i].dd <= r[j].dd {
      var a, b := if i < k then i else i + 1, if j < k then j else j + 1;
      assert r[i] == s[a] && r[j] == s[b];
    }
  }

  lemma ActedKeeps(s: seq<Timer>, a: Act)
    requires Sorted(s)
    ensures Sorted(Acted(s, a))
    ensures Balanced(Acted(s, a), TakenBy(s, a), s, if a.Add? then [a.timer] else [])
  {
    match a
    case Add(t) => AddedStable(s, t);
    case Cancel(t) => if t.armed && t in s { RemoveSorted(s, IndexOf(s, t)); }
  }

  /** `a` and `b` are together `s` and `more`. */
  predicate Balanced(a: seq<Timer>, b: seq<Timer>, s: seq<Timer>, more: seq<Timer>) {
    multiset(a) + multiset(b) == multiset(s) + multiset(more)
  }

  lemma BalancedThen(s: seq<Timer>, t1: seq<Timer>, m1: seq<Timer>, s1: seq<Timer>, a: seq<Timer>, t2: seq<Timer>, m2: seq<Timer>)
    requires Balanced(s1, t1, s, m1) && Balanced(a, t2, s1, m2)
    ensures Balanced(a, t1 + t2, s, m1 + m2)
  {
    var ms, ma, mt := multiset(s1), multiset(a), multiset(t1);
    assert multiset(t1 + t2) == mt + multiset(t2);
    assert multiset(m1 + m2) == multiset(m1) + multiset(m2);
    assert ma + (mt + multiset(t2)) == (ma + multiset(t2)) + mt;
    assert (ms + multiset(m2)) + mt == (ms + mt) + multiset(m2);
    assert (multiset(s) + multiset(m1)) + multiset(m2) == multiset(s) + (multiset(m1) + multiset(m2));
  }

  lemma NoneMoved(s: seq<Timer>)
    ensures Balanced(s, [], s, []) && Balanced([], s, s, [])
  {
  }

  lemma Swapped(a: seq<Timer>, b: seq<Timer>, s: seq<Timer>, more: seq<Timer>)
    requires Balanced(a, b, s, more)
    ensures Balanced(b, a, s, more)
  {
  }

  lemma {:induction false} ResumedKeeps(s: seq<Timer>, acts: seq<Act>)
    requires Sorted(s)
    ensures Sorted(Resumed(s, acts)) && Balanced(Resumed(s, acts), Taken(s, acts), s, Adds(acts))
    decreases |acts|
  {
    hide Acted, TakenBy, Sorted, Balanced;
    if acts == [] {
      NoneMoved(s);
    } else {
      var a, s1 := acts[0], Acted(s, acts[0]);
      ActedKeeps(s, a);
      ResumedKeeps(s1, acts[1..]);
      BalancedThen(s, TakenBy(s, a), if a.Add? then [a.timer] else [], s1, Resumed(s1, acts[1..]), Taken(s1, acts[1..]), Adds(acts[1..]));
    }
  }

  // ----- Firing ------------------------------------------------------------------------------------

  /** The timers that fire, in order, and those that are left, when the `i`-th resumption does
      `script[i]`. */
  function Fire(s: seq<Timer>, script: seq<seq<Act>>, tp: int): (seq<Timer>, seq<Timer>)
    decreases |script|, |s|
  {
    if s == [] || s[0].dd > tp then ([], s)
    else
      var (fired, rest) :=
        if script == [] then Fire(s[1..], [], tp) else Fire(Resumed(s[1..], script[0]), script[1..], tp);
      ([s[0]] + fired, rest)
  }

  /** The timers that were cancelled meanwhile. */
  function Gone(s: seq<Timer>, script: seq<seq<Act>>, tp: int): seq<Timer>
    decreases |script|, |s|
  {
    if s == [] || s[0].dd > tp || script == [] then []
    else Taken(s[1..], script[0]) + Gone(Resumed(s[1..], script[0]), script[1..], tp)
  }

  /** What fired was due, and nothing that is left is due. */
  lemma {:induction false} FireDue(s: seq<Timer>, script: seq<seq<Act>>, tp: int)
    requires Sorted(s)
    ensures var (fired, rest) := Fire(s, script, tp);
            && Sorted(rest)
            && (forall t | t in rest :: t.dd > tp)
            && (forall t | t in fired :: t.dd <= tp)
    decreases |script|, |s|
  {
    if s != [] && s[0].dd <= tp {
      if script == [] {
        FireDue(s[1..], [], tp);
      } else {
        ResumedKeeps(s[1..], script[0]);
        FireDue(Resumed(s[1..], script[0]), script[1..], tp);
      }
    }
  }

  /** The timers added by the first `n` resumptions. */
  function Batches(script: seq<seq<Act>>, n: nat): seq<Timer> {
    if script == [] || n == 0 then [] else Adds(script[0]) + Batches(script[1..], n - 1)
  }

  /** No timer is lost or fires twice: what fired, what was cancelled and what is left are together
      the timers there were and those that the resumed code added. */
  lemma {:induction false} FireConserves(s: seq<Timer>, script: seq<seq<Act>>, tp: int)
    requires Sorted(s)
    ensures var (fired, rest) := Fire(s, script, tp);
            Balanced(fired + Gone(s, script, tp), rest, s, Batches(script, |fired|))
    decreases |script|, |s|
  {
    hide Resumed, Taken, Adds, Sorted, Balanced;
    if s == [] || s[0].dd > tp {
      NoneMoved(s);
      assert [] + Gone(s, script, tp) == [];
    } else {
      TailSorted(s);
      NoneMoved(s[1..]);
      var acts, left := if script == [] then [] else script[0], if script == [] then [] else script[1..];
      ResumedNone(s[1..]);
      ResumedKeeps(s[1..], acts);
      var s' := Resumed(s[1..], acts);
      FireConserves(s', left, tp);
      var (fired, rest) := Fire(s', left, tp);
      Swapped(fired + Gone(s', left, tp), rest, s', Batches(left, |fired|));
      OneMore(s[0], s[1..], s', Taken(s[1..], acts), Adds(acts), fired, Gone(s', left, tp), rest, Batches(left, |fired|));
      assert Gone(s, script, tp) == Taken(s[1..], acts) + Gone(s', left, tp);
      assert Batches(script, 1 + |fired|) == Adds(acts) + Batches(left, |fired|);
    }
  }

  lemma ResumedNone(s: seq<Timer>)
    ensures Resumed(s, []) == s && Taken(s, []) == [] && Adds([]) == []
  {
  }

  lemma OneMore(t: Timer, s: seq<Timer>, s': seq<Timer>, taken: seq<Timer>, ts: seq<Timer>, fired: seq<Timer>, gone: seq<Timer>,
    rest: seq<Timer>, more: seq<Timer>)
    requires Balanced(s', taken, s, ts) && Balanced(rest, fired + gone, s', more)
    ensures Balanced([t] + fired + (taken + gone), rest, [t] + s, ts + more)
  {
    BalancedThen(s, taken, ts, s', rest, fired + gone, more);
    assert multiset([t] + fired + (taken + gone)) == multiset{t} + multiset(taken + (fired + gone));
    assert multiset([t] + s) == multiset{t} + multiset(s);
    var a, b := multiset(taken + (fired + gone)), multiset(rest);
    assert (multiset{t} + a) + b == multiset{t} + (b + a);
    assert multiset{t} + (multiset(s) + multiset(ts + more)) == (multiset{t} + multiset(s)) + multiset(ts + more);
  }

  lemma TailSorted(s: seq<Timer>)
    requires Sorted(s) && s != []
    ensures Sorted(s[1..]) && s == [s[0]] + s[1..]
  {
  }

  // ----- In which order they fire -------------------------------------------------------------------

  lemma {:induction false} PlaceIs(s: seq<Timer>, dd: int, k: nat)
    requires k <= |s| && (forall i :: 0 <= i < k ==> s[i].dd <= dd) && (k < |s| ==> dd < s[k].dd)
    ensures Place(s, dd) == k
  {
    if k > 0 { PlaceIs(s[1..], dd, k - 1); }
  }

  lemma {:induction false} PlaceMonotone(s: seq<Timer>, a: int, b: int)
    requires a <= b
    ensures Place(s, a) <= Place(s, b)
  {
    if s != [] { PlaceMonotone(s[1..], a, b); }
  }

  /** The timers that are due. */
  function Due(s: seq<Timer>, tp: int): seq<Timer> { s[..Place(s, tp)] }

  /** Those timers of `s` that are not among `gone`, in the same order. */
  function Without(s: seq<Timer>, gone: seq<Timer>): seq<Timer> {
    if s == [] then [] else (if s[0] in gone then [] else [s[0]]) + Without(s[1..], gone)
  }

  lemma {:induction false} WithoutNone(s: seq<Timer>, gone: seq<Timer>)
    requires forall t | t in s :: t !in gone
    ensures Without(s, gone) == s
  {
    if s != [] { WithoutNone(s[1..], gone); }
  }

  lemma {:induction false} WithoutAll(s: seq<Timer>, gone: seq<Timer>)
    requires forall t | t in s :: t in gone
    ensures Without(s, gone) == []
  {
    if s != [] { WithoutAll(s[1..], gone); }
  }

  lemma {:induction false} WithoutOne(s: seq<Timer>, k: nat)
    requires Unique(s) && k < |s|
    ensures Without(s, [s[k]]) == RemoveAt(s, k)
  {
    if k == 0 {
      WithoutNone(s[1..], [s[0]]);
    } else {
      WithoutOne(s[1..], k - 1);
      assert RemoveAt(s, k) == [s[0]] + RemoveAt(s[1..], k - 1);
    }
  }

  lemma {:induction false} WithoutTwice(s: seq<Timer>, a: seq<Timer>, b: seq<Timer>)
    ensures Without(Without(s, a), b) == Without(s, a + b)
  {
    if s != [] {
      WithoutTwice(s[1..], a, b);
      var w := Without(s[1..], a);
      assert [] + w == w && [] + Without(w, b) == Without(w, b) && ([s[0]] + w)[1..] == w;
    }
  }

  /** Resumed code adds only timers that are not listed and not due yet. */
  predicate Later(s: seq<Timer>, acts: seq<Act>, tp: int)
    decreases |acts|
  {
    acts != [] ==>
      && (acts[0].Add? ==> acts[0].timer !in s && acts[0].timer.dd > tp)
      && Later(Acted(s, acts[0]), acts[1..], tp)
  }

  predicate LaterScript(s: seq<Timer>, script: seq<seq<Act>>, tp: int)
    decreases |script|
  {
    s != [] && s[0].dd <= tp && script != [] ==>
      Later(s[1..], script[0], tp) && LaterScript(Resumed(s[1..], script[0]), script[1..], tp)
  }

  lemma AddKeepsDue(s: seq<Timer>, t: Timer, tp: int)
    requires Sorted(s) && Unique(s) && t !in s && t.dd > tp
    ensures Unique(Added(s, t)) && Due(Added(s, t), tp) == Due(s, tp)
  {
    hide Unique, Sorted, Place;
    var n := Place(s, t.dd);
    AddedStable(s, t);
    InsertShape(s, n, t);
    PlaceSplits(s, tp);
    PlaceMonotone(s, tp, t.dd);
    SameDue(s, Added(s, t), n, tp);
  }

  /** Two lists that agree up to some position behind which nothing is due. */
  lemma SameDue(s: seq<Timer>, r: seq<Timer>, n: nat, tp: int)
    requires Place(s, tp) <= n <= |s| && n <= |r| && r[..n] == s[..n]
    requires forall i :: 0 <= i < Place(s, tp) ==> s[i].dd <= tp
    requires forall i :: Place(s, tp) <= i < |s| ==> tp < s[i].dd
    requires n < |r| ==> tp < r[n].dd
    ensures Due(r, tp) == Due(s, tp)
  {
    hide Place;
    var k := Place(s, tp);
    assert forall i :: 0 <= i < n ==> r[i] == r[..n][i] == s[..n][i] == s[i];
    PlaceIs(r, tp, k);
    assert r[..k] == r[..n][..k] == s[..n][..k] == s[..k];
  }

  lemma CancelKeepsDue(s: seq<Timer>, k: nat, tp: int)
    requires Sorted(s) && Unique(s) && k < |s|
    ensures Unique(RemoveAt(s, k)) && Due(RemoveAt(s, k), tp) == Without(Due(s, tp), [s[k]])
  {
    hide Unique, Sorted, Place, RemoveAt, Without;
    RemoveShape(s, k);
    RemoveGet(s, k);
    PlaceSplits(s, tp);
    if k < Place(s, tp) { CancelDue(s, k, tp); } else { CancelLater(s, k, tp); }
  }

  lemma CancelDue(s: seq<Timer>, k: nat, tp: int)
    requires Unique(s) && k < Place(s, tp)
    requires forall i :: 0 <= i < Place(s, tp) ==> s[i].dd <= tp
    requires forall i :: Place(s, tp) <= i < |s| ==> tp < s[i].dd
    ensures Due(RemoveAt(s, k), tp) == Without(Due(s, tp), [s[k]])
  {
    hide Place, Without, Unique, RemoveAt;
    var r, n := RemoveAt(s, k), Place(s, tp);
    RemoveGet(s, k);
    RemoveGet(s[..n], k);
    PlaceIs(r, tp, n - 1);
    assert r[..n - 1] == RemoveAt(s[..n], k);
    UniquePart(s, n);
    WithoutOne(s[..n], k);
  }

  lemma UniquePart(s: seq<Timer>, n: nat)
    requires Unique(s) && n <= |s|
    ensures Unique(s[..n]) && forall i :: n <= i < |s| ==> s[i] !in s[..n]
  {
  }

  lemma CancelLater(s: seq<Timer>, k: nat, tp: int)
    requires Unique(s) && Place(s, tp) <= k < |s|
    requires forall i :: 0 <= i < Place(s, tp) ==> s[i].dd <= tp
    requires forall i :: Place(s, tp) <= i < |s| ==> tp < s[i].dd
    ensures Due(RemoveAt(s, k), tp) == Without(Due(s, tp), [s[k]])
  {
    hide Place, Without, Unique, RemoveAt;
    RemoveGet(s, k);
    assert RemoveAt(s, k)[..k] == s[..k];
    UniquePart(s, Place(s, tp));
    SameDue(s, RemoveAt(s, k), k, tp);
    WithoutNone(Due(s, tp), [s[k]]);
  }

  lemma ActKeepsDue(s: seq<Timer>, a: Act, tp: int)
    requires Sorted(s) && Unique(s) && (a.Add? ==> a.timer !in s && a.timer.dd > tp)
    ensures Sorted(Acted(s, a)) && Unique(Acted(s, a)) && Due(Acted(s, a), tp) == Without(Due(s, tp), TakenBy(s, a))
    ensures forall t | t in Acted(s, a) :: t in s || t.dd > tp
  {
    hide Sorted, Unique, RemoveAt, Place;
    ActedKeeps(s, a);
    ActedFrom(s, a);
    match a
    case Add(t) => AddKeepsDue(s, t, tp); WithoutNone(Due(s, tp), []);
    case Cancel(t) =>
      if !t.armed {
        WithoutNone(Due(s, tp), []);
      } else if t in s {
        CancelKeepsDue(s, IndexOf(s, t), tp);
      } else {
        WithoutAll(Due(s, tp), s);
        NothingUnique();
      }
  }

  lemma NothingUnique()
    ensures Unique([])
  {
  }

  lemma ActedFrom(s: seq<Timer>, a: Act)
    ensures forall t | t in Acted(s, a) :: t in s || (a.Add? && t == a.timer)
    ensures forall t | t in s :: t in Acted(s, a) || t in TakenBy(s, a)
    ensures a.Add? ==> a.timer in Acted(s, a)
  {
    if a.Add? {
      var k := Place(s, a.timer.dd);
      assert s == s[..k] + s[k..];
    } else if a.timer in s {
      var k := IndexOf(s, a.timer);
      assert s == s[..k] + [s[k]] + s[k + 1..];
    }
  }

  lemma {:induction false} ActsKeepDue(s: seq<Timer>, acts: seq<Act>, tp: int)
    requires Sorted(s) && Unique(s) && Later(s, acts, tp)
    ensures var r := Resumed(s, acts);
            && Sorted(r) && Unique(r) && Due(r, tp) == Without(Due(s, tp), Taken(s, acts))
            && (forall t | t in r :: t in s || t.dd > tp)
            && (forall t | t in Taken(s, acts) :: t in s || t.dd > tp)
    decreases |acts|
  {
    hide Sorted, Unique, Due, Acted, TakenBy;
    if acts == [] {
      WithoutNone(Due(s, tp), []);
    } else {
      ActKeepsDue(s, acts[0], tp);
      TakenFrom(s, acts[0]);
      ActsKeepDue(Acted(s, acts[0]), acts[1..], tp);
      WithoutTwice(Due(s, tp), TakenBy(s, acts[0]), Taken(Acted(s, acts[0]), acts[1..]));
    }
  }

  lemma TakenFrom(s: seq<Timer>, a: Act)
    ensures forall t | t in TakenBy(s, a) :: t in s
  {
  }

  lemma {:induction false} GoneFrom(s: seq<Timer>, script: seq<seq<Act>>, tp: int)
    requires Sorted(s) && Unique(s) && LaterScript(s, script, tp)
    ensures forall t | t in Gone(s, script, tp) :: t in s || t.dd > tp
    decreases |script|
  {
    hide Later, Resumed, Taken;
    if s != [] && s[0].dd <= tp && script != [] {
      TailUnique(s);
      ActsKeepDue(s[1..], script[0], tp);
      var r := Resumed(s[1..], script[0]);
      GoneFrom(r, script[1..], tp);
    }
  }

  lemma TailUnique(s: seq<Timer>)
    requires Sorted(s) && Unique(s) && s != []
    ensures Sorted(s[1..]) && Unique(s[1..]) && s[0] !in s[1..]
  {
  }

  lemma DueFirst(s: seq<Timer>, tp: int)
    requires s != [] && s[0].dd <= tp
    ensures Due(s, tp) == [s[0]] + Due(s[1..], tp)
  {
    assert s[..Place(s, tp)] == [s[0]] + s[1..][..Place(s[1..], tp)];
  }

  /** If resumed code adds only timers that are not due yet, exactly those timers fire that were due
      and are not cancelled before their turn, in the order of their deadlines and then of their
      arrival. */
  lemma {:induction false} FireInOrder(s: seq<Timer>, script: seq<seq<Act>>, tp: int)
    requires Sorted(s) && Unique(s) && LaterScript(s, script, tp)
    ensures Fire(s, script, tp).0 == Without(Due(s, tp), Gone(s, script, tp))
    decreases |script|, |s|
  {
    hide Later, Resumed, Taken, Due, Sorted, Unique;
    if s == [] || s[0].dd > tp {
      NothingDue(s, tp);
    } else {
      DueFirst(s, tp);
      TailUnique(s);
      if script == [] {
        FireInOrder(s[1..], [], tp);
        assert Gone(s[1..], [], tp) == [];
      } else {
        var acts, r := script[0], Resumed(s[1..], script[0]);
        ActsKeepDue(s[1..], acts, tp);
        GoneFrom(r, script[1..], tp);
        FireInOrder(r, script[1..], tp);
        WithoutTwice(Due(s[1..], tp), Taken(s[1..], acts), Gone(r, script[1..], tp));
      }
    }
  }

  lemma NothingDue(s: seq<Timer>, tp: int)
    requires s == [] || s[0].dd > tp
    ensures Due(s, tp) == []
  {
  }

  // ----- The scheduler thread -------------------------------------------------------------------

  const INT_RANGE: int := 0x1_0000_0000

  /** The conversion of a 64-bit integer to a 32-bit one. */
  function ToInt(x: int): int {
    var r := x % INT_RANGE;
    if r < INT_RANGE / 2 then r else r - INT_RANGE
  }

  function Position(s: seq<Timer>, t: Timer): (k: nat)
    ensures k <= |s| && (k < |s| <==> t in s)
  {
    if t in s then IndexOf(s, t) else |s|
  }

  lemma {:induction false} PlaceSkips(s: seq<Timer>, dd: int, k: nat)
    requires k <= |s| && Place(s, dd) == k + Place(s[k..], dd)
    ensures k == |s| || dd < s[k].dd ==> Place(s, dd) == k
    ensures k < |s| && s[k].dd <= dd ==> Place(s, dd) == k + 1 + Place(s[k + 1..], dd)
  {
    if k < |s| { assert s[k..][1..] == s[k + 1..]; }
  }

  class Thread {
    const timers: List

    constructor ()
      ensures fresh(timers) && timers.Valid() && timers.items == []
    {
      timers := new List();
    }

    /** `addTimer`: the list stays sorted if it was, by AddedStable. */
    method AddTimer(timer: Timer)
      requires timers.Valid() && timer !in timers.items
      modifies timers, timers.items, timer
      ensures timers.Valid() && timers.items == Added(old(timers.items), timer)
    {
      hide Chained, Unique;
      var it := timers.first;
      ghost var s, k: nat := timers.items, 0;
      assert s[0..] == s;
      while it != null
        invariant timers.Valid() && timers.items == s && k <= |s| && it == At(s, k)
        invariant Place(s, timer.dd) == k + Place(s[k..], timer.dd)
        decreases |s| - k
      {
        PlaceSkips(s, timer.dd, k);
        if timer.dd < it.dd { break; }
        timers.Neighbours(k);
        it := it.next;
        k := k + 1;
      }
      PlaceSkips(s, timer.dd, k);
      timers.Insert(timer, it, k);
    }

    /** `cancelTimer`.  A timer that is armed but not listed empties the list. */
    method CancelTimer(handle: Timer)
      requires timers.Valid()
      requires !handle.armed || handle in timers.items || (handle.prev == null && handle.next == null)
      modifies timers, timers.items, handle
      ensures timers.Valid() && timers.items == Cancelled(old(timers.items), handle)
      ensures handle.armed ==> handle.prev == null && handle.next == null
      ensures !handle.armed ==> unchanged(handle)
      ensures handle.armed && handle in old(timers.items) ==>
                exists k :: 0 <= k < |old(timers.items)| && old(timers.items)[k] == handle
                            && timers.items == RemoveAt(old(timers.items), k)
    {
      hide Chained, Unique;
      ghost var k := Position(timers.items, handle);
      if handle.armed {
        var nxt := timers.Erase(handle, k);
      }
    }

    /** The code of a resumed coroutine, as far as it adds and cancels timers. */
    method Resume(acts: seq<Act>, ghost pool: set<Timer>, ghost lost: set<Timer>)
      requires timers.Valid() && Within(timers.items, pool) && Allowed(timers.items, lost, acts, pool)
      requires Loose(pool, timers.items, lost)
      modifies timers, pool
      ensures timers.Valid() && timers.items == Resumed(old(timers.items), acts) && Within(timers.items, pool)
      ensures Loose(pool, timers.items, LostAfter(old(timers.items), lost, acts))
      decreases |acts|
    {
      hide Chained, Unique, RemoveAt, Place;
      if acts != [] {
        ghost var s := timers.items;
        ActedFrom(s, acts[0]);
        match acts[0] {
          case Add(t) => AddTimer(t);
          case Cancel(t) => CancelTimer(t);
        }
        Resume(acts[1..], pool, LostBy(s, lost, acts[0]));
      }
    }

    /** One timer fires: it leaves the list, and the code that it resumes runs. */
    method FireFirst(it: Timer, acts: seq<Act>, ghost pool: set<Timer>, ghost lost: set<Timer>)
      requires timers.Valid() && timers.items != [] && it == timers.items[0] && Within(timers.items, pool)
      requires Allowed(timers.items[1..], lost, acts, pool) && Loose(pool, timers.items, lost)
      modifies timers, pool
      ensures timers.Valid() && timers.items == Resumed(old(timers.items)[1..], acts) && Within(timers.items, pool)
      ensures Loose(pool, timers.items, LostAfter(old(timers.items)[1..], lost, acts))
    {
      hide Chained, Unique;
      ghost var s := timers.items;
      var nxt := timers.Erase(it, 0);
      assert timers.items == s[1..];
      Resume(acts, pool, lost);
    }

    /** `fireExpiredTimers`, where the `i`-th resumed coroutine does `script[i]`; `pool` holds all
        timers concerned, and the links of those in `lost` are left from a list that was emptied. */
    method FireExpiredTimers(tp: int, script: seq<seq<Act>>, ghost pool: set<Timer>, ghost lost: set<Timer>)
      returns (fired: seq<Timer>)
      requires timers.Valid() && Within(timers.items, pool) && Loose(pool, timers.items, lost)
      requires AllowedScript(timers.items, lost, script, pool, tp)
      modifies timers, pool
      ensures timers.Valid() && (fired, timers.items) == Fire(old(timers.items), script, tp)
    {
      hide Chained, Unique, Allowed, Resumed, LostAfter, Fire, FireFrom;
      fired := [];
      ghost var s0, gone := timers.items, lost;
      var left := script;
      FireBegin(s0, script, tp);
      while timers.first != null
        invariant timers.Valid() && Within(timers.items, pool) && Loose(pool, timers.items, gone)
        invariant AllowedScript(timers.items, gone, left, pool, tp)
        invariant FireFrom(s0, script, tp, fired, timers.items, left)
        decreases |left|, |timers.items|
      {
        ghost var s := timers.items;
        var it := timers.first;
        if it.dd > tp { break; }
        var acts, rest := if left == [] then [] else left[0], if left == [] then [] else left[1..];
        NothingDone(s[1..], gone, pool);
        FireStep(s0, script, tp, fired, s, left, acts);
        FireFirst(it, acts, pool, gone);
        gone := LostAfter(s[1..], gone, acts);
        left := rest;
        fired := fired + [it];
      }
      FireEnd(s0, script, tp, fired, timers.items, left);
    }

    /** `computeWaitTimeout`: nothing to wait for, or something due, or the distance to the
        earliest deadline, cut to 32 bits; the distance itself exactly when it fits. */
    method ComputeWaitTimeout(now: int) returns (r: int)
      requires timers.Valid() && Sorted(timers.items)
      ensures timers.items == [] ==> r == -1
      ensures forall t | t in timers.items :: timers.items[0].dd <= t.dd
      ensures timers.items != [] && timers.items[0].dd <= now ==> r == 0
      ensures timers.items != [] && timers.items[0].dd > now ==>
                && -0x8000_0000 <= r < 0x8000_0000 && (timers.items[0].dd - now - r) % 0x1_0000_0000 == 0
                && (r == timers.items[0].dd - now <==> timers.items[0].dd - now < 0x8000_0000)
    {
      hide Chained, Unique;
      if timers.first == null { return -1; }
      var at := timers.first.dd - now;
      if at <= 0 { return 0; }
      r := ToInt(at);
    }
  }

  // ----- What resumed code may do --------------------------------------------------------------------

  predicate Within(s: seq<Timer>, pool: set<Timer>) { forall t | t in s :: t in pool }

  /** Timers that are not listed have no neighbours, but for those that were listed when the list was
      emptied. */
  ghost predicate Loose(pool: set<Timer>, s: seq<Timer>, lost: set<Timer>)
    reads pool
  {
    forall t | t in pool && t !in s && t !in lost :: t.prev == null && t.next == null
  }

  function LostBy(s: seq<Timer>, lost: set<Timer>, a: Act): set<Timer> {
    match a
    case Add(t) => lost - {t}
    case Cancel(t) => if t.armed && t !in s then lost + set u | u in s else lost
  }

  function LostAfter(s: seq<Timer>, lost: set<Timer>, acts: seq<Act>): set<Timer>
    decreases |acts|
  {
    if acts == [] then lost else LostAfter(Acted(s, acts[0]), LostBy(s, lost, acts[0]), acts[1..])
  }

  /** A timer is added when it is not listed, and not cancelled when its links are left from a list
      that was emptied. */
  predicate Allowed(s: seq<Timer>, lost: set<Timer>, acts: seq<Act>, pool: set<Timer>)
    decreases |acts|
  {
    acts != [] ==>
      && acts[0].timer in pool
      && (if acts[0].Add? then acts[0].timer !in s else acts[0].timer.armed ==> acts[0].timer in s || acts[0].timer !in lost)
      && Allowed(Acted(s, acts[0]), LostBy(s, lost, acts[0]), acts[1..], pool)
  }

  predicate AllowedScript(s: seq<Timer>, lost: set<Timer>, script: seq<seq<Act>>, pool: set<Timer>, tp: int)
    decreases |script|
  {
    s != [] && s[0].dd <= tp && script != [] ==>
      && Allowed(s[1..], lost, script[0], pool)
      && AllowedScript(Resumed(s[1..], script[0]), LostAfter(s[1..], lost, script[0]), script[1..], pool, tp)
  }

  lemma NothingDone(s: seq<Timer>, lost: set<Timer>, pool: set<Timer>)
    ensures Allowed(s, lost, [], pool) && LostAfter(s, lost, []) == lost && Resumed(s, []) == s
  {
  }

  /** The loop has fired `fired` and goes on with `s` and `left`. */
  predicate FireFrom(s0: seq<Timer>, script: seq<seq<Act>>, tp: int, fired: seq<Timer>, s: seq<Timer>, left: seq<seq<Act>>) {
    Fire(s0, script, tp) == (fired + Fire(s, left, tp).0, Fire(s, left, tp).1)
  }

  lemma FireBegin(s0: seq<Timer>, script: seq<seq<Act>>, tp: int)
    ensures FireFrom(s0, script, tp, [], s0, script)
  {
    hide Fire;
    assert [] + Fire(s0, script, tp).0 == Fire(s0, script, tp).0;
  }

  lemma FireStep(s0: seq<Timer>, script: seq<seq<Act>>, tp: int, fired: seq<Timer>, s: seq<Timer>, left: seq<seq<Act>>, acts: seq<Act>)
    requires FireFrom(s0, script, tp, fired, s, left) && s != [] && s[0].dd <= tp
    requires acts == if left == [] then [] else left[0]
    ensures FireFrom(s0, script, tp, fired + [s[0]], Resumed(s[1..], acts), if left == [] then [] else left[1..])
  {
    var rest := if left == [] then [] else left[1..];
    var next := Fire(Resumed(s[1..], acts), rest, tp).0;
    assert Fire(s, left, tp).0 == [s[0]] + next;
    assert fired + ([s[0]] + next) == fired + [s[0]] + next;
  }

  lemma FireEnd(s0: seq<Timer>, script: seq<seq<Act>>, tp: int, fired: seq<Timer>, s: seq<Timer>, left: seq<seq<Act>>)
    requires FireFrom(s0, script, tp, fired, s, left) && (s == [] || s[0].dd > tp)
    ensures Fire(s0, script, tp) == (fired, s)
  {
    assert fired + [] == fired;
  }
}
