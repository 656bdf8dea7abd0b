/** One table of the hash from thread ids to producers, as a value: linear probing without
    deletion (libs/async/include/suil/async/detail/concurrentqueue.h:4735-4814). */
module ProducerTable {
  import opened Counting
  import opened Modular

  type Id = nat
  type Producer = nat

  datatype Slot = Free | Taken(id: Id, producer: Producer)

  type Hash = Id -> nat

  /** `hashedId & (capacity - 1)`, for a capacity that is a power of two. */
  function Home(hash: Hash, id: Id, c: nat): (h: nat)
    requires c > 0
    ensures h < c
  {
    hash(id) % c
  }

  /** The position `d` steps after `h`, with wrap-around. */
  function At(h: nat, d: nat, c: nat): (r: nat)
    requires h < c && d < c
    ensures r < c
  {
    if h + d < c then h + d else h + d - c
  }

  function Steps(h: nat, p: nat, c: nat): (d: nat)
    requires h < c && p < c
    ensures d < c && At(h, d, c) == p
  {
    if h <= p then p - h else p - h + c
  }

  predicate Passed(s: seq<Slot>, h: nat, d: nat)
    requires h < |s| && d < |s|
  {
    s[At(h, d, |s|)].Taken?
  }

  /** Probing from the home of `id` leads to its slot. */
  ghost predicate Placed(s: seq<Slot>, hash: Hash, p: nat)
    requires p < |s| && s[p].Taken?
  {
    var h := Home(hash, s[p].id, |s|);
    forall d: nat {:trigger Passed(s, h, d)} | d < Steps(h, p, |s|) :: Passed(s, h, d)
  }

  ghost predicate SlotOk(s: seq<Slot>, hash: Hash, owner: map<Id, Producer>, p: nat)
    requires p < |s|
  {
    s[p].Taken? ==> s[p].id in owner && owner[s[p].id] == s[p].producer && Placed(s, hash, p)
  }

  predicate Has(s: seq<Slot>, id: Id) { exists p :: 0 <= p < |s| && s[p].Taken? && s[p].id == id }

  predicate Room(s: seq<Slot>) { exists p :: 0 <= p < |s| && s[p].Free? }

  /** The table holds part of the map, each id once, and has a free slot. */
  ghost predicate Table(s: seq<Slot>, hash: Hash, owner: map<Id, Producer>) {
    && Room(s)
    && (forall p: nat {:trigger SlotOk(s, hash, owner, p)} | p < |s| :: SlotOk(s, hash, owner, p))
    && (forall p, q :: 0 <= p < q < |s| && s[p].Taken? && s[q].Taken? ==> s[p].id != s[q].id)
  }

  // ----- Laws -----------------------------------------------------------------------------------

  /** The first `d` slots from `h` hold other ids. */
  ghost predicate Missed(s: seq<Slot>, h: nat, d: nat, id: Id)
    requires h < |s| && d < |s|
  {
    forall e: nat {:trigger Passed(s, h, e)} | e < d :: Passed(s, h, e) && s[At(h, e, |s|)].id != id
  }

  /** When probing meets a free slot before the id, the id is not in the table. */
  lemma FreeMeansAbsent(s: seq<Slot>, hash: Hash, owner: map<Id, Producer>, id: Id, d: nat)
    requires Table(s, hash, owner) && d < |s| && s[At(Home(hash, id, |s|), d, |s|)].Free?
    requires Missed(s, Home(hash, id, |s|), d, id)
    ensures !Has(s, id)
  {
    var h := Home(hash, id, |s|);
    forall p: nat | p < |s| && s[p].Taken? ensures s[p].id != id {
      var n := Steps(h, p, |s|);
      assert SlotOk(s, hash, owner, p);
      assert n < d ==> Passed(s, h, n);
      assert s[p].id == id && d < n ==> Passed(s, h, d);
    }
  }

  lemma MaskedStep(h: nat, d: nat, c: nat)
    requires h < c && d + 1 < c
    ensures (At(h, d, c) + 1) % c == At(h, d + 1, c)
  {
    if At(h, d, c) + 1 < c { SmallMod(At(h, d, c) + 1, c); }
  }

  lemma StillHas(s: seq<Slot>, q: nat, slot: Slot, id: Id)
    requires q < |s| && s[q].Free? && Has(s, id)
    ensures Has(s[q := slot], id)
  {
    var p :| 0 <= p < |s| && s[p].Taken? && s[p].id == id;
    assert s[q := slot][p] == s[p];
  }

  /** A table with more slots than there are ids has a free one. */
  lemma RoomByCount(s: seq<Slot>, owner: map<Id, Producer>)
    requires forall p :: 0 <= p < |s| && s[p].Taken? ==> s[p].id in owner
    requires forall p, q :: 0 <= p < q < |s| && s[p].Taken? && s[q].Taken? ==> s[p].id != s[q].id
    requires |owner| < |s|
    ensures Room(s)
  {
    if !Room(s) {
      var ids := seq(|s|, i requires 0 <= i < |s| => if s[i].Taken? then s[i].id else 0);
      DistinctWithin(ids, owner.Keys);
    }
  }

  /** Storing an id in the first free slot on its probe path. */
  lemma InsertKeepsTable(s: seq<Slot>, hash: Hash, owner: map<Id, Producer>, id: Id, d: nat)
    requires Table(s, hash, owner) && id in owner && !Has(s, id) && |owner| < |s| && d < |s|
    requires var h := Home(hash, id, |s|);
             s[At(h, d, |s|)].Free? && Missed(s, h, d, id)
    ensures var q := At(Home(hash, id, |s|), d, |s|);
            var t := s[q := Taken(id, owner[id])];
            Table(t, hash, owner) && Has(t, id)
  {
    var h := Home(hash, id, |s|);
    var q := At(h, d, |s|);
    var t := s[q := Taken(id, owner[id])];
    forall p: nat | p < |s| ensures SlotOk(t, hash, owner, p) {
      assert SlotOk(s, hash, owner, p);
      if p == q {
        assert Steps(h, q, |s|) == d;
        forall e: nat | e < d ensures Passed(t, h, e) { assert Passed(s, h, e); }
      } else if s[p].Taken? {
        var g := Home(hash, s[p].id, |s|);
        forall e: nat | e < Steps(g, p, |s|) ensures Passed(t, g, e) { assert Passed(s, g, e); }
      }
    }
    forall i, j | 0 <= i < j < |t| && t[i].Taken? && t[j].Taken? ensures t[i].id != t[j].id {
      if i == q { assert s[j].id != id; } else if j == q { assert s[i].id != id; }
    }
    forall p | 0 <= p < |t| && t[p].Taken? ensures t[p].id in owner { assert SlotOk(t, hash, owner, p); }
    RoomByCount(t, owner);
    assert t[q].Taken? && t[q].id == id;
  }

  /** A new producer changes no table that does not hold it. */
  lemma GrowKeepsTable(s: seq<Slot>, hash: Hash, owner: map<Id, Producer>, id: Id, m: Producer)
    requires Table(s, hash, owner) && id !in owner
    ensures Table(s, hash, owner[id := m]) && !Has(s, id)
  {
    var owner' := owner[id := m];
    forall p: nat | p < |s| ensures SlotOk(s, hash, owner', p) { assert SlotOk(s, hash, owner, p); }
    forall p: nat | p < |s| && s[p].Taken? ensures s[p].id != id { assert SlotOk(s, hash, owner, p); }
  }

  // ----- A chain of tables ------------------------------------------------------------------------

  ghost predicate TableAt(cs: seq<seq<Slot>>, hash: Hash, owner: map<Id, Producer>, i: nat)
    requires i < |cs|
  {
    Table(cs[i], hash, owner)
  }

  ghost predicate Tables(cs: seq<seq<Slot>>, hash: Hash, owner: map<Id, Producer>) {
    forall i: nat {:trigger TableAt(cs, hash, owner, i)} | i < |cs| :: TableAt(cs, hash, owner, i)
  }

  /** Some table from the `i`-th on has the id. */
  predicate Located(cs: seq<seq<Slot>>, id: Id, i: nat) { exists j: nat :: i <= j < |cs| && Has(cs[j], id) }

  ghost predicate AllLocated(cs: seq<seq<Slot>>, owner: map<Id, Producer>) {
    forall id {:trigger Located(cs, id, 0)} | id in owner :: Located(cs, id, 0)
  }

  /** The id is stored in the first free slot of the newest table. */
  lemma InsertInNewest(cs: seq<seq<Slot>>, hash: Hash, owner: map<Id, Producer>, id: Id, d: nat)
    requires cs != [] && Tables(cs, hash, owner) && id in owner
    requires var s := cs[|cs| - 1];
             && !Has(s, id) && |owner| < |s| && d < |s|
             && s[At(Home(hash, id, |s|), d, |s|)].Free? && Missed(s, Home(hash, id, |s|), d, id)
    ensures var n := |cs| - 1; var s := cs[n];
            var cs' := cs[n := s[At(Home(hash, id, |s|), d, |s|) := Taken(id, owner[id])]];
            && Tables(cs', hash, owner) && Located(cs', id, 0)
            && forall x {:trigger Located(cs', x, 0)} | Located(cs, x, 0) :: Located(cs', x, 0)
  {
    hide Table, Has, Missed;
    var n := |cs| - 1;
    var s := cs[n];
    var q := At(Home(hash, id, |s|), d, |s|);
    var cs' := cs[n := s[q := Taken(id, owner[id])]];
    assert TableAt(cs, hash, owner, n);
    InsertKeepsTable(s, hash, owner, id, d);
    forall i: nat | i < |cs'| ensures TableAt(cs', hash, owner, i) { assert TableAt(cs, hash, owner, i); }
    assert Has(cs'[n], id);
    forall x | Located(cs, x, 0) ensures Located(cs', x, 0) {
      var j: nat :| j < |cs| && Has(cs[j], x);
      if j == n { StillHas(s, q, Taken(id, owner[id]), x); }
      assert Has(cs'[j], x);
    }
  }

  /** An empty table is added. */
  lemma EnlargeKeeps(cs: seq<seq<Slot>>, hash: Hash, owner: map<Id, Producer>, s: seq<Slot>)
    requires Tables(cs, hash, owner) && AllLocated(cs, owner) && s != [] && forall i :: 0 <= i < |s| ==> s[i] == Free
    ensures Tables(cs + [s], hash, owner) && AllLocated(cs + [s], owner) && forall id :: !Has(s, id)
  {
    var cs' := cs + [s];
    assert s[0].Free?;
    forall i: nat | i < |cs'| ensures TableAt(cs', hash, owner, i) { if i < |cs| { assert TableAt(cs, hash, owner, i); } }
    forall id | id in owner ensures Located(cs', id, 0) {
      assert Located(cs, id, 0);
      var j: nat :| j < |cs| && Has(cs[j], id);
      assert Has(cs'[j], id);
    }
  }

  /** The map gains an id that no table holds. */
  lemma GrowKeeps(cs: seq<seq<Slot>>, hash: Hash, owner: map<Id, Producer>, id: Id, m: Producer)
    requires Tables(cs, hash, owner) && id !in owner
    ensures Tables(cs, hash, owner[id := m]) && forall i: nat :: i < |cs| ==> !Has(cs[i], id)
  {
    hide Table, Has;
    forall i: nat | i < |cs| ensures TableAt(cs, hash, owner[id := m], i) && !Has(cs[i], id) {
      assert TableAt(cs, hash, owner, i);
      GrowKeepsTable(cs[i], hash, owner, id, m);
    }
  }

  /** What probing tells: the producer of the id, or that the table does not hold it. */
  lemma ProbeTells(s: seq<Slot>, hash: Hash, owner: map<Id, Producer>, id: Id, d: nat)
    requires Table(s, hash, owner) && d < |s| && Missed(s, Home(hash, id, |s|), d, id)
    requires var slot := s[At(Home(hash, id, |s|), d, |s|)]; slot.Free? || slot.id == id
    ensures var slot := s[At(Home(hash, id, |s|), d, |s|)];
            && (slot.Free? <==> !Has(s, id))
            && (slot.Taken? ==> id in owner && owner[id] == slot.producer)
  {
    var q := At(Home(hash, id, |s|), d, |s|);
    if s[q].Free? { FreeMeansAbsent(s, hash, owner, id, d); } else { assert SlotOk(s, hash, owner, q); }
  }
}
