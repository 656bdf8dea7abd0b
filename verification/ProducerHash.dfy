/** The chained hash from thread ids to implicit producers
    (libs/async/include/suil/async/detail/concurrentqueue.h:4735-4970), one call at a time and
    without thread exits: `get_or_add_implicit_producer` agrees with a plain map. */
module ProducerHash {
  import opened Bytes
  import opened Modular
  import opened ProducerTable

  /** `ImplicitProducerHash`. */
  class HashTable {
    const capacity: nat
    const entries: array<Slot>
    const prev: HashTable?

    constructor (capacity: nat, prev: HashTable?)
      ensures this.capacity == capacity == entries.Length && this.prev == prev && fresh(entries)
      ensures forall i :: 0 <= i < capacity ==> entries[i] == Free
    {
      this.capacity, this.prev := capacity, prev;
      entries := new Slot[capacity](_ => Free);
    }
  }

  ghost predicate LinkAt(tables: seq<HashTable>, i: nat)
    requires i < |tables|
  {
    && tables[i].capacity == tables[i].entries.Length > 1
    && tables[i].prev == (if i == 0 then null else tables[i - 1])
    && forall j: nat :: j < i ==> tables[j].entries != tables[i].entries
  }

  ghost predicate Linked(tables: seq<HashTable>) {
    forall i: nat {:trigger LinkAt(tables, i)} | i < |tables| :: LinkAt(tables, i)
  }

  ghost function Arrays(tables: seq<HashTable>): set<object> { set t | t in tables :: t.entries }

  /** One more table in front. */
  lemma LinkMore(tables: seq<HashTable>, t: HashTable)
    requires tables != [] && Linked(tables) && t.capacity == t.entries.Length > 1 && t.prev == tables[|tables| - 1]
    requires forall j :: 0 <= j < |tables| ==> tables[j].entries != t.entries
    ensures Linked(tables + [t])
  {
    var ts := tables + [t];
    forall j: nat | j < |ts| ensures LinkAt(ts, j) { if j < |tables| { assert LinkAt(tables, j); } }
  }

  class ProducerMap {
    const hash: Hash
    var implicitProducerHash: HashTable
    var implicitProducerHashCount: nat
    /** All tables, the newest last. */
    ghost var tables: seq<HashTable>
    /** The map that the tables stand for. */
    ghost var owner: map<Id, Producer>

    ghost function Contents(): (cs: seq<seq<Slot>>)
      reads this`tables, Arrays(tables)
      ensures |cs| == |tables| && forall i :: 0 <= i < |cs| ==> cs[i] == tables[i].entries[..]
    {
      var ts := tables;
      seq(|ts|, i requires 0 <= i < |ts| reads Arrays(ts) => ts[i].entries[..])
    }

    /** The tables are sound, and hold all ids; there is room in the newest. */
    ghost predicate Sound()
      reads this`implicitProducerHash, this`tables, this`owner, Arrays(tables)
    {
      && tables != [] && implicitProducerHash == tables[|tables| - 1] && Linked(tables)
      && |owner| < implicitProducerHash.capacity
      && Tables(Contents(), hash, owner) && AllLocated(Contents(), owner)
    }

    ghost predicate Valid()
      reads this, Arrays(tables)
    {
      Sound() && implicitProducerHashCount == |owner| < implicitProducerHash.capacity / 2
    }

    /** `populate_initial_implicit_producer_hash`. */
    constructor (hash: Hash, initial: nat)
      requires initial > 1
      ensures Valid() && owner == map[] && fresh(Arrays(tables))
    {
      var table := new HashTable(initial, null);
      this.hash := hash;
      implicitProducerHash, implicitProducerHashCount := table, 0;
      tables, owner := [table], map[];
      new;
      assert LinkAt(tables, 0);
      EnlargeKeeps([], hash, owner, table.entries[..]);
      assert Contents() == [] + [table.entries[..]];
    }

    /** Where probing for `id` stops: at its slot, or at a free one. */
    static method Probe(table: HashTable, hash: Hash, id: Id) returns (index: nat, ghost d: nat)
      requires table.capacity == table.entries.Length && Room(table.entries[..])
      ensures var s := table.entries[..];
              && index < |s| && d < |s| && index == At(Home(hash, id, |s|), d, |s|)
              && Missed(s, Home(hash, id, |s|), d, id)
      ensures index < table.entries.Length && (table.entries[index].Free? || table.entries[index].id == id)
    {
      ghost var s := table.entries[..];
      ghost var f: nat :| f < |s| && s[f].Free?;
      ghost var h := Home(hash, id, |s|);
      index := hash(id) % table.capacity;
      d := 0;
      while true
        invariant d <= Steps(h, f, |s|) && index == At(h, d, |s|) && Missed(s, h, d, id)
        decreases |s| - d
      {
        var probed := table.entries[index];
        if probed.Free? || probed.id == id { return; }
        assert Passed(s, h, d);
        MaskedStep(h, d, |s|);
        index := (index + 1) % table.capacity;
        d := d + 1;
      }
    }

    lemma TableFacts(i: nat)
      requires Linked(tables) && Tables(Contents(), hash, owner) && i < |tables|
      ensures LinkAt(tables, i) && Table(tables[i].entries[..], hash, owner) && Room(tables[i].entries[..])
    {
      assert LinkAt(tables, i) && TableAt(Contents(), hash, owner, i);
    }

    lemma NewestInArrays()
      requires Sound()
      ensures implicitProducerHash.entries in Arrays(tables)
    {
    }

    /** The store of an id that the newest table does not hold. */
    method Insert(id: Id, value: Producer)
      requires tables != [] && implicitProducerHash == tables[|tables| - 1] && Linked(tables)
      requires |owner| < implicitProducerHash.capacity && Tables(Contents(), hash, owner)
      requires id in owner && owner[id] == value && !Has(implicitProducerHash.entries[..], id)
      modifies implicitProducerHash.entries
      ensures Tables(Contents(), hash, owner) && Located(Contents(), id, 0) && Has(implicitProducerHash.entries[..], id)
      ensures forall x {:trigger Located(Contents(), x, 0)} | old(Located(Contents(), x, 0)) :: Located(Contents(), x, 0)
    {
      hide Table, Tables, Has, Located, Missed;
      ghost var n, cs := |tables| - 1, Contents();
      var table := implicitProducerHash;
      TableFacts(n);
      var index, d := Probe(table, hash, id);
      ghost var s := table.entries[..];
      ProbeTells(s, hash, owner, id, d);
      InsertInNewest(cs, hash, owner, id, d);
      table.entries[index] := Taken(id, value);
      HasTaken(table.entries[..], index, id, value);
      assert Contents() == cs[n := s[index := Taken(id, value)]] by {
        forall j: nat | j < n ensures tables[j].entries != table.entries { assert LinkAt(tables, n); }
      }
    }

    lemma HasTaken(s: seq<Slot>, p: nat, id: Id, value: Producer)
      requires p < |s| && s[p] == Taken(id, value)
      ensures Has(s, id)
    {
    }

    /** The loop over the tables, the newest first; `deep` tells that an older one has the id. */
    method Find(id: Id) returns (found: bool, deep: bool, value: Producer)
      requires Valid()
      ensures found <==> id in owner
      ensures found ==> value == owner[id] && (deep <==> !Has(implicitProducerHash.entries[..], id))
    {
      hide Table, Tables, Has, Missed, Linked;
      var mainHash := implicitProducerHash;
      var table: HashTable? := mainHash;
      ghost var i := |tables| - 1;
      ghost var cs := Contents();
      while table != null
        invariant -1 <= i < |tables| && table == (if i < 0 then null else tables[i])
        invariant Contents() == cs && !Located(cs, id, i + 1)
        invariant i < |tables| - 1 ==> !Has(mainHash.entries[..], id)
        decreases i
      {
        TableFacts(i);
        var index, d := Probe(table, hash, id);
        ProbeTells(table.entries[..], hash, owner, id, d);
        var probed := table.entries[index];
        if probed.Taken? {
          Different(i);
          return true, table != mainHash, probed.producer;
        }
        assert cs[i] == table.entries[..];
        table := table.prev;
        i := i - 1;
      }
      assert id in owner ==> Located(cs, id, 0);
      return false, false, 0;
    }

    /** The tables are different objects. */
    lemma Different(i: nat)
      requires Linked(tables) && i < |tables|
      ensures tables[i] == tables[|tables| - 1] <==> i == |tables| - 1
    {
      assert LinkAt(tables, |tables| - 1);
    }

    /** The search through all tables; an id found in an older one is added to the newest. */
    method Search(id: Id) returns (found: bool, value: Producer)
      requires Valid()
      modifies implicitProducerHash.entries
      ensures Valid() && (found <==> id in owner)
      ensures found ==> value == owner[id] && Has(implicitProducerHash.entries[..], id)
    {
      hide Table, Tables, Has, Located;
      ghost var cs := Contents();
      var deep;
      found, deep, value := Find(id);
      assert Contents() == cs;
      if found && deep {
        assert forall x | x in owner :: Located(Contents(), x, 0);
        Insert(id, value);
      }
    }

    /** The larger table. */
    method Enlarge(newCapacity: nat)
      requires Sound() && newCapacity > implicitProducerHash.capacity
      modifies this`implicitProducerHash, this`tables
      ensures Sound() && implicitProducerHash.capacity == newCapacity
      ensures fresh(Arrays(tables) - old(Arrays(tables)))
    {
      hide Tables, AllLocated, LinkAt;
      ghost var cs, n := Contents(), |tables|;
      var newHash := new HashTable(newCapacity, implicitProducerHash);
      EnlargeKeeps(cs, hash, owner, newHash.entries[..]);
      LinkMore(tables, newHash);
      implicitProducerHash := newHash;
      tables := tables + [newHash];
      assert Contents() == cs + [newHash.entries[..]];
    }

    /** A new thread gets its producer. */
    method Add(id: Id, m: Producer)
      requires Sound() && id !in owner && |owner| + 1 < implicitProducerHash.capacity
      modifies this`owner, implicitProducerHash.entries
      ensures Sound() && owner == old(owner)[id := m] && Has(implicitProducerHash.entries[..], id)
    {
      hide Tables, Has, Located;
      ghost var cs := Contents();
      GrowKeeps(cs, hash, owner, id, m);
      assert cs[|tables| - 1] == implicitProducerHash.entries[..];
      assert |owner[id := m]| == |owner| + 1;
      assert forall x | x in owner :: Located(Contents(), x, 0);
      owner := owner[id := m];
      assert Contents() == cs;
      Insert(id, m);
    }

    /** The capacity of the next table: the first of its doubles of which the count is below half. */
    static method LargerCapacity(capacity: nat, newCount: nat) returns (newCapacity: nat)
      requires capacity > 0
      ensures newCapacity > capacity && newCount < newCapacity / 2
      ensures exists k: nat :: newCapacity == capacity * Pow2(k)
      ensures newCapacity == 2 * capacity || newCount >= newCapacity / 2 / 2
    {
      newCapacity := capacity * 2;
      ghost var k := 1;
      assert Pow2(1) == 2;
      while newCount >= newCapacity / 2
        invariant newCapacity > capacity && newCapacity == capacity * Pow2(k)
        invariant newCapacity == 2 * capacity || newCount >= newCapacity / 2 / 2
        decreases newCount - newCapacity / 2
      {
        newCapacity := newCapacity * 2;
        k := k + 1;
      }
    }

    /** `get_or_add_implicit_producer`.  A known thread gets its producer, however many tables
        deep; a new one gets the producer that is created for it, or nothing, and then the map
        has not changed.  `memory` tells whether a larger table can be had. */
    method GetOrAdd(id: Id, memory: bool, created: Option<Producer>) returns (r: Option<Producer>)
      requires Valid()
      modifies this, Arrays(tables)
      ensures Valid()
      ensures id in old(owner) ==> owner == old(owner) && r == Some(owner[id])
      ensures r.Some? ==> Has(implicitProducerHash.entries[..], id)
      ensures id !in old(owner) ==>
                (r == None <==> created.None? || (|old(owner)| + 1 >= old(implicitProducerHash.capacity) / 2 && !memory))
      ensures id !in old(owner) && r == None ==> owner == old(owner)
      ensures id !in old(owner) && r != None ==> r == created && owner == old(owner)[id := r.value]
    {
      hide Sound;
      NewestInArrays();
      var found, value := Search(id);
      if found { return Some(value); }
      implicitProducerHashCount := implicitProducerHashCount + 1;
      var newCount := implicitProducerHashCount;
      if newCount >= implicitProducerHash.capacity / 2 {
        var newCapacity := LargerCapacity(implicitProducerHash.capacity, newCount);
        if !memory {
          implicitProducerHashCount := implicitProducerHashCount - 1;
          return None;
        }
        Enlarge(newCapacity);
      }
      assert newCount < implicitProducerHash.capacity / 2 + implicitProducerHash.capacity / 4;
      if created.None? {
        implicitProducerHashCount := implicitProducerHashCount - 1;
        return None;
      }
      NewestInArrays();
      Add(id, created.value);
      r := created;
    }
  }
}
