/** The block index of `ImplicitProducer` in memory: headers that share their entries with the
    header they replace (libs/async/include/suil/async/detail/concurrentqueue.h:4057-4221). */
module BlockIndex {
  import opened Bytes
  import opened Modular
  import opened BlockRing

  class Entry {
    var key: nat
    var value: Option<Block>

    constructor ()
      ensures key == INVALID_BLOCK_BASE
    {
      key := INVALID_BLOCK_BASE;
    }
  }

  /** `index`, `capacity` and `prev` never change; `shift` is the position in `prev` of the
      first entry, and `origin` the difference of block numbers and positions. */
  class Header {
    const capacity: nat
    const index: seq<Entry>
    const prev: Header?
    var tail: nat
    ghost const shift: nat
    ghost const origin: int

    constructor (capacity: nat, index: seq<Entry>, prev: Header?, tail: nat, ghost shift: nat, ghost origin: int)
      ensures this.capacity == capacity && this.index == index && this.prev == prev && this.tail == tail
      ensures this.shift == shift && this.origin == origin
    {
      this.capacity, this.index, this.prev, this.tail := capacity, index, prev, tail;
      this.shift, this.origin := shift, origin;
    }
  }

  predicate Distinct(s: seq<Entry>) { forall i, j :: 0 <= i < j < |s| ==> s[i] != s[j] }

  ghost predicate Shaped(h: Header) {
    Capacity(h.capacity) && |h.index| == h.capacity && Distinct(h.index)
  }

  function Turn(i: nat, shift: nat, c: nat): nat { if i + shift < c then i + shift else i + shift - c }

  /** The first half of `h` is `g`, turned. */
  ghost predicate Derived(g: Header, h: Header) {
    && Shaped(g) && Shaped(h)
    && h.prev == g && h.capacity == 2 * g.capacity && h.shift < g.capacity
    && Cong(h.origin, h.shift + g.origin, g.capacity)
    && forall i: nat | i < g.capacity :: h.index[i] == g.index[Turn(i, h.shift, g.capacity)]
  }

  ghost predicate Link(chain: seq<Header>, i: nat)
    requires 0 < i < |chain|
  {
    Derived(chain[i - 1], chain[i])
  }

  ghost predicate Linked(chain: seq<Header>) {
    && (|chain| > 0 ==> Shaped(chain[0]))
    && (forall i: nat {:trigger Link(chain, i)} | 0 < i < |chain| :: Link(chain, i))
  }

  ghost function SlotsOf(index: seq<Entry>): (s: seq<Slot>)
    reads set e | e in index
    ensures |s| == |index| && forall i :: 0 <= i < |s| ==> s[i] == Slot(index[i].key, index[i].value)
  {
    seq(|index|, i requires 0 <= i < |index| reads set e | e in index => Slot(index[i].key, index[i].value))
  }

  /** `key` could be read at any time from position `p` of `h`. */
  ghost predicate InStepWith(h: Header, p: nat, key: nat) { h.capacity > 0 && Fits(h.capacity, h.origin, p, key) }

  lemma MaskedNext(p: nat, c: nat)
    requires p < c
    ensures (p + 1) % c == Forth(p, c)
  {
    if p + 1 < c { SmallMod(p + 1, c); }
  }

  lemma MaskedBack(p: nat, c: nat)
    requires p < c && 1 < c
    ensures (p + c - 1) % c == Back(p, 1, c)
  {
    if p == 0 { SmallMod(c - 1, c); } else { ShiftResidue(p - 1, 1, c); SmallMod(p - 1, c); }
  }

  // ----- Older headers --------------------------------------------------------------------

  lemma TurnBack(j: nat, shift: nat, c: nat) returns (i: nat)
    requires j < c && shift < c
    ensures i < c && Turn(i, shift, c) == j && (i + shift == j || i + shift == j + c)
  {
    i := if shift <= j then j - shift else j - shift + c;
  }

  /** A key in step with a header is in step with the header that it replaced. */
  lemma FitsBefore(g: Header, h: Header, i: nat, key: nat)
    requires Derived(g, h) && i < g.capacity && InStepWith(h, i, key)
    ensures InStepWith(g, Turn(i, h.shift, g.capacity), key)
  {
    hide Cong, Capacity;
    var c, j, k := g.capacity, Turn(i, h.shift, g.capacity), key / BLOCK_SIZE;
    CongDivisor(k, i + h.origin, c, 2, 2 * c);
    CongRefl(i, c);
    CongAdd(i, i, h.origin, h.shift + g.origin, c);
    CongMultiple(j + g.origin, if i + h.shift < c then 0 else 1, c);
    CongTrans(i + h.origin, i + h.shift + g.origin, j + g.origin, c);
    CongTrans(k, i + h.origin, j + g.origin, c);
  }

  ghost predicate KeysInStep(h: Header)
    reads set e | e in h.index
  {
    forall p: nat | p < |h.index| && h.index[p].key != INVALID_BLOCK_BASE :: InStepWith(h, p, h.index[p].key)
  }

  /** Every key that any header reaches is in step with that header, however old. */
  lemma {:induction false} ChainInStep(chain: seq<Header>, i: nat)
    requires Linked(chain) && i < |chain| && KeysInStep(chain[|chain| - 1])
    ensures KeysInStep(chain[i])
    decreases |chain| - i
  {
    if i + 1 < |chain| {
      ChainInStep(chain, i + 1);
      var g, h := chain[i], chain[i + 1];
      assert Link(chain, i + 1);
      forall j: nat | j < |g.index| && g.index[j].key != INVALID_BLOCK_BASE ensures InStepWith(g, j, g.index[j].key) {
        var k := TurnBack(j, h.shift, g.capacity);
        assert h.index[k] == g.index[j];
        FitsBefore(g, h, k, h.index[k].key);
      }
    }
  }

  /** A header keeps the entries of the headers before it. */
  lemma {:induction false} EntriesStay(chain: seq<Header>, i: nat, j: nat, e: Entry)
    requires Linked(chain) && i <= j < |chain| && e in chain[i].index
    ensures e in chain[j].index
    decreases j
  {
    if i < j {
      EntriesStay(chain, i, j - 1, e);
      var g, h := chain[j - 1], chain[j];
      assert Link(chain, j);
      var p :| 0 <= p < |g.index| && g.index[p] == e;
      var k := TurnBack(p, h.shift, g.capacity);
      assert h.index[k] == e;
    }
  }

  /** The entries of `prev` from the oldest to the newest. */
  ghost predicate OldestAt(prev: Header, index: seq<Entry>, i: nat)
    requires |prev.index| == |index| == prev.capacity && i < prev.capacity
    reads prev
  {
    prev.tail < prev.capacity && index[i] == prev.index[Back(prev.tail, prev.capacity - 1 - i, prev.capacity)]
  }

  ghost predicate Oldest(prev: Header, index: seq<Entry>)
    requires |prev.index| == |index| == prev.capacity
    reads prev
  {
    forall i: nat {:trigger OldestAt(prev, index, i)} | i < prev.capacity :: OldestAt(prev, index, i)
  }

  lemma OldestDistinct(prev: Header, index: seq<Entry>)
    requires Shaped(prev) && |index| == prev.capacity && Oldest(prev, index)
    ensures Distinct(index)
  {
    forall i, j | 0 <= i < j < |index| ensures index[i] != index[j] {
      assert OldestAt(prev, index, i) && OldestAt(prev, index, j);
    }
  }

  lemma CopiesDistinct(prev: Header, index: seq<Entry>, entries: seq<Entry>)
    requires Shaped(prev) && |index| == prev.capacity && Oldest(prev, index) && Distinct(entries)
    requires forall e | e in entries :: e !in prev.index
    ensures Distinct(index + entries)
  {
    OldestDistinct(prev, index);
    forall i, j | 0 <= i < |index| && 0 <= j < |entries| ensures index[i] != entries[j] {
      assert OldestAt(prev, index, i);
      assert entries[j] in entries;
    }
  }

  lemma OldestInside(prev: Header, index: seq<Entry>, e: Entry)
    requires |prev.index| == |index| == prev.capacity && Oldest(prev, index) && e in index
    ensures e in prev.index
  {
    var i :| 0 <= i < |index| && index[i] == e;
    assert OldestAt(prev, index, i);
  }

  lemma NewTail(c: nat)
    requires 0 < c
    ensures (c + 2 * c - 1) % (2 * c) == c - 1
  {
    ShiftResidue(c - 1, 1, 2 * c);
    SmallMod(c - 1, 2 * c);
  }

  lemma FirstShaped(h: Header)
    requires Capacity(h.capacity) && |h.index| == h.capacity && Distinct(h.index)
    ensures Shaped(h) && (h.capacity - 1) % h.capacity == h.capacity - 1
  {
    SmallMod(h.capacity - 1, h.capacity);
  }

  lemma UnrolledIs(prev: Header, index: seq<Entry>, x: Index)
    requires |prev.index| == |index| == prev.capacity && Oldest(prev, index)
    requires x.slots == SlotsOf(prev.index) && x.tail == prev.tail < prev.capacity
    ensures SlotsOf(index) == Unrolled(x)
  {
    forall i: nat | i < |index| ensures SlotsOf(index)[i] == Unrolled(x)[i] {
      assert OldestAt(prev, index, i);
      var p := Back(prev.tail, |index| - 1 - i, |index|);
      assert x.slots[p] == Slot(prev.index[p].key, prev.index[p].value);
      assert Unrolled(x)[i] == SlotAt(x, |x.slots| - 1 - i);
    }
  }

  /** The entry of block `b` belongs to the header it was entered through. */
  ghost predicate Home(index: seq<Entry>, tail: nat, next: nat, chain: seq<Header>, born: map<nat, nat>, b: nat) {
    && b in born && born[b] < |chain|
    && tail < |index| && b < next && next - b <= |index|
    && index[Back(tail, next - 1 - b, |index|)] in chain[born[b]].index
  }

  lemma HomeMoves(prev: Header, index: seq<Entry>, entries: seq<Entry>, next: nat,
                  chain: seq<Header>, header: Header, born: map<nat, nat>, b: nat)
    requires |prev.index| == |index| == |entries| == prev.capacity && Oldest(prev, index)
    requires Home(prev.index, prev.tail, next, chain, born, b)
    ensures Home(index + entries, prev.capacity - 1, next, chain + [header], born, b)
  {
    var d, c := next - 1 - b, prev.capacity;
    assert OldestAt(prev, index, c - 1 - d);
    assert (index + entries)[Back(c - 1, d, 2 * c)] == prev.index[Back(prev.tail, d, c)];
  }

  lemma HomeAfterReserve(x: Index, index: seq<Entry>, chain: seq<Header>, born: map<nat, nat>, b: nat)
    requires Inv(x) && !x.pending && Room(x) && b in x.live && |index| == |x.slots|
    requires Home(index, x.tail, x.next, chain, born, b)
    ensures Home(index, Reserve(x).tail, x.next + 1, chain, born, b)
  {
    assert LiveOk(x, b);
    ReserveKeepsInv(x);
    assert LiveOk(Reserve(x), b);
  }

  lemma HomeAfterAbandon(x: Index, index: seq<Entry>, chain: seq<Header>, born: map<nat, nat>, b: nat)
    requires Inv(x) && x.pending && b in x.live && |index| == |x.slots|
    requires Home(index, x.tail, x.next, chain, born, b)
    ensures Home(index, Abandon(x).tail, x.next - 1, chain, born, b)
  {
    assert LiveOk(x, b);
  }

  lemma AbandonOrigin(x: Index, origin: int)
    requires x.tail < |x.slots| && x.next > 0 && 1 < |x.slots| && Cong(origin, Origin(x), |x.slots|)
    ensures Cong(origin, Origin(Abandon(x)), |x.slots|)
  {
    var c := |x.slots|;
    CongMultiple(Origin(Abandon(x)), if x.tail == 0 then 1 else 0, c);
    CongTrans(origin, Origin(x), Origin(Abandon(x)), c);
  }

  lemma HomeAfterPublish(x: Index, index: seq<Entry>, chain: seq<Header>, born: map<nat, nat>)
    requires x.tail < |x.slots| == |index| && x.next > 0 && chain != [] && chain[|chain| - 1].index == index
    ensures Home(index, x.tail, x.next, chain, born[x.next - 1 := |chain| - 1], x.next - 1)
  {
    assert index[Back(x.tail, 0, |index|)] in index;
  }

  /** A key stands in one slot only. */
  lemma TheEntryOf(index: seq<Entry>, x: Index, p: nat, q: nat)
    requires x.slots == SlotsOf(index) && Inv(x) && p < |index| && q < |index|
    requires index[p].key == index[q].key != INVALID_BLOCK_BASE
    ensures p == q
  {
    hide Inv, Cong;
    var k, o, c := x.slots[p].key / BLOCK_SIZE, Origin(x), |index|;
    KeysFit(x, p);
    KeysFit(x, q);
    CongSym(k, p + o, c);
    CongTrans(p + o, k, q + o, c);
    CongRefl(o, c);
    CongSub(p + o, q + o, o, o, c);
    CongSmall(p, q, c);
  }

  lemma ReserveOrigin(x: Index, origin: int)
    requires x.tail < |x.slots| && Cong(origin, Origin(x), |x.slots|)
    ensures Cong(origin, Origin(Reserve(x)), |x.slots|)
  {
    var c := |x.slots|;
    CongMultiple(Origin(Reserve(x)), if x.tail + 1 == c then -1 else 0, c);
    CongTrans(origin, Origin(x), Origin(Reserve(x)), c);
  }

  lemma HomeElsewhere(index: seq<Entry>, tail: nat, next: nat, chain: seq<Header>, born: map<nat, nat>, b: nat)
    requires Home(index, tail, next, chain, born, b) && next > 0 && b != next - 1
    ensures Home(index, tail, next, chain, born[next - 1 := |chain| - 1], b)
  {
  }

  lemma HomesElsewhere(index: seq<Entry>, tail: nat, next: nat, chain: seq<Header>, born: map<nat, nat>, born': map<nat, nat>,
                       live: set<nat>)
    requires next > 0 && chain != [] && born' == born[next - 1 := |chain| - 1]
    requires forall b: nat {:trigger Home(index, tail, next, chain, born, b)} | b in live :: Home(index, tail, next, chain, born, b)
    ensures forall b: nat {:trigger Home(index, tail, next, chain, born', b)} | b in live && b != next - 1 ::
              Home(index, tail, next, chain, born', b)
  {
    hide Home;
    forall b: nat | b in live && b != next - 1 ensures Home(index, tail, next, chain, born', b) {
      HomeElsewhere(index, tail, next, chain, born, b);
    }
  }

  lemma LiveFacts(x: Index, b: nat)
    requires Inv(x) && b in x.live
    ensures LiveOk(x, b) && b < x.next && x.next - b <= |x.slots| && Base(b) != INVALID_BLOCK_BASE
  {
    assert LiveOk(x, b);
    BaseIsBase(b);
  }

  lemma LinkedAppend(chain: seq<Header>, header: Header)
    requires Linked(chain) && chain != [] && Derived(chain[|chain| - 1], header)
    ensures Linked(chain + [header])
  {
    hide Derived;
    forall i: nat | 0 < i < |chain| + 1 ensures Link(chain + [header], i) {
      if i < |chain| { assert Link(chain, i); }
    }
  }

  lemma TurnedOrigin(x: Index, origin: int)
    requires x.tail < |x.slots| && Cong(origin, Origin(x), |x.slots|)
    ensures Cong(x.next - |x.slots|, Forth(x.tail, |x.slots|) + origin, |x.slots|)
  {
    var c := |x.slots|;
    var shift := Forth(x.tail, c);
    CongRefl(shift, c);
    CongAdd(shift, shift, origin, Origin(x), c);
    CongSym(shift + origin, shift + Origin(x), c);
    CongMultiple(shift + Origin(x), if shift == 0 then 0 else -1, c);
    CongTrans(x.next - c, shift + Origin(x), shift + origin, c);
  }

  lemma ReplacedDerived(prev: Header, header: Header, index: seq<Entry>, entries: seq<Entry>)
    requires Shaped(prev) && Shaped(header) && header.prev == prev && header.capacity == 2 * prev.capacity
    requires |index| == prev.capacity && header.index == index + entries && Oldest(prev, index)
    requires prev.tail < prev.capacity && header.shift == Forth(prev.tail, prev.capacity)
    requires Cong(header.origin, header.shift + prev.origin, prev.capacity)
    ensures Derived(prev, header)
  {
    forall i: nat | i < prev.capacity ensures header.index[i] == prev.index[Turn(i, header.shift, prev.capacity)] {
      assert OldestAt(prev, index, i);
    }
  }

  // ----- The producer's index ----------------------------------------------------------------

  class ImplicitProducer {
    var blockIndex: Header?
    var nextBlockIndexCapacity: nat
    /** All headers so far, the newest last. */
    ghost var chain: seq<Header>
    ghost var next: nat
    ghost var live: map<nat, Block>
    ghost var pending: bool
    /** The header that a live block was entered through. */
    ghost var born: map<nat, nat>

    ghost function Entries(): set<Entry>
      reads this
    {
      if blockIndex == null then {} else set e | e in blockIndex.index
    }

    ghost function Model(): Index
      requires blockIndex != null
      reads this, blockIndex, Entries()
    {
      Index(blockIndex.tail, SlotsOf(blockIndex.index), next, live, pending)
    }

    ghost predicate HomeOk(b: nat)
      requires blockIndex != null
      reads this, blockIndex
    {
      Home(blockIndex.index, blockIndex.tail, next, chain, born, b)
    }

    ghost predicate Valid()
      reads this, blockIndex, Entries()
    {
      if blockIndex == null then
        chain == [] && next == 0 && live == map[] && !pending && Capacity(nextBlockIndexCapacity)
      else
        && chain != [] && chain[|chain| - 1] == blockIndex && Linked(chain)
        && nextBlockIndexCapacity == 2 * blockIndex.capacity && Shaped(blockIndex)
        && Inv(Model())
        && Cong(blockIndex.origin, Origin(Model()), blockIndex.capacity)
        && forall b: nat {:trigger HomeOk(b)} | b in live :: HomeOk(b)
    }

    /** The entry of the newest block. */
    ghost predicate Newest(e: Entry?)
      reads this, blockIndex
    {
      blockIndex != null && blockIndex.tail < |blockIndex.index| && e == blockIndex.index[blockIndex.tail]
    }

    lemma AllInStep(i: nat)
      requires Valid() && i < |chain|
      ensures KeysInStep(chain[i])
    {
      hide Cong, Inv;
      var h, x := blockIndex, Model();
      forall p: nat | p < |h.index| && h.index[p].key != INVALID_BLOCK_BASE ensures InStepWith(h, p, h.index[p].key) {
        KeysFit(x, p);
        var k := h.index[p].key / BLOCK_SIZE;
        CongRefl(p, h.capacity);
        CongSym(h.origin, Origin(x), h.capacity);
        CongAdd(p, p, Origin(x), h.origin, h.capacity);
        CongTrans(k, p + Origin(x), p + h.origin, h.capacity);
      }
      ChainInStep(chain, i);
    }

    /** `get_block_index_entry_for_index`, by a consumer that read header `h`, its tail and the
        key there at earlier moments.  Any header published since the block was entered, any
        tail position and any key read from it lead to the entry of the block. */
    method LookupFrom(h: Header, tail: nat, tailBase: nat, index: nat, ghost i: nat, ghost b: nat) returns (e: Entry)
      requires Valid() && b in live && b in born && born[b] <= i < |chain| && h == chain[i]
      requires tail < h.capacity && InStepWith(h, tail, tailBase)
      requires index < WORD && index - index % BLOCK_SIZE == Base(b)
      ensures e.key == Base(b) && e.value == Some(live[b])
    {
      hide Fits, FindPosition, PowerOfTwo;
      ghost var x := Model();
      assert LiveOk(x, b) && HomeOk(b);
      ghost var entry := blockIndex.index[Back(blockIndex.tail, next - 1 - b, |blockIndex.index|)];
      assert SlotAt(x, next - 1 - b) == Slot(entry.key, entry.value);
      EntriesStay(chain, born[b], i, entry);
      AllInStep(i);
      ghost var p :| 0 <= p < |h.index| && h.index[p] == entry;
      BaseIsBase(b);
      assert i > 0 ==> Link(chain, i);
      FindsTheKey(h.capacity, h.origin, tail, tailBase, index, p);
      e := h.index[FindPosition(h.capacity, tail, tailBase, index)];
    }

    /** The same by a reader of the present state. */
    method GetBlockIndexEntryForIndex(index: nat, ghost b: nat) returns (e: Entry)
      requires Valid() && b in live && index < WORD && index - index % BLOCK_SIZE == Base(b)
      ensures e.key == Base(b) && e.value == Some(live[b])
    {
      hide Fits, FindPosition, PowerOfTwo;
      assert LiveOk(Model(), b) && HomeOk(b);
      var localBlockIndex := blockIndex;
      var tail := localBlockIndex.tail;
      var tailBase := localBlockIndex.index[tail].key;
      AllInStep(|chain| - 1);
      BaseIsBase(next - 1);
      e := LookupFrom(localBlockIndex, tail, tailBase, index, |chain| - 1, b);
    }

    /** The copying loop of `new_block_index`. */
    static method CopyOldestFirst(prev: Header) returns (index: seq<Entry>)
      requires Shaped(prev) && prev.tail < prev.capacity
      ensures |index| == prev.capacity && Oldest(prev, index)
    {
      var c := prev.capacity;
      var prevTail := prev.tail;
      var prevPos := prevTail;
      var i := 0;
      index := [];
      while true
        invariant 0 <= i < c && |index| == i
        invariant prevPos == (if i == 0 then prevTail else Back(prevTail, c - i, c))
        invariant forall k: nat | k < i :: index[k] == prev.index[Back(prevTail, c - 1 - k, c)]
        decreases c - i
      {
        MaskedNext(prevPos, c);
        prevPos := (prevPos + 1) % c;
        index := index + [prev.index[prevPos]];
        i := i + 1;
        if prevPos == prevTail { break; }
      }
    }

    static method NewEntries(entryCount: nat) returns (entries: seq<Entry>)
      ensures |entries| == entryCount && Distinct(entries)
      ensures forall e | e in entries :: fresh(e) && e.key == INVALID_BLOCK_BASE
    {
      entries := [];
      for i := 0 to entryCount
        invariant |entries| == i && Distinct(entries)
        invariant forall e | e in entries :: fresh(e) && e.key == INVALID_BLOCK_BASE
      {
        var e := new Entry();
        entries := entries + [e];
      }
    }

    /** `new_block_index` while the index is full, or before there is one.  `memory` tells
        whether the allocation succeeds. */
    method NewBlockIndex(memory: bool) returns (ok: bool)
      requires Valid() && (blockIndex != null ==> !pending && !Room(Model()))
      requires memory ==> nextBlockIndexCapacity <= BLOCKS
      modifies this
      ensures Valid() && ok == memory
      ensures ok ==> blockIndex != null && fresh(blockIndex) && !pending && Room(Model())
      ensures ok ==> fresh(Entries() - old(Entries())) && next == old(next) && live == old(live)
      ensures ok && old(blockIndex) != null ==> blockIndex.capacity == 2 * old(blockIndex).capacity
      ensures !ok ==> unchanged(this)
    {
      hide Cong, Inv, Room, Linked, Home, PowerOfTwo, Oldest, Shaped;
      if !memory { return false; }
      var prev := blockIndex;
      var prevCapacity := if prev == null then 0 else prev.capacity;
      var entryCount := if prev == null then nextBlockIndexCapacity else prevCapacity;
      var index: seq<Entry> := [];
      if prev != null {
        TailInRange();
        index := CopyOldestFirst(prev);
        forall e | e in index ensures e in Entries() { OldestInside(prev, index, e); }
      }
      var entries := NewEntries(entryCount);
      var tail := (prevCapacity + nextBlockIndexCapacity - 1) % nextBlockIndexCapacity;
      var header := new Header(nextBlockIndexCapacity, index + entries, prev, tail,
        if prev == null then 0 else Forth(prev.tail, prevCapacity), next - prevCapacity);
      if prev == null {
        FirstShaped(header);
        Establish(header);
      } else {
        NewTail(prevCapacity);
        Replace(prev, header, index, entries);
      }
      ok := true;
    }

    lemma TailInRange()
      requires Valid() && blockIndex != null
      ensures blockIndex.tail < blockIndex.capacity == |blockIndex.index|
    {
      hide Cong, PowerOfTwo, Linked, Home;
    }

    /** The store of the first header. */
    method Establish(header: Header)
      requires Valid() && blockIndex == null && Shaped(header)
      requires header.capacity == nextBlockIndexCapacity && header.tail == header.capacity - 1 && header.origin == 0
      requires forall e | e in header.index :: e.key == INVALID_BLOCK_BASE
      modifies this
      ensures Valid() && blockIndex == header && Room(Model())
      ensures next == old(next) && live == old(live) && pending == old(pending)
    {
      blockIndex := header;
      nextBlockIndexCapacity := 2 * nextBlockIndexCapacity;
      chain := [header];
      ghost var x := Model();
      forall d: nat | d < |x.slots| ensures SlotOk(x, d) {
        assert x.slots[Back(x.tail, d, |x.slots|)].key == INVALID_BLOCK_BASE;
      }
      CongMultiple(Origin(x), 1, header.capacity);
    }

    /** The store of a header that replaces a full one. */
    method Replace(prev: Header, header: Header, ghost index: seq<Entry>, ghost entries: seq<Entry>)
      requires Valid() && blockIndex == prev && !pending && !Room(Model())
      requires header.capacity == 2 * prev.capacity <= BLOCKS && header.prev == prev
      requires header.tail == prev.capacity - 1 && header.origin == next - prev.capacity
      requires prev.tail < prev.capacity && header.shift == Forth(prev.tail, prev.capacity)
      requires header.index == index + entries && |index| == |entries| == prev.capacity
      requires Oldest(prev, index) && Distinct(entries)
      requires forall e | e in entries :: e !in Entries() && e.key == INVALID_BLOCK_BASE
      modifies this
      ensures Valid() && blockIndex == header && Room(Model())
      ensures next == old(next) && live == old(live) && pending == old(pending)
    {
      hide Capacity, Cong, Inv, Room, SlotAt, Home, Derived, Linked, Oldest, Unrolled;
      ghost var x, added := Model(), SlotsOf(entries);
      DoubledKeepsInv(x, added);
      CopiesDistinct(prev, index, entries);
      TurnedOrigin(x, prev.origin);
      ReplacedDerived(prev, header, index, entries);
      LinkedAppend(chain, header);
      assert forall b: nat | b in live :: HomeOk(b);
      blockIndex := header;
      nextBlockIndexCapacity := 2 * nextBlockIndexCapacity;
      chain := chain + [header];
      ghost var y := Model();
      UnrolledIs(prev, index, x);
      assert y.slots == Doubled(x, added).slots;
      CongRefl(header.origin, header.capacity);
      forall b: nat | b in live ensures HomeOk(b) {
        assert old(HomeOk(b));
        HomeMoves(prev, index, entries, next, old(chain), header, born, b);
      }
    }

    constructor (initialCapacity: nat, memory: bool)
      requires Capacity(initialCapacity)
      ensures Valid() && next == 0 && live == map[] && !pending
      ensures blockIndex != null <==> memory
      ensures fresh(Entries()) && (blockIndex != null ==> fresh(blockIndex))
    {
      hide PowerOfTwo;
      blockIndex, nextBlockIndexCapacity := null, initialCapacity;
      chain, next, live, pending, born := [], 0, map[], false, map[];
      new;
      var ok := NewBlockIndex(memory);
    }

    /** The two stores that reserve the slot after the newest one. */
    method TakeSlot(blockStartIndex: nat) returns (idxEntry: Entry)
      requires Valid() && blockIndex != null && !pending && Room(Model())
      requires blockStartIndex == Base(next)
      modifies this, blockIndex, Entries()
      ensures Valid() && blockIndex == old(blockIndex) && Model() == Reserve(old(Model()))
      ensures Newest(idxEntry)
    {
      hide Cong, Inv, Room, Linked, Home, PowerOfTwo, Derived;
      ghost var x := Model();
      TailInRange();
      ReserveKeepsInv(x);
      MaskedNext(blockIndex.tail, blockIndex.capacity);
      assert forall b: nat | b in live :: HomeOk(b);
      var newTail := (blockIndex.tail + 1) % blockIndex.capacity;
      idxEntry := blockIndex.index[newTail];
      idxEntry.key := blockStartIndex;
      blockIndex.tail := newTail;
      next, pending := next + 1, true;
      assert Model().slots == Reserve(x).slots;
      ReserveOrigin(x, blockIndex.origin);
      forall b: nat | b in live ensures HomeOk(b) {
        assert old(HomeOk(b));
        HomeAfterReserve(x, blockIndex.index, old(chain), old(born), b);
      }
    }

    /** `insert_block_index_entry`.  It fails exactly when there is no index, or the index is
        full of live blocks and cannot be doubled. */
    method InsertBlockIndexEntry(blockStartIndex: nat, canAlloc: bool, memory: bool) returns (ok: bool, idxEntry: Entry?)
      requires Valid() && !pending && blockStartIndex == Base(next)
      requires memory ==> nextBlockIndexCapacity <= BLOCKS
      modifies this, blockIndex, Entries()
      ensures Valid() && live == old(live)
      ensures ok <==> old(blockIndex != null && (Room(Model()) || (canAlloc && memory)))
      ensures ok ==> pending && next == old(next) + 1 && Newest(idxEntry)
      ensures ok && !old(Room(Model())) ==> blockIndex.capacity == 2 * old(blockIndex).capacity
      ensures !ok ==> !pending && next == old(next)
      ensures fresh(Entries() - old(Entries())) && (blockIndex != old(blockIndex) ==> fresh(blockIndex))
    {
      hide Cong, Inv, Linked, Home, PowerOfTwo, Derived;
      idxEntry := null;
      var localBlockIndex := blockIndex;
      if localBlockIndex == null { return false, null; }
      TailInRange();
      MaskedNext(localBlockIndex.tail, localBlockIndex.capacity);
      var newTail := (localBlockIndex.tail + 1) % localBlockIndex.capacity;
      var entry := localBlockIndex.index[newTail];
      if entry.key == INVALID_BLOCK_BASE || entry.value.None? {
        idxEntry := TakeSlot(blockStartIndex);
        return true, idxEntry;
      }
      if !canAlloc { return false, null; }
      ok := NewBlockIndex(memory);
      if !ok { return; }
      idxEntry := TakeSlot(blockStartIndex);
    }

    /** The store that publishes the block. */
    method PublishBlock(idxEntry: Entry, m: Block)
      requires Valid() && pending && Newest(idxEntry)
      modifies this, idxEntry
      ensures Valid() && blockIndex == old(blockIndex) && next == old(next) > 0 && !pending
      ensures live == old(live)[next - 1 := m]
    {
      hide Cong, Inv, Linked, PowerOfTwo, Derived, Home;
      ghost var x := Model();
      PendingFacts();
      PublishKeepsInv(x, m);
      HomeAfterPublish(x, blockIndex.index, chain, born);
      assert forall b: nat | b in live :: HomeOk(b);
      HomesElsewhere(blockIndex.index, x.tail, next, chain, born, born[next - 1 := |chain| - 1], live.Keys);
      idxEntry.value := Some(m);
      live, pending, born := live[next - 1 := m], false, born[next - 1 := |chain| - 1];
      assert Model().slots == Publish(x, m).slots;
      forall b: nat | b in live ensures HomeOk(b) {
        assert Home(blockIndex.index, blockIndex.tail, next, chain, born, b);
      }
    }

    lemma PendingFacts()
      requires Valid() && blockIndex != null
      ensures blockIndex.tail < blockIndex.capacity == |blockIndex.index| && 1 < blockIndex.capacity
      ensures pending ==> next > 0
    {
      hide Cong, PowerOfTwo, Linked, Home;
    }

    /** `rewind_block_index_tail`, and the store that follows it. */
    method GiveUp(idxEntry: Entry)
      requires Valid() && pending && Newest(idxEntry)
      modifies this, blockIndex, idxEntry
      ensures Valid() && blockIndex == old(blockIndex)
      ensures next == old(next) - 1 && !pending && live == old(live)
    {
      hide Cong, Inv, Linked, PowerOfTwo, Derived, Home;
      ghost var x := Model();
      PendingFacts();
      AbandonKeepsInv(x);
      AbandonOrigin(x, blockIndex.origin);
      assert forall b: nat | b in live :: HomeOk(b);
      MaskedBack(blockIndex.tail, blockIndex.capacity);
      blockIndex.tail := (blockIndex.tail + blockIndex.capacity - 1) % blockIndex.capacity;
      idxEntry.value := None;
      next, pending := next - 1, false;
      assert Model().slots == Abandon(x).slots;
      forall b: nat | b in live ensures HomeOk(b) {
        assert old(HomeOk(b));
        HomeAfterAbandon(x, blockIndex.index, chain, born, b);
      }
    }

    /** How a block leaves the index: the store of the consumer that emptied it. */
    method RemoveBlock(e: Entry, ghost b: nat)
      requires Valid() && b in live && e in Entries() && e.key == Base(b)
      modifies this, e
      ensures Valid() && blockIndex == old(blockIndex)
      ensures next == old(next) && pending == old(pending) && live == old(live) - {b}
    {
      hide Cong, Inv, Linked, PowerOfTwo, Derived, Home;
      ghost var x := Model();
      PendingFacts();
      LiveFacts(x, b);
      ghost var p := PositionOf(e);
      ghost var q := Back(x.tail, x.next - 1 - b, |x.slots|);
      TheEntryOf(blockIndex.index, x, p, q);
      ReleaseKeepsInv(x, b);
      assert forall a: nat | a in live :: HomeOk(a);
      e.value := None;
      live := live - {b};
      assert Model().slots == Release(x, b).slots;
      assert forall a: nat | a in live :: old(HomeOk(a));
    }

    lemma PositionOf(e: Entry) returns (p: nat)
      requires blockIndex != null && e in Entries()
      ensures p < |blockIndex.index| && blockIndex.index[p] == e
    {
      p :| 0 <= p < |blockIndex.index| && blockIndex.index[p] == e;
    }

    /** The start of a block in `enqueue`: the map gains the new block, or nothing has changed.
        It fails exactly when no block can be had, or there is no index, or the block that is
        a whole turn older is still live and the index cannot be doubled. */
    method StartBlock(currentTailIndex: nat, canAlloc: bool, memory: bool, block: Option<Block>) returns (ok: bool)
      requires Valid() && !pending && currentTailIndex == Base(next) && (memory ==> nextBlockIndexCapacity <= BLOCKS)
      modifies this, blockIndex, Entries()
      ensures Valid() && !pending
      ensures ok ==> next == old(next) + 1 && block.Some? && live == old(live)[old(next) := block.value]
      ensures !ok ==> next == old(next) && live == old(live)
      ensures ok <==> block.Some? && old(blockIndex != null
                && (next < blockIndex.capacity || next - blockIndex.capacity !in live || (canAlloc && memory)))
    {
      hide Inv, Room;
      if blockIndex != null { RoomIffReleased(Model()); }
      var idxEntry;
      ok, idxEntry := InsertBlockIndexEntry(currentTailIndex, canAlloc, memory);
      if !ok { return; }
      if block.None? {
        GiveUp(idxEntry);
        return false;
      }
      PublishBlock(idxEntry, block.value);
    }
  }
}
