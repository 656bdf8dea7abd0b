/** The circular block index of an implicit producer as a value
    (libs/async/include/suil/async/detail/concurrentqueue.h:4057-4217): a ring of slots, one
    for each block that the producer has started lately, and the plain map from block number
    to block that it stands for. */
module BlockRing {
  import opened Bytes
  import opened Modular

  const WORD: nat := 0x1_0000_0000_0000_0000
  const HALF: nat := 0x8000_0000_0000_0000
  const BLOCK_SIZE: nat := 32
  const BLOCKS: nat := 0x800_0000_0000_0000
  const INVALID_BLOCK_BASE: nat := 1

  type Block = nat

  datatype Slot = Slot(key: nat, value: Option<Block>)

  /** `next` is the number of the next block, counted without wrap-around; `live` maps the
      blocks that are published and not yet released; `pending` says that the newest slot is
      reserved and its block not published yet. */
  datatype Index = Index(tail: nat, slots: seq<Slot>, next: nat, live: map<nat, Block>, pending: bool)

  /** The 64-bit index of the first element of block `b`. */
  function Base(b: nat): nat { b * BLOCK_SIZE % WORD }

  predicate PowerOfTwo(c: nat) { c == 1 || (c > 1 && c % 2 == 0 && PowerOfTwo(c / 2)) }

  predicate Capacity(c: nat) { 1 < c <= BLOCKS && PowerOfTwo(c) }

  /** The position `d` places behind `p` on a ring of `c`. */
  function Back(p: nat, d: nat, c: nat): (r: nat)
    requires p < c && d < c
    ensures r < c
  {
    if d <= p then p - d else p - d + c
  }

  function Forth(p: nat, c: nat): nat { if p + 1 == c then 0 else p + 1 }

  function SlotAt(x: Index, d: nat): Slot
    requires x.tail < |x.slots| && d < |x.slots|
  {
    x.slots[Back(x.tail, d, |x.slots|)]
  }

  // ----- Invariant ---------------------------------------------------------------------

  /** The slot `d` places behind the newest was never used, or belongs to the `d`-th block
      before the newest, or is left over from a reservation given up; and it has a value only
      while that block is live. */
  ghost predicate SlotOk(x: Index, d: nat)
    requires x.tail < |x.slots| && d < |x.slots|
  {
    var s := SlotAt(x, d);
    && (s.key == INVALID_BLOCK_BASE
        || (d < x.next && s.key == Base(x.next - 1 - d))
        || (d == |x.slots| - 1 && s.key == Base(x.next) && s.value.None? && !x.pending))
    && (s.key != INVALID_BLOCK_BASE && s.value.Some? && !(x.pending && d == 0)
        ==> d < x.next && x.next - 1 - d in x.live && x.live[x.next - 1 - d] == s.value.value)
  }

  ghost predicate LiveOk(x: Index, b: nat)
    requires x.tail < |x.slots| && b in x.live
  {
    && b < x.next && x.next - b <= |x.slots| && !(x.pending && b == x.next - 1)
    && SlotAt(x, x.next - 1 - b) == Slot(Base(b), Some(x.live[b]))
  }

  ghost predicate Inv(x: Index) {
    && Capacity(|x.slots|) && x.tail < |x.slots|
    && (forall d: nat {:trigger SlotOk(x, d)} | d < |x.slots| :: SlotOk(x, d))
    && (forall b: nat {:trigger LiveOk(x, b)} | b in x.live :: LiveOk(x, b))
    && (x.next > 0 ==> SlotAt(x, 0).key == Base(x.next - 1))
    && (x.pending ==> x.next > 0 && (x.next > 1 ==> SlotAt(x, 1).key == Base(x.next - 2)))
  }

  // ----- Operations --------------------------------------------------------------------

  /** The slot after the newest can be used. */
  predicate Room(x: Index)
    requires x.tail < |x.slots|
  {
    var s := x.slots[Forth(x.tail, |x.slots|)];
    s.key == INVALID_BLOCK_BASE || s.value.None?
  }

  function Reserve(x: Index): Index
    requires x.tail < |x.slots|
  {
    var q := Forth(x.tail, |x.slots|);
    x.(slots := x.slots[q := x.slots[q].(key := Base(x.next))], tail := q, next := x.next + 1, pending := true)
  }

  function Publish(x: Index, m: Block): Index
    requires x.tail < |x.slots| && x.next > 0
  {
    x.(slots := x.slots[x.tail := x.slots[x.tail].(value := Some(m))],
       live := x.live[x.next - 1 := m], pending := false)
  }

  function Abandon(x: Index): Index
    requires x.tail < |x.slots| && x.next > 0 && 1 < |x.slots|
  {
    x.(slots := x.slots[x.tail := x.slots[x.tail].(value := None)],
       tail := Back(x.tail, 1, |x.slots|), next := x.next - 1, pending := false)
  }

  function Release(x: Index, b: nat): Index
    requires x.tail < |x.slots| && b < x.next && x.next - b <= |x.slots|
  {
    var q := Back(x.tail, x.next - 1 - b, |x.slots|);
    x.(slots := x.slots[q := x.slots[q].(value := None)], live := x.live - {b})
  }

  /** The slots from the oldest to the newest. */
  function Unrolled(x: Index): (r: seq<Slot>)
    requires x.tail < |x.slots|
    ensures |r| == |x.slots|
  {
    seq(|x.slots|, i requires 0 <= i < |x.slots| => SlotAt(x, |x.slots| - 1 - i))
  }

  /** `new_block_index`: twice the slots; the new ones are unused and hold any value. */
  function Doubled(x: Index, added: seq<Slot>): Index
    requires x.tail < |x.slots|
  {
    x.(slots := Unrolled(x) + added, tail := |x.slots| - 1)
  }

  // ----- Every operation keeps the invariant -----------------------------------------------

  lemma BaseIsBase(b: nat)
    ensures Base(b) != INVALID_BLOCK_BASE && Base(b) % BLOCK_SIZE == 0 && Base(b) < WORD
    ensures Base(b) / BLOCK_SIZE == b % BLOCKS
  {
  }

  /** The index is full exactly when the block `capacity` before the next one is still live. */
  lemma RoomIffReleased(x: Index)
    requires Inv(x) && !x.pending
    ensures Room(x) <==> !(x.next >= |x.slots| && x.next - |x.slots| in x.live)
  {
    var c := |x.slots|;
    assert Back(x.tail, c - 1, c) == Forth(x.tail, c);
    assert SlotOk(x, c - 1);
    if x.next >= c && x.next - c in x.live {
      assert LiveOk(x, x.next - c);
      BaseIsBase(x.next - c);
    }
  }

  lemma ReserveSlot(x: Index, d: nat)
    requires Inv(x) && !x.pending && Room(x) && d < |x.slots|
    ensures SlotOk(Reserve(x), d)
  {
    hide LiveOk, Base;
    if d > 0 { assert SlotOk(x, d - 1) && SlotAt(Reserve(x), d) == SlotAt(x, d - 1); }
  }

  lemma ReserveLive(x: Index, b: nat)
    requires Inv(x) && !x.pending && Room(x) && b in x.live
    ensures LiveOk(Reserve(x), b)
  {
    hide SlotOk, Base;
    RoomIffReleased(x);
    assert LiveOk(x, b);
    assert SlotAt(Reserve(x), x.next - b) == SlotAt(x, x.next - 1 - b);
  }

  lemma ReserveKeepsInv(x: Index)
    requires Inv(x) && !x.pending && Room(x)
    ensures Inv(Reserve(x)) && Reserve(x).live == x.live
  {
    hide SlotOk, LiveOk, Base, PowerOfTwo;
    var y, c := Reserve(x), |x.slots|;
    forall d: nat | d < c ensures SlotOk(y, d) { ReserveSlot(x, d); }
    forall b: nat | b in y.live ensures LiveOk(y, b) { ReserveLive(x, b); }
    if x.next > 0 { assert SlotAt(y, 1) == SlotAt(x, 0); }
  }

  lemma PublishKeepsInv(x: Index, m: Block)
    requires Inv(x) && x.pending
    ensures Inv(Publish(x, m))
  {
    var y, c := Publish(x, m), |x.slots|;
    forall d: nat | d < c ensures SlotOk(y, d) {
      assert SlotOk(x, d);
      if d > 0 { assert SlotAt(y, d) == SlotAt(x, d); }
    }
    forall b: nat | b in y.live ensures LiveOk(y, b) {
      if b != x.next - 1 {
        assert LiveOk(x, b);
        assert SlotAt(y, y.next - 1 - b) == SlotAt(x, x.next - 1 - b);
      }
    }
  }

  lemma AbandonKeepsInv(x: Index)
    requires Inv(x) && x.pending
    ensures Inv(Abandon(x)) && Abandon(x).live == x.live
  {
    var y, c := Abandon(x), |x.slots|;
    forall d: nat | d < c ensures SlotOk(y, d) {
      if d < c - 1 {
        assert SlotOk(x, d + 1) && SlotAt(y, d) == SlotAt(x, d + 1);
      } else {
        assert Back(y.tail, d, c) == x.tail;
        assert SlotOk(x, 0);
      }
    }
    forall b: nat | b in y.live ensures LiveOk(y, b) {
      assert LiveOk(x, b);
      assert SlotAt(y, y.next - 1 - b) == SlotAt(x, x.next - 1 - b);
    }
    if y.next > 0 { assert SlotAt(y, 0) == SlotAt(x, 1); }
  }

  lemma ReleaseSlot(x: Index, b: nat, d: nat)
    requires Inv(x) && b in x.live && LiveOk(x, b) && d < |x.slots|
    ensures SlotOk(Release(x, b), d)
  {
    hide Base, PowerOfTwo;
    assert SlotOk(x, d);
    if d != x.next - 1 - b { assert SlotAt(Release(x, b), d) == SlotAt(x, d); }
  }

  lemma ReleaseLive(x: Index, b: nat, a: nat)
    requires Inv(x) && b in x.live && LiveOk(x, b) && a in x.live && a != b
    ensures LiveOk(Release(x, b), a)
  {
    hide SlotOk, Base, PowerOfTwo;
    assert LiveOk(x, a);
    assert SlotAt(Release(x, b), x.next - 1 - a) == SlotAt(x, x.next - 1 - a);
  }

  lemma ReleaseKeepsInv(x: Index, b: nat)
    requires Inv(x) && b in x.live && LiveOk(x, b)
    ensures Inv(Release(x, b))
  {
    var y, c := Release(x, b), |x.slots|;
    hide SlotOk, LiveOk, Base, PowerOfTwo;
    forall d: nat | d < c ensures SlotOk(y, d) { ReleaseSlot(x, b, d); }
    forall a: nat | a in y.live ensures LiveOk(y, a) { ReleaseLive(x, b, a); }
    if x.next > 0 { assert SlotAt(y, 0).key == SlotAt(x, 0).key; }
    if x.pending && x.next > 1 { assert SlotAt(y, 1).key == SlotAt(x, 1).key; }
  }

  predicate Unused(added: seq<Slot>) { forall i :: 0 <= i < |added| ==> added[i].key == INVALID_BLOCK_BASE }

  /** Doubling the full index moves every live block and loses none. */
  lemma DoubledKeepsInv(x: Index, added: seq<Slot>)
    requires Inv(x) && !x.pending && !Room(x) && |x.slots| <= BLOCKS / 2
    requires |added| == |x.slots| && Unused(added)
    ensures Inv(Doubled(x, added)) && Room(Doubled(x, added))
  {
    var y, c := Doubled(x, added), |x.slots|;
    assert Capacity(2 * c) by { assert 2 * c / 2 == c; }
    RoomIffReleased(x);
    forall d: nat | d < 2 * c ensures SlotOk(y, d) {
      if d < c {
        assert SlotOk(x, d) && SlotAt(y, d) == SlotAt(x, d);
      } else {
        assert SlotAt(y, d) == added[2 * c - 1 - d];
      }
    }
    forall b: nat | b in y.live ensures LiveOk(y, b) {
      assert LiveOk(x, b);
      assert SlotAt(y, y.next - 1 - b) == SlotAt(x, x.next - 1 - b);
    }
    assert SlotAt(y, 0) == SlotAt(x, 0);
    assert y.slots[Forth(y.tail, 2 * c)] == added[0];
  }

  // ----- Lookup ------------------------------------------------------------------------

  /** A key at position `p` of a ring of `c`, in step with the ring's origin. */
  predicate Fits(c: nat, origin: int, p: nat, key: nat)
    requires c > 0
  {
    key % BLOCK_SIZE == 0 && key < WORD && Cong(key / BLOCK_SIZE, p + origin, c)
  }

  /** The conversion of an unsigned 64-bit value to signed. */
  function Signed(x: nat): int { if x < HALF then x else x - WORD }

  /** `get_block_index_index_for_index` on a ring of `c`, given the position and the key that
      were read: the signed difference is converted back by the division by an unsigned size,
      and the sum is masked. */
  function FindPosition(c: nat, tail: nat, tailBase: nat, index: nat): (r: nat)
    requires c > 0
    ensures r < c
  {
    var start := index - index % BLOCK_SIZE;
    var offset := Signed((start - tailBase) % WORD) % WORD / BLOCK_SIZE;
    (tail + offset) % WORD % c
  }

  lemma CapacityDivides(c: nat) returns (k: nat)
    requires Capacity(c)
    ensures k * c == BLOCKS
  {
    var i := Exponent(c);
    BlocksIsPower();
    if i > 59 { Pow2Grows(59, i); }
    Pow2Add(59 - i, i);
    k := Pow2(59 - i);
  }

  lemma SmallPowers()
    ensures Pow2(3) == 8 && Pow2(8) == 256
  {
  }

  lemma BlocksIsPower()
    ensures Pow2(59) == BLOCKS
  {
    hide Pow2;
    SmallPowers();
    Pow2Add(8, 8);
    Pow2Add(16, 16);
    Pow2Add(32, 16);
    Pow2Add(48, 8);
    Pow2Add(56, 3);
  }

  lemma {:induction false} Exponent(c: nat) returns (i: nat)
    requires PowerOfTwo(c)
    ensures c == Pow2(i)
  {
    if c == 1 {
      i := 0;
    } else {
      i := Exponent(c / 2);
      i := i + 1;
    }
  }

  lemma OffsetCounts(a: nat, k: nat)
    requires a < BLOCKS && k < BLOCKS
    ensures (a * BLOCK_SIZE - k * BLOCK_SIZE) % WORD / BLOCK_SIZE == (a - k) % BLOCKS
  {
  }

  lemma SignedBack(x: nat)
    requires x < WORD
    ensures Signed(x) % WORD == x
  {
  }

  lemma FindPositionIs(c: nat, tail: nat, tailBase: nat, index: nat)
    requires 0 < c && tail < BLOCKS && tailBase < WORD && tailBase % BLOCK_SIZE == 0 && index < WORD
    ensures FindPosition(c, tail, tailBase, index) == (tail + (index / BLOCK_SIZE - tailBase / BLOCK_SIZE) % BLOCKS) % c
  {
    hide Signed;
    var a, k := index / BLOCK_SIZE, tailBase / BLOCK_SIZE;
    OffsetCounts(a, k);
    SignedBack((a * BLOCK_SIZE - k * BLOCK_SIZE) % WORD);
    var offset: nat := (a - k) % BLOCKS;
    SmallMod(tail + offset, WORD);
  }

  /** Whatever tail position was read, and however old its key: the lookup finds the slot
      whose key is the block's base, because the capacity divides 2^59. */
  lemma FindsTheKey(c: nat, origin: int, tail: nat, tailBase: nat, index: nat, p: nat)
    requires Capacity(c) && tail < c && p < c && index < WORD
    requires Fits(c, origin, tail, tailBase) && Fits(c, origin, p, index - index % BLOCK_SIZE)
    ensures FindPosition(c, tail, tailBase, index) == p
  {
    hide Cong, PowerOfTwo, FindPosition;
    var a, k := index / BLOCK_SIZE, tailBase / BLOCK_SIZE;
    FindPositionIs(c, tail, tailBase, index);
    assert (index - index % BLOCK_SIZE) / BLOCK_SIZE == a;
    InStep(c, tail, p, a - k, a, k, origin);
  }

  lemma InStep(c: nat, tail: nat, p: nat, diff: int, a: int, k: int, origin: int)
    requires Capacity(c) && tail < c && p < c && diff == a - k
    requires Cong(a, p + origin, c) && Cong(k, tail + origin, c)
    ensures (tail + diff % BLOCKS) % c == p
  {
    hide Cong;
    var offset := diff % BLOCKS;
    var m := CapacityDivides(c);
    CongRem(diff, BLOCKS);
    CongDivisor(offset, diff, c, m, BLOCKS);
    CongSub(a, p + origin, k, tail + origin, c);
    CongTrans(offset, diff, p - tail, c);
    CongRefl(tail, c);
    CongAdd(offset, p - tail, tail, tail, c);
    CongRem(tail + offset, c);
    CongTrans((tail + offset) % c, tail + offset, p, c);
    CongSmall((tail + offset) % c, p, c);
  }

  function Origin(x: Index): int { x.next - 1 - x.tail }

  lemma BaseFits(c: nat, origin: int, p: nat, n: nat)
    requires Capacity(c) && Cong(n, p + origin, c)
    ensures Fits(c, origin, p, Base(n))
  {
    BaseIsBase(n);
    var m := CapacityDivides(c);
    CongRem(n, BLOCKS);
    CongDivisor(n % BLOCKS, n, c, m, BLOCKS);
    CongTrans(n % BLOCKS, n, p + origin, c);
  }

  /** Every key of the index is in step. */
  lemma KeysFit(x: Index, p: nat)
    requires Inv(x) && p < |x.slots| && x.slots[p].key != INVALID_BLOCK_BASE
    ensures Fits(|x.slots|, Origin(x), p, x.slots[p].key)
  {
    var c := |x.slots|;
    var d := if p <= x.tail then x.tail - p else x.tail - p + c;
    assert Back(x.tail, d, c) == p && SlotOk(x, d);
    var o := p + Origin(x);
    if d < x.next && x.slots[p].key == Base(x.next - 1 - d) {
      CongMultiple(o, if p <= x.tail then 0 else -1, c);
      BaseFits(c, Origin(x), p, x.next - 1 - d);
    } else {
      CongMultiple(o, if p <= x.tail then 1 else 0, c);
      BaseFits(c, Origin(x), p, x.next);
    }
  }

  lemma ElementStart(b: nat, i: nat)
    requires i < BLOCK_SIZE
    ensures var index := (b * BLOCK_SIZE + i) % WORD;
            index < WORD && index - index % BLOCK_SIZE == Base(b)
  {
    var q, r := b / BLOCKS, b % BLOCKS;
    DivModUnique(q, r * BLOCK_SIZE, WORD);
    DivModUnique(q, r * BLOCK_SIZE + i, WORD);
    DivModUnique(r, i, BLOCK_SIZE);
  }

  /** The index agrees with the plain map: from the newest slot, the lookup of any element of
      a live block ends at the slot that holds that block. */
  lemma LookupAgrees(x: Index, b: nat, i: nat)
    requires Inv(x) && b in x.live && i < BLOCK_SIZE
    ensures var r := FindPosition(|x.slots|, x.tail, x.slots[x.tail].key, (b * BLOCK_SIZE + i) % WORD);
            x.slots[r] == Slot(Base(b), Some(x.live[b]))
  {
    hide FindPosition, Fits, PowerOfTwo;
    assert LiveOk(x, b);
    var c := |x.slots|;
    var p := Back(x.tail, x.next - 1 - b, c);
    BaseIsBase(b);
    BaseIsBase(x.next - 1);
    KeysFit(x, p);
    KeysFit(x, x.tail);
    var index := (b * BLOCK_SIZE + i) % WORD;
    ElementStart(b, i);
    FindsTheKey(c, Origin(x), x.tail, x.slots[x.tail].key, index, p);
  }
}
