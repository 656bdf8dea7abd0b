/** The table of earlier names that `dns_d_comp` searches (`P->dict`), and what compressing a
    name against it keeps true (libs/async/src/dns/dns.c:1245-1276, 1700-1734). */
module NameTable {
  import opened Bytes
  import opened NameSpec

  const DICTSIZE: nat := 16

  /** A name that `dns_d_push` has written: it reads back, and its labels hold no NUL. */
  predicate Stored(d: seq<Byte>, p: nat) {
    && p < |d|
    && Name(d, p).Some? && Shallow(d, p, p)
    && forall i :: 0 <= i < |Name(d, p).value| ==> 0 !in Name(d, p).value[i]
  }

  /** What an entry of the table refers to: a stored name, or an offset at or behind the end of the
      packet, which the name of a refused record had. */
  predicate Listed(d: seq<Byte>, p: nat) { p >= |d| || Stored(d, p) }

  /** The labels that are read from an entry: none from behind the end of the packet. */
  function Entry(d: seq<Byte>, dict: seq<nat>, i: nat): seq<Label>
    requires i < |dict| && Listed(d, dict[i])
  {
    if dict[i] >= |d| then [] else Name(d, dict[i]).value
  }

  /** No offset of the table lies strictly between `lo` and `hi`. */
  predicate Clear(dict: seq<nat>, lo: nat, hi: nat) { forall p | p in dict :: !(lo < p < hi) }

  predicate AllListed(d: seq<Byte>, dict: seq<nat>) {
    |dict| <= DICTSIZE && forall i :: 0 <= i < |dict| ==> Listed(d, dict[i])
  }

  predicate HasLabel(ls: seq<Label>, l: Label) {
    exists i :: 0 <= i < |ls| && FoldLabel(ls[i]) == FoldLabel(l)
  }

  /** Some entry before the `i`-th has the label. */
  ghost predicate Seen(d: seq<Byte>, dict: seq<nat>, i: nat, l: Label)
    requires i <= |dict| && AllListed(d, dict)
  {
    exists a :: 0 <= a < i && HasLabel(Entry(d, dict, a), l)
  }

  /** The `k`-th label of the name at `p` is at most `b` pointers away, and the first label one
      fewer. */
  predicate ChainAt(d: seq<Byte>, p: nat, k: nat, b: nat) { Hops(d, Pos(d, p, k)) + (if k == 0 then 1 else 0) <= b }

  ghost predicate Chains(d: seq<Byte>, p: nat, b: nat) {
    Name(d, p).Some? ==> forall k: nat {:trigger ChainAt(d, p, k, b)} | k < |Name(d, p).value| :: ChainAt(d, p, k, b)
  }

  /** Every entry adds at most two to the chains of pointers through which the labels of the table
      are read; and so does every name pushed late, that is onto a full table with an offset that a
      refused record has left. */
  function Reach(dict: seq<nat>, late: nat): nat { 2 * (|dict| + late) }

  ghost predicate Table(d: seq<Byte>, dict: seq<nat>, late: nat) {
    AllListed(d, dict) && forall i :: 0 <= i < |dict| ==> Chains(d, dict[i], Reach(dict, late))
  }

  /** So many late names still leave all chains within the 127 pointers that are followed. */
  const LATE: nat := 47

  ghost predicate NoRepeats(d: seq<Byte>, dict: seq<nat>)
    requires AllListed(d, dict)
  {
    forall i :: 0 <= i < |dict| ==> NoRepeat(Entry(d, dict, i))
  }

  /** What the search has found: the suffix of `ls` from label `j` is to be replaced by a
      pointer to the `k`-th offset of entry `i`.  The labels compared were the one left in
      the buffer, `ls[s]`, and then those after `ls[j]`; `s` is `j` unless an earlier
      comparison from `j` had matched some labels and then failed. */
  datatype Match = Match(j: nat, s: nat, i: nat, k: nat)

  ghost predicate Found(d: seq<Byte>, dict: seq<nat>, ls: seq<Label>, m: Match)
    requires AllListed(d, dict)
  {
    && m.j <= m.s < |ls|
    && m.i < |dict| && m.k < |Entry(d, dict, m.i)|
    && Pos(d, dict[m.i], m.k) <= 0x3fff
    && SameName(Entry(d, dict, m.i)[m.k..], [ls[m.s]] + ls[m.j + 1..])
    && (m.s == m.j ==> !Seen(d, dict, m.i, ls[m.j]))
  }

  /** The bytes that replace that suffix, and the labels that the name then spells. */
  function Spelt(d: seq<Byte>, dict: seq<nat>, ls: seq<Label>, m: Match): seq<Label>
    requires AllListed(d, dict) && m.i < |dict| && m.k <= |Entry(d, dict, m.i)| && m.j <= |ls|
  {
    ls[..m.j] + Entry(d, dict, m.i)[m.k..]
  }

  // ----- The stale label ------------------------------------------------------------

  /** The stored suffix equals the new one, up to case, exactly when the label that was
      compared is the one that is being replaced. */
  lemma SpeltIsNameIff(d: seq<Byte>, dict: seq<nat>, ls: seq<Label>, m: Match)
    requires AllListed(d, dict) && Found(d, dict, ls, m)
    ensures SameName(Spelt(d, dict, ls, m), ls) <==> FoldLabel(ls[m.s]) == FoldLabel(ls[m.j])
  {
    Splice(ls, m.j, Entry(d, dict, m.i)[m.k..], ls[m.s]);
  }

  lemma Splice(ls: seq<Label>, j: nat, ms: seq<Label>, l: Label)
    requires j < |ls| && SameName(ms, [l] + ls[j + 1..])
    ensures SameName(ls[..j] + ms, ls) <==> FoldLabel(l) == FoldLabel(ls[j])
  {
    var sp, cs := ls[..j] + ms, [l] + ls[j + 1..];
    assert |sp| == |ls|;
    assert sp[j] == ms[0];
    assert FoldLabel(ms[0]) == FoldLabel(cs[0]);
    if FoldLabel(l) == FoldLabel(ls[j]) {
      forall x | 0 <= x < |ls| ensures FoldLabel(sp[x]) == FoldLabel(ls[x]) {
        if x > j {
          assert sp[x] == ms[x - j] && cs[x - j] == ls[x];
          assert FoldLabel(ms[x - j]) == FoldLabel(cs[x - j]);
        }
      }
    }
  }

  /** A stale comparison can only succeed against an entry that repeats a label. */
  lemma StaleNeedsRepeat(d: seq<Byte>, dict: seq<nat>, ls: seq<Label>, m: Match)
    requires AllListed(d, dict) && Found(d, dict, ls, m) && m.s != m.j
    ensures !NoRepeat(Entry(d, dict, m.i))
  {
    var n, ms, cs := Entry(d, dict, m.i), Entry(d, dict, m.i)[m.k..], [ls[m.s]] + ls[m.j + 1..];
    var x := m.s - m.j;
    assert cs[x] == cs[0] == ls[m.s];
    assert FoldLabel(ms[x]) == FoldLabel(cs[x]) && FoldLabel(ms[0]) == FoldLabel(cs[0]);
    assert ms[0] == n[m.k] && ms[x] == n[m.k + x];
  }

  // ----- Growing the packet ------------------------------------------------------------

  lemma StoredPrefix(d: seq<Byte>, e: seq<Byte>, p: nat)
    requires Stored(d, p)
    ensures Stored(d + e, p) && Name(d + e, p) == Name(d, p)
  {
    LabelsPrefix(d, e, p, p);
    ShallowPrefix(d, e, p, p);
  }

  /** An offset that a refused record has left may become that of the name written next. */
  lemma AllListedPrefix(d: seq<Byte>, e: seq<Byte>, dict: seq<nat>)
    requires AllListed(d, dict) && forall p | p in dict && |d| <= p < |d + e| :: Stored(d + e, p)
    ensures AllListed(d + e, dict)
    ensures forall i :: 0 <= i < |dict| && dict[i] < |d| ==> Entry(d + e, dict, i) == Entry(d, dict, i)
  {
    hide Stored;
    forall i | 0 <= i < |dict| && dict[i] < |d| ensures Stored(d + e, dict[i]) && Name(d + e, dict[i]) == Name(d, dict[i]) {
      StoredPrefix(d, e, dict[i]);
    }
  }

  lemma ChainsPrefix(d: seq<Byte>, e: seq<Byte>, p: nat, b: nat)
    requires Stored(d, p) && Chains(d, p, b)
    ensures Chains(d + e, p, b)
  {
    StoredPrefix(d, e, p);
    forall k: nat | k < |Name(d, p).value| ensures ChainAt(d + e, p, k, b) {
      assert ChainAt(d, p, k, b);
      PosPrefix(d, e, p, k);
      NamePos(d, p, k);
      HopsPrefix(d, e, Pos(d, p, k), Pos(d, p, k));
    }
  }

  /** What the packet must read where it has grown over offsets that refused records have left. */
  ghost predicate Overgrown(d: seq<Byte>, f: seq<Byte>, dict: seq<nat>, b: nat) {
    forall p | p in dict && |d| <= p < |f| :: Stored(f, p) && Chains(f, p, b)
  }

  /** Writing more bytes keeps the table exactly if that is so. */
  lemma TableGrows(d: seq<Byte>, e: seq<Byte>, dict: seq<nat>, late: nat)
    requires Table(d, dict, late)
    ensures Table(d + e, dict, late) <==> Overgrown(d, d + e, dict, Reach(dict, late))
  {
    hide Stored, Chains;
    if Overgrown(d, d + e, dict, Reach(dict, late)) {
      TableOf(d, e, dict, late, dict, late);
    } else {
      var p :| p in dict && |d| <= p < |d + e| && !(Stored(d + e, p) && Chains(d + e, p, Reach(dict, late)));
      var i :| 0 <= i < |dict| && dict[i] == p;
    }
  }

  /** So it does where no refused record has left an offset. */
  lemma TableBehind(d: seq<Byte>, e: seq<Byte>, dict: seq<nat>, late: nat)
    requires Table(d, dict, late) && |d| !in dict && Clear(dict, |d|, |d + e|)
    ensures Table(d + e, dict, late)
  {
    hide Table, Stored, Chains;
    TableGrows(d, e, dict, late);
  }

  /** The entries of a new table are among the old ones and the end of the old packet. */
  lemma TableOf(d: seq<Byte>, e: seq<Byte>, dict: seq<nat>, late: nat, dict': seq<nat>, late': nat)
    requires Table(d, dict, late) && |dict'| <= DICTSIZE && Reach(dict, late) <= Reach(dict', late')
    requires forall i :: 0 <= i < |dict'| ==> dict'[i] == |d| || dict'[i] in dict
    requires Overgrown(d, d + e, dict', Reach(dict', late'))
    ensures Table(d + e, dict', late')
  {
    hide Stored, Chains;
    var b := Reach(dict', late');
    forall i | 0 <= i < |dict'| ensures Listed(d + e, dict'[i]) && Chains(d + e, dict'[i], b) {
      if dict'[i] >= |d + e| {
        NoChains(d + e, dict'[i], b);
      } else if dict'[i] < |d| {
        var x :| 0 <= x < |dict| && dict[x] == dict'[i];
        StoredPrefix(d, e, dict[x]);
        ChainsPrefix(d, e, dict[x], Reach(dict, late));
        ChainsMore(d + e, dict[x], Reach(dict, late), b);
      }
    }
  }

  lemma NoChains(d: seq<Byte>, p: nat, b: nat)
    requires p >= |d|
    ensures Chains(d, p, b)
  {
  }

  // ----- Adding the new name --------------------------------------------------------------

  function FirstIndex(dict: seq<nat>, t: nat): nat
    requires t in dict
    ensures FirstIndex(dict, t) < |dict| && dict[FirstIndex(dict, t)] == t
  {
    if dict[0] == t then 0 else 1 + FirstIndex(dict[1..], t)
  }

  /** `dns_p_dictadd`: the new name takes the place of the entry that it points to, if it
      has labels before its pointer; otherwise it is appended while there is room. */
  function DictAdd(dict: seq<nat>, dn: nat, target: Option<nat>): seq<nat> {
    if target.Some? && target.value in dict then dict[FirstIndex(dict, target.value) := dn]
    else if |dict| < DICTSIZE then dict + [dn]
    else dict
  }

  /** A name written out in full at the end of `d`. */
  ghost predicate WrittenWhole(d: seq<Byte>, e: seq<Byte>, ls: seq<Label>) {
    && |e| == WireLen(ls) + 1 && WireAt(d + e, |d|, ls) && e[|e| - 1] == 0
  }

  /** A name written at the end of `d` with its suffix from label `m.j` compressed. */
  ghost predicate WrittenShort(d: seq<Byte>, dict: seq<nat>, e: seq<Byte>, ls: seq<Label>, m: Match)
    requires AllListed(d, dict)
  {
    Found(d, dict, ls, m) && WrittenPtr(d, e, ls[..m.j], MatchPos(d, dict, m))
  }

  /** Some labels and a pointer to `q` written at the end of `d`. */
  ghost predicate WrittenPtr(d: seq<Byte>, e: seq<Byte>, pre: seq<Label>, q: nat) {
    && q <= 0x3fff
    && |e| == WireLen(pre) + 2
    && WireAt(d + e, |d|, pre)
    && e[|e| - 2..] == PtrBytes(q)
  }

  /** The name at `q` can be pointed to. */
  ghost predicate Pointable(d: seq<Byte>, q: nat) {
    q < |d| && Name(d, q).Some? && Shallow(d, q, q) && Hops(d, q) < MAXPTRS
  }

  lemma WholeReads(d: seq<Byte>, e: seq<Byte>, ls: seq<Label>)
    requires GoodName(ls) && WrittenWhole(d, e, ls)
    ensures Name(d + e, |d|) == Some(ls) && Stored(d + e, |d|)
    ensures forall k :: 0 <= k < |ls| ==> Hops(d + e, Pos(d + e, |d|, k)) == 0
  {
    var f := d + e;
    assert f[|d| + WireLen(ls)] == 0;
    WireReads(f, |d|, |d|, ls);
    assert ls + [] == ls;
    forall k | 0 <= k < |ls| ensures Hops(f, Pos(f, |d|, k)) == 0 { WirePos(f, |d|, ls, k); }
  }

  /** What a pointer appended to the packet reads as. */
  lemma PtrReads(d: seq<Byte>, e: seq<Byte>, p: nat, q: nat)
    requires |d| <= p && q <= 0x3fff && p + 2 == |d + e| && (d + e)[p..p + 2] == PtrBytes(q)
    requires Pointable(d, q)
    ensures var f := d + e;
            && IsPtr(f, p) && Target(f, p) == q
            && Labels(f, |d|, p) == Name(d, q) && Name(f, p) == Name(d, q)
            && Shallow(f, |d|, p)
            && Hops(f, p) == 1 + Hops(d, q)
            && After(f, p) == After(d, q)
  {
    var f := d + e;
    assert f[p] == f[p..p + 2][0] && f[p + 1] == f[p..p + 2][1];
    LabelsPrefix(d, e, q, q);
    ShallowPrefix(d, e, q, q);
    HopsPrefix(d, e, q, q);
  }

  /** Where the compressed name will point, in the packet before the push. */
  function MatchPos(d: seq<Byte>, dict: seq<nat>, m: Match): nat
    requires m.i < |dict|
  {
    Pos(d, dict[m.i], m.k)
  }

  lemma EntryPos(d: seq<Byte>, dict: seq<nat>, i: nat, k: nat)
    requires AllListed(d, dict) && i < |dict| && k < |Entry(d, dict, i)|
    ensures var q := Pos(d, dict[i], k);
            && Name(d, q) == Some(Entry(d, dict, i)[k..]) && Shallow(d, q, q) && Hops(d, q) <= MAXPTRS
            && q < |d| && (IsLit(d, q) || (IsPtr(d, q) && Target(d, q) < q))
  {
    NamePos(d, dict[i], k);
    ShallowPos(d, dict[i], k);
  }

  lemma EntryNoNul(d: seq<Byte>, dict: seq<nat>, i: nat, k: nat)
    requires AllListed(d, dict) && i < |dict| && k <= |Entry(d, dict, i)|
    ensures forall x :: 0 <= x < |Entry(d, dict, i)[k..]| ==> 0 !in Entry(d, dict, i)[k..][x]
  {
    assert forall x :: 0 <= x < |Entry(d, dict, i)[k..]| ==> Entry(d, dict, i)[k..][x] == Entry(d, dict, i)[k + x];
  }

  lemma SpeltNoNul(d: seq<Byte>, dict: seq<nat>, ls: seq<Label>, m: Match)
    requires AllListed(d, dict) && GoodName(ls) && Found(d, dict, ls, m)
    ensures forall x :: 0 <= x < |Spelt(d, dict, ls, m)| ==> 0 !in Spelt(d, dict, ls, m)[x]
  {
    hide Stored, Labels, Pos, SameName, Seen;
    EntryNoNul(d, dict, m.i, m.k);
    NoNulConcat(ls[..m.j], Entry(d, dict, m.i)[m.k..]);
  }

  lemma NoNulConcat(a: seq<Label>, b: seq<Label>)
    requires (forall x :: 0 <= x < |a| ==> 0 !in a[x]) && (forall x :: 0 <= x < |b| ==> 0 !in b[x])
    ensures forall x :: 0 <= x < |a + b| ==> 0 !in (a + b)[x]
  {
  }

  /** What such a name reads as. */
  lemma PtrName(d: seq<Byte>, e: seq<Byte>, pre: seq<Label>, q: nat)
    requires Sized(pre) && WrittenPtr(d, e, pre, q) && Pointable(d, q)
    ensures Name(d + e, |d|) == Some(pre + Name(d, q).value) && Shallow(d + e, |d|, |d|)
  {
    var p := |d| + WireLen(pre);
    assert (d + e)[p..p + 2] == e[|e| - 2..];
    PtrReads(d, e, p, q);
    WireReads(d + e, |d|, |d|, pre);
  }

  /** From where its labels are read, and over how many pointers. */
  lemma PtrPos(d: seq<Byte>, e: seq<Byte>, pre: seq<Label>, q: nat, k: nat)
    requires Sized(pre) && WrittenPtr(d, e, pre, q) && Pointable(d, q)
    ensures k < |pre| ==> Hops(d + e, Pos(d + e, |d|, k)) == 0
    ensures k == |pre| ==> Hops(d + e, Pos(d + e, |d|, k)) == 1 + Hops(d, q)
    ensures |pre| < k <= |pre| + |Name(d, q).value| ==>
              Hops(d + e, Pos(d + e, |d|, k)) == Hops(d + e, Pos(d + e, q, k - |pre|))
  {
    if k < |pre| { WirePos(d + e, |d|, pre, k); } else { PtrTailPos(d, e, pre, q, k); }
  }

  lemma PtrTailPos(d: seq<Byte>, e: seq<Byte>, pre: seq<Label>, q: nat, k: nat)
    requires Sized(pre) && WrittenPtr(d, e, pre, q) && Pointable(d, q) && |pre| <= k
    ensures k == |pre| ==> Hops(d + e, Pos(d + e, |d|, k)) == 1 + Hops(d, q)
    ensures k > |pre| ==> Pos(d + e, |d|, k) == Pos(d + e, q, k - |pre|)
  {
    hide Pos, Sized, Labels, WireLen;
    var f, p := d + e, |d| + WireLen(pre);
    assert Pos(f, |d|, |pre|) == p by { PtrStart(d, e, pre, q); }
    assert IsPtr(f, p) && Target(f, p) == q && Hops(f, p) == 1 + Hops(d, q) by {
      assert f[p..p + 2] == e[|e| - 2..];
      PtrReads(d, e, p, q);
    }
    assert k > |pre| ==> Pos(f, |d|, k) == Pos(f, q, k - |pre|) by {
      if k > |pre| {
        PosSplit(f, |d|, |pre|, k - |pre|);
        PtrSkips(f, p, k - |pre|);
      }
    }
  }

  lemma PtrStart(d: seq<Byte>, e: seq<Byte>, pre: seq<Label>, q: nat)
    requires Sized(pre) && WrittenPtr(d, e, pre, q)
    ensures Pos(d + e, |d|, |pre|) == |d| + WireLen(pre)
  {
    WirePos(d + e, |d|, pre, |pre|);
    assert pre[..|pre|] == pre;
  }

  lemma {:induction false} PosSplit(d: seq<Byte>, p: nat, a: nat, b: nat)
    ensures Pos(d, p, a + b) == Pos(d, Pos(d, p, a), b)
    decreases a
  {
    if a > 0 { PosSplit(d, After(d, p), a - 1, b); }
  }

  lemma MatchPointable(d: seq<Byte>, dict: seq<nat>, ls: seq<Label>, m: Match)
    requires AllListed(d, dict) && Found(d, dict, ls, m) && Hops(d, MatchPos(d, dict, m)) < MAXPTRS
    ensures Pointable(d, MatchPos(d, dict, m))
    ensures Name(d, MatchPos(d, dict, m)) == Some(Entry(d, dict, m.i)[m.k..])
  {
    EntryPos(d, dict, m.i, m.k);
  }

  /** Whatever was compared, the new name reads as the kept labels and the stored suffix. */
  lemma ShortReads(d: seq<Byte>, dict: seq<nat>, e: seq<Byte>, ls: seq<Label>, m: Match)
    requires AllListed(d, dict) && GoodName(ls) && WrittenShort(d, dict, e, ls, m)
    requires Hops(d, MatchPos(d, dict, m)) < MAXPTRS
    ensures Name(d + e, |d|) == Some(Spelt(d, dict, ls, m)) && Stored(d + e, |d|)
  {
    MatchPointable(d, dict, ls, m);
    PtrName(d, e, ls[..m.j], MatchPos(d, dict, m));
    SpeltNoNul(d, dict, ls, m);
  }

  /** A pointer to a name that is 127 pointers away already. */
  lemma PtrTooFar(d: seq<Byte>, e: seq<Byte>, pre: seq<Label>, q: nat)
    requires Sized(pre) && WrittenPtr(d, e, pre, q) && q < |d| && Name(d, q).Some? && Hops(d, q) >= MAXPTRS
    ensures !Stored(d + e, |d|) && Name(d + e, |d|).Some? && Hops(d + e, |d| + WireLen(pre)) == 1 + Hops(d, q)
  {
    hide Pos, WireLen;
    var f, p := d + e, |d| + WireLen(pre);
    assert f[p..p + 2] == e[|e| - 2..];
    assert f[p] == f[p..p + 2][0] && f[p + 1] == f[p..p + 2][1];
    assert IsPtr(f, p) && Target(f, p) == q;
    LabelsPrefix(d, e, q, q);
    HopsPrefix(d, e, q, q);
    WireReads(f, |d|, |d|, pre);
    PtrStart(d, e, pre, q);
    if Stored(f, |d|) { ShallowPos(f, |d|, |pre|); }
  }

  // ----- The table after a push --------------------------------------------------------------

  lemma ChainsMore(d: seq<Byte>, p: nat, b: nat, b': nat)
    requires Chains(d, p, b) && b <= b'
    ensures Chains(d, p, b')
  {
    if Name(d, p).Some? {
      forall k: nat | k < |Name(d, p).value| ensures ChainAt(d, p, k, b') { assert ChainAt(d, p, k, b); }
    }
  }

  /** The number of late names after one more name. */
  function LateAfter(d: seq<Byte>, dict: seq<nat>, target: Option<nat>, late: nat): nat {
    if !(target.Some? && target.value in dict) && |dict| >= DICTSIZE && |d| in dict then late + 1 else late
  }

  /** Appending a stored name with chains longer by at most two. */
  lemma TableAppend(d: seq<Byte>, e: seq<Byte>, dict: seq<nat>, late: nat)
    requires Table(d, dict, late) && |dict| < DICTSIZE && Clear(dict, |d|, |d + e|)
    requires Stored(d + e, |d|) && Chains(d + e, |d|, Reach(dict, late) + 2)
    ensures Table(d + e, dict + [|d|], late)
  {
    hide Stored, Chains;
    TableOf(d, e, dict, late, dict + [|d|], late);
  }

  /** Replacing an entry by a name with chains no longer than those of the table. */
  lemma TableReplace(d: seq<Byte>, e: seq<Byte>, dict: seq<nat>, late: nat, x: nat)
    requires Table(d, dict, late) && x < |dict| && Clear(dict, |d|, |d + e|)
    requires Stored(d + e, |d|) && Chains(d + e, |d|, Reach(dict, late))
    ensures Table(d + e, dict[x := |d|], late)
  {
    hide Stored, Chains;
    TableOf(d, e, dict, late, dict[x := |d|], late);
  }

  /** A full table stays as it is; but offsets left by refused records are now those of the name. */
  lemma TableFull(d: seq<Byte>, e: seq<Byte>, dict: seq<nat>, late: nat)
    requires Table(d, dict, late) && |dict| >= DICTSIZE && Clear(dict, |d|, |d + e|)
    requires Stored(d + e, |d|) && Chains(d + e, |d|, Reach(dict, late) + 2)
    ensures Table(d + e, dict, if |d| in dict then late + 1 else late)
  {
    hide Stored, Chains;
    TableOf(d, e, dict, late, dict, if |d| in dict then late + 1 else late);
  }

  /** A record that is refused behind names of its own: their offsets are at or behind the end. */
  lemma TableRefused(d: seq<Byte>, dict: seq<nat>, late: nat, dict': seq<nat>, late': nat)
    requires Table(d, dict, late) && |dict'| <= DICTSIZE && Reach(dict, late) <= Reach(dict', late')
    requires forall p | p in dict' :: p >= |d| || p in dict
    ensures Table(d, dict', late')
  {
    hide Stored, Chains;
    forall i | 0 <= i < |dict'| ensures Listed(d, dict'[i]) && Chains(d, dict'[i], Reach(dict', late')) {
      if dict'[i] >= |d| {
        NoChains(d, dict'[i], Reach(dict', late'));
      } else {
        assert dict'[i] in dict';
        var x :| 0 <= x < |dict| && dict[x] == dict'[i];
        ChainsMore(d, dict[x], Reach(dict, late), Reach(dict', late'));
      }
    }
  }

  /** The entries after a name has been added, and the bound on them. */
  lemma DictAddFrom(d: seq<Byte>, dict: seq<nat>, late: nat, target: Option<nat>)
    requires |dict| <= DICTSIZE
    ensures var dict', late' := DictAdd(dict, |d|, target), LateAfter(d, dict, target, late);
            && |dict| <= |dict'| <= DICTSIZE && Reach(dict, late) <= Reach(dict', late')
            && forall p | p in dict' :: p == |d| || p in dict
  {
  }

  /** A name written out in full keeps the table. */
  lemma TableWhole(d: seq<Byte>, dict: seq<nat>, late: nat, e: seq<Byte>, ls: seq<Label>)
    requires Table(d, dict, late) && GoodName(ls) && WrittenWhole(d, e, ls) && Clear(dict, |d|, |d + e|)
    ensures Table(d + e, DictAdd(dict, |d|, None), LateAfter(d, dict, None, late))
  {
    hide WrittenWhole, Stored;
    WholeReads(d, e, ls);
    var b := Reach(dict, late) + 2;
    forall k: nat | k < |ls| ensures ChainAt(d + e, |d|, k, b) {
      assert Hops(d + e, Pos(d + e, |d|, k)) == 0;
    }
    if |dict| < DICTSIZE { TableAppend(d, e, dict, late); } else { TableFull(d, e, dict, late); }
  }

  /** How far what is found can be: with no late names sixteen entries make it 32 pointers at most,
      and even with 47 of them it is fewer than the 127 at which reading gives up. */
  lemma MatchChain(d: seq<Byte>, dict: seq<nat>, late: nat, ls: seq<Label>, m: Match)
    requires Table(d, dict, late) && Found(d, dict, ls, m)
    ensures Hops(d, MatchPos(d, dict, m)) <= Reach(dict, late)
    ensures late <= LATE ==> Reach(dict, late) < MAXPTRS
  {
    assert Chains(d, dict[m.i], Reach(dict, late));
    assert ChainAt(d, dict[m.i], m.k, Reach(dict, late));
  }

  /** The target that `dns_p_dictadd` reads back from the new name. */
  function ShortTarget(d: seq<Byte>, dict: seq<nat>, m: Match): Option<nat>
    requires m.i < |dict|
  {
    if m.j == 0 then None else Some(MatchPos(d, dict, m))
  }

  /** A name that ends in a pointer to the `k0`-th label of an entry: the pointer is one more. */
  lemma PtrChains(d: seq<Byte>, dict: seq<nat>, e: seq<Byte>, pre: seq<Label>, i: nat, k0: nat, b: nat)
    requires AllListed(d, dict) && i < |dict| && k0 < |Entry(d, dict, i)| && Chains(d + e, dict[i], b) && Chains(d, dict[i], b)
    requires Sized(pre) && WrittenPtr(d, e, pre, Pos(d, dict[i], k0)) && Pointable(d, Pos(d, dict[i], k0))
    ensures k0 == 0 && pre != [] ==> Chains(d + e, |d|, b)
    ensures Chains(d + e, |d|, b + 2)
  {
    hide WrittenPtr, Pointable, Labels, Hops, Pos;
    var f, q := d + e, Pos(d, dict[i], k0);
    PtrName(d, e, pre, q);
    NamePos(d, dict[i], k0);
    StoredPrefix(d, e, dict[i]);
    var b' := b + 2;
    forall k: nat | k < |pre| + |Name(d, q).value| ensures ChainAt(f, |d|, k, b') {
      PtrChainAt(d, dict, e, pre, i, k0, b, k);
    }
    if k0 == 0 && pre != [] {
      forall k: nat | k < |pre| + |Name(d, q).value| ensures ChainAt(f, |d|, k, b) {
        PtrChainAt(d, dict, e, pre, i, k0, b, k);
      }
    }
  }

  lemma PtrChainAt(d: seq<Byte>, dict: seq<nat>, e: seq<Byte>, pre: seq<Label>, i: nat, k0: nat, b: nat, k: nat)
    requires AllListed(d, dict) && i < |dict| && k0 < |Entry(d, dict, i)| && Chains(d + e, dict[i], b) && Chains(d, dict[i], b)
    requires Sized(pre) && WrittenPtr(d, e, pre, Pos(d, dict[i], k0)) && Pointable(d, Pos(d, dict[i], k0))
    requires k < |pre| + |Entry(d, dict, i)| - k0
    ensures ChainAt(d + e, |d|, k, b + 2) && (k0 == 0 && pre != [] ==> ChainAt(d + e, |d|, k, b))
  {
    hide WrittenPtr, Pointable, Labels, Hops, Pos;
    var f, q := d + e, Pos(d, dict[i], k0);
    NamePos(d, dict[i], k0);
    StoredPrefix(d, e, dict[i]);
    assert ChainAt(d, dict[i], k0, b);
    PtrPos(d, e, pre, q, k);
    if k > |pre| {
      var x := k0 + (k - |pre|);
      assert ChainAt(f, dict[i], x, b);
      PosSplit(f, dict[i], k0, k - |pre|);
      PosPrefix(d, e, dict[i], k0);
    }
  }

  /** A compressed name keeps the table, whatever the labels were that were compared. */
  lemma TableShort(d: seq<Byte>, dict: seq<nat>, late: nat, e: seq<Byte>, ls: seq<Label>, m: Match)
    requires Table(d, dict, late) && late <= LATE && GoodName(ls) && WrittenShort(d, dict, e, ls, m)
    requires Clear(dict, |d|, |d + e|)
    ensures var target := ShortTarget(d, dict, m);
            Table(d + e, DictAdd(dict, |d|, target), LateAfter(d, dict, target, late))
  {
    hide Stored, Chains, Pos, Hops, WrittenPtr, Pointable;
    var q, b := MatchPos(d, dict, m), Reach(dict, late);
    MatchChain(d, dict, late, ls, m);
    ShortReads(d, dict, e, ls, m);
    MatchPointable(d, dict, ls, m);
    if m.j > 0 && q in dict {
      var x := FirstIndex(dict, q);
      MatchNotEmpty(d, dict, ls, m);
      StartPos(d, dict[x]);
      ChainsPrefix(d, e, dict[x], b);
      PtrChains(d, dict, e, ls[..m.j], x, 0, b);
      TableReplace(d, e, dict, late, x);
    } else {
      MatchListed(d, dict, ls, m);
      ChainsPrefix(d, e, dict[m.i], b);
      PtrChains(d, dict, e, ls[..m.j], m.i, m.k, b);
      if |dict| < DICTSIZE { TableAppend(d, e, dict, late); } else { TableFull(d, e, dict, late); }
    }
  }

  lemma MatchListed(d: seq<Byte>, dict: seq<nat>, ls: seq<Label>, m: Match)
    requires AllListed(d, dict) && Found(d, dict, ls, m)
    ensures Stored(d, dict[m.i])
  {
  }

  lemma StartPos(d: seq<Byte>, p: nat)
    ensures Pos(d, p, 0) == p
  {
  }

  lemma MatchNotEmpty(d: seq<Byte>, dict: seq<nat>, ls: seq<Label>, m: Match)
    requires AllListed(d, dict) && Found(d, dict, ls, m)
    ensures MatchPos(d, dict, m) < |d|
    ensures Name(d, MatchPos(d, dict, m)).Some? && |Name(d, MatchPos(d, dict, m)).value| > 0
  {
    EntryPos(d, dict, m.i, m.k);
  }
}
