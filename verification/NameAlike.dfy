/** Two packets from which the entries of a table read the same.  While a record is pushed, the two
    bytes for the length of its data hold whatever was in the buffer; what is searched and written
    meanwhile is what it would be with the length already there
    (libs/async/src/dns/dns.c:1255-1276, 1698-1736, 2657-2683). */
module NameAlike {
  import opened Bytes
  import opened NameSpec
  import opened NameTable
  import opened NameSearch

  /** The same labels are read from `p`, at the same offsets. */
  ghost predicate SameAt(d: seq<Byte>, f: seq<Byte>, p: nat) {
    && Stored(d, p) && Stored(f, p) && Name(f, p) == Name(d, p)
    && forall k: nat {:trigger Pos(d, p, k)} {:trigger Pos(f, p, k)} | k <= |Name(d, p).value| :: Pos(f, p, k) == Pos(d, p, k)
  }

  ghost predicate Alike(d: seq<Byte>, f: seq<Byte>, dict: seq<nat>) {
    && |d| == |f| && |dict| <= DICTSIZE
    && forall i {:trigger dict[i]} :: 0 <= i < |dict| ==> dict[i] >= |d| || SameAt(d, f, dict[i])
  }

  lemma AlikeSelf(d: seq<Byte>, dict: seq<nat>)
    requires AllListed(d, dict)
    ensures Alike(d, d, dict)
  {
    hide Stored, Pos;
  }

  lemma AlikeEntries(d: seq<Byte>, f: seq<Byte>, dict: seq<nat>)
    requires Alike(d, f, dict)
    ensures AllListed(d, dict) && AllListed(f, dict)
    ensures forall i {:trigger Entry(d, dict, i)} :: 0 <= i < |dict| ==> Entry(f, dict, i) == Entry(d, dict, i)
  {
    hide Stored, Pos;
  }

  lemma AlikeSize(d: seq<Byte>, f: seq<Byte>, dict: seq<nat>)
    requires Alike(d, f, dict)
    ensures |d| == |f|
  {
  }

  lemma AlikeEntry(d: seq<Byte>, f: seq<Byte>, dict: seq<nat>, i: nat, k: nat)
    requires Alike(d, f, dict) && i < |dict|
    ensures |d| == |f| && AllListed(d, dict) && AllListed(f, dict) && Entry(f, dict, i) == Entry(d, dict, i)
    ensures k < |Entry(d, dict, i)| ==> Pos(f, dict[i], k) == Pos(d, dict[i], k)
  {
    hide Stored, Pos, Labels;
    AlikeEntries(d, f, dict);
  }

  // ----- The search ---------------------------------------------------------------------------

  lemma {:induction false} SameScanEntry(d: seq<Byte>, f: seq<Byte>, dict: seq<nat>, ls: seq<Label>, j: nat, s: nat, i: nat, k: nat)
    requires Alike(d, f, dict) && AllListed(d, dict) && AllListed(f, dict) && i < |dict| && j < |ls|
    requires Entry(f, dict, i) == Entry(d, dict, i) && k <= |Entry(d, dict, i)|
    ensures ScanEntry(f, dict, ls, j, s, i, k) == ScanEntry(d, dict, ls, j, s, i, k)
    decreases |Entry(d, dict, i)| - k
  {
    hide Alike, Stored, Pos, Labels, Agree, Candidate;
    if k < |Entry(d, dict, i)| {
      AlikeEntry(d, f, dict, i, k);
      ScanEntryTurn(d, dict, ls, j, s, i, k);
      ScanEntryTurn(f, dict, ls, j, s, i, k);
      SameScanEntry(d, f, dict, ls, j, NextStale(d, dict, ls, j, s, i, k), i, k + 1);
    }
  }

  lemma {:induction false} SameScanTable(d: seq<Byte>, f: seq<Byte>, dict: seq<nat>, ls: seq<Label>, j: nat, s: nat, i: nat)
    requires Alike(d, f, dict) && AllListed(d, dict) && AllListed(f, dict) && i <= |dict| && j < |ls|
    ensures ScanTable(f, dict, ls, j, s, i) == ScanTable(d, dict, ls, j, s, i)
    decreases |dict| - i
  {
    hide Alike, Stored, ScanEntry;
    if i < |dict| {
      AlikeEntry(d, f, dict, i, 0);
      SameScanEntry(d, f, dict, ls, j, s, i, 0);
      match ScanEntry(d, dict, ls, j, s, i, 0)
      case Hit(_, _, _) =>
      case Miss(s') => SameScanTable(d, f, dict, ls, j, s', i + 1);
    }
  }

  lemma {:induction false} SameSearch(d: seq<Byte>, f: seq<Byte>, dict: seq<nat>, ls: seq<Label>, j: nat)
    requires Alike(d, f, dict) && AllListed(d, dict) && AllListed(f, dict) && j <= |ls|
    ensures Search(f, dict, ls, j) == Search(d, dict, ls, j)
    decreases |ls| - j
  {
    hide Alike, AllListed, ScanTable;
    if j < |ls| {
      SameScanTable(d, f, dict, ls, j, j, 0);
      if ScanTable(d, dict, ls, j, j, 0).Miss? { SameSearch(d, f, dict, ls, j + 1); }
    }
  }

  // ----- What is written ----------------------------------------------------------------------

  lemma SameBytes(d: seq<Byte>, f: seq<Byte>, e: seq<Byte>, ls: seq<Label>)
    requires |d| == |f| && WireAt(d + e, |d|, ls) && WireLen(ls) <= |e|
    ensures WireAt(f + e, |f|, ls)
  {
    hide WireAt, WireLen;
    WireFrame(d + e, f + e, |d|, ls);
  }

  lemma SamePtr(d: seq<Byte>, f: seq<Byte>, e: seq<Byte>, pre: seq<Label>, q: nat)
    requires |d| == |f| && WrittenPtr(d, e, pre, q)
    ensures WrittenPtr(f, e, pre, q)
  {
    hide WireAt;
    SameBytes(d, f, e, pre);
  }

  /** A name is written alike behind alike packets, whatever it is. */
  lemma SameWritten(d: seq<Byte>, f: seq<Byte>, dict: seq<nat>, e: seq<Byte>, ls: seq<Label>, m: Option<Match>)
    requires Alike(d, f, dict) && AllListed(d, dict) && AllListed(f, dict) && GoodName(ls) && Written(d, dict, e, ls, m)
    ensures Written(f, dict, e, ls, m) && (m.Some? ==> m.value.i < |dict| && MatchPos(f, dict, m.value) == MatchPos(d, dict, m.value))
  {
    hide Alike, AllListed, Search, WireAt, WrittenPtr, Found, Pos;
    match m
    case None =>
      AlikeSize(d, f, dict);
      SameBytes(d, f, e, ls);
    case Some(x) =>
      SameSearch(d, f, dict, ls, 0);
      SearchFound(f, dict, ls, 0);
      FoundInside(d, dict, ls, x);
      AlikeEntry(d, f, dict, x.i, x.k);
      SamePtr(d, f, e, ls[..x.j], MatchPos(d, dict, x));
  }

  lemma FoundInside(d: seq<Byte>, dict: seq<nat>, ls: seq<Label>, m: Match)
    requires AllListed(d, dict) && Found(d, dict, ls, m)
    ensures m.j <= m.s < |ls| && m.i < |dict| && m.k < |Entry(d, dict, m.i)|
  {
  }

  // ----- Growing ------------------------------------------------------------------------------

  lemma SameAtPrefix(d: seq<Byte>, f: seq<Byte>, b: seq<Byte>, c: seq<Byte>, p: nat)
    requires SameAt(d, f, p)
    ensures SameAt(d + b, f + c, p)
  {
    hide Stored, Pos, Labels;
    StoredPrefix(d, b, p);
    StoredPrefix(f, c, p);
    StoredSome(d, p);
    StoredSome(f, p);
    forall k: nat | k <= |Name(d, p).value| ensures Pos(f + c, p, k) == Pos(d + b, p, k) {
      PosPrefix(d, b, p, k);
      PosPrefix(f, c, p, k);
    }
  }

  lemma StoredSome(d: seq<Byte>, p: nat)
    requires Stored(d, p)
    ensures Name(d, p).Some? && p < |d|
  {
  }

  /** As many bytes behind both, whatever they are. */
  lemma AlikeBehind(d: seq<Byte>, f: seq<Byte>, dict: seq<nat>, b: seq<Byte>, c: seq<Byte>)
    requires Alike(d, f, dict) && |b| == |c| && |d| !in dict && Clear(dict, |d|, |d + b|)
    ensures Alike(d + b, f + c, dict)
  {
    hide SameAt;
    forall i | 0 <= i < |dict| && dict[i] < |d + b| ensures SameAt(d + b, f + c, dict[i]) {
      assert dict[i] in dict;
      SameAtPrefix(d, f, b, c, dict[i]);
    }
  }

  lemma SameNewWhole(d: seq<Byte>, f: seq<Byte>, e: seq<Byte>, ls: seq<Label>)
    requires |d| == |f| && GoodName(ls) && WrittenWhole(d, e, ls) && WrittenWhole(f, e, ls)
    ensures SameAt(d + e, f + e, |d|)
  {
    hide Stored, Pos, Labels, WireAt, WireLen, Hops;
    WholeReads(d, e, ls);
    WholeReads(f, e, ls);
    WholeWire(d, e, ls);
    WholeWire(f, e, ls);
    forall k: nat | k <= |ls| ensures Pos(f + e, |d|, k) == Pos(d + e, |d|, k) {
      WirePos(d + e, |d|, ls, k);
      WirePos(f + e, |d|, ls, k);
    }
  }

  lemma WholeWire(d: seq<Byte>, e: seq<Byte>, ls: seq<Label>)
    requires GoodName(ls) && WrittenWhole(d, e, ls)
    ensures WireAt(d + e, |d|, ls) && Sized(ls)
  {
  }

  lemma SameNewShort(d: seq<Byte>, f: seq<Byte>, dict: seq<nat>, e: seq<Byte>, ls: seq<Label>, m: Match)
    requires Alike(d, f, dict) && AllListed(d, dict) && AllListed(f, dict) && GoodName(ls)
    requires WrittenShort(d, dict, e, ls, m) && WrittenShort(f, dict, e, ls, m)
    requires MatchPos(f, dict, m) == MatchPos(d, dict, m) && Hops(d, MatchPos(d, dict, m)) < MAXPTRS && Hops(f, MatchPos(f, dict, m)) < MAXPTRS
    ensures SameAt(d + e, f + e, |d|)
  {
    hide Alike, AllListed, Stored, Pos, Labels, WireAt, WireLen, Hops, Found, WrittenPtr, Pointable, MatchPos;
    FoundInside(d, dict, ls, m);
    AlikeEntry(d, f, dict, m.i, m.k);
    ShortReads(d, dict, e, ls, m);
    ShortReads(f, dict, e, ls, m);
    forall k: nat | k <= |Spelt(d, dict, ls, m)| ensures Pos(f + e, |d|, k) == Pos(d + e, |d|, k) {
      ShortPos(d, dict, e, ls, m, k);
      ShortPos(f, dict, e, ls, m, k);
      if k > m.j { AlikeEntryPos(d, f, dict, m.i, m.k + (k - m.j)); }
    }
  }

  lemma AlikeEntryPos(d: seq<Byte>, f: seq<Byte>, dict: seq<nat>, i: nat, k: nat)
    requires Alike(d, f, dict) && i < |dict| && AllListed(d, dict) && 0 < |Entry(d, dict, i)| && k <= |Entry(d, dict, i)|
    ensures Pos(f, dict[i], k) == Pos(d, dict[i], k)
  {
    hide Stored, Pos, Labels;
  }

  /** Where the labels of a compressed name are read. */
  lemma ShortPos(d: seq<Byte>, dict: seq<nat>, e: seq<Byte>, ls: seq<Label>, m: Match, k: nat)
    requires AllListed(d, dict) && GoodName(ls) && WrittenShort(d, dict, e, ls, m) && Hops(d, MatchPos(d, dict, m)) < MAXPTRS
    requires m.j < |ls| && m.i < |dict| && m.k < |Entry(d, dict, m.i)| && k <= |Spelt(d, dict, ls, m)|
    ensures Pos(d + e, |d|, k) == if k <= m.j then |d| + WireLen(ls[..k]) else Pos(d, dict[m.i], m.k + (k - m.j))
  {
    hide Stored, Pos, Labels, WireAt, WireLen, Hops, Found, Pointable;
    var pre, q := ls[..m.j], MatchPos(d, dict, m);
    MatchPointable(d, dict, ls, m);
    if k <= m.j {
      WirePos(d + e, |d|, pre, k);
      assert pre[..k] == ls[..k];
    } else {
      PtrTailPos(d, e, pre, q, k);
      EntryStored(d, dict, m.i);
      StoredPrefix(d, e, dict[m.i]);
      PosPrefix(d, e, dict[m.i], m.k);
      PosSplit(d + e, dict[m.i], m.k, k - m.j);
      PosPrefix(d, e, dict[m.i], m.k + (k - m.j));
    }
  }

  lemma EntryStored(d: seq<Byte>, dict: seq<nat>, i: nat)
    requires AllListed(d, dict) && i < |dict| && 0 < |Entry(d, dict, i)|
    ensures Stored(d, dict[i]) && Name(d, dict[i]) == Some(Entry(d, dict, i))
  {
  }

  /** A name pushed behind both. */
  lemma AlikeAfter(d: seq<Byte>, f: seq<Byte>, dict: seq<nat>, e: seq<Byte>, ls: seq<Label>, m: Option<Match>)
    requires Alike(d, f, dict) && AllListed(d, dict) && AllListed(f, dict) && GoodName(ls)
    requires Written(d, dict, e, ls, m) && Written(f, dict, e, ls, m) && Clear(dict, |d|, |d + e|)
    requires m.Some? ==> m.value.i < |dict|
    requires m.Some? ==> MatchPos(f, dict, m.value) == MatchPos(d, dict, m.value)
    requires m.Some? ==> Hops(d, MatchPos(d, dict, m.value)) < MAXPTRS && Hops(f, MatchPos(f, dict, m.value)) < MAXPTRS
    ensures DictAfter(f, dict, m) == DictAfter(d, dict, m) && Alike(d + e, f + e, DictAfter(d, dict, m))
  {
    hide SameAt, Search, WrittenWhole, WrittenShort, MatchPos, Hops;
    if m.None? { SameNewWhole(d, f, e, ls); } else { SameNewShort(d, f, dict, e, ls, m.value); }
    var dict' := DictAfter(d, dict, m);
    forall i | 0 <= i < |dict'| && dict'[i] < |d + e| ensures SameAt(d + e, f + e, dict'[i]) {
      if dict'[i] != |d| {
        var x :| 0 <= x < |dict| && dict[x] == dict'[i];
        assert dict[x] in dict;
        SameAtPrefix(d, f, e, e, dict[x]);
      }
    }
  }
}
