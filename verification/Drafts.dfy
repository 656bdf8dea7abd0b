/** A record while `dns_p_push` writes it, piece by piece (libs/async/src/dns/dns.c:1279-1316,
    2657-2890, 2980-3027, 3461-3479): bytes, and names that go through `dns_d_comp`, in front of the
    record and within its data.  Until the data is complete the two bytes for its length hold whatever
    was in the buffer. */
module Drafts {
  import opened Bytes
  import opened NameAlike
  import opened NameSearch
  import opened NameSkip
  import opened NameSpec
  import opened NameTable

  /** What is written next.  Of a name: its labels, the bytes it becomes, what the search found, the
      entry of the table that it points to behind labels of its own, and whether it is put into the
      table. */
  datatype Piece =
    | Raw(bytes: seq<Byte>)
    | Host(ls: seq<Label>, e: seq<Byte>, x: Option<Match>, target: Option<nat>, listed: bool)

  /** The packet, and its table with the number of names pushed late.  It is sound as long as no more
      than 47 names have been late, and nothing but the first byte of a name put into the table has
      been written at an offset that a refused record has left. */
  datatype Draft = Draft(bytes: seq<Byte>, dict: seq<nat>, late: nat, sound: bool)

  function Of(p: Piece): seq<Byte> {
    match p
    case Raw(b) => b
    case Host(_, e, _, _, _) => e
  }

  function Put(s: Draft, p: Piece): Draft {
    var n := |s.bytes|;
    match p
    case Raw(b) => s.(bytes := s.bytes + b, sound := s.sound && n !in s.dict && Clear(s.dict, n, n + |b|))
    case Host(_, e, _, target, listed) =>
      var sound := s.sound && s.late <= LATE && Clear(s.dict, n, n + |e|);
      if listed then Draft(s.bytes + e, DictAdd(s.dict, n, target), LateAfter(s.bytes, s.dict, target, s.late), sound)
      else s.(bytes := s.bytes + e, sound := sound && n !in s.dict)
  }

  function PutAll(s: Draft, ps: seq<Piece>): Draft
    decreases ps
  {
    if ps == [] then s else PutAll(Put(s, ps[0]), ps[1..])
  }

  /** The offset that `dns_p_dictadd` reads back. */
  function TargetOf(d: seq<Byte>, dict: seq<nat>, x: Option<Match>): Option<nat> {
    if x.Some? && x.value.i < |dict| then ShortTarget(d, dict, x.value) else None
  }

  /** What a name becomes is followed while the draft is sound; after that only that it is encoded. */
  ghost predicate Possible(s: Draft, p: Piece) {
    p.Host? ==>
      && GoodName(p.ls) && Encoded(p.e)
      && (s.sound && s.late <= LATE && AllListed(s.bytes, s.dict) ==>
            Written(s.bytes, s.dict, p.e, p.ls, p.x) && p.target == TargetOf(s.bytes, s.dict, p.x))
  }

  ghost predicate AllPossible(s: Draft, ps: seq<Piece>)
    decreases ps
  {
    ps != [] ==> Possible(s, ps[0]) && AllPossible(Put(s, ps[0]), ps[1..])
  }

  function Flat(ps: seq<Piece>): seq<Byte> { if ps == [] then [] else Of(ps[0]) + Flat(ps[1..]) }

  /** A name in the packet: where it begins, what was pushed, and whether the search for it compared
      the right label. */
  datatype Pushed = Pushed(at: nat, name: seq<Label>, right: bool)

  predicate Right(p: Piece)
    requires p.Host?
  {
    p.x.Some? ==> p.x.value.j < |p.ls| && p.x.value.s < |p.ls| && RightLabel(p.ls, p.x)
  }

  /** The names among some pieces that are written at `at`. */
  function Names(at: nat, ps: seq<Piece>): seq<Pushed>
    decreases ps
  {
    if ps == [] then []
    else (if ps[0].Host? then [Pushed(at, ps[0].ls, Right(ps[0]))] else []) + Names(at + |Of(ps[0])|, ps[1..])
  }

  /** A name reads back, as the name pushed exactly if the right label was compared. */
  ghost predicate Back(d: seq<Byte>, n: Pushed) {
    && Stored(d, n.at)
    && (SameName(Name(d, n.at).value, n.name) <==> n.right)
  }

  ghost predicate AllBack(d: seq<Byte>, ns: seq<Pushed>) { forall n {:trigger Back(d, n)} | n in ns :: Back(d, n) }

  predicate Plain(ns: seq<Pushed>) { forall n | n in ns :: NoRepeat(n.name) }

  predicate AllRight(ns: seq<Pushed>) { forall n | n in ns :: n.right }

  predicate AllBelow(dict: seq<nat>, hi: nat) { forall p | p in dict :: p < hi }

  // ----- One piece ------------------------------------------------------------------------------

  /** The same piece, or as many other bytes. */
  predicate Twin(p: Piece, q: Piece) { p == q || (p.Raw? && q.Raw? && |p.bytes| == |q.bytes|) }

  /** Two packets that are alike, both with a sound table. */
  ghost predicate Both(d: seq<Byte>, f: seq<Byte>, dict: seq<nat>, late: nat) {
    Alike(d, f, dict) && Table(d, dict, late) && Table(f, dict, late)
  }

  lemma BothListed(d: seq<Byte>, f: seq<Byte>, dict: seq<nat>, late: nat)
    requires Both(d, f, dict, late)
    ensures |d| == |f| && AllListed(d, dict) && AllListed(f, dict)
  {
  }

  lemma RawFollowed(d: seq<Byte>, f: seq<Byte>, dict: seq<nat>, late: nat, b: seq<Byte>, c: seq<Byte>)
    requires Both(d, f, dict, late) && |b| == |c| && |d| !in dict && Clear(dict, |d|, |d| + |b|)
    ensures Both(d + b, f + c, dict, late) && AllListed(f, dict) && AllListed(f + c, dict)
    ensures NoRepeats(f, dict) ==> NoRepeats(f + c, dict)
  {
    hide AllListed, Alike, Table, NoRepeats, Clear;
    BothListed(d, f, dict, late);
    AlikeBehind(d, f, dict, b, c);
    TableBehind(d, b, dict, late);
    TableBehind(f, c, dict, late);
    BothListed(d + b, f + c, dict, late);
    if NoRepeats(f, dict) { NoRepeatsBehind(f, c, dict); }
  }

  /** What a name is good for behind both packets. */
  lemma NameFollowed(d: seq<Byte>, f: seq<Byte>, dict: seq<nat>, late: nat, p: Piece)
    requires p.Host? && Both(d, f, dict, late) && late <= LATE && GoodName(p.ls) && AllListed(d, dict) && AllListed(f, dict)
    requires Written(d, dict, p.e, p.ls, p.x)
    ensures Written(f, dict, p.e, p.ls, p.x) && Back(f + p.e, Pushed(|f|, p.ls, Right(p)))
    ensures p.x.Some? ==> p.x.value.i < |dict| && MatchPos(f, dict, p.x.value) == MatchPos(d, dict, p.x.value)
    ensures p.x.Some? ==> Hops(d, MatchPos(d, dict, p.x.value)) < MAXPTRS && Hops(f, MatchPos(f, dict, p.x.value)) < MAXPTRS
    ensures NoRepeats(f, dict) ==> Right(p)
  {
    hide AllListed, Alike, Table, NoRepeats, Stored, Written, WrittenShort, MatchPos, Hops, NoRepeat, SameName;
    SameWritten(d, f, dict, p.e, p.ls, p.x);
    RoundTripIff(f, dict, late, p.e, p.ls, p.x);
    if NoRepeats(f, dict) { RoundTrip(f, dict, late, p.e, p.ls, p.x); }
    if p.x.Some? {
      FoundBoth(d, f, dict, p);
      MatchChain(d, dict, late, p.ls, p.x.value);
      MatchChain(f, dict, late, p.ls, p.x.value);
    }
  }

  lemma FoundBoth(d: seq<Byte>, f: seq<Byte>, dict: seq<nat>, p: Piece)
    requires p.Host? && p.x.Some? && AllListed(d, dict) && AllListed(f, dict)
    requires Written(d, dict, p.e, p.ls, p.x) && Written(f, dict, p.e, p.ls, p.x)
    ensures Found(d, dict, p.ls, p.x.value) && Found(f, dict, p.ls, p.x.value)
  {
  }

  lemma ListedFollowed(d: seq<Byte>, f: seq<Byte>, dict: seq<nat>, late: nat, p: Piece)
    requires p.Host? && Both(d, f, dict, late) && late <= LATE && GoodName(p.ls) && AllListed(d, dict) && AllListed(f, dict)
    requires Written(d, dict, p.e, p.ls, p.x) && p.target == TargetOf(d, dict, p.x) && Clear(dict, |d|, |d| + |p.e|)
    ensures var dict', late' := DictAdd(dict, |d|, p.target), LateAfter(d, dict, p.target, late);
            && Both(d + p.e, f + p.e, dict', late')
            && AllListed(f + p.e, dict')
            && (NoRepeats(f, dict) && NoRepeat(p.ls) ==> NoRepeats(f + p.e, dict'))
  {
    hide AllListed, Alike, Table, NoRepeats, Stored, Written, WrittenShort, MatchPos, Hops, NoRepeat, SameName, Clear, DictAdd;
    BothListed(d, f, dict, late);
    NameFollowed(d, f, dict, late, p);
    AlikeAfter(d, f, dict, p.e, p.ls, p.x);
    PushKeeps(d, dict, late, p.e, p.ls, p.x);
    PushKeeps(f, dict, late, p.e, p.ls, p.x);
    if NoRepeats(f, dict) && NoRepeat(p.ls) { RoundTrip(f, dict, late, p.e, p.ls, p.x); }
    BothListed(d + p.e, f + p.e, DictAfter(d, dict, p.x), Late(d, dict, p.x, late));
  }

  /** What is known of `g` and a table for it when the names `ns` have been written. */
  ghost predicate Sound(d: seq<Byte>, g: seq<Byte>, dict: seq<nat>, late: nat, ns: seq<Pushed>) {
    Both(d, g, dict, late) && AllListed(g, dict) && AllBack(g, ns)
  }

  /** No label is repeated in the table, and none will be. */
  ghost predicate NoneRepeated(f: seq<Byte>, dict: seq<nat>, ns: seq<Pushed>)
    requires AllListed(f, dict)
  {
    NoRepeats(f, dict) && Plain(ns)
  }

  lemma NameOne(at: nat, p: Piece)
    ensures p.Raw? ==> Names(at, [p]) == []
    ensures p.Host? ==> Names(at, [p]) == [Pushed(at, p.ls, Right(p))]
  {
    assert [p][1..] == [];
  }

  lemma NoNames(g: seq<Byte>)
    ensures AllBack(g, []) && AllRight([]) && Plain([])
  {
  }

  lemma RawPiece(s: Draft, p: Piece, q: Piece, f: seq<Byte>)
    requires p.Raw? && Twin(p, q) && Both(s.bytes, f, s.dict, s.late) && Put(s, p).sound
    ensures var t, g, ns := Put(s, p), f + Of(q), Names(|f|, [p]);
            && Sound(t.bytes, g, t.dict, t.late, ns) && AllListed(f, s.dict)
            && (NoneRepeated(f, s.dict, ns) ==> AllRight(ns) && NoRepeats(g, t.dict))
  {
    hide AllListed, NoRepeats, Stored, Clear, Both, Back, AllBack, AllRight, Plain, Names;
    BothListed(s.bytes, f, s.dict, s.late);
    RawFollowed(s.bytes, f, s.dict, s.late, Of(p), Of(q));
    NameOne(|f|, p);
    NoNames(f + Of(q));
  }

  lemma OneName(g: seq<Byte>, n: Pushed)
    ensures AllBack(g, [n]) <==> Back(g, n)
    ensures AllRight([n]) <==> n.right
    ensures Plain([n]) <==> NoRepeat(n.name)
  {
    hide Back, NoRepeat;
    assert n in [n];
  }

  lemma HostPiece(s: Draft, p: Piece, f: seq<Byte>)
    requires p.Host? && Possible(s, p) && Both(s.bytes, f, s.dict, s.late) && Put(s, p).sound
    ensures var t, g, ns := Put(s, p), f + p.e, Names(|f|, [p]);
            && Sound(t.bytes, g, t.dict, t.late, ns) && AllListed(f, s.dict)
            && (NoneRepeated(f, s.dict, ns) ==> AllRight(ns) && NoRepeats(g, t.dict))
  {
    hide AllListed, NoRepeats, Stored, Clear, Both, Back, Right, NoRepeat, Written, DictAdd, LateAfter, TargetOf;
    hide AllBack, AllRight, Plain, Names;
    BothListed(s.bytes, f, s.dict, s.late);
    NameOne(|f|, p);
    OneName(f + p.e, Pushed(|f|, p.ls, Right(p)));
    NameFollowed(s.bytes, f, s.dict, s.late, p);
    if p.listed {
      ListedFollowed(s.bytes, f, s.dict, s.late, p);
    } else {
      RawFollowed(s.bytes, f, s.dict, s.late, p.e, p.e);
    }
  }

  /** A piece behind both packets, where both read alike; in the second it may be another one of the
      same length. */
  lemma PieceFollowed(s: Draft, p: Piece, q: Piece, f: seq<Byte>)
    requires Possible(s, p) && Twin(p, q) && Both(s.bytes, f, s.dict, s.late) && Put(s, p).sound
    ensures var t, g, ns := Put(s, p), f + Of(q), Names(|f|, [p]);
            && Sound(t.bytes, g, t.dict, t.late, ns) && AllListed(f, s.dict)
            && (NoneRepeated(f, s.dict, ns) ==> AllRight(ns) && NoRepeats(g, t.dict))
  {
    hide AllListed, NoRepeats, Possible, Put, Sound, NoneRepeated, AllRight, Names, Both;
    if p.Raw? { RawPiece(s, p, q, f); } else { HostPiece(s, p, f); }
  }

  /** A name in the data, behind the two bytes `w` in the place of the length and some others: with the
      length `v` in place it reads the same, and the table is as sound. */
  lemma LengthFilled(d: seq<Byte>, w: seq<Byte>, v: seq<Byte>, pref: seq<Byte>, dict: seq<nat>, late: nat, p: Piece)
    requires Table(d, dict, late) && late <= LATE && |w| == |v| && AllBelow(dict, |d|)
    requires p.Host? && GoodName(p.ls) && AllListed(d + w + pref, dict) && Written(d + w + pref, dict, p.e, p.ls, p.x)
    ensures p.x.Some? ==> p.x.value.i < |dict| && p.x.value.j <= p.x.value.s < |p.ls|
    ensures var f := d + v + pref;
            && Table(f + p.e, DictAfter(d + w + pref, dict, p.x), Late(d + w + pref, dict, p.x, late))
            && Back(f + p.e, Pushed(|f|, p.ls, RightLabel(p.ls, p.x)))
  {
    hide AllListed, Alike, Table, NoRepeats, Stored, Written, MatchPos, SameName, DictAdd;
    var d1, f1 := d + w + pref, d + v + pref;
    SelfBoth(d, dict, late);
    RawFollowed(d, d, dict, late, w, v);
    RawFollowed(d + w, d + v, dict, late, pref, pref);
    BothListed(d1, f1, dict, late);
    var q := p.(target := TargetOf(d1, dict, p.x), listed := true);
    NameFollowed(d1, f1, dict, late, q);
    if p.x.Some? { FoundBoth(d1, f1, dict, q); }
    ListedFollowed(d1, f1, dict, late, q);
  }

  lemma SelfBoth(d: seq<Byte>, dict: seq<nat>, late: nat)
    requires Table(d, dict, late)
    ensures Both(d, d, dict, late)
  {
    hide Chains;
    AlikeSelf(d, dict);
  }

  // ----- All pieces -----------------------------------------------------------------------------

  predicate Twins(ps: seq<Piece>, qs: seq<Piece>) { |ps| == |qs| && forall i :: 0 <= i < |ps| ==> Twin(ps[i], qs[i]) }

  lemma TwinsNext(ps: seq<Piece>, qs: seq<Piece>)
    requires Twins(ps, qs)
    ensures ps == [] <==> qs == []
    ensures ps != [] ==> Twin(ps[0], qs[0]) && Twins(ps[1..], qs[1..]) && |Of(ps[0])| == |Of(qs[0])|
  {
  }

  lemma NamesNext(at: nat, ps: seq<Piece>)
    requires ps != []
    ensures Names(at, ps) == Names(at, [ps[0]]) + Names(at + |Of(ps[0])|, ps[1..])
  {
    hide Of, Right;
    NameOne(at, ps[0]);
  }

  lemma FlatNext(f: seq<Byte>, qs: seq<Piece>)
    requires qs != []
    ensures f + Flat(qs) == f + Of(qs[0]) + Flat(qs[1..])
  {
  }

  lemma {:induction false} SoundBefore(s: Draft, ps: seq<Piece>)
    requires PutAll(s, ps).sound
    ensures s.sound
    decreases ps
  {
    if ps != [] { SoundBefore(Put(s, ps[0]), ps[1..]); }
  }

  lemma BackStays(f: seq<Byte>, e: seq<Byte>, ns: seq<Pushed>)
    requires AllBack(f, ns)
    ensures AllBack(f + e, ns)
  {
    hide Stored, SameName;
    forall n | n in ns ensures Back(f + e, n) {
      assert Back(f, n);
      StoredPrefix(f, e, n.at);
    }
  }

  lemma BackBoth(g: seq<Byte>, a: seq<Pushed>, b: seq<Pushed>)
    requires AllBack(g, a) && AllBack(g, b)
    ensures AllBack(g, a + b)
  {
    hide Back;
  }

  lemma PlainBoth(a: seq<Pushed>, b: seq<Pushed>)
    ensures Plain(a + b) <==> Plain(a) && Plain(b)
    ensures AllRight(a) && AllRight(b) ==> AllRight(a + b)
  {
    hide NoRepeat;
    if Plain(a + b) {
      forall n | n in a ensures NoRepeat(n.name) { assert n in a + b; }
      forall n | n in b ensures NoRepeat(n.name) { assert n in a + b; }
    }
  }

  /** All pieces of a draft that stays sound, behind both packets: in the second, which ends in the
      bytes `qs`, the names read back, and the table is sound. */
  lemma {:induction false} Followed(s: Draft, ps: seq<Piece>, qs: seq<Piece>, f: seq<Byte>)
    requires AllPossible(s, ps) && Twins(ps, qs) && Both(s.bytes, f, s.dict, s.late) && PutAll(s, ps).sound
    ensures var t, g, ns := PutAll(s, ps), f + Flat(qs), Names(|f|, ps);
            && Sound(t.bytes, g, t.dict, t.late, ns) && AllListed(f, s.dict)
            && (NoneRepeated(f, s.dict, ns) ==> AllRight(ns) && NoRepeats(g, t.dict))
    decreases ps
  {
    hide AllListed, Both, NoRepeats, Possible, AllBack, Plain, AllRight, Put, Twins, Twin, Flat, Of, Names;
    BothListed(s.bytes, f, s.dict, s.late);
    TwinsNext(ps, qs);
    if ps == [] {
      NothingPut(f);
    } else {
      var t, g := Put(s, ps[0]), f + Of(qs[0]);
      NamesNext(|f|, ps);
      FlatNext(f, qs);
      SoundBefore(t, ps[1..]);
      PieceFollowed(s, ps[0], qs[0], f);
      Followed(t, ps[1..], qs[1..], g);
      var a, b := Names(|f|, [ps[0]]), Names(|g|, ps[1..]);
      BackStays(g, Flat(qs[1..]), a);
      BackBoth(g + Flat(qs[1..]), a, b);
      PlainBoth(a, b);
    }
  }

  lemma NothingPut(f: seq<Byte>)
    ensures f + Flat([]) == f && AllBack(f, Names(|f|, [])) && AllRight(Names(|f|, []))
  {
  }

  // ----- What needs no soundness ------------------------------------------------------------------

  /** Whatever is written, entries come only from names of the draft, at or behind where it begins. */
  lemma {:induction false} EntriesFrom(s: Draft, ps: seq<Piece>, lo: nat)
    requires |s.dict| <= DICTSIZE && lo <= |s.bytes|
    ensures var t := PutAll(s, ps);
            && |s.bytes| <= |t.bytes| && |s.dict| <= |t.dict| <= DICTSIZE && s.late <= t.late
            && (forall p | p in t.dict :: p >= lo || p in s.dict)
            && ((s.late > 0 ==> |s.dict| >= DICTSIZE) ==> (t.late > 0 ==> |t.dict| >= DICTSIZE))
    decreases ps
  {
    if ps != [] { EntriesFrom(Put(s, ps[0]), ps[1..], lo); }
  }

  /** Some name goes into the table. */
  predicate Lists(ps: seq<Piece>) { exists i :: 0 <= i < |ps| && ps[i].Host? && ps[i].listed }

  lemma {:induction false} NothingListed(s: Draft, ps: seq<Piece>)
    requires !Lists(ps)
    ensures PutAll(s, ps).dict == s.dict && PutAll(s, ps).late == s.late
    decreases ps
  {
    if ps != [] {
      assert forall i :: 0 <= i < |ps[1..]| ==> ps[1..][i] == ps[i + 1];
      NothingListed(Put(s, ps[0]), ps[1..]);
    }
  }

  lemma HostNotEmpty(s: Draft, p: Piece)
    requires p.Host? && Possible(s, p)
    ensures |p.e| > 0
  {
    hide Written, AllListed;
  }

  lemma PutBelow(s: Draft, p: Piece)
    requires Possible(s, p) && |s.dict| <= DICTSIZE && AllBelow(s.dict, |s.bytes|)
    ensures var t := Put(s, p);
            && |t.dict| <= DICTSIZE && AllBelow(t.dict, |t.bytes|) && s.late <= t.late
            && (s.sound && s.late <= LATE ==> t.sound)
  {
    hide Possible, TargetOf, DictAdd;
    if p.Host? {
      HostNotEmpty(s, p);
      if p.listed { DictAddFrom(s.bytes, s.dict, s.late, p.target); }
    }
  }

  /** A draft stays sound where no offset of the table lies ahead of it, with up to 47 late names. */
  lemma {:induction false} StaysSound(s: Draft, ps: seq<Piece>)
    requires AllPossible(s, ps) && |s.dict| <= DICTSIZE && AllBelow(s.dict, |s.bytes|)
    ensures s.sound && PutAll(s, ps).late <= LATE ==> PutAll(s, ps).sound
    ensures AllBelow(PutAll(s, ps).dict, |PutAll(s, ps).bytes|)
    decreases ps
  {
    hide Possible, Put, AllBelow;
    if ps != [] {
      var t := Put(s, ps[0]);
      PutBelow(s, ps[0]);
      EntriesFrom(t, ps[1..], 0);
      StaysSound(t, ps[1..]);
    }
  }
}
