/** The packet buffer and its name routines, in place on `data`
    (`dns_l_expand`, `dns_d_comp`, `dns_d_push`, `dns_p_dictadd` and `dns_d_expand` of
    libs/async/src/dns/dns.c:1247-1276, 1483-1554, 1655-1740, 1780-1876). */
module NamePacket {
  import opened Bytes
  import D = Drafts
  import opened ExpandLoop
  import opened NameSpec
  import opened NameTable
  import opened NameSearch
  import opened NameReading
  import opened NameSkip

  /** The first label of a presented name, and what follows its dot. */
  lemma SpellsStep(t: seq<Byte>, ls: seq<Label>)
    requires Spells(t, ls) && ls != [] && GoodName(ls)
    ensures |ls[0]| <= |t| && t[..|ls[0]|] == ls[0]
    ensures |ls[0]| == |t| ==> |ls| == 1
    ensures |ls[0]| < |t| ==> t[|ls[0]|] == DOT && Spells(t[|ls[0]| + 1..], ls[1..])
  {
    var l, rest := ls[0], ls[1..];
    var u := if t == Dots(ls) then t else t + [DOT];
    assert u == l + [DOT] + Dots(rest);
    assert u[..|l|] == l && u[|l|] == DOT && u[|l| + 1..] == Dots(rest);
    if t != Dots(ls) {
      if rest == [] {
        assert u[..|u| - 1] == t;
      } else {
        assert Dots(rest) == rest[0] + [DOT] + Dots(rest[1..]);
        assert t[..|l|] == u[..|l|];
        assert t[|l| + 1..] + [DOT] == u[|l| + 1..];
      }
    }
  }

  datatype PushResult = Pushed | NoBufs

  /** No name of the table repeats a label. */
  ghost predicate Plain(d: seq<Byte>, dict: seq<nat>) { AllListed(d, dict) && NoRepeats(d, dict) }

  class Packet {
    const data: array<Byte>
    var end: nat
    var dict: seq<nat>
    /** The names pushed late: onto a full table with an offset that a refused record has left. */
    ghost var late: nat

    ghost predicate Valid()
      reads this, data
    {
      end <= data.Length <= 65535 && Table(data[..end], dict, late)
    }

    /** The packet so far. */
    ghost function Content(): seq<Byte>
      requires end <= data.Length
      reads this, data
    {
      data[..end]
    }

    /** An empty packet: a header, and no names (`dns_p_init`). */
    constructor (size: nat)
      requires 12 <= size <= 65535
      ensures Valid() && fresh(data) && data.Length == size
      ensures Content() == Header() && dict == [] && late == 0
    {
      data := new Byte[size](_ => 0);
      end := 12;
      dict := [];
      late := 0;
      new;
      assert Table(data[..end], dict, 0);
    }

    /** `dns_l_expand` on the `lim` bytes from `base`. */
    method ReadLabelAt(base: nat, lim: nat, src: nat) returns (lab: Label, nxt: nat)
      requires base + lim <= data.Length
      ensures (lab, nxt) == ReadLabel(data[base..base + lim], src, 0)
    {
      hide ReadLabel;
      ghost var d := data[base..base + lim];
      var p, nptrs := Follow(base, lim, src);
      ReadLabelStops(d, p, nptrs);
      if p < lim && data[base + p] / 64 == 0 && data[base + p] as int <= lim - (p + 1) {
        var len := data[base + p] as nat;
        lab, nxt := data[base + p + 1..base + p + 1 + len], p + 1 + len;
        SubSlice(data[..], base, base + lim, p + 1, p + 1 + len);
        assert d[p] == data[base + p];
        assert data[..][base..base + lim] == d;
      } else {
        lab, nxt := [], lim;
        if p < lim { assert d[p] == data[base + p]; }
      }
    }

    /** The loop of `dns_l_expand` over pointers. */
    method Follow(base: nat, lim: nat, src: nat) returns (p: nat, nptrs: nat)
      requires base + lim <= data.Length
      ensures nptrs <= MAXPTRS
      ensures ReadLabel(data[base..base + lim], p, nptrs) == ReadLabel(data[base..base + lim], src, 0)
      ensures p >= lim || data[base + p] / 64 != 3 || nptrs + 1 > MAXPTRS || lim - p < 2
    {
      ghost var d := data[base..base + lim];
      p, nptrs := src, 0;
      while p < lim && data[base + p] / 64 == 3 && nptrs + 1 <= MAXPTRS && lim - p >= 2
        invariant nptrs <= MAXPTRS && ReadLabel(d, p, nptrs) == ReadLabel(d, src, 0)
        decreases MAXPTRS - nptrs
      {
        assert d[p] == data[base + p] && d[p + 1] == data[base + p + 1];
        p := (data[base + p] as int) % 64 * 256 + data[base + p + 1] as int;
        nptrs := nptrs + 1;
      }
    }

    /** One guarded store of `dns_d_comp`: dropped when it is past the buffer. */
    method PutAt(off: nat, v: Byte)
      requires end <= data.Length
      modifies data
      ensures data[..end] == old(data[..end])
      ensures data[end..] == Put(old(data[end..]), off, v)
    {
      if off < data.Length - end { data[end + off] := v; }
    }

    /** The loop of `dns_d_comp` over the characters of the name. */
    method ScanText(dn: seq<Byte>, ghost ls: seq<Label>) returns (dp: nat, sp: nat, ghost m: nat)
      requires end <= data.Length && WellFormed(dn, ls)
      modifies data
      ensures data[..end] == old(data[..end])
      ensures Scanned(data[end..], dn, ls, m, sp, |dn|, dp)
    {
      hide WireAt, WireLen, Dots, GoodName, Parsed, Laid, Put, Spells;
      var sx := 0;
      dp, sp, m := 0, 0, 0;
      ScanStart(data[end..], dn, ls);
      while sx < |dn|
        invariant data[..end] == old(data[..end])
        invariant Scanned(data[end..], dn, ls, m, sp, sx, dp)
      {
        ghost var r := data[end..];
        var ch := dn[sx];
        if ch == DOT { PutAt(dp, (sx - sp) % 64); } else { PutAt(dp + 1 + (sx - sp), ch); }
        ScanStep(r, data[end..], dn, ls, m, sp, sx, dp);
        if ch == DOT {
          dp, sp, m := dp + 1 + (sx - sp), sx + 1, m + 1;
        }
        sx := sx + 1;
      }
    }

    /** The first half of `dns_d_comp`: the presented name, in wire format, behind the packet,
        as far as it fits. */
    method WriteLabels(dn: seq<Byte>, ghost ls: seq<Label>) returns (len: nat)
      requires end <= data.Length && WellFormed(dn, ls)
      modifies data
      ensures data[..end] == old(data[..end])
      ensures len == WireLen(ls) + 1
      ensures len <= data.Length - end ==>
                WireAt(data[end..], 0, ls) && data[end..][WireLen(ls)] == 0
    {
      hide Dots, GoodLabel, Spells, Parsed, Laid;
      var dp, sp;
      ghost var m;
      dp, sp, m := ScanText(dn, ls);
      ghost var r := data[end..];
      if |dn| > sp {
        PutAt(dp, (|dn| - sp) % 64);
        LastLabel(r, data[end..], dn, ls, m, sp, dp);
        dp := dp + 1 + (|dn| - sp);
      } else {
        NoLastLabel(r, dn, ls, m, sp, dp);
      }
      r := data[end..];
      if dp > 1 {
        PutAt(dp, 0);
        if dp < |r| { WireFrame(r, data[end..], 0, ls); }
        dp := dp + 1;
      }
      len := dp;
    }

    /** The table can be searched for the name that stands behind the packet. */
    ghost predicate Ready(ls: seq<Label>)
      reads this, data
    {
      && end <= data.Length
      && AllListed(data[..end], dict)
      && Behind(data[end..], ls)
    }

    /** A label of the name behind the packet. */
    method ReadBehind(src: nat) returns (lab: Label, nxt: nat)
      requires end <= data.Length
      ensures (lab, nxt) == ReadLabel(data[end..], src, 0)
    {
      lab, nxt := ReadLabelAt(end, data.Length - end, src);
      assert data[end..end + (data.Length - end)] == data[end..];
    }

    /** A label of the packet. */
    method ReadStored(src: nat) returns (lab: Label, nxt: nat)
      requires end <= data.Length
      ensures (lab, nxt) == ReadLabel(data[..end], src, 0)
    {
      lab, nxt := ReadLabelAt(0, end, src);
      assert data[0..0 + end] == data[..end];
    }

    /** The innermost loop: labels agree one after the other, from `lab` and the stored label
        `k` of entry `i`; `a` and `b` are the labels left in the two buffers. */
    method Compare(ghost ls: seq<Label>, ghost j: nat, ghost s: nat, ghost i: nat, ghost k: nat,
                   lab: Label, ax: nat, stored: Label, bx: nat)
      returns (a: Label, b: Label)
      requires Ready(ls) && j < |ls| && i < |dict| && k < |Entry(data[..end], dict, i)|
      requires lab == LabelOrEmpty(ls, s) && ax == WireLen(ls[..j + 1])
      requires stored == Entry(data[..end], dict, i)[k] && bx == Pos(data[..end], dict[i], k + 1)
      ensures var n := Entry(data[..end], dict, i);
              var c := Agree(n[k..], Candidate(ls, j, s));
              && a == (if c == 0 then lab else LabelOrEmpty(ls, j + c))
              && b == LabelOrEmpty(n, k + c)
    {
      hide Agree, Candidate, Stored, Labels, Pos, StrCaseEq, WireLen, WireAt, Cursors, LabelOrEmpty;
      ghost var d := data[..end];
      ghost var c := 0;
      var na, nb := ax, bx;
      a, b := lab, stored;
      CompareStart(d, dict, ls, j, s, i, k, ax, bx);
      while |a| != 0 && |b| != 0 && StrCaseEq(a, b)
        invariant Comparing(d, dict, ls, j, s, i, k, c, a, b) && Cursors(d, dict, ls, j, i, k, c, na, nb)
        decreases |Entry(d, dict, i)| - (k + c)
      {
        a, na, b, nb := CompareNext(ls, j, s, i, k, c, a, na, b, nb);
        c := c + 1;
      }
      CompareEnd(d, dict, ls, j, s, i, k, c, a, b);
    }

    /** The body of that loop. */
    method CompareNext(ghost ls: seq<Label>, ghost j: nat, ghost s: nat, ghost i: nat, ghost k: nat, ghost c: nat,
                       a0: Label, na0: nat, b0: Label, nb0: nat)
      returns (a: Label, na: nat, b: Label, nb: nat)
      requires Ready(ls) && j < |ls| && i < |dict|
      requires Comparing(data[..end], dict, ls, j, s, i, k, c, a0, b0) && Cursors(data[..end], dict, ls, j, i, k, c, na0, nb0)
      requires |a0| != 0 && |b0| != 0 && StrCaseEq(a0, b0)
      ensures Comparing(data[..end], dict, ls, j, s, i, k, c + 1, a, b)
      ensures Cursors(data[..end], dict, ls, j, i, k, c + 1, na, nb)
      ensures k + c + 1 <= |Entry(data[..end], dict, i)|
    {
      hide Agree, Candidate, Stored, Labels, Pos, StrCaseEq, WireLen, WireAt, LabelOrEmpty, ReadLabel;
      CompareStep(data[..end], dict, ls, j, s, i, k, c, a0, b0);
      a, na := ReadBehind(na0);
      b, nb := ReadStored(nb0);
      CursorStep(data[..end], dict, data[end..], ls, j, i, k, c, na0, nb0);
    }

    /** The body of the loop over the labels of one entry. */
    method ScanOne(ghost ls: seq<Label>, ghost j: nat, ghost s: nat, ghost i: nat, ghost k: nat,
                   bp: nat, lab: Label, stored: Label, bx: nat, ax: nat)
      returns (hit: bool, lab': Label, bp': nat, stored': Label, bx': nat, ghost s': nat)
      requires Ready(ls) && j < |ls| && i < |dict| && ax == WireLen(ls[..j + 1]) && |stored| != 0
      requires Scanning(data[..end], dict, ls, i, s, k, bp, lab, stored, bx)
      ensures hit ==> ScanEntry(data[..end], dict, ls, j, s, i, k) == Hit(s, i, k) && bp' == bp
      ensures hit ==> k < |Entry(data[..end], dict, i)|
      ensures !hit ==>
                && Scanning(data[..end], dict, ls, i, s', k + 1, bp', lab', stored', bx')
                && ScanEntry(data[..end], dict, ls, j, s, i, k) == ScanEntry(data[..end], dict, ls, j, s', i, k + 1)
    {
      hide Stored, Pos, Labels, Agree, Candidate, ScanEntry, NextStale, Scanning, WireLen, WireAt, ReadLabel, LabelOrEmpty;
      ghost var d := data[..end];
      ScanningInside(d, dict, ls, i, s, k, bp, lab, stored, bx);
      var a, b := Compare(ls, j, s, i, k, lab, ax, stored, bx);
      ScanDecide(d, dict, ls, j, s, i, k, lab, a, b);
      hit := |a| == 0 && |b| == 0 && bp <= 0x3fff;
      lab', bp', stored', bx', s' := a, bp, stored, bx, s;
      if !hit {
        s' := NextStale(d, dict, ls, j, s, i, k);
        bp' := bx;
        stored', bx' := ReadStored(bp');
        ScanningNext(d, dict, ls, i, s', k, a, bx);
      }
    }

    /** The loop over the labels of one entry. */
    method ScanEntryAt(ghost ls: seq<Label>, ghost j: nat, ghost s0: nat, ghost i: nat, start: nat, lab0: Label, ax: nat)
      returns (hit: bool, bp: nat, lab: Label, ghost sc: Scan)
      requires Ready(ls) && j < |ls| && i < |dict| && start == dict[i]
      requires lab0 == LabelOrEmpty(ls, s0) && ax == WireLen(ls[..j + 1])
      ensures sc == ScanEntry(data[..end], dict, ls, j, s0, i, 0)
      ensures match ScanEntry(data[..end], dict, ls, j, s0, i, 0)
              case Hit(_, i', k) => hit && i' < |dict| && bp == Pos(data[..end], dict[i'], k)
              case Miss(s) => !hit && lab == LabelOrEmpty(ls, s)
    {
      hide ScanEntry, Stored, Pos, Labels, WireAt, WireLen, ReadLabel;
      ghost var d := data[..end];
      ghost var s, k := s0, 0;
      sc := ScanEntry(d, dict, ls, j, s0, i, 0);
      bp, lab := start, lab0;
      var stored, bx := ReadStored(bp);
      ScanningStart(d, dict, ls, i, s, bp, lab);
      while |stored| != 0
        invariant Scanning(d, dict, ls, i, s, k, bp, lab, stored, bx)
        invariant sc == ScanEntry(d, dict, ls, j, s, i, k)
        decreases |Entry(d, dict, i)| - k
      {
        ghost var s';
        hit, lab, bp, stored, bx, s' := ScanOne(ls, j, s, i, k, bp, lab, stored, bx, ax);
        if hit { return; }
        s, k := s', k + 1;
      }
      ScanningOver(d, dict, ls, j, i, s, k, bp, lab, stored, bx);
      hit := false;
    }

    /** The loop over the entries. */
    method ScanTableAt(ghost ls: seq<Label>, ghost j: nat, lab0: Label, ax: nat)
      returns (hit: bool, bp: nat, ghost sc: Scan)
      requires Ready(ls) && j < |ls| && lab0 == ls[j] && ax == WireLen(ls[..j + 1])
      ensures sc == ScanTable(data[..end], dict, ls, j, j, 0)
      ensures match ScanTable(data[..end], dict, ls, j, j, 0)
              case Hit(_, i, k) => hit && i < |dict| && bp == Pos(data[..end], dict[i], k)
              case Miss(_) => !hit
    {
      ghost var d := data[..end];
      ghost var s := j;
      sc := ScanTable(d, dict, ls, j, j, 0);
      var i, lab := 0, lab0;
      while i < |dict|
        invariant i <= |dict| && lab == LabelOrEmpty(ls, s)
        invariant sc == ScanTable(d, dict, ls, j, s, i)
      {
        ghost var sc0;
        hit, bp, lab, sc0 := ScanEntryAt(ls, j, s, i, dict[i], lab, ax);
        if hit { return; }
        s := sc0.s;
        i := i + 1;
      }
      hit, bp := false, 0;
    }

    /** The second half of `dns_d_comp`: the search for the longest suffix that is stored. */
    method FindSuffix(ghost ls: seq<Label>) returns (hit: bool, ap: nat, bp: nat, ghost m: Option<Match>)
      requires Ready(ls)
      ensures m == Search(data[..end], dict, ls, 0)
      ensures match Search(data[..end], dict, ls, 0)
              case None => !hit
              case Some(x) => hit && x.j <= |ls| && x.i < |dict| && ap == WireLen(ls[..x.j]) && bp == MatchPos(data[..end], dict, x)
    {
      ghost var d := data[..end];
      ghost var j := 0;
      m := Search(d, dict, ls, 0);
      ap, bp := 0, 0;
      var lab, ax := ReadBehind(ap);
      BehindRead(data[end..], ls, 0);
      while |lab| != 0
        invariant j <= |ls| && ap == WireLen(ls[..j]) && lab == LabelOrEmpty(ls, j)
        invariant j < |ls| ==> ax == WireLen(ls[..j + 1])
        invariant m == Search(d, dict, ls, j)
        decreases |ls| - j
      {
        ghost var sc;
        hit, bp, sc := ScanTableAt(ls, j, lab, ax);
        if hit { return; }
        ap, j := ax, j + 1;
        BehindRead(data[end..], ls, j);
        lab, ax := ReadBehind(ap);
      }
      assert forall x :: 0 <= x < |ls| ==> GoodLabel(ls[x]);
      hit := false;
    }

    /** `dns_d_comp`: the name behind the packet, compressed if the search finds a suffix.  The
        search is made only when the whole name fits with a byte to spare. */
    method Compress(dn: seq<Byte>, ghost ls: seq<Label>) returns (len: nat, ghost m: Option<Match>)
      requires end <= data.Length && WellFormed(dn, ls) && AllListed(data[..end], dict)
      modifies data
      ensures data[..end] == old(data[..end])
      ensures len <= data.Length - end <==> WireLen(ls) + 1 <= data.Length - end
      ensures len <= data.Length - end ==> Written(data[..end], dict, data[end..][..len], ls, m)
      ensures WireLen(ls) + 1 < data.Length - end ==> m == Search(data[..end], dict, ls, 0)
      ensures WireLen(ls) + 1 >= data.Length - end ==> m == None
    {
      hide Search, AllListed, WireLen, MatchPos, WireAt, GoodName, Dots, Spells, WrittenWhole, WrittenShort, Found;
      len := WriteLabels(dn, ls);
      m := None;
      ghost var r := data[end..];
      if len <= data.Length - end { WholeWritten(data[..end], r, ls); }
      if len < data.Length - end {
        var hit, ap, bp;
        hit, ap, bp, m := FindSuffix(ls);
        if hit {
          PointerFits(data[..end], dict, ls, m.value);
          PutPointer(ap, bp);
          len := ap + 2;
          ShortWritten(data[..end], dict, r, data[end..], ls, m.value);
        }
      }
    }

    /** The two stores that replace a suffix by a pointer. */
    method PutPointer(ap: nat, bp: nat)
      requires end <= data.Length && ap + 2 <= data.Length - end
      modifies data
      ensures data[..end] == old(data[..end])
      ensures data[end..] == old(data[end..])[ap := 192 + bp / 256 % 64][ap + 1 := bp % 256]
    {
      data[end + ap] := 192 + bp / 256 % 64;
      data[end + ap + 1] := bp % 256;
    }

    /** `dns_l_skip` on the packet. */
    method SkipLabel(src: nat) returns (nxt: nat)
      requires src < end <= data.Length
      ensures nxt == if IsLit(data[..end], src) && data[src] != 0 then src + 1 + data[src] as nat else end
    {
      if data[src] / 64 == 0 && data[src] as int <= end - (src + 1) && data[src] != 0 {
        nxt := src + 1 + data[src] as nat;
      } else {
        nxt := end;
      }
    }

    /** `dns_p_dictadd` of the name at `dn`: the labels `pre`, and then its end or a pointer. */
    method AddToDict(dn: nat, ghost pre: seq<Label>, ghost target: Option<nat>)
      requires end <= data.Length && dn < end && |dict| <= DICTSIZE && EndsAt(data[..end], dn, pre, target)
      modifies `dict
      ensures dict == DictAdd(old(dict), dn, if pre == [] then None else target)
    {
      var lp := dn;
      ghost var x := 0;
      ghost var d := data[..end];
      while lp < end
        invariant lp <= end && (lp < end ==> x <= |pre| && lp == dn + WireLen(pre[..x]))
        invariant lp == end ==> pre == [] || target.None? || target.value !in dict
        invariant dict == old(dict) && |dict| <= DICTSIZE
        decreases end - lp
      {
        LabelOrEnd(d, dn, pre, target, x);
        if data[lp] >= 192 && end - lp >= 2 && lp != dn {
          var lptr := (data[lp] as int) % 64 * 256 + data[lp + 1] as int;
          for i := 0 to |dict|
            invariant dict == old(dict)
            invariant lptr !in dict[..i]
          {
            if dict[i] == lptr {
              FirstIndexIs(dict, lptr, i);
              dict := dict[i := dn];
              return;
            }
          }
          assert dict[..|dict|] == dict;
        }
        lp := SkipLabel(lp);
        x := x + 1;
      }
      if |dict| < DICTSIZE { dict := dict + [dn]; }
    }

    /** `dns_d_push`: the name is refused exactly when it does not fit in full, and then
        nothing has changed.  Otherwise every earlier name reads as before, and the new name reads
        back, up to case, as the name pushed exactly when the search compared the right label; so
        it always does where no stored name repeats a label.  The table stays sound unless the name
        runs over an offset that a refused record has left. */
    method Push(dn: seq<Byte>, ghost ls: seq<Label>) returns (res: PushResult, ghost m: Option<Match>)
      requires Valid() && late <= LATE && WellFormed(dn, ls)
      modifies this, data
      ensures res == NoBufs || Clear(old(dict), old(end), end) ==> Valid()
      ensures res == NoBufs <==> WireLen(ls) + 1 > data.Length - old(end)
      ensures res == NoBufs ==> Content() == old(Content()) && dict == old(dict) && late == old(late)
      ensures old(late) <= late <= old(late) + if |old(dict)| == DICTSIZE && old(end) in old(dict) then 1 else 0
      ensures res == Pushed ==> old(end) < end <= old(end) + WireLen(ls) + 1
      ensures res == Pushed ==> Table(Content()[..old(end)], dict, late)
      ensures res == Pushed ==> Encoded(Content()[old(end)..])
      ensures res == Pushed ==> Content()[..old(end)] == old(Content()) && Keeps(old(Content()), Content())
      ensures res == Pushed ==>
                m == if WireLen(ls) + 1 < data.Length - old(end) then Search(old(Content()), old(dict), ls, 0) else None
      ensures res == Pushed && m.Some? ==> m.value.j <= m.value.s < |ls| && m.value.i < |old(dict)|
      ensures AllListed(old(Content()), old(dict))
      ensures res == Pushed ==> Written(old(Content()), old(dict), Content()[old(end)..], ls, m)
      ensures res == Pushed ==> dict == DictAfter(old(Content()), old(dict), m) && late == Late(old(Content()), old(dict), m, old(late))
      ensures res == Pushed ==> Stored(Content(), old(end))
      ensures res == Pushed ==> (SameName(Name(Content(), old(end)).value, ls) <==> RightLabel(ls, m))
      ensures res == Pushed && RightLabel(ls, m) ==>
                SameLetters(Text(Name(Content(), old(end)).value), Text(ls))
      ensures res == Pushed && old(Plain(Content(), dict)) ==> RightLabel(ls, m)
      ensures (res == NoBufs || Clear(old(dict), old(end), end)) && old(Plain(Content(), dict)) && NoRepeat(ls) ==>
                Plain(Content(), dict)
      ensures res == Pushed && old(Plain(Content(), dict)) ==> Plain(Content()[..old(end)], dict)
    {
      hide Table, WireLen, WireAt, Search, Labels, NoRepeat, Text, Encoded, Keeps, Dots, DictAfter, Late, Plain, Stored;
      hide EndsAt, AllListed, RightLabel, FoldLabel, SameName, Spells;
      ghost var d, dict0 := data[..end], dict;
      TableListed(d, dict, late);
      var len;
      len, m := Compress(dn, ls);
      if len > data.Length - end { return NoBufs, None; }
      ghost var e := data[end..][..len];
      PushFacts(d, dict, late, e, ls, m);
      assert (d + e)[end..] == e && (d + e)[..end] == d;
      Extend(len, ls, m);
      late := Late(d, dict0, m, late);
      res := Pushed;
    }

    /** `dns_ns_push` and `dns_mx_push`: the length of the data, a preference, and a host that goes into the
        table.  The length is filled in at the end, behind which all names read as if it had been there
        from the start. */
    method PushHost(pref: seq<Byte>, dn: seq<Byte>, ghost ls: seq<Label>) returns (res: PushResult, ghost m: Option<Match>)
      requires Valid() && late <= LATE && WellFormed(dn, ls) && D.AllBelow(dict, end)
      modifies this, data
      ensures Valid() && D.AllBelow(dict, end)
      ensures res == NoBufs <==> 2 + |pref| + WireLen(ls) + 1 > data.Length - old(end)
      ensures res == NoBufs ==> Content() == old(Content()) && dict == old(dict) && late == old(late)
      ensures res == Pushed ==>
                var at := old(end) + 2 + |pref|;
                && at < end && Content()[..at] == old(Content()) + Word(end - old(end) - 2) + pref
                && Keeps(old(Content()), Content()) && Stored(Content(), at)
                && (m.Some? ==> m.value.j <= m.value.s < |ls|)
                && (SameName(Name(Content(), at).value, ls) <==> RightLabel(ls, m))
    {
      hide Table, WireLen, Keeps, Spells, RightLabel, SameName, Written, DictAfter, Late, Stored, AllListed, NoRepeats, Encoded;
      hide Search, NoRepeat, SameLetters, Text, Plain;
      m := None;
      if data.Length - end < 3 + |pref| { return NoBufs, None; }
      var end0 := end;
      ghost var d, dict0, late0 := data[..end], dict, late;
      end := end + 2;
      ghost var w := data[end0..end];
      assert data[..end] == d + w;
      TableBehind(d, w, dict, late);
      PushBytes(pref);
      ghost var d1 := data[..end];
      res, m := Push(dn, ls);
      if res == NoBufs {
        TakeBack(end0);
        assert data[..end] == d;
        return;
      }
      ghost var e := data[..end][|d1|..];
      FillLength(end0, d, w, pref, e);
      HostIsBack(d, w, Word(end - end0 - 2), pref, dict0, late0, e, ls, m);
    }

    /** The two stores that put the length of the data in its place. */
    method FillLength(end0: nat, ghost d: seq<Byte>, ghost w: seq<Byte>, ghost pref: seq<Byte>, ghost e: seq<Byte>)
      requires end <= data.Length && end0 == |d| && |w| == 2 && data[..end] == d + w + pref + e
      modifies data
      ensures data[..end] == d + Word(end - end0 - 2) + pref + e
    {
      var n := end - end0 - 2;
      data[end0], data[end0 + 1] := n / 256 % 256, n % 256;
    }

    /** The name in the `len` bytes behind the packet becomes part of it. */
    method Extend(len: nat, ghost ls: seq<Label>, ghost m: Option<Match>)
      requires end < end + len <= data.Length && |dict| <= DICTSIZE
      requires m.Some? ==> m.value.j <= |ls| && m.value.i < |dict| && (ls[..m.value.j] == [] <==> m.value.j == 0)
      requires EndsAt(data[..end] + data[end..][..len], end, Prefix(ls, m), TargetOf(data[..end], dict, m))
      modifies `end, `dict
      ensures end == old(end) + len && data[..end] == old(data[..end] + data[end..][..len])
      ensures dict == DictAfter(old(data[..end]), old(dict), m)
    {
      var dp := end;
      ghost var d, e, dict0 := data[..end], data[end..][..len], dict;
      end := end + len;
      assert data[..end] == d + e;
      AddToDict(dp, Prefix(ls, m), TargetOf(d, dict0, m));
    }

    /** The rest of a record, written behind its name. */
    method PushBytes(bytes: seq<Byte>)
      requires Valid() && |bytes| <= data.Length - end && end !in dict && Clear(dict, end, end + |bytes|)
      modifies `end, data
      ensures Valid() && Content() == old(Content()) + bytes && dict == old(dict)
      ensures old(Plain(Content(), dict)) ==> Plain(Content(), dict)
    {
      hide Table, Clear, AllListed, NoRepeats;
      ghost var d := data[..end];
      forall i | 0 <= i < |bytes| { data[end + i] := bytes[i]; }
      end := end + |bytes|;
      assert data[..end] == d + bytes;
      TableBehind(d, bytes, dict, late);
      if Plain(d, dict) { NoRepeatsBehind(d, bytes, dict); }
    }

    /** The way out of `dns_p_push` for a record that is refused: the packet ends where it did, and
        the table keeps the offsets of the names that had been pushed for it. */
    method TakeBack(end0: nat)
      requires end0 <= end <= data.Length <= 65535
      modifies `end
      ensures end == end0 && Content() == old(Content())[..end0]
      ensures old(Table(Content()[..end0], dict, late)) ==> Valid()
      ensures old(Plain(Content()[..end0], dict)) ==> Plain(Content(), dict)
    {
      ghost var d := data[..end];
      end := end0;
      assert data[..end] == d[..end0];
    }

    lemma LabelCopied(t: seq<Byte>, src: nat)
      requires src < end <= data.Length && end <= OFFSETS && end - (src + 1) % OFFSETS >= data[src] as int
      ensures var next, n := (src + 1) % OFFSETS, data[src] as nat;
              && t + data[next..next + n] + [DOT] == t + LabelText(data[..end], src)
              && |LabelText(data[..end], src)| == n + 1
    {
      var next, n := (src + 1) % OFFSETS, data[src] as nat;
      assert data[next..next + n] == data[..end][next..next + n];
      assert t + data[next..next + n] + [DOT] == t + (data[next..next + n] + [DOT]);
    }

    /** `dns_d_expand` from any offset from which it ends, after `k` turns: the length of the
        whole text, of which `dst` gets what fits, or an error.  NUL-terminated in any case. */
    method Expand(dst: array<Byte>, src0: nat, ghost k: nat) returns (len: nat, error: bool)
      requires end <= data.Length && end <= OFFSETS && dst != data
      requires ExpandTurns(data[..end], src0, 0, k).None?
      modifies dst
      ensures match Outcome(data[..end], src0, 0, [], k)
              case Some(u) => !error && len == |u| && Filled(dst, u)
              case None => error && len == 0 && (dst.Length > 0 ==> 0 in dst[..])
    {
      hide ExpandTurns, Outcome, LabelText, Filled;
      ghost var d := data[..end];
      var src: nat, dstp: nat, nptrs: nat := src0, 0, 0;
      ghost var t: seq<Byte>, left: nat := [], k;
      while src < end
        invariant data[..end] == d && ExpandTurns(d, src, nptrs, left).None?
        invariant Outcome(d, src, nptrs, t, left) == Outcome(d, src0, 0, [], k)
        invariant Copied(dst, dstp, t)
        decreases left
      {
        OutcomeStep(d, src, nptrs, t, left);
        if data[src] / 64 == 0 {
          var n := data[src] as nat;
          if n == 0 { len := Terminate(dst, dstp, t); return len, false; }
          var next := (src + 1) % OFFSETS;
          if end - next < n { Cut(dst, dstp); return 0, true; }
          CopyLabel(dst, dstp, src, next, n, t);
          t := t + LabelText(d, src);
          src, dstp, nptrs := (next + n) % OFFSETS, dstp + n + 1, 0;
        } else if data[src] / 64 == 3 {
          nptrs := nptrs + 1;
          if nptrs > MAXPTRS { Cut(dst, dstp); return 0, true; }
          if end - src < 2 { Cut(dst, dstp); return 0, true; }
          src := (data[src] as int) % 64 * 256 + data[src + 1] as int;
        } else {
          Cut(dst, dstp);
          return 0, true;
        }
        left := left - 1;
      }
      OutcomeStep(d, src, nptrs, t, left);
      Cut(dst, dstp);
      return 0, true;
    }

    /** As much of the text as fits, and a NUL. */
    ghost predicate Filled(dst: array<Byte>, u: seq<Byte>)
      reads dst
    {
      dst.Length > 0 ==>
        var m := Min(|u|, dst.Length - 1);
        dst[..m] == u[..m] && dst[m] == 0
    }

    /** The NUL behind the text of a name that could not be expanded. */
    method Cut(dst: array<Byte>, dstp: nat)
      modifies dst
      ensures dst.Length > 0 ==> 0 in dst[..]
    {
      if dst.Length > 0 {
        dst[Min(dstp, dst.Length - 1)] := 0;
        assert dst[..][Min(dstp, dst.Length - 1)] == 0;
      }
    }

    /** The dot of the root name, if there was no label, and the NUL. */
    method Terminate(dst: array<Byte>, dstp: nat, ghost t: seq<Byte>) returns (len: nat)
      requires Copied(dst, dstp, t)
      modifies dst
      ensures var u := if t == [] then [DOT] else t;
              len == |u| && Filled(dst, u)
    {
      len := dstp;
      if dstp == 0 {
        if 0 < dst.Length { dst[0] := DOT; }
        len := 1;
      }
      if dst.Length > 0 { dst[Min(len, dst.Length - 1)] := 0; }
    }

    /** The label at `src` and its dot, as far as they fit. */
    method CopyLabel(dst: array<Byte>, dstp: nat, src: nat, next: nat, n: nat, ghost t: seq<Byte>)
      requires src < end <= data.Length && end <= OFFSETS && dst != data
      requires next == (src + 1) % OFFSETS && n == data[src] as nat <= end - next
      requires Copied(dst, dstp, t)
      modifies dst
      ensures Copied(dst, dstp + n + 1, t + LabelText(data[..end], src))
    {
      hide LabelText;
      LabelCopied(t, src);
      CopyBytes(dst, dstp, next, n, t);
    }

    method CopyBytes(dst: array<Byte>, dstp: nat, src: nat, n: nat, ghost t: seq<Byte>)
      requires end <= data.Length && src + n <= end && dst != data && Copied(dst, dstp, t)
      modifies dst
      ensures Copied(dst, dstp + n + 1, t + data[src..src + n] + [DOT])
    {
      ghost var was := dst[..];
      assert was[..Min(dstp, dst.Length)] == dst[..Min(dstp, dst.Length)];
      if dstp < dst.Length {
        forall i | 0 <= i < Min(n, dst.Length - dstp) { dst[dstp + i] := data[src + i]; }
      }
      if dstp + n < dst.Length { dst[dstp + n] := DOT; }
      CopiedBytes(was, dst[..], t, data[src..src + n]);
      ghost var m := Min(dstp + n + 1, dst.Length);
      assert dst[..m] == dst[..][..m];
    }

    /** The first `dstp` bytes of the text, as far as they fit. */
    ghost predicate Copied(dst: array<Byte>, dstp: nat, t: seq<Byte>)
      reads dst
    {
      dstp == |t| && dst[..Min(dstp, dst.Length)] == t[..Min(dstp, dst.Length)]
    }
  }

  /** The stores of a label and its dot, as far as they fit. */
  lemma CopiedBytes(was: seq<Byte>, now: seq<Byte>, t: seq<Byte>, l: seq<Byte>)
    requires |now| == |was| && was[..Min(|t|, |was|)] == t[..Min(|t|, |was|)]
    requires forall i :: 0 <= i < |now| ==>
               now[i] == if |t| <= i < |t| + |l| then l[i - |t|] else if i == |t| + |l| then DOT else was[i]
    ensures var m := Min(|t| + |l| + 1, |now|); now[..m] == (t + l + [DOT])[..m]
  {
    var m := Min(|t| + |l| + 1, |now|);
    forall i | 0 <= i < m ensures now[i] == (t + l + [DOT])[i] {
      if i < |t| { assert now[i] == was[..Min(|t|, |was|)][i] == t[..Min(|t|, |was|)][i]; }
    }
  }

  // ----- What `dns_p_dictadd` will see --------------------------------------------------

  /** The labels that are written out. */
  function Prefix(ls: seq<Label>, m: Option<Match>): seq<Label>
    requires m.Some? ==> m.value.j <= |ls|
  {
    if m.None? then ls else ls[..m.value.j]
  }

  function TargetOf(d: seq<Byte>, dict: seq<nat>, m: Option<Match>): Option<nat>
    requires m.Some? ==> m.value.i < |dict|
  {
    if m.None? then None else Some(MatchPos(d, dict, m.value))
  }

  /** What the bytes written and the table after them are good for. */
  lemma PushFacts(d: seq<Byte>, dict: seq<nat>, late: nat, e: seq<Byte>, ls: seq<Label>, m: Option<Match>)
    requires Table(d, dict, late) && late <= LATE && GoodName(ls) && Written(d, dict, e, ls, m)
    ensures (m.Some? ==> m.value.j <= m.value.s < |ls| && m.value.i < |dict|) && |dict| <= DICTSIZE
    ensures m.Some? ==> (ls[..m.value.j] == [] <==> m.value.j == 0)
    ensures Stored(d + e, |d|) && Keeps(d, d + e) && Encoded(e) && 0 < |e| <= WireLen(ls) + 1
    ensures EndsAt(d + e, |d|, Prefix(ls, m), TargetOf(d, dict, m))
    ensures var dict', late' := DictAfter(d, dict, m), Late(d, dict, m, late);
            && Table(d, dict', late') && AllListed(d, dict')
            && (Clear(dict, |d|, |d + e|) ==> Table(d + e, dict', late') && AllListed(d + e, dict'))
            && late <= late' <= late + (if |dict| == DICTSIZE && |d| in dict then 1 else 0)
            && (Plain(d, dict) ==> RightLabel(ls, m) && Plain(d, dict'))
            && (Clear(dict, |d|, |d + e|) && Plain(d, dict) && NoRepeat(ls) ==> Plain(d + e, dict'))
    ensures SameName(Name(d + e, |d|).value, ls) <==> RightLabel(ls, m)
    ensures RightLabel(ls, m) ==> SameLetters(Text(Name(d + e, |d|).value), Text(ls))
  {
    hide Search, Chains, WireLen, Labels, NoRepeat, Text, Encoded, Keeps, SameName, FoldLabel, WrittenWhole, WrittenShort, EndsAt;
    PushKeeps(d, dict, late, e, ls, m);
    RoundTripIff(d, dict, late, e, ls, m);
    if RightLabel(ls, m) { SameText(Name(d + e, |d|).value, ls); }
    if NoRepeats(d, dict) { RoundTrip(d, dict, late, e, ls, m); }
    WrittenEnds(d, dict, e, ls, m);
    WrittenSize(d, dict, e, ls, m);
    WrittenEncoded(d, dict, e, ls, m);
  }

  /** What a host in the data is good for once the length is in place. */
  lemma HostIsBack(d: seq<Byte>, w: seq<Byte>, v: seq<Byte>, pref: seq<Byte>, dict: seq<nat>, late: nat,
                   e: seq<Byte>, ls: seq<Label>, m: Option<Match>)
    requires Table(d, dict, late) && late <= LATE && |w| == |v| && D.AllBelow(dict, |d|) && GoodName(ls)
    requires AllListed(d + w + pref, dict) && Written(d + w + pref, dict, e, ls, m)
    ensures m.Some? ==> m.value.i < |dict| && m.value.j <= m.value.s < |ls|
    ensures var f, dict' := d + v + pref, DictAfter(d + w + pref, dict, m);
            && Table(f + e, dict', Late(d + w + pref, dict, m, late)) && D.AllBelow(dict', |f| + |e|)
            && Stored(f + e, |f|) && (SameName(Name(f + e, |f|).value, ls) <==> RightLabel(ls, m)) && Keeps(d, f + e)
  {
    hide Table, Written, Stored, AllListed, SameName, RightLabel, DictAdd;
    D.LengthFilled(d, w, v, pref, dict, late, D.Host(ls, e, m, None, true));
    WrittenSize(d + w + pref, dict, e, ls, m);
    TableSize(d, dict, late);
    DictAddFrom(d + w + pref, dict, late, if m.None? then None else ShortTarget(d + w + pref, dict, m.value));
    forall p | Stored(d, p) ensures Stored(d + v + pref + e, p) && Name(d + v + pref + e, p) == Name(d, p) {
      StoredPrefix(d, v + pref + e, p);
      assert d + v + pref + e == d + (v + pref + e);
    }
  }

  lemma TableSize(d: seq<Byte>, dict: seq<nat>, late: nat)
    requires Table(d, dict, late)
    ensures |dict| <= DICTSIZE
  {
  }

  lemma TableListed(d: seq<Byte>, dict: seq<nat>, late: nat)
    requires Table(d, dict, late)
    ensures AllListed(d, dict)
  {
  }

  lemma WrittenEnds(d: seq<Byte>, dict: seq<nat>, e: seq<Byte>, ls: seq<Label>, m: Option<Match>)
    requires AllListed(d, dict) && GoodName(ls) && Written(d, dict, e, ls, m)
    ensures m.Some? ==> m.value.j <= |ls| && m.value.i < |dict|
    ensures EndsAt(d + e, |d|, Prefix(ls, m), TargetOf(d, dict, m))
  {
    if m.Some? {
      EndsWithPtr(d, e, ls[..m.value.j], MatchPos(d, dict, m.value));
    } else {
      assert (d + e)[|d| + WireLen(ls)] == e[|e| - 1];
    }
  }

  lemma WrittenSize(d: seq<Byte>, dict: seq<nat>, e: seq<Byte>, ls: seq<Label>, m: Option<Match>)
    requires AllListed(d, dict) && GoodName(ls) && Written(d, dict, e, ls, m)
    ensures 0 < |e| <= WireLen(ls) + 1
  {
    if m.Some? { WireLenTake(ls, m.value.j); }
  }

  lemma {:induction false} LabelsEncoded(d: seq<Byte>, p: nat, ls: seq<Label>)
    requires NameSpec.Sized(ls) && WireAt(d, p, ls) && p + WireLen(ls) <= |d| && Encoded(d[p + WireLen(ls)..])
    ensures Encoded(d[p..])
    decreases ls
  {
    hide Encoded;
    if ls != [] {
      var n := 1 + |ls[0]|;
      LabelsEncoded(d, p + n, ls[1..]);
      LabelEncoded(d, p, n);
    }
  }

  lemma LabelEncoded(d: seq<Byte>, p: nat, n: nat)
    requires 1 < n <= 64 && p + n <= |d| && d[p] as nat == n - 1 && Encoded(d[p + n..])
    ensures Encoded(d[p..])
  {
    assert d[p..][0] == d[p] && d[p..][n..] == d[p + n..];
  }

  lemma TailOf(d: seq<Byte>, e: seq<Byte>, n: nat)
    requires n <= |e|
    ensures (d + e)[|d|..] == e && (d + e)[|d| + n..] == e[n..]
    ensures n + 1 == |e| ==> e[n..] == [e[n]]
  {
  }

  lemma WholeEncoded(d: seq<Byte>, e: seq<Byte>, ls: seq<Label>)
    requires NameSpec.Sized(ls) && WrittenWhole(d, e, ls)
    ensures Encoded(e)
  {
    hide WireAt, WireLen, Encoded;
    TailOf(d, e, WireLen(ls));
    EndEncoded(0);
    LabelsEncoded(d + e, |d|, ls);
  }

  lemma PtrEncoded(d: seq<Byte>, e: seq<Byte>, pre: seq<Label>, q: nat)
    requires NameSpec.Sized(pre) && WrittenPtr(d, e, pre, q)
    ensures Encoded(e)
  {
    hide WireAt, WireLen, Encoded, PtrBytes, NameSpec.Sized;
    TailOf(d, e, WireLen(pre));
    EndEncoded(q);
    LabelsEncoded(d + e, |d|, pre);
  }

  /** The bytes of a pushed name are one encoded name, and nothing else. */
  lemma WrittenEncoded(d: seq<Byte>, dict: seq<nat>, e: seq<Byte>, ls: seq<Label>, m: Option<Match>)
    requires AllListed(d, dict) && GoodName(ls) && Written(d, dict, e, ls, m)
    ensures Encoded(e)
  {
    hide WrittenWhole, WrittenPtr, Search, Stored, Encoded, Pos;
    match m
    case None => WholeEncoded(d, e, ls);
    case Some(x) => PtrEncoded(d, e, ls[..x.j], MatchPos(d, dict, x));
  }

  lemma EndEncoded(q: nat)
    ensures Encoded([0]) && (q <= 0x3fff ==> Encoded(PtrBytes(q)))
  {
  }

  lemma EndsWithPtr(d: seq<Byte>, e: seq<Byte>, pre: seq<Label>, q: nat)
    requires Sized(pre) && WrittenPtr(d, e, pre, q)
    ensures EndsAt(d + e, |d|, pre, Some(q))
  {
    var p := |d| + WireLen(pre);
    assert (d + e)[p] == e[|e| - 2..][0] && (d + e)[p + 1] == e[|e| - 2..][1];
  }

  /** The labels `pre` from `dn` are followed by the root label, or by a pointer that ends
      the packet. */
  ghost predicate EndsAt(d: seq<Byte>, dn: nat, pre: seq<Label>, target: Option<nat>) {
    var p := dn + WireLen(pre);
    && Sized(pre) && WireAt(d, dn, pre)
    && match target
       case None => p < |d| && d[p] == 0
       case Some(t) => p + 2 == |d| && IsPtr(d, p) && Target(d, p) == t
  }

  lemma LabelOrEnd(d: seq<Byte>, dn: nat, pre: seq<Label>, target: Option<nat>, x: nat)
    requires EndsAt(d, dn, pre, target) && x <= |pre|
    ensures x < |pre| ==> LabelAt(d, dn + WireLen(pre[..x]), pre[x])
    ensures x < |pre| ==> WireLen(pre[..x + 1]) == WireLen(pre[..x]) + 1 + |pre[x]|
    ensures x == |pre| ==> WireLen(pre[..x]) == WireLen(pre)
    ensures x < |pre| ==> dn + WireLen(pre[..x + 1]) < |d|
    ensures x == 0 <==> WireLen(pre[..x]) == 0
  {
    WirePos(d, dn, pre, x);
    if x < |pre| {
      TakeMore(pre, x);
      WireLenSnoc(pre[..x], pre[x]);
      WireLenTakeMono(pre, x + 1);
    } else {
      assert pre[..x] == pre;
    }
  }

  lemma FirstIndexIs(dict: seq<nat>, t: nat, i: nat)
    requires i < |dict| && dict[i] == t && t !in dict[..i]
    ensures FirstIndex(dict, t) == i
  {
    if i > 0 {
      assert dict[0] == dict[..i][0];
      assert forall y :: y in dict[1..][..i - 1] ==> y in dict[..i];
      FirstIndexIs(dict[1..], t, i - 1);
    }
  }

  lemma WireLenTake(ls: seq<Label>, j: nat)
    requires j < |ls| && 1 <= |ls[j]|
    ensures WireLen(ls[..j]) + 2 <= WireLen(ls)
  {
    if j > 0 {
      assert ls[1..][..j - 1] == ls[..j][1..];
      WireLenTake(ls[1..], j - 1);
    }
  }

  lemma WireLenTakeMono(ls: seq<Label>, j: nat)
    requires j <= |ls|
    ensures WireLen(ls[..j]) <= WireLen(ls)
  {
    if j > 0 {
      assert ls[1..][..j - 1] == ls[..j][1..];
      WireLenTakeMono(ls[1..], j - 1);
    }
  }

  lemma PointerFits(d: seq<Byte>, dict: seq<nat>, ls: seq<Label>, m: Match)
    requires AllListed(d, dict) && GoodName(ls) && Search(d, dict, ls, 0) == Some(m)
    ensures Found(d, dict, ls, m) && WireLen(ls[..m.j]) + 2 <= WireLen(ls)
  {
    SearchFound(d, dict, ls, 0);
    WireLenTake(ls, m.j);
  }

  /** Labels stay labels when the bytes before them are put back. */
  lemma {:induction false} WireShift(d: seq<Byte>, r: seq<Byte>, p: nat, ls: seq<Label>)
    requires WireAt(r, p, ls)
    ensures WireAt(d + r, |d| + p, ls)
    decreases ls
  {
    if ls != [] {
      var l := ls[0];
      assert (d + r)[|d| + p + 1..|d| + p + 1 + |l|] == r[p + 1..p + 1 + |l|];
      WireShift(d, r, p + 1 + |l|, ls[1..]);
    }
  }

  lemma WholeWritten(d: seq<Byte>, r: seq<Byte>, ls: seq<Label>)
    requires Behind(r, ls)
    ensures WrittenWhole(d, r[..WireLen(ls) + 1], ls)
  {
    hide WireAt, WireLen;
    var e := r[..WireLen(ls) + 1];
    WireFrame(r, e, 0, ls);
    WireShift(d, e, 0, ls);
  }

  lemma ShortWritten(d: seq<Byte>, dict: seq<nat>, r: seq<Byte>, r': seq<Byte>, ls: seq<Label>, m: Match)
    requires AllListed(d, dict) && Behind(r, ls) && Found(d, dict, ls, m)
    requires var ap, bp := WireLen(ls[..m.j]), MatchPos(d, dict, m);
             ap + 2 <= |r| && r' == r[ap := 192 + bp / 256 % 64][ap + 1 := bp % 256]
    ensures WrittenShort(d, dict, r'[..WireLen(ls[..m.j]) + 2], ls, m)
  {
    hide WireAt, WireLen, Pos, Stored, PtrBytes;
    var pre, bp := ls[..m.j], MatchPos(d, dict, m);
    WirePos(r, 0, ls, m.j);
    PtrWritten(d, r, r', pre, bp);
  }

  lemma PtrWritten(d: seq<Byte>, r: seq<Byte>, r': seq<Byte>, pre: seq<Label>, q: nat)
    requires WireAt(r, 0, pre) && q <= 0x3fff && WireLen(pre) + 2 <= |r|
    requires r' == r[WireLen(pre) := 192 + q / 256 % 64][WireLen(pre) + 1 := q % 256]
    ensures WrittenPtr(d, r'[..WireLen(pre) + 2], pre, q)
  {
    hide WireAt, WireLen, PtrBytes;
    var n := WireLen(pre);
    var e := r'[..n + 2];
    forall i: nat | i < n ensures e[i] == r[i] { }
    WireFrame(r, e, 0, pre);
    WireShift(d, e, 0, pre);
    PtrPut(r, r', n, q);
  }

  lemma PtrPut(r: seq<Byte>, r': seq<Byte>, n: nat, q: nat)
    requires q <= 0x3fff && n + 2 <= |r| && r' == r[n := 192 + q / 256 % 64][n + 1 := q % 256]
    ensures r'[..n + 2][n..] == PtrBytes(q)
  {
    assert r'[..n + 2][n..] == [r'[n], r'[n + 1]];
  }

  /** The text ends without a dot: its last label still needs its length. */
  lemma LastLabel(r: seq<Byte>, r': seq<Byte>, dn: seq<Byte>, ls: seq<Label>, m: nat, sp: nat, dp: nat)
    requires (ls == [] ==> |dn| == 1) && Scanned(r, dn, ls, m, sp, |dn|, dp) && sp < |dn|
    requires r' == Put(r, dp, (|dn| - sp) % 64)
    ensures ls != [] && WireLen(ls) == dp + 1 + (|dn| - sp)
    ensures WireLen(ls) <= |r'| ==> WireAt(r', 0, ls)
  {
    hide WireAt, WireLen, Spells;
    ParseEnd(dn, ls, m, sp, dp);
    assert dn[sp..|dn|] == dn[sp..];
    LaidLabel(r, r', ls, m, dp, dn[sp..]);
    assert ls[..m + 1] == ls;
  }

  lemma NoLastLabel(r: seq<Byte>, dn: seq<Byte>, ls: seq<Label>, m: nat, sp: nat, dp: nat)
    requires (ls == [] ==> |dn| == 1) && Scanned(r, dn, ls, m, sp, |dn|, dp) && sp == |dn|
    ensures ls == [] ==> dp == 1 && (|r| > 0 ==> r[0] == 0)
    ensures ls != [] ==> dp > 1 && WireLen(ls) == dp && (dp <= |r| ==> WireAt(r, 0, ls))
  {
    if ls != [] {
      ParseEnd(dn, ls, m, sp, dp);
      assert ls[..m] == ls;
      assert GoodLabel(ls[0]);
    }
  }

  ghost predicate RootParsed(r: seq<Byte>, sp: nat, sx: nat, dp: nat) {
    sx == sp == dp && (sx > 0 && |r| > 0 ==> r[0] == 0)
  }

  /** The region holds `m` whole labels and, behind a byte for its length, part of the next,
      as far as they fit. */
  ghost predicate Laid(r: seq<Byte>, ls: seq<Label>, m: nat, dp: nat, part: seq<Byte>) {
    && m <= |ls|
    && (dp <= |r| ==> WireAt(r, 0, ls[..m]))
    && (dp + 1 + |part| <= |r| ==> r[dp + 1..dp + 1 + |part|] == part)
  }

  ghost predicate Scanned(r: seq<Byte>, dn: seq<Byte>, ls: seq<Label>, m: nat, sp: nat, sx: nat, dp: nat) {
    && sp <= sx <= |dn|
    && if ls == [] then RootParsed(r, sp, sx, dp)
       else Parsed(dn, ls, m, sp, sx, dp) && Laid(r, ls, m, dp, dn[sp..sx])
  }

  function Put(r: seq<Byte>, off: nat, v: Byte): seq<Byte> { if off < |r| then r[off := v] else r }

  lemma ScanStart(r: seq<Byte>, dn: seq<Byte>, ls: seq<Label>)
    requires WellFormed(dn, ls)
    ensures Scanned(r, dn, ls, 0, 0, 0, 0)
    ensures ls == [] ==> dn == [DOT]
  {
    assert dn[0..] == dn && ls[0..] == ls;
  }

  /** One character: a dot fills in the length of the label before it. */
  lemma ScanStep(r: seq<Byte>, r': seq<Byte>, dn: seq<Byte>, ls: seq<Label>, m: nat, sp: nat, sx: nat, dp: nat)
    requires (ls == [] ==> dn == [DOT]) && Scanned(r, dn, ls, m, sp, sx, dp) && sx < |dn|
    requires r' == if dn[sx] == DOT then Put(r, dp, (sx - sp) % 64) else Put(r, dp + 1 + (sx - sp), dn[sx])
    ensures if dn[sx] == DOT then Scanned(r', dn, ls, m + 1, sx + 1, sx + 1, dp + 1 + (sx - sp))
            else Scanned(r', dn, ls, m, sp, sx + 1, dp)
  {
    if ls != [] {
      if dn[sx] == DOT { ScanDot(r, r', dn, ls, m, sp, sx, dp); } else { ScanChar(r, r', dn, ls, m, sp, sx, dp); }
    }
  }

  lemma ScanDot(r: seq<Byte>, r': seq<Byte>, dn: seq<Byte>, ls: seq<Label>, m: nat, sp: nat, sx: nat, dp: nat)
    requires sp <= sx < |dn| && Parsed(dn, ls, m, sp, sx, dp) && Laid(r, ls, m, dp, dn[sp..sx])
    requires dn[sx] == DOT && r' == Put(r, dp, (sx - sp) % 64)
    ensures Parsed(dn, ls, m + 1, sx + 1, sx + 1, dp + 1 + (sx - sp))
    ensures Laid(r', ls, m + 1, dp + 1 + (sx - sp), dn[sx + 1..sx + 1])
  {
    ParseStep(dn, ls, m, sp, sx, dp);
    LaidLabel(r, r', ls, m, dp, dn[sp..sx]);
    assert dn[sx + 1..sx + 1] == [];
  }

  lemma ScanChar(r: seq<Byte>, r': seq<Byte>, dn: seq<Byte>, ls: seq<Label>, m: nat, sp: nat, sx: nat, dp: nat)
    requires sp <= sx < |dn| && Parsed(dn, ls, m, sp, sx, dp) && Laid(r, ls, m, dp, dn[sp..sx])
    requires dn[sx] != DOT && r' == Put(r, dp + 1 + (sx - sp), dn[sx])
    ensures Parsed(dn, ls, m, sp, sx + 1, dp) && Laid(r', ls, m, dp, dn[sp..sx + 1])
  {
    ParseStep(dn, ls, m, sp, sx, dp);
    LaidByte(r, r', ls, m, dp, dn[sp..sx], dn[sx]);
    assert dn[sp..sx + 1] == dn[sp..sx] + [dn[sx]];
  }

  lemma LaidByte(r: seq<Byte>, r': seq<Byte>, ls: seq<Label>, m: nat, dp: nat, part: seq<Byte>, ch: Byte)
    requires Laid(r, ls, m, dp, part) && dp == WireLen(ls[..m])
    requires r' == Put(r, dp + 1 + |part|, ch)
    ensures Laid(r', ls, m, dp, part + [ch])
  {
    if dp <= |r| { WireFrame(r, r', 0, ls[..m]); }
    if dp + 1 + |part| < |r| {
      assert r'[dp + 1..dp + 1 + |part|] == r[dp + 1..dp + 1 + |part|];
      assert r'[dp + 1..dp + 1 + |part| + 1] == r'[dp + 1..dp + 1 + |part|] + [ch];
    }
  }

  lemma LaidLabel(r: seq<Byte>, r': seq<Byte>, ls: seq<Label>, m: nat, dp: nat, part: seq<Byte>)
    requires Laid(r, ls, m, dp, part) && dp == WireLen(ls[..m]) && m < |ls| && part == ls[m] && |part| < 64
    requires r' == Put(r, dp, |part|)
    ensures Laid(r', ls, m + 1, dp + 1 + |part|, [])
    ensures WireLen(ls[..m + 1]) == dp + 1 + |part|
  {
    TakeMore(ls, m);
    WireLenSnoc(ls[..m], ls[m]);
    if dp + 1 + |part| <= |r| {
      WireFrame(r, r', 0, ls[..m]);
      assert r'[dp + 1..dp + 1 + |part|] == r[dp + 1..dp + 1 + |part|];
      WireSnoc(r', 0, ls[..m], ls[m]);
    }
  }

  /** How far the text has been read: `m` labels before `sp`, and part of the next one. */
  ghost predicate Parsed(dn: seq<Byte>, ls: seq<Label>, m: nat, sp: nat, sx: nat, dp: nat)
    requires sp <= sx <= |dn|
  {
    && m <= |ls| && GoodName(ls)
    && dp == WireLen(ls[..m])
    && Spells(dn[sp..], ls[m..])
    && (if m < |ls| then sx - sp <= |ls[m]| else sp == |dn|)
  }

  lemma SpellsNothing(t: seq<Byte>, ls: seq<Label>)
    requires Spells(t, ls) && |ls| == 0
    ensures t == []
  {
  }

  lemma ParseStep(dn: seq<Byte>, ls: seq<Label>, m: nat, sp: nat, sx: nat, dp: nat)
    requires sp <= sx < |dn| && Parsed(dn, ls, m, sp, sx, dp)
    ensures m < |ls| && sx - sp <= |ls[m]| && dn[sp..sx] == ls[m][..sx - sp]
    ensures dn[sx] == DOT <==> sx - sp == |ls[m]|
    ensures dn[sx] == DOT ==> Parsed(dn, ls, m + 1, sx + 1, sx + 1, dp + 1 + |ls[m]|)
    ensures dn[sx] != DOT ==> Parsed(dn, ls, m, sp, sx + 1, dp)
  {
    hide WireLen, Spells;
    var t, l := dn[sp..], ls[m];
    TakeMore(ls, m);
    SpellsStep(t, ls[m..]);
    assert t[sx - sp] == dn[sx];
    assert dn[sp..sx] == t[..|l|][..sx - sp];
    if sx - sp < |l| {
      assert dn[sx] == l[sx - sp];
    } else {
      assert t[|l| + 1..] == dn[sx + 1..];
      WireLenSnoc(ls[..m], l);
      if m + 1 == |ls| { SpellsNothing(dn[sx + 1..], ls[m + 1..]); }
    }
  }

  lemma ParseEnd(dn: seq<Byte>, ls: seq<Label>, m: nat, sp: nat, dp: nat)
    requires sp <= |dn| && ls != [] && Parsed(dn, ls, m, sp, |dn|, dp)
    ensures if sp < |dn| then m + 1 == |ls| && dn[sp..] == ls[m] && WireLen(ls) == dp + 1 + |ls[m]|
            else m == |ls| && WireLen(ls) == dp
  {
    assert ls[..|ls|] == ls;
    if m < |ls| {
      TakeMore(ls, m);
      SpellsStep(dn[sp..], ls[m..]);
      WireLenSnoc(ls[..m], ls[m]);
    }
  }
}
