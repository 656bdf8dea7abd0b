/** Domain names in wire format with compression pointers (section 4.1.4 of RFC 1035), as
    libs/async/src/dns/dns.c reads them: what a name at an offset spells, and how far its
    pointers go. */
module NameSpec {
  import opened Bytes

  const MAXPTRS: nat := 127
  const DOT: Byte := 46

  type Label = seq<Byte>

  // ----- Letters ---------------------------------------------------------------

  function Lower(b: Byte): Byte { if 65 <= b <= 90 then b + 32 else b }

  function FoldLabel(l: Label): (r: Label)
    ensures |r| == |l| && forall i :: 0 <= i < |l| ==> r[i] == Lower(l[i])
  {
    seq(|l|, i requires 0 <= i < |l| => Lower(l[i]))
  }

  /** The same name, up to the case of ASCII letters. */
  predicate SameName(a: seq<Label>, b: seq<Label>) {
    |a| == |b| && forall i :: 0 <= i < |a| ==> FoldLabel(a[i]) == FoldLabel(b[i])
  }

  /** The bytes of a C string in a buffer that ends with NUL. */
  function CString(l: Label): Label {
    if l == [] || l[0] == 0 then [] else [l[0]] + CString(l[1..])
  }

  /** `0 == strcasecmp(a, b)` on two NUL-terminated label buffers. */
  predicate StrCaseEq(a: Label, b: Label) { FoldLabel(CString(a)) == FoldLabel(CString(b)) }

  predicate GoodLabel(l: Label) { 1 <= |l| <= 63 && 0 !in l && DOT !in l }

  predicate GoodName(ls: seq<Label>) { forall i :: 0 <= i < |ls| ==> GoodLabel(ls[i]) }

  lemma CStringWhole(l: Label)
    requires 0 !in l
    ensures CString(l) == l
  {
    if l != [] { assert l == [l[0]] + l[1..]; CStringWhole(l[1..]); }
  }

  lemma StrCaseEqIsFold(a: Label, b: Label)
    requires 0 !in a && 0 !in b
    ensures StrCaseEq(a, b) <==> FoldLabel(a) == FoldLabel(b)
  {
    CStringWhole(a);
    CStringWhole(b);
  }

  // ----- What case-insensitive comparison identifies --------------------------------

  /** The capital and the small form of one of the 26 ASCII letters. */
  predicate CaseOf(u: Byte, l: Byte) { 65 <= u <= 90 && 97 <= l <= 122 && l - u == 32 }

  predicate SameByte(a: Byte, b: Byte) { a == b || CaseOf(a, b) || CaseOf(b, a) }

  /** The same bytes, except for the case of ASCII letters. */
  predicate SameLetters(s: seq<Byte>, t: seq<Byte>) {
    |s| == |t| && forall i :: 0 <= i < |s| ==> SameByte(s[i], t[i])
  }

  predicate SameLabels(a: seq<Label>, b: seq<Label>) {
    |a| == |b| && forall i :: 0 <= i < |a| ==> SameLetters(a[i], b[i])
  }

  lemma LowerIff(a: Byte, b: Byte)
    ensures Lower(a) == Lower(b) <==> SameByte(a, b)
  {
  }

  lemma FoldIff(s: seq<Byte>, t: seq<Byte>)
    ensures FoldLabel(s) == FoldLabel(t) <==> SameLetters(s, t)
  {
    hide Lower, SameByte;
    forall a, b ensures Lower(a) == Lower(b) <==> SameByte(a, b) { LowerIff(a, b); }
    if FoldLabel(s) == FoldLabel(t) {
      forall i | 0 <= i < |s| ensures SameByte(s[i], t[i]) { assert FoldLabel(s)[i] == FoldLabel(t)[i]; }
    }
  }

  /** Where the C string in a buffer ends. */
  predicate EndsString(l: Label, n: nat) { n <= |l| && 0 !in l[..n] && (n < |l| ==> l[n] == 0) }

  lemma {:induction false} CStringIs(l: Label, n: nat)
    requires EndsString(l, n)
    ensures CString(l) == l[..n]
  {
    if n > 0 {
      assert l[0] == l[..n][0];
      assert l[1..][..n - 1] == l[..n][1..];
      CStringIs(l[1..], n - 1);
    }
  }

  /** `strcasecmp` finds two buffers alike exactly if the bytes in front of their first NULs are the same
      except for the case of ASCII letters. */
  lemma StrCaseEqIff(a: Label, b: Label, n: nat, m: nat)
    requires EndsString(a, n) && EndsString(b, m)
    ensures StrCaseEq(a, b) <==> SameLetters(a[..n], b[..m])
  {
    CStringIs(a, n);
    CStringIs(b, m);
    FoldIff(a[..n], b[..m]);
  }

  /** Names are the same exactly if their labels are, byte for byte, except for the case of letters. */
  lemma SameNameIff(a: seq<Label>, b: seq<Label>)
    ensures SameName(a, b) <==> SameLabels(a, b)
  {
    hide FoldLabel, SameLetters;
    forall s, t ensures FoldLabel(s) == FoldLabel(t) <==> SameLetters(s, t) { FoldIff(s, t); }
  }

  /** No label occurs twice, whatever the case of its letters. */
  predicate NoRepeat(ls: seq<Label>) {
    forall i, j :: 0 <= i < j < |ls| ==> FoldLabel(ls[i]) != FoldLabel(ls[j])
  }

  /** Presentation format: every label followed by a dot, and a single dot for the root. */
  function Dots(ls: seq<Label>): seq<Byte> {
    if ls == [] then [] else ls[0] + [DOT] + Dots(ls[1..])
  }

  function Text(ls: seq<Label>): seq<Byte> { if ls == [] then [DOT] else Dots(ls) }

  /** Section 2.3.1 of RFC 1035: a dot behind every label, and nothing else. */
  lemma {:induction false} DotsBetween(ls: seq<Label>, k: nat)
    requires k < |ls|
    ensures var p := |Dots(ls[..k])|;
            && p + |ls[k]| < |Dots(ls)| && Dots(ls)[p..p + |ls[k]|] == ls[k] && Dots(ls)[p + |ls[k]|] as int == '.' as int
    ensures Dots(ls)[|Dots(ls[..k])| + |ls[k]| + 1..] == Dots(ls[k + 1..])
    ensures Text([]) == [DOT] && Dots([]) == []
  {
    if k > 0 {
      DotsBetween(ls[1..], k - 1);
      assert ls[..k][1..] == ls[1..][..k - 1] && ls[..k][0] == ls[0];
      assert ls[1..][k..] == ls[k + 1..];
      var rest, n := Dots(ls[1..]), |ls[0]| + 1;
      assert Dots(ls)[n..] == rest;
    } else {
      assert ls[..0] == [];
    }
  }

  /** `t` is the presentation of `ls`, with or without the final dot. */
  predicate Spells(t: seq<Byte>, ls: seq<Label>) {
    t == Dots(ls) || (ls != [] && t + [DOT] == Dots(ls))
  }

  predicate WellFormed(dn: seq<Byte>, ls: seq<Label>) {
    GoodName(ls) && if ls == [] then dn == [DOT] else Spells(dn, ls)
  }

  /** A name may be given with the final dot or without it. */
  lemma BothForms(ls: seq<Label>)
    requires GoodName(ls) && ls != []
    ensures var t := Text(ls); WellFormed(t, ls) && t != [] && t[|t| - 1] == DOT && WellFormed(t[..|t| - 1], ls)
  {
    DotLast(ls);
    var t := Dots(ls);
    assert t[..|t| - 1] + [DOT] == t;
  }

  lemma {:induction false} DotLast(ls: seq<Label>)
    requires ls != []
    ensures Dots(ls) != [] && Dots(ls)[|Dots(ls)| - 1] == DOT
  {
    if |ls| > 1 { DotLast(ls[1..]); } else { assert Dots(ls[1..]) == []; }
  }

  // ----- Names in a packet -------------------------------------------------------

  predicate IsPtr(d: seq<Byte>, p: nat) { p < |d| && d[p] / 64 == 3 && |d| - p >= 2 }

  function Target(d: seq<Byte>, p: nat): nat
    requires IsPtr(d, p)
  {
    (d[p] as int) % 64 * 256 + d[p + 1] as int
  }

  /** A literal label, or the empty root label, stands at `p`. */
  predicate IsLit(d: seq<Byte>, p: nat) { p < |d| && d[p] < 64 && p + 1 + d[p] <= |d| }

  /** The labels of the name at `p`, or nothing when it runs off the packet, meets a reserved
      tag, or has a pointer that does not go back before `r`, where the current run began. */
  function Labels(d: seq<Byte>, r: nat, p: nat): Option<seq<Label>>
    decreases r, |d| - p
  {
    if IsLit(d, p) then
      if d[p] == 0 then Some([])
      else
        match Labels(d, r, p + 1 + d[p])
        case None => None
        case Some(ls) => Some([d[p + 1..p + 1 + d[p]]] + ls)
    else if IsPtr(d, p) && Target(d, p) < r then Labels(d, Target(d, p), Target(d, p))
    else None
  }

  /** The name at offset `p`. */
  function Name(d: seq<Byte>, p: nat): Option<seq<Label>> { Labels(d, p, p) }

  /** The number of pointers followed from `p` before a label is met. */
  function Hops(d: seq<Byte>, p: nat): nat {
    if IsPtr(d, p) && Target(d, p) < p then 1 + Hops(d, Target(d, p)) else 0
  }

  /** Where those pointers lead. */
  function Home(d: seq<Byte>, p: nat): nat {
    if IsPtr(d, p) && Target(d, p) < p then Home(d, Target(d, p)) else p
  }

  /** The offset after the label that is read at `p`. */
  function After(d: seq<Byte>, p: nat): nat {
    var h := Home(d, p);
    if IsLit(d, h) then h + 1 + d[h] else |d|
  }

  /** The offset from which the `k`-th label of the name at `p` is read. */
  function Pos(d: seq<Byte>, p: nat, k: nat): nat
    decreases k
  {
    if k == 0 then p else Pos(d, After(d, p), k - 1)
  }

  /** No pointer of the name is the head of a chain of more than 127. */
  predicate Shallow(d: seq<Byte>, r: nat, p: nat)
    decreases r, |d| - p
  {
    if IsLit(d, p) then d[p] == 0 || Shallow(d, r, p + 1 + d[p])
    else if IsPtr(d, p) && Target(d, p) < r
    then Hops(d, p) <= MAXPTRS && Shallow(d, Target(d, p), Target(d, p))
    else true
  }

  // ----- Laws ----------------------------------------------------------------------

  lemma {:induction false} LabelsMono(d: seq<Byte>, r: nat, r': nat, p: nat)
    requires Labels(d, r, p).Some? && r <= r'
    ensures Labels(d, r', p) == Labels(d, r, p)
    decreases |d| - p
  {
    if IsLit(d, p) && d[p] != 0 { LabelsMono(d, r, r', p + 1 + d[p]); }
  }

  /** Appending to the packet changes no name that is already there. */
  lemma {:induction false} LabelsPrefix(d: seq<Byte>, e: seq<Byte>, r: nat, p: nat)
    requires Labels(d, r, p).Some?
    ensures Labels(d + e, r, p) == Labels(d, r, p)
    decreases r, |d| - p
  {
    if IsLit(d, p) {
      assert (d + e)[p + 1..p + 1 + d[p]] == d[p + 1..p + 1 + d[p]];
      if d[p] != 0 { LabelsPrefix(d, e, r, p + 1 + d[p]); }
    } else {
      LabelsPrefix(d, e, Target(d, p), Target(d, p));
    }
  }

  lemma {:induction false} HopsPrefix(d: seq<Byte>, e: seq<Byte>, r: nat, p: nat)
    requires Labels(d, r, p).Some? && r <= p
    ensures Hops(d + e, p) == Hops(d, p) && Home(d + e, p) == Home(d, p) && After(d + e, p) == After(d, p)
    decreases p
  {
    HomeLit(d, r, p);
    if IsPtr(d, p) { HopsPrefix(d, e, Target(d, p), Target(d, p)); }
  }

  lemma {:induction false} ShallowPrefix(d: seq<Byte>, e: seq<Byte>, r: nat, p: nat)
    requires Labels(d, r, p).Some? && Shallow(d, r, p) && r <= p
    ensures Shallow(d + e, r, p)
    decreases r, |d| - p
  {
    hide Home, After;
    if IsLit(d, p) {
      if d[p] != 0 { ShallowPrefix(d, e, r, p + 1 + d[p]); }
    } else {
      HopsPrefix(d, e, r, p);
      ShallowPrefix(d, e, Target(d, p), Target(d, p));
    }
  }

  lemma {:induction false} ShallowMono(d: seq<Byte>, r: nat, r': nat, p: nat)
    requires Labels(d, r, p).Some? && Shallow(d, r, p) && r <= r'
    ensures Shallow(d, r', p)
    decreases |d| - p
  {
    if IsLit(d, p) && d[p] != 0 { ShallowMono(d, r, r', p + 1 + d[p]); }
  }

  lemma {:induction false} ShallowAfter(d: seq<Byte>, r: nat, p: nat)
    requires Labels(d, r, p).Some? && Labels(d, r, p).value != [] && Shallow(d, r, p) && r <= p
    ensures Shallow(d, After(d, p), After(d, p))
    decreases p
  {
    hide Labels, Home, After, IsLit, IsPtr, Shallow;
    if IsPtr(d, p) {
      PtrStep(d, r, p);
      PtrShallow(d, r, p);
      ShallowAfter(d, Target(d, p), Target(d, p));
    } else {
      LitShallow(d, r, p);
    }
  }

  lemma PtrShallow(d: seq<Byte>, r: nat, p: nat)
    requires IsPtr(d, p) && Target(d, p) < r && Shallow(d, r, p)
    ensures Shallow(d, Target(d, p), Target(d, p))
  {
  }

  lemma LitShallow(d: seq<Byte>, r: nat, p: nat)
    requires !IsPtr(d, p) && Labels(d, r, p).Some? && Labels(d, r, p).value != [] && Shallow(d, r, p) && r <= p
    ensures Shallow(d, After(d, p), After(d, p))
  {
    ShallowMono(d, r, p + 1 + d[p], p + 1 + d[p]);
  }

  lemma {:induction false} ShallowPos(d: seq<Byte>, p: nat, k: nat)
    requires Name(d, p).Some? && k <= |Name(d, p).value| && Shallow(d, p, p)
    ensures Shallow(d, Pos(d, p, k), Pos(d, p, k)) && Hops(d, Pos(d, p, k)) <= MAXPTRS
    decreases k
  {
    if k > 0 {
      NameStep(d, p, p);
      ShallowAfter(d, p, p);
      ShallowPos(d, After(d, p), k - 1);
    }
  }

  /** Following the pointers at `p` leads to a literal label. */
  lemma {:induction false} HomeLit(d: seq<Byte>, r: nat, p: nat)
    requires Labels(d, r, p).Some? && r <= p
    ensures IsLit(d, Home(d, p)) && Home(d, p) <= p
    decreases p
  {
    if IsPtr(d, p) { HomeLit(d, Target(d, p), Target(d, p)); }
  }

  /** One label of a name: the label read at `p`, then the name at `After(d, p)`. */
  lemma {:induction false} NameStep(d: seq<Byte>, r: nat, p: nat)
    requires Labels(d, r, p).Some? && r <= p
    ensures var h := Home(d, p);
            && IsLit(d, h) && h <= p
            && (Labels(d, r, p).value == [] <==> d[h] == 0)
            && (d[h] != 0 ==>
                 && Labels(d, r, p).value[0] == d[h + 1..h + 1 + d[h]]
                 && Name(d, After(d, p)) == Some(Labels(d, r, p).value[1..]))
    decreases p
  {
    hide Labels, Home, After, IsLit, IsPtr;
    if IsPtr(d, p) {
      PtrStep(d, r, p);
      NameStep(d, Target(d, p), Target(d, p));
    } else {
      LitStep(d, r, p);
    }
  }

  lemma PtrStep(d: seq<Byte>, r: nat, p: nat)
    requires IsPtr(d, p) && Labels(d, r, p).Some? && r <= p
    ensures Target(d, p) < r && Labels(d, r, p) == Labels(d, Target(d, p), Target(d, p))
    ensures Home(d, p) == Home(d, Target(d, p)) && After(d, p) == After(d, Target(d, p))
  {
  }

  lemma LitStep(d: seq<Byte>, r: nat, p: nat)
    requires !IsPtr(d, p) && Labels(d, r, p).Some? && r <= p
    ensures IsLit(d, p) && Home(d, p) == p && (d[p] == 0 <==> Labels(d, r, p).value == [])
    ensures d[p] != 0 ==>
              && Labels(d, r, p).value[0] == d[p + 1..p + 1 + d[p]]
              && Name(d, After(d, p)) == Some(Labels(d, r, p).value[1..])
  {
    if d[p] != 0 { LabelsMono(d, r, p + 1 + d[p], p + 1 + d[p]); }
  }

  /** The `k`-th suffix of a name is the name at the `k`-th offset. */
  lemma {:induction false} NamePos(d: seq<Byte>, p: nat, k: nat)
    requires Name(d, p).Some? && k <= |Name(d, p).value|
    ensures Name(d, Pos(d, p, k)) == Some(Name(d, p).value[k..])
    decreases k
  {
    NameStep(d, p, p);
    if k > 0 {
      NamePos(d, After(d, p), k - 1);
      assert Name(d, p).value[1..][k - 1..] == Name(d, p).value[k..];
    }
  }

  lemma {:induction false} PosStep(d: seq<Byte>, p: nat, k: nat)
    ensures Pos(d, p, k + 1) == After(d, Pos(d, p, k))
    decreases k
  {
    if k > 0 { PosStep(d, After(d, p), k - 1); }
  }

  lemma {:induction false} PosPrefix(d: seq<Byte>, e: seq<Byte>, p: nat, k: nat)
    requires Name(d, p).Some? && k <= |Name(d, p).value|
    ensures Pos(d + e, p, k) == Pos(d, p, k)
    decreases k
  {
    hide Labels, Home, After, Hops;
    if k > 0 {
      NameStep(d, p, p);
      HopsPrefix(d, e, p, p);
      PosPrefix(d, e, After(d, p), k - 1);
    }
  }

  /** Behind a pointer the labels are read from where they are read behind its target. */
  lemma PtrSkips(d: seq<Byte>, p: nat, k: nat)
    requires IsPtr(d, p) && Target(d, p) < p && k > 0
    ensures Pos(d, p, k) == Pos(d, Target(d, p), k)
  {
    assert After(d, p) == After(d, Target(d, p));
  }

  lemma {:induction false} LabelSizes(d: seq<Byte>, r: nat, p: nat)
    requires Labels(d, r, p).Some?
    ensures forall l | l in Labels(d, r, p).value :: 1 <= |l| <= 63
    decreases r, |d| - p
  {
    if IsLit(d, p) && d[p] != 0 { LabelSizes(d, r, p + 1 + d[p]); }
    else if IsPtr(d, p) { LabelSizes(d, Target(d, p), Target(d, p)); }
  }

  // ----- One label at a time ---------------------------------------------------------

  /** What `dns_l_expand` returns: the label at `src` and the offset after it, following at
      most 127 pointers; an empty label at the end of the data when anything is wrong. */
  function ReadLabel(d: seq<Byte>, src: nat, nptrs: nat): (Label, nat)
    requires nptrs <= MAXPTRS
    decreases MAXPTRS - nptrs
  {
    if src >= |d| then ([], |d|)
    else if d[src] / 64 == 0 then
      if |d| - (src + 1) < d[src] then ([], |d|)
      else (d[src + 1..src + 1 + d[src]], src + 1 + d[src])
    else if d[src] / 64 == 3 then
      if nptrs + 1 > MAXPTRS || |d| - src < 2 then ([], |d|)
      else ReadLabel(d, (d[src] as int) % 64 * 256 + d[src + 1] as int, nptrs + 1)
    else ([], |d|)
  }

  lemma PtrAfter(d: seq<Byte>, p: nat)
    requires IsPtr(d, p) && Target(d, p) < p
    ensures After(d, p) == After(d, Target(d, p)) && Hops(d, p) == 1 + Hops(d, Target(d, p))
  {
  }

  lemma {:induction false} ReadLabelIsNameStep(d: seq<Byte>, r: nat, p: nat, nptrs: nat)
    requires Labels(d, r, p).Some? && r <= p && nptrs + Hops(d, p) <= MAXPTRS
    ensures ReadLabel(d, p, nptrs) ==
            (var ls := Labels(d, r, p).value;
             ((if ls == [] then [] else ls[0]), After(d, p)))
    decreases p
  {
    if IsPtr(d, p) {
      PtrAfter(d, p);
      ReadLabelIsNameStep(d, Target(d, p), Target(d, p), nptrs + 1);
    } else {
      NameStep(d, r, p);
      assert Home(d, p) == p && (d[p] == 0 ==> d[p + 1..p + 1 + d[p]] == []);
    }
  }

  /** What is read where no pointer can be followed. */
  lemma ReadLabelStops(d: seq<Byte>, src: nat, nptrs: nat)
    requires nptrs <= MAXPTRS && (src >= |d| || d[src] / 64 != 3 || nptrs + 1 > MAXPTRS || |d| - src < 2)
    ensures ReadLabel(d, src, nptrs) ==
            if src < |d| && d[src] / 64 == 0 && d[src] as int <= |d| - (src + 1)
            then (d[src + 1..src + 1 + d[src]], src + 1 + d[src]) else ([], |d|)
  {
  }

  // ----- Writing -----------------------------------------------------------------------

  /** Labels of at most 63 bytes, none of them empty. */
  predicate Sized(ls: seq<Label>) { forall i :: 0 <= i < |ls| ==> 1 <= |ls[i]| <= 63 }

  /** The number of bytes of some labels in wire format. */
  function WireLen(ls: seq<Label>): nat {
    if ls == [] then 0 else 1 + |ls[0]| + WireLen(ls[1..])
  }

  /** The length-prefixed label `l` stands at `p`. */
  predicate LabelAt(d: seq<Byte>, p: nat, l: Label) {
    p + 1 + |l| <= |d| && d[p] == |l| && d[p + 1..p + 1 + |l|] == l
  }

  /** The length-prefixed labels `ls` stand at `p`. */
  predicate WireAt(d: seq<Byte>, p: nat, ls: seq<Label>)
    decreases ls
  {
    ls != [] ==> LabelAt(d, p, ls[0]) && WireAt(d, p + 1 + |ls[0]|, ls[1..])
  }

  function PtrBytes(q: nat): seq<Byte>
    requires q <= 0x3fff
  {
    [192 + q / 256, q % 256]
  }

  lemma {:induction false} WireSnoc(d: seq<Byte>, p: nat, ls: seq<Label>, l: Label)
    requires WireAt(d, p, ls) && LabelAt(d, p + WireLen(ls), l)
    ensures WireAt(d, p, ls + [l]) && WireLen(ls + [l]) == WireLen(ls) + 1 + |l|
    decreases ls
  {
    if ls == [] {
      assert ls + [l] == [l];
    } else {
      assert (ls + [l])[1..] == ls[1..] + [l];
      WireSnoc(d, p + 1 + |ls[0]|, ls[1..], l);
    }
  }

  /** Only the bytes of the labels themselves matter. */
  lemma {:induction false} WireFrame(d: seq<Byte>, e: seq<Byte>, p: nat, ls: seq<Label>)
    requires WireAt(d, p, ls) && p + WireLen(ls) <= |e|
    requires forall i :: p <= i < p + WireLen(ls) && i < |d| ==> e[i] == d[i]
    ensures WireAt(e, p, ls)
    decreases ls
  {
    if ls != [] { WireFrame(d, e, p + 1 + |ls[0]|, ls[1..]); }
  }

  lemma LabelReads(d: seq<Byte>, r: nat, p: nat, l: Label)
    requires 1 <= |l| <= 63 && LabelAt(d, p, l) && Labels(d, r, p + 1 + |l|).Some?
    ensures Labels(d, r, p) == Some([l] + Labels(d, r, p + 1 + |l|).value)
    ensures Shallow(d, r, p + 1 + |l|) ==> Shallow(d, r, p)
  {
  }

  /** Labels written at `p`, followed by a name, spell those labels and then that name. */
  lemma {:induction false} WireReads(d: seq<Byte>, r: nat, p: nat, ls: seq<Label>)
    requires Sized(ls) && WireAt(d, p, ls)
    requires Labels(d, r, p + WireLen(ls)).Some?
    ensures Labels(d, r, p) == Some(ls + Labels(d, r, p + WireLen(ls)).value)
    ensures Shallow(d, r, p + WireLen(ls)) ==> Shallow(d, r, p)
    decreases ls
  {
    hide Labels, Shallow, LabelAt;
    var tail := Labels(d, r, p + WireLen(ls)).value;
    if ls == [] {
      assert [] + tail == tail;
    } else {
      WireReads(d, r, p + 1 + |ls[0]|, ls[1..]);
      LabelReads(d, r, p, ls[0]);
      assert ls + tail == [ls[0]] + (ls[1..] + tail);
    }
  }

  /** Written labels are read from where they were written, without following a pointer. */
  lemma {:induction false} WirePos(d: seq<Byte>, p: nat, ls: seq<Label>, k: nat)
    requires Sized(ls) && WireAt(d, p, ls) && k <= |ls|
    ensures Pos(d, p, k) == p + WireLen(ls[..k])
    ensures k < |ls| ==> LabelAt(d, Pos(d, p, k), ls[k]) && Hops(d, Pos(d, p, k)) == 0
    ensures WireAt(d, p, ls[..k])
    decreases ls
  {
    hide LabelAt, Hops, After;
    if ls != [] { LabelStep(d, p, ls[0]); }
    if k > 0 {
      WirePos(d, p + 1 + |ls[0]|, ls[1..], k - 1);
      assert ls[..k][1..] == ls[1..][..k - 1];
    }
  }

  lemma LabelStep(d: seq<Byte>, p: nat, l: Label)
    requires 1 <= |l| <= 63 && LabelAt(d, p, l)
    ensures Hops(d, p) == 0 && After(d, p) == p + 1 + |l|
  {
  }
}
