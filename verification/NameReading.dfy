/** What the loops of `dns_d_comp` know at each turn: the labels in their two buffers and the
    offsets they read next (libs/async/src/dns/dns.c:1700-1734). */
module NameReading {
  import opened Bytes
  import opened NameSpec
  import opened NameTable
  import opened NameSearch

  function LabelOrEmpty(ls: seq<Label>, x: nat): Label { if x < |ls| then ls[x] else [] }

  lemma TakeMore(ls: seq<Label>, m: nat)
    requires m < |ls|
    ensures ls[..m + 1] == ls[..m] + [ls[m]]
    ensures ls[m..] != [] && ls[m..][0] == ls[m] && ls[m..][1..] == ls[m + 1..]
  {
  }

  lemma WireLenSnoc(ls: seq<Label>, l: Label)
    ensures WireLen(ls + [l]) == WireLen(ls) + 1 + |l|
  {
    if ls != [] { assert (ls + [l])[1..] == ls[1..] + [l]; WireLenSnoc(ls[1..], l); }
  }

  /** A name in full, in a region that starts with it. */
  ghost predicate Behind(r: seq<Byte>, ls: seq<Label>) {
    GoodName(ls) && WireAt(r, 0, ls) && WireLen(ls) < |r| && r[WireLen(ls)] == 0
  }

  /** Reading the labels of that name one by one. */
  lemma BehindRead(r: seq<Byte>, ls: seq<Label>, x: nat)
    requires Behind(r, ls) && x <= |ls|
    ensures ReadLabel(r, WireLen(ls[..x]), 0).0 == LabelOrEmpty(ls, x)
    ensures x < |ls| ==> ReadLabel(r, WireLen(ls[..x]), 0).1 == WireLen(ls[..x + 1])
  {
    hide WireAt, WireLen, Pos, Hops, LabelAt, ReadLabel, GoodName;
    BehindSized(ls);
    WirePos(r, 0, ls, x);
    if x < |ls| {
      TakeMore(ls, x);
      WireLenSnoc(ls[..x], ls[x]);
      ReadLabelAt(r, WireLen(ls[..x]), ls[x]);
    } else {
      assert ls[..x] == ls;
      ReadRoot(r, WireLen(ls));
    }
  }

  lemma BehindSized(ls: seq<Label>)
    requires GoodName(ls)
    ensures Sized(ls)
  {
  }

  lemma ReadLabelAt(r: seq<Byte>, p: nat, l: Label)
    requires LabelAt(r, p, l) && 1 <= |l| <= 63
    ensures ReadLabel(r, p, 0) == (l, p + 1 + |l|)
  {
  }

  lemma ReadRoot(r: seq<Byte>, p: nat)
    requires p < |r| && r[p] == 0
    ensures ReadLabel(r, p, 0).0 == []
  {
  }

  /** Reading the labels of an entry one by one. */
  lemma StoredRead(d: seq<Byte>, dict: seq<nat>, i: nat, k: nat)
    requires AllListed(d, dict) && i < |dict| && k <= |Entry(d, dict, i)|
    ensures ReadLabel(d, Pos(d, dict[i], k), 0).0 == LabelOrEmpty(Entry(d, dict, i), k)
    ensures k < |Entry(d, dict, i)| ==> ReadLabel(d, Pos(d, dict[i], k), 0).1 == Pos(d, dict[i], k + 1)
  {
    if dict[i] < |d| {
      var q := Pos(d, dict[i], k);
      NamePos(d, dict[i], k);
      ShallowPos(d, dict[i], k);
      ReadLabelIsNameStep(d, q, q, 0);
      PosStep(d, dict[i], k);
    }
  }

  lemma SizesKnown(d: seq<Byte>, dict: seq<nat>, i: nat)
    requires AllListed(d, dict) && i < |dict|
    ensures forall x :: 0 <= x < |Entry(d, dict, i)| ==> 1 <= |Entry(d, dict, i)[x]|
  {
    if dict[i] < |d| { LabelSizes(d, dict[i], dict[i]); }
  }

  lemma CandidateLabels(ls: seq<Label>, j: nat, s: nat)
    requires j < |ls|
    ensures var cs := Candidate(ls, j, s);
            && LabelOrEmpty(cs, 0) == LabelOrEmpty(ls, s)
            && forall c :: 0 < c <= |cs| ==> LabelOrEmpty(cs, c) == LabelOrEmpty(ls, j + c)
  {
  }

  // ----- The innermost loop ---------------------------------------------------------------

  /** After `c` labels have agreed. */
  ghost predicate Comparing(d: seq<Byte>, dict: seq<nat>, ls: seq<Label>, j: nat, s: nat, i: nat, k: nat, c: nat, a: Label, b: Label)
    requires AllListed(d, dict) && i < |dict| && j < |ls|
  {
    var n, cs := Entry(d, dict, i), Candidate(ls, j, s);
    && c <= |cs| && k + c <= |n|
    && Agree(n[k..], cs) == c + Agree(n[k + c..], cs[c..])
    && a == LabelOrEmpty(cs, c) && b == LabelOrEmpty(n, k + c)
  }

  /** Where the next labels will be read. */
  ghost predicate Cursors(d: seq<Byte>, dict: seq<nat>, ls: seq<Label>, j: nat, i: nat, k: nat, c: nat, na: nat, nb: nat)
    requires AllListed(d, dict) && i < |dict| && j < |ls|
  {
    && (j + c < |ls| ==> na == WireLen(ls[..j + 1 + c]))
    && (k + c < |Entry(d, dict, i)| ==> nb == Pos(d, dict[i], k + c + 1))
  }

  lemma CompareStart(d: seq<Byte>, dict: seq<nat>, ls: seq<Label>, j: nat, s: nat, i: nat, k: nat, na: nat, nb: nat)
    requires AllListed(d, dict) && i < |dict| && j < |ls| && k < |Entry(d, dict, i)|
    requires na == WireLen(ls[..j + 1]) && nb == Pos(d, dict[i], k + 1)
    ensures Comparing(d, dict, ls, j, s, i, k, 0, LabelOrEmpty(ls, s), Entry(d, dict, i)[k])
    ensures Cursors(d, dict, ls, j, i, k, 0, na, nb)
  {
    assert Candidate(ls, j, s)[0..] == Candidate(ls, j, s);
  }

  lemma AgreeAdvance(n: seq<Label>, cs: seq<Label>, x: nat, c: nat)
    requires x < |n| && c < |cs| && StrCaseEq(cs[c], n[x])
    ensures Agree(n[x..], cs[c..]) == 1 + Agree(n[x + 1..], cs[c + 1..])
  {
    assert n[x..][1..] == n[x + 1..] && cs[c..][1..] == cs[c + 1..];
    assert n[x..][0] == n[x] && cs[c..][0] == cs[c];
  }

  lemma CompareStep(d: seq<Byte>, dict: seq<nat>, ls: seq<Label>, j: nat, s: nat, i: nat, k: nat, c: nat, a: Label, b: Label)
    requires AllListed(d, dict) && i < |dict| && j < |ls|
    requires Comparing(d, dict, ls, j, s, i, k, c, a, b) && |a| != 0 && |b| != 0 && StrCaseEq(a, b)
    ensures j + c < |ls| && k + c < |Entry(d, dict, i)|
    ensures Comparing(d, dict, ls, j, s, i, k, c + 1, LabelOrEmpty(ls, j + c + 1), LabelOrEmpty(Entry(d, dict, i), k + c + 1))
  {
    AgreeAdvance(Entry(d, dict, i), Candidate(ls, j, s), k + c, c);
    CandidateLabels(ls, j, s);
  }

  lemma CursorStep(d: seq<Byte>, dict: seq<nat>, r: seq<Byte>, ls: seq<Label>, j: nat, i: nat, k: nat, c: nat, na: nat, nb: nat)
    requires AllListed(d, dict) && Behind(r, ls) && i < |dict| && j + c < |ls| && k + c < |Entry(d, dict, i)|
    requires Cursors(d, dict, ls, j, i, k, c, na, nb)
    ensures Cursors(d, dict, ls, j, i, k, c + 1, ReadLabel(r, na, 0).1, ReadLabel(d, nb, 0).1)
    ensures ReadLabel(r, na, 0).0 == LabelOrEmpty(ls, j + c + 1)
    ensures ReadLabel(d, nb, 0).0 == LabelOrEmpty(Entry(d, dict, i), k + c + 1)
  {
    hide ReadLabel, Labels, Pos, AllListed;
    BehindRead(r, ls, j + 1 + c);
    StoredRead(d, dict, i, k + c + 1);
  }

  lemma CompareEnd(d: seq<Byte>, dict: seq<nat>, ls: seq<Label>, j: nat, s: nat, i: nat, k: nat, c: nat, a: Label, b: Label)
    requires AllListed(d, dict) && GoodName(ls) && i < |dict| && j < |ls|
    requires Comparing(d, dict, ls, j, s, i, k, c, a, b) && (|a| == 0 || |b| == 0 || !StrCaseEq(a, b))
    ensures Agree(Entry(d, dict, i)[k..], Candidate(ls, j, s)) == c
    ensures c > 0 ==> a == LabelOrEmpty(ls, j + c)
  {
    SizesKnown(d, dict, i);
    CandidateLabels(ls, j, s);
    var n, cs := Entry(d, dict, i), Candidate(ls, j, s);
    if k + c < |n| { assert n[k + c..][0] == n[k + c]; }
    if c < |cs| { assert cs[c..][0] == cs[c]; assert 1 <= |cs[c]|; }
  }

  // ----- The loop over the labels of an entry ------------------------------------------------

  /** At the `k`-th label of entry `i`, with label `s` in the buffer. */
  ghost predicate Scanning(d: seq<Byte>, dict: seq<nat>, ls: seq<Label>, i: nat, s: nat, k: nat, bp: nat, lab: Label, stored: Label, bx: nat)
    requires AllListed(d, dict) && i < |dict|
  {
    && k <= |Entry(d, dict, i)|
    && bp == Pos(d, dict[i], k)
    && lab == LabelOrEmpty(ls, s)
    && stored == LabelOrEmpty(Entry(d, dict, i), k)
    && (k < |Entry(d, dict, i)| ==> bx == Pos(d, dict[i], k + 1))
  }

  lemma ScanningStart(d: seq<Byte>, dict: seq<nat>, ls: seq<Label>, i: nat, s: nat, bp: nat, lab: Label)
    requires AllListed(d, dict) && i < |dict| && bp == dict[i] && lab == LabelOrEmpty(ls, s)
    ensures Scanning(d, dict, ls, i, s, 0, bp, lab, ReadLabel(d, bp, 0).0, ReadLabel(d, bp, 0).1)
  {
    hide Stored, Labels, ReadLabel;
    StoredRead(d, dict, i, 0);
  }

  lemma ScanningInside(d: seq<Byte>, dict: seq<nat>, ls: seq<Label>, i: nat, s: nat, k: nat, bp: nat, lab: Label, stored: Label, bx: nat)
    requires AllListed(d, dict) && i < |dict| && Scanning(d, dict, ls, i, s, k, bp, lab, stored, bx) && |stored| != 0
    ensures k < |Entry(d, dict, i)| && stored == Entry(d, dict, i)[k]
    ensures bp == Pos(d, dict[i], k) && bx == Pos(d, dict[i], k + 1) && lab == LabelOrEmpty(ls, s)
  {
  }

  lemma ScanningNext(d: seq<Byte>, dict: seq<nat>, ls: seq<Label>, i: nat, s: nat, k: nat, lab: Label, bx: nat)
    requires AllListed(d, dict) && i < |dict| && k < |Entry(d, dict, i)|
    requires bx == Pos(d, dict[i], k + 1) && lab == LabelOrEmpty(ls, s)
    ensures Scanning(d, dict, ls, i, s, k + 1, bx, lab, ReadLabel(d, bx, 0).0, ReadLabel(d, bx, 0).1)
  {
    StoredRead(d, dict, i, k + 1);
  }

  lemma ScanningOver(d: seq<Byte>, dict: seq<nat>, ls: seq<Label>, j: nat, i: nat, s: nat, k: nat, bp: nat, lab: Label, stored: Label, bx: nat)
    requires AllListed(d, dict) && i < |dict| && j < |ls|
    requires Scanning(d, dict, ls, i, s, k, bp, lab, stored, bx) && |stored| == 0
    ensures k == |Entry(d, dict, i)| && ScanEntry(d, dict, ls, j, s, i, k) == Miss(s)
  {
    SizesKnown(d, dict, i);
  }

  /** Empty labels in both buffers mean that everything agreed. */
  lemma ScanDecide(d: seq<Byte>, dict: seq<nat>, ls: seq<Label>, j: nat, s: nat, i: nat, k: nat, lab: Label, a: Label, b: Label)
    requires AllListed(d, dict) && GoodName(ls) && i < |dict| && j < |ls| && k < |Entry(d, dict, i)|
    requires lab == LabelOrEmpty(ls, s)
    requires var c := Agree(Entry(d, dict, i)[k..], Candidate(ls, j, s));
             a == (if c == 0 then lab else LabelOrEmpty(ls, j + c)) && b == LabelOrEmpty(Entry(d, dict, i), k + c)
    ensures |a| == 0 && |b| == 0 && Pos(d, dict[i], k) <= 0x3fff ==>
              ScanEntry(d, dict, ls, j, s, i, k) == Hit(s, i, k)
    ensures !(|a| == 0 && |b| == 0 && Pos(d, dict[i], k) <= 0x3fff) ==>
              && ScanEntry(d, dict, ls, j, s, i, k) == ScanEntry(d, dict, ls, j, NextStale(d, dict, ls, j, s, i, k), i, k + 1)
              && a == LabelOrEmpty(ls, NextStale(d, dict, ls, j, s, i, k))
  {
    hide Stored, Pos, Labels, Agree, FoldLabel, StrCaseEq, ScanEntry;
    ScanEntryTurn(d, dict, ls, j, s, i, k);
    SizesKnown(d, dict, i);
    var c := Agree(Entry(d, dict, i)[k..], Candidate(ls, j, s));
    if j + c < |ls| { assert GoodLabel(ls[j + c]); }
  }
}
