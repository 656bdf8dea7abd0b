/** The suffix search of `dns_d_comp` as a function of the stored names
    (libs/async/src/dns/dns.c:1700-1734), with the label that a failed comparison leaves in
    the buffer. */
module NameSearch {
  import opened Bytes
  import opened NameSpec
  import opened NameTable

  datatype Scan = Hit(s: nat, i: nat, k: nat) | Miss(s: nat)

  /** What is compared with a stored suffix while the buffer holds label `s` and the labels
      after `ls[j]` are read next; nothing once the labels are used up. */
  function Candidate(ls: seq<Label>, j: nat, s: nat): seq<Label>
    requires j < |ls|
  {
    if s < |ls| then [ls[s]] + ls[j + 1..] else []
  }

  /** The number of leading labels that agree. */
  function Agree(n: seq<Label>, cs: seq<Label>): (c: nat)
    ensures c <= |n| && c <= |cs|
  {
    if n != [] && cs != [] && StrCaseEq(cs[0], n[0]) then 1 + Agree(n[1..], cs[1..]) else 0
  }

  /** The comparisons with entry `i` from its `k`-th label on. */
  function ScanEntry(d: seq<Byte>, dict: seq<nat>, ls: seq<Label>, j: nat, s: nat, i: nat, k: nat): Scan
    requires AllListed(d, dict) && i < |dict| && j < |ls| && k <= |Entry(d, dict, i)|
    decreases |Entry(d, dict, i)| - k
  {
    var n := Entry(d, dict, i);
    if k == |n| then Miss(s)
    else
      var cs := Candidate(ls, j, s);
      var c := Agree(n[k..], cs);
      if c == |cs| == |n| - k && Pos(d, dict[i], k) <= 0x3fff then Hit(s, i, k)
      else ScanEntry(d, dict, ls, j, if c > 0 then j + c else s, i, k + 1)
  }

  /** The comparisons with the entries from the `i`-th on. */
  function ScanTable(d: seq<Byte>, dict: seq<nat>, ls: seq<Label>, j: nat, s: nat, i: nat): Scan
    requires AllListed(d, dict) && i <= |dict| && j < |ls|
    decreases |dict| - i
  {
    if i == |dict| then Miss(s)
    else
      match ScanEntry(d, dict, ls, j, s, i, 0)
      case Hit(_, _, _) => ScanEntry(d, dict, ls, j, s, i, 0)
      case Miss(s') => ScanTable(d, dict, ls, j, s', i + 1)
  }

  /** The whole search, for the suffixes of `ls` from the `j`-th on. */
  function Search(d: seq<Byte>, dict: seq<nat>, ls: seq<Label>, j: nat): Option<Match>
    requires AllListed(d, dict) && j <= |ls|
    decreases |ls| - j
  {
    if j == |ls| then None
    else
      match ScanTable(d, dict, ls, j, j, 0)
      case Hit(s, i, k) => Some(Match(j, s, i, k))
      case Miss(_) => Search(d, dict, ls, j + 1)
  }

  /** The label that the comparison with the `k`-th suffix leaves in the buffer. */
  ghost function NextStale(d: seq<Byte>, dict: seq<nat>, ls: seq<Label>, j: nat, s: nat, i: nat, k: nat): nat
    requires AllListed(d, dict) && i < |dict| && j < |ls| && k < |Entry(d, dict, i)|
  {
    var c := Agree(Entry(d, dict, i)[k..], Candidate(ls, j, s));
    if c > 0 then j + c else s
  }

  /** One turn of the scan, with the label it leaves behind named. */
  lemma ScanEntryTurn(d: seq<Byte>, dict: seq<nat>, ls: seq<Label>, j: nat, s: nat, i: nat, k: nat)
    requires AllListed(d, dict) && i < |dict| && j < |ls| && k < |Entry(d, dict, i)|
    ensures var c := Agree(Entry(d, dict, i)[k..], Candidate(ls, j, s));
            ScanEntry(d, dict, ls, j, s, i, k) ==
            if c == |Candidate(ls, j, s)| == |Entry(d, dict, i)| - k && Pos(d, dict[i], k) <= 0x3fff then Hit(s, i, k)
            else ScanEntry(d, dict, ls, j, NextStale(d, dict, ls, j, s, i, k), i, k + 1)
  {
    hide Stored, Pos, Labels, Agree, Candidate, StrCaseEq;
  }

  // ----- What a hit means ---------------------------------------------------------------

  lemma {:induction false} AgreeSame(n: seq<Label>, cs: seq<Label>)
    requires forall x :: 0 <= x < |n| ==> 0 !in n[x]
    requires forall x :: 0 <= x < |cs| ==> 0 !in cs[x]
    ensures forall x :: 0 <= x < Agree(n, cs) ==> FoldLabel(n[x]) == FoldLabel(cs[x])
    ensures Agree(n, cs) < |n| && Agree(n, cs) < |cs|
            ==> FoldLabel(n[Agree(n, cs)]) != FoldLabel(cs[Agree(n, cs)])
    decreases n
  {
    if n != [] && cs != [] {
      StrCaseEqIsFold(cs[0], n[0]);
      if StrCaseEq(cs[0], n[0]) {
        AgreeSame(n[1..], cs[1..]);
        forall x | 0 <= x < Agree(n, cs) ensures FoldLabel(n[x]) == FoldLabel(cs[x]) {
          if x > 0 { assert n[x] == n[1..][x - 1] && cs[x] == cs[1..][x - 1]; }
        }
      }
    }
  }

  lemma AgreeAt(d: seq<Byte>, dict: seq<nat>, ls: seq<Label>, j: nat, s: nat, i: nat, k: nat)
    requires AllListed(d, dict) && GoodName(ls) && i < |dict| && j < |ls| && k < |Entry(d, dict, i)|
    ensures var ms, cs := Entry(d, dict, i)[k..], Candidate(ls, j, s);
            var c := Agree(ms, cs);
            && (c == |cs| == |ms| ==> s < |ls| && SameName(ms, [ls[s]] + ls[j + 1..]))
            && (s == j ==> (c == 0 <==> FoldLabel(ms[0]) != FoldLabel(ls[j])))
            && (s == j && SameName(ms, ls[j..]) ==> c == |cs| == |ms|)
            && j + c <= |ls|
  {
    EntryNoNul(d, dict, i, k);
    hide Stored, Labels, FoldLabel, Agree;
    AgreeLabels(Entry(d, dict, i)[k..], ls, j, s);
  }

  /** What the number of agreeing labels says. */
  lemma AgreeMeans(ms: seq<Label>, cs: seq<Label>)
    requires forall x :: 0 <= x < |ms| ==> 0 !in ms[x]
    requires forall x :: 0 <= x < |cs| ==> 0 !in cs[x]
    ensures Agree(ms, cs) == |cs| == |ms| <==> SameName(ms, cs)
    ensures ms != [] && cs != [] ==> (Agree(ms, cs) == 0 <==> FoldLabel(ms[0]) != FoldLabel(cs[0]))
  {
    hide FoldLabel, Agree;
    AgreeSame(ms, cs);
  }

  lemma CandidateIs(ls: seq<Label>, j: nat, s: nat)
    requires GoodName(ls) && j < |ls|
    ensures var cs := Candidate(ls, j, s);
            && (s < |ls| ==> cs == [ls[s]] + ls[j + 1..] && |cs| == |ls| - j) && (s >= |ls| ==> cs == [])
            && (s == j ==> cs == ls[j..] && cs[0] == ls[j])
            && forall x :: 0 <= x < |cs| ==> 0 !in cs[x]
  {
    var cs := Candidate(ls, j, s);
    forall x | 0 <= x < |cs| ensures 0 !in cs[x] {
      assert cs[x] == if x == 0 then ls[s] else ls[j + x];
    }
  }

  /** The same of any labels. */
  lemma AgreeLabels(ms: seq<Label>, ls: seq<Label>, j: nat, s: nat)
    requires ms != [] && GoodName(ls) && j < |ls| && forall x :: 0 <= x < |ms| ==> 0 !in ms[x]
    ensures var cs := Candidate(ls, j, s);
            var c := Agree(ms, cs);
            && (c == |cs| == |ms| ==> s < |ls| && SameName(ms, [ls[s]] + ls[j + 1..]))
            && (s == j ==> (c == 0 <==> FoldLabel(ms[0]) != FoldLabel(ls[j])))
            && (s == j && SameName(ms, ls[j..]) ==> c == |cs| == |ms|)
            && j + c <= |ls|
  {
    hide FoldLabel, Agree, SameName, Candidate, GoodName;
    CandidateIs(ls, j, s);
    AgreeMeans(ms, Candidate(ls, j, s));
  }

  /** How one comparison moves the label in the buffer. */
  lemma AgreeLabel(d: seq<Byte>, dict: seq<nat>, ls: seq<Label>, j: nat, s: nat, i: nat, k: nat)
    requires AllListed(d, dict) && GoodName(ls) && i < |dict| && j < |ls| && k < |Entry(d, dict, i)|
    ensures var c := Agree(Entry(d, dict, i)[k..], Candidate(ls, j, s));
            && j + c <= |ls|
            && (s == j ==> (c == 0 <==> FoldLabel(Entry(d, dict, i)[k]) != FoldLabel(ls[j])))
  {
    AgreeAt(d, dict, ls, j, s, i, k);
    assert Entry(d, dict, i)[k..][0] == Entry(d, dict, i)[k];
  }

  lemma HitIsFound(d: seq<Byte>, dict: seq<nat>, ls: seq<Label>, j: nat, s: nat, i: nat, k: nat)
    requires AllListed(d, dict) && GoodName(ls) && i < |dict| && j <= s && j < |ls| && k < |Entry(d, dict, i)|
    requires s == j ==> !Seen(d, dict, i, ls[j])
    requires Agree(Entry(d, dict, i)[k..], Candidate(ls, j, s)) == |Candidate(ls, j, s)| == |Entry(d, dict, i)| - k
    requires Pos(d, dict[i], k) <= 0x3fff
    ensures Found(d, dict, ls, Match(j, s, i, k))
  {
    hide Stored, Labels, FoldLabel, Agree, Seen, Pos, SameName, GoodName;
    AgreeAt(d, dict, ls, j, s, i, k);
  }

  /** No label of entry `i` before the `k`-th is `l`. */
  predicate Before(d: seq<Byte>, dict: seq<nat>, i: nat, k: nat, l: Label)
    requires AllListed(d, dict) && i < |dict| && k <= |Entry(d, dict, i)|
  {
    forall x :: 0 <= x < k ==> FoldLabel(Entry(d, dict, i)[x]) != FoldLabel(l)
  }

  lemma SeenNext(d: seq<Byte>, dict: seq<nat>, i: nat, l: Label)
    requires AllListed(d, dict) && i < |dict|
    ensures Seen(d, dict, i + 1, l) <==> Seen(d, dict, i, l) || !Before(d, dict, i, |Entry(d, dict, i)|, l)
  {
    assert HasLabel(Entry(d, dict, i), l) <==> !Before(d, dict, i, |Entry(d, dict, i)|, l);
    if Seen(d, dict, i + 1, l) {
      var a :| 0 <= a < i + 1 && HasLabel(Entry(d, dict, a), l);
    }
  }

  lemma SeenLater(d: seq<Byte>, dict: seq<nat>, i: nat, i': nat, l: Label)
    requires AllListed(d, dict) && i <= i' <= |dict|
    ensures Seen(d, dict, i, l) ==> Seen(d, dict, i', l)
  {
  }

  lemma {:induction false} ScanEntryFound(d: seq<Byte>, dict: seq<nat>, ls: seq<Label>, j: nat, s: nat, i: nat, k: nat)
    requires AllListed(d, dict) && GoodName(ls) && i < |dict| && j < |ls| && k <= |Entry(d, dict, i)|
    requires j <= s <= |ls|
    requires s == j ==> !Seen(d, dict, i, ls[j]) && Before(d, dict, i, k, ls[j])
    ensures match ScanEntry(d, dict, ls, j, s, i, k)
            case Hit(s', i', k') => i' == i && Found(d, dict, ls, Match(j, s', i', k'))
            case Miss(s') => j <= s' <= |ls| && (s' == j ==> !Seen(d, dict, i + 1, ls[j]))
    decreases |Entry(d, dict, i)| - k
  {
    hide Seen, Found, Labels, Pos, Agree, Stored;
    var n := Entry(d, dict, i);
    if k == |n| {
      SeenNext(d, dict, i, ls[j]);
    } else {
      var c := Agree(n[k..], Candidate(ls, j, s));
      if c == |Candidate(ls, j, s)| == |n| - k && Pos(d, dict[i], k) <= 0x3fff {
        HitIsFound(d, dict, ls, j, s, i, k);
      } else {
        AgreeLabel(d, dict, ls, j, s, i, k);
        ScanEntryFound(d, dict, ls, j, NextStale(d, dict, ls, j, s, i, k), i, k + 1);
      }
    }
  }

  lemma {:induction false} ScanTableFound(d: seq<Byte>, dict: seq<nat>, ls: seq<Label>, j: nat, s: nat, i: nat)
    requires AllListed(d, dict) && GoodName(ls) && i <= |dict| && j < |ls| && j <= s <= |ls|
    requires s == j ==> !Seen(d, dict, i, ls[j])
    ensures match ScanTable(d, dict, ls, j, s, i)
            case Hit(s', i', k') => Found(d, dict, ls, Match(j, s', i', k'))
            case Miss(_) => true
    decreases |dict| - i
  {
    hide Seen, Found, Labels, Agree, ScanEntry;
    if i < |dict| {
      ScanEntryFound(d, dict, ls, j, s, i, 0);
      match ScanEntry(d, dict, ls, j, s, i, 0)
      case Hit(_, _, _) =>
      case Miss(s') => ScanTableFound(d, dict, ls, j, s', i + 1);
    }
  }

  /** What the search returns was found by comparing labels, in the first entry that has the
      label unless the comparison was stale. */
  lemma {:induction false} SearchFound(d: seq<Byte>, dict: seq<nat>, ls: seq<Label>, j: nat)
    requires AllListed(d, dict) && GoodName(ls) && j <= |ls|
    ensures Search(d, dict, ls, j).Some? ==> Found(d, dict, ls, Search(d, dict, ls, j).value)
    decreases |ls| - j
  {
    if j < |ls| {
      ScanTableFound(d, dict, ls, j, j, 0);
      if ScanTable(d, dict, ls, j, j, 0).Miss? { SearchFound(d, dict, ls, j + 1); }
    }
  }

  // ----- What is always found --------------------------------------------------------------

  /** The `k`-th offset of entry `i` is the first in the table to read label `ls[j]`, and from
      there the table spells the rest of `ls`, within the reach of a pointer. */
  ghost predicate FirstMatch(d: seq<Byte>, dict: seq<nat>, ls: seq<Label>, j: nat, i: nat, k: nat)
    requires AllListed(d, dict)
  {
    && j < |ls| && i < |dict| && k < |Entry(d, dict, i)|
    && !Seen(d, dict, i, ls[j]) && Before(d, dict, i, k, ls[j])
    && SameName(Entry(d, dict, i)[k..], ls[j..])
    && Pos(d, dict[i], k) <= 0x3fff
  }

  lemma {:induction false} ScanEntrySkips(d: seq<Byte>, dict: seq<nat>, ls: seq<Label>, j: nat, i: nat, k: nat, k': nat)
    requires AllListed(d, dict) && GoodName(ls) && i < |dict| && j < |ls| && k <= k' <= |Entry(d, dict, i)|
    requires Before(d, dict, i, k', ls[j])
    ensures ScanEntry(d, dict, ls, j, j, i, k) == ScanEntry(d, dict, ls, j, j, i, k')
    decreases k' - k
  {
    if k < k' {
      AgreeAt(d, dict, ls, j, j, i, k);
      ScanEntrySkips(d, dict, ls, j, i, k + 1, k');
    }
  }

  lemma {:induction false} ScanTableSkips(d: seq<Byte>, dict: seq<nat>, ls: seq<Label>, j: nat, i: nat, i': nat)
    requires AllListed(d, dict) && GoodName(ls) && i <= i' <= |dict| && j < |ls|
    requires !Seen(d, dict, i', ls[j])
    ensures ScanTable(d, dict, ls, j, j, i) == ScanTable(d, dict, ls, j, j, i')
    decreases i' - i
  {
    if i < i' {
      var n := Entry(d, dict, i);
      SeenLater(d, dict, i + 1, i', ls[j]);
      SeenNext(d, dict, i, ls[j]);
      ScanEntrySkips(d, dict, ls, j, i, 0, |n|);
      ScanTableSkips(d, dict, ls, j, i + 1, i');
    }
  }

  /** The longest suffix with a first match is compressed, unless the search stopped at an
      even longer one. */
  lemma {:induction false} SearchComplete(d: seq<Byte>, dict: seq<nat>, ls: seq<Label>, j0: nat, j: nat, i: nat, k: nat)
    requires AllListed(d, dict) && GoodName(ls) && j0 <= j && FirstMatch(d, dict, ls, j, i, k)
    ensures Search(d, dict, ls, j0).Some? && Search(d, dict, ls, j0).value.j <= j
    ensures Search(d, dict, ls, j0).value.j == j ==> Search(d, dict, ls, j0).value == Match(j, j, i, k)
    decreases j - j0
  {
    hide Stored, Labels, Pos, FoldLabel, StrCaseEq, Agree, Candidate, GoodLabel, Seen;
    if j0 == j {
      ScanTableSkips(d, dict, ls, j, 0, i);
      ScanEntrySkips(d, dict, ls, j, i, 0, k);
      AgreeAt(d, dict, ls, j, j, i, k);
    } else {
      if ScanTable(d, dict, ls, j0, j0, 0).Miss? { SearchComplete(d, dict, ls, j0 + 1, j, i, k); }
      else { SearchFoundAt(d, dict, ls, j0); }
    }
  }

  lemma SearchFoundAt(d: seq<Byte>, dict: seq<nat>, ls: seq<Label>, j: nat)
    requires AllListed(d, dict) && j < |ls| && ScanTable(d, dict, ls, j, j, 0).Hit?
    ensures Search(d, dict, ls, j).Some? && Search(d, dict, ls, j).value.j == j
  {
  }

  /** Nothing is found where no entry has the last label of the name. */
  lemma SearchNothing(d: seq<Byte>, dict: seq<nat>, ls: seq<Label>)
    requires AllListed(d, dict) && GoodName(ls) && |ls| <= 1
    requires forall x :: 0 <= x < |dict| ==> ls == [] || !HasLabel(Entry(d, dict, x), ls[0])
    ensures Search(d, dict, ls, 0) == None
  {
    hide Search, Stored, Seen, FoldLabel;
    SearchFound(d, dict, ls, 0);
  }

  // ----- The round trip ----------------------------------------------------------------------

  /** The bytes `e` that `dns_d_comp` writes for `ls` at the end of `d`: the name in full, or
      what the search found. */
  ghost predicate Written(d: seq<Byte>, dict: seq<nat>, e: seq<Byte>, ls: seq<Label>, m: Option<Match>)
    requires AllListed(d, dict)
  {
    match m
    case None => WrittenWhole(d, e, ls)
    case Some(x) => Search(d, dict, ls, 0) == m && WrittenShort(d, dict, e, ls, x)
  }

  /** The table after the name has been added. */
  function DictAfter(d: seq<Byte>, dict: seq<nat>, m: Option<Match>): seq<nat>
    requires m.Some? ==> m.value.i < |dict|
  {
    DictAdd(dict, |d|, if m.None? then None else ShortTarget(d, dict, m.value))
  }

  function Late(d: seq<Byte>, dict: seq<nat>, m: Option<Match>, late: nat): nat
    requires m.Some? ==> m.value.i < |dict|
  {
    LateAfter(d, dict, if m.None? then None else ShortTarget(d, dict, m.value), late)
  }

  /** Every name stored in `d` reads the same in `f`. */
  ghost predicate Keeps(d: seq<Byte>, f: seq<Byte>) {
    forall p :: Stored(d, p) ==> Stored(f, p) && Name(f, p) == Name(d, p)
  }

  /** What every push keeps, whatever labels were compared: the new name reads back as some name,
      every name that was there reads as before, and the table stays sound, unless the new name runs
      over an offset that a refused record has left; if its own record is refused it always does. */
  lemma PushKeeps(d: seq<Byte>, dict: seq<nat>, late: nat, e: seq<Byte>, ls: seq<Label>, m: Option<Match>)
    requires Table(d, dict, late) && late <= LATE && GoodName(ls) && Written(d, dict, e, ls, m)
    ensures Stored(d + e, |d|) && Keeps(d, d + e)
    ensures m.Some? ==> m.value.i < |dict| && m.value.j <= m.value.s < |ls|
    ensures Clear(dict, |d|, |d + e|) ==> Table(d + e, DictAfter(d, dict, m), Late(d, dict, m, late))
    ensures Table(d, DictAfter(d, dict, m), Late(d, dict, m, late))
  {
    hide Stored, Search, Chains;
    if m.None? {
      WholeReads(d, e, ls);
      if Clear(dict, |d|, |d + e|) { TableWhole(d, dict, late, e, ls); }
    } else {
      MatchChain(d, dict, late, ls, m.value);
      ShortReads(d, dict, e, ls, m.value);
      if Clear(dict, |d|, |d + e|) { TableShort(d, dict, late, e, ls, m.value); }
    }
    DictAddFrom(d, dict, late, if m.None? then None else ShortTarget(d, dict, m.value));
    TableRefused(d, dict, late, DictAfter(d, dict, m), Late(d, dict, m, late));
    forall p | Stored(d, p) ensures Stored(d + e, p) && Name(d + e, p) == Name(d, p) { StoredPrefix(d, e, p); }
  }

  /** The label that was compared when the match succeeded is the first of the replaced suffix. */
  predicate RightLabel(ls: seq<Label>, m: Option<Match>)
    requires m.Some? ==> m.value.j < |ls| && m.value.s < |ls|
  {
    m.Some? ==> FoldLabel(ls[m.value.s]) == FoldLabel(ls[m.value.j])
  }

  /** Section 4.1.4 of RFC 1035, in every packet built by pushes: the name just written reads back
      as the name pushed, up to case, exactly when the right label was compared.  Otherwise an entry
      repeats a label. */
  lemma RoundTripIff(d: seq<Byte>, dict: seq<nat>, late: nat, e: seq<Byte>, ls: seq<Label>, m: Option<Match>)
    requires Table(d, dict, late) && late <= LATE && GoodName(ls) && Written(d, dict, e, ls, m)
    ensures Stored(d + e, |d|) && (m.Some? ==> m.value.i < |dict| && m.value.j <= m.value.s < |ls|)
    ensures SameName(Name(d + e, |d|).value, ls) <==> RightLabel(ls, m)
    ensures !RightLabel(ls, m) ==> !NoRepeat(Entry(d, dict, m.value.i))
  {
    hide Stored, Search, Chains;
    PushKeeps(d, dict, late, e, ls, m);
    if m.None? {
      WholeReads(d, e, ls);
    } else {
      MatchChain(d, dict, late, ls, m.value);
      ShortReads(d, dict, e, ls, m.value);
      SpeltIsNameIff(d, dict, ls, m.value);
      if m.value.s != m.value.j { StaleNeedsRepeat(d, dict, ls, m.value); }
    }
  }

  /** In particular the round trip holds where no stored name repeats a label; and that stays so
      while no pushed name does. */
  lemma RoundTrip(d: seq<Byte>, dict: seq<nat>, late: nat, e: seq<Byte>, ls: seq<Label>, m: Option<Match>)
    requires Table(d, dict, late) && late <= LATE && NoRepeats(d, dict) && GoodName(ls) && Written(d, dict, e, ls, m)
    ensures Stored(d + e, |d|) && SameName(Name(d + e, |d|).value, ls)
    ensures m.Some? ==> m.value.i < |dict|
    ensures Clear(dict, |d|, |d + e|) ==> Table(d + e, DictAfter(d, dict, m), Late(d, dict, m, late))
    ensures Table(d, DictAfter(d, dict, m), Late(d, dict, m, late))
    ensures Clear(dict, |d|, |d + e|) && NoRepeat(ls) ==> NoRepeats(d + e, DictAfter(d, dict, m))
    ensures NoRepeats(d, DictAfter(d, dict, m))
    ensures Keeps(d, d + e)
  {
    hide Stored, Search, Chains;
    PushKeeps(d, dict, late, e, ls, m);
    RoundTripIff(d, dict, late, e, ls, m);
    if Clear(dict, |d|, |d + e|) && NoRepeat(ls) { NoRepeatsAfter(d, dict, e, ls, m); }
    NoRepeatsRefused(d, dict, m);
  }

  /** The same in terms of bytes: the labels that are read back are the labels pushed, byte for byte,
      except for the case of ASCII letters, exactly when the right label was compared; and so is the
      text then. */
  lemma RoundTripBytes(d: seq<Byte>, dict: seq<nat>, late: nat, e: seq<Byte>, ls: seq<Label>, m: Option<Match>)
    requires Table(d, dict, late) && late <= LATE && GoodName(ls) && Written(d, dict, e, ls, m)
    ensures Stored(d + e, |d|) && (m.Some? ==> m.value.j <= m.value.s < |ls|)
    ensures SameLabels(Name(d + e, |d|).value, ls) <==> (m.Some? ==> SameLetters(ls[m.value.s], ls[m.value.j]))
    ensures SameLabels(Name(d + e, |d|).value, ls) ==> SameLetters(Text(Name(d + e, |d|).value), Text(ls))
    ensures NoRepeats(d, dict) ==> SameLabels(Name(d + e, |d|).value, ls)
  {
    hide Chains, Search, NoRepeats, SameLetters, SameName, SameLabels, Text, FoldLabel, GoodName;
    RoundTripIff(d, dict, late, e, ls, m);
    if NoRepeats(d, dict) { RoundTrip(d, dict, late, e, ls, m); }
    var ns := Name(d + e, |d|).value;
    SameNameIff(ns, ls);
    if m.Some? { FoldIff(ls[m.value.s], ls[m.value.j]); }
    if SameName(ns, ls) { SameText(ns, ls); }
  }

  lemma NoRepeatsAfter(d: seq<Byte>, dict: seq<nat>, e: seq<Byte>, ls: seq<Label>, m: Option<Match>)
    requires AllListed(d, dict) && NoRepeats(d, dict) && NoRepeat(ls) && (m.Some? ==> m.value.i < |dict|)
    requires Stored(d + e, |d|) && SameName(Name(d + e, |d|).value, ls)
    requires AllListed(d + e, DictAfter(d, dict, m)) && Clear(dict, |d|, |d + e|)
    ensures NoRepeats(d + e, DictAfter(d, dict, m))
  {
    var dict' := DictAfter(d, dict, m);
    forall i | 0 <= i < |dict'| ensures NoRepeat(Entry(d + e, dict', i)) {
      if dict'[i] < |d| {
        assert dict'[i] == dict[i];
        StoredPrefix(d, e, dict[i]);
        assert NoRepeat(Entry(d, dict, i));
      } else {
        assert dict'[i] == |d| || dict'[i] in dict;
      }
    }
  }

  /** More bytes behind the packet, where no refused record has left an offset. */
  lemma NoRepeatsBehind(d: seq<Byte>, e: seq<Byte>, dict: seq<nat>)
    requires AllListed(d, dict) && NoRepeats(d, dict) && |d| !in dict && Clear(dict, |d|, |d + e|)
    ensures AllListed(d + e, dict) && NoRepeats(d + e, dict)
  {
    hide Stored, NoRepeat;
    AllListedPrefix(d, e, dict);
    forall i | 0 <= i < |dict| ensures NoRepeat(Entry(d + e, dict, i)) {
      assert dict[i] in dict;
      assert NoRepeat(Entry(d, dict, i));
    }
  }

  lemma NoRepeatsRefused(d: seq<Byte>, dict: seq<nat>, m: Option<Match>)
    requires AllListed(d, dict) && NoRepeats(d, dict) && (m.Some? ==> m.value.i < |dict|)
    requires AllListed(d, DictAfter(d, dict, m))
    ensures NoRepeats(d, DictAfter(d, dict, m))
  {
    var dict' := DictAfter(d, dict, m);
    forall i | 0 <= i < |dict'| ensures NoRepeat(Entry(d, dict', i)) {
      if dict'[i] < |d| {
        assert dict'[i] == dict[i];
        assert NoRepeat(Entry(d, dict, i));
      }
    }
  }

  const X: Byte := 120
  const Y: Byte := 121
  const Z: Byte := 122
  const Q: Byte := 113

  /** A header and then `x.q.y.y.z.`, whose label `y` occurs twice. */
  function Header(): seq<Byte> { [0, 0, 0, 0, 0, 0, 0, 0, 0, 0, 0, 0] }

  function RepeatingPacket(): seq<Byte> { Header() + [1, X, 1, Q, 1, Y, 1, Y, 1, Z, 0] }

  function RepeatingName(): seq<Label> { [[X], [Q], [Y], [Y], [Z]] }

  /** A one-byte literal label followed by a name without pointers. */
  lemma OneByteLabel(d: seq<Byte>, p: nat, n: seq<Label>, k: nat)
    requires k < |n| && p + 2 < |d| && d[p] == 1 && [d[p + 1]] == n[k]
    requires Labels(d, 0, p + 2) == Some(n[k + 1..]) && Shallow(d, 0, p + 2)
    ensures Labels(d, 0, p) == Name(d, p) == Some(n[k..]) && Shallow(d, 0, p)
    ensures After(d, p) == p + 2
  {
    assert d[p + 1..p + 2] == [d[p + 1]];
    assert [n[k]] + n[k + 1..] == n[k..];
    LabelsMono(d, 0, p, p);
  }

  lemma RepeatingPacketStored()
    ensures AllListed(RepeatingPacket(), [12]) && Entry(RepeatingPacket(), [12], 0) == RepeatingName()
    ensures Pos(RepeatingPacket(), 12, 2) == 16
  {
    var d := RepeatingPacket();
    var n := RepeatingName();
    assert n[5..] == [];
    OneByteLabel(d, 20, n, 4);
    OneByteLabel(d, 18, n, 3);
    OneByteLabel(d, 16, n, 2);
    OneByteLabel(d, 14, n, 1);
    OneByteLabel(d, 12, n, 0);
    assert n[0..] == n;
    ShallowMono(d, 0, 12, 12);
    assert Pos(d, 12, 2) == Pos(d, 14, 1) == Pos(d, 16, 0);
  }

  lemma AgreeStep(n: seq<Label>, cs: seq<Label>)
    requires n != [] && cs != [] && 0 !in n[0] && 0 !in cs[0]
    ensures Agree(n, cs) == if FoldLabel(cs[0]) == FoldLabel(n[0]) then 1 + Agree(n[1..], cs[1..]) else 0
  {
    StrCaseEqIsFold(cs[0], n[0]);
  }

  lemma {:induction false} AgreeSelf(n: seq<Label>)
    ensures Agree(n, n) == |n|
  {
    if n != [] { AgreeSelf(n[1..]); }
  }

  /** The three comparisons that are made: `x` with `x`, then the stale `y` with `q`, then the
      stale `y`, and `y.z.` after it, with `y.y.z.`. */
  lemma StaleComparisons()
    ensures var n, ls := RepeatingName(), [[X], [Y], [Z]];
            && Agree(n[0..], Candidate(ls, 0, 0)) == 1
            && Agree(n[1..], Candidate(ls, 0, 1)) == 0
            && n[2..] == Candidate(ls, 0, 1) == [[Y], [Y], [Z]]
            && Agree(n[2..], Candidate(ls, 0, 1)) == 3
  {
    var n, ls := RepeatingName(), [[X], [Y], [Z]];
    assert FoldLabel([Q])[0] == Q && FoldLabel([Y])[0] == Y;
    AgreeStep(n[0..], Candidate(ls, 0, 0));
    AgreeStep(n[1..], Candidate(ls, 0, 0)[1..]);
    assert n[0..][1..] == n[1..];
    AgreeStep(n[1..], Candidate(ls, 0, 1));
    assert n[2..] == Candidate(ls, 0, 1) == [[Y], [Y], [Z]];
    AgreeSelf(n[2..]);
  }

  /** One comparison after the other. */
  lemma StaleScan()
    ensures var d, ls := RepeatingPacket(), [[X], [Y], [Z]];
            AllListed(d, [12]) && 0 <= |Entry(d, [12], 0)| && ScanEntry(d, [12], ls, 0, 0, 0, 0) == Hit(1, 0, 2)
  {
    hide Stored, Labels, Agree, FoldLabel, RepeatingPacket, Pos, ScanEntry;
    var d, ls := RepeatingPacket(), [[X], [Y], [Z]];
    RepeatingPacketStored();
    StaleComparisons();
    assert |RepeatingName()| == 5;
    ScanEntryTurn(d, [12], ls, 0, 0, 0, 0);
    ScanEntryTurn(d, [12], ls, 0, 1, 0, 1);
    ScanEntryTurn(d, [12], ls, 0, 1, 0, 2);
  }

  /** `x.q.y.y.z.` is in the table and `x.y.z.` is pushed: the search returns the suffix
      `y.y.z.`, so the name that is written does not read back. */
  lemma RepeatedLabelBreaksRoundTrip()
    ensures var d, ls := RepeatingPacket(), [[X], [Y], [Z]];
            && GoodName(ls) && AllListed(d, [12])
            && Search(d, [12], ls, 0) == Some(Match(0, 1, 0, 2))
            && !SameName(Spelt(d, [12], ls, Match(0, 1, 0, 2)), ls)
  {
    var d, ls := RepeatingPacket(), [[X], [Y], [Z]];
    RepeatingPacketStored();
    StaleComparisons();
    StaleScan();
    var sp := Spelt(d, [12], ls, Match(0, 1, 0, 2));
    assert sp[0] == [Y];
    assert FoldLabel([X])[0] == X && FoldLabel([Y])[0] == Y;
  }

  // ----- Text ---------------------------------------------------------------------------------------

  /** Two spellings of a name that differ in the case of letters have texts that do. */
  lemma {:induction false} SameText(a: seq<Label>, b: seq<Label>)
    requires SameName(a, b)
    ensures SameLetters(Dots(a), Dots(b)) && SameLetters(Text(a), Text(b))
  {
    LowerIff(DOT, DOT);
    if a != [] {
      assert SameName(a[1..], b[1..]) by {
        assert forall i :: 0 <= i < |a[1..]| ==> a[1..][i] == a[i + 1] && b[1..][i] == b[i + 1];
      }
      SameText(a[1..], b[1..]);
      FoldIff(a[0], b[0]);
    }
  }
}
