/** The string in which the resolver keeps the name service switch
    (libs/async/src/dns/dns.c:4493-4530, 4600-4641, 4666-4739): one letter for each source, and
    two for each of its criteria. */
module NssConf {
  import opened Bytes

  const LOOKUP: nat := 36

  datatype Keyword =
    | INVALID | HOSTS | SUCCESS | NOTFOUND | UNAVAIL | TRYAGAIN | CONTINUE | RETURN | FILES | DNS | MDNS

  /** `dns_nssconf_c2k`. */
  function CharToKeyword(ch: char): Keyword {
    match ch
    case 'S' => SUCCESS
    case 'N' => NOTFOUND
    case 'U' => UNAVAIL
    case 'T' => TRYAGAIN
    case 'C' => CONTINUE
    case 'R' => RETURN
    case 'f' => FILES
    case 'F' => FILES
    case 'd' => DNS
    case 'D' => DNS
    case 'b' => DNS
    case 'B' => DNS
    case 'm' => MDNS
    case 'M' => MDNS
    case _ => INVALID
  }

  /** `dns_nssconf_k2c`. */
  function KeywordToChar(k: Keyword): char {
    match k
    case SUCCESS => 'S'
    case NOTFOUND => 'N'
    case UNAVAIL => 'U'
    case TRYAGAIN => 'T'
    case CONTINUE => 'C'
    case RETURN => 'R'
    case FILES => 'f'
    case DNS => 'b'
    case MDNS => 'm'
    case _ => '?'
  }

  predicate IsSource(k: Keyword) { k.DNS? || k.MDNS? || k.FILES? }

  predicate IsStatus(k: Keyword) { k.SUCCESS? || k.NOTFOUND? || k.UNAVAIL? || k.TRYAGAIN? }

  predicate IsAction(k: Keyword) { k.CONTINUE? || k.RETURN? }

  // ----- What the configuration says ----------------------------------------------------------

  /** A status and what to do then, as the words of the file were recognised. */
  datatype Criterion = Criterion(status: Keyword, action: Keyword)

  datatype Entry = Entry(source: Keyword, criteria: seq<Criterion>)

  /** The words of an entry, and whether they fit behind `used` characters. */
  function Words(e: Entry): nat { 1 + 2 * |e.criteria| }

  predicate Kept(e: Entry, used: nat) { used + Words(e) + 1 <= LOOKUP && IsSource(e.source) }

  /** An action that is none stands for the default of its status. */
  function ActionOf(c: Criterion): Keyword {
    if IsAction(c.action) then c.action else if c.status == SUCCESS then RETURN else CONTINUE
  }

  datatype Source = Source(source: Keyword, success: Keyword, notfound: Keyword, unavail: Keyword, tryagain: Keyword)

  function Default(k: Keyword): Source { Source(k, RETURN, CONTINUE, CONTINUE, CONTINUE) }

  function Set(s: Source, status: Keyword, action: Keyword): Source {
    match status
    case SUCCESS => s.(success := action)
    case NOTFOUND => s.(notfound := action)
    case UNAVAIL => s.(unavail := action)
    case TRYAGAIN => s.(tryagain := action)
    case _ => s
  }

  /** The criteria take effect in order, so the last one for a status wins. */
  function Apply(s: Source, cs: seq<Criterion>): Source
    decreases cs
  {
    if cs == [] then s else Apply(Set(s, cs[0].status, ActionOf(cs[0])), cs[1..])
  }

  /** What the last criterion for a status says, if there is one. */
  function LastAction(cs: seq<Criterion>, status: Keyword, default: Keyword): Keyword {
    if cs == [] then default
    else
      var c := cs[|cs| - 1];
      if c.status == status then ActionOf(c) else LastAction(cs[..|cs| - 1], status, default)
  }

  /** Sources are read in either case, and `d` like `b`; statuses and actions only as capitals. */
  lemma Letters(ch: char)
    ensures CharToKeyword(ch) == FILES <==> ch in "fF"
    ensures CharToKeyword(ch) == DNS <==> ch in "bBdD"
    ensures CharToKeyword(ch) == MDNS <==> ch in "mM"
    ensures IsSource(CharToKeyword(ch)) <==> ch in "fFbBdDmM"
    ensures IsStatus(CharToKeyword(ch)) <==> ch in "SNUT"
    ensures IsAction(CharToKeyword(ch)) <==> ch in "CR"
    ensures forall k | IsStatus(k) || IsAction(k) :: CharToKeyword(ch) == k <==> ch == KeywordToChar(k)
    ensures KeywordToChar(SUCCESS) == 'S' && KeywordToChar(NOTFOUND) == 'N' && KeywordToChar(UNAVAIL) == 'U'
    ensures KeywordToChar(TRYAGAIN) == 'T' && KeywordToChar(CONTINUE) == 'C' && KeywordToChar(RETURN) == 'R'
  {
  }

  function ActionFor(s: Source, status: Keyword): Keyword
    requires IsStatus(status)
  {
    match status
    case SUCCESS => s.success
    case NOTFOUND => s.notfound
    case UNAVAIL => s.unavail
    case TRYAGAIN => s.tryagain
  }

  predicate Silent(cs: seq<Criterion>, i: nat, status: Keyword) { forall j :: i <= j < |cs| ==> cs[j].status != status }

  lemma {:induction false} LastActionAt(cs: seq<Criterion>, i: nat, status: Keyword, default: Keyword)
    requires i <= |cs| && Silent(cs, i, status) && (i > 0 ==> cs[i - 1].status == status)
    ensures LastAction(cs, status, default) == if i == 0 then default else ActionOf(cs[i - 1])
    decreases |cs|
  {
    if |cs| > i { LastActionAt(cs[..|cs| - 1], i, status, default); }
  }

  /** What an entry means for a status: the action of the last criterion for it; and without one, or without an
      action there, to return on success and else to go on to the next source. */
  lemma MeantFor(e: Entry, status: Keyword, i: nat)
    requires IsStatus(status) && i <= |e.criteria| && Silent(e.criteria, i, status) && (i > 0 ==> e.criteria[i - 1].status == status)
    ensures Meant(e).source == e.source
    ensures ActionFor(Meant(e), status)
         == if i > 0 && IsAction(e.criteria[i - 1].action) then e.criteria[i - 1].action
            else if status == SUCCESS then RETURN else CONTINUE
  {
    hide Apply, LastAction;
    LastWins(Default(e.source), e.criteria);
    LastActionAt(e.criteria, i, status, if status == SUCCESS then RETURN else CONTINUE);
  }

  lemma {:induction false} LastActionFirst(c: Criterion, cs: seq<Criterion>, status: Keyword, default: Keyword)
    ensures LastAction([c] + cs, status, default)
            == LastAction(cs, status, if c.status == status then ActionOf(c) else default)
    decreases cs
  {
    var all, n := [c] + cs, |cs|;
    if n == 0 {
      assert all == [c] && all[..0] == [];
    } else {
      assert all[..n] == [c] + cs[..n - 1] && all[n] == cs[n - 1];
      LastActionFirst(c, cs[..n - 1], status, default);
    }
  }

  /** The last criterion for each status wins. */
  lemma {:induction false} LastWins(s: Source, cs: seq<Criterion>)
    ensures Apply(s, cs) == Source(s.source,
              LastAction(cs, SUCCESS, s.success), LastAction(cs, NOTFOUND, s.notfound),
              LastAction(cs, UNAVAIL, s.unavail), LastAction(cs, TRYAGAIN, s.tryagain))
    decreases cs
  {
    if cs != [] {
      var c, rest := cs[0], cs[1..];
      assert cs == [c] + rest;
      LastWins(Set(s, c.status, ActionOf(c)), rest);
      LastActionFirst(c, rest, SUCCESS, s.success);
      LastActionFirst(c, rest, NOTFOUND, s.notfound);
      LastActionFirst(c, rest, UNAVAIL, s.unavail);
      LastActionFirst(c, rest, TRYAGAIN, s.tryagain);
    }
  }

  function Meant(e: Entry): Source { Apply(Default(e.source), e.criteria) }

  // ----- Writing ----------------------------------------------------------------------------------

  function CriterionText(c: Criterion): string {
    if IsStatus(c.status) then [KeywordToChar(c.status), KeywordToChar(ActionOf(c))] else ""
  }

  function CriteriaText(cs: seq<Criterion>): string {
    if cs == [] then "" else CriterionText(cs[0]) + CriteriaText(cs[1..])
  }

  function EntryText(e: Entry): string { [KeywordToChar(e.source)] + CriteriaText(e.criteria) }

  /** The entries that are written, when `used` characters are there already. */
  function Written(es: seq<Entry>, used: nat): seq<Entry> {
    if es == [] then []
    else if Kept(es[0], used) then [es[0]] + Written(es[1..], used + |EntryText(es[0])|)
    else Written(es[1..], used)
  }

  function Text(es: seq<Entry>): string {
    if es == [] then "" else EntryText(es[0]) + Text(es[1..])
  }

  lemma {:induction false} TextAppend(es: seq<Entry>, e: Entry)
    ensures Text(es + [e]) == Text(es) + EntryText(e)
  {
    if es == [] {
      assert [] + [e] == [e] && [e][1..] == [];
    } else {
      assert (es + [e])[1..] == es[1..] + [e];
      TextAppend(es[1..], e);
    }
  }

  // ----- Reading ----------------------------------------------------------------------------------

  /** `dns_nssconf_peek`: the end of the string reads as NUL. */
  function Peek(l: string, i: nat): char { if i < |l| then l[i] else '\0' }

  /** The inner loop of `dns_nssconf_next`. */
  function ReadCriteria(s: Source, l: string, i: nat): (Source, nat)
    decreases |l| - i
  {
    if i < |l| && Peek(l, i) != '\0' && Peek(l, i + 1) != '\0' then
      var status, action := CharToKeyword(Peek(l, i)), CharToKeyword(Peek(l, i + 1));
      if IsAction(action) && IsStatus(status) then ReadCriteria(Set(s, status, action), l, i + 2) else (s, i)
    else (s, i)
  }

  /** `dns_nssconf_next`: the next source, if there is one, and the new state. */
  function Next(l: string, i: nat): (Option<Source>, nat)
    decreases |l| - i
  {
    if i < |l| && l[i] != '\0' then
      var source := CharToKeyword(l[i]);
      if IsSource(source) then
        var (s, j) := ReadCriteria(Default(source), l, i + 1);
        (Some(s), j)
      else Next(l, i + 1)
    else (None, i)
  }

  method NextByLoop(l: string, state: nat) returns (src: Option<Source>, state': nat)
    ensures (src, state') == Next(l, state)
  {
    state' := state;
    src := None;
    while state' < |l| && l[state'] != '\0'
      invariant Next(l, state') == Next(l, state)
      decreases |l| - state'
    {
      var source := CharToKeyword(l[state']);
      state' := state' + 1;
      if !IsSource(source) { continue; }
      var s := Default(source);
      ghost var goal := ReadCriteria(s, l, state');
      while state' < |l| && Peek(l, state') != '\0' && Peek(l, state' + 1) != '\0'
        invariant ReadCriteria(s, l, state') == goal
        decreases |l| - state'
      {
        var status, action := CharToKeyword(Peek(l, state')), CharToKeyword(Peek(l, state' + 1));
        if !IsAction(action) { break; }
        if !IsStatus(status) { break; }
        s := Set(s, status, action);
        state' := state' + 2;
      }
      return Some(s), state';
    }
  }

  // ----- Round trip -------------------------------------------------------------------------------

  /** What stands behind the criteria of an entry: nothing, or another entry. */
  predicate EntryOrEnd(l: string, i: nat) { Peek(l, i) == '\0' || IsSource(CharToKeyword(Peek(l, i))) }

  lemma NoCriterionRead(s: Source, l: string, i: nat)
    requires EntryOrEnd(l, i)
    ensures ReadCriteria(s, l, i) == (s, i)
  {
  }

  lemma CriterionRead(s: Source, c: Criterion, l: string, i: nat)
    requires IsStatus(c.status) && i + 2 <= |l| && l[i..i + 2] == CriterionText(c)
    ensures ReadCriteria(s, l, i) == ReadCriteria(Set(s, c.status, ActionOf(c)), l, i + 2)
  {
    hide Set;
    assert l[i] == l[i..i + 2][0] && l[i + 1] == l[i..i + 2][1];
  }

  /** Reading the criteria of an entry stops at the next source, which is never taken for a
      criterion. */
  lemma {:induction false} CriteriaRead(s: Source, l: string, i: nat, cs: seq<Criterion>)
    requires i + |CriteriaText(cs)| <= |l| && l[i..i + |CriteriaText(cs)|] == CriteriaText(cs)
    requires EntryOrEnd(l, i + |CriteriaText(cs)|)
    ensures ReadCriteria(s, l, i) == (Apply(s, cs), i + |CriteriaText(cs)|)
    decreases |cs|
  {
    hide ActionOf, Peek, ReadCriteria, EntryOrEnd, CharToKeyword, KeywordToChar;
    if cs == [] {
      NoCriterionRead(s, l, i);
    } else {
      var c := cs[0];
      var t := CriteriaText(cs);
      if IsStatus(c.status) {
        assert l[i..i + 2] == l[i..i + |t|][..2] == CriterionText(c);
        CriterionRead(s, c, l, i);
        assert l[i + 2..i + 2 + |CriteriaText(cs[1..])|] == t[2..];
        CriteriaRead(Set(s, c.status, ActionOf(c)), l, i + 2, cs[1..]);
      } else {
        CriteriaRead(s, l, i, cs[1..]);
      }
    }
  }

  /** The sources read one by one, at most `n` of them. */
  function ReadAll(l: string, i: nat, n: nat): seq<Source>
    decreases n
  {
    if n == 0 then []
    else
      var (s, j) := Next(l, i);
      match s
      case None => []
      case Some(source) => [source] + ReadAll(l, j, n - 1)
  }

  function MeantAll(es: seq<Entry>): seq<Source> {
    seq(|es|, i requires 0 <= i < |es| => Meant(es[i]))
  }

  predicate Sources(es: seq<Entry>) { forall i :: 0 <= i < |es| ==> IsSource(es[i].source) }

  lemma FirstEntry(es: seq<Entry>, l: string, i: nat)
    requires Sources(es) && es != [] && i <= |l| && l[i..] == Text(es)
    ensures var j := i + |EntryText(es[0])|;
            && i < j <= |l| && l[i] == KeywordToChar(es[0].source)
            && l[i + 1..j] == CriteriaText(es[0].criteria) && l[j..] == Text(es[1..]) && EntryOrEnd(l, j)
  {
    hide CriteriaText, Text, EntryText;
    var n := |EntryText(es[0])|;
    FirstText(es);
    TextParts(es[0]);
    CutAt(l, i, n);
    if |es| > 1 {
      TextParts(es[1]);
      FirstText(es[1..]);
      assert l[i + n] == l[i + n..][0];
    }
  }

  lemma CutAt(l: string, i: nat, n: nat)
    requires 0 < n && i + n <= |l|
    ensures l[i] == l[i..][0] && l[i + 1..i + n] == l[i..][1..n] && l[i + n..] == l[i..][n..]
  {
  }

  /** A text starts with that of its first entry. */
  lemma FirstText(es: seq<Entry>)
    requires es != []
    ensures var n := |EntryText(es[0])|;
            && 0 < n <= |Text(es)| && Text(es)[0] == EntryText(es[0])[0]
            && Text(es)[1..n] == EntryText(es[0])[1..] && Text(es)[n..] == Text(es[1..])
            && (|es| == 1 ==> n == |Text(es)|)
  {
  }

  lemma TextParts(e: Entry)
    ensures |EntryText(e)| > 0 && EntryText(e)[0] == KeywordToChar(e.source) && EntryText(e)[1..] == CriteriaText(e.criteria)
  {
  }

  /** Reading what was written yields the same sources in order, with the actions meant, and then
      the end. */
  lemma {:induction false} ReadsBack(es: seq<Entry>, l: string, i: nat, n: nat)
    requires Sources(es) && i <= |l| && l[i..] == Text(es) && n > |es|
    ensures ReadAll(l, i, n) == MeantAll(es)
    decreases |es|
  {
    hide ReadCriteria, CriteriaText, EntryText, Apply, EntryOrEnd;
    if es == [] {
      assert MeantAll(es) == [];
    } else {
      var e := es[0];
      FirstEntry(es, l, i);
      CriteriaRead(Default(e.source), l, i + 1, e.criteria);
      ReadsBack(es[1..], l, i + |EntryText(e)|, n - 1);
      assert MeantAll(es) == [Meant(e)] + MeantAll(es[1..]);
    }
  }

  // ----- The loader -------------------------------------------------------------------------------

  lemma {:induction false} WrittenAreSources(es: seq<Entry>, used: nat)
    ensures Sources(Written(es, used)) && |Written(es, used)| <= |es|
    decreases |es|
  {
    if es != [] { WrittenAreSources(es[1..], if Kept(es[0], used) then used + |EntryText(es[0])| else used); }
  }

  /** What is written fits into the string of 36 characters, with a NUL behind it. */
  lemma {:induction false} WrittenFits(es: seq<Entry>, used: nat)
    requires used < 36
    ensures used + |Text(Written(es, used))| < 36
    decreases |es|
  {
    hide EntryText, Text;
    if es == [] {
      NoText();
    } else if Kept(es[0], used) {
      EntrySize(es[0]);
      WrittenFits(es[1..], used + |EntryText(es[0])|);
      TextFirst(es[0], Written(es[1..], used + |EntryText(es[0])|));
    } else {
      WrittenFits(es[1..], used);
    }
  }

  lemma NoText()
    ensures Text([]) == ""
  {
  }

  lemma TextFirst(e: Entry, es: seq<Entry>)
    ensures Text([e] + es) == EntryText(e) + Text(es)
  {
    assert ([e] + es)[1..] == es;
  }

  lemma EntrySize(e: Entry)
    ensures |EntryText(e)| <= Words(e)
  {
    CriteriaSize(e.criteria);
  }

  lemma {:induction false} CriteriaSize(cs: seq<Criterion>)
    ensures |CriteriaText(cs)| <= 2 * |cs|
  {
    if cs != [] { CriteriaSize(cs[1..]); }
  }

  /** Whatever the configuration lists: the sources read back are those that were written, with
      the last action listed for each status and the defaults elsewhere. */
  lemma RoundTrip(es: seq<Entry>, n: nat)
    requires n > |es|
    ensures ReadAll(Text(Written(es, 0)), 0, n) == MeantAll(Written(es, 0))
  {
    WrittenAreSources(es, 0);
    var l := Text(Written(es, 0));
    assert l[0..] == l;
    ReadsBack(Written(es, 0), l, 0, n);
  }

  method Append(lookup: array<char>, lp: nat, ch: char) returns (lp': nat)
    requires lp < lookup.Length
    modifies lookup
    ensures lp' == lp + 1 && lookup[..lp'] == old(lookup[..lp]) + [ch]
  {
    ghost var l := lookup[..lp];
    lookup[lp] := ch;
    lp' := lp + 1;
    assert lookup[..lp'] == l + [ch];
  }

  /** One entry that fits. */
  method AppendEntry(lookup: array<char>, lp0: nat, e: Entry) returns (lp: nat)
    requires lookup.Length == LOOKUP && Kept(e, lp0)
    modifies lookup
    ensures lp < LOOKUP && lp == lp0 + |EntryText(e)| && lookup[..lp] == old(lookup[..lp0]) + EntryText(e)
  {
    hide CriteriaText;
    ghost var l := lookup[..lp0];
    lp := Append(lookup, lp0, KeywordToChar(e.source));
    ghost var done: string := [KeywordToChar(e.source)];
    NoCriteria();
    for i := 0 to |e.criteria|
      invariant lp == lp0 + |done| && lp0 + 1 <= lp <= lp0 + 1 + 2 * i
      invariant lookup[..lp] == l + done && done + CriteriaText(e.criteria[i..]) == EntryText(e)
    {
      var status, action := e.criteria[i].status, e.criteria[i].action;
      CriteriaStep(done, e.criteria, i);
      done := done + CriterionText(e.criteria[i]);
      if !IsStatus(status) { assert done + [] == done; continue; }
      lp := Append(lookup, lp, KeywordToChar(status));
      if !IsAction(action) { action := if status == SUCCESS then RETURN else CONTINUE; }
      lp := Append(lookup, lp, KeywordToChar(action));
    }
    assert e.criteria[|e.criteria|..] == [] && done + "" == done;
  }

  lemma NoCriteria()
    ensures CriteriaText([]) == ""
  {
  }

  lemma CriteriaStep(done: string, cs: seq<Criterion>, i: nat)
    requires i < |cs|
    ensures done + CriteriaText(cs[i..]) == done + CriterionText(cs[i]) + CriteriaText(cs[i + 1..])
  {
    assert cs[i..][1..] == cs[i + 1..];
    assert done + (CriterionText(cs[i]) + CriteriaText(cs[i + 1..])) == done + CriterionText(cs[i]) + CriteriaText(cs[i + 1..]);
  }

  /** The writes of `dns_nssconf_loadfile`: the string holds the text of the entries that fit, in
      order, and is terminated. */
  method Load(es: seq<Entry>) returns (lookup: array<char>, lp: nat)
    ensures fresh(lookup) && lookup.Length == LOOKUP && lp < LOOKUP
    ensures lookup[..lp] == Text(Written(es, 0)) && lookup[lp] == '\0'
  {
    hide EntryText;
    lookup := new char[LOOKUP](_ => '\0');
    lp := 0;
    lookup[lp] := '\0';
    ghost var done: seq<Entry> := [];
    assert es[0..] == es;
    for k := 0 to |es|
      invariant lp < LOOKUP && lookup[..lp] == Text(done) && lookup[lp] == '\0'
      invariant done + Written(es[k..], lp) == Written(es, 0)
    {
      var e := es[k];
      assert es[k..][1..] == es[k + 1..];
      if !(LOOKUP - lp < Words(e) + 1) && IsSource(e.source) {
        WrittenStep(done, es[k..], lp);
        TextAppend(done, e);
        lp := AppendEntry(lookup, lp, e);
        done := done + [e];
      }
      lookup[lp] := '\0';
    }
    assert done + [] == done;
  }

  lemma WrittenStep(done: seq<Entry>, es: seq<Entry>, used: nat)
    requires es != [] && Kept(es[0], used)
    ensures done + Written(es, used) == done + [es[0]] + Written(es[1..], used + |EntryText(es[0])|)
  {
  }
}
