/** The string that `dns_nssconf_loadfile` writes (libs/async/src/dns/dns.c:4600-4641) as `dns_res_exec`
    reads it (dns.c:6640-6653).  The resolver takes every letter for a method, those of the criteria as
    well, and the letter of the action "continue" is that of the cache. */
module SourcesLookup {
  import opened LookupOrder
  import opened Resolver
  import N = NssConf

  function OfSource(k: N.Keyword): seq<Stage> {
    if k == N.FILES then [FILE] else if k == N.DNS then [BIND] else []
  }

  predicate Continues(x: N.Criterion) { N.IsStatus(x.status) && N.ActionOf(x) == N.CONTINUE }

  function OfCriteria(xs: seq<N.Criterion>, cache: bool): seq<Stage>
    decreases xs
  {
    if xs == [] then [] else (if Continues(xs[0]) && cache then [CACHE] else []) + OfCriteria(xs[1..], cache)
  }

  /** The methods for some entries: of each its source, and the cache for each criterion with the action
      "continue", if there is a cache. */
  function Tried(es: seq<N.Entry>, cache: bool): seq<Stage>
    decreases es
  {
    if es == [] then [] else OfSource(es[0].source) + OfCriteria(es[0].criteria, cache) + Tried(es[1..], cache)
  }

  function Stages(ms: seq<(Stage, nat)>): (r: seq<Stage>)
    ensures |r| == |ms| && forall i :: 0 <= i < |ms| ==> r[i] == ms[i].0
  {
    seq(|ms|, i requires 0 <= i < |ms| => ms[i].0)
  }

  /** The methods that the letters from `w` on name. */
  function Ahead(c: Config, w: nat): seq<Stage> { Stages(Methods(c, w)) }

  /** One letter. */
  lemma LetterTried(c: Config, w: nat)
    requires w < 36 && w < |c.lookup| && c.lookup[w] != '\0'
    ensures var ch, rest := c.lookup[w], Ahead(c, w + 1);
            Ahead(c, w)
            == if ch == 'b' || ch == 'B' then [BIND] + rest
               else if ch == 'f' || ch == 'F' then [FILE] + rest
               else if (ch == 'c' || ch == 'C') && c.cache then [CACHE] + rest
               else rest
  {
    hide Within, Stages;
    HereWithin(c, w);
    forall s, k: nat ensures Stages([(s, k)] + Methods(c, w + 1)) == [s] + Ahead(c, w + 1) { StagesCons((s, k), Methods(c, w + 1)); }
  }

  lemma HereWithin(c: Config, w: nat)
    ensures Within(c, w, w) <==> w < 36 && w < |c.lookup| && c.lookup[w] != '\0'
  {
  }

  lemma StagesCons(m: (Stage, nat), ms: seq<(Stage, nat)>)
    ensures Stages([m] + ms) == [m.0] + Stages(ms)
  {
  }

  lemma CriterionLetters(x: N.Criterion)
    requires N.IsStatus(x.status)
    ensures var t := N.CriterionText(x);
            && |t| == 2 && (t[0] == 'S' || t[0] == 'N' || t[0] == 'U' || t[0] == 'T')
            && t[1] == if Continues(x) then 'C' else 'R'
  {
  }

  lemma CriterionTried(c: Config, w: nat, x: N.Criterion)
    requires N.IsStatus(x.status) && w + 2 <= 36 && w + 2 <= |c.lookup| && c.lookup[w..w + 2] == N.CriterionText(x)
    ensures Ahead(c, w) == (if Continues(x) && c.cache then [CACHE] else []) + Ahead(c, w + 2)
  {
    hide Ahead, N.CriterionText, N.IsStatus, Continues;
    CriterionLetters(x);
    assert c.lookup[w] == c.lookup[w..w + 2][0] && c.lookup[w + 1] == c.lookup[w..w + 2][1];
    LetterTried(c, w);
    LetterTried(c, w + 1);
  }

  lemma CriteriaFirst(xs: seq<N.Criterion>, cache: bool)
    requires xs != []
    ensures N.CriteriaText(xs) == N.CriterionText(xs[0]) + N.CriteriaText(xs[1..])
    ensures OfCriteria(xs, cache) == (if Continues(xs[0]) && cache then [CACHE] else []) + OfCriteria(xs[1..], cache)
    ensures !N.IsStatus(xs[0].status) ==> N.CriterionText(xs[0]) == "" && !Continues(xs[0])
    ensures N.IsStatus(xs[0].status) ==> |N.CriterionText(xs[0])| == 2
  {
  }

  lemma Split(l: string, w: nat, a: string, b: string)
    requires w + |a| + |b| <= |l| && l[w..w + |a| + |b|] == a + b
    ensures l[w..w + |a|] == a && l[w + |a|..w + |a| + |b|] == b
  {
    var ab := l[w..w + |a| + |b|];
    assert l[w..w + |a|] == ab[..|a|] && l[w + |a|..w + |a| + |b|] == ab[|a|..];
  }

  lemma {:induction false} CriteriaTried(c: Config, w: nat, xs: seq<N.Criterion>)
    requires w + |N.CriteriaText(xs)| <= 36 && w + |N.CriteriaText(xs)| <= |c.lookup|
    requires c.lookup[w..w + |N.CriteriaText(xs)|] == N.CriteriaText(xs)
    ensures Ahead(c, w) == OfCriteria(xs, c.cache) + Ahead(c, w + |N.CriteriaText(xs)|)
    decreases |xs|
  {
    hide Ahead, N.CriteriaText, N.CriterionText, N.IsStatus, OfCriteria, Continues;
    if xs == [] {
      NoCriteriaTried(c.cache);
    } else {
      var rest := N.CriteriaText(xs[1..]);
      CriteriaFirst(xs, c.cache);
      Split(c.lookup, w, N.CriterionText(xs[0]), rest);
      CriteriaTried(c, w + |N.CriterionText(xs[0])|, xs[1..]);
      if N.IsStatus(xs[0].status) { CriterionTried(c, w, xs[0]); }
    }
  }

  lemma NoCriteriaTried(cache: bool)
    ensures N.CriteriaText([]) == "" && OfCriteria([], cache) == []
  {
  }

  lemma {:induction false} EntriesTried(c: Config, w: nat, es: seq<N.Entry>)
    requires N.Sources(es) && w <= |c.lookup| <= 36 && c.lookup[w..] == N.Text(es)
    ensures Ahead(c, w) == Tried(es, c.cache)
    decreases |es|
  {
    hide Ahead, OfSource, OfCriteria, N.CriteriaText, N.EntryText, N.Text, N.KeywordToChar, N.EntryOrEnd;
    if es == [] {
      N.NoText();
      NothingTried(c, w);
    } else {
      N.FirstEntry(es, c.lookup, w);
      N.TextParts(es[0]);
      EntryTried(c, w, es[0]);
      EntriesTried(c, w + |N.EntryText(es[0])|, es[1..]);
    }
  }

  lemma EntryTried(c: Config, w: nat, e: N.Entry)
    requires N.IsSource(e.source) && w + 1 + |N.CriteriaText(e.criteria)| <= |c.lookup| <= 36
    requires c.lookup[w] == N.KeywordToChar(e.source)
    requires c.lookup[w + 1..w + 1 + |N.CriteriaText(e.criteria)|] == N.CriteriaText(e.criteria)
    ensures Ahead(c, w) == OfSource(e.source) + OfCriteria(e.criteria, c.cache) + Ahead(c, w + 1 + |N.CriteriaText(e.criteria)|)
  {
    hide Ahead, OfCriteria, N.CriteriaText, N.KeywordToChar, N.IsSource, OfSource;
    SourceTried(c, w, e.source);
    CriteriaTried(c, w + 1, e.criteria);
  }

  lemma SourceTried(c: Config, w: nat, k: N.Keyword)
    requires N.IsSource(k) && w < |c.lookup| && w < 36 && c.lookup[w] == N.KeywordToChar(k)
    ensures Ahead(c, w) == OfSource(k) + Ahead(c, w + 1)
  {
    hide Ahead, N.KeywordToChar;
    SourceLetter(k);
    LetterTried(c, w);
  }

  lemma SourceLetter(k: N.Keyword)
    requires N.IsSource(k)
    ensures N.KeywordToChar(k) == if k == N.FILES then 'f' else if k == N.DNS then 'b' else 'm'
  {
  }

  lemma NothingTried(c: Config, w: nat)
    requires w >= |c.lookup|
    ensures Ahead(c, w) == []
  {
    HereWithin(c, w);
  }

  /** With a lookup string that has been written from the name service switch, the frames of the resolver try
      the sources in their order, and the cache once for every criterion with the action "continue". */
  lemma SwitchTried(c: Config, es: seq<N.Entry>)
    requires c.lookup == N.Text(N.Written(es, 0))
    ensures Stages(Methods(c, 0)) == Tried(N.Written(es, 0), c.cache)
  {
    assert Ahead(c, 0) == Stages(Methods(c, 0));
    AheadTried(c, es);
  }

  lemma AheadTried(c: Config, es: seq<N.Entry>)
    requires c.lookup == N.Text(N.Written(es, 0))
    ensures Ahead(c, 0) == Tried(N.Written(es, 0), c.cache)
  {
    hide Ahead;
    N.WrittenAreSources(es, 0);
    N.WrittenFits(es, 0);
    assert c.lookup[0..] == c.lookup;
    EntriesTried(c, 0, N.Written(es, 0));
  }

  predicate NoContinue(xs: seq<N.Criterion>) { forall i :: 0 <= i < |xs| ==> !Continues(xs[i]) }

  predicate NoneContinues(es: seq<N.Entry>) { forall i :: 0 <= i < |es| ==> NoContinue(es[i].criteria) }

  lemma {:induction false} CriteriaCache(xs: seq<N.Criterion>, cache: bool)
    ensures CACHE in OfCriteria(xs, cache) <==> cache && !NoContinue(xs)
    decreases |xs|
  {
    if xs != [] {
      CriteriaCache(xs[1..], cache);
      assert forall i :: 0 <= i < |xs[1..]| ==> xs[1..][i] == xs[i + 1];
      assert !NoContinue(xs) <==> Continues(xs[0]) || !NoContinue(xs[1..]);
    }
  }

  /** No source is the cache, so that it is tried exactly if the resolver has one and some criterion continues. */
  lemma {:induction false} CacheTriedIff(es: seq<N.Entry>, cache: bool)
    ensures CACHE in Tried(es, cache) <==> cache && !NoneContinues(es)
    decreases |es|
  {
    hide NoContinue, OfCriteria;
    if es != [] {
      CriteriaCache(es[0].criteria, cache);
      CacheTriedIff(es[1..], cache);
      assert forall i :: 0 <= i < |es[1..]| ==> es[1..][i] == es[i + 1];
      assert NoneContinues(es) <==> NoContinue(es[0].criteria) && NoneContinues(es[1..]);
    }
  }
}
