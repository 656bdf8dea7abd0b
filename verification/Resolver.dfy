/** The frame stack of the recursive resolver (libs/async/src/dns/dns.c:6598-7139): a program
    with its own call stack of eight frames, left in the middle whenever an error or a missing
    answer makes `dns_res_exec` return, and entered again at the same state.

    One step is one case of the big switch.  What a query, a packet or a clock yields is left
    open: every outcome that the code distinguishes is possible at every step.  Packets are
    told apart only by whether there is one. */
module Resolver {
  const MAXDEPTH: nat := 8
  const LOOKUP_SIZE: nat := 36

  datatype Stage =
    | INIT | GLUE | SWITCH | FILE | CACHE | SUBMIT | CHECK | FETCH
    | BIND | SEARCH | HINTS | ITERATE | FOREACH_NS | RESOLV0_NS | RESOLV1_NS
    | FOREACH_A | QUERY_A | CNAME0_A | CNAME1_A
    | FINISH | SMART0_A | SMART1_A | DONE | SERVFAIL

  /** `query`, `answer` and `hints` say whether the frame has such a packet. */
  datatype Frame = Frame(state: Stage, which: nat, attempts: nat, query: bool, answer: bool, hints: bool)

  datatype Config = Config(lookup: seq<char>, cache: bool, recurse: bool, smart: bool, attempts: nat)

  /** `running` holds inside `dns_res_exec`; `nodata` is the answer kept for want of better. */
  datatype Resolver = Resolver(running: bool, sp: nat, stack: seq<Frame>, nodata: bool)

  datatype Code = Success | NoQuery | NoAnswer | Failure

  /** A step goes on inside the call, or returns from it. */
  datatype Out = Goes | Returns(code: Code)

  const EMPTY: Frame := Frame(INIT, 0, 0, false, false, false)

  predicate Shape(r: Resolver) { |r.stack| == MAXDEPTH && r.sp < MAXDEPTH }

  function Top(r: Resolver): Frame
    requires Shape(r)
  {
    r.stack[r.sp]
  }

  /** The frame above the top, which holds the result of the last call. */
  function Child(r: Resolver): Frame
    requires Shape(r)
  {
    if r.sp + 1 < MAXDEPTH then r.stack[r.sp + 1] else EMPTY
  }

  function SetTop(r: Resolver, f: Frame): (s: Resolver)
    requires Shape(r)
    ensures Shape(s) && s.running == r.running
  {
    r.(stack := r.stack[r.sp := f])
  }

  function SetChild(r: Resolver, f: Frame): (s: Resolver)
    requires Shape(r) && r.sp + 1 < MAXDEPTH
    ensures Shape(s) && s.running == r.running && s.sp == r.sp
  {
    r.(stack := r.stack[r.sp + 1 := f])
  }

  /** The frame waits in state `s` while a new frame with a query starts. */
  function Call(r: Resolver, s: Stage): Resolver
    requires Shape(r) && r.sp + 1 < MAXDEPTH
  {
    SetChild(SetTop(r, Top(r).(state := s)), EMPTY.(query := true)).(sp := r.sp + 1)
  }

  // ----- Steps ------------------------------------------------------------------------------

  /** The next lookup method named in the configuration, and the index behind it. */
  function NextMethod(c: Config, which: nat): (Stage, nat)
    decreases LOOKUP_SIZE - which
  {
    if which < LOOKUP_SIZE && which < |c.lookup| && c.lookup[which] != '\0' then
      var ch := c.lookup[which];
      if ch == 'b' || ch == 'B' then (BIND, which + 1)
      else if ch == 'f' || ch == 'F' then (FILE, which + 1)
      else if (ch == 'c' || ch == 'C') && c.cache then (CACHE, which + 1)
      else NextMethod(c, which + 1)
    else (SERVFAIL, which)
  }

  ghost predicate Go(r: Resolver, f: Frame, s: Stage, r': Resolver, out: Out)
    requires Shape(r)
  {
    r' == SetTop(r, f.(state := s)) && out == Goes
  }

  ghost predicate Fail(r: Resolver, f: Frame, r': Resolver, out: Out)
    requires Shape(r)
  {
    r' == SetTop(r, f).(running := false) && out == Returns(Failure)
  }

  ghost predicate Exit(r: Resolver, code: Code, r': Resolver, out: Out) {
    r' == r.(running := false) && out == Returns(code)
  }

  /** The frame above is reset; making its query may fail in two ways, or it is called. */
  ghost predicate TryCall(r: Resolver, s: Stage, r': Resolver, out: Out)
    requires Shape(r) && r.sp + 1 < MAXDEPTH
  {
    || (exists q: bool :: Exit(SetChild(r, EMPTY.(query := q)), Failure, r', out))
    || (r' == Call(r, s) && out == Goes)
  }

  ghost predicate Exec(c: Config, r: Resolver, r': Resolver, out: Out) { Shape(r) && ExecTop(c, r, r', out) }

  ghost predicate ExecTop(c: Config, r: Resolver, r': Resolver, out: Out)
    requires Shape(r)
  {
    var f := Top(r);
    match f.state
    case INIT => Go(r, f, GLUE, r', out)
    case GLUE =>
      if r.sp == 0 then Go(r, f, SWITCH, r', out)
      else if !f.query then Exit(r, NoQuery, r', out)
      else
        var a := f.(answer := true);
        || Go(r, f.(answer := false), SWITCH, r', out)
        || Fail(r, a, r', out) || Go(r, a, FINISH, r', out) || Go(r, a, CNAME0_A, r', out) || Go(r, a, SWITCH, r', out)
    case SWITCH =>
      var (s, w) := NextMethod(c, f.which);
      if s != SERVFAIL then Go(r, f.(which := w), s, r', out)
      else if r.sp == 0 && r.nodata then Go(r.(nodata := false), f.(which := w, answer := true), FINISH, r', out)
      else Go(r, f.(which := w), SERVFAIL, r', out)
    case FILE =>
      || Fail(r, f.(answer := false), r', out)
      || Go(r, f.(answer := true), FINISH, r', out)
      || Go(r, f.(answer := false), SWITCH, r', out)
      || (r.sp == 0 && (Fail(r, f, r', out) || Go(r, f, SWITCH, r', out)))
    case CACHE =>
      var q := f.(query := true);
      || (!f.query && Fail(r, f, r', out))
      || Go(r, q.(answer := true), FINISH, r', out)
      || Go(r, q.(answer := false), SWITCH, r', out)
      || Go(r, q.(answer := false), SUBMIT, r', out)
      || Fail(r, q.(answer := false), r', out)
    case SUBMIT => Fail(r, f, r', out) || Go(r, f, CHECK, r', out)
    case CHECK => Fail(r, f, r', out) || Go(r, f, FETCH, r', out)
    case FETCH =>
      || Go(r, f.(answer := true), FINISH, r', out)
      || Go(r, f.(answer := false), SWITCH, r', out)
      || Fail(r, f.(answer := false), r', out)
    case BIND =>
      if r.sp == 0 then Go(r, f, SEARCH, r', out)
      else if !f.query then Exit(r, NoQuery, r', out)
      else Go(r, f, HINTS, r', out)
    case SEARCH =>
      var q := f.(query := true);
      || Go(r, f, SWITCH, r', out) || Fail(r, f, r', out) || Fail(r, q, r', out) || Go(r, q, HINTS, r', out)
    case HINTS => Fail(r, f.(hints := false), r', out) || Go(r, f.(hints := true), ITERATE, r', out)
    case ITERATE => Go(r, f, FOREACH_NS, r', out)
    case FOREACH_NS =>
      var g := f.(attempts := f.attempts + 1);
      || (g.attempts < c.attempts && Go(r, g, ITERATE, r', out))
      || (g.attempts >= c.attempts && Go(r, g, SWITCH, r', out))
      || Go(r, f, FOREACH_A, r', out)
    case RESOLV0_NS =>
      if r.sp + 1 >= MAXDEPTH then Go(r, f, FOREACH_NS, r', out) else TryCall(r, RESOLV1_NS, r', out)
    case RESOLV1_NS => Fail(r, f, r', out) || Go(r, f, FOREACH_NS, r', out)
    case FOREACH_A =>
      || Fail(r, f, r', out) || Go(r, f, RESOLV0_NS, r', out)
      || Go(r, f, FOREACH_NS, r', out) || Go(r, f, QUERY_A, r', out)
    case QUERY_A =>
      var a := f.(answer := true);
      || Go(r, f, FOREACH_A, r', out) || Fail(r, f, r', out) || Fail(r, f.(answer := false), r', out)
      || Fail(r, a, r', out) || Go(r, a, FINISH, r', out) || Go(r, a, CNAME0_A, r', out)
      || if !c.recurse then
           if r.nodata then Go(r, a, SEARCH, r', out)
           else Go(r.(nodata := true), f.(answer := false), SEARCH, r', out)
         else
           || Go(r, f.(answer := false, hints := true), ITERATE, r', out)
           || Go(r, a, FOREACH_A, r', out)
    case CNAME0_A =>
      if r.sp + 1 >= MAXDEPTH then Go(r, f, FINISH, r', out)
      else Fail(r, f, r', out) || TryCall(r, CNAME1_A, r', out)
    case CNAME1_A => Fail(r, f, r', out) || Go(r, f.(answer := true), FINISH, r', out)
    case FINISH =>
      if !f.answer then Exit(r, NoAnswer, r', out)
      else if !c.smart || r.sp > 0 then Go(r, f, DONE, r', out)
      else Go(r, f, SMART0_A, r', out)
    case SMART0_A =>
      if r.sp + 1 >= MAXDEPTH then Go(r, f, DONE, r', out)
      else Fail(r, f, r', out) || TryCall(r, SMART1_A, r', out) || Go(r, f, DONE, r', out)
    case SMART1_A =>
      if !Child(r).answer then Exit(r, NoAnswer, r', out)
      else Fail(r, f, r', out) || Go(r, f, SMART0_A, r', out)
    case DONE =>
      if !f.answer then Exit(r, NoAnswer, r', out)
      else if r.sp > 0 then r' == r.(sp := r.sp - 1) && out == Goes
      else Exit(r, Success, r', out)
    case SERVFAIL =>
      || Fail(r, f.(answer := false), r', out) || Fail(r, f.(answer := true), r', out)
      || Go(r, f.(answer := true), DONE, r', out)
  }

  /** `dns_res_submit`. */
  function Submitted(): Resolver { Resolver(false, 0, seq(MAXDEPTH, i => EMPTY), false) }

  /** A caller checks, unless the resolver is done; fetches; or submits anew. */
  ghost predicate Step(c: Config, r: Resolver, r': Resolver) {
    && Shape(r)
    && if r.running then exists out :: Exec(c, r, r', out)
       else
         || (r.stack[0].state != DONE && r' == r.(running := true))
         || (r.stack[0].state == DONE && r' == r.(stack := r.stack[0 := r.stack[0].(answer := false)]))
         || r' == Submitted()
  }

  ghost predicate Run(c: Config, run: seq<Resolver>) {
    && |run| > 0 && run[0] == Submitted()
    && forall i :: 0 <= i < |run| - 1 ==> Step(c, run[i], run[i + 1])
  }

  // ----- Invariant --------------------------------------------------------------------------

  predicate NeedsQuery(s: Stage) {
    || s.SUBMIT? || s.CHECK? || s.FETCH? || s.HINTS? || s.ITERATE? || s.FOREACH_NS? || s.RESOLV0_NS? || s.RESOLV1_NS?
    || s.FOREACH_A? || s.QUERY_A? || s.CNAME0_A? || s.CNAME1_A?
  }

  predicate NeedsHints(s: Stage) {
    s.ITERATE? || s.FOREACH_NS? || s.RESOLV0_NS? || s.RESOLV1_NS? || s.FOREACH_A? || s.QUERY_A?
  }

  predicate NeedsAnswer(s: Stage) {
    s.CNAME0_A? || s.CNAME1_A? || s.FINISH? || s.SMART0_A? || s.SMART1_A? || s.DONE?
  }

  predicate NeedsCache(s: Stage) { s.CACHE? || s.SUBMIT? || s.CHECK? || s.FETCH? }

  /** The states in which a frame waits for the frame above it. */
  predicate Waits(s: Stage) { s.RESOLV1_NS? || s.CNAME1_A? || s.SMART1_A? }

  /** The packets that a frame has in a state; only a finished resolver may have handed out its
      answer. */
  ghost predicate FrameOk(c: Config, r: Resolver, i: nat)
    requires Shape(r) && i < MAXDEPTH
  {
    var f := r.stack[i];
    && (i > 0 || NeedsQuery(f.state) ==> f.query)
    && (NeedsHints(f.state) ==> f.hints)
    && (NeedsAnswer(f.state) ==> f.answer || (i == 0 && f.state == DONE && !r.running))
    && (NeedsCache(f.state) ==> c.cache)
    && (f.state.SMART0_A? || f.state.SMART1_A? ==> i == 0 && c.smart)
    && f.which <= LOOKUP_SIZE
    && (i < r.sp ==> Waits(f.state))
    && (!r.running && f.state == DONE ==> r.sp == 0)
  }

  ghost predicate Inv(c: Config, r: Resolver) {
    && Shape(r)
    && (forall i: nat {:trigger FrameOk(c, r, i)} | i <= r.sp :: FrameOk(c, r, i))
    && (Waits(Top(r).state) ==> r.sp + 1 < MAXDEPTH && Child(r).query && Child(r).answer)
  }

  lemma {:induction false} NextMethodOk(c: Config, which: nat)
    requires which <= LOOKUP_SIZE
    ensures var (s, w) := NextMethod(c, which);
            && which <= w <= LOOKUP_SIZE
            && (s.BIND? || s.FILE? || s.SERVFAIL? || (s.CACHE? && c.cache))
    decreases LOOKUP_SIZE - which
  {
    if which < LOOKUP_SIZE && which < |c.lookup| && c.lookup[which] != '\0' { NextMethodOk(c, which + 1); }
  }

  /** Only the top frame changes, and it does not begin to wait. */
  lemma TopKeepsInv(c: Config, r: Resolver, f: Frame, running: bool, nodata: bool)
    requires Inv(c, r) && r.running && (Waits(f.state) ==> Waits(Top(r).state))
    requires FrameOk(c, SetTop(r, f).(running := running, nodata := nodata), r.sp)
    ensures Inv(c, SetTop(r, f).(running := running, nodata := nodata))
  {
    var r' := SetTop(r, f).(running := running, nodata := nodata);
    forall i: nat | i <= r'.sp ensures FrameOk(c, r', i) { assert FrameOk(c, r, i); }
  }

  lemma TryCallKeepsInv(c: Config, r: Resolver, s: Stage, r': Resolver, out: Out)
    requires Inv(c, r) && r.running && r.sp + 1 < MAXDEPTH && TryCall(r, s, r', out)
    requires Waits(s) && !Waits(Top(r).state) && Top(r).state != DONE
    requires (NeedsQuery(s) ==> Top(r).query) && (NeedsHints(s) ==> Top(r).hints) && (NeedsAnswer(s) ==> Top(r).answer)
    requires s.SMART1_A? ==> r.sp == 0 && c.smart
    ensures Inv(c, r')
  {
    forall i: nat | i <= r'.sp ensures FrameOk(c, r', i) {
      if i <= r.sp { assert FrameOk(c, r, i); }
    }
  }

  /** A frame that is done hands its answer to the frame that waits for it. */
  lemma ReturnKeepsInv(c: Config, r: Resolver)
    requires Inv(c, r) && r.running && r.sp > 0 && Top(r).state.DONE?
    ensures Inv(c, r.(sp := r.sp - 1))
  {
    var r' := r.(sp := r.sp - 1);
    assert FrameOk(c, r, r.sp);
    forall i: nat | i <= r'.sp ensures FrameOk(c, r', i) { assert FrameOk(c, r, i); }
    assert FrameOk(c, r, r.sp - 1);
  }

  /** All that a step does, short of calls and returns, is to the top frame. */
  ghost predicate AtTop(c: Config, r: Resolver, r': Resolver)
    requires Shape(r)
  {
    && Shape(r') && r'.sp == r.sp
    && r' == SetTop(r, Top(r')).(running := r'.running, nodata := r'.nodata)
    && FrameOk(c, r', r.sp) && (Waits(Top(r').state) ==> Waits(Top(r).state))
  }

  lemma AtTopKeepsInv(c: Config, r: Resolver, r': Resolver)
    requires Inv(c, r) && r.running && AtTop(c, r, r')
    ensures Inv(c, r')
  {
    TopKeepsInv(c, r, Top(r'), r'.running, r'.nodata);
  }

  /** The top frame goes on in another state. */
  lemma GoAtTop(c: Config, r: Resolver, r0: Resolver, f: Frame, s: Stage, r': Resolver, out: Out)
    requires Shape(r) && r.running && FrameOk(c, r, r.sp) && r0 == r.(nodata := r0.nodata)
    requires Go(r0, f, s, r', out) && !Waits(s)
    requires f.which <= LOOKUP_SIZE && (r.sp > 0 ==> f.query)
    requires (NeedsQuery(s) ==> f.query) && (NeedsHints(s) ==> f.hints) && (NeedsAnswer(s) ==> f.answer)
    requires (NeedsCache(s) ==> c.cache) && (s.SMART0_A? ==> r.sp == 0 && c.smart)
    ensures AtTop(c, r, r') && out.Goes?
  {
  }

  /** The call returns with an error and leaves the top frame in its state. */
  lemma FailAtTop(c: Config, r: Resolver, f: Frame, r': Resolver, out: Out)
    requires Shape(r) && r.running && FrameOk(c, r, r.sp) && Fail(r, f, r', out)
    requires f.state == Top(r).state != DONE && f.which == Top(r).which && (Top(r).query ==> f.query)
    requires (NeedsHints(f.state) ==> f.hints) && (NeedsAnswer(f.state) ==> f.answer)
    ensures AtTop(c, r, r') && out == Returns(Failure)
  {
  }

  lemma GlueStep(c: Config, r: Resolver, r': Resolver, out: Out)
    requires Shape(r) && r.running && FrameOk(c, r, r.sp) && Exec(c, r, r', out) && Top(r).state.GLUE? && r.sp > 0
    ensures AtTop(c, r, r') && (out.Returns? ==> out.code == Failure)
  {
    hide Go, Fail, AtTop, NextMethod;
    var f := Top(r);
    var a, n := f.(answer := true), f.(answer := false);
    if Go(r, n, SWITCH, r', out) {
      GoAtTop(c, r, r, n, SWITCH, r', out);
    } else if Fail(r, a, r', out) {
      FailAtTop(c, r, a, r', out);
    } else if Go(r, a, FINISH, r', out) {
      GoAtTop(c, r, r, a, FINISH, r', out);
    } else if Go(r, a, CNAME0_A, r', out) {
      GoAtTop(c, r, r, a, CNAME0_A, r', out);
    } else {
      GoAtTop(c, r, r, a, SWITCH, r', out);
    }
  }

  lemma StartStep(c: Config, r: Resolver, r': Resolver, out: Out)
    requires Shape(r) && r.running && FrameOk(c, r, r.sp) && Exec(c, r, r', out)
    requires var s := Top(r).state; s.INIT? || s.GLUE? || s.BIND?
    ensures AtTop(c, r, r') && (out.Returns? ==> out.code == Failure)
  {
    hide Go, Fail, AtTop, NextMethod;
    var f := Top(r);
    if f.state.GLUE? && r.sp > 0 {
      GlueStep(c, r, r', out);
    } else {
      GoAtTop(c, r, r, f, if f.state.INIT? then GLUE else if f.state.GLUE? then SWITCH else if r.sp == 0 then SEARCH else HINTS, r', out);
    }
  }

  lemma SwitchStep(c: Config, r: Resolver, r': Resolver, out: Out)
    requires Shape(r) && r.running && FrameOk(c, r, r.sp) && Exec(c, r, r', out) && Top(r).state.SWITCH?
    ensures AtTop(c, r, r') && (out.Returns? ==> out.code == Failure)
  {
    hide Go, Fail, AtTop, NextMethod;
    var f := Top(r);
    NextMethodOk(c, f.which);
    var (s, w) := NextMethod(c, f.which);
    if s != SERVFAIL {
      GoAtTop(c, r, r, f.(which := w), s, r', out);
    } else if r.sp == 0 && r.nodata {
      GoAtTop(c, r, r.(nodata := false), f.(which := w, answer := true), FINISH, r', out);
    } else {
      GoAtTop(c, r, r, f.(which := w), SERVFAIL, r', out);
    }
  }

  lemma ServfailStep(c: Config, r: Resolver, r': Resolver, out: Out)
    requires Shape(r) && r.running && FrameOk(c, r, r.sp) && Exec(c, r, r', out)
    requires var s := Top(r).state; s.SERVFAIL?
    ensures AtTop(c, r, r') && (out.Returns? ==> out.code == Failure)
  {
    hide Go, Fail, AtTop, NextMethod;
    var f := Top(r);
    if Fail(r, f.(answer := false), r', out) {
      FailAtTop(c, r, f.(answer := false), r', out);
    } else if Fail(r, f.(answer := true), r', out) {
      FailAtTop(c, r, f.(answer := true), r', out);
    } else if Go(r, f.(answer := true), DONE, r', out) {
      GoAtTop(c, r, r, f.(answer := true), DONE, r', out);
    }
  }

  lemma FileStep(c: Config, r: Resolver, r': Resolver, out: Out)
    requires Shape(r) && r.running && FrameOk(c, r, r.sp) && Exec(c, r, r', out)
    requires var s := Top(r).state; s.FILE?
    ensures AtTop(c, r, r') && (out.Returns? ==> out.code == Failure)
  {
    hide Go, Fail, AtTop, NextMethod;
    var f := Top(r);
    if Fail(r, f.(answer := false), r', out) {
      FailAtTop(c, r, f.(answer := false), r', out);
    } else if Go(r, f.(answer := true), FINISH, r', out) {
      GoAtTop(c, r, r, f.(answer := true), FINISH, r', out);
    } else if Go(r, f.(answer := false), SWITCH, r', out) {
      GoAtTop(c, r, r, f.(answer := false), SWITCH, r', out);
    } else if Fail(r, f, r', out) {
      FailAtTop(c, r, f, r', out);
    } else if Go(r, f, SWITCH, r', out) {
      GoAtTop(c, r, r, f, SWITCH, r', out);
    }
  }

  lemma CacheStep(c: Config, r: Resolver, r': Resolver, out: Out)
    requires Shape(r) && r.running && FrameOk(c, r, r.sp) && Exec(c, r, r', out)
    requires var s := Top(r).state; s.CACHE?
    ensures AtTop(c, r, r') && (out.Returns? ==> out.code == Failure)
  {
    hide Go, Fail, AtTop, NextMethod;
    var f := Top(r);
    if Fail(r, f, r', out) {
      FailAtTop(c, r, f, r', out);
    } else if Go(r, f.(query := true, answer := true), FINISH, r', out) {
      GoAtTop(c, r, r, f.(query := true, answer := true), FINISH, r', out);
    } else if Go(r, f.(query := true, answer := false), SWITCH, r', out) {
      GoAtTop(c, r, r, f.(query := true, answer := false), SWITCH, r', out);
    } else if Go(r, f.(query := true, answer := false), SUBMIT, r', out) {
      GoAtTop(c, r, r, f.(query := true, answer := false), SUBMIT, r', out);
    } else if Fail(r, f.(query := true, answer := false), r', out) {
      FailAtTop(c, r, f.(query := true, answer := false), r', out);
    }
  }

  lemma FetchStep(c: Config, r: Resolver, r': Resolver, out: Out)
    requires Shape(r) && r.running && FrameOk(c, r, r.sp) && Exec(c, r, r', out)
    requires var s := Top(r).state; s.SUBMIT? || s.CHECK? || s.FETCH?
    ensures AtTop(c, r, r') && (out.Returns? ==> out.code == Failure)
  {
    hide Go, Fail, AtTop, NextMethod;
    var f := Top(r);
    if Fail(r, f, r', out) {
      FailAtTop(c, r, f, r', out);
    } else if Go(r, f, CHECK, r', out) {
      GoAtTop(c, r, r, f, CHECK, r', out);
    } else if Go(r, f, FETCH, r', out) {
      GoAtTop(c, r, r, f, FETCH, r', out);
    } else if Go(r, f.(answer := true), FINISH, r', out) {
      GoAtTop(c, r, r, f.(answer := true), FINISH, r', out);
    } else if Go(r, f.(answer := false), SWITCH, r', out) {
      GoAtTop(c, r, r, f.(answer := false), SWITCH, r', out);
    } else if Fail(r, f.(answer := false), r', out) {
      FailAtTop(c, r, f.(answer := false), r', out);
    }
  }

  lemma SearchStep(c: Config, r: Resolver, r': Resolver, out: Out)
    requires Shape(r) && r.running && FrameOk(c, r, r.sp) && Exec(c, r, r', out)
    requires var s := Top(r).state; s.SEARCH? || s.HINTS? || s.ITERATE?
    ensures AtTop(c, r, r') && (out.Returns? ==> out.code == Failure)
  {
    hide Go, Fail, AtTop, NextMethod;
    var f := Top(r);
    match f.state
    case SEARCH =>
      var q := f.(query := true);
      if Go(r, f, SWITCH, r', out) {
        GoAtTop(c, r, r, f, SWITCH, r', out);
      } else if Fail(r, f, r', out) {
        FailAtTop(c, r, f, r', out);
      } else if Fail(r, q, r', out) {
        FailAtTop(c, r, q, r', out);
      } else {
        GoAtTop(c, r, r, q, HINTS, r', out);
      }
    case HINTS =>
      var h, n := f.(hints := true), f.(hints := false);
      if Fail(r, n, r', out) { FailAtTop(c, r, n, r', out); } else { GoAtTop(c, r, r, h, ITERATE, r', out); }
    case _ => GoAtTop(c, r, r, f, FOREACH_NS, r', out);
  }

  lemma ServerStep(c: Config, r: Resolver, r': Resolver, out: Out)
    requires Shape(r) && r.running && FrameOk(c, r, r.sp) && Exec(c, r, r', out)
    requires var s := Top(r).state; s.FOREACH_NS? || s.FOREACH_A? || s.RESOLV1_NS?
    ensures AtTop(c, r, r') && (out.Returns? ==> out.code == Failure)
  {
    hide Go, Fail, AtTop, NextMethod;
    var f := Top(r);
    if Go(r, f.(attempts := f.attempts + 1), ITERATE, r', out) {
      GoAtTop(c, r, r, f.(attempts := f.attempts + 1), ITERATE, r', out);
    } else if Go(r, f.(attempts := f.attempts + 1), SWITCH, r', out) {
      GoAtTop(c, r, r, f.(attempts := f.attempts + 1), SWITCH, r', out);
    } else if Go(r, f, FOREACH_A, r', out) {
      GoAtTop(c, r, r, f, FOREACH_A, r', out);
    } else if Fail(r, f, r', out) {
      FailAtTop(c, r, f, r', out);
    } else if Go(r, f, FOREACH_NS, r', out) {
      GoAtTop(c, r, r, f, FOREACH_NS, r', out);
    } else if Go(r, f, RESOLV0_NS, r', out) {
      GoAtTop(c, r, r, f, RESOLV0_NS, r', out);
    } else if Go(r, f, QUERY_A, r', out) {
      GoAtTop(c, r, r, f, QUERY_A, r', out);
    }
  }

  lemma QueryStep(c: Config, r: Resolver, r': Resolver, out: Out)
    requires Shape(r) && r.running && FrameOk(c, r, r.sp) && Exec(c, r, r', out)
    requires var s := Top(r).state; s.QUERY_A?
    ensures AtTop(c, r, r') && (out.Returns? ==> out.code == Failure)
  {
    hide Go, Fail, AtTop, NextMethod;
    var f := Top(r);
    if Go(r, f, FOREACH_A, r', out) {
      GoAtTop(c, r, r, f, FOREACH_A, r', out);
    } else if Fail(r, f, r', out) {
      FailAtTop(c, r, f, r', out);
    } else if Fail(r, f.(answer := false), r', out) {
      FailAtTop(c, r, f.(answer := false), r', out);
    } else if Fail(r, f.(answer := true), r', out) {
      FailAtTop(c, r, f.(answer := true), r', out);
    } else if Go(r, f.(answer := true), FINISH, r', out) {
      GoAtTop(c, r, r, f.(answer := true), FINISH, r', out);
    } else if Go(r, f.(answer := true), CNAME0_A, r', out) {
      GoAtTop(c, r, r, f.(answer := true), CNAME0_A, r', out);
    } else if Go(r, f.(answer := true), SEARCH, r', out) {
      GoAtTop(c, r, r, f.(answer := true), SEARCH, r', out);
    } else if Go(r.(nodata := true), f.(answer := false), SEARCH, r', out) {
      GoAtTop(c, r, r.(nodata := true), f.(answer := false), SEARCH, r', out);
    } else if Go(r, f.(answer := false, hints := true), ITERATE, r', out) {
      GoAtTop(c, r, r, f.(answer := false, hints := true), ITERATE, r', out);
    } else if Go(r, f.(answer := true), FOREACH_A, r', out) {
      GoAtTop(c, r, r, f.(answer := true), FOREACH_A, r', out);
    }
  }

  /** The states that may call, when they do not. */
  lemma CallerStep(c: Config, r: Resolver, r': Resolver, out: Out) returns (called: bool)
    requires Shape(r) && r.running && FrameOk(c, r, r.sp) && Exec(c, r, r', out)
    requires var s := Top(r).state; s.RESOLV0_NS? || s.CNAME0_A? || s.SMART0_A?
    ensures var s := Top(r).state;
            if called then
              r.sp + 1 < MAXDEPTH
              && TryCall(r, if s.RESOLV0_NS? then RESOLV1_NS else if s.CNAME0_A? then CNAME1_A else SMART1_A, r', out)
            else AtTop(c, r, r') && (out.Returns? ==> out.code == Failure)
  {
    var f := Top(r);
    called := r.sp + 1 < MAXDEPTH && !Fail(r, f, r', out) && !Go(r, f, DONE, r', out);
  }

  lemma AnswerStep(c: Config, r: Resolver, r': Resolver, out: Out)
    requires Shape(r) && r.running && FrameOk(c, r, r.sp) && Exec(c, r, r', out)
    requires var s := Top(r).state; s.CNAME1_A? || s.FINISH? || (s.SMART1_A? && Child(r).answer) || (s.DONE? && r.sp == 0)
    ensures AtTop(c, r, r') && (out.Returns? ==> out.code == Failure || (out.code == Success && Top(r).state.DONE?))
  {
  }

  /** One case of the switch keeps the invariant.  The call returns success only from the first
      frame, done and with an answer, and never for want of a query or an answer. */
  lemma ExecKeepsInv(c: Config, r: Resolver, r': Resolver, out: Out)
    requires Inv(c, r) && r.running && Exec(c, r, r', out)
    ensures Inv(c, r') && (out.Goes? <==> r'.running)
    ensures out.Returns? ==> out.code == Success || out.code == Failure
    ensures out == Returns(Success) ==> r'.sp == 0 && r'.stack[0].state == DONE && r'.stack[0].answer
  {
    RunningIffGoes(c, r, r', out);
    hide Inv, FrameOk, Exec, AtTop;
    TopOk(c, r);
    match Top(r).state
    case INIT => StartStep(c, r, r', out); AtTopKeepsInv(c, r, r');
    case GLUE => StartStep(c, r, r', out); AtTopKeepsInv(c, r, r');
    case BIND => StartStep(c, r, r', out); AtTopKeepsInv(c, r, r');
    case SWITCH => SwitchStep(c, r, r', out); AtTopKeepsInv(c, r, r');
    case FILE => FileStep(c, r, r', out); AtTopKeepsInv(c, r, r');
    case SERVFAIL => ServfailStep(c, r, r', out); AtTopKeepsInv(c, r, r');
    case CACHE => CacheStep(c, r, r', out); AtTopKeepsInv(c, r, r');
    case SUBMIT => FetchStep(c, r, r', out); AtTopKeepsInv(c, r, r');
    case CHECK => FetchStep(c, r, r', out); AtTopKeepsInv(c, r, r');
    case FETCH => FetchStep(c, r, r', out); AtTopKeepsInv(c, r, r');
    case SEARCH => SearchStep(c, r, r', out); AtTopKeepsInv(c, r, r');
    case HINTS => SearchStep(c, r, r', out); AtTopKeepsInv(c, r, r');
    case ITERATE => SearchStep(c, r, r', out); AtTopKeepsInv(c, r, r');
    case FOREACH_NS => ServerStep(c, r, r', out); AtTopKeepsInv(c, r, r');
    case FOREACH_A => ServerStep(c, r, r', out); AtTopKeepsInv(c, r, r');
    case RESOLV1_NS => ServerStep(c, r, r', out); AtTopKeepsInv(c, r, r');
    case QUERY_A => QueryStep(c, r, r', out); AtTopKeepsInv(c, r, r');
    case CNAME1_A => AnswerStep(c, r, r', out); AtTopKeepsInv(c, r, r');
    case FINISH => AnswerStep(c, r, r', out); AtTopKeepsInv(c, r, r');
    case SMART1_A => AnswerStep(c, r, r', out); AtTopKeepsInv(c, r, r');
    case DONE => DoneKeepsInv(c, r, r', out);
    case _ => CallerKeepsInv(c, r, r', out);
  }

  lemma RunningIffGoes(c: Config, r: Resolver, r': Resolver, out: Out)
    requires Shape(r) && r.running && Exec(c, r, r', out)
    ensures out.Goes? <==> r'.running
  {
    hide Top, Child, NextMethod, SetTop, SetChild;
  }

  lemma DoneKeepsInv(c: Config, r: Resolver, r': Resolver, out: Out)
    requires Inv(c, r) && r.running && Top(r).state.DONE? && Exec(c, r, r', out)
    ensures Inv(c, r')
    ensures out.Returns? ==> out.code == Success && r'.sp == 0 && r'.stack[0].state == DONE && r'.stack[0].answer
  {
    TopOk(c, r);
    if r.sp > 0 {
      ReturnKeepsInv(c, r);
    } else {
      AnswerStep(c, r, r', out);
      AtTopKeepsInv(c, r, r');
    }
  }

  lemma CallerKeepsInv(c: Config, r: Resolver, r': Resolver, out: Out)
    requires Inv(c, r) && r.running && Exec(c, r, r', out)
    requires var s := Top(r).state; s.RESOLV0_NS? || s.CNAME0_A? || s.SMART0_A?
    ensures Inv(c, r') && (out.Returns? ==> out.code == Failure)
  {
    TopOk(c, r);
    hide Exec, Inv;
    var called := CallerStep(c, r, r', out);
    if called {
      var s := Top(r).state;
      TryCallKeepsInv(c, r, if s.RESOLV0_NS? then RESOLV1_NS else if s.CNAME0_A? then CNAME1_A else SMART1_A, r', out);
    } else {
      AtTopKeepsInv(c, r, r');
    }
  }

  lemma TopOk(c: Config, r: Resolver)
    requires Inv(c, r)
    ensures Shape(r) && FrameOk(c, r, r.sp)
    ensures Waits(Top(r).state) ==> r.sp + 1 < MAXDEPTH && Child(r).query && Child(r).answer
  {
    assert FrameOk(c, r, r.sp);
  }

  // ----- Over whole runs ----------------------------------------------------------------------

  lemma CallKeepsInv(c: Config, r: Resolver, r': Resolver)
    requires Inv(c, r) && !r.running && Step(c, r, r')
    ensures Inv(c, r')
  {
    if r' == Submitted() {
      assert FrameOk(c, r', 0);
    } else {
      forall i: nat | i <= r'.sp ensures FrameOk(c, r', i) { assert FrameOk(c, r, i) && FrameOk(c, r, 0); }
      assert FrameOk(c, r, 0);
    }
  }

  lemma {:induction false} RunInv(c: Config, run: seq<Resolver>)
    requires Run(c, run)
    ensures Inv(c, run[|run| - 1])
    decreases |run|
  {
    hide Inv, Exec;
    var n := |run| - 1;
    if n == 0 {
      SubmittedInv(c);
    } else {
      RunInv(c, run[..n]);
      var r, r' := run[n - 1], run[n - 1 + 1];
      assert Step(c, r, r');
      if r.running {
        var out :| Exec(c, r, r', out);
        ExecKeepsInv(c, r, r', out);
      } else {
        CallKeepsInv(c, r, r');
      }
    }
  }

  lemma SubmittedInv(c: Config)
    ensures Inv(c, Submitted())
  {
    assert FrameOk(c, Submitted(), 0);
  }

  /** The discipline of calls and returns: the stack never overflows or underflows, each frame
      below the top waits for the frame above it, the smart lookup only at the bottom; and a
      frame that resumes finds the query it made and an answer. */
  lemma CallDiscipline(c: Config, run: seq<Resolver>, i: nat)
    requires Run(c, run)
    ensures var r := run[|run| - 1];
            && Shape(r)
            && (i < r.sp ==> var s := r.stack[i].state; s.RESOLV1_NS? || s.CNAME1_A? || (s.SMART1_A? && i == 0))
            && (Waits(Top(r).state) ==> r.sp + 1 < MAXDEPTH && Child(r).query && Child(r).answer)
            && (0 < i <= r.sp ==> r.stack[i].query)
  {
    RunInv(c, run);
    if i <= run[|run| - 1].sp { assert FrameOk(c, run[|run| - 1], i); }
  }

  /** Whatever the answers, errors and timeouts: no call returns for want of a query or an
      answer, and a call that returns success leaves an answer to fetch. */
  lemma ExitsReached(c: Config, run: seq<Resolver>, r': Resolver, out: Out)
    requires Run(c, run) && run[|run| - 1].running && Exec(c, run[|run| - 1], r', out)
    ensures out != Returns(NoQuery) && out != Returns(NoAnswer)
    ensures out == Returns(Success) ==> r'.sp == 0 && r'.stack[0].state == DONE && r'.stack[0].answer
  {
    hide Exec;
    RunInv(c, run);
    ExecKeepsInv(c, run[|run| - 1], r', out);
  }

  /** Every packet that a state reads without a check is there. */
  lemma PacketsPresent(c: Config, run: seq<Resolver>)
    requires Run(c, run) && run[|run| - 1].running
    ensures Shape(run[|run| - 1])
    ensures var r := run[|run| - 1];
            var f := Top(r);
            && (f.state.FILE? && r.sp > 0 ==> f.query)
            && (NeedsQuery(f.state) ==> f.query)
            && (NeedsHints(f.state) ==> f.hints)
            && (NeedsAnswer(f.state) ==> f.answer)
            && (NeedsCache(f.state) ==> c.cache)
  {
    RunInv(c, run);
    TopOk(c, run[|run| - 1]);
  }

  /** After an error the call can be made again: the resolver is still in a state to go on from,
      and not finished; and a finished resolver has no frame left but the first. */
  lemma ReenterOrFetch(c: Config, run: seq<Resolver>)
    requires Run(c, run) && !run[|run| - 1].running
    ensures var r := run[|run| - 1];
            && Shape(r)
            && (r.stack[0].state == DONE ==> r.sp == 0)
            && (r.stack[0].state != DONE ==> Top(r).state != DONE && Inv(c, r.(running := true)))
  {
    var r := run[|run| - 1];
    RunInv(c, run);
    assert FrameOk(c, r, 0) && FrameOk(c, r, r.sp);
    if r.stack[0].state != DONE { CallKeepsInv(c, r, r.(running := true)); }
  }
}
