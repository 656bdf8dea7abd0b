/** From where each state of `dns_res_exec` is entered (libs/async/src/dns/dns.c:6598-7139), read the
    other way round than the code is written: by the state that follows.  In a reachable resolver a
    frame can go on in a state exactly if this says so, call exactly in three states unless it is the
    eighth, and come back exactly when it is done. */
module Transitions {
  import opened LookupOrder
  import opened Resolver

  /** The top frame can go on in state `s`. */
  ghost predicate LeadsTo(c: Config, r: Resolver, s: Stage)
    requires Shape(r)
  {
    var f, bottom, last := Top(r), r.sp == 0, r.sp == 7;
    var from := f.state;
    match s
    case INIT | RESOLV1_NS | CNAME1_A | SMART1_A => false
    case GLUE => from.INIT?
    case BIND | FILE | CACHE => from.SWITCH? && exists w' :: First(c, f.which, s, w')
    case SWITCH =>
      || from.GLUE? || from.FILE? || from.CACHE? || from.FETCH?
      || from.SEARCH? || (from.FOREACH_NS? && f.attempts + 1 >= c.attempts)
    case SERVFAIL => from.SWITCH? && NoneLeft(c, f.which) && !(bottom && r.nodata)
    case SUBMIT => from.CACHE?
    case CHECK => from.SUBMIT?
    case FETCH => from.CHECK?
    case SEARCH => (from.BIND? && bottom) || (from.QUERY_A? && !c.recurse)
    case HINTS => (from.BIND? && !bottom) || from.SEARCH?
    case ITERATE => from.HINTS? || (from.FOREACH_NS? && f.attempts + 1 < c.attempts) || (from.QUERY_A? && c.recurse)
    case FOREACH_NS => from.ITERATE? || from.FOREACH_A? || from.RESOLV1_NS? || (from.RESOLV0_NS? && last)
    case RESOLV0_NS => from.FOREACH_A?
    case FOREACH_A => from.FOREACH_NS? || from.QUERY_A?
    case QUERY_A => from.FOREACH_A?
    case CNAME0_A => from.QUERY_A? || (from.GLUE? && !bottom)
    case FINISH =>
      || from.FILE? || from.CACHE? || from.FETCH? || from.QUERY_A? || from.CNAME1_A?
      || (from.GLUE? && !bottom) || (from.CNAME0_A? && last)
      || (from.SWITCH? && NoneLeft(c, f.which) && bottom && r.nodata)
    case SMART0_A => (from.FINISH? && c.smart && bottom) || from.SMART1_A?
    case DONE => from.SERVFAIL? || (from.FINISH? && !(c.smart && bottom)) || from.SMART0_A?
  }

  /** The state in which a frame waits for the one it calls. */
  function Waiting(s: Stage): Stage
    requires s.RESOLV0_NS? || s.CNAME0_A? || s.SMART0_A?
  {
    match s
    case RESOLV0_NS => RESOLV1_NS
    case CNAME0_A => CNAME1_A
    case SMART0_A => SMART1_A
  }

  predicate Calls(s: Stage) { s.RESOLV0_NS? || s.CNAME0_A? || s.SMART0_A? }

  /** The states in which the call may return an error. */
  predicate MayFail(s: Stage, bottom: bool, last: bool) {
    match s
    case INIT | SWITCH | ITERATE | FOREACH_NS | BIND | FINISH | DONE => false
    case GLUE => !bottom
    case RESOLV0_NS | CNAME0_A | SMART0_A => !last
    case _ => true
  }

  /** What one step does: it goes on in the same frame, calls a frame, goes back to the frame below, or
      returns from `dns_res_exec`. */
  ghost predicate Moves(c: Config, r: Resolver, r': Resolver, out: Out)
    requires Shape(r) && Shape(r')
  {
    var s := Top(r).state;
    match out
    case Goes =>
      || (r'.sp == r.sp && LeadsTo(c, r, Top(r').state))
      || (r'.sp == r.sp + 1 && Calls(s) && r'.stack[r.sp] == Top(r).(state := Waiting(s)))
      || (r'.sp == r.sp - 1 && s.DONE? && r'.stack == r.stack)
    case Returns(code) =>
      && r'.sp == r.sp && Top(r').state == s
      && if code == Success then s.DONE? && r.sp == 0 && r' == r.(running := false)
         else code == Failure && MayFail(s, r.sp == 0, r.sp == 7)
  }

  lemma GoMoves(c: Config, r: Resolver, r': Resolver, out: Out)
    requires Shape(r) && Shape(r')
    ensures forall f, s, nodata {:trigger Go(r.(nodata := nodata), f, s, r', out)} | Go(r.(nodata := nodata), f, s, r', out) ::
              r'.sp == r.sp && out.Goes? && Top(r').state == s
    ensures forall f, s {:trigger Go(r, f, s, r', out)} | Go(r, f, s, r', out) ::
              r'.sp == r.sp && out.Goes? && Top(r').state == s
    ensures forall f {:trigger Fail(r, f, r', out)} | Fail(r, f, r', out) ::
              r'.sp == r.sp && Top(r').state == f.state && out == Returns(Failure)
    ensures forall s {:trigger TryCall(r, s, r', out)} | r.sp + 1 < MAXDEPTH && TryCall(r, s, r', out) ::
              if out.Goes? then r'.sp == r.sp + 1 && r'.stack[r.sp] == Top(r).(state := s)
              else r'.sp == r.sp && Top(r').state == Top(r).state && out == Returns(Failure)
  {
  }

  lemma EarlyMoves(c: Config, r: Resolver, r': Resolver, out: Out)
    requires Inv(c, r) && r.running && Exec(c, r, r', out) && Shape(r')
    requires var s := Top(r).state; s.INIT? || s.GLUE? || s.SWITCH? || s.FILE?
    ensures Moves(c, r, r', out)
  {
    TopOk(c, r);
    hide NextMethod, Go, Fail, TryCall, Inv, First, NoneLeft;
    GoMoves(c, r, r', out);
    if Top(r).state == SWITCH { SwitchChooses(c, r, r', out); }
  }

  lemma CacheMoves(c: Config, r: Resolver, r': Resolver, out: Out)
    requires Inv(c, r) && r.running && Exec(c, r, r', out) && Shape(r')
    requires var s := Top(r).state; s.CACHE? || s.SUBMIT? || s.CHECK? || s.FETCH?
    ensures Moves(c, r, r', out)
  {
    TopOk(c, r);
    hide NextMethod, Go, Fail, TryCall, Inv, First, NoneLeft;
    GoMoves(c, r, r', out);
  }

  lemma ServerMoves(c: Config, r: Resolver, r': Resolver, out: Out)
    requires Inv(c, r) && r.running && Exec(c, r, r', out) && Shape(r')
    requires var s := Top(r).state; s.BIND? || s.SEARCH? || s.HINTS? || s.ITERATE? || s.FOREACH_NS?
    ensures Moves(c, r, r', out)
  {
    TopOk(c, r);
    hide NextMethod, Go, Fail, TryCall, Inv, First, NoneLeft;
    GoMoves(c, r, r', out);
  }

  lemma AskingMoves(c: Config, r: Resolver, r': Resolver, out: Out)
    requires Inv(c, r) && r.running && Exec(c, r, r', out) && Shape(r')
    requires var s := Top(r).state; s.FOREACH_A? || s.RESOLV0_NS? || s.RESOLV1_NS? || s.CNAME0_A? || s.CNAME1_A?
    ensures Moves(c, r, r', out)
  {
    TopOk(c, r);
    hide NextMethod, Go, Fail, TryCall, Inv, First, NoneLeft;
    GoMoves(c, r, r', out);
  }

  lemma QueryMoves(c: Config, r: Resolver, r': Resolver, out: Out)
    requires Inv(c, r) && r.running && Exec(c, r, r', out) && Shape(r')
    requires var s := Top(r).state; s.QUERY_A?
    ensures Moves(c, r, r', out)
  {
    TopOk(c, r);
    hide NextMethod, Go, Fail, TryCall, Inv, First, NoneLeft;
    GoMoves(c, r, r', out);
  }

  lemma EndMoves(c: Config, r: Resolver, r': Resolver, out: Out)
    requires Inv(c, r) && r.running && Exec(c, r, r', out) && Shape(r')
    requires var s := Top(r).state; s.FINISH? || s.SMART0_A? || s.SMART1_A? || s.DONE? || s.SERVFAIL?
    ensures Moves(c, r, r', out)
  {
    TopOk(c, r);
    hide NextMethod, Go, Fail, TryCall, Inv, First, NoneLeft;
    GoMoves(c, r, r', out);
  }

  lemma StepMoves(c: Config, r: Resolver, r': Resolver, out: Out)
    requires Inv(c, r) && r.running && Exec(c, r, r', out) && Shape(r')
    ensures Moves(c, r, r', out)
  {
    TopOk(c, r);
    hide Inv, Exec, Moves;
    match Top(r).state
    case INIT | GLUE | SWITCH | FILE => EarlyMoves(c, r, r', out);
    case CACHE | SUBMIT | CHECK | FETCH => CacheMoves(c, r, r', out);
    case BIND | SEARCH | HINTS | ITERATE | FOREACH_NS => ServerMoves(c, r, r', out);
    case FOREACH_A | RESOLV0_NS | RESOLV1_NS | CNAME0_A | CNAME1_A => AskingMoves(c, r, r', out);
    case QUERY_A => QueryMoves(c, r, r', out);
    case _ => EndMoves(c, r, r', out);
  }

  function Moved(r: Resolver, f: Frame, s: Stage): (r': Resolver)
    requires Shape(r)
    ensures Shape(r') && r'.sp == r.sp && Top(r').state == s
  {
    SetTop(r, f.(state := s))
  }

  /** A resolver after the top frame has gone on in state `s`. */
  function After(c: Config, r: Resolver, s: Stage): (r': Resolver)
    requires Shape(r)
    ensures Shape(r') && r'.sp == r.sp && Top(r').state == s
  {
    var f := Top(r);
    match f.state
    case SWITCH =>
      var w := NextMethod(c, f.which).1;
      if s == FINISH then Moved(r.(nodata := false), f.(which := w, answer := true), s) else Moved(r, f.(which := w), s)
    case GLUE => if r.sp == 0 then Moved(r, f, s) else Moved(r, f.(answer := s != SWITCH), s)
    case FILE | FETCH => Moved(r, f.(answer := s == FINISH), s)
    case CACHE => Moved(r, f.(query := true, answer := s == FINISH), s)
    case SEARCH => Moved(r, if s == HINTS then f.(query := true) else f, s)
    case HINTS => Moved(r, f.(hints := true), s)
    case FOREACH_NS => Moved(r, if s == FOREACH_A then f else f.(attempts := f.attempts + 1), s)
    case QUERY_A =>
      if s == FINISH || s == CNAME0_A || (s == SEARCH && r.nodata) then Moved(r, f.(answer := true), s)
      else if s == SEARCH then Moved(r.(nodata := true), f.(answer := false), s)
      else if s == ITERATE then Moved(r, f.(answer := false, hints := true), s)
      else Moved(r, f, s)
    case CNAME1_A | SERVFAIL => Moved(r, f.(answer := true), s)
    case _ => Moved(r, f, s)
  }

  lemma FirstIsOne(c: Config, w: nat, s: Stage, w': nat, s1: Stage, w1: nat)
    requires First(c, w, s, w') && First(c, w, s1, w1)
    ensures s == s1 && w' == w1
  {
    assert Usable(c, w' - 1) && Usable(c, w1 - 1);
  }

  lemma LettersDecide(c: Config, w: nat, s: Stage)
    ensures IsMethod(s) ==> ((exists w' :: First(c, w, s, w')) <==> NextMethod(c, w).0 == s)
    ensures NoneLeft(c, w) <==> NextMethod(c, w).0 == SERVFAIL
  {
    NextMethodIs(c, w);
    var (s1, w1) := NextMethod(c, w);
    if IsMethod(s1) { FirstIsLeft(c, w, s1, w1); }
    forall w' | First(c, w, s, w') ensures s == s1 {
      FirstIsLeft(c, w, s, w');
      FirstIsOne(c, w, s, w', s1, w1);
    }
  }

  lemma AfterSwitch(c: Config, r: Resolver, s: Stage)
    requires Inv(c, r) && r.running && LeadsTo(c, r, s)
    requires var from := Top(r).state; from.SWITCH?
    ensures Exec(c, r, After(c, r, s), Goes)
  {
    TopOk(c, r);
    hide NextMethod, Inv, First, NoneLeft;
    LettersDecide(c, Top(r).which, s);
  }

  lemma AfterStart(c: Config, r: Resolver, s: Stage)
    requires Inv(c, r) && r.running && LeadsTo(c, r, s)
    requires var from := Top(r).state; from.INIT? || from.GLUE? || from.FILE?
    ensures Exec(c, r, After(c, r, s), Goes)
  {
    TopOk(c, r);
    hide NextMethod, Inv, First, NoneLeft;
  }

  lemma AfterCache(c: Config, r: Resolver, s: Stage)
    requires Inv(c, r) && r.running && LeadsTo(c, r, s)
    requires var from := Top(r).state; from.CACHE? || from.SUBMIT? || from.CHECK? || from.FETCH?
    ensures Exec(c, r, After(c, r, s), Goes)
  {
    TopOk(c, r);
    hide NextMethod, Inv, First, NoneLeft;
  }

  lemma AfterQuery(c: Config, r: Resolver, s: Stage)
    requires Inv(c, r) && r.running && LeadsTo(c, r, s)
    requires var from := Top(r).state; from.QUERY_A?
    ensures Exec(c, r, After(c, r, s), Goes)
  {
    TopOk(c, r);
    hide NextMethod, Inv, First, NoneLeft;
  }

  lemma AfterServers(c: Config, r: Resolver, s: Stage)
    requires Inv(c, r) && r.running && LeadsTo(c, r, s)
    requires var from := Top(r).state; from.BIND? || from.SEARCH? || from.HINTS? || from.ITERATE? || from.FOREACH_NS? || from.FOREACH_A?
    ensures Exec(c, r, After(c, r, s), Goes)
  {
    TopOk(c, r);
    hide NextMethod, Inv, First, NoneLeft;
  }

  lemma AfterAnswer(c: Config, r: Resolver, s: Stage)
    requires Inv(c, r) && r.running && LeadsTo(c, r, s)
    requires var from := Top(r).state; from.RESOLV0_NS? || from.RESOLV1_NS? || from.CNAME0_A? || from.CNAME1_A?
    ensures Exec(c, r, After(c, r, s), Goes)
  {
    TopOk(c, r);
    hide NextMethod, Inv, First, NoneLeft;
  }

  lemma AfterEnd(c: Config, r: Resolver, s: Stage)
    requires Inv(c, r) && r.running && LeadsTo(c, r, s)
    requires var from := Top(r).state; from.FINISH? || from.SMART0_A? || from.SMART1_A? || from.DONE? || from.SERVFAIL?
    ensures Exec(c, r, After(c, r, s), Goes)
  {
    TopOk(c, r);
    hide NextMethod, Inv, First, NoneLeft;
  }

  lemma AfterIsStep(c: Config, r: Resolver, s: Stage)
    requires Inv(c, r) && r.running && LeadsTo(c, r, s)
    ensures Exec(c, r, After(c, r, s), Goes)
  {
    TopOk(c, r);
    hide Inv, Exec, LeadsTo, After;
    match Top(r).state
    case SWITCH => AfterSwitch(c, r, s);
    case INIT | GLUE | FILE => AfterStart(c, r, s);
    case CACHE | SUBMIT | CHECK | FETCH => AfterCache(c, r, s);
    case QUERY_A => AfterQuery(c, r, s);
    case BIND | SEARCH | HINTS | ITERATE | FOREACH_NS | FOREACH_A => AfterServers(c, r, s);
    case RESOLV0_NS | RESOLV1_NS | CNAME0_A | CNAME1_A => AfterAnswer(c, r, s);
    case _ => AfterEnd(c, r, s);
  }

  ghost predicate Reachable(c: Config, r: Resolver) {
    exists run {:trigger Run(c, run)} | Run(c, run) :: run[|run| - 1] == r
  }

  lemma ReachableInv(c: Config, r: Resolver)
    requires Reachable(c, r)
    ensures Inv(c, r) && Shape(r)
  {
    var run :| Run(c, run) && run[|run| - 1] == r;
    RunInv(c, run);
  }

  /** There is a step after which the same frame is in state `s`. */
  ghost predicate CanGo(c: Config, r: Resolver, s: Stage) {
    exists r' {:trigger Exec(c, r, r', Goes)} :: Exec(c, r, r', Goes) && r'.sp == r.sp && Shape(r') && Top(r').state == s
  }

  /** There is a step that goes `d` frames up. */
  ghost predicate CanMove(c: Config, r: Resolver, d: int) {
    exists r' {:trigger Exec(c, r, r', Goes)} :: Exec(c, r, r', Goes) && r'.sp == r.sp + d
  }

  ghost predicate CanReturn(c: Config, r: Resolver, code: Code) {
    exists r' {:trigger Exec(c, r, r', Returns(code))} :: Exec(c, r, r', Returns(code))
  }

  /** Inside a call the frame on top can go on in a state exactly if `LeadsTo` says so. */
  lemma GoesOn(c: Config, r: Resolver, s: Stage)
    requires Reachable(c, r) && r.running
    ensures Shape(r)
    ensures CanGo(c, r, s) <==> LeadsTo(c, r, s)
  {
    ReachableInv(c, r);
    hide Inv, Exec, LeadsTo;
    if LeadsTo(c, r, s) {
      AfterIsStep(c, r, s);
    }
    forall r' | Exec(c, r, r', Goes) && r'.sp == r.sp && Shape(r') && Top(r').state == s ensures LeadsTo(c, r, s) {
      StepMoves(c, r, r', Goes);
    }
  }

  /** A resolver after the call has returned with an error. */
  function Failed(r: Resolver): Resolver
    requires Shape(r)
  {
    var f := Top(r);
    match f.state
    case GLUE => SetTop(r, f.(answer := true)).(running := false)
    case FILE | FETCH | SERVFAIL => SetTop(r, f.(answer := false)).(running := false)
    case CACHE => SetTop(r, f.(query := true, answer := false)).(running := false)
    case HINTS => SetTop(r, f.(hints := false)).(running := false)
    case RESOLV0_NS => if r.sp < 7 then SetChild(r, EMPTY).(running := false) else r
    case _ => SetTop(r, f).(running := false)
  }

  lemma FailedIsStep(c: Config, r: Resolver)
    requires Inv(c, r) && r.running && MayFail(Top(r).state, r.sp == 0, r.sp == 7)
    ensures Exec(c, r, Failed(r), Returns(Failure))
  {
    TopOk(c, r);
    hide Inv, NextMethod;
    if Top(r).state == RESOLV0_NS { assert Exit(SetChild(r, EMPTY.(query := false)), Failure, Failed(r), Returns(Failure)); }
  }

  lemma CallIsStep(c: Config, r: Resolver)
    requires Inv(c, r) && r.running && Calls(Top(r).state) && r.sp < 7
    ensures Exec(c, r, Call(r, Waiting(Top(r).state)), Goes)
  {
    hide Go, Fail, Exit, Call;
  }

  lemma DoneIsStep(c: Config, r: Resolver)
    requires Inv(c, r) && r.running && Top(r).state == DONE
    ensures if r.sp > 0 then Exec(c, r, r.(sp := r.sp - 1), Goes) else Exec(c, r, r.(running := false), Returns(Success))
  {
    TopOk(c, r);
    hide Inv;
  }

  /** A call to a new frame is possible exactly in three states of every frame but the eighth; a frame goes
      back to the one below it exactly when it is done; and `dns_res_exec` returns success exactly when the
      bottom frame is, and an error only in the states of `MayFail`, but in all of them. */
  lemma CallsAndReturns(c: Config, r: Resolver)
    requires Reachable(c, r) && r.running
    ensures Shape(r)
    ensures CanMove(c, r, 1) <==> Calls(Top(r).state) && r.sp < 7
    ensures CanMove(c, r, -1) <==> Top(r).state == DONE && r.sp > 0
    ensures CanReturn(c, r, Success) <==> Top(r).state == DONE && r.sp == 0
    ensures CanReturn(c, r, Failure) <==> MayFail(Top(r).state, r.sp == 0, r.sp == 7)
  {
    ReachableInv(c, r);
    forall r', out | Exec(c, r, r', out) ensures Shape(r') && Moves(c, r, r', out) {
      ExecKeepsInv(c, r, r', out);
      StepMoves(c, r, r', out);
    }
    hide Inv, Exec, LeadsTo, MayFail, Waiting;
    if Calls(Top(r).state) && r.sp < 7 { CallIsStep(c, r); }
    if Top(r).state == DONE { DoneIsStep(c, r); }
    if MayFail(Top(r).state, r.sp == 0, r.sp == 7) { FailedIsStep(c, r); }
  }

  lemma GoKeeps(r: Resolver, r': Resolver, out: Out)
    requires Shape(r) && Shape(r')
    ensures forall f, s, nodata {:trigger Go(r.(nodata := nodata), f, s, r', out)} | Go(r.(nodata := nodata), f, s, r', out) ::
              r'.nodata == nodata && Top(r') == f.(state := s)
    ensures forall f, s {:trigger Go(r, f, s, r', out)} | Go(r, f, s, r', out) :: r'.nodata == r.nodata && Top(r') == f.(state := s)
    ensures forall f {:trigger Fail(r, f, r', out)} | Fail(r, f, r', out) :: r'.nodata == r.nodata && Top(r') == f
    ensures forall code {:trigger Exit(r, code, r', out)} | Exit(r, code, r', out) :: r'.nodata == r.nodata && Top(r') == Top(r)
    ensures forall s {:trigger TryCall(r, s, r', out)} | r.sp + 1 < MAXDEPTH && TryCall(r, s, r', out) ::
              r'.nodata == r.nodata && (Top(r').state == Top(r).state || Top(r').state == INIT)
  {
  }

  /** The first answer from a name server that answers nothing is kept when the search goes on without
      recursion, and until the bottom frame, with no method left, takes it as its answer. */
  lemma KeptAnswer(c: Config, r: Resolver, r': Resolver, out: Out)
    requires Exec(c, r, r', out) && Shape(r') && Top(r).state != DONE
    ensures r'.nodata <==> (Top(r).state == QUERY_A && Top(r').state == SEARCH)
                           || (r.nodata && !(Top(r).state == SWITCH && Top(r').state == FINISH))
    ensures Top(r).state == QUERY_A && Top(r').state == SEARCH ==> !c.recurse && Top(r').answer == r.nodata
  {
    hide NextMethod, Go, Fail, Exit, TryCall;
    GoKeeps(r, r', out);
    if Top(r).state == SWITCH { SwitchChooses(c, r, r', out); }
  }
}
