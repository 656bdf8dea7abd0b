/** In which order `dns_res_exec` tries the lookup methods of the configuration, and how often it goes
    round the name servers (libs/async/src/dns/dns.c:6640-6679, 6808-6819), over stretches of a run in
    which a frame is on the stack.  The methods are read off the letters of the configuration here, not
    off the search of the resolver. */
module LookupOrder {
  import opened Resolver

  // ----- The letters ------------------------------------------------------------------------------

  /** Index `k` is in the lookup string of 36 characters, and no NUL is at `k` or between `w` and `k`. */
  predicate Within(c: Config, w: nat, k: nat) {
    w <= k < 36 && k < |c.lookup| && forall j {:trigger c.lookup[j]} | w <= j <= k :: c.lookup[j] != '\0'
  }

  predicate Names(c: Config, k: nat, s: Stage)
    requires k < |c.lookup|
  {
    match s
    case BIND => c.lookup[k] == 'b' || c.lookup[k] == 'B'
    case FILE => c.lookup[k] == 'f' || c.lookup[k] == 'F'
    case CACHE => (c.lookup[k] == 'c' || c.lookup[k] == 'C') && c.cache
    case _ => false
  }

  predicate Usable(c: Config, k: nat)
    requires k < |c.lookup|
  {
    Names(c, k, BIND) || Names(c, k, FILE) || Names(c, k, CACHE)
  }

  predicate IsMethod(s: Stage) { s.BIND? || s.FILE? || s.CACHE? }

  /** No method can be used from `w` on. */
  ghost predicate NoneLeft(c: Config, w: nat) {
    forall k: nat {:trigger Within(c, w, k)} | Within(c, w, k) :: !Usable(c, k)
  }

  /** The first letter from `w` on that names a usable method names `s`, and stands in front of `w'`. */
  ghost predicate First(c: Config, w: nat, s: Stage, w': nat) {
    && w < w' && Within(c, w, w' - 1) && Names(c, w' - 1, s)
    && forall j: nat {:trigger Usable(c, j)} | w <= j < w' - 1 :: !Usable(c, j)
  }

  lemma FirstIsLeft(c: Config, w: nat, s: Stage, w': nat)
    requires First(c, w, s, w')
    ensures IsMethod(s) && !NoneLeft(c, w) && w < w' <= 36
  {
    assert Within(c, w, w' - 1) && Usable(c, w' - 1);
  }

  lemma {:induction false} NextMethodIs(c: Config, w: nat)
    ensures var (s, w') := NextMethod(c, w);
            if IsMethod(s) then First(c, w, s, w') else s == SERVFAIL && w <= w' && NoneLeft(c, w) && NoneLeft(c, w')
    decreases LOOKUP_SIZE - w
  {
    var (s, w') := NextMethod(c, w);
    if w < LOOKUP_SIZE && w < |c.lookup| && c.lookup[w] != '\0' && !Usable(c, w) {
      NextMethodIs(c, w + 1);
      if IsMethod(s) {
        assert Within(c, w + 1, w' - 1);
      } else {
        forall k: nat | Within(c, w, k) ensures !Usable(c, k) { assert k == w || Within(c, w + 1, k); }
      }
    }
  }

  /** A frame leaves SWITCH for the name servers, the hosts file or the cache exactly if a letter that
      names such a method stands in the rest of its lookup string; then for the first of them, and goes
      on behind it.  Only if there is none the bottom frame takes the answer that was kept, if there is
      one, or else the frame gives up. */
  lemma SwitchChooses(c: Config, r: Resolver, r': Resolver, out: Out)
    requires Exec(c, r, r', out) && Top(r).state == SWITCH
    ensures out == Goes && Shape(r') && r'.sp == r.sp && r'.running == r.running
    ensures var f, f' := Top(r), Top(r');
            && r'.stack == r.stack[r.sp := f'] && f' == f.(state := f'.state, which := f'.which, answer := f'.answer)
            && (IsMethod(f'.state) <==> !NoneLeft(c, f.which))
            && if IsMethod(f'.state) then First(c, f.which, f'.state, f'.which) && f'.answer == f.answer && r'.nodata == r.nodata
               else
                 && f'.which >= f.which && NoneLeft(c, f'.which)
                 && if r.sp == 0 && r.nodata then f'.state == FINISH && f'.answer && !r'.nodata
                    else f'.state == SERVFAIL && f'.answer == f.answer && r'.nodata == r.nodata
  {
    hide NextMethod, First, NoneLeft, Names, Usable;
    NextMethodIs(c, Top(r).which);
    var f' := Top(r');
    if IsMethod(f'.state) { FirstIsLeft(c, Top(r).which, f'.state, f'.which); }
  }

  // ----- A frame on the stack -----------------------------------------------------------------------

  /** A step that does not submit anew. */
  ghost predicate Onward(c: Config, r: Resolver, r': Resolver) {
    && Step(c, r, r')
    && (!r.running ==> r'.sp == r.sp && r'.stack[1..] == r.stack[1..] && r'.stack[0] == r.stack[0].(answer := r'.stack[0].answer))
  }

  /** The states from the call of frame `d`, or from `dns_res_submit` for the bottom frame, while it stays
      on the stack: in a call of `dns_res_exec`, between calls, and while frames above it run. */
  ghost predicate OnStack(c: Config, run: seq<Resolver>, d: nat) {
    && |run| > 0 && (forall i: nat {:trigger run[i]} | i < |run| :: Shape(run[i]) && d <= run[i].sp)
    && run[0].sp == d && run[0].stack[d].state == INIT && run[0].stack[d].which == 0 && run[0].stack[d].attempts == 0
    && forall i {:trigger run[i]} | 0 < i < |run| :: Onward(c, run[i - 1], run[i])
  }

  /** The methods that the letters from `w` on name, with their places. */
  function Methods(c: Config, w: nat): seq<(Stage, nat)>
    decreases 36 - w
  {
    if !Within(c, w, w) then []
    else if Names(c, w, BIND) then [(BIND, w)] + Methods(c, w + 1)
    else if Names(c, w, FILE) then [(FILE, w)] + Methods(c, w + 1)
    else if Names(c, w, CACHE) then [(CACHE, w)] + Methods(c, w + 1)
    else Methods(c, w + 1)
  }

  predicate Enters(r: Resolver, r': Resolver, d: nat)
    requires Shape(r) && Shape(r')
  {
    r.sp == d == r'.sp && Top(r).state == SWITCH && IsMethod(Top(r').state)
  }

  /** The methods that frame `d` has entered, each with the place of its letter. */
  function Entered(run: seq<Resolver>, d: nat): seq<(Stage, nat)>
    requires forall i: nat {:trigger run[i]} | i < |run| :: Shape(run[i])
  {
    if |run| < 2 then []
    else
      var r, r' := run[|run| - 2], run[|run| - 1];
      Entered(run[..|run| - 1], d) + if Enters(r, r', d) && Top(r').which > 0 then [(Top(r').state, Top(r').which - 1)] else []
  }

  lemma {:induction false} MethodsFirst(c: Config, w: nat, s: Stage, w': nat)
    requires First(c, w, s, w')
    ensures Methods(c, w) == [(s, w' - 1)] + Methods(c, w')
    decreases w' - w
  {
    assert Within(c, w, w);
    if w' > w + 1 {
      assert !Usable(c, w);
      assert Within(c, w + 1, w' - 1);
      MethodsFirst(c, w + 1, s, w');
    }
  }

  lemma {:induction false} MethodsNone(c: Config, w: nat)
    requires NoneLeft(c, w)
    ensures Methods(c, w) == []
    decreases 36 - w
  {
    if Within(c, w, w) {
      forall k: nat | Within(c, w + 1, k) ensures !Usable(c, k) { assert Within(c, w, k); }
      MethodsNone(c, w + 1);
    }
  }

  /** Frame `d` is as it was, but for its state and packets. */
  predicate Same(r: Resolver, r': Resolver, d: nat)
    requires Shape(r)
  {
    && Shape(r')
    && (d < r.sp ==> r'.stack[d] == r.stack[d])
    && (d == r.sp ==> r'.stack[d].which == r.stack[d].which && r'.stack[d].attempts == r.stack[d].attempts)
  }

  lemma GoSame(r: Resolver, r': Resolver, out: Out, d: nat)
    requires Shape(r)
    ensures forall f, s, nodata {:trigger Go(r.(nodata := nodata), f, s, r', out)} | Go(r.(nodata := nodata), f, s, r', out) ::
              f.which == Top(r).which && f.attempts == Top(r).attempts ==> Same(r, r', d)
    ensures forall f, s {:trigger Go(r, f, s, r', out)} | Go(r, f, s, r', out) ::
              f.which == Top(r).which && f.attempts == Top(r).attempts ==> Same(r, r', d)
    ensures forall f {:trigger Fail(r, f, r', out)} | Fail(r, f, r', out) ::
              f.which == Top(r).which && f.attempts == Top(r).attempts ==> Same(r, r', d)
    ensures forall code {:trigger Exit(r, code, r', out)} | Exit(r, code, r', out) :: Same(r, r', d)
    ensures forall s {:trigger TryCall(r, s, r', out)} | r.sp + 1 < MAXDEPTH && TryCall(r, s, r', out) :: Same(r, r', d)
  {
  }

  lemma DoneSame(r: Resolver, d: nat)
    requires Shape(r) && r.sp > 0 && d <= r.sp
    ensures Same(r, r.(sp := r.sp - 1), d)
  {
  }

  /** A frame below the top stays as it is; the top frame keeps its place in the lookup string except in
      SWITCH, and its number of attempts except in FOREACH_NS. */
  lemma FrameStays(c: Config, r: Resolver, r': Resolver, out: Out, d: nat)
    requires Exec(c, r, r', out) && d <= r.sp && Top(r).state != SWITCH && Top(r).state != FOREACH_NS
    ensures Same(r, r', d)
  {
    hide NextMethod, Go, Fail, Exit, TryCall, Same;
    GoSame(r, r', out, d);
    if Top(r).state == DONE && r.sp > 0 { DoneSame(r, d); }
  }

  /** FOREACH_NS finds another name server; or it has come to their end once more, and starts again
      exactly if that is still fewer times than the configured attempts. */
  lemma RoundStep(c: Config, r: Resolver, r': Resolver, out: Out)
    requires Exec(c, r, r', out) && Top(r).state == FOREACH_NS
    ensures out == Goes && Shape(r') && r'.sp == r.sp && r' == SetTop(r, Top(r'))
    ensures var f, f' := Top(r), Top(r');
            || f' == f.(state := FOREACH_A)
            || f' == f.(attempts := f.attempts + 1, state := if f.attempts + 1 < c.attempts then ITERATE else SWITCH)
  {
  }

  /** How often frame `d` has come to the end of its name servers, and how often it has started again. */
  function Rounds(run: seq<Resolver>, d: nat): (nat, nat)
    requires forall i: nat {:trigger run[i]} | i < |run| :: Shape(run[i])
  {
    if |run| < 2 then (0, 0)
    else
      var r, r' := run[|run| - 2], run[|run| - 1];
      var (ends, again) := Rounds(run[..|run| - 1], d);
      if r.sp == d == r'.sp && Top(r).state == FOREACH_NS && Top(r').state != FOREACH_NS && Top(r').state != FOREACH_A then
        (ends + 1, if Top(r').state == ITERATE then again + 1 else again)
      else (ends, again)
  }

  lemma OnStackPrefix(c: Config, run: seq<Resolver>, d: nat)
    requires OnStack(c, run, d) && |run| >= 2
    ensures OnStack(c, run[..|run| - 1], d) && Onward(c, run[|run| - 2], run[|run| - 1])
    ensures Shape(run[|run| - 2]) && Shape(run[|run| - 1]) && d <= run[|run| - 2].sp && d <= run[|run| - 1].sp
  {
    hide Onward;
    var run' := run[..|run| - 1];
    assert Onward(c, run[|run| - 1 - 1], run[|run| - 1]);
    forall i: nat | i < |run'| ensures Shape(run'[i]) && d <= run'[i].sp { assert run'[i] == run[i]; }
    forall i | 0 < i < |run'| ensures Onward(c, run'[i - 1], run'[i]) { assert Onward(c, run[i - 1], run[i]); }
  }

  lemma CallSame(c: Config, r: Resolver, r': Resolver, d: nat)
    requires Shape(r) && Shape(r') && !r.running && Onward(c, r, r') && d <= r.sp
    ensures r'.sp == r.sp && r'.stack[d].which == r.stack[d].which && r'.stack[d].attempts == r.stack[d].attempts
    ensures r'.stack[d].state == r.stack[d].state
  {
    if d > 0 { assert r'.stack[d] == r'.stack[1..][d - 1]; }
  }

  /** The methods of a frame are entered in the order of the letters of the lookup string, none left out
      and each place once: those entered so far and those that the rest of the string names are together
      all that it names. */
  lemma {:induction false} MethodsInOrder(c: Config, run: seq<Resolver>, d: nat)
    requires OnStack(c, run, d)
    ensures Entered(run, d) + Methods(c, run[|run| - 1].stack[d].which) == Methods(c, 0)
    decreases |run|
  {
    hide Exec, Methods, Names, Onward;
    if |run| >= 2 {
      OnStackPrefix(c, run, d);
      var r, r' := run[|run| - 2], run[|run| - 1];
      MethodsInOrder(c, run[..|run| - 1], d);
      EntersNext(c, r, r', d);
    }
  }

  lemma EntersNext(c: Config, r: Resolver, r': Resolver, d: nat)
    requires Shape(r) && Shape(r') && Onward(c, r, r') && d <= r.sp && d <= r'.sp
    ensures var w, w' := r.stack[d].which, r'.stack[d].which;
            if Enters(r, r', d) then w' > 0 && Methods(c, w) == [(Top(r').state, w' - 1)] + Methods(c, w')
            else Methods(c, w') == Methods(c, w)
  {
    hide Exec, Methods, First, NoneLeft, Names;
    if !r.running {
      CallSame(c, r, r', d);
    } else {
      var out :| Exec(c, r, r', out);
      if Top(r).state == SWITCH {
        SwitchChooses(c, r, r', out);
        if d == r.sp {
          var w, w' := r.stack[d].which, r'.stack[d].which;
          if IsMethod(Top(r').state) {
            FirstIsLeft(c, w, Top(r').state, w');
            MethodsFirst(c, w, Top(r').state, w');
          } else {
            MethodsNone(c, w);
            MethodsNone(c, w');
          }
        }
      } else if Top(r).state == FOREACH_NS {
        RoundStep(c, r, r', out);
      } else {
        FrameStays(c, r, r', out, d);
      }
    }
  }

  /** The bottom frame gives an answer that was kept, and any frame gives up, only after all methods of the
      lookup string have been entered. */
  lemma GivesUpLast(c: Config, run: seq<Resolver>, r': Resolver, out: Out, d: nat)
    requires OnStack(c, run, d) && run[|run| - 1].running && run[|run| - 1].sp == d && Exec(c, run[|run| - 1], r', out)
    requires Top(run[|run| - 1]).state == SWITCH && Shape(r') && !IsMethod(Top(r').state)
    ensures Entered(run, d) == Methods(c, 0)
  {
    hide Exec, Methods, NoneLeft, First;
    MethodsInOrder(c, run, d);
    SwitchChooses(c, run[|run| - 1], r', out);
    MethodsNone(c, run[|run| - 1].stack[d].which);
  }

  lemma {:induction false} MethodsHave(c: Config, w: nat, k: nat, s: Stage)
    requires Within(c, w, k) && Names(c, k, s)
    ensures (s, k) in Methods(c, w)
    decreases 36 - w
  {
    assert Within(c, w, w);
    if k > w {
      assert Within(c, w + 1, k);
      MethodsHave(c, w + 1, k, s);
    }
  }

  lemma {:induction false} MethodsAt(c: Config, w: nat, i: nat)
    requires i < |Methods(c, w)|
    ensures var (s, k) := Methods(c, w)[i]; Within(c, w, k) && Names(c, k, s)
    ensures i > 0 ==> Methods(c, w)[i - 1].1 < Methods(c, w)[i].1
    decreases 36 - w
  {
    hide Names;
    var ms, rest := Methods(c, w), Methods(c, w + 1);
    if |ms| == |rest| {
      MethodsAt(c, w + 1, i);
    } else if i > 0 {
      assert ms[i] == rest[i - 1];
      MethodsAt(c, w + 1, i - 1);
      if i > 1 { assert ms[i - 1] == rest[i - 2]; }
    }
  }

  /** The places are those of the letters that name a usable method, in increasing order. */
  lemma MethodsAre(c: Config, w: nat)
    ensures forall s, k: nat {:trigger (s, k) in Methods(c, w)} :: (s, k) in Methods(c, w) <==> Within(c, w, k) && Names(c, k, s)
    ensures forall i {:trigger Methods(c, w)[i]} | 0 < i < |Methods(c, w)| :: Methods(c, w)[i - 1].1 < Methods(c, w)[i].1
  {
    hide Methods, Names;
    forall s, k: nat | Within(c, w, k) && Names(c, k, s) ensures (s, k) in Methods(c, w) { MethodsHave(c, w, k, s); }
    forall i: nat | i < |Methods(c, w)|
      ensures var (s, k) := Methods(c, w)[i]; Within(c, w, k) && Names(c, k, s)
      ensures i > 0 ==> Methods(c, w)[i - 1].1 < Methods(c, w)[i].1
    {
      MethodsAt(c, w, i);
    }
  }

  /** A frame comes to the end of its name servers as often as its attempts say, and starts again with
      them fewer times than the configured number. */
  lemma {:induction false} RoundsBounded(c: Config, run: seq<Resolver>, d: nat)
    requires OnStack(c, run, d)
    ensures var (ends, again) := Rounds(run, d);
            && run[|run| - 1].stack[d].attempts == ends
            && again == if ends < c.attempts then ends else if c.attempts == 0 then 0 else c.attempts - 1
    decreases |run|
  {
    hide Exec, Onward;
    if |run| >= 2 {
      OnStackPrefix(c, run, d);
      RoundsBounded(c, run[..|run| - 1], d);
      RoundNext(c, run[|run| - 2], run[|run| - 1], d);
    }
  }

  lemma RoundNext(c: Config, r: Resolver, r': Resolver, d: nat)
    requires Shape(r) && Shape(r') && Onward(c, r, r') && d <= r.sp && d <= r'.sp
    ensures var a, a' := r.stack[d].attempts, r'.stack[d].attempts;
            if r.sp == d == r'.sp && Top(r).state == FOREACH_NS && Top(r').state != FOREACH_NS && Top(r').state != FOREACH_A then
              a' == a + 1 && (Top(r').state == ITERATE <==> a + 1 < c.attempts)
            else a' == a
  {
    hide Exec, First, NoneLeft;
    if !r.running {
      CallSame(c, r, r', d);
      CallSame(c, r, r', r.sp);
    } else {
      var out :| Exec(c, r, r', out);
      if Top(r).state == SWITCH {
        SwitchChooses(c, r, r', out);
      } else if Top(r).state == FOREACH_NS {
        RoundStep(c, r, r', out);
      } else {
        FrameStays(c, r, r', out, d);
      }
    }
  }

  /** A frame is on the stack from `dns_res_submit` on, or from the step that calls it. */
  lemma FramesBegin(c: Config, r: Resolver, r': Resolver, out: Out)
    requires Exec(c, r, r', out) && Shape(r')
    ensures OnStack(c, [Submitted()], 0)
    ensures r'.sp > r.sp ==> OnStack(c, [r'], r'.sp) && r'.sp == r.sp + 1 && Top(r').query && !Top(r').answer && !Top(r').hints
  {
    hide NextMethod;
    if r'.sp > r.sp { CallBegins(c, r, r', out); }
  }

  lemma SpStays(r: Resolver, r': Resolver, out: Out)
    requires Shape(r) && Shape(r')
    ensures forall f, s, nodata {:trigger Go(r.(nodata := nodata), f, s, r', out)} | Go(r.(nodata := nodata), f, s, r', out) ::
              r'.sp == r.sp
    ensures forall f, s {:trigger Go(r, f, s, r', out)} | Go(r, f, s, r', out) :: r'.sp == r.sp
    ensures forall f {:trigger Fail(r, f, r', out)} | Fail(r, f, r', out) :: r'.sp == r.sp
    ensures forall code {:trigger Exit(r, code, r', out)} | Exit(r, code, r', out) :: r'.sp == r.sp
    ensures forall s {:trigger TryCall(r, s, r', out)} | r.sp + 1 < MAXDEPTH && TryCall(r, s, r', out) && r'.sp > r.sp ::
              r'.sp == r.sp + 1 && r'.stack[r'.sp] == Frame(INIT, 0, 0, true, false, false)
  {
  }

  lemma CallBegins(c: Config, r: Resolver, r': Resolver, out: Out)
    requires Exec(c, r, r', out) && Shape(r') && r'.sp > r.sp
    ensures r'.sp == r.sp + 1 && Top(r') == Frame(INIT, 0, 0, true, false, false)
  {
    hide NextMethod, Go, Fail, Exit, TryCall;
    SpStays(r, r', out);
    if Top(r).state == SWITCH { SwitchChooses(c, r, r', out); }
  }
}
