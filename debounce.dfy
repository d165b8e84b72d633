/** The debounce helper of public/scripts/utils/debounce.js: a wrapper whose
    every invocation clears the one pending timer and schedules `fn` again
    `duration` milliseconds later. Time is an integer clock advanced by the
    event loop; `fn` is observed only through the deadlines of the calls of
    it that ran. */
module Debounce {
  import opened Wrappers

  /** What the event loop delivers to one debounced function: an invocation
      of the wrapper at time `at`, or the clock reaching `at`, at which point a
      timer that is due runs. */
  datatype Event = Call(at: int) | Tick(at: int)

  /** The clock, the closure's single `timer` slot (the deadline of the
      pending call of `fn`, if any) and the deadlines of the calls of `fn`
      that ran, in order; each ran at a tick no earlier than its deadline. */
  datatype State = State(clock: int, timer: Option<int>, fired: seq<int>)

  /** The state right after `debounce(fn, duration)` returns: no timer. */
  function Init(now: int): (s: State)
    ensures s.clock == now && s.timer.None? && s.fired == []
  {
    State(now, None, [])
  }

  /** The clock never goes back. An invocation may find a pending call that
      is already overdue: the event loop had not yet run it, and the
      invocation cancels it. */
  predicate Enabled(s: State, e: Event) {
    s.clock <= e.at
  }

  /** One event: an invocation clears the pending timer and sets a new one for
      `duration` later, without calling `fn`; a tick runs `fn` if its timer is
      due, emptying the slot. */
  function Step(s: State, e: Event, duration: nat): (r: State)
    requires Enabled(s, e)
    ensures r.clock == e.at
    ensures r.timer.Some? ==> r.clock <= r.timer.value
    ensures e.Call? ==> r.timer == Some(e.at + duration) && r.fired == s.fired
    ensures e.Tick? ==> (|r.fired| > |s.fired| <==> s.timer.Some? && s.timer.value <= e.at)
    ensures e.Tick? && !(s.timer.Some? && s.timer.value <= e.at) ==> r.timer == s.timer
    ensures |r.fired| > |s.fired| ==> r.fired == s.fired + [s.timer.value] && r.timer.None?
    ensures |r.fired| <= |s.fired| ==> r.fired == s.fired
  {
    match e
    case Call(t) => State(t, Some(t + duration), s.fired)
    case Tick(t) =>
      if s.timer.Some? && s.timer.value <= t then State(t, None, s.fired + [s.timer.value])
      else s.(clock := t)
  }

  /** The event loop delivers every event of `es` in turn. */
  predicate Admissible(s: State, es: seq<Event>, duration: nat)
    decreases |es|
  {
    es == [] || (Enabled(s, es[0]) && Admissible(Step(s, es[0], duration), es[1..], duration))
  }

  function Run(s: State, es: seq<Event>, duration: nat): (r: State)
    requires Admissible(s, es, duration)
    ensures s.fired <= r.fired
    decreases |es|
  {
    if es == [] then s else Run(Step(s, es[0], duration), es[1..], duration)
  }

  /** Every invocation in `es` comes before the deadline of the call it
      cancels: no invocation finds a call that is due but has not yet run.
      The tick that runs a due call may still come later than its deadline. */
  predicate OnTime(s: State, es: seq<Event>, duration: nat)
    requires Admissible(s, es, duration)
    decreases |es|
  {
    es == [] ||
    ((es[0].Call? ==> s.timer.None? || es[0].at < s.timer.value) && OnTime(Step(s, es[0], duration), es[1..], duration))
  }

  /** The times of the invocations among `es`, in order. */
  function CallTimes(es: seq<Event>): (cs: seq<int>)
    ensures |cs| <= |es|
  {
    if es == [] then []
    else (if es[0].Call? then [es[0].at] else []) + CallTimes(es[1..])
  }

  /** Reference definition, independent of timers: the deadline of each
      invocation in `cs` that is not cancelled by the next invocation coming
      before that deadline. The last one always survives. */
  function Survivors(cs: seq<int>, duration: nat): (r: seq<int>)
    ensures |r| <= |cs|
    ensures cs != [] ==> r != [] && r[|r| - 1] == cs[|cs| - 1] + duration
  {
    if cs == [] then []
    else (if |cs| > 1 && cs[1] < cs[0] + duration then [] else [cs[0] + duration]) + Survivors(cs[1..], duration)
  }

  /** The survivors when a timer with deadline `deadline` may already be
      pending before the invocations `cs`. */
  function SurvivorsAfter(timer: Option<int>, cs: seq<int>, duration: nat): seq<int> {
    match timer
    case None => Survivors(cs, duration)
    case Some(deadline) => (if cs != [] && cs[0] < deadline then [] else [deadline]) + Survivors(cs, duration)
  }

  /** Every invocation in an admissible run happens no earlier than the clock. */
  lemma {:induction false} CallsNotBeforeClock(s: State, es: seq<Event>, duration: nat)
    requires Admissible(s, es, duration)
    ensures forall i :: 0 <= i < |CallTimes(es)| ==> s.clock <= CallTimes(es)[i]
    decreases |es|
  {
    if es != [] {
      CallsNotBeforeClock(Step(s, es[0], duration), es[1..], duration);
    }
  }

  /** An invocation at `t` followed by `rest` survives like a timer already
      pending for `t + duration` before `rest`. */
  lemma SurvivorsCons(t: int, rest: seq<int>, duration: nat)
    ensures Survivors([t] + rest, duration) == SurvivorsAfter(Some(t + duration), rest, duration)
  {
    var cs := [t] + rest;
    assert cs[0] == t && cs[1..] == rest;
    assert rest != [] ==> cs[1] == rest[0];
  }

  /** A timer that runs contributes its deadline to the reference sequence
      just before the invocations still to come. */
  lemma DueTimerMatchesSurvivors(fired: seq<int>, deadline: int, rest: seq<int>, duration: nat)
    requires rest != [] ==> deadline <= rest[0]
    ensures (fired + [deadline]) + SurvivorsAfter(None, rest, duration)
            == fired + SurvivorsAfter(Some(deadline), rest, duration)
  {
    assert SurvivorsAfter(Some(deadline), rest, duration) == [deadline] + Survivors(rest, duration);
  }

  /** One step of the timer slot, against the reference: given that the
      invocations still to come are not earlier than the event. */
  lemma StepMatchesSurvivors(s: State, e: Event, rest: seq<int>, duration: nat)
    requires Enabled(s, e) && (e.Call? ==> s.timer.None? || e.at < s.timer.value)
    requires rest != [] ==> e.at <= rest[0]
    ensures var r := Step(s, e, duration);
      r.fired + SurvivorsAfter(r.timer, rest, duration)
      == s.fired + SurvivorsAfter(s.timer, (if e.Call? then [e.at] else []) + rest, duration)
  {
    if e.Call? {
      CallMatchesSurvivors(s, e.at, rest, duration);
    } else {
      TickMatchesSurvivors(s, e.at, rest, duration);
    }
  }

  lemma CallMatchesSurvivors(s: State, t: int, rest: seq<int>, duration: nat)
    requires Enabled(s, Call(t)) && (s.timer.None? || t < s.timer.value)
    ensures var r := Step(s, Call(t), duration);
      r.fired + SurvivorsAfter(r.timer, rest, duration) == s.fired + SurvivorsAfter(s.timer, [t] + rest, duration)
  {
    SurvivorsCons(t, rest, duration);
  }

  lemma TickMatchesSurvivors(s: State, t: int, rest: seq<int>, duration: nat)
    requires Enabled(s, Tick(t))
    requires rest != [] ==> t <= rest[0]
    ensures var r := Step(s, Tick(t), duration);
      r.fired + SurvivorsAfter(r.timer, rest, duration) == s.fired + SurvivorsAfter(s.timer, [] + rest, duration)
  {
    assert [] + rest == rest;
    if s.timer.Some? && s.timer.value <= t {
      DueTimerMatchesSurvivors(s.fired, s.timer.value, rest, duration);
    }
  }

  /** When no invocation finds a due call that has not yet run, the calls of
      the debounced function that run are exactly those of the invocations
      that survive: the deadlines of what has run, followed by what is still
      pending, are the reference sequence of surviving deadlines. */
  lemma {:induction false} RunMatchesSurvivors(s: State, es: seq<Event>, duration: nat)
    requires Admissible(s, es, duration) && OnTime(s, es, duration)
    ensures Run(s, es, duration).fired + ToSeq(Run(s, es, duration).timer)
            == s.fired + SurvivorsAfter(s.timer, CallTimes(es), duration)
    decreases |es|
  {
    if es == [] {
      assert CallTimes(es) == [];
      match s.timer
      case None =>
      case Some(deadline) =>
    } else {
      var s' := Step(s, es[0], duration);
      var rest := CallTimes(es[1..]);
      RunMatchesSurvivors(s', es[1..], duration);
      CallsNotBeforeClock(s', es[1..], duration);
      StepMatchesSurvivors(s, es[0], rest, duration);
      assert CallTimes(es) == (if es[0].Call? then [es[0].at] else []) + rest;
    }
  }

  /** `a` is `b` with some elements left out, the rest in order. */
  predicate Subseq(a: seq<int>, b: seq<int>)
    decreases |b|
  {
    if a == [] then true
    else if b == [] then false
    else (a[0] == b[0] && Subseq(a[1..], b[1..])) || Subseq(a, b[1..])
  }

  lemma {:induction false} SubseqRefl(a: seq<int>)
    ensures Subseq(a, a)
    decreases |a|
  {
    if a != [] {
      SubseqRefl(a[1..]);
    }
  }

  lemma {:induction false} SubseqTrans(a: seq<int>, b: seq<int>, c: seq<int>)
    requires Subseq(a, b) && Subseq(b, c)
    ensures Subseq(a, c)
    decreases |c|
  {
    if a != [] {
      if Subseq(b, c[1..]) {
        SubseqTrans(a, b, c[1..]);
      } else if a[0] == b[0] && Subseq(a[1..], b[1..]) {
        SubseqTrans(a[1..], b[1..], c[1..]);
      } else {
        SubseqTrans(a, b[1..], c[1..]);
      }
    }
  }

  /** Leaving out one element gives a subsequence. */
  lemma {:induction false} SubseqDrop(x: seq<int>, d: int, y: seq<int>)
    ensures Subseq(x + y, x + [d] + y)
    decreases |x|
  {
    if x == [] {
      assert x + y == y && (x + [d] + y)[1..] == y;
      SubseqRefl(y);
    } else {
      assert (x + y)[0] == (x + [d] + y)[0];
      assert (x + y)[1..] == x[1..] + y;
      assert (x + [d] + y)[1..] == x[1..] + [d] + y;
      SubseqDrop(x[1..], d, y);
    }
  }

  /** One event against the reference, also when an invocation cancels an
      overdue call: that call's deadline is the only one the step drops. */
  lemma StepWithinSurvivors(s: State, e: Event, rest: seq<int>, duration: nat)
    requires Enabled(s, e)
    requires rest != [] ==> e.at <= rest[0]
    ensures var r := Step(s, e, duration);
      Subseq(r.fired + SurvivorsAfter(r.timer, rest, duration),
             s.fired + SurvivorsAfter(s.timer, (if e.Call? then [e.at] else []) + rest, duration))
  {
    var r := Step(s, e, duration);
    if e.Call? && s.timer.Some? && s.timer.value <= e.at {
      var y := Survivors([e.at] + rest, duration);
      SurvivorsCons(e.at, rest, duration);
      assert r.fired + SurvivorsAfter(r.timer, rest, duration) == s.fired + y;
      assert s.fired + SurvivorsAfter(s.timer, [e.at] + rest, duration) == s.fired + [s.timer.value] + y;
      SubseqDrop(s.fired, s.timer.value, y);
    } else {
      StepMatchesSurvivors(s, e, rest, duration);
      SubseqRefl(r.fired + SurvivorsAfter(r.timer, rest, duration));
    }
  }

  /** Whatever the order in which the event loop runs timers and invocations,
      only calls of surviving invocations run, each at most once and in
      order: the deadlines of what has run, followed by what is pending, are
      a subsequence of the reference. Deadlines are lost only to invocations
      that arrive while a due call has not yet run. */
  lemma {:induction false} RunWithinSurvivors(s: State, es: seq<Event>, duration: nat)
    requires Admissible(s, es, duration)
    ensures Subseq(Run(s, es, duration).fired + ToSeq(Run(s, es, duration).timer),
                   s.fired + SurvivorsAfter(s.timer, CallTimes(es), duration))
    decreases |es|
  {
    if es == [] {
      assert CallTimes(es) == [];
      assert SurvivorsAfter(s.timer, [], duration) == ToSeq(s.timer) by {
        match s.timer
        case None =>
        case Some(deadline) =>
      }
      SubseqRefl(s.fired + ToSeq(s.timer));
    } else {
      var s' := Step(s, es[0], duration);
      var rest := CallTimes(es[1..]);
      RunWithinSurvivors(s', es[1..], duration);
      CallsNotBeforeClock(s', es[1..], duration);
      StepWithinSurvivors(s, es[0], rest, duration);
      assert CallTimes(es) == (if es[0].Call? then [es[0].at] else []) + rest;
      SubseqTrans(Run(s, es, duration).fired + ToSeq(Run(s, es, duration).timer),
                  s'.fired + SurvivorsAfter(s'.timer, rest, duration),
                  s.fired + SurvivorsAfter(s.timer, CallTimes(es), duration));
    }
  }

  /** An overdue call is cancelled by the invocation that reaches the wrapper
      before the event loop runs it: with `duration` 100, invocations at 0 and
      150 and no tick in between, only the call with deadline 250 runs (at
      the tick at 300), although the reference has both deadlines. */
  lemma OverdueCallCancelled()
    ensures var es := [Call(0), Call(150), Tick(300)];
      && Admissible(Init(0), es, 100) && Run(Init(0), es, 100).fired == [250]
      && Survivors(CallTimes(es), 100) == [100, 250]
  {
    var es := [Call(0), Call(150), Tick(300)];
    assert es[1..] == [Call(150), Tick(300)] && es[1..][1..] == [Tick(300)];
    assert CallTimes(es) == [0, 150];
  }

  /** With `duration` 0, two invocations in the same task leave one call: the
      second cancels the first before the event loop can run it. */
  lemma SameInstantCallsCancel()
    ensures var es := [Call(0), Call(0), Tick(0)];
      Admissible(Init(0), es, 0) && Run(Init(0), es, 0).fired == [0]
  {
    var es := [Call(0), Call(0), Tick(0)];
    assert es[1..] == [Call(0), Tick(0)] && es[1..][1..] == [Tick(0)];
  }

  /** A burst: each invocation comes less than `duration` after the previous one. */
  predicate Burst(cs: seq<int>, duration: nat) {
    forall i :: 0 < i < |cs| ==> cs[i] < cs[i - 1] + duration
  }

  /** In a burst only the last invocation survives. */
  lemma {:induction false} BurstSurvivesOnce(cs: seq<int>, duration: nat)
    requires cs != [] && Burst(cs, duration)
    ensures Survivors(cs, duration) == [cs[|cs| - 1] + duration]
  {
    if |cs| > 1 {
      assert cs[1] < cs[0] + duration;
      BurstTail(cs, duration);
      BurstSurvivesOnce(cs[1..], duration);
    }
  }

  lemma BurstTail(cs: seq<int>, duration: nat)
    requires cs != [] && Burst(cs, duration)
    ensures Burst(cs[1..], duration)
  {
    forall i | 0 < i < |cs[1..]| ensures cs[1..][i] < cs[1..][i - 1] + duration {
      assert cs[1..][i] == cs[i + 1] && cs[1..][i - 1] == cs[i];
    }
  }

  /** In a burst no invocation finds an overdue call: each comes before the
      deadline the previous one set, and ticks in between find nothing due. */
  lemma {:induction false} BurstIsOnTime(s: State, es: seq<Event>, duration: nat)
    requires Admissible(s, es, duration) && Burst(CallTimes(es), duration)
    requires s.timer.Some? && CallTimes(es) != [] ==> CallTimes(es)[0] < s.timer.value
    ensures OnTime(s, es, duration)
    decreases |es|
  {
    if es != [] {
      var rest := CallTimes(es[1..]);
      if es[0].Call? {
        assert CallTimes(es) == [es[0].at] + rest;
        BurstTail(CallTimes(es), duration);
        assert CallTimes(es)[1..] == rest;
        if rest != [] {
          assert CallTimes(es)[1] == rest[0];
        }
      } else {
        assert CallTimes(es) == rest;
      }
      BurstIsOnTime(Step(s, es[0], duration), es[1..], duration);
    }
  }

  /** Invocations spaced at least `duration` apart all survive: none cancels another. */
  lemma {:induction false} SpacedCallsAllSurvive(cs: seq<int>, duration: nat)
    requires forall i :: 0 < i < |cs| ==> cs[i - 1] + duration <= cs[i]
    ensures |Survivors(cs, duration)| == |cs|
    ensures forall i :: 0 <= i < |cs| ==> Survivors(cs, duration)[i] == cs[i] + duration
  {
    if cs != [] {
      var tl := cs[1..];
      assert forall i :: 0 < i < |tl| ==> tl[i - 1] + duration <= tl[i] by {
        forall i | 0 < i < |tl| ensures tl[i - 1] + duration <= tl[i] {
          assert tl[i] == cs[i + 1] && tl[i - 1] == cs[i];
        }
      }
      SpacedCallsAllSurvive(tl, duration);
      var r := Survivors(cs, duration);
      assert |cs| > 1 ==> cs[0] + duration <= cs[1];
      assert r == [cs[0] + duration] + Survivors(tl, duration);
      forall i | 0 <= i < |cs| ensures r[i] == cs[i] + duration {
        if i > 0 {
          assert r[i] == Survivors(tl, duration)[i - 1] && tl[i - 1] == cs[i];
        }
      }
    }
  }

  /** For a burst of invocations after `debounce` returns, at most one call of
      `fn` runs, the one scheduled for `duration` after the last invocation:
      either it has run, at a tick no earlier than that deadline, or that is
      the deadline still pending. */
  lemma BurstFiresOnceAfterLast(now: int, es: seq<Event>, duration: nat)
    requires Admissible(Init(now), es, duration)
    requires CallTimes(es) != [] && Burst(CallTimes(es), duration)
    ensures var r := Run(Init(now), es, duration); var last := CallTimes(es)[|CallTimes(es)| - 1];
      || (r.fired == [] && r.timer == Some(last + duration))
      || (r.fired == [last + duration] && r.timer.None?)
  {
    var r := Run(Init(now), es, duration);
    BurstIsOnTime(Init(now), es, duration);
    RunMatchesSurvivors(Init(now), es, duration);
    BurstSurvivesOnce(CallTimes(es), duration);
    var last := CallTimes(es)[|CallTimes(es)| - 1];
    assert r.fired + ToSeq(r.timer) == [last + duration];
    if r.timer.Some? {
      assert |r.fired| == 0;
    }
  }

  /** The pending deadline is always the time of the most recent invocation
      plus `duration`; with no invocation the slot is as it was. */
  lemma {:induction false} TimerIsLastCallPlusDuration(s: State, es: seq<Event>, duration: nat)
    requires Admissible(s, es, duration)
    ensures var r := Run(s, es, duration); var cs := CallTimes(es);
      r.timer.Some? ==> (if cs == [] then r.timer == s.timer else r.timer.value == cs[|cs| - 1] + duration)
    decreases |es|
  {
    if es != [] {
      var s' := Step(s, es[0], duration);
      TimerIsLastCallPlusDuration(s', es[1..], duration);
      var rest := CallTimes(es[1..]);
      if es[0].Call? {
        assert CallTimes(es) == [es[0].at] + rest;
      } else {
        assert CallTimes(es) == rest;
      }
    }
  }

  /** One debounced function: the closure returned by `debounce(fn, duration)`
      with its `timer` slot; the clock and the deadlines of the calls of `fn`
      that ran belong to the environment. */
  class Debounced {
    const duration: nat
    var timer: Option<int>
    ghost var clock: int
    ghost var fired: seq<int>

    ghost function Model(): State
      reads this
    {
      State(clock, timer, fired)
    }

    constructor (duration: nat, now: int)
      ensures this.duration == duration && Model() == Init(now)
    {
      this.duration := duration;
      timer := None;
      clock := now;
      fired := [];
    }

    /** The wrapper is invoked at time `now`; it takes no arguments that reach
        `fn`. */
    method Invoke(now: int)
      requires Enabled(Model(), Call(now))
      modifies this
      ensures Model() == Step(old(Model()), Call(now), duration)
    {
      timer := Some(now + duration);  // `clearTimeout(timer)` and the new `setTimeout` in one assignment
      clock := now;
    }

    /** The clock reaches `now`; `ran` reports whether `fn` ran. */
    method Tick(now: int) returns (ran: bool)
      requires Enabled(Model(), Event.Tick(now))
      modifies this
      ensures Model() == Step(old(Model()), Event.Tick(now), duration)
      ensures ran <==> old(timer).Some? && old(timer).value <= now
    {
      clock := now;
      ran := timer.Some? && timer.value <= now;
      if ran {
        fired := fired + [timer.value];
        timer := None;
      }
    }
  }

  /** Two debounced functions have separate timer slots: re-invoking one does
      not cancel the other's pending call. */
  method SeparateSlots() returns (ranA: bool, ranB: bool)
    ensures ranA && !ranB
  {
    var a := new Debounced(100, 0);
    var b := new Debounced(100, 0);
    a.Invoke(0);
    b.Invoke(0);
    b.Invoke(50);
    ranA := a.Tick(120);
    ranB := b.Tick(120);
  }
}
