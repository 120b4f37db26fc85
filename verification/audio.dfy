/**
  The lookahead scheduler of src/audio.ts.

  The service walks a playhead over sixteenth-note steps. On each pass it schedules
  every step whose time lies before the clock reading plus a 0.1 s lookahead: a
  click on quarter notes, a rhythm hit where the current pattern has a 1 (after a
  one-bar count-in), and the pattern-complete and bar-complete callbacks at the
  ends of two-bar and one-bar cycles. While the page is hidden the service is
  silent: notes are not scheduled, but time and callbacks go on.

  The audio clock is a parameter `now`. Scheduled notes and callback invocations
  are recorded, in order, as a sequence of events.
*/
module Scheduling {
  import opened Patterns

  /** Steps of the lead-in bar, during which no hit and no callback happens. */
  const CountInSteps := 16
  /** Sixteenth-note steps per bar. */
  const StepsPerBar := 16
  /** Steps from one pattern-complete callback to the next: two bars. */
  const StepsPerPatternCycle := 32
  /** How far ahead of the clock a pass schedules, in seconds. */
  const Lookahead: real := 0.1

  /** What a pass emits: notes scheduled at a time, and callback invocations. */
  datatype Event =
    | Click(time: real)
    | Hit(time: real)
    | PatternComplete
    | BarComplete(barIndex: int)
  {
    /** A scheduled sound, as opposed to a callback invocation. */
    predicate IsNote() { Click? || Hit? }
  }

  /** Everything a step depends on besides its number and its time. */
  datatype StepContext = StepContext(
    silent: bool,
    pattern: seq<int>,
    hasPatternCompleteHandler: bool,
    hasBarCompleteHandler: bool)

  /** Seconds per sixteenth note: a quarter of a beat. */
  function SecondsPerSixteenth(bpm: real): (s: real)
    requires bpm != 0.0
    ensures bpm > 0.0 ==> s > 0.0
  {
    60.0 / bpm / 4.0
  }

  /** The playhead after j steps from t0: each `nextNote` adds one step's duration. */
  function StepTime(t0: real, step: real, j: nat): real
  {
    if j == 0 then t0 else StepTime(t0, step, j - 1) + step
  }

  /** Accumulating j steps lands where j times the step duration lands. */
  lemma {:induction false} StepTimeClosedForm(t0: real, step: real, j: nat)
    ensures StepTime(t0, step, j) == t0 + j as real * step
  {
    if j > 0 {
      StepTimeClosedForm(t0, step, j - 1);
      assert j as real * step == (j - 1) as real * step + step;
    }
  }

  /** The remainder of n divided by d; RemQuotAreModDiv ties Rem and Quot to % and /. */
  function Rem(n: nat, d: nat): (r: nat)
    requires d > 0
    ensures r < d
    decreases n
  {
    if n < d then n else Rem(n - d, d)
  }

  /** The quotient of n divided by d, by repeated subtraction. */
  function Quot(n: nat, d: nat): nat
    requires d > 0
    decreases n
  {
    if n < d then 0 else 1 + Quot(n - d, d)
  }

  /** Subtracting the divisor once lowers the quotient by one and keeps the remainder. */
  lemma DivModOfDifference(n: nat, d: nat)
    requires d > 0 && n >= d
    ensures n / d == (n - d) / d + 1 && n % d == (n - d) % d
  {
    var q, r := (n - d) / d, (n - d) % d;
    assert n == d * (q + 1) + r;
    DivModUnique(n, d, q + 1, r);
  }

  /** n = d * q + r with 0 <= r < d fixes q and r. */
  lemma DivModUnique(n: nat, d: nat, q: int, r: int)
    requires d > 0 && 0 <= r < d && n == d * q + r
    ensures n / d == q && n % d == r
  {
    var q', r' := n / d, n % d;
    assert n == d * q' + r';
    if q > q' {
      assert d * q == d * q' + d * (q - q');
      MulAtLeast(d, q - q');
    } else if q < q' {
      assert d * q' == d * q + d * (q' - q);
      MulAtLeast(d, q' - q);
    }
  }

  lemma {:induction false} MulAtLeast(d: nat, k: int)
    requires k >= 1
    ensures d * k >= d
    decreases k
  {
    if k > 1 {
      MulAtLeast(d, k - 1);
      assert d * k == d * (k - 1) + d;
    }
  }

  lemma {:induction false} RemQuotAreModDiv(n: nat, d: nat)
    requires d > 0
    ensures Rem(n, d) == n % d && Quot(n, d) == n / d
    decreases n
  {
    if n >= d {
      RemQuotAreModDiv(n - d, d);
      DivModOfDifference(n, d);
    } else {
      DivModUnique(n, d, 0, n);
    }
  }

  /** The click falls on every quarter note of the bar. */
  predicate ClickAt(beat: nat)
  {
    Rem(Rem(beat, StepsPerBar), 4) == 0
  }

  /** The rhythm plays the pattern's slot for the step, once the count-in is over. */
  predicate HitAt(beat: nat, pattern: seq<int>)
    requires IsPattern(pattern)
  {
    beat >= CountInSteps && pattern[Rem(beat, StepsPerBar)] != 0
  }

  /** The step closes a two-bar pattern cycle. */
  predicate PatternEndsAt(beat: nat)
  {
    beat >= CountInSteps && Rem(beat - CountInSteps, StepsPerPatternCycle) == StepsPerPatternCycle - 1
  }

  /** The step closes a bar after the count-in. */
  predicate BarEndsAt(beat: nat)
  {
    beat >= CountInSteps && Rem(beat - CountInSteps, StepsPerBar) == StepsPerBar - 1
  }

  /** The index of the bar a step belongs to, counting from the first bar after the count-in. */
  function BarOf(beat: nat): nat
    requires beat >= CountInSteps
  {
    Quot(beat - CountInSteps, StepsPerBar)
  }

  /** The notes of the step numbered `beat`, scheduled at `time`: `scheduleNote`
      calls, of which a silent service makes none. */
  function StepNotes(beat: nat, time: real, ctx: StepContext): (es: seq<Event>)
    requires IsPattern(ctx.pattern)
    ensures forall e :: e in es ==> e.IsNote()
  {
    (if ClickAt(beat) && !ctx.silent then [Click(time)] else []) +
    (if HitAt(beat, ctx.pattern) && !ctx.silent then [Hit(time)] else [])
  }

  /** The callback invocations of the step numbered `beat`: only registered
      handlers are invoked. */
  function StepCallbacks(beat: nat, ctx: StepContext): (es: seq<Event>)
    ensures forall e :: e in es ==> !e.IsNote()
  {
    (if PatternEndsAt(beat) && ctx.hasPatternCompleteHandler then [PatternComplete] else []) +
    (if BarEndsAt(beat) && ctx.hasBarCompleteHandler then [BarComplete(BarOf(beat))] else [])
  }

  /** Everything one iteration of the scheduler loop emits, in order. */
  function StepEvents(beat: nat, time: real, ctx: StepContext): seq<Event>
    requires IsPattern(ctx.pattern)
  {
    StepNotes(beat, time, ctx) + StepCallbacks(beat, ctx)
  }

  /** Which notes a step schedules: the click exactly on quarter notes, the hit
      exactly where the pattern has a 1 after the count-in, neither while silent. */
  lemma StepNotesRule(beat: nat, time: real, ctx: StepContext)
    requires IsPattern(ctx.pattern)
    ensures var es := StepEvents(beat, time, ctx);
      && (Click(time) in es <==> beat % StepsPerBar % 4 == 0 && !ctx.silent)
      && (Hit(time) in es <==> beat >= CountInSteps && ctx.pattern[beat % StepsPerBar] == 1 && !ctx.silent)
      && (forall e :: e in es && e.IsNote() ==> e == Click(time) || e == Hit(time))
  {
    RemQuotAreModDiv(beat, StepsPerBar);
    RemQuotAreModDiv(beat % StepsPerBar, 4);
    var notes, callbacks := StepNotes(beat, time, ctx), StepCallbacks(beat, ctx);
    assert Click(time) !in callbacks && Hit(time) !in callbacks;
  }

  /** Which callbacks a step invokes: pattern-complete on the last step of every
      two-bar cycle, bar-complete with the bar's index on the last step of every
      bar, each only when a handler is registered. */
  lemma StepCallbacksRule(beat: nat, time: real, ctx: StepContext)
    requires IsPattern(ctx.pattern)
    ensures var es := StepEvents(beat, time, ctx);
      && (PatternComplete in es <==>
           beat >= CountInSteps && (beat - CountInSteps) % StepsPerPatternCycle == StepsPerPatternCycle - 1 &&
           ctx.hasPatternCompleteHandler)
      && (forall k :: BarComplete(k) in es <==>
           beat >= CountInSteps && (beat - CountInSteps) % StepsPerBar == StepsPerBar - 1 &&
           ctx.hasBarCompleteHandler && k == (beat - CountInSteps) / StepsPerBar)
      && (forall e :: e in es && !e.IsNote() ==> e == PatternComplete || e.BarComplete?)
  {
    if beat >= CountInSteps {
      RemQuotAreModDiv(beat - CountInSteps, StepsPerPatternCycle);
      RemQuotAreModDiv(beat - CountInSteps, StepsPerBar);
    }
    var notes, callbacks := StepNotes(beat, time, ctx), StepCallbacks(beat, ctx);
    assert PatternComplete !in notes;
    assert forall k :: BarComplete(k) !in notes;
  }

  /** The order of a step assembled from an optional click, an optional hit, an
      optional pattern-complete and an optional bar-complete, in that order. */
  lemma StepOrderOfParts(es: seq<Event>, click: seq<Event>, hit: seq<Event>, pc: seq<Event>, bc: seq<Event>)
    requires es == (click + hit) + (pc + bc)
    requires click == [] || (|click| == 1 && click[0].Click?)
    requires hit == [] || (|hit| == 1 && hit[0].Hit?)
    requires pc == [] || pc == [PatternComplete]
    requires bc == [] || (|bc| == 1 && bc[0].BarComplete?)
    ensures forall i, j :: 0 <= i < j < |es| && !es[i].IsNote() ==> !es[j].IsNote()
    ensures forall j :: 0 < j < |es| ==> !es[j].Click?
    ensures PatternComplete in es ==> pc != []
    ensures pc != [] && bc != [] ==> |es| >= 2 && es[|es| - 2] == PatternComplete && es[|es| - 1].BarComplete?
  {
    var notes, callbacks := click + hit, pc + bc;
    assert forall e :: e in notes ==> e.IsNote();
    assert forall e :: e in callbacks ==> !e.IsNote();
    forall i, j | 0 <= i < j < |es| && !es[i].IsNote()
      ensures !es[j].IsNote()
    {
      assert es[i] !in notes;
      assert i >= |notes|;
      assert es[j] == callbacks[j - |notes|];
    }
  }

  /** A two-bar cycle ends on the last step of a bar. */
  lemma PatternEndIsBarEnd(beat: nat)
    requires PatternEndsAt(beat)
    ensures BarEndsAt(beat)
  {
    var n := beat - CountInSteps;
    RemQuotAreModDiv(n, StepsPerPatternCycle);
    RemQuotAreModDiv(n, StepsPerBar);
    var q := n / StepsPerPatternCycle;
    assert n == StepsPerPatternCycle * q + (StepsPerBar - 1) + StepsPerBar;
    DivModUnique(n, StepsPerBar, 2 * q + 1, StepsPerBar - 1);
  }

  /** The order within a step: notes before callbacks, the click first, and
      pattern-complete right before bar-complete. */
  lemma StepOrderRule(beat: nat, time: real, ctx: StepContext)
    requires IsPattern(ctx.pattern)
    ensures var es := StepEvents(beat, time, ctx);
      && (forall i, j :: 0 <= i < j < |es| && !es[i].IsNote() ==> !es[j].IsNote())
      && (forall j :: 0 < j < |es| ==> !es[j].Click?)
      && (PatternComplete in es && ctx.hasBarCompleteHandler ==>
           |es| >= 2 && es[|es| - 2] == PatternComplete && es[|es| - 1].BarComplete?)
  {
    var click := if ClickAt(beat) && !ctx.silent then [Click(time)] else [];
    var hit := if HitAt(beat, ctx.pattern) && !ctx.silent then [Hit(time)] else [];
    var pc := if PatternEndsAt(beat) && ctx.hasPatternCompleteHandler then [PatternComplete] else [];
    var bc := if BarEndsAt(beat) && ctx.hasBarCompleteHandler then [BarComplete(BarOf(beat))] else [];
    StepOrderOfParts(StepEvents(beat, time, ctx), click, hit, pc, bc);
    if PatternEndsAt(beat) {
      PatternEndIsBarEnd(beat);
    }
  }

  /** The events of k consecutive steps, starting with step `beat0` at time t0,
      when `emit` gives the events of one step from its number and its time. */
  function Run(emit: (nat, real) -> seq<Event>, beat0: nat, t0: real, step: real, k: nat): seq<Event>
  {
    if k == 0 then []
    else Run(emit, beat0, t0, step, k - 1) + emit(beat0 + k - 1, StepTime(t0, step, k - 1))
  }

  /** The scheduler's own step rule, for a fixed context. */
  function Emitter(ctx: StepContext): (nat, real) -> seq<Event>
    requires IsPattern(ctx.pattern)
  {
    (beat: nat, time: real) => StepEvents(beat, time, ctx)
  }

  /** The events of k consecutive steps of the scheduler. */
  function Trace(beat0: nat, t0: real, step: real, k: nat, ctx: StepContext): seq<Event>
    requires IsPattern(ctx.pattern)
  {
    Run(Emitter(ctx), beat0, t0, step, k)
  }

  /** Proof step for the scheduler loop: one more step extends the trace by that step's events. */
  lemma TraceNext(beat0: nat, t0: real, step: real, k: nat, ctx: StepContext)
    requires IsPattern(ctx.pattern)
    ensures Trace(beat0, t0, step, k + 1, ctx) == Trace(beat0, t0, step, k, ctx) + StepEvents(beat0 + k, StepTime(t0, step, k), ctx)
  {
  }

  /** A pass against clock reading `now`, starting at t0, processes exactly k steps:
      the last of them starts before the horizon, and the step after them does not. */
  predicate CatchUp(t0: real, step: real, now: real, k: nat)
  {
    (k == 0 || StepTime(t0, step, k - 1) < now + Lookahead) &&
    StepTime(t0, step, k) >= now + Lookahead
  }

  /** The outcome of one scheduling pass: starting at step beat0 at time t0 with
      clock reading `now`, it ends at step beat1 at time t1, having processed the
      steps CatchUp admits and emitted their events in order. */
  ghost predicate SchedulingPass(beat0: nat, t0: real, step: real, now: real, beat1: nat, t1: real, ctx: StepContext, events: seq<Event>)
    requires IsPattern(ctx.pattern)
  {
    beat0 <= beat1 &&
    CatchUp(t0, step, now, beat1 - beat0) &&
    t1 == StepTime(t0, step, beat1 - beat0) &&
    events == Trace(beat0, t0, step, beat1 - beat0, ctx)
  }

  /** Proof step for the scheduler loop: stopping at the first step at or past the
      horizon, having emitted the first k steps, is a scheduling pass. */
  lemma PassEnds(beat0: nat, t0: real, step: real, now: real, k: nat, ctx: StepContext, events: seq<Event>)
    requires IsPattern(ctx.pattern)
    requires CatchUp(t0, step, now, k) && events == Trace(beat0, t0, step, k, ctx)
    ensures SchedulingPass(beat0, t0, step, now, beat0 + k, StepTime(t0, step, k), ctx, events)
  {
    assert beat0 + k - beat0 == k;
  }

  // ---------------------------------------------------------------------------
  // How many steps a pass processes

  /** Only finitely many steps start before a horizon: all of them are below n. */
  lemma StepsBeforeHorizon(t0: real, step: real, horizon: real) returns (n: int)
    requires step > 0.0
    ensures forall i: nat :: StepTime(t0, step, i) < horizon ==> i < n
  {
    var q := (horizon - t0) / step;
    n := q.Floor + 1;
    forall i: nat | StepTime(t0, step, i) < horizon ensures i < n {
      StepTimeClosedForm(t0, step, i);
      assert q * step == horizon - t0;
      assert i as real < q;
    }
  }

  /** At a positive tempo, later steps start strictly later. */
  lemma {:induction false} StepTimeIncreasing(t0: real, step: real, a: nat, b: nat)
    requires step > 0.0 && a < b
    ensures StepTime(t0, step, a) < StepTime(t0, step, b)
    decreases b
  {
    if a < b - 1 {
      StepTimeIncreasing(t0, step, a, b - 1);
    }
  }

  /** The steps a pass processes are exactly the steps that start before the horizon. */
  lemma CatchUpIsHorizon(t0: real, step: real, now: real, k: nat)
    requires step > 0.0 && CatchUp(t0, step, now, k)
    ensures forall j: nat :: StepTime(t0, step, j) < now + Lookahead <==> j < k
  {
    forall j: nat
      ensures StepTime(t0, step, j) < now + Lookahead <==> j < k
    {
      if j < k - 1 {
        StepTimeIncreasing(t0, step, j, k - 1);
      } else if j > k {
        StepTimeIncreasing(t0, step, k, j);
      }
    }
  }

  /** A pass's step count is determined by its start, tempo and clock reading. */
  lemma CatchUpUnique(t0: real, step: real, now: real, k1: nat, k2: nat)
    requires step > 0.0
    requires CatchUp(t0, step, now, k1) && CatchUp(t0, step, now, k2)
    ensures k1 == k2
  {
    CatchUpIsHorizon(t0, step, now, k1);
    CatchUpIsHorizon(t0, step, now, k2);
    assert StepTime(t0, step, k1) >= now + Lookahead;
    assert StepTime(t0, step, k2) >= now + Lookahead;
  }

  /** A pass schedules nothing when the playhead is already past the horizon, and
      otherwise the smallest number of steps that carries it there: the lead it
      needs to cover is more than k - 1 steps and at most k steps. */
  lemma CatchUpCount(t0: real, step: real, now: real, k: nat)
    requires step > 0.0 && CatchUp(t0, step, now, k)
    ensures t0 >= now + Lookahead <==> k == 0
    ensures k > 0 ==> (k - 1) as real * step < now + Lookahead - t0 <= k as real * step
  {
    if k > 0 {
      CatchUpIsHorizon(t0, step, now, k);
      assert StepTime(t0, step, 0) < now + Lookahead;
      StepTimeClosedForm(t0, step, k - 1);
      StepTimeClosedForm(t0, step, k);
    }
  }

  // ---------------------------------------------------------------------------
  // Passes compose without drift

  /** j steps after the k1-th step is the (k1 + j)-th step: the playhead does not drift. */
  lemma {:induction false} StepTimeShift(t0: real, step: real, k1: nat, j: nat)
    ensures StepTime(StepTime(t0, step, k1), step, j) == StepTime(t0, step, k1 + j)
  {
    if j > 0 {
      StepTimeShift(t0, step, k1, j - 1);
    }
  }

  /** k1 steps followed by k2 more are the k1 + k2 steps of one run, whatever the step rule. */
  lemma {:induction false} RunSplit(emit: (nat, real) -> seq<Event>, beat0: nat, t0: real, step: real, k1: nat, k2: nat)
    ensures Run(emit, beat0, t0, step, k1 + k2) ==
      Run(emit, beat0, t0, step, k1) + Run(emit, beat0 + k1, StepTime(t0, step, k1), step, k2)
    decreases k2
  {
    if k2 > 0 {
      var first := Run(emit, beat0, t0, step, k1);
      var second := Run(emit, beat0 + k1, StepTime(t0, step, k1), step, k2 - 1);
      var last := emit(beat0 + k1 + k2 - 1, StepTime(t0, step, k1 + k2 - 1));
      RunSplit(emit, beat0, t0, step, k1, k2 - 1);
      StepTimeShift(t0, step, k1, k2 - 1);
      assert Run(emit, beat0 + k1, StepTime(t0, step, k1), step, k2) == second + last;
      assert (first + second) + last == first + (second + last);
    }
  }

  lemma TraceSplit(beat0: nat, t0: real, step: real, k1: nat, k2: nat, ctx: StepContext)
    requires IsPattern(ctx.pattern)
    ensures Trace(beat0, t0, step, k1 + k2, ctx) ==
      Trace(beat0, t0, step, k1, ctx) + Trace(beat0 + k1, StepTime(t0, step, k1), step, k2, ctx)
  {
    RunSplit(Emitter(ctx), beat0, t0, step, k1, k2);
  }

  /** Two consecutive passes, at any two clock readings, emit exactly what one
      uninterrupted run of their steps would, at the same times: scheduling on
      frames of any rate neither drops, repeats nor shifts a step. */
  lemma PassesCompose(beat0: nat, t0: real, step: real, now1: real, beat1: nat, t1: real, events1: seq<Event>,
                      now2: real, beat2: nat, t2: real, events2: seq<Event>, ctx: StepContext)
    requires IsPattern(ctx.pattern)
    requires SchedulingPass(beat0, t0, step, now1, beat1, t1, ctx, events1)
    requires SchedulingPass(beat1, t1, step, now2, beat2, t2, ctx, events2)
    ensures beat0 <= beat2
    ensures t2 == StepTime(t0, step, beat2 - beat0)
    ensures events1 + events2 == Trace(beat0, t0, step, beat2 - beat0, ctx)
  {
    TraceSplit(beat0, t0, step, beat1 - beat0, beat2 - beat1, ctx);
    StepTimeShift(t0, step, beat1 - beat0, beat2 - beat1);
  }

  // ---------------------------------------------------------------------------
  // Silence removes notes only

  /** The callback invocations of an event sequence, in order. */
  function Callbacks(es: seq<Event>): seq<Event>
  {
    if es == [] then []
    else (if es[0].IsNote() then [] else [es[0]]) + Callbacks(es[1..])
  }

  lemma {:induction false} CallbacksAppend(a: seq<Event>, b: seq<Event>)
    ensures Callbacks(a + b) == Callbacks(a) + Callbacks(b)
    decreases |a|
  {
    if a != [] {
      var head := if a[0].IsNote() then [] else [a[0]];
      assert (a + b)[0] == a[0];
      assert (a + b)[1..] == a[1..] + b;
      calc {
        Callbacks(a + b);
        head + Callbacks(a[1..] + b);
        { CallbacksAppend(a[1..], b); }
        head + (Callbacks(a[1..]) + Callbacks(b));
        (head + Callbacks(a[1..])) + Callbacks(b);
      }
    } else {
      assert a + b == b;
    }
  }

  lemma {:induction false} CallbacksOfNotes(es: seq<Event>)
    requires forall e :: e in es ==> e.IsNote()
    ensures Callbacks(es) == []
    decreases |es|
  {
    if es != [] {
      assert es[0] in es;
      CallbacksOfNotes(es[1..]);
    }
  }

  lemma {:induction false} CallbacksOfCallbacks(es: seq<Event>)
    requires forall e :: e in es ==> !e.IsNote()
    ensures Callbacks(es) == es
    decreases |es|
  {
    if es != [] {
      assert es[0] in es;
      CallbacksOfCallbacks(es[1..]);
    }
  }

  lemma StepSilentIsCallbacks(beat: nat, time: real, ctx: StepContext)
    requires IsPattern(ctx.pattern)
    ensures StepEvents(beat, time, ctx.(silent := true)) == Callbacks(StepEvents(beat, time, ctx.(silent := false)))
  {
    var loud := ctx.(silent := false);
    assert StepNotes(beat, time, ctx.(silent := true)) == [];
    assert StepCallbacks(beat, ctx.(silent := true)) == StepCallbacks(beat, loud);
    CallbacksAppend(StepNotes(beat, time, loud), StepCallbacks(beat, loud));
    CallbacksOfNotes(StepNotes(beat, time, loud));
    CallbacksOfCallbacks(StepCallbacks(beat, loud));
  }

  /** A run whose every step emits the callbacks of another run's step emits the
      callbacks of that whole run. */
  lemma {:induction false} RunCallbacks(quiet: (nat, real) -> seq<Event>, loud: (nat, real) -> seq<Event>,
                                        beat0: nat, t0: real, step: real, k: nat)
    requires forall beat: nat, time: real :: quiet(beat, time) == Callbacks(loud(beat, time))
    ensures Run(quiet, beat0, t0, step, k) == Callbacks(Run(loud, beat0, t0, step, k))
  {
    if k > 0 {
      var beat, time := beat0 + k - 1, StepTime(t0, step, k - 1);
      RunCallbacks(quiet, loud, beat0, t0, step, k - 1);
      CallbacksAppend(Run(loud, beat0, t0, step, k - 1), loud(beat, time));
    }
  }

  /** A silent run fires the same callbacks at the same steps as an audible one,
      and schedules no note. */
  lemma SilentTraceIsCallbacks(beat0: nat, t0: real, step: real, k: nat, ctx: StepContext)
    requires IsPattern(ctx.pattern)
    ensures Trace(beat0, t0, step, k, ctx.(silent := true)) == Callbacks(Trace(beat0, t0, step, k, ctx.(silent := false)))
  {
    var quiet, loud := Emitter(ctx.(silent := true)), Emitter(ctx.(silent := false));
    forall beat: nat, time: real ensures quiet(beat, time) == Callbacks(loud(beat, time)) {
      StepSilentIsCallbacks(beat, time, ctx);
    }
    RunCallbacks(quiet, loud, beat0, t0, step, k);
  }

  // ---------------------------------------------------------------------------
  // Callback cadence from the start of playback

  /** The arguments of the bar-complete invocations, in order. */
  function BarIndices(es: seq<Event>): (r: seq<int>)
    ensures |r| <= |es|
  {
    if es == [] then []
    else (if es[0].BarComplete? then [es[0].barIndex] else []) + BarIndices(es[1..])
  }

  lemma {:induction false} BarIndicesAppend(a: seq<Event>, b: seq<Event>)
    ensures BarIndices(a + b) == BarIndices(a) + BarIndices(b)
    decreases |a|
  {
    if a != [] {
      var head := if a[0].BarComplete? then [a[0].barIndex] else [];
      assert (a + b)[0] == a[0];
      assert (a + b)[1..] == a[1..] + b;
      calc {
        BarIndices(a + b);
        head + BarIndices(a[1..] + b);
        { BarIndicesAppend(a[1..], b); }
        head + (BarIndices(a[1..]) + BarIndices(b));
        (head + BarIndices(a[1..])) + BarIndices(b);
      }
    } else {
      assert a + b == b;
    }
  }

  lemma {:induction false} BarIndicesOfNotes(es: seq<Event>)
    requires forall e :: e in es ==> e.IsNote()
    ensures BarIndices(es) == []
    decreases |es|
  {
    if es != [] {
      assert es[0] in es;
      BarIndicesOfNotes(es[1..]);
    }
  }

  /** Bars completed after the first k steps of playback (the count-in bar excluded). */
  function CompletedBars(k: nat): nat
  {
    if k < CountInSteps then 0 else (k - CountInSteps) / StepsPerBar
  }

  /** Two-bar patterns completed after the first k steps of playback. */
  function CompletedPatterns(k: nat): nat
  {
    if k < CountInSteps then 0 else (k - CountInSteps) / StepsPerPatternCycle
  }

  /** Step k - 1 completes a bar exactly when it ends one, and carries that bar's index. */
  lemma CompletedBarsStep(k: nat)
    requires k > 0
    ensures CompletedBars(k) == CompletedBars(k - 1) + (if BarEndsAt(k - 1) then 1 else 0)
    ensures BarEndsAt(k - 1) ==> BarOf(k - 1) == CompletedBars(k - 1)
  {
    if k - 1 >= CountInSteps {
      RemQuotAreModDiv(k - 1 - CountInSteps, StepsPerBar);
      var q, r := (k - 1 - CountInSteps) / StepsPerBar, (k - 1 - CountInSteps) % StepsPerBar;
      assert k - 1 - CountInSteps == q * StepsPerBar + r;
      if r == StepsPerBar - 1 {
        assert k - CountInSteps == (q + 1) * StepsPerBar;
      } else {
        assert k - CountInSteps == q * StepsPerBar + (r + 1);
      }
    }
  }

  /** Step k - 1 completes a two-bar pattern exactly when it ends one. */
  lemma CompletedPatternsStep(k: nat)
    requires k > 0
    ensures CompletedPatterns(k) == CompletedPatterns(k - 1) + (if PatternEndsAt(k - 1) then 1 else 0)
  {
    if k - 1 >= CountInSteps {
      RemQuotAreModDiv(k - 1 - CountInSteps, StepsPerPatternCycle);
      var q, r := (k - 1 - CountInSteps) / StepsPerPatternCycle, (k - 1 - CountInSteps) % StepsPerPatternCycle;
      assert k - 1 - CountInSteps == q * StepsPerPatternCycle + r;
      if r == StepsPerPatternCycle - 1 {
        assert k - CountInSteps == (q + 1) * StepsPerPatternCycle;
      } else {
        assert k - CountInSteps == q * StepsPerPatternCycle + (r + 1);
      }
    }
  }

  /** The numbers 0, 1, ..., n - 1 in order. */
  function Naturals(n: nat): (r: seq<int>)
    ensures |r| == n
  {
    if n == 0 then [] else Naturals(n - 1) + [n - 1]
  }

  lemma StepBarIndices(beat: nat, time: real, ctx: StepContext)
    requires IsPattern(ctx.pattern)
    ensures BarIndices(StepEvents(beat, time, ctx)) ==
      if BarEndsAt(beat) && ctx.hasBarCompleteHandler then [BarOf(beat)] else []
  {
    var notes, callbacks := StepNotes(beat, time, ctx), StepCallbacks(beat, ctx);
    BarIndicesAppend(notes, callbacks);
    BarIndicesOfNotes(notes);
    var pc := if PatternEndsAt(beat) && ctx.hasPatternCompleteHandler then [PatternComplete] else [];
    var bc := if BarEndsAt(beat) && ctx.hasBarCompleteHandler then [BarComplete(BarOf(beat))] else [];
    assert callbacks == pc + bc;
    BarIndicesAppend(pc, bc);
    if pc != [] {
      assert BarIndices(pc) == BarIndices([]);
    }
    if bc != [] {
      assert BarIndices(bc) == [BarOf(beat)] + BarIndices([]);
    }
  }

  /** Appending the bar-complete arguments of step k - 1 to 0, 1, ..., n - 1 extends
      it by n exactly when that step completes bar n. */
  lemma NaturalsStep(earlier: seq<Event>, events: seq<Event>, k: nat, handler: bool)
    requires k > 0
    requires BarIndices(earlier) == if handler then Naturals(CompletedBars(k - 1)) else []
    requires BarIndices(events) == if BarEndsAt(k - 1) && handler then [BarOf(k - 1)] else []
    ensures BarIndices(earlier + events) == if handler then Naturals(CompletedBars(k)) else []
  {
    BarIndicesAppend(earlier, events);
    CompletedBarsStep(k);
    if handler && BarEndsAt(k - 1) {
      assert Naturals(CompletedBars(k)) == Naturals(CompletedBars(k - 1)) + [BarOf(k - 1)];
    } else {
      assert BarIndices(earlier) + [] == BarIndices(earlier);
    }
  }

  /** A run from step 0 whose steps each report the bar they complete reports
      bars 0, 1, 2, ... in order. */
  lemma {:induction false} RunBarIndices(emit: (nat, real) -> seq<Event>, t0: real, step: real, k: nat, handler: bool)
    requires forall beat: nat, time: real ::
      BarIndices(emit(beat, time)) == if BarEndsAt(beat) && handler then [BarOf(beat)] else []
    ensures BarIndices(Run(emit, 0, t0, step, k)) == if handler then Naturals(CompletedBars(k)) else []
  {
    if k > 0 {
      RunBarIndices(emit, t0, step, k - 1, handler);
      NaturalsStep(Run(emit, 0, t0, step, k - 1), emit(k - 1, StepTime(t0, step, k - 1)), k, handler);
    }
  }

  /** From the start of playback, bar-complete fires once per bar after the count-in,
      with arguments 0, 1, 2, ... in order. */
  lemma BarCompleteCadence(t0: real, step: real, k: nat, ctx: StepContext)
    requires IsPattern(ctx.pattern)
    ensures BarIndices(Trace(0, t0, step, k, ctx)) ==
      if ctx.hasBarCompleteHandler then Naturals(CompletedBars(k)) else []
  {
    var emit := Emitter(ctx);
    forall beat: nat, time: real
      ensures BarIndices(emit(beat, time)) == if BarEndsAt(beat) && ctx.hasBarCompleteHandler then [BarOf(beat)] else []
    {
      StepBarIndices(beat, time, ctx);
    }
    RunBarIndices(emit, t0, step, k, ctx.hasBarCompleteHandler);
  }

  /** How many pattern-complete invocations an event sequence holds. */
  function PatternCompletions(es: seq<Event>): nat
  {
    if es == [] then 0
    else (if es[0] == PatternComplete then 1 else 0) + PatternCompletions(es[1..])
  }

  lemma {:induction false} PatternCompletionsAppend(a: seq<Event>, b: seq<Event>)
    ensures PatternCompletions(a + b) == PatternCompletions(a) + PatternCompletions(b)
    decreases |a|
  {
    if a != [] {
      assert (a + b)[0] == a[0];
      assert (a + b)[1..] == a[1..] + b;
      PatternCompletionsAppend(a[1..], b);
    } else {
      assert a + b == b;
    }
  }

  lemma {:induction false} PatternCompletionsOfNotes(es: seq<Event>)
    requires forall e :: e in es ==> e.IsNote()
    ensures PatternCompletions(es) == 0
    decreases |es|
  {
    if es != [] {
      assert es[0] in es;
      PatternCompletionsOfNotes(es[1..]);
    }
  }

  lemma StepPatternCompletions(beat: nat, time: real, ctx: StepContext)
    requires IsPattern(ctx.pattern)
    ensures PatternCompletions(StepEvents(beat, time, ctx)) ==
      if PatternEndsAt(beat) && ctx.hasPatternCompleteHandler then 1 else 0
  {
    var notes, callbacks := StepNotes(beat, time, ctx), StepCallbacks(beat, ctx);
    PatternCompletionsAppend(notes, callbacks);
    PatternCompletionsOfNotes(notes);
    var pc := if PatternEndsAt(beat) && ctx.hasPatternCompleteHandler then [PatternComplete] else [];
    var bc := if BarEndsAt(beat) && ctx.hasBarCompleteHandler then [BarComplete(BarOf(beat))] else [];
    assert callbacks == pc + bc;
    PatternCompletionsAppend(pc, bc);
    if pc != [] {
      assert PatternCompletions(pc) == 1 + PatternCompletions([]);
    }
    if bc != [] {
      assert PatternCompletions(bc) == PatternCompletions([]);
    }
  }

  /** Appending the pattern-complete invocations of step k - 1 to a count of the
      patterns completed before it gives the count after it. */
  lemma PatternCountStep(earlier: seq<Event>, events: seq<Event>, k: nat, handler: bool)
    requires k > 0
    requires PatternCompletions(earlier) == if handler then CompletedPatterns(k - 1) else 0
    requires PatternCompletions(events) == if PatternEndsAt(k - 1) && handler then 1 else 0
    ensures PatternCompletions(earlier + events) == if handler then CompletedPatterns(k) else 0
  {
    PatternCompletionsAppend(earlier, events);
    CompletedPatternsStep(k);
  }

  /** A run from step 0 whose steps each report the pattern they complete counts
      the patterns completed so far. */
  lemma {:induction false} RunPatternCompletions(emit: (nat, real) -> seq<Event>, t0: real, step: real, k: nat, handler: bool)
    requires forall beat: nat, time: real ::
      PatternCompletions(emit(beat, time)) == if PatternEndsAt(beat) && handler then 1 else 0
    ensures PatternCompletions(Run(emit, 0, t0, step, k)) == if handler then CompletedPatterns(k) else 0
  {
    if k > 0 {
      RunPatternCompletions(emit, t0, step, k - 1, handler);
      PatternCountStep(Run(emit, 0, t0, step, k - 1), emit(k - 1, StepTime(t0, step, k - 1)), k, handler);
    }
  }

  /** From the start of playback, pattern-complete fires once per two bars after the count-in. */
  lemma PatternCompleteCadence(t0: real, step: real, k: nat, ctx: StepContext)
    requires IsPattern(ctx.pattern)
    ensures PatternCompletions(Trace(0, t0, step, k, ctx)) ==
      if ctx.hasPatternCompleteHandler then CompletedPatterns(k) else 0
  {
    var emit := Emitter(ctx);
    forall beat: nat, time: real
      ensures PatternCompletions(emit(beat, time)) == if PatternEndsAt(beat) && ctx.hasPatternCompleteHandler then 1 else 0
    {
      StepPatternCompletions(beat, time, ctx);
    }
    RunPatternCompletions(emit, t0, step, k, ctx.hasPatternCompleteHandler);
  }

  // ---------------------------------------------------------------------------
  // The service object

  class AudioService {
    var bpm: real
    var isPlaying: bool
    var isSilent: bool
    /** The time of the next step not yet scheduled: the playhead. */
    var nextNoteTime: real
    /** Steps scheduled since the last start. */
    var currentBeat: nat
    /** Whether `setOnPatternComplete` / `setOnBarComplete` registered a handler. */
    var hasPatternCompleteHandler: bool
    var hasBarCompleteHandler: bool
    const patternProvider: PatternProvider

    ghost predicate Valid()
      reads patternProvider
    {
      patternProvider.Valid()
    }

    /** What the next step depends on: silence, the provider's current pattern, the handlers. */
    ghost function Context(): (ctx: StepContext)
      reads this`isSilent, this`hasPatternCompleteHandler, this`hasBarCompleteHandler, patternProvider`currentPattern
    {
      StepContext(isSilent, patternProvider.currentPattern, hasPatternCompleteHandler, hasBarCompleteHandler)
    }

    /** `new AudioService(bpm, patternProvider)`; the audio context, the sound
        buffers and the visibility listener are not part of the model. */
    constructor (bpm: real, patternProvider: PatternProvider)
      requires patternProvider.Valid()
      ensures Valid()
      ensures this.bpm == bpm && this.patternProvider == patternProvider
      ensures !isPlaying && !isSilent && nextNoteTime == 0.0 && currentBeat == 0
      ensures !hasPatternCompleteHandler && !hasBarCompleteHandler
    {
      this.bpm := bpm;
      this.patternProvider := patternProvider;
      isPlaying := false;
      isSilent := false;
      nextNoteTime := 0.0;
      currentBeat := 0;
      hasPatternCompleteHandler := false;
      hasBarCompleteHandler := false;
    }

    method SetOnPatternComplete()
      modifies this`hasPatternCompleteHandler
      ensures hasPatternCompleteHandler
    {
      hasPatternCompleteHandler := true;
    }

    method SetOnBarComplete()
      modifies this`hasBarCompleteHandler
      ensures hasBarCompleteHandler
    {
      hasBarCompleteHandler := true;
    }

    /** The `visibilitychange` handler: hidden means silent; becoming visible moves
        the playhead to the clock reading, so no backlog is played at once. */
    method OnVisibilityChange(hidden: bool, now: real)
      modifies this`isSilent, this`nextNoteTime
      ensures isSilent == hidden
      ensures nextNoteTime == if hidden then old(nextNoteTime) else now
    {
      isSilent := hidden;
      if !isSilent {
        nextNoteTime := now;
      }
    }

    /** `scheduleNote`: a click or a rhythm hit at `time`, or nothing while silent. */
    method ScheduleNote(time: real, isRhythm: bool) returns (notes: seq<Event>)
      ensures isSilent ==> notes == []
      ensures !isSilent ==> notes == [if isRhythm then Hit(time) else Click(time)]
    {
      if isSilent {
        return [];
      }
      notes := [if isRhythm then Hit(time) else Click(time)];
    }

    /** `nextNote`: one sixteenth note further, at the current tempo. */
    method NextNote()
      requires bpm != 0.0
      modifies this`nextNoteTime, this`currentBeat
      ensures currentBeat == old(currentBeat) + 1
      ensures nextNoteTime == old(nextNoteTime) + SecondsPerSixteenth(bpm)
      ensures bpm > 0.0 ==> nextNoteTime > old(nextNoteTime)
    {
      var secondsPerBeat := 60.0 / bpm;
      nextNoteTime := nextNoteTime + secondsPerBeat / 4.0;
      currentBeat := currentBeat + 1;
    }

    /** A pass that started at step beat0 and time t0 in context ctx, at tempo
        step, has processed i steps: the playhead is at step beat0 + i. */
    ghost predicate AtStep(beat0: nat, t0: real, step: real, i: nat, ctx: StepContext)
      reads this, patternProvider
    {
      Valid() && Context() == ctx && IsPattern(ctx.pattern) &&
      bpm > 0.0 && step == SecondsPerSixteenth(bpm) &&
      currentBeat == beat0 + i && nextNoteTime == StepTime(t0, step, i)
    }

    /** One pass of `scheduler` at clock reading `now`: schedules every step that
        starts before now + 0.1 s, in order, and leaves the playhead past that horizon. */
    method Scheduler(now: real) returns (events: seq<Event>)
      requires Valid() && bpm > 0.0
      modifies this`currentBeat, this`nextNoteTime
      modifies patternProvider`lastPatternNumber, patternProvider`lastRhythmSeed, patternProvider`cachedPattern
      ensures Valid() && Context() == old(Context())
      ensures nextNoteTime >= now + Lookahead
      ensures SchedulingPass(old(currentBeat), old(nextNoteTime), SecondsPerSixteenth(bpm), now,
                             currentBeat, nextNoteTime, Context(), events)
    {
      var step := SecondsPerSixteenth(bpm);
      ghost var beat0, t0, ctx := currentBeat, nextNoteTime, Context();
      assert IsPattern(ctx.pattern);
      ghost var bound := StepsBeforeHorizon(t0, step, now + Lookahead);
      ghost var i: nat := 0;
      events := [];
      while nextNoteTime < now + Lookahead
        invariant AtStep(beat0, t0, step, i, ctx)
        invariant i == 0 || StepTime(t0, step, i - 1) < now + Lookahead
        invariant events == Trace(beat0, t0, step, i, ctx)
        decreases bound - i
      {
        var stepEvents := ScheduleStep(beat0, t0, step, i, ctx);
        TraceNext(beat0, t0, step, i, ctx);
        events := events + stepEvents;
        i := i + 1;
      }
      PassEnds(beat0, t0, step, now, i, ctx, events);
    }

    /** The body of the `scheduler` loop: the notes and then the callbacks of the
        step at the playhead, then `nextNote`. Seen from a pass that started at step
        beat0 and time t0 and has processed i steps in context ctx (the ghost
        parameters), it emits the pass's next step and moves the playhead to the one after. */
    method ScheduleStep(ghost beat0: nat, ghost t0: real, ghost step: real, ghost i: nat, ghost ctx: StepContext) returns (stepEvents: seq<Event>)
      requires AtStep(beat0, t0, step, i, ctx)
      modifies this`currentBeat, this`nextNoteTime
      modifies patternProvider`lastPatternNumber, patternProvider`lastRhythmSeed, patternProvider`cachedPattern
      ensures AtStep(beat0, t0, step, i + 1, ctx)
      ensures stepEvents == StepEvents(beat0 + i, StepTime(t0, step, i), ctx)
    {
      var notes := ScheduleNotes();
      var callbacks := InvokeCallbacks();
      stepEvents := notes + callbacks;
      NextNote();
    }

    /** The click on quarter notes and, after the count-in, the rhythm hit where the
        current pattern has a 1; the pattern comes from the provider's cache. */
    method ScheduleNotes() returns (notes: seq<Event>)
      requires Valid()
      modifies patternProvider`lastPatternNumber, patternProvider`lastRhythmSeed, patternProvider`cachedPattern
      ensures Valid() && Context() == old(Context())
      ensures notes == StepNotes(currentBeat, nextNoteTime, Context())
    {
      ghost var ctx := Context();
      assert IsPattern(ctx.pattern);
      var isCountIn := currentBeat < CountInSteps;
      var beatIn16th := currentBeat % StepsPerBar;
      RemQuotAreModDiv(currentBeat, StepsPerBar);
      RemQuotAreModDiv(beatIn16th, 4);

      var click := [];
      if beatIn16th % 4 == 0 {
        click := ScheduleNote(nextNoteTime, false);
      }
      assert click == if ClickAt(currentBeat) && !ctx.silent then [Click(nextNoteTime)] else [];
      var hit := [];
      if !isCountIn {
        var pattern := patternProvider.GetCurrentPattern();
        if pattern[beatIn16th] != 0 {
          hit := ScheduleNote(nextNoteTime, true);
        }
      }
      assert hit == if HitAt(currentBeat, ctx.pattern) && !ctx.silent then [Hit(nextNoteTime)] else [];
      notes := click + hit;
    }

    /** The pattern-complete and bar-complete invocations of the step at the
        playhead, in that order, each only when its handler is registered. */
    method InvokeCallbacks() returns (callbacks: seq<Event>)
      ensures callbacks == StepCallbacks(currentBeat, Context())
    {
      var isCountIn := currentBeat < CountInSteps;
      callbacks := [];
      if !isCountIn {
        RemQuotAreModDiv(currentBeat - CountInSteps, StepsPerPatternCycle);
        RemQuotAreModDiv(currentBeat - CountInSteps, StepsPerBar);
        if (currentBeat - CountInSteps) % StepsPerPatternCycle == StepsPerPatternCycle - 1 && hasPatternCompleteHandler {
          callbacks := callbacks + [PatternComplete];
        }
        if (currentBeat - CountInSteps) % StepsPerBar == StepsPerBar - 1 && hasBarCompleteHandler {
          callbacks := callbacks + [BarComplete((currentBeat - CountInSteps) / StepsPerBar)];
        }
      }
    }

    /** `setBPM`: only later steps move at the new tempo. */
    method SetBPM(bpm: real)
      modifies this`bpm
      ensures this.bpm == bpm
    {
      this.bpm := bpm;
    }

    /** `start`: a no-op while playing; otherwise playback restarts from step 0 at
        the clock reading (count-in included) and the first pass runs at once. */
    method Start(now: real) returns (events: seq<Event>)
      requires Valid()
      requires !isPlaying ==> bpm > 0.0
      modifies this`isPlaying, this`currentBeat, this`nextNoteTime
      modifies patternProvider`lastPatternNumber, patternProvider`lastRhythmSeed, patternProvider`cachedPattern
      ensures Valid() && Context() == old(Context())
      ensures old(isPlaying) ==> unchanged(this) && unchanged(patternProvider) && events == []
      ensures !old(isPlaying) ==>
                isPlaying &&
                SchedulingPass(0, now, SecondsPerSixteenth(bpm), now, currentBeat, nextNoteTime, Context(), events)
    {
      if isPlaying {
        return [];
      }
      isPlaying := true;
      currentBeat := 0;
      nextNoteTime := now;
      events := Scheduler(now);
    }

    /** `stop`: a no-op when stopped; otherwise playback stops and the playhead
        stays where it is. */
    method Stop()
      modifies this`isPlaying
      ensures !isPlaying
      ensures old(!isPlaying) ==> unchanged(this)
    {
      if !isPlaying {
        return;
      }
      isPlaying := false;
    }

    /** An animation frame: while playing, the re-armed `scheduler` runs one pass.
        The `isPlaying` test stands in for the frame that `stop` cancelled; the
        source's `scheduler` itself never reads `isPlaying`. */
    method Tick(now: real) returns (events: seq<Event>)
      requires Valid()
      requires isPlaying ==> bpm > 0.0
      modifies this`currentBeat, this`nextNoteTime
      modifies patternProvider`lastPatternNumber, patternProvider`lastRhythmSeed, patternProvider`cachedPattern
      ensures Valid() && Context() == old(Context())
      ensures !isPlaying ==> unchanged(this) && unchanged(patternProvider) && events == []
      ensures isPlaying ==>
        SchedulingPass(old(currentBeat), old(nextNoteTime), SecondsPerSixteenth(bpm), now,
                       currentBeat, nextNoteTime, Context(), events)
    {
      if !isPlaying {
        return [];
      }
      events := Scheduler(now);
    }
  }
}
