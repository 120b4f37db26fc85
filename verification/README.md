# Metronome rhythm trainer: pattern generator and lookahead scheduler

This project models the two components at the core of a browser metronome that plays a click on every quarter note and a generated rhythm on top of it.

- **Pattern generator** (module `Patterns`, `pattern_provider.dfy`). Models `PatternProvider` of `src/pattern-provider.ts`.
  - A pattern is sixteen 0/1 steps.
  - For a pattern number, `getPattern` tries up to ten pseudo-random candidates. Each is seeded with `patternNumber + attempt * 31337`.
  - It keeps the first candidate that `isValid` accepts. `isValid` rejects any circular run of more than three 1s or more than four 0s. Its scan starts four positions before index 0.
  - If no candidate is accepted, `getPattern` falls back to the alternating pattern `i % 2`.
  - `getCurrentPattern` keeps a single-entry cache keyed on (pattern number, rhythm seed).
  - `seededRandom` is an arbitrary function `hash(rhythmSeed, attemptSeed, index)` held by the provider. Every property here holds whatever that function's values are.
- **Lookahead scheduler** (module `Scheduling`, `audio.dfy`). Models `AudioService` of `src/audio.ts`.
  - A pass of `scheduler` walks the playhead (`currentBeat`, `nextNoteTime`) over sixteenth-note steps until `nextNoteTime` reaches the clock reading plus 0.1 s.
  - On each step it may emit a click on a quarter note.
  - After a one-bar count-in, it may emit a rhythm hit where the current pattern has a 1.
  - It may invoke the pattern-complete callback (every two bars) and the bar-complete callback (every bar, with the bar's index).
  - While the page is hidden, notes are suppressed but everything else goes on.
  - The clock reading is a parameter `now`. Notes and callback invocations are returned in order as a sequence of `Event`s.

The generator is proved against a functional model of `getPattern` (src/pattern-provider.ts:70-85):
- `Generated` gives the pattern of a (hash, seed, pattern number).
- It starts the search at attempt 0 of `GenerateFrom`.
- `GenerateFrom` and `Attempt` walk the ten attempts, keep the first valid `Candidate`, and otherwise return `Alternating`.

The scheduler is proved against a specification:
- `StepNotes` and `StepCallbacks` hold the per-step rule of the loop body (src/audio.ts:75-95): the click and the hit, then pattern-complete and bar-complete.
- `StepEvents` gives one step's events from its number, its time and a `StepContext` (silence, pattern, registered handlers).
- `Trace` gives the events of k consecutive steps.
- `CatchUp` says how many steps a pass processes.
- `SchedulingPass` combines these into what one call of `scheduler` does.

The per-step rules, pass composition, silence and callback cadence are proved as lemmas about these functions.

## Model

| member | source | states |
|---|---|---|
| Patterns.Scan | src/pattern-provider.ts:56-58 | The values `isValid` visits are the pattern read circularly, starting four positions before index 0. |
| Patterns.ScanBoundedIffNoLongRuns | src/pattern-provider.ts:56-65 | The scan never trips a run counter if and only if the looped pattern has no run of 1s longer than 3 and no run of 0s longer than 4. Both directions are proved. |
| Patterns.IsValid | src/pattern-provider.ts:50-68 | On a 16-step pattern, the counting loop with early returns answers true exactly when the pattern has no long circular run. |
| Patterns.ConstantPatternRejected | src/pattern-provider.ts:57-65 | A pattern of sixteen equal 0/1 steps is never valid: its run is longer than either bound, and looped it never ends. |
| Patterns.Candidate | src/pattern-provider.ts:74-77 | A candidate is sixteen 0/1 steps. Step i is 1 exactly when `seededRandom` for that attempt seed and index exceeds 0.5. |
| Patterns.Alternating | src/pattern-provider.ts:84 | The fallback is a 0/1 pattern whose step i is i % 2. |
| Patterns.AlternatingHasNoLongRuns | src/pattern-provider.ts:84 | The fallback has no long circular run, so it would pass `isValid`. |
| Patterns.GenerateFrom | src/pattern-provider.ts:73-84 | Whatever attempt the search resumes at, its result is sixteen 0/1 steps. |
| Patterns.GenerateFromHasNoLongRuns | src/pattern-provider.ts:79-84 | Whatever attempt the search resumes at, its result has no long circular run. |
| Patterns.GeneratedIsValidPattern | src/pattern-provider.ts:70-85 | Every pattern `getPattern` can return is sixteen 0/1 steps and passes the validity check. |
| Patterns.GenerateFromIsFirstValid | src/pattern-provider.ts:73-84 | From any attempt on, the search returns the first valid candidate. If none is valid, it returns the alternating pattern. |
| Patterns.GeneratedIsFirstValid | src/pattern-provider.ts:70-85 | `getPattern` returns the candidate of the first of the ten attempts that is valid. If none is valid, it returns the alternating pattern. |
| Patterns.GenerateFromDependsOnAttemptsOnly | src/pattern-provider.ts:74-77 | Two hashes that agree on the values the attempts read give the same pattern from any attempt on. |
| Patterns.GeneratedDependsOnAttemptsOnly | src/pattern-provider.ts:45-48 | The pattern depends on the hash only through `seededRandom(i, patternNumber + attempt * 31337)` for the ten attempts and sixteen positions. |
| Patterns.PatternProvider.constructor | src/pattern-provider.ts:1-15 | A new provider starts at pattern number 0 with the drawn seed. The cache is empty (key -1, -1). |
| Patterns.PatternProvider.NewSeed | src/pattern-provider.ts:17-19 | The rhythm seed is replaced. The current pattern becomes that of the new seed, and the cache invariant is kept. |
| Patterns.PatternProvider.GetPattern | src/pattern-provider.ts:70-85 | The attempt loop with early return computes the generated pattern of the given number. It changes nothing, and its result is a valid 16-step 0/1 pattern. |
| Patterns.PatternProvider.GetCurrentPattern | src/pattern-provider.ts:21-35 | On a key match it returns the cached pattern and changes nothing. Otherwise it re-keys the cache with the current number and seed and stores the new pattern. Either way the result is the current number's pattern, and the cache stays coherent. |
| Patterns.PatternProvider.GetNextPattern | src/pattern-provider.ts:37-39 | Returns the pattern of the next number. It changes nothing, the cache included. |
| Patterns.PatternProvider.AdvancePattern | src/pattern-provider.ts:41-43 | The pattern number goes up by exactly one. Seed and cache are untouched, and the cache key no longer matches. |
| Scheduling.SecondsPerSixteenth | src/audio.ts:61-63 | One step lasts 60 / bpm / 4 seconds, which is positive at a positive tempo. |
| Scheduling.StepTimeClosedForm | src/audio.ts:61-65 | j accumulated `nextNote` advances put the playhead at t0 + j * step. |
| Scheduling.StepTimeIncreasing | src/audio.ts:61-65 | At a positive tempo, later steps start strictly later. |
| Scheduling.StepNotesRule | src/audio.ts:72-83 | A step emits a click exactly when currentBeat % 16 % 4 == 0 and the service is not silent. It emits a hit exactly when currentBeat >= 16, the pattern has a 1 at currentBeat % 16, and the service is not silent. It emits no other note. |
| Scheduling.StepCallbacksRule | src/audio.ts:86-95 | Pattern-complete is invoked exactly when currentBeat >= 16, (currentBeat - 16) % 32 == 31 and a handler is registered. Bar-complete(k) is invoked exactly when (currentBeat - 16) % 16 == 15, a handler is registered and k == (currentBeat - 16) / 16. Nothing else is invoked, and nothing during the count-in. |
| Scheduling.PatternEndIsBarEnd | src/audio.ts:88-92 | Every step that completes a two-bar pattern also completes a bar. |
| Scheduling.StepOrderRule | src/audio.ts:75-95 | Within a step, notes come before callbacks and the click comes first. When both callbacks fire, pattern-complete comes right before bar-complete. |
| Scheduling.StepsBeforeHorizon | src/audio.ts:71 | At a positive tempo only finitely many steps start before the horizon, so the loop terminates over exact reals. |
| Scheduling.CatchUpIsHorizon | src/audio.ts:71 | The steps a pass processes are exactly the steps that start before now + 0.1. |
| Scheduling.CatchUpUnique | src/audio.ts:71-98 | The number of steps a pass processes is determined by the playhead, the tempo and the clock reading. |
| Scheduling.CatchUpCount | src/audio.ts:71-98 | A pass processes nothing if the playhead is at or past the horizon. Otherwise it processes the least k with (k - 1) * step < horizon - t0 <= k * step. |
| Scheduling.StepTimeShift | src/audio.ts:61-65 | Steps counted from a later playhead land on the same times as steps counted from the start, so the playhead does not drift. |
| Scheduling.RunSplit | src/audio.ts:67-99 | k1 steps followed by k2 more emit what k1 + k2 steps emit, whatever the step rule. |
| Scheduling.TraceSplit | src/audio.ts:67-99 | The same split for the scheduler's own step rule. |
| Scheduling.PassesCompose | src/audio.ts:67-99 | Two consecutive passes at any two clock readings, at one tempo and in one context (pattern, silence, handlers), emit exactly one uninterrupted run of their steps, at the same times. No step is dropped, repeated or shifted by frame timing. |
| Scheduling.StepSilentIsCallbacks | src/audio.ts:52-53 | A silent step emits exactly the callbacks of the same audible step. |
| Scheduling.RunCallbacks | src/audio.ts:71-98 | When each step of one run emits the callbacks of another run's step, the whole run emits the other run's callbacks. |
| Scheduling.SilentTraceIsCallbacks | src/audio.ts:52-53 | Over any number of steps, silence removes the notes and nothing else. The callbacks, their order and their arguments are those of the audible run. |
| Scheduling.CompletedBarsStep | src/audio.ts:92-93 | Step k - 1 raises the count of completed bars by one exactly when it ends a bar, and it reports that bar's index. |
| Scheduling.CompletedPatternsStep | src/audio.ts:88-89 | Step k - 1 raises the count of completed two-bar patterns by one exactly when it ends one. |
| Scheduling.StepBarIndices | src/audio.ts:92-93 | A step reports the index of the bar it ends, if a handler is registered, and nothing otherwise. |
| Scheduling.RunBarIndices | src/audio.ts:92-93 | A run from step 0 whose steps report the bars they end reports bars 0, 1, 2, ... in order. |
| Scheduling.BarCompleteCadence | src/audio.ts:92-93 | From the start of playback, bar-complete is invoked once per completed bar after the count-in, with arguments 0, 1, 2, ... in order. |
| Scheduling.StepPatternCompletions | src/audio.ts:88-89 | A step invokes pattern-complete once if it ends a two-bar cycle and a handler is registered, and otherwise not at all. |
| Scheduling.RunPatternCompletions | src/audio.ts:88-89 | A run from step 0 invokes pattern-complete once per completed two-bar cycle. |
| Scheduling.PatternCompleteCadence | src/audio.ts:88-89 | From the start of playback, pattern-complete is invoked once per two completed bars after the count-in. |
| Scheduling.AudioService.constructor | src/audio.ts:4-23 | A new service is stopped and audible, with the playhead at step 0, time 0, and no handler registered. |
| Scheduling.AudioService.SetOnPatternComplete | src/audio.ts:44-46 | A pattern-complete handler is registered. |
| Scheduling.AudioService.SetOnBarComplete | src/audio.ts:48-50 | A bar-complete handler is registered. |
| Scheduling.AudioService.OnVisibilityChange | src/audio.ts:26-32 | Hidden means silent. Becoming visible moves the playhead time to the clock reading. Becoming hidden leaves it as it was. |
| Scheduling.AudioService.ScheduleNote | src/audio.ts:52-59 | A silent service schedules nothing. Otherwise it schedules one hit or click at the given time. |
| Scheduling.AudioService.NextNote | src/audio.ts:61-65 | The step counter goes up by exactly one and the playhead time by 60 / bpm / 4. At a positive tempo the playhead moves strictly forward. |
| Scheduling.AudioService.ScheduleNotes | src/audio.ts:72-83 | The notes of the step at the playhead are those of the step rule. The pattern comes from the provider's cache, which stays coherent. |
| Scheduling.AudioService.InvokeCallbacks | src/audio.ts:86-95 | The callback invocations of the step at the playhead are those of the step rule. |
| Scheduling.AudioService.ScheduleStep | src/audio.ts:72-97 | One loop iteration emits the pass's next step and moves the playhead to the step after it. |
| Scheduling.AudioService.Scheduler | src/audio.ts:67-100 | At a positive tempo, the loop terminates with nextNoteTime >= now + 0.1. It processes exactly the steps that started before the horizon and emits their events in order. The context is unchanged. |
| Scheduling.AudioService.SetBPM | src/audio.ts:102-104 | Only the tempo changes, so only later advances move at the new tempo. |
| Scheduling.AudioService.Start | src/audio.ts:106-118 | While playing it changes nothing and emits nothing. Otherwise playback restarts at step 0 at the clock reading and the first pass runs at once. |
| Scheduling.AudioService.Stop | src/audio.ts:120-125 | When stopped it changes nothing. Otherwise playback stops and the playhead stays where it is. |
| Scheduling.AudioService.Tick | src/audio.ts:99 | An animation frame runs one pass while playing. A stopped service, whose frame was cancelled, does nothing. |

## Left out

- Patterns.IsValid: requires a 16-element pattern, because its only caller passes 16 steps; the source accepts any array, and other lengths are not modelled.
  - At length 0 the index is `% 0`, which is NaN.
  - At lengths 2 and 3 the scan reads negative indices.
  - At length 1 it reads `-0`, that is `pattern[0]`.
  - Lengths 4 to 15, and more than 16, are scanned normally but are not covered here.
- Scheduling.AudioService.Scheduler: requires bpm > 0.
  - At bpm 0 the source's step is Infinity, so one step plays and playback then stalls until the playhead is reset, by becoming visible again or by `stop` and `start`.
  - At a negative tempo `nextNoteTime` only decreases, so the source's loop never ends.
  - These are defects of the source, which never checks the tempo that src/main.ts parses with `parseInt`, rather than modelling choices.
  - Neither case is modelled, and neither are NaN and Infinity tempos in general.
- Scheduling.AudioService.Start: requires bpm > 0 when it starts playback, because it runs a pass; see the Scheduler line above.
- Scheduling.AudioService.Tick: requires bpm > 0 while playing, because it runs a pass; see the Scheduler line above.
- Scheduling.AudioService.NextNote: requires bpm != 0 for the real division, for the same reason.
- Scheduling.SecondsPerSixteenth: requires bpm != 0 for the real division, for the same reason.
- The concrete values of `seededRandom` are not modelled. That function uses `Math.sin` floating-point hashing, and the model takes it as an arbitrary function.
- The `Math.random()` draw of the constructor and of `newSeed` is a parameter.
- Times and tempos are exact reals. Floating-point rounding of the accumulated `nextNoteTime` is not modelled.
  - Termination of a pass (Scheduling.StepsBeforeHorizon, Scheduling.AudioService.Scheduler) holds only over exact reals.
  - In float64, a very large tempo (above about 2.6e14, which `parseInt` can produce) makes `nextNoteTime += 15 / bpm` leave a playhead near 1000 s unchanged, and the source's loop then never exits.
- The `AudioContext` is left out: its clock becomes the parameter `now`, and buffer sources, `resume()` and the choice of sound buffer are not modelled.
- `loadSounds` (fetch and decode) is left out.
- Scheduling.AudioService.Scheduler: reads the clock once per pass, as the parameter `now`. The source re-reads `audioContext.currentTime` on every loop test. "Exactly the steps that start before now + 0.1" holds for a clock that does not move during the pass.
- `requestAnimationFrame` re-arming and `cancelAnimationFrame` are modelled only as `Tick`: one pass per frame while playing. `schedulerID` is not modelled.
- Scheduling.AudioService.Tick: its `isPlaying` test stands in for the frame that `stop` cancelled. The source's `scheduler` never reads `isPlaying` and re-arms its frame on every pass. So a `stop` called from a handler, during a pass, cancels a frame that has already fired, and the loop keeps running. A later `start` then adds a second frame chain that `stop` cannot cancel. The model does not capture either effect.
- Patterns.PatternProvider.GetCurrentPattern: patterns are immutable values here. The source returns the cache's own array, both on a hit and after a miss, so every caller holds the cached array. There, cache coherence relies on callers not writing into the returned array. The model cannot express that aliasing.
- Callbacks are recorded as events, not run. A handler's own effects are not modelled.
  - The `advancePattern` call that src/main.ts makes from its pattern-complete handler is one such effect.
  - A `stop` from inside a handler is another.
  - As a result, the pattern and the handlers are fixed for the duration of one pass.
- Scheduling.AudioService.SetOnPatternComplete: models only that a handler is registered, not which function it is. Registering `undefined` again is not modelled.
- Scheduling.AudioService.SetOnBarComplete: the same as SetOnPatternComplete.
- The constructor's default tempo of 120 is not modelled; the tempo is a constructor parameter.
- src/main.ts is not part of this model. It holds the DOM, canvas drawing, input wiring and the wake lock.
- vite.config.js is not part of this model. It is build configuration.
