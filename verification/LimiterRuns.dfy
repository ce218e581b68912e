/** The authentication limiter over its runs (internal/auth/limit.go): what the failures and successes
    of the past mean for the next attempt. */
module LimiterRuns {
  import opened Basics
  import opened AttemptLimiter

  /** `attempts` are the attempts under way with the keys they are counted under. */
  datatype State = State(memory: Memory, attempts: map<nat, seq<string>>, clock: nat)

  datatype Step =
    | Begin(id: nat, keys: seq<string>, now: nat)
    | Finish(id: nat, outcome: Outcome, now: nat)

  /** `minute` is the least time between two sweeps. */
  datatype Settings = Settings(options: Options, minute: nat)

  const Fresh := State(Memory(map[], 0), map[], 0)

  ghost function Do(settings: Settings, state: State, step: Step): (next: Option<State>)
  {
    if step.now < state.clock then None
    else match step
      case Begin(id, keys, now) =>
        if id in state.attempts then None
        else
          var after := AfterBegin(settings.options, state.memory, keys, now, settings.minute);
          Some(State(after,
                     if Starts(settings.options, state.memory, keys, now, settings.minute)
                     then state.attempts[id := CountedKeys(settings.options, state.memory, keys, now, settings.minute)]
                     else state.attempts,
                     now))
      case Finish(id, outcome, now) =>
        if id !in state.attempts then None
        else Some(State(AfterFinish(settings.options, state.memory, state.attempts[id], outcome, now),
                        state.attempts - {id}, now))
  }

  ghost function Run(settings: Settings, state: State, steps: seq<Step>): (end: Option<State>)
    decreases |steps|
  {
    if steps == [] then Some(state)
    else
      var next := Do(settings, state, steps[0]);
      if next.None? then None else Run(settings, next.value, steps[1..])
  }

  // ---------------------------------------------------------------------------
  // The invariant of the counters

  ghost predicate Inv(settings: Settings, state: State)
  {
    OptionsOk(settings.options) && Sound(settings.options, state.memory.states, state.attempts)
  }

  lemma {:induction false} JudgedSound(settings: Settings, state: State, keys: seq<string>, now: nat)
    requires Inv(settings, state)
    ensures
      var judged := Judged(settings.options, state.memory, keys, now, settings.minute);
      var counted := CountedKeys(settings.options, state.memory, keys, now, settings.minute);
      && Sound(settings.options, judged, state.attempts) && Distinct(counted)
      && forall key :: key in counted ==> key in judged
  {
    var options := settings.options;
    var swept := AfterSweep(options, state.memory, now, settings.minute).states;
    if swept != state.memory.states {
      SweepKeepsLive(options, state.memory.states, state.attempts, swept, now);
    }
    TrackOnTracks(swept, swept, [], keys, now, options.maximumStates);
    var (after, counted) := TrackOn(swept, [], keys, now, options.maximumStates);
    TrackedSound(options, swept, state.attempts, after, counted, now);
    TouchedSound(options, after, state.attempts, counted, now);
  }

  lemma {:induction false} StepKeepsInv(settings: Settings, state: State, step: Step)
    requires Inv(settings, state) && Do(settings, state, step).Some?
    ensures Inv(settings, Do(settings, state, step).value)
  {
    var options, memory := settings.options, state.memory;
    match step
    case Begin(id, keys, now) =>
      JudgedSound(settings, state, keys, now);
      if Starts(options, memory, keys, now, settings.minute) {
        BegunSound(options, Judged(options, memory, keys, now, settings.minute), state.attempts, id,
                   CountedKeys(options, memory, keys, now, settings.minute), now);
      }
    case Finish(id, outcome, now) => EndedSound(options, memory.states, state.attempts, id, outcome, now);
  }

  // ---------------------------------------------------------------------------
  // What is remembered of a key

  /** Failures in a row, and when the last one ended. */
  datatype Tally = Tally(failures: nat, last: nat)

  /** The limiter has forgotten the key, or never knew it, when an attempt comes at that time. */
  ghost predicate Forgets(settings: Settings, state: State, key: string, now: nat)
  {
    key !in AfterSweep(settings.options, state.memory, now, settings.minute).states
  }

  /** How a step changes the tally of a key: an attempt that fails counts, one that succeeds clears, one
      that is aborted does nothing; and the limiter may forget. */
  ghost function Count(settings: Settings, state: State, step: Step, key: string, tally: Tally): (after: Tally)
    requires step.Finish? ==> step.id in state.attempts
  {
    match step
    case Begin(_, _, now) => if Forgets(settings, state, key, now) then Tally(0, 0) else tally
    case Finish(id, outcome, now) =>
      if key !in state.attempts[id] || outcome.Aborted? then tally
      else if outcome.Failed? then Tally(tally.failures + 1, now)
      else Tally(0, 0)
  }

  ghost function TallyOf(settings: Settings, state: State, steps: seq<Step>, key: string, tally: Tally): (after: Tally)
    requires Run(settings, state, steps).Some?
    decreases |steps|
  {
    if steps == [] then tally
    else TallyOf(settings, Do(settings, state, steps[0]).value, steps[1..], key,
        Count(settings, state, steps[0], key, tally))
  }

  /** When a key with that tally may be tried again. */
  function Due(options: Options, tally: Tally): (time: nat)
  {
    if tally.failures < options.threshold then 0
    else tally.last + Min(options.initial * Power(tally.failures - options.threshold), options.maximum)
  }

  /** The state of a key is what its tally says. */
  ghost predicate Matches(options: Options, states: map<string, Attempts>, clock: nat, key: string, tally: Tally)
  {
    if key in states then
      && states[key].failures == tally.failures && states[key].retryAt == Due(options, tally)
      && tally.last <= states[key].lastAccess <= clock
    else tally.failures == 0
  }

  /** What judging an attempt does to a key. */
  lemma {:induction false} JudgedKey(settings: Settings, state: State, keys: seq<string>, now: nat, key: string)
    requires Inv(settings, state)
    ensures
      var judged := Judged(settings.options, state.memory, keys, now, settings.minute);
      && (!Forgets(settings, state, key, now) ==>
            && key in judged && key in state.memory.states
            && (judged[key] == state.memory.states[key] || judged[key] == state.memory.states[key].(lastAccess := now)))
      && (Forgets(settings, state, key, now) && key in judged ==> judged[key] == Attempts(0, 0, 0, now))
  {
    var swept := AfterSweep(settings.options, state.memory, now, settings.minute).states;
    SizeAfterDrop(state.memory.states, swept, settings.options.maximumStates);
    TrackOnTracks(swept, swept, [], keys, now, settings.options.maximumStates);
  }

  /** Counting the attempt leaves failures and backoff alone. */
  lemma {:induction false} BeginOnKey(settings: Settings, state: State, keys: seq<string>, now: nat, key: string)
    ensures
      var judged := Judged(settings.options, state.memory, keys, now, settings.minute);
      var after := AfterBegin(settings.options, state.memory, keys, now, settings.minute).states;
      && (key in after <==> key in judged)
      && (key in after ==>
            && after[key].failures == judged[key].failures && after[key].retryAt == judged[key].retryAt
            && (after[key].lastAccess == now || after[key].lastAccess == judged[key].lastAccess))
  {
  }

  lemma {:induction false} BeginMatches(settings: Settings, state: State, id: nat, keys: seq<string>, now: nat,
                                        key: string,
                                        tally: Tally)
    requires Inv(settings, state) && Do(settings, state, Begin(id, keys, now)).Some?
    requires Matches(settings.options, state.memory.states, state.clock, key, tally)
    ensures Matches(settings.options, Do(settings, state, Begin(id, keys, now)).value.memory.states, now, key,
                    Count(settings, state, Begin(id, keys, now), key, tally))
  {
    JudgedKey(settings, state, keys, now, key);
    BeginOnKey(settings, state, keys, now, key);
  }

  lemma {:induction false} FinishMatches(settings: Settings, state: State, id: nat, outcome: Outcome, now: nat,
                                         key: string,
                                         tally: Tally)
    requires Inv(settings, state) && Do(settings, state, Finish(id, outcome, now)).Some?
    requires Matches(settings.options, state.memory.states, state.clock, key, tally)
    ensures Matches(settings.options, Do(settings, state, Finish(id, outcome, now)).value.memory.states, now, key,
                    Count(settings, state, Finish(id, outcome, now), key, tally))
  {
  }

  lemma {:induction false} StepMatches(settings: Settings, state: State, step: Step, key: string, tally: Tally)
    requires Inv(settings, state) && Do(settings, state, step).Some?
    requires Matches(settings.options, state.memory.states, state.clock, key, tally)
    ensures
      var next := Do(settings, state, step).value;
      Matches(settings.options, next.memory.states, next.clock, key, Count(settings, state, step, key, tally))
  {
    match step
    case Begin(id, keys, now) => BeginMatches(settings, state, id, keys, now, key, tally);
    case Finish(id, outcome, now) => FinishMatches(settings, state, id, outcome, now, key, tally);
  }

  lemma {:induction false} RunMatches(settings: Settings, state: State, steps: seq<Step>, key: string, tally: Tally)
    requires Inv(settings, state) && Run(settings, state, steps).Some?
    requires Matches(settings.options, state.memory.states, state.clock, key, tally)
    ensures
      var end := Run(settings, state, steps).value;
      && Inv(settings, end)
      && Matches(settings.options, end.memory.states, end.clock, key, TallyOf(settings, state, steps, key, tally))
    decreases |steps|
  {
    if steps != [] {
      StepMatches(settings, state, steps[0], key, tally);
      StepKeepsInv(settings, state, steps[0]);
      RunMatches(settings, Do(settings, state, steps[0]).value, steps[1..], key,
          Count(settings, state, steps[0], key, tally));
    }
  }

  /** A state of the limiter and the tally of a key in it. */
  ghost predicate Reached(settings: Settings, steps: seq<Step>, state: State, key: string, tally: Tally)
  {
    && OptionsOk(settings.options) && Run(settings, Fresh, steps) == Some(state)
    && TallyOf(settings, Fresh, steps, key, Tally(0, 0)) == tally
  }

  lemma {:induction false} ReachedMatches(settings: Settings, steps: seq<Step>, state: State, key: string, tally: Tally)
    requires Reached(settings, steps, state, key, tally)
    ensures Inv(settings, state) && Matches(settings.options, state.memory.states, state.clock, key, tally)
  {
    assert Sound(settings.options, map[], map[]);
    RunMatches(settings, Fresh, steps, key, Tally(0, 0));
  }

  // ---------------------------------------------------------------------------
  // What callers get

  /** An attempt under a key that is known is counted under it. */
  lemma {:induction false} KnownIsCounted(settings: Settings, state: State, keys: seq<string>, now: nat, key: string)
    requires Inv(settings, state) && key in keys && !Forgets(settings, state, key, now)
    ensures key in CountedKeys(settings.options, state.memory, keys, now, settings.minute)
  {
    var swept := AfterSweep(settings.options, state.memory, now, settings.minute).states;
    SizeAfterDrop(state.memory.states, swept, settings.options.maximumStates);
    TrackOnTracks(swept, swept, [], keys, now, settings.options.maximumStates);
  }

  /** One key in backoff refuses the attempt. */
  lemma {:induction false} RefusedByKey(settings: Settings, state: State, id: nat, keys: seq<string>, now: nat,
                                        key: string)
    requires Inv(settings, state) && key in keys && !Forgets(settings, state, key, now)
    requires key in state.memory.states && now < state.memory.states[key].retryAt
    requires Do(settings, state, Begin(id, keys, now)).Some?
    ensures Do(settings, state, Begin(id, keys, now)).value.attempts == state.attempts
  {
    KnownIsCounted(settings, state, keys, now, key);
    JudgedKey(settings, state, keys, now, key);
    var judged := Judged(settings.options, state.memory, keys, now, settings.minute);
    assert !Admits(judged[key], now, settings.options.maximumConcurrent);
  }

  /** After n failures in a row on a key, the last one at some time, with n at or past the threshold, no
      attempt under it, whatever its other keys, begins before that time plus the initial delay
      doubled n minus threshold times or the maximum, as long as the key is remembered. */
  lemma {:induction false} LockedOut(settings: Settings, steps: seq<Step>, state: State, key: string, tally: Tally,
                                     id: nat, keys: seq<string>, now: nat)
    requires Reached(settings, steps, state, key, tally) && key in keys && !Forgets(settings, state, key, now)
    requires tally.failures >= settings.options.threshold
    requires now < tally.last +
               Min(settings.options.initial * Power(tally.failures - settings.options.threshold),
                   settings.options.maximum)
    requires Do(settings, state, Begin(id, keys, now)).Some?
    ensures Do(settings, state, Begin(id, keys, now)).value.attempts == state.attempts
  {
    ReachedMatches(settings, steps, state, key, tally);
    RefusedByKey(settings, state, id, keys, now, key);
  }

  /** A key is remembered for the retention time after its last use, and while an attempt is under way. */
  lemma {:induction false} RememberedExactly(settings: Settings, state: State, key: string, now: nat)
    requires Inv(settings, state) && key in state.memory.states
    ensures Forgets(settings, state, key, now) <==>
      && (state.memory.nextSweep == 0 || state.memory.nextSweep <= now)
      && state.memory.states[key].inFlight == 0
      && state.memory.states[key].lastAccess + settings.options.retention < now
  {
  }

  /** If no delay is longer than the retention time and one, the lock-out cannot be forgotten. */
  lemma {:induction false} LockedOutInFull(settings: Settings, steps: seq<Step>, state: State, key: string,
                                           tally: Tally,
                                           id: nat, keys: seq<string>, now: nat)
    requires Reached(settings, steps, state, key, tally) && key in keys
    requires settings.options.maximum <= settings.options.retention + 1
    requires tally.failures >= settings.options.threshold
    requires now < tally.last +
               Min(settings.options.initial * Power(tally.failures - settings.options.threshold),
                   settings.options.maximum)
    requires Do(settings, state, Begin(id, keys, now)).Some?
    ensures Do(settings, state, Begin(id, keys, now)).value.attempts == state.attempts
  {
    ReachedMatches(settings, steps, state, key, tally);
    RememberedExactly(settings, state, key, now);
    LockedOut(settings, steps, state, key, tally, id, keys, now);
  }

  /** An attempt under one key that is remembered begins exactly if the key is not locked out and has
      room: below the threshold and after a success there is nothing to wait for but room. */
  lemma {:induction false} AdmittedExactly(settings: Settings, steps: seq<Step>, state: State, key: string,
                                           tally: Tally,
                                           id: nat, now: nat)
    requires Reached(settings, steps, state, key, tally) && !Forgets(settings, state, key, now)
    requires Do(settings, state, Begin(id, [key], now)).Some?
    ensures id in Do(settings, state, Begin(id, [key], now)).value.attempts <==>
      && (tally.failures < settings.options.threshold ||
          tally.last + Min(settings.options.initial * Power(tally.failures - settings.options.threshold),
                           settings.options.maximum) <= now)
      && |Holding(state.attempts, key)| < settings.options.maximumConcurrent
  {
    ReachedMatches(settings, steps, state, key, tally);
    JudgedKey(settings, state, [key], now, key);
    OneCounted(settings, state, key, now);
    var judged := Judged(settings.options, state.memory, [key], now, settings.minute);
    assert Starts(settings.options, state.memory, [key], now, settings.minute) <==>
      Admits(judged[key], now, settings.options.maximumConcurrent);
  }

  lemma {:induction false} OneCounted(settings: Settings, state: State, key: string, now: nat)
    requires !Forgets(settings, state, key, now)
    ensures CountedKeys(settings.options, state.memory, [key], now, settings.minute) == [key]
  {
    var swept := AfterSweep(settings.options, state.memory, now, settings.minute).states;
    assert [key][1..] == [] && [] + [key] == [key];
    assert TrackOn(WithState(swept, key, now), [key], [], now, settings.options.maximumStates).1 == [key];
  }

  /** A forgotten key is a new key: with room in the table its next attempt begins at once, whatever
      it was locked out for. */
  lemma {:induction false} ForgottenBegins(settings: Settings, state: State, key: string, id: nat, now: nat)
    requires Inv(settings, state) && Forgets(settings, state, key, now)
    requires |AfterSweep(settings.options, state.memory, now, settings.minute).states| < settings.options.maximumStates
    requires Do(settings, state, Begin(id, [key], now)).Some?
    ensures id in Do(settings, state, Begin(id, [key], now)).value.attempts
  {
    var swept := AfterSweep(settings.options, state.memory, now, settings.minute).states;
    assert [key][1..] == [] && [] + [key] == [key];
    assert TrackOn(swept, [], [key], now, settings.options.maximumStates) == (WithState(swept, key, now), [key]);
  }

  /** An attempt under the key alone begins before its lock-out is over. */
  ghost predicate Escapes(settings: Settings, state: State, key: string, tally: Tally, id: nat, now: nat)
  {
    && state.clock <= now < Due(settings.options, tally) && id !in state.attempts
    && id in Do(settings, state, Begin(id, [key], now)).value.attempts
  }

  lemma {:induction false} EscapesWhenForgotten(settings: Settings, state: State, key: string, tally: Tally, id: nat)
    requires Inv(settings, state) && key in state.memory.states && id !in state.attempts
    requires state.memory.states[key].inFlight == 0 && |state.memory.states| <= settings.options.maximumStates
    requires state.memory.nextSweep <= state.memory.states[key].lastAccess + settings.options.retention + 1
    requires Early(settings, state, key) < Due(settings.options, tally)
    ensures Escapes(settings, state, key, tally, id, Early(settings, state, key))
  {
    var early := Early(settings, state, key);
    RememberedExactly(settings, state, key, early);
    SweptSmaller(settings, state, key, early);
    ForgottenBegins(settings, state, key, id, early);
  }

  lemma {:induction false} NoEarlierEscape(settings: Settings, steps: seq<Step>, state: State, key: string,
                                           tally: Tally,
                                           id: nat, now: nat)
    requires Reached(settings, steps, state, key, tally) && key in state.memory.states && id !in state.attempts
    requires tally.failures >= settings.options.threshold
    requires Inv(settings, state) && now < Early(settings, state, key)
    ensures !Escapes(settings, state, key, tally, id, now)
  {
    if state.clock <= now < Due(settings.options, tally) {
      RememberedExactly(settings, state, key, now);
      LockedOut(settings, steps, state, key, tally, id, [key], now);
    }
  }

  /** The exact limit of a lock-out: a locked key with nothing under way, a sweep due and room in the
      table lets an attempt through early exactly if it can be forgotten before its lock-out is over,
      that is, if the lock-out is longer than the retention time after its last use, and one. */
  lemma {:induction false} EscapesExactly(settings: Settings, steps: seq<Step>, state: State, key: string,
                                          tally: Tally, id: nat)
    requires Reached(settings, steps, state, key, tally) && key in state.memory.states && id !in state.attempts
    requires tally.failures >= settings.options.threshold && state.memory.states[key].inFlight == 0
    requires |state.memory.states| <= settings.options.maximumStates
    requires state.memory.nextSweep <= state.memory.states[key].lastAccess + settings.options.retention + 1
    ensures (exists now :: Escapes(settings, state, key, tally, id, now)) <==>
            Early(settings, state, key) < Due(settings.options, tally)
  {
    ReachedMatches(settings, steps, state, key, tally);
    if Early(settings, state, key) < Due(settings.options, tally) {
      EscapesWhenForgotten(settings, state, key, tally, id);
    } else {
      forall now ensures !Escapes(settings, state, key, tally, id, now) {
        NoEscape(settings, steps, state, key, tally, id, now);
      }
    }
  }

  lemma {:induction false} NoEscape(settings: Settings, steps: seq<Step>, state: State, key: string, tally: Tally,
                                    id: nat, now: nat)
    requires Reached(settings, steps, state, key, tally) && key in state.memory.states && id !in state.attempts
    requires tally.failures >= settings.options.threshold && Inv(settings, state)
    requires Due(settings.options, tally) <= Early(settings, state, key)
    ensures !Escapes(settings, state, key, tally, id, now)
  {
    if now < Early(settings, state, key) {
      NoEarlierEscape(settings, steps, state, key, tally, id, now);
    }
  }

  /** The first moment at which a key with nothing under way can be forgotten. */
  function Early(settings: Settings, state: State, key: string): (time: nat)
    requires key in state.memory.states
  {
    Max(state.clock, state.memory.states[key].lastAccess + settings.options.retention + 1)
  }

  lemma {:induction false} SweptSmaller(settings: Settings, state: State, key: string, now: nat)
    requires key in state.memory.states && Forgets(settings, state, key, now)
    ensures |AfterSweep(settings.options, state.memory, now, settings.minute).states| < |state.memory.states|
  {
    var swept := AfterSweep(settings.options, state.memory, now, settings.minute).states;
    SubsetSize(swept.Keys, state.memory.states.Keys - {key});
    assert |swept| == |swept.Keys| && |state.memory.states| == |state.memory.states.Keys|;
  }

  // ---------------------------------------------------------------------------
  // A lock-out of ten with a retention time of three

  const Forgetful := Settings(Options(1, 1, 10, 10, 3, 5), 1)

  function FirstUnderWay(key: string): (state: State)
  {
    State(Memory(map[key := Attempts(0, 1, 0, 0)], 1), map[0 := [key]], 0)
  }

  function FirstFailed(key: string): (state: State)
  {
    State(Memory(map[key := Attempts(1, 0, 10, 0)], 1), map[], 0)
  }

  lemma {:induction false} FirstBegins(key: string)
    ensures Do(Forgetful, Fresh, Begin(0, [key], 0)) == Some(FirstUnderWay(key))
  {
    assert [key][1..] == [] && [] + [key] == [key];
    assert Swept(map[], 0, 3) == map[];
    assert TrackOn(map[], [], [key], 0, 5) == (map[key := Attempts(0, 0, 0, 0)], [key]);
    var judged := Judged(Forgetful.options, Fresh.memory, [key], 0, 1);
    assert judged == map[key := Attempts(0, 0, 0, 0)];
    assert Admits(judged[key], 0, 1);
    assert Changed(judged, [key], Begun(0)) == map[key := Attempts(0, 1, 0, 0)];
  }

  lemma {:induction false} FirstFails(key: string)
    ensures Do(Forgetful, FirstUnderWay(key), Finish(0, Outcome.Failed, 0)) == Some(FirstFailed(key))
  {
    assert Power(0) == 1;
    var before, after := FirstUnderWay(key).memory.states, FirstFailed(key).memory.states;
    assert Changed(before, [key], Ended(Forgetful.options, Outcome.Failed, 0)) == after;
  }

  lemma {:induction false} SecondBegins(key: string)
    ensures Do(Forgetful, FirstFailed(key), Begin(1, [key], 4)).Some?
    ensures 1 in Do(Forgetful, FirstFailed(key), Begin(1, [key], 4)).value.attempts
  {
    var failed := FirstFailed(key);
    assert Sound(Forgetful.options, failed.memory.states, failed.attempts) by {
      assert Holding(map[], key) == {};
    }
    RememberedExactly(Forgetful, failed, key, 4);
    SweptSmaller(Forgetful, failed, key, 4);
    ForgottenBegins(Forgetful, failed, key, 1, 4);
  }

  /** At four the key, locked out until ten, is forgotten and let in. */
  lemma {:induction false} LockOutForgotten(key: string)
    ensures
      var steps := [Begin(0, [key], 0), Finish(0, Outcome.Failed, 0)];
      && Reached(Forgetful, steps, FirstFailed(key), key, Tally(1, 0))
      && Escapes(Forgetful, FirstFailed(key), key, Tally(1, 0), 1, 4)
  {
    var first, second := Begin(0, [key], 0), Finish(0, Outcome.Failed, 0);
    FirstBegins(key);
    FirstFails(key);
    SecondBegins(key);
    var rest := [first, second][1..];
    assert rest == [second] && rest[1..] == [];
    assert Run(Forgetful, FirstUnderWay(key), rest) == Some(FirstFailed(key));
    assert Count(Forgetful, Fresh, first, key, Tally(0, 0)) == Tally(0, 0);
    assert Count(Forgetful, FirstUnderWay(key), second, key, Tally(0, 0)) == Tally(1, 0);
    assert TallyOf(Forgetful, FirstUnderWay(key), rest, key, Tally(0, 0)) == Tally(1, 0);
    assert Power(0) == 1;
  }
}
