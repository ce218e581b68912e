/** The limiter of authentication attempts (internal/auth/limit.go). Every method runs under the
    limiter's mutex, so an invariant of the object holds in every reachable state. */
module AttemptLimiter {
  import opened Basics

  /** `retryAt` zero means no backoff; times are clock readings. */
  datatype Attempts = Attempts(failures: nat, inFlight: nat, retryAt: nat, lastAccess: nat)

  datatype Outcome = Aborted | Failed | Succeeded

  const Overflow := "overflow"

  // ---------------------------------------------------------------------------
  // Backoff

  function Power(n: nat): (p: nat)
    ensures p > 0
  {
    if n == 0 then 1 else 2 * Power(n - 1)
  }

  function Min(a: nat, b: nat): (m: nat)
  {
    if a < b then a else b
  }

  lemma {:induction false} PowerGrows(m: nat, n: nat)
    requires m <= n
    ensures Power(m) <= Power(n)
  {
    if m < n {
      PowerGrows(m, n - 1);
    }
  }

  lemma {:induction false} ScaledPowerGrows(initial: nat, m: nat, n: nat)
    requires m <= n
    ensures initial * Power(m) <= initial * Power(n)
  {
    PowerGrows(m, n);
  }

  lemma {:induction false} Doubled(initial: nat, n: nat)
    ensures initial * Power(n + 1) == 2 * (initial * Power(n))
  {
  }

  /** backoff: the doubling loop gives the initial delay times a power of two, cut at the maximum,
      and on the way never goes beyond the maximum. */
  method Backoff(initial: nat, maximum: nat, threshold: nat, failures: nat) returns (delay: nat)
    requires 0 < initial <= maximum
    ensures failures >= threshold ==> delay == Min(initial * Power(failures - threshold), maximum)
    ensures failures < threshold ==> delay == initial
  {
    delay := initial;
    var remaining := failures - threshold;
    ghost var done: nat := 0;
    while remaining > 0
      invariant done + remaining == failures - threshold && (failures >= threshold ==> remaining >= 0)
          && (failures < threshold ==> done == 0)
      invariant delay == initial * Power(done) && delay <= maximum
      decreases remaining
    {
      Doubled(initial, done);
      if delay >= maximum || delay > maximum / 2 {
        ScaledPowerGrows(initial, done + 1, failures - threshold);
        assert maximum <= initial * Power(done + 1);
        return maximum;
      }
      delay := delay * 2;
      remaining, done := remaining - 1, done + 1;
    }
    delay := Min(delay, maximum);
  }

  // ---------------------------------------------------------------------------
  // Outstanding attempts

  /** The attempts under way that count for a key. */
  ghost function Holding(attempts: map<nat, seq<string>>, key: string): (ids: set<nat>)
  {
    set id | id in attempts && key in attempts[id]
  }

  lemma {:induction false} HoldingAdded(attempts: map<nat, seq<string>>, id: nat, keys: seq<string>, key: string)
    requires id !in attempts
    ensures |Holding(attempts[id := keys], key)| == |Holding(attempts, key)| + if key in keys then 1 else 0
  {
    assert Holding(attempts[id := keys], key) == Holding(attempts, key) + if key in keys then {id} else {};
  }

  lemma {:induction false} HoldingRemoved(attempts: map<nat, seq<string>>, id: nat, key: string)
    requires id in attempts
    ensures |Holding(attempts - {id}, key)| == |Holding(attempts, key)| - if key in attempts[id] then 1 else 0
  {
    assert Holding(attempts - {id}, key) == Holding(attempts, key) - {id};
  }

  predicate Distinct(keys: seq<string>)
  {
    forall i, j :: 0 <= i < j < |keys| ==> keys[i] != keys[j]
  }

  /** Each key's counter is the number of attempts under way for it, and every such key has a
      state. */
  ghost predicate Exact(states: map<string, Attempts>, attempts: map<nat, seq<string>>)
  {
    && (forall key :: key in states ==> states[key].inFlight == |Holding(attempts, key)|)
    && (forall id :: id in attempts ==> Distinct(attempts[id]))
    && (forall id, key :: id in attempts && key in attempts[id] ==> key in states)
  }

  ghost predicate Bounded(states: map<string, Attempts>, maximumConcurrent: nat)
  {
    forall key :: key in states ==> states[key].inFlight <= maximumConcurrent
  }

  /** At most the shared overflow state comes on top of the maximum. */
  ghost predicate Sized(states: map<string, Attempts>, maximumStates: nat)
  {
    |states| <= maximumStates + 1 && (|states| > maximumStates ==> Overflow in states)
  }

  lemma {:induction false} SizeAfterAdd(states: map<string, Attempts>, key: string, state: Attempts, maximumStates: nat)
    requires Sized(states, maximumStates) && (|states| < maximumStates || key == Overflow || key in states)
    ensures Sized(states[key := state], maximumStates)
  {
    assert states[key := state].Keys == states.Keys + {key};
    assert |states[key := state]| == |states[key := state].Keys| && |states| == |states.Keys|;
  }

  lemma {:induction false} SizeAfterDrop(states: map<string, Attempts>, fewer: map<string, Attempts>,
                                         maximumStates: nat)
    requires Sized(states, maximumStates) && fewer.Keys <= states.Keys
    ensures Sized(fewer, maximumStates)
  {
    var dropped := states.Keys - fewer.Keys;
    assert states.Keys == fewer.Keys + dropped;
    assert |states| == |states.Keys| && |fewer| == |fewer.Keys|;
    if |fewer| > maximumStates {
      assert dropped == {};
      assert states.Keys == fewer.Keys;
    }
  }

  // ---------------------------------------------------------------------------
  // The loops

  type States = map<string, Attempts>

  lemma {:induction false} InPrefix(keys: seq<string>, i: nat, key: string)
    requires i < |keys|
    ensures key in keys[..i + 1] <==> key in keys[..i] || key == keys[i]
  {
    assert keys[..i + 1] == keys[..i] + [keys[i]];
  }

  /** The state may be forgotten. */
  predicate Expired(state: Attempts, now: nat, retention: nat)
  {
    state.inFlight == 0 && state.lastAccess + retention < now
  }

  ghost function Swept(states: States, now: nat, retention: nat): (kept: States)
  {
    map key | key in states && !Expired(states[key], now, retention) :: states[key]
  }

  /** The sweep drops exactly the expired states. */
  method SweepStates(states: States, now: nat, retention: nat) returns (kept: States)
    ensures kept == Swept(states, now, retention)
  {
    kept := states;
    var todo := states.Keys;
    while todo != {}
      invariant todo <= states.Keys
      invariant kept == map key | key in states && (key in todo || !Expired(states[key], now, retention)) :: states[key]
    {
      var key :| key in todo;
      if Expired(states[key], now, retention) {
        kept := kept - {key};
      }
      todo := todo - {key};
    }
  }

  /** The keys an attempt is counted under, and the table with states for all of them. */
  ghost predicate Tracks(before: States, after: States, tracked: seq<string>, now: nat)
  {
    && Distinct(tracked) && before.Keys <= after.Keys
    && (forall key :: key in tracked ==> key in after)
    && (forall key :: key in after ==> after[key] == if key in before then before[key] else Attempts(0, 0, 0, now))
  }

  /** A key stands for itself, or for the overflow state if it is new and the table is full. */
  ghost predicate Represented(before: States, keys: seq<string>, tracked: seq<string>)
  {
    forall key :: key in keys ==> key in tracked || (key !in before && Overflow in tracked)
  }

  method Contains(tracked: seq<string>, key: string) returns (duplicate: bool)
    ensures duplicate <==> key in tracked
  {
    for i := 0 to |tracked|
      invariant key !in tracked[..i]
    {
      if tracked[i] == key {
        return true;
      }
      InPrefix(tracked, i, key);
    }
    assert tracked[..|tracked|] == tracked;
    duplicate := false;
  }

  /** The key that a key is counted under. */
  function CountedAs(states: States, key: string, maximumStates: nat): (counted: string)
  {
    if key !in states && |states| >= maximumStates then Overflow else key
  }

  function WithState(states: States, key: string, now: nat): (after: States)
  {
    if key in states then states else states[key := Attempts(0, 0, 0, now)]
  }

  /** The table and the counted keys after the rest of an attempt's keys. */
  function TrackOn(states: States, tracked: seq<string>, keys: seq<string>, now: nat,
                   maximumStates: nat): (result: (States, seq<string>))
    decreases |keys|
  {
    if keys == [] then (states, tracked)
    else
      var key := CountedAs(states, keys[0], maximumStates);
      if key in tracked then TrackOn(states, tracked, keys[1..], now, maximumStates)
      else TrackOn(WithState(states, key, now), tracked + [key], keys[1..], now, maximumStates)
  }

  /** trackedKeysLocked. */
  method TrackedKeys(states: States, keys: seq<string>, now: nat, maximumStates: nat)
    returns (after: States, tracked: seq<string>)
    ensures (after, tracked) == TrackOn(states, [], keys, now, maximumStates)
  {
    after, tracked := states, [];
    for i := 0 to |keys|
      invariant TrackOn(after, tracked, keys[i..], now, maximumStates) == TrackOn(states, [], keys, now, maximumStates)
    {
      var key := if keys[i] !in after && |after| >= maximumStates then Overflow else keys[i];
      assert keys[i..][1..] == keys[i + 1..];
      var duplicate := Contains(tracked, key);
      if !duplicate {
        if key !in after {
          after := after[key := Attempts(0, 0, 0, now)];
        }
        tracked := tracked + [key];
      }
    }
  }

  lemma {:induction false} TrackOne(before: States, states: States, tracked: seq<string>, key: string, now: nat,
                                    maximumStates: nat)
    requires Tracks(before, states, tracked, now) && Sized(states, maximumStates) && key !in tracked
    requires |states| < maximumStates || key == Overflow || key in states
    ensures Tracks(before, WithState(states, key, now), tracked + [key], now)
    ensures Sized(WithState(states, key, now), maximumStates)
  {
    SizeAfterAdd(states, key, Attempts(0, 0, 0, now), maximumStates);
  }

  /** Every key stands for itself, or for the overflow state if it is new and the table is full; new
      states are empty, old ones untouched, and at most one state exceeds the maximum. */
  lemma {:induction false} TrackOnTracks(before: States, states: States, tracked: seq<string>, keys: seq<string>,
                                         now: nat,
                                         maximumStates: nat)
    requires Tracks(before, states, tracked, now) && Sized(states, maximumStates)
    ensures
      var (after, counted) := TrackOn(states, tracked, keys, now, maximumStates);
      && Tracks(before, after, counted, now) && Sized(after, maximumStates)
      && (forall key :: key in tracked ==> key in counted) && Represented(before, keys, counted)
    decreases |keys|
  {
    if keys != [] {
      var key := CountedAs(states, keys[0], maximumStates);
      if key in tracked {
        TrackOnTracks(before, states, tracked, keys[1..], now, maximumStates);
      } else {
        TrackOne(before, states, tracked, key, now, maximumStates);
        TrackOnTracks(before, WithState(states, key, now), tracked + [key], keys[1..], now, maximumStates);
        assert key in tracked + [key];
      }
      assert forall other :: other in keys ==> other == keys[0] || other in keys[1..];
    }
  }

  lemma {:induction false} NoFewerStates(states: States, key: string, now: nat)
    ensures |states| <= |WithState(states, key, now)|
  {
    SubsetSize(states.Keys, WithState(states, key, now).Keys);
    assert |states| == |states.Keys| && |WithState(states, key, now)| == |WithState(states, key, now).Keys|;
  }

  /** Only keys of the attempt are counted, and the overflow state in the place of one of them only when
      the table is full. */
  lemma {:induction false} OverflowOnlyWhenFull(states: States, tracked: seq<string>, keys: seq<string>, now: nat,
                                                maximumStates: nat)
    ensures
      var (after, counted) := TrackOn(states, tracked, keys, now, maximumStates);
      && |states| <= |after| && (forall key :: key in tracked ==> key in counted)
      && (forall key :: key in counted ==> key in tracked || key in keys || key == Overflow)
      && (|after| < maximumStates ==>
            && (forall key :: key in keys ==> key in counted)
            && (Overflow in counted ==> Overflow in tracked || Overflow in keys))
    decreases |keys|
  {
    if keys != [] {
      var key := CountedAs(states, keys[0], maximumStates);
      NoFewerStates(states, key, now);
      if key in tracked {
        OverflowOnlyWhenFull(states, tracked, keys[1..], now, maximumStates);
      } else {
        OverflowOnlyWhenFull(WithState(states, key, now), tracked + [key], keys[1..], now, maximumStates);
        assert key in tracked + [key];
      }
      assert forall other :: other in keys <==> other == keys[0] || other in keys[1..];
    }
  }

  /** The state lets an attempt begin. */
  predicate Admits(state: Attempts, now: nat, maximumConcurrent: nat)
  {
    state.retryAt <= now && state.inFlight < maximumConcurrent
  }

  ghost function Touched(states: States, keys: seq<string>, now: nat): (after: States)
  {
    map key | key in states :: if key in keys then states[key].(lastAccess := now) else states[key]
  }

  function Max(a: nat, b: nat): (m: nat)
  {
    if a < b then b else a
  }

  /** How long one key makes an attempt wait. */
  function Wait(state: Attempts, now: nat, maximumConcurrent: nat, initial: nat): (delay: nat)
  {
    Max(if state.retryAt > now then state.retryAt - now else 0, if state.inFlight >= maximumConcurrent then initial
        else 0)
  }

  /** ... and all keys together: the longest wait. */
  ghost function LongestWait(states: States, keys: seq<string>, now: nat, maximumConcurrent: nat,
                             initial: nat): (delay: nat)
    requires forall key :: key in keys ==> key in states
  {
    if keys == [] then 0
    else
      var n := |keys| - 1;
      Max(LongestWait(states, keys[..n], now, maximumConcurrent, initial),
          Wait(states[keys[n]], now, maximumConcurrent, initial))
  }

  lemma {:induction false} NoWaitExactly(states: States, keys: seq<string>, now: nat, maximumConcurrent: nat,
                                         initial: nat)
    requires initial > 0 && forall key :: key in keys ==> key in states
    ensures LongestWait(states, keys, now, maximumConcurrent, initial) == 0 <==>
            forall key :: key in keys ==> Admits(states[key], now, maximumConcurrent)
    ensures forall key :: key in keys ==>
        states[key].retryAt <= now + LongestWait(states, keys, now, maximumConcurrent, initial)
  {
    if keys != [] {
      var n := |keys| - 1;
      NoWaitExactly(states, keys[..n], now, maximumConcurrent, initial);
      forall key ensures key in keys <==> key in keys[..n] || key == keys[n] {
        InPrefix(keys, n, key);
        assert keys[..n + 1] == keys;
      }
    }
  }

  /** The key makes an attempt wait that long: its backoff ends then, or it has no room. */
  predicate Demands(state: Attempts, now: nat, maximumConcurrent: nat, initial: nat, delay: nat)
  {
    state.retryAt == now + delay || (state.inFlight >= maximumConcurrent && delay == initial)
  }

  /** A wait is long enough for every backoff and for every key without room, and no longer than one of the
      keys demands. */
  lemma {:induction false} WaitIsDemanded(states: States, keys: seq<string>, now: nat, maximumConcurrent: nat,
                                          initial: nat)
    requires forall key :: key in keys ==> key in states
    ensures
      var longest := LongestWait(states, keys, now, maximumConcurrent, initial);
      && (forall key :: key in keys ==> states[key].retryAt <= now + longest)
      && (forall key :: key in keys && states[key].inFlight >= maximumConcurrent ==> initial <= longest)
      && (longest > 0 ==>
            exists key :: key in keys && Demands(states[key], now, maximumConcurrent, initial, longest))
  {
    if keys != [] {
      var n := |keys| - 1;
      WaitIsDemanded(states, keys[..n], now, maximumConcurrent, initial);
      forall key ensures key in keys <==> key in keys[..n] || key == keys[n] {
        InPrefix(keys, n, key);
        assert keys[..n + 1] == keys;
      }
    }
  }

  /** Touching states changes no wait. */
  lemma {:induction false} TouchedWaits(states: States, keys: seq<string>, touched: seq<string>, now: nat,
                                        maximumConcurrent: nat, initial: nat)
    requires forall key :: key in keys ==> key in states
    ensures LongestWait(Touched(states, touched, now), keys, now, maximumConcurrent, initial)
            == LongestWait(states, keys, now, maximumConcurrent, initial)
  {
    if keys != [] {
      TouchedWaits(states, keys[..|keys| - 1], touched, now, maximumConcurrent, initial);
    }
  }

  /** The loop that decides: the delay is positive exactly if some key refuses, and by then every
      key's backoff is over. */
  method Decide(states: States, keys: seq<string>, now: nat, maximumConcurrent: nat, initial: nat)
    returns (after: States, retryAfter: nat)
    requires initial > 0 && forall key :: key in keys ==> key in states
    ensures after == Touched(states, keys, now)
    ensures retryAfter == LongestWait(states, keys, now, maximumConcurrent, initial)
  {
    after, retryAfter := states, 0;
    for i := 0 to |keys|
      invariant after == Touched(states, keys[..i], now)
      invariant retryAfter == LongestWait(states, keys[..i], now, maximumConcurrent, initial)
    {
      var state := after[keys[i]].(lastAccess := now);
      TouchedOneMore(states, keys, i, now);
      after := after[keys[i] := state];
      if state.retryAt > now {
        retryAfter := Max(retryAfter, state.retryAt - now);
      }
      if state.inFlight >= maximumConcurrent {
        retryAfter := Max(retryAfter, initial);
      }
      assert keys[..i + 1][..i] == keys[..i];
    }
    assert keys[..|keys|] == keys;
  }

  lemma {:induction false} TouchedOneMore(states: States, keys: seq<string>, i: nat, now: nat)
    requires i < |keys| && keys[i] in states
    ensures Touched(states, keys[..i + 1], now)
            == Touched(states, keys[..i], now)[keys[i] := Touched(states, keys[..i], now)[keys[i]].(lastAccess := now)]
  {
    forall key ensures key in keys[..i + 1] <==> key in keys[..i] || key == keys[i] {
      InPrefix(keys, i, key);
    }
  }

  /** One change to the states of some keys. */
  ghost function Changed(states: States, keys: seq<string>, change: Attempts -> Attempts): (after: States)
  {
    map key | key in states :: if key in keys then change(states[key]) else states[key]
  }

  lemma {:induction false} ChangedOneMore(states: States, keys: seq<string>, i: nat, change: Attempts -> Attempts)
    requires i < |keys| && keys[i] in states && Distinct(keys)
    ensures keys[i] in Changed(states, keys[..i], change)
        && Changed(states, keys[..i], change)[keys[i]] == states[keys[i]]
    ensures Changed(states, keys[..i + 1], change)
        == Changed(states, keys[..i], change)[keys[i] := change(states[keys[i]])]
  {
    forall key ensures key in keys[..i + 1] <==> key in keys[..i] || key == keys[i] {
      InPrefix(keys, i, key);
    }
  }

  function Begun(now: nat): (change: Attempts -> Attempts)
  {
    (state: Attempts) => state.(inFlight := state.inFlight + 1, lastAccess := now)
  }

  method CountBegun(states: States, keys: seq<string>, now: nat) returns (after: States)
    requires Distinct(keys) && forall key :: key in keys ==> key in states
    ensures after == Changed(states, keys, Begun(now))
  {
    after := states;
    for i := 0 to |keys|
      invariant after == Changed(states, keys[..i], Begun(now))
    {
      ChangedOneMore(states, keys, i, Begun(now));
      after := after[keys[i] := after[keys[i]].(inFlight := after[keys[i]].inFlight + 1, lastAccess := now)];
    }
    assert keys[..|keys|] == keys;
  }

  // ---------------------------------------------------------------------------
  // The limiter

  datatype Options = Options(maximumConcurrent: nat, threshold: nat, initial: nat, maximum: nat, retention: nat,
      maximumStates: nat)

  /** What NewAttemptLimiter guarantees. */
  predicate OptionsOk(options: Options)
  {
    0 < options.maximumConcurrent && 0 < options.threshold && 0 < options.initial <= options.maximum
  }

  /** What the end of an attempt does to a state. */
  function EndedState(options: Options, outcome: Outcome, now: nat, state: Attempts): (after: Attempts)
  {
    var left := state.(inFlight := if state.inFlight > 0 then state.inFlight - 1 else 0, lastAccess := now);
    match outcome
    case Aborted => left
    case Succeeded => left.(failures := 0, retryAt := 0)
    case Failed =>
      left.(failures := state.failures + 1,
            retryAt := if state.failures + 1 >= options.threshold then now + Delay(options, state.failures + 1)
                else state.retryAt)
  }

  function Ended(options: Options, outcome: Outcome, now: nat): (change: Attempts -> Attempts)
  {
    (state: Attempts) => EndedState(options, outcome, now, state)
  }

  /** The delay after so many failures. */
  function Delay(options: Options, failures: nat): (delay: nat)
    requires failures >= options.threshold
  {
    Min(options.initial * Power(failures - options.threshold), options.maximum)
  }

  method RetryTime(options: Options, failures: nat, now: nat) returns (at: nat)
    requires OptionsOk(options) && failures >= options.threshold
    ensures at == now + Delay(options, failures)
  {
    var delay := Backoff(options.initial, options.maximum, options.threshold, failures);
    at := now + delay;
  }

  /** The body of finish for one key. */
  method EndOne(before: Attempts, outcome: Outcome, now: nat, options: Options) returns (state: Attempts)
    requires OptionsOk(options)
    ensures state == EndedState(options, outcome, now, before)
  {
    state := before.(lastAccess := now);
    if state.inFlight > 0 {
      state := state.(inFlight := state.inFlight - 1);
    }
    match outcome {
      case Aborted =>
      case Succeeded =>
        state := state.(failures := 0, retryAt := 0);
      case Failed =>
        state := state.(failures := state.failures + 1);
        if state.failures >= options.threshold {
          var retryAt := RetryTime(options, state.failures, now);
          state := state.(retryAt := retryAt);
        }
    }
  }

  method CountEnded(states: States, keys: seq<string>, outcome: Outcome, now: nat, options: Options)
    returns (after: States)
    requires OptionsOk(options) && Distinct(keys) && forall key :: key in keys ==> key in states
    ensures after == Changed(states, keys, Ended(options, outcome, now))
  {
    after := states;
    for i := 0 to |keys|
      invariant after == Changed(states, keys[..i], Ended(options, outcome, now))
    {
      ChangedOneMore(states, keys, i, Ended(options, outcome, now));
      var state := EndOne(after[keys[i]], outcome, now, options);
      after := after[keys[i] := state];
    }
    assert keys[..|keys|] == keys;
  }

  ghost predicate Sound(options: Options, states: States, attempts: map<nat, seq<string>>)
  {
    Exact(states, attempts) && Bounded(states, options.maximumConcurrent) && Sized(states, options.maximumStates)
  }

  /** Sweeping drops no state that an attempt needs. */
  lemma {:induction false} SweepKeepsLive(options: Options, states: States, attempts: map<nat, seq<string>>,
                                          kept: States, now: nat)
    requires Sound(options, states, attempts) && kept == Swept(states, now, options.retention)
    ensures Sound(options, kept, attempts)
    ensures forall id, key :: id in attempts && key in attempts[id] ==> key in kept && kept[key] == states[key]
  {
    forall id, key | id in attempts && key in attempts[id] ensures key in kept && kept[key] == states[key] {
      assert id in Holding(attempts, key);
    }
    SizeAfterDrop(states, kept, options.maximumStates);
  }

  lemma {:induction false} TrackedSound(options: Options, states: States, attempts: map<nat, seq<string>>,
                                        after: States, tracked: seq<string>, now: nat)
    requires Sound(options, states, attempts) && Tracks(states, after, tracked, now)
        && Sized(after, options.maximumStates)
    ensures Sound(options, after, attempts)
  {
    forall key | key in after && key !in states ensures Holding(attempts, key) == {} {
    }
  }

  lemma {:induction false} TouchedSound(options: Options, states: States, attempts: map<nat, seq<string>>,
                                        keys: seq<string>, now: nat)
    requires Sound(options, states, attempts)
    ensures Sound(options, Touched(states, keys, now), attempts)
  {
    SizeAfterDrop(states, Touched(states, keys, now), options.maximumStates);
  }

  lemma {:induction false} BegunSound(options: Options, states: States, attempts: map<nat, seq<string>>, id: nat,
                                      keys: seq<string>, now: nat)
    requires Sound(options, states, attempts) && id !in attempts && Distinct(keys)
    requires forall key :: key in keys ==> key in states && states[key].inFlight < options.maximumConcurrent
    ensures Sound(options, Changed(states, keys, Begun(now)), attempts[id := keys])
  {
    var after := Changed(states, keys, Begun(now));
    forall key | key in after ensures after[key].inFlight == |Holding(attempts[id := keys], key)| {
      HoldingAdded(attempts, id, keys, key);
    }
    SizeAfterDrop(states, after, options.maximumStates);
  }

  lemma {:induction false} EndedSound(options: Options, states: States, attempts: map<nat, seq<string>>, id: nat,
                                      outcome: Outcome, now: nat)
    requires Sound(options, states, attempts) && id in attempts
    ensures Sound(options, Changed(states, attempts[id], Ended(options, outcome, now)), attempts - {id})
  {
    var after := Changed(states, attempts[id], Ended(options, outcome, now));
    forall key | key in after ensures after[key].inFlight == |Holding(attempts - {id}, key)| {
      HoldingRemoved(attempts, id, key);
      assert key in attempts[id] ==> id in Holding(attempts, key);
    }
    SizeAfterDrop(states, after, options.maximumStates);
  }

  /** Every state is as it was but for its access time, or new; a forgotten one counted nothing. */
  ghost predicate Comes(before: States, after: States)
  {
    && (forall key :: key in after ==>
          || (key in before && after[key] == before[key].(lastAccess := after[key].lastAccess))
          || after[key] == Attempts(0, 0, 0, after[key].lastAccess))
    && (forall key :: key in before && before[key].inFlight > 0 ==>
        key in after && after[key].inFlight == before[key].inFlight)
  }

  // ---------------------------------------------------------------------------
  // What begin computes

  datatype Memory = Memory(states: States, nextSweep: nat)

  ghost function AfterSweep(options: Options, memory: Memory, now: nat, minute: nat): (after: Memory)
  {
    if memory.nextSweep != 0 && now < memory.nextSweep then memory
    else Memory(Swept(memory.states, now, options.retention), now + minute)
  }

  /** The keys an attempt would be counted under. */
  ghost function CountedKeys(options: Options, memory: Memory, keys: seq<string>, now: nat,
                             minute: nat): (counted: seq<string>)
  {
    TrackOn(AfterSweep(options, memory, now, minute).states, [], keys, now, options.maximumStates).1
  }

  /** The states by which it would be judged. */
  ghost function Judged(options: Options, memory: Memory, keys: seq<string>, now: nat, minute: nat): (states: States)
  {
    Touched(TrackOn(AfterSweep(options, memory, now, minute).states, [], keys, now, options.maximumStates).0,
            CountedKeys(options, memory, keys, now, minute), now)
  }

  /** Judging forgets, at most, states that count nothing, adds empty ones and touches some. */
  lemma {:induction false} JudgedComes(options: Options, memory: Memory, attempts: map<nat, seq<string>>,
                                       keys: seq<string>,
                                       now: nat, minute: nat)
    requires Sound(options, memory.states, attempts)
    ensures Comes(memory.states, Judged(options, memory, keys, now, minute))
    ensures Distinct(CountedKeys(options, memory, keys, now, minute))
    ensures forall key :: key in keys ==>
              || key in CountedKeys(options, memory, keys, now, minute)
              || Overflow in CountedKeys(options, memory, keys, now, minute)
  {
    var swept := AfterSweep(options, memory, now, minute).states;
    SizeAfterDrop(memory.states, swept, options.maximumStates);
    TrackOnTracks(swept, swept, [], keys, now, options.maximumStates);
    var (after, counted) := TrackOn(swept, [], keys, now, options.maximumStates);
    TouchedComes(memory.states, swept, after, counted, now);
  }

  lemma {:induction false} TouchedComes(before: States, swept: States, after: States, counted: seq<string>, now: nat)
    requires Tracks(swept, after, counted, now)
    requires forall key :: key in swept ==> key in before && swept[key] == before[key]
    requires forall key :: key in before && before[key].inFlight > 0 ==> key in swept
    ensures Comes(before, Touched(after, counted, now))
  {
  }

  ghost predicate Starts(options: Options, memory: Memory, keys: seq<string>, now: nat, minute: nat)
  {
    var states := Judged(options, memory, keys, now, minute);
    forall key :: key in CountedKeys(options, memory, keys, now, minute) ==>
      key in states && Admits(states[key], now, options.maximumConcurrent)
  }

  ghost function AfterBegin(options: Options, memory: Memory, keys: seq<string>, now: nat, minute: nat): (after: Memory)
  {
    var states := Judged(options, memory, keys, now, minute);
    Memory(if Starts(options, memory, keys, now, minute)
           then Changed(states, CountedKeys(options, memory, keys, now, minute), Begun(now)) else states,
           AfterSweep(options, memory, now, minute).nextSweep)
  }

  ghost function AfterFinish(options: Options, memory: Memory, keys: seq<string>, outcome: Outcome,
                             now: nat): (after: Memory)
  {
    memory.(states := Changed(memory.states, keys, Ended(options, outcome, now)))
  }

  class Limiter {
    const options: Options
    var states: States
    var nextSweep: nat
    /** The attempts under way, with the keys each is counted under. */
    ghost var attempts: map<nat, seq<string>>

    constructor (options: Options)
      requires OptionsOk(options)
      ensures Valid() && this.options == options && attempts == map[] && states == map[]
    {
      this.options := options;
      states, nextSweep, attempts := map[], 0, map[];
    }

    ghost predicate Valid()
      reads this
    {
      OptionsOk(options) && Sound(options, states, attempts)
    }

    ghost function Now(): (memory: Memory)
      reads this
    {
      Memory(states, nextSweep)
    }

    /** sweepLocked, at most once a minute. */
    method Sweep(now: nat, minute: nat)
      requires Valid()
      modifies this`states, this`nextSweep
      ensures Valid() && Now() == AfterSweep(options, old(Now()), now, minute)
      ensures forall key :: key in states ==> key in old(states) && states[key] == old(states)[key]
      ensures forall key :: key in old(states) && old(states)[key].inFlight > 0 ==> key in states
    {
      if nextSweep != 0 && now < nextSweep {
        return;
      }
      var kept := SweepStates(states, now, options.retention);
      SweepKeepsLive(options, states, attempts, kept, now);
      states, nextSweep := kept, now + minute;
    }

    /** The first half of begin: the states of the keys, and how long they make the attempt wait. */
    method Screen(keys: seq<string>, now: nat, minute: nat) returns (counted: seq<string>, retryAfter: nat)
      requires Valid()
      modifies this`states, this`nextSweep
      ensures Valid()
      ensures counted == CountedKeys(options, old(Now()), keys, now, minute)
      ensures states == Judged(options, old(Now()), keys, now, minute)
      ensures nextSweep == AfterSweep(options, old(Now()), now, minute).nextSweep
      ensures forall key :: key in counted ==> key in states
      ensures retryAfter == LongestWait(states, counted, now, options.maximumConcurrent, options.initial)
    {
      Sweep(now, minute);
      TrackOnTracks(states, states, [], keys, now, options.maximumStates);
      var after;
      after, counted := TrackedKeys(states, keys, now, options.maximumStates);
      TrackedSound(options, states, attempts, after, counted, now);
      var touched;
      touched, retryAfter := Decide(after, counted, now, options.maximumConcurrent, options.initial);
      TouchedSound(options, after, attempts, counted, now);
      TouchedWaits(after, counted, counted, now, options.maximumConcurrent, options.initial);
      states := touched;
    }

    /** begin: an attempt starts exactly if none of the keys it is counted under is in backoff or at
        its limit; all of them are then counted. Otherwise nothing is counted, and the wait is the
        longest that any of them demands. */
    method Begin(keys: seq<string>, now: nat, minute: nat, ghost id: nat)
      returns (tracked: Option<seq<string>>, retryAfter: nat, ghost counted: seq<string>, ghost before: States)
      requires Valid() && id !in attempts
      modifies this
      ensures Valid() && Distinct(counted) && forall key :: key in counted ==> key in before
      ensures forall key :: key in keys ==> key in counted || Overflow in counted
      ensures Comes(old(states), before)
      ensures retryAfter == LongestWait(before, counted, now, options.maximumConcurrent, options.initial)
      ensures tracked.Some? <==> forall key :: key in counted ==> Admits(before[key], now, options.maximumConcurrent)
      ensures tracked.Some? ==> tracked.value == counted && retryAfter == 0
      ensures counted == CountedKeys(options, old(Now()), keys, now, minute)
      ensures tracked.Some? <==> Starts(options, old(Now()), keys, now, minute)
      ensures attempts == if tracked.Some? then old(attempts)[id := counted] else old(attempts)
      ensures Now() == AfterBegin(options, old(Now()), keys, now, minute)
    {
      counted, before := [], map[];
      JudgedComes(options, Now(), attempts, keys, now, minute);
      var held;
      held, retryAfter := Screen(keys, now, minute);
      counted, before := held, states;
      NoWaitExactly(states, held, now, options.maximumConcurrent, options.initial);
      if retryAfter > 0 {
        tracked := None;
        return;
      }
      var begun := CountBegun(states, held, now);
      BegunSound(options, states, attempts, id, held, now);
      states := begun;
      attempts := attempts[id := held];
      tracked := Some(held);
    }

    /** finish, called once for every attempt that began. */
    method Finish(keys: seq<string>, outcome: Outcome, now: nat, ghost id: nat)
      requires Valid() && id in attempts && attempts[id] == keys
      modifies this`states, this`attempts
      ensures Valid() && attempts == old(attempts) - {id}
      ensures Now() == AfterFinish(options, old(Now()), keys, outcome, now)
    {
      var after := CountEnded(states, keys, outcome, now, options);
      EndedSound(options, states, attempts, id, outcome, now);
      states, attempts := after, attempts - {id};
    }
  }
}
