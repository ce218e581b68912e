/** The job locks that Start, Cancel and Complete take (internal/runner/coordinator.go). Each
    holds its own job's lock while reconciling, and then asks for the locks of other jobs in
    whatever order reconciliation finds them, not in lock-key order. */
module JobLocks {
  import opened Basics

  /** Where an operation is. Times are step numbers.
      Entering: asks for the lock of its own job.
      Holding: has it and has read the record.
      Scanning: has saved its own job out of waiting and manual, and looks for work.
      Wanting: has read another job as waiting or manual and asks for its lock.
      Updating: holds both locks and recomputes the update. */
  datatype Thread =
    | Idle
    | Entering(own: string)
    | Holding(own: string)
    | Scanning(own: string, savedAt: nat)
    | Wanting(own: string, savedAt: nat, want: string, readAt: nat)
    | Updating(own: string, savedAt: nat, want: string)

  /** `unstarted` are the jobs whose record says waiting or manual; `left` is history, the time
      by which a job had left those statuses. */
  datatype State = State(threads: map<nat, Thread>, unstarted: set<string>, left: map<string, nat>, clock: nat)

  datatype Step =
    | Enter(t: nat, job: string)
    | TakeOwn(t: nat)
    | Refuse(t: nat)
    | SaveOwn(t: nat)
    | Read(t: nat, job: string)
    | TakeSecond(t: nat)
    | Update(t: nat, saves: bool)
    | Finish(t: nat)
    | AddJobs(jobs: set<string>)

  predicate Holds(thread: Thread, job: string)
  {
    match thread
    case Idle => false
    case Entering(_) => false
    case Holding(own) => own == job
    case Scanning(own, _) => own == job
    case Wanting(own, _, _, _) => own == job
    case Updating(own, _, want) => own == job || want == job
  }

  predicate Free(state: State, job: string)
  {
    forall t :: t in state.threads ==> !Holds(state.threads[t], job)
  }

  function Become(state: State, t: nat, thread: Thread): (next: Option<State>)
  {
    Some(state.(threads := state.threads[t := thread], clock := state.clock + 1))
  }

  /** Saves a job out of waiting and manual. */
  function Leave(state: State, job: string): (next: State)
  {
    state.(unstarted := state.unstarted - {job},
           left := if job in state.left then state.left else state.left[job := state.clock])
  }

  function Do(state: State, step: Step): (next: Option<State>)
  {
    if step.AddJobs? then
      // Scheduling holds the repository lock exclusively, so no operation is under way.
      if (forall t :: t in state.threads ==> state.threads[t].Idle?) && step.jobs !! state.left.Keys
      then Some(state.(unstarted := state.unstarted + step.jobs, clock := state.clock + 1))
      else None
    else if step.t !in state.threads then None
    else
      var t, thread := step.t, state.threads[step.t];
      match step
      case Enter(_, job) => if thread.Idle? then Become(state, t, Entering(job)) else None
      case TakeOwn(_) => if thread.Entering? && Free(state, thread.own) then Become(state, t, Holding(thread.own))
          else None
      case Refuse(_) => if thread.Holding? then Become(state, t, Idle) else None
      case SaveOwn(_) => if thread.Holding? then Become(Leave(state, thread.own), t,
          Scanning(thread.own, state.clock)) else None
      case Read(_, job) =>
        if thread.Scanning? && job in state.unstarted then Become(state, t,
            Wanting(thread.own, thread.savedAt, job, state.clock)) else None
      case TakeSecond(_) =>
        if thread.Wanting? && Free(state, thread.want)
        then Become(state, t, Updating(thread.own, thread.savedAt, thread.want)) else None
      case Update(_, saves) =>
        if thread.Updating? then Become(if saves then Leave(state, thread.want)
        else state, t, Scanning(thread.own, thread.savedAt)) else None
      case Finish(_) => if thread.Scanning? then Become(state, t, Idle) else None
  }

  function Run(state: State, steps: seq<Step>): (end: Option<State>)
    decreases |steps|
  {
    if steps == [] then Some(state)
    else
      var next := Do(state, steps[0]);
      if next.None? then None else Run(next.value, steps[1..])
  }

  predicate Initial(state: State)
  {
    state.left == map[] && forall t :: t in state.threads ==> state.threads[t].Idle?
  }

  // ---------------------------------------------------------------------------
  // The invariant

  predicate ThreadSound(state: State, thread: Thread)
  {
    && (thread.Scanning? || thread.Wanting? || thread.Updating? ==>
          && thread.own in state.left && state.left[thread.own] <= thread.savedAt < state.clock)
    && (thread.Wanting? ==>
          && thread.savedAt < thread.readAt < state.clock
          && (thread.want in state.unstarted || (thread.want in state.left && thread.readAt < state.left[thread.want])))
    && (thread.Updating? ==> thread.own != thread.want)
  }

  /** No job lock has two holders. */
  ghost predicate Exclusive(state: State)
  {
    forall t, u, job ::
      t in state.threads && u in state.threads && Holds(state.threads[t], job) && Holds(state.threads[u], job) ==>
        t == u
  }

  ghost predicate Inv(state: State)
  {
    && state.unstarted !! state.left.Keys
    && (forall job :: job in state.left ==> state.left[job] < state.clock)
    && (forall t :: t in state.threads ==> ThreadSound(state, state.threads[t]))
    && Exclusive(state)
  }

  /** What is true of a thread stays true while others move. */
  lemma {:induction false} OthersStaySound(state: State, next: State, thread: Thread)
    requires ThreadSound(state, thread) && state.clock < next.clock
    requires state.unstarted !! state.left.Keys
    requires next == state.(clock := next.clock, threads := next.threads) ||
      (exists job :: next == Leave(state, job).(clock := next.clock, threads := next.threads))
    ensures ThreadSound(next, thread)
  {
  }

  lemma {:induction false} StepKeepsInv(state: State, step: Step)
    requires Inv(state) && Do(state, step).Some?
    ensures Inv(Do(state, step).value)
  {
    var next := Do(state, step).value;
    if step.AddJobs? {
    } else {
      var t, thread := step.t, state.threads[step.t];
      forall u | u in next.threads ensures ThreadSound(next, next.threads[u]) {
        if u != t {
          if step.SaveOwn? {
            assert next == Leave(state, thread.own).(clock := next.clock, threads := next.threads);
          } else if step.Update? && step.saves {
            assert next == Leave(state, thread.want).(clock := next.clock, threads := next.threads);
          }
          OthersStaySound(state, next, state.threads[u]);
        }
      }
      StepKeepsExclusive(state, step);
    }
  }

  lemma {:induction false} StepKeepsExclusive(state: State, step: Step)
    requires Inv(state) && !step.AddJobs? && Do(state, step).Some?
    ensures Exclusive(Do(state, step).value)
  {
    var next := Do(state, step).value;
    var t := step.t;
    assert forall u :: u in next.threads && u != t ==> next.threads[u] == state.threads[u];
    assert forall job :: Holds(next.threads[t], job) ==> Holds(state.threads[t], job) || Free(state, job);
  }

  lemma {:induction false} RunKeepsInv(state: State, steps: seq<Step>)
    requires Inv(state) && Run(state, steps).Some?
    ensures Inv(Run(state, steps).value)
    decreases |steps|
  {
    if steps != [] {
      StepKeepsInv(state, steps[0]);
      RunKeepsInv(Do(state, steps[0]).value, steps[1..]);
    }
  }

  // ---------------------------------------------------------------------------
  // Main results

  /** t asks for a lock that u holds. */
  predicate WaitsFor(state: State, t: nat, u: nat)
  {
    && t in state.threads && u in state.threads
    && ((state.threads[t].Entering? && Holds(state.threads[u], state.threads[t].own)) ||
        (state.threads[t].Wanting? && Holds(state.threads[u], state.threads[t].want)))
  }

  /** Waiting behind a thread that waits itself means having read the job earlier than that
      thread read the one it waits for. */
  lemma {:induction false} WaitsAreOrdered(state: State, t: nat, u: nat, v: nat)
    requires Inv(state) && WaitsFor(state, t, u) && WaitsFor(state, u, v) && state.threads[t].Wanting?
    ensures state.threads[u].Wanting? && state.threads[t].readAt < state.threads[u].readAt
  {
    assert ThreadSound(state, state.threads[t]) && ThreadSound(state, state.threads[u]);
  }

  predicate WaitChain(state: State, chain: seq<nat>)
  {
    |chain| >= 2 && forall i :: 0 <= i < |chain| - 1 ==> WaitsFor(state, chain[i], chain[i + 1])
  }

  lemma {:induction false} ChainAscends(state: State, chain: seq<nat>, n: nat)
    requires Inv(state) && WaitChain(state, chain) && n < |chain| - 1
    requires chain[0] in state.threads && state.threads[chain[0]].Wanting?
    ensures chain[n] in state.threads && state.threads[chain[n]].Wanting?
    ensures state.threads[chain[0]].readAt + n <= state.threads[chain[n]].readAt
  {
    if n > 0 {
      ChainAscends(state, chain, n - 1);
      WaitsAreOrdered(state, chain[n - 1], chain[n], chain[n + 1]);
    }
  }

  /** In every run, no circle of operations waits for one another's job locks, although second
      locks are taken out of key order. */
  lemma {:induction false} NoCircularWait(start: State, steps: seq<Step>, chain: seq<nat>)
    requires Initial(start) && Run(start, steps).Some?
    requires WaitChain(Run(start, steps).value, chain)
    ensures chain[0] != chain[|chain| - 1]
  {
    RunKeepsInv(start, steps);
    var state := Run(start, steps).value;
    var last := |chain| - 1;
    if chain[0] == chain[last] {
      assert WaitsFor(state, chain[last - 1], chain[last]);
      assert WaitsFor(state, chain[0], chain[1]);
      assert state.threads[chain[0]].Wanting?;
      ChainAscends(state, chain, last - 1);
      WaitsAreOrdered(state, chain[last - 1], chain[0], chain[1]);
      assert false;
    }
  }

  /** The step an operation takes next, other than starting anew. */
  predicate CanMove(state: State, t: nat)
    requires t in state.threads
  {
    match state.threads[t]
    case Idle => false
    case Entering(own) => Free(state, own)
    case Holding(_) => true
    case Scanning(_, _) => true
    case Wanting(_, _, want, _) => Free(state, want)
    case Updating(_, _, _) => true
  }

  /** A possible step of an operation that is under way. */
  predicate Advances(state: State, step: Step)
  {
    !step.AddJobs? && step.t in state.threads && !state.threads[step.t].Idle? && Do(state, step).Some?
  }

  lemma {:induction false} CanMoveMeansStep(state: State, t: nat)
    requires t in state.threads && CanMove(state, t)
    ensures exists step: Step :: Advances(state, step)
  {
    match state.threads[t]
    case Entering(own) => assert Advances(state, TakeOwn(t));
    case Holding(_) => assert Advances(state, SaveOwn(t));
    case Scanning(_, _) => assert Advances(state, Finish(t));
    case Wanting(_, _, want, _) => assert Advances(state, TakeSecond(t));
    case Updating(_, _, _) => assert Advances(state, Update(t, true));
  }

  lemma {:induction false} FollowWaits(state: State, t: nat) returns (mover: nat)
    requires Inv(state) && t in state.threads && state.threads[t].Wanting?
    ensures mover in state.threads && CanMove(state, mover)
    decreases state.clock - state.threads[t].readAt
  {
    assert ThreadSound(state, state.threads[t]);
    if Free(state, state.threads[t].want) {
      mover := t;
    } else {
      var u :| u in state.threads && Holds(state.threads[u], state.threads[t].want);
      if CanMove(state, u) {
        mover := u;
      } else {
        assert ThreadSound(state, state.threads[u]);
        mover := FollowWaits(state, u);
      }
    }
  }

  /** Start, Cancel and Complete cannot deadlock: as long as one of them is under way, one of
      them can take its next step. */
  lemma {:induction false} NeverDeadlocked(start: State, steps: seq<Step>, t: nat)
    requires Initial(start) && Run(start, steps).Some?
    requires t in Run(start, steps).value.threads && !Run(start, steps).value.threads[t].Idle?
    ensures
      exists step: Step :: Advances(Run(start, steps).value, step)
  {
    RunKeepsInv(start, steps);
    var state := Run(start, steps).value;
    var mover := t;
    if !CanMove(state, t) {
      if state.threads[t].Wanting? {
        mover := FollowWaits(state, t);
      } else {
        var u :| u in state.threads && Holds(state.threads[u], state.threads[t].own);
        if CanMove(state, u) {
          mover := u;
        } else {
          mover := FollowWaits(state, u);
        }
      }
    }
    CanMoveMeansStep(state, mover);
  }
}
