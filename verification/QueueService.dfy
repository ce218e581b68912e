/** The coordinator's operations as they run one after another on the stored records
    (internal/runner/coordinator.go): each saves one record and then reconciles the
    dependencies until nothing is left to do. */
module QueueService {
  import opened Basics
  import opened Dependencies
  import opened BuildQueue

  lemma {:induction false} RunAppend(start: State, steps: seq<Step>, more: seq<Step>)
    requires Run(start, steps).Some?
    ensures Run(start, steps + more) == Run(Run(start, steps).value, more)
    decreases |steps|
  {
    if steps == [] {
      assert steps + more == more;
    } else {
      assert (steps + more)[0] == steps[0] && (steps + more)[1..] == steps[1..] + more;
      RunAppend(Do(start, steps[0]).value, steps[1..], more);
    }
  }

  /** A recorded run from an invariant state. */
  ghost predicate Traced(start: State, steps: seq<Step>, state: State)
  {
    Inv(start) && Run(start, steps) == Some(state) && Inv(state)
  }

  lemma {:induction false} TraceStep(start: State, steps: seq<Step>, state: State, step: Step)
    requires Traced(start, steps, state) && Do(state, step).Some?
    ensures Traced(start, steps + [step], Do(state, step).value)
  {
    RunAppend(start, steps, [step]);
    assert Run(state, [step]) == Run(Do(state, step).value, []) by {
      assert [step][1..] == [];
    }
    StepKeepsInv(state, step);
  }

  /** On the way, the final status seen from where one is equals the one seen from the start. */
  lemma {:induction false} DoomedOnTheWay(start: Jobs, jobs: Jobs, id: string, k: nat)
    requires Between(start, jobs) && Doomed(jobs, id, k)
    ensures IsDoomed(start, id)
    decreases k
  {
    SettledJobNotPending(start, id);
    var need :| need in jobs[id].needs && (Problem(need, jobs).Some? || Doomed(jobs, need.id, k - 1));
    if Problem(need, jobs).Some? {
      BrokenIsDoomed(start, jobs, id, need);
    } else {
      DoomedOnTheWay(start, jobs, need.id, k - 1);
      var j: nat :| Doomed(start, need.id, j);
      assert Doomed(start, id, j + 1);
    }
  }

  lemma {:induction false} FinalOnTheWay(start: Jobs, jobs: Jobs, id: string)
    requires Between(start, jobs) && id in jobs
    ensures FinalStatus(jobs, id) == jobs[id].status || FinalStatus(jobs, id) == FinalStatus(start, id)
  {
    if IsDoomed(jobs, id) {
      var k: nat :| Doomed(jobs, id, k);
      DoomedOnTheWay(start, jobs, id, k);
    } else if FinalStatus(jobs, id) != jobs[id].status {
      SettledJobNotPending(start, id);
      ReadyFromTheStart(start, jobs, id);
      ReadyNotDoomed(start, id);
    }
  }

  lemma {:induction false} SaveOnTheWay(start: Jobs, jobs: Jobs, job: Job)
    requires Between(start, jobs) && job.id in jobs && SameButStatus(jobs[job.id], job)
    requires job.status == FinalStatus(jobs, job.id)
    ensures Between(start, jobs[job.id := job])
  {
    FinalOnTheWay(start, jobs, job.id);
  }

  lemma {:induction false} ChangedMember(before: seq<Job>, after: seq<Job>, i: nat)
    requires |before| == |after| && i < |Changed(before, after)|
    ensures exists k :: 0 <= k < |after| && Changed(before, after)[i] == after[k] && before[k].status != after[k].status
  {
    var here := if before[0].status != after[0].status then [after[0]] else [];
    if i < |here| {
      assert Changed(before, after)[i] == after[0];
    } else {
      ChangedMember(before[1..], after[1..], i - |here|);
      var k :| 0 <= k < |after[1..]| && Changed(before[1..], after[1..])[i - |here|] == after[1..][k]
          && before[1..][k].status != after[1..][k].status;
      assert Changed(before, after)[i] == after[k + 1];
    }
  }

  lemma {:induction false} NoneChanged(before: seq<Job>, after: seq<Job>)
    requires |before| == |after| && Changed(before, after) == []
    ensures forall k :: 0 <= k < |after| ==> before[k].status == after[k].status
  {
    if after != [] {
      NoneChanged(before[1..], after[1..]);
      forall k | 0 <= k < |after| ensures before[k].status == after[k].status {
        if k > 0 {
          assert before[k] == before[1..][k - 1] && after[k] == after[1..][k - 1];
        }
      }
    }
  }

  lemma {:induction false} SameReadiness(left: Jobs, right: Jobs, needs: seq<Need>)
    requires left.Keys == right.Keys && forall id :: id in left ==> left[id].status == right[id].status
    ensures ReadinessOf(needs, left).Broken? == ReadinessOf(needs, right).Broken?
    ensures ReadinessOf(needs, left).Ready? == ReadinessOf(needs, right).Ready?
  {
    assert forall need :: Problem(need, left) == Problem(need, right) && Met(need, left) == Met(need, right);
  }

  lemma {:induction false} SettledIsQuiet(jobs: Jobs, after: Jobs)
    requires Between(jobs, after) && Quiet(after) && forall id :: id in jobs ==> jobs[id].status == after[id].status
    ensures Quiet(jobs)
  {
    forall id | id in jobs ensures Settle(jobs[id], jobs, 0).status == jobs[id].status {
      SameReadiness(jobs, after, jobs[id].needs);
      assert Settle(after[id], after, 0).status == after[id].status;
    }
  }

  class Coordinator {
    var jobs: Jobs
    var logs: map<string, string>
    ghost var sent: map<string, string>
    var clock: nat
    const leaseDuration: nat

    constructor (leaseDuration: nat)
      ensures jobs == map[] && logs == map[] && sent == map[] && this.leaseDuration == leaseDuration
    {
      jobs, logs, sent, clock := map[], map[], map[], 0;
      this.leaseDuration := leaseDuration;
    }

    ghost function Now(): (state: State)
      reads this
    {
      State(jobs, logs, sent, clock, leaseDuration)
    }

    /** The records in some order. */
    method List() returns (list: seq<Job>)
      requires WellFormed(jobs)
      ensures Distinct(list) && ById(list) == jobs
    {
      list := [];
      var ids := jobs.Keys;
      while ids != {}
        invariant ids <= jobs.Keys && Distinct(list)
        invariant forall i :: 0 <= i < |list| ==>
            list[i].id in jobs && list[i].id !in ids && list[i] == jobs[list[i].id]
        invariant forall id :: id in jobs && id !in ids ==> exists i :: 0 <= i < |list| && list[i].id == id
      {
        var id :| id in ids;
        ghost var before := list;
        assert WellFormedJob(id, jobs[id]);
        list := list + [jobs[id]];
        ids := ids - {id};
        assert list[|list| - 1].id == id;
        assert forall i :: 0 <= i < |before| ==> list[i] == before[i];
      }
      ListIndexes(list, jobs);
    }

    method SaveUpdate(update: Job, ghost start: Jobs, ghost begun: State, ghost before: seq<Step>)
      returns (ghost steps: seq<Step>)
      requires Traced(begun, before, Now()) && Between(start, jobs) && Steady(start, jobs)
      requires update.id in jobs && Recorded(jobs[update.id], update, clock)
      requires update.status != jobs[update.id].status && update.status == FinalStatus(jobs, update.id)
      modifies this`jobs
      ensures Traced(begun, steps, Now()) && Between(start, jobs) && Steady(start, jobs)
      ensures PendingIds(jobs) < old(PendingIds(jobs))
    {
      UpdateIsStep(Now(), update);
      SaveOnTheWay(start, jobs, update);
      ghost var step := Reconcile(update.id, jobs, update.error);
      TraceStep(begun, before, Now(), step);
      steps := before + [step];
      jobs := jobs[update.id := update];
    }

    /** One look at all records: what reconciliation would change. */
    method LookAround() returns (updates: seq<Job>, list: seq<Job>, after: seq<Job>)
      requires WellFormed(jobs)
      ensures Looked(jobs, list, after, clock) && updates == Changed(list, after)
    {
      list := List();
      var copy := new Job[|list|](i requires 0 <= i < |list| => list[i]);
      assert copy[..] == list;
      updates := ReconcileJobDependencies(copy, clock);
      after := copy[..];
    }

    /** The second look, under the lock of the job that the first one chose: its update, recomputed. */
    method LookAgain(id: string) returns (update: Option<Job>)
      requires WellFormed(jobs) && id in jobs
      ensures update.Some? <==> FinalStatus(jobs, id) != jobs[id].status
      ensures update.Some? ==> update.value.id == id && Recorded(jobs[id], update.value, clock)
      ensures update.Some? ==> update.value.status == FinalStatus(jobs, id)
    {
      var updates, list, after := LookAround();
      var found := FindUpdate(updates, id);
      if found.Some? {
        UpdateIsSettled(jobs, list, after, clock, found.value);
        return Some(updates[found.value]);
      }
      NoUpdateFor(jobs, list, after, clock, id);
      update := None;
    }

    /** One round: either nothing is left to do, or one update is saved. */
    method ReconcileRound(ghost start: Jobs, ghost begun: State, ghost before: seq<Step>)
      returns (more: bool, ghost steps: seq<Step>)
      requires Traced(begun, before, Now()) && Between(start, jobs) && Steady(start, jobs)
      modifies this`jobs
      ensures Traced(begun, steps, Now()) && Between(start, jobs) && Steady(start, jobs)
      ensures more ==> PendingIds(jobs) < old(PendingIds(jobs))
      ensures !more ==> Quiet(jobs) && jobs == old(jobs)
    {
      var updates, list, after := LookAround();
      if updates == [] {
        NoneChanged(list, after);
        NoUpdatesQuiet(jobs, list, after);
        return false, before;
      }
      UpdateIsSettled(jobs, list, after, clock, 0);
      var update := LookAgain(updates[0].id);
      steps := SaveUpdate(update.value, start, begun, before);
      more := true;
    }

    /** reconcileDependenciesWithLockedJob, with no other operation in between: one job is
        saved a round, until a look at all records finds nothing to do. */
    method ReconcileDependencies(ghost begun: State, ghost before: seq<Step>) returns (ghost steps: seq<Step>)
      requires Traced(begun, before, Now())
      modifies this`jobs
      ensures Traced(begun, steps, Now())
      ensures Quiet(jobs) && Between(old(jobs), jobs) && Steady(old(jobs), jobs)
    {
      ghost var start := jobs;
      steps := before;
      BetweenSelf(start);
      var more := true;
      while more
        invariant Traced(begun, steps, Now()) && Between(start, jobs) && Steady(start, jobs)
        invariant !more ==> Quiet(jobs)
        decreases PendingIds(jobs), more
      {
        more, steps := ReconcileRound(start, begun, steps);
      }
    }

    /** Saves one record as the given step and reconciles from there. */
    method SaveAndReconcile(job: Job, ghost step: Step) returns (ghost steps: seq<Step>)
      requires Inv(Now()) && Do(Now(), step) == Save(Now(), job)
      modifies this`jobs
      ensures Traced(old(Now()), steps, Now())
      ensures Quiet(jobs) && Between(old(jobs)[job.id := job], jobs)
    {
      ghost var begun := Now();
      TraceStep(begun, [], begun, step);
      assert [] + [step] == [step];
      jobs := jobs[job.id := job];
      steps := ReconcileDependencies(begun, [step]);
    }

    /** Start: a manual job whose needs have succeeded is queued, if its configuration can be read and
        still says manual. */
    method StartBuild(id: string, manual: bool) returns (ok: bool, ghost steps: seq<Step>)
      requires Inv(Now())
      modifies this`jobs
      ensures Traced(old(Now()), steps, Now())
      ensures ok <==> manual && old(StartJob(Now(), id, jobs)).Some?
      ensures ok ==> Quiet(jobs) && Between(old(StartJob(Now(), id, jobs)).value.jobs, jobs)
      ensures !ok ==> Now() == old(Now())
    {
      steps := [];
      if id !in jobs || !jobs[id].status.Manual? || !manual {
        return false, [];
      }
      var readiness := DependencyReadiness(jobs[id].needs, jobs);
      if !readiness.Ready? {
        return false, [];
      }
      assert WellFormedJob(id, jobs[id]);
      SameForward(jobs);
      steps := SaveAndReconcile(jobs[id].(status := Queued), Start(id, jobs));
      ok := true;
    }

    /** Cancel: a waiting, queued or running job is canceled, and what needs it fails. */
    method CancelBuild(id: string) returns (ok: bool, ghost steps: seq<Step>)
      requires Inv(Now())
      modifies this`jobs
      ensures Traced(old(Now()), steps, Now())
      ensures ok <==> old(CancelJob(Now(), id)).Some?
      ensures ok && !old(jobs[id].status.Canceled?) ==>
          Quiet(jobs) && Between(old(CancelJob(Now(), id)).value.jobs, jobs)
      ensures !ok || old(jobs[id].status.Canceled?) ==> Now() == old(Now())
    {
      steps := [];
      if id !in jobs {
        return false, [];
      }
      if jobs[id].status.Canceled? {
        return true, [];
      }
      if !jobs[id].status.Waiting? && !jobs[id].status.Queued? && !jobs[id].status.Running? {
        return false, [];
      }
      assert WellFormedJob(id, jobs[id]);
      steps := SaveAndReconcile(jobs[id].(status := Canceled, finished := Some(clock), lease := None, error := ""),
          Cancel(id));
      ok := true;
    }

    /** Complete: the owner ends a running job, once; what needs it is queued or fails. */
    method CompleteBuild(id: string, runner: string, error: string) returns (ok: bool, ghost steps: seq<Step>)
      requires Inv(Now())
      modifies this`jobs
      ensures Traced(old(Now()), steps, Now())
      ensures ok <==> old(CompleteJob(Now(), id, runner, error)).Some?
      ensures ok && old(jobs[id].status.Running?) ==>
          Quiet(jobs) && Between(old(CompleteJob(Now(), id, runner, error)).value.jobs, jobs)
      ensures !ok || !old(jobs[id].status.Running?) ==> Now() == old(Now())
    {
      steps := [];
      if runner == "" || id !in jobs || jobs[id].runner != runner {
        return false, [];
      }
      var job := jobs[id];
      var expected := if error == "" then Succeeded else Failed;
      if job.status.Canceled? {
        return true, [];
      }
      if job.status.Succeeded? || job.status.Failed? {
        return job.status == expected && job.error == error, [];
      }
      if !job.status.Running? {
        return false, [];
      }
      assert WellFormedJob(id, jobs[id]);
      steps := SaveAndReconcile(FinishedJob(job, error, clock), Complete(id, runner, error));
      ok := true;
    }

    /** HeartbeatState: the owner of a running job extends its lease. */
    method HeartbeatState(id: string, runner: string) returns (ok: bool, canceled: bool)
      requires Inv(Now())
      modifies this`jobs
      ensures ok <==> old(BeatJob(Now(), id, runner)).Some?
      ensures Now() == if ok then old(BeatJob(Now(), id, runner)).value else old(Now())
      ensures canceled <==> ok && jobs[id].status.Canceled?
    {
      if runner == "" || id !in jobs || jobs[id].runner != runner {
        return false, false;
      }
      if Terminal(jobs[id].status) {
        return true, jobs[id].status.Canceled?;
      }
      if !jobs[id].status.Running? {
        return false, false;
      }
      assert WellFormedJob(id, jobs[id]);
      jobs := jobs[id := jobs[id].(lease := Some(clock + leaseDuration))];
      return true, false;
    }

    /** AppendLog: the owner adds to the log at exactly its current end. */
    method AppendLog(id: string, runner: string, offset: nat, contents: string) returns (next: Option<nat>)
      requires Inv(Now())
      modifies this`jobs, this`logs, this`sent
      ensures next.Some? <==> old(AppendToLog(Now(), id, runner, offset, contents)).Some?
      ensures Now() == if next.Some? then old(AppendToLog(Now(), id, runner, offset, contents)).value else old(Now())
      ensures next.Some? ==> next.value == |LogOf(logs, id)|
    {
      if runner == "" || id !in jobs || jobs[id].runner != runner || !jobs[id].status.Running? {
        return None;
      }
      var size := |LogOf(logs, id)|;
      if size != offset {
        return None;
      }
      assert WellFormedJob(id, jobs[id]);
      var log := LogOf(logs, id);
      if size < MAXIMUM_LOG_BYTES {
        var remaining := MAXIMUM_LOG_BYTES - size;
        log := log + (if |contents| > remaining then contents[..remaining] else contents);
      }
      sent := sent[id := LogOf(sent, id) + contents];
      logs := logs[id := log];
      jobs := jobs[id := jobs[id].(lease := Some(clock + leaseDuration))];
      next := Some(|log|);
    }

    /** A candidate whose configuration cannot be read is failed and the needs are reconciled. */
    method FailCandidate(job: Job, runner: string, ghost begun: State, ghost before: seq<Step>)
      returns (ghost steps: seq<Step>)
      requires Traced(begun, before, Now()) && runner != ""
      requires job.id in jobs && jobs[job.id] == job && Claimable(job, clock)
      modifies this`jobs
      ensures Traced(begun, steps, Now())
      ensures Steady(old(jobs) - {job.id}, jobs)
    {
      ghost var step := Claim(job.id, runner, false);
      TraceStep(begun, before, Now(), step);
      jobs := jobs[job.id := job.(status := Failed, finished := Some(clock), lease := None,
          error := "prepare remote build")];
      steps := ReconcileDependencies(begun, before + [step]);
    }

    /** The candidate becomes running for the runner that asked. */
    method TakeCandidate(job: Job, runner: string, ghost begun: State, ghost before: seq<Step>)
      returns (lease: Job, ghost steps: seq<Step>)
      requires Traced(begun, before, Now()) && runner != ""
      requires job.id in jobs && jobs[job.id] == job && Claimable(job, clock)
      modifies this`jobs
      ensures Traced(begun, steps, Now()) && steps == before + [Claim(job.id, runner, true)]
      ensures lease == ClaimedJob(job, runner, clock, leaseDuration) && jobs == old(jobs)[job.id := lease]
    {
      ghost var step := Claim(job.id, runner, true);
      TraceStep(begun, before, Now(), step);
      steps := before + [step];
      lease := ClaimedJob(job, runner, clock, leaseDuration);
      jobs := jobs[job.id := lease];
    }

    /** Tries the candidates of one list in turn. The records in it stay current, since
        reconciling a failure never touches a queued or running job. */
    method TryCandidates(list: seq<Job>, runner: string, configured: set<string>, ghost begun: State,
                         ghost before: seq<Step>)
      returns (lease: Option<Job>, ghost steps: seq<Step>)
      requires Traced(begun, before, Now()) && runner != "" && Distinct(list) && StillCurrent(list, 0, jobs, clock)
      modifies this`jobs
      ensures Traced(begun, steps, Now())
      ensures lease.Some? ==> Granted(lease.value, jobs, runner, configured, steps)
      ensures lease.None? ==> NoneUsable(list, |list|, clock, configured)
    {
      steps := before;
      for i := 0 to |list|
        invariant Traced(begun, steps, Now())
        invariant StillCurrent(list, i, jobs, clock) && NoneUsable(list, i, clock, configured)
      {
        var job := list[i];
        if Claimable(job, clock) {
          if job.id in configured {
            var claimed;
            claimed, steps := TakeCandidate(job, runner, begun, steps);
            return Some(claimed), steps;
          }
          ghost var current := jobs;
          steps := FailCandidate(job, runner, begun, steps);
          OthersStayCurrent(list, i, current, jobs, clock);
        }
      }
      lease := None;
    }

    /** candidates: the records after reconciling, among them every one that could be claimed before. */
    method Candidates(ghost begun: State) returns (list: seq<Job>, ghost steps: seq<Step>)
      requires Inv(Now()) && begun == Now()
      modifies this`jobs
      ensures Traced(begun, steps, Now()) && Distinct(list) && StillCurrent(list, 0, jobs, clock)
      ensures forall configured: set<string> :: NoneUsable(list, |list|, clock, configured) ==>
          NoneConfigured(old(jobs), clock, configured)
    {
      steps := ReconcileDependencies(begun, []);
      list := List();
      CoversCandidates(old(jobs), jobs, list, clock);
    }

    /** Claim: takes the first candidate whose configuration can be read; candidates whose
        configuration cannot are failed on the way. */
    method ClaimBuild(runner: string, configured: set<string>) returns (lease: Option<Job>, ghost steps: seq<Step>)
      requires Inv(Now()) && runner != ""
      modifies this`jobs
      ensures Traced(old(Now()), steps, Now())
      ensures lease.Some? ==> Granted(lease.value, jobs, runner, configured, steps)
      ensures lease.None? ==> NoneConfigured(old(jobs), clock, configured)
    {
      ghost var begun := Now();
      var list;
      list, steps := Candidates(begun);
      lease, steps := TryCandidates(list, runner, configured, begun, steps);
    }
  }

  ghost predicate Granted(lease: Job, jobs: Jobs, runner: string, configured: set<string>, steps: seq<Step>)
  {
    && lease.id in configured && lease.id in jobs && jobs[lease.id] == lease
    && lease.status.Running? && lease.runner == runner
    && steps != [] && steps[|steps| - 1] == Claim(lease.id, runner, true)
  }

  ghost predicate NoneUsable(list: seq<Job>, count: nat, now: nat, configured: set<string>)
  {
    forall k :: 0 <= k < count && k < |list| && Claimable(list[k], now) ==> list[k].id !in configured
  }

  /** Reconciliation leaves every record that is not waiting or manual alone. */
  ghost predicate Steady(before: Jobs, after: Jobs)
  {
    forall id :: id in before && !Pending(before[id]) ==> id in after && after[id] == before[id]
  }

  ghost predicate StillCurrent(list: seq<Job>, from: nat, jobs: Jobs, now: nat)
  {
    forall k :: from <= k < |list| && Claimable(list[k], now) ==> list[k].id in jobs && jobs[list[k].id] == list[k]
  }

  lemma {:induction false} OthersStayCurrent(list: seq<Job>, i: nat, before: Jobs, after: Jobs, now: nat)
    requires Distinct(list) && i < |list| && StillCurrent(list, i, before, now) && Steady(before - {list[i].id}, after)
    ensures StillCurrent(list, i + 1, after, now)
  {
  }

  ghost predicate NoneConfigured(jobs: Jobs, now: nat, configured: set<string>)
  {
    forall id :: id in jobs && Claimable(jobs[id], now) ==> id !in configured
  }

  lemma {:induction false} CoversCandidates(start: Jobs, reconciled: Jobs, list: seq<Job>, now: nat)
    requires Steady(start, reconciled) && Distinct(list) && ById(list) == reconciled
    ensures StillCurrent(list, 0, reconciled, now)
    ensures forall configured: set<string> :: NoneUsable(list, |list|, now, configured) ==>
        NoneConfigured(start, now, configured)
  {
    forall id | id in start && Claimable(start[id], now)
      ensures exists k :: 0 <= k < |list| && list[k] == start[id] && list[k].id == id {
      assert id in ById(list);
    }
  }

  lemma {:induction false} NoUpdatesQuiet(jobs: Jobs, list: seq<Job>, after: seq<Job>)
    requires Distinct(list) && Distinct(after) && SameIds(list, after) && ById(list) == jobs
    requires Between(jobs, ById(after)) && Quiet(ById(after))
    requires forall k :: 0 <= k < |after| ==> list[k].status == after[k].status
    ensures Quiet(jobs)
  {
    forall id | id in jobs ensures jobs[id].status == ById(after)[id].status {
      var k :| 0 <= k < |list| && list[k].id == id;
      assert ById(after)[after[k].id] == after[k];
    }
    SettledIsQuiet(jobs, ById(after));
  }

  /** A list of the records, and what reconciliation makes of it. */
  ghost predicate Looked(jobs: Jobs, list: seq<Job>, after: seq<Job>, now: nat)
  {
    && Distinct(list) && ById(list) == jobs && Distinct(after) && SameIds(list, after)
    && Between(jobs, ById(after)) && Quiet(ById(after)) && AllRecorded(list, after, now)
    && forall k :: 0 <= k < |after| ==> after[k].status == FinalStatus(jobs, list[k].id)
  }

  method FindUpdate(updates: seq<Job>, id: string) returns (found: Option<nat>)
    ensures found.Some? ==> found.value < |updates| && updates[found.value].id == id
    ensures found.None? ==> forall k :: 0 <= k < |updates| ==> updates[k].id != id
  {
    for i := 0 to |updates|
      invariant forall k :: 0 <= k < i ==> updates[k].id != id
    {
      if updates[i].id == id {
        return Some(i);
      }
    }
    found := None;
  }

  /** An update is the settled version of a stored record. */
  lemma {:induction false} UpdateIsSettled(jobs: Jobs, list: seq<Job>, after: seq<Job>, now: nat, i: nat)
    requires Distinct(list) && ById(list) == jobs && SameIds(list, after) && AllRecorded(list, after, now)
    requires forall k :: 0 <= k < |after| ==> after[k].status == FinalStatus(jobs, list[k].id)
    requires i < |Changed(list, after)|
    ensures
      var update := Changed(list, after)[i];
      && update.id in jobs && Recorded(jobs[update.id], update, now)
      && update.status != jobs[update.id].status && update.status == FinalStatus(jobs, update.id)
  {
    ChangedMember(list, after, i);
    var k :| 0 <= k < |after| && Changed(list, after)[i] == after[k] && list[k].status != after[k].status;
    EntryIsRecord(list, jobs, k);
  }

  lemma {:induction false} EntryIsRecord(list: seq<Job>, jobs: Jobs, k: nat)
    requires Distinct(list) && ById(list) == jobs && k < |list|
    ensures list[k].id in jobs && jobs[list[k].id] == list[k]
  {
  }

  lemma {:induction false} ChangedHas(before: seq<Job>, after: seq<Job>, k: nat)
    requires |before| == |after| && k < |after| && before[k].status != after[k].status
    ensures after[k] in Changed(before, after)
  {
    if k > 0 {
      ChangedHas(before[1..], after[1..], k - 1);
    }
  }

  /** A job without an update has its final status. */
  lemma {:induction false} NoUpdateFor(jobs: Jobs, list: seq<Job>, after: seq<Job>, now: nat, id: string)
    requires Looked(jobs, list, after, now) && id in jobs
    requires forall i :: 0 <= i < |Changed(list, after)| ==> Changed(list, after)[i].id != id
    ensures FinalStatus(jobs, id) == jobs[id].status
  {
    var k :| 0 <= k < |list| && list[k].id == id;
    assert jobs[id] == list[k];
    if after[k].status != list[k].status {
      ChangedHas(list, after, k);
    }
  }

  /** ... and saving it is a reconciliation step of the state machine. */
  lemma {:induction false} UpdateIsStep(state: State, update: Job)
    requires update.id in state.jobs && Recorded(state.jobs[update.id], update, state.clock)
    requires update.status != state.jobs[update.id].status && update.status == FinalStatus(state.jobs, update.id)
    ensures SameButStatus(state.jobs[update.id], update)
    ensures Do(state, Reconcile(update.id, state.jobs, update.error))
        == Some(state.(jobs := state.jobs[update.id := update]))
    ensures PendingIds(state.jobs[update.id := update]) < PendingIds(state.jobs)
    ensures Pending(state.jobs[update.id])
  {
    RecordedChange(state.jobs[update.id], update, state.clock);
    SameForward(state.jobs);
    assert ReconcileJob(state, update.id, state.jobs, update.error) == Save(state, update);
    RemovesPending(state.jobs, update);
  }

  lemma {:induction false} RecordedChange(job: Job, update: Job, now: nat)
    requires Recorded(job, update, now) && update.status != job.status
    ensures SameButStatus(job, update) && Pending(job) && !Pending(update)
    ensures update == ReconciledJob(job, update.status, update.error, now)
  {
  }

  lemma {:induction false} RemovesPending(jobs: Jobs, update: Job)
    requires update.id in jobs && Pending(jobs[update.id]) && !Pending(update)
    ensures PendingIds(jobs[update.id := update]) < PendingIds(jobs)
  {
    assert update.id in PendingIds(jobs) && update.id !in PendingIds(jobs[update.id := update]);
  }

  lemma {:induction false} ListIndexes(list: seq<Job>, jobs: Jobs)
    requires Distinct(list)
    requires forall i :: 0 <= i < |list| ==> list[i].id in jobs && list[i] == jobs[list[i].id]
    requires forall id :: id in jobs ==> exists i :: 0 <= i < |list| && list[i].id == id
    ensures ById(list) == jobs
  {
    forall id | id in jobs ensures id in ById(list) && ById(list)[id] == jobs[id] {
      var i :| 0 <= i < |list| && list[i].id == id;
    }
  }
}
