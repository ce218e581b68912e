/** Build jobs and the reconciliation of their dependencies (internal/runner/dependencies.go):
    a waiting job is queued when everything it needs has succeeded, and a waiting or manual
    job fails when something it needs is missing, failed or canceled. */
module Dependencies {
  import opened Basics

  datatype Status = Manual | Waiting | Queued | Running | Succeeded | Failed | Canceled

  predicate Terminal(status: Status)
  {
    status.Succeeded? || status.Failed? || status.Canceled?
  }

  datatype Need = Need(name: string, id: string)

  datatype Job = Job(
    id: string,
    name: string,
    branch: string,
    commit: string,
    needs: seq<Need>,
    status: Status,
    error: string,
    runner: string,
    attempt: nat,
    lease: Option<nat>,
    finished: Option<nat>)

  type Jobs = map<string, Job>

  datatype Readiness = Ready | Blocked | Broken(error: string)

  /** Why a need can never be met, if it cannot. */
  function Problem(need: Need, jobs: Jobs): (problem: Option<string>)
  {
    if need.id !in jobs then Some("dependency " + need.name + " is missing")
    else match jobs[need.id].status
      case Failed => Some("dependency " + need.name + " failed")
      case Canceled => Some("dependency " + need.name + " was canceled")
      case _ => None
  }

  predicate Met(need: Need, jobs: Jobs)
  {
    need.id in jobs && jobs[need.id].status.Succeeded?
  }

  /** dependencyReadiness: the first problem wins, otherwise all needs must have succeeded. */
  function ReadinessOf(needs: seq<Need>, jobs: Jobs): (readiness: Readiness)
    ensures readiness.Broken? <==> exists need :: need in needs && Problem(need, jobs).Some?
    ensures readiness.Ready? <==> forall need :: need in needs ==> Met(need, jobs)
  {
    if needs == [] then Ready
    else
      var problem := Problem(needs[0], jobs);
      if problem.Some? then Broken(problem.value)
      else
        var rest := ReadinessOf(needs[1..], jobs);
        if rest.Broken? then rest
        else if Met(needs[0], jobs) then rest
        else Blocked
  }

  method DependencyReadiness(needs: seq<Need>, jobs: Jobs) returns (readiness: Readiness)
    ensures readiness == ReadinessOf(needs, jobs)
  {
    var ready := true;
    for i := 0 to |needs|
      invariant ready <==> forall k :: 0 <= k < i ==> Met(needs[k], jobs)
      invariant forall k :: 0 <= k < i ==> Problem(needs[k], jobs).None?
      invariant ReadinessOf(needs[i..], jobs).Broken? ==> ReadinessOf(needs, jobs) == ReadinessOf(needs[i..], jobs)
    {
      assert needs[i..][1..] == needs[i + 1..];
      var problem := Problem(needs[i], jobs);
      if problem.Some? {
        return Broken(problem.value);
      }
      ready := ready && Met(needs[i], jobs);
    }
    readiness := if ready then Ready else Blocked;
  }

  /** Jobs that reconciliation may still move. */
  predicate Pending(job: Job)
  {
    job.needs != [] && (job.status.Waiting? || job.status.Manual?)
  }

  /** The change one look at a job makes to it. */
  function Settle(job: Job, jobs: Jobs, now: nat): (settled: Job)
  {
    if !Pending(job) then job
    else match ReadinessOf(job.needs, jobs)
      case Broken(error) => job.(status := Failed, finished := Some(now), error := error)
      case Ready => if job.status.Waiting? then job.(status := Queued) else job
      case Blocked => job
  }

  /** Nothing is left for reconciliation to do. */
  predicate Quiet(jobs: Jobs)
  {
    forall id :: id in jobs ==> Settle(jobs[id], jobs, 0).status == jobs[id].status
  }

  // ---------------------------------------------------------------------------
  // Where reconciliation ends, independently of the order in which jobs are looked at

  /** A pending job that, through at most k dependencies, rests on something missing, failed
      or canceled. */
  predicate Doomed(jobs: Jobs, id: string, k: nat)
    decreases k
  {
    && k > 0 && id in jobs && Pending(jobs[id])
    && exists need :: need in jobs[id].needs && (Problem(need, jobs).Some? || Doomed(jobs, need.id, k - 1))
  }

  ghost predicate IsDoomed(jobs: Jobs, id: string)
  {
    exists k: nat :: Doomed(jobs, id, k)
  }

  ghost function FinalStatus(jobs: Jobs, id: string): (status: Status)
    requires id in jobs
  {
    var job := jobs[id];
    if IsDoomed(jobs, id) then Failed
    else if Pending(job) && job.status.Waiting? && ReadinessOf(job.needs, jobs).Ready? then Queued
    else job.status
  }

  /** A state on the way: every job has its first or its final status, and only status, error
      and finishing time have changed. */
  ghost predicate Between(start: Jobs, jobs: Jobs)
  {
    && jobs.Keys == start.Keys
    && forall id :: id in jobs ==>
         && SameButStatus(start[id], jobs[id])
         && (jobs[id].status == start[id].status || jobs[id].status == FinalStatus(start, id))
  }

  predicate SameButStatus(before: Job, after: Job)
  {
    after == before.(status := after.status, error := after.error, finished := after.finished)
  }

  lemma {:induction false} SettledJobNotPending(start: Jobs, id: string)
    requires id in start
    ensures FinalStatus(start, id) != start[id].status ==> Pending(start[id])
    ensures FinalStatus(start, id) != start[id].status ==>
        FinalStatus(start, id).Failed? || FinalStatus(start, id).Queued?
  {
    if IsDoomed(start, id) {
      var k: nat :| Doomed(start, id, k);
    }
  }

  /** A need that looks broken on the way makes its job doomed from the start. */
  lemma {:induction false} BrokenIsDoomed(start: Jobs, jobs: Jobs, id: string, need: Need)
    requires Between(start, jobs) && id in start && Pending(start[id]) && need in start[id].needs
    requires Problem(need, jobs).Some?
    ensures IsDoomed(start, id)
  {
    if Problem(need, start).Some? {
      assert Doomed(start, id, 1);
    } else {
      SettledJobNotPending(start, need.id);
      assert IsDoomed(start, need.id);
      var k: nat :| Doomed(start, need.id, k);
      assert Doomed(start, id, k + 1);
    }
  }

  lemma {:induction false} ReadyNotDoomed(jobs: Jobs, id: string)
    requires id in jobs && ReadinessOf(jobs[id].needs, jobs).Ready?
    ensures !IsDoomed(jobs, id)
  {
    assert forall need :: need in jobs[id].needs ==> Met(need, jobs);
    forall k: nat ensures !Doomed(jobs, id, k) {
      assert forall need :: need in jobs[id].needs ==> Problem(need, jobs).None? && !Pending(jobs[need.id]);
    }
  }

  /** One look at a job gives it the status it has, or the final one. */
  lemma {:induction false} SettleIsFinal(start: Jobs, jobs: Jobs, id: string, now: nat)
    requires Between(start, jobs) && id in jobs
    ensures
      var settled := Settle(jobs[id], jobs, now);
      settled.status == jobs[id].status || settled.status == FinalStatus(start, id)
  {
    var job := jobs[id];
    if Pending(job) {
      SettledJobNotPending(start, id);
      var readiness := ReadinessOf(job.needs, jobs);
      if readiness.Broken? {
        var need :| need in job.needs && Problem(need, jobs).Some?;
        BrokenIsDoomed(start, jobs, id, need);
      } else if readiness.Ready? && job.status.Waiting? {
        ReadyFromTheStart(start, jobs, id);
        ReadyNotDoomed(start, id);
      }
    }
  }

  lemma {:induction false} ReadyFromTheStart(start: Jobs, jobs: Jobs, id: string)
    requires Between(start, jobs) && id in jobs && ReadinessOf(jobs[id].needs, jobs).Ready?
    ensures ReadinessOf(start[id].needs, start).Ready?
  {
    forall need | need in jobs[id].needs ensures Met(need, start) {
      assert Met(need, jobs);
      SettledJobNotPending(start, need.id);
    }
  }

  /** One look at one job leads from a state on the way to another one. */
  lemma {:induction false} SettleStaysBetween(start: Jobs, jobs: Jobs, id: string, now: nat)
    requires Between(start, jobs) && id in jobs
    ensures Between(start, jobs[id := Settle(jobs[id], jobs, now)])
  {
    SettleIsFinal(start, jobs, id, now);
  }

  lemma {:induction false} DoomedHasFailed(start: Jobs, jobs: Jobs, id: string, k: nat)
    requires Between(start, jobs) && Quiet(jobs) && Doomed(start, id, k)
    ensures jobs[id].status.Failed?
    decreases k
  {
    var need :| need in start[id].needs && (Problem(need, start).Some? || Doomed(start, need.id, k - 1));
    assert need in jobs[id].needs;
    if Problem(need, start).Some? {
      if need.id in start {
        SettledJobNotPending(start, need.id);
      }
      assert Problem(need, jobs).Some?;
    } else {
      DoomedHasFailed(start, jobs, need.id, k - 1);
      assert Problem(need, jobs).Some?;
    }
    assert FinalStatus(start, id).Failed?;
    assert ReadinessOf(jobs[id].needs, jobs).Broken?;
    assert Settle(jobs[id], jobs, 0).status == jobs[id].status;
  }

  /** A quiet state on the way is the end: every job has its final status. */
  lemma {:induction false} QuietIsFinal(start: Jobs, jobs: Jobs)
    requires Between(start, jobs) && Quiet(jobs)
    ensures forall id :: id in jobs ==> jobs[id].status == FinalStatus(start, id)
  {
    forall id | id in jobs ensures jobs[id].status == FinalStatus(start, id) {
      if IsDoomed(start, id) {
        var k: nat :| Doomed(start, id, k);
        DoomedHasFailed(start, jobs, id, k);
      } else if FinalStatus(start, id) != start[id].status {
        forall need | need in jobs[id].needs ensures Met(need, jobs) {
          assert Met(need, start);
          SettledJobNotPending(start, need.id);
        }
        assert Settle(jobs[id], jobs, 0).status == jobs[id].status;
      }
    }
  }

  /** The need is there and has neither failed nor been canceled. */
  predicate Alive(need: Need, jobs: Jobs)
  {
    need.id in jobs && !jobs[need.id].status.Failed? && !jobs[need.id].status.Canceled?
  }

  /** The job is where it belongs: waiting or manual only while everything it needs may still succeed,
      and waiting only while something has yet to. */
  predicate InPlace(job: Job, jobs: Jobs)
  {
    job.needs != [] ==>
      && (job.status.Waiting? || job.status.Manual? ==> forall need :: need in job.needs ==> Alive(need, jobs))
      && (job.status.Waiting? ==> exists need :: need in job.needs && !Met(need, jobs))
  }

  /** What it means that nothing is left to do. */
  lemma {:induction false} QuietExactly(jobs: Jobs)
    ensures Quiet(jobs) <==> forall id :: id in jobs ==> InPlace(jobs[id], jobs)
  {
    forall id | id in jobs ensures Settle(jobs[id], jobs, 0).status == jobs[id].status <==> InPlace(jobs[id], jobs) {
      SettledExactly(jobs[id], jobs);
    }
  }

  lemma {:induction false} SettledExactly(job: Job, jobs: Jobs)
    ensures Settle(job, jobs, 0).status == job.status <==> InPlace(job, jobs)
  {
    forall need ensures Problem(need, jobs).None? <==> Alive(need, jobs) {
    }
  }

  // ---------------------------------------------------------------------------
  // The loops

  predicate Distinct(jobs: seq<Job>)
  {
    forall i, j :: 0 <= i < j < |jobs| ==> jobs[i].id != jobs[j].id
  }

  function ById(jobs: seq<Job>): (index: Jobs)
    requires Distinct(jobs)
  {
    map i | 0 <= i < |jobs| :: jobs[i].id := jobs[i]
  }

  lemma {:induction false} ByIdUpdate(jobs: seq<Job>, i: nat, job: Job)
    requires Distinct(jobs) && i < |jobs| && job.id == jobs[i].id
    ensures Distinct(jobs[i := job])
    ensures ById(jobs[i := job]) == ById(jobs)[job.id := job]
  {
    var updated := jobs[i := job];
    assert forall k :: 0 <= k < |jobs| ==> updated[k].id == jobs[k].id;
    forall id ensures id in ById(updated) <==> id in ById(jobs)[job.id := job] {
      if id in ById(jobs) {
        var k :| 0 <= k < |jobs| && jobs[k].id == id;
        assert updated[k].id == id;
      }
    }
  }

  function PendingIds(jobs: Jobs): (ids: set<string>)
  {
    set id | id in jobs && Pending(jobs[id])
  }

  lemma {:induction false} SettleShrinks(jobs: Jobs, id: string, now: nat)
    requires id in jobs
    ensures
      var settled := Settle(jobs[id], jobs, now);
      && settled.id == jobs[id].id
      && (settled.status == jobs[id].status ==> settled == jobs[id])
      && (settled.status != jobs[id].status ==>
          PendingIds(jobs[id := settled]) == PendingIds(jobs) - {id} && id in PendingIds(jobs))
  {
  }

  /** The jobs whose status differs, in list order. */
  function Changed(before: seq<Job>, after: seq<Job>): (changed: seq<Job>)
    requires |before| == |after|
  {
    if after == [] then []
    else (if before[0].status != after[0].status then [after[0]] else []) + Changed(before[1..], after[1..])
  }

  predicate SameIds(before: seq<Job>, after: seq<Job>)
  {
    |before| == |after| && forall k :: 0 <= k < |before| ==> after[k].id == before[k].id
  }

  lemma {:induction false} SettleInPlace(jobs: seq<Job>, i: nat, now: nat)
    requires Distinct(jobs) && i < |jobs|
    ensures
      var settled := Settle(jobs[i], ById(jobs), now);
      && Distinct(jobs[i := settled]) && SameIds(jobs, jobs[i := settled])
      && ById(jobs[i := settled]) == ById(jobs)[jobs[i].id := settled]
      && (settled.status == jobs[i].status ==> jobs[i := settled] == jobs)
      && (settled.status != jobs[i].status ==> PendingIds(ById(jobs[i := settled])) < PendingIds(ById(jobs)))
  {
    assert ById(jobs)[jobs[i].id] == jobs[i];
    SettleShrinks(ById(jobs), jobs[i].id, now);
    ByIdUpdate(jobs, i, Settle(jobs[i], ById(jobs), now));
  }

  /** One pass over the list from a position on, looking at each job once. */
  function PassFrom(jobs: seq<Job>, i: nat, now: nat): (after: seq<Job>)
    requires Distinct(jobs) && i <= |jobs|
    ensures Distinct(after) && SameIds(jobs, after)
    decreases |jobs| - i
  {
    if i == |jobs| then jobs
    else
      SettleInPlace(jobs, i, now);
      PassFrom(jobs[i := Settle(jobs[i], ById(jobs), now)], i + 1, now)
  }

  lemma {:induction false} PassStaysBetween(start: Jobs, jobs: seq<Job>, i: nat, now: nat)
    requires Distinct(jobs) && i <= |jobs| && Between(start, ById(jobs))
    ensures Between(start, ById(PassFrom(jobs, i, now)))
    decreases |jobs| - i
  {
    if i < |jobs| {
      InPlaceBetween(start, jobs, i, now);
      PassStaysBetween(start, jobs[i := Settle(jobs[i], ById(jobs), now)], i + 1, now);
    }
  }

  lemma {:induction false} InPlaceBetween(start: Jobs, jobs: seq<Job>, i: nat, now: nat)
    requires Distinct(jobs) && i < |jobs| && Between(start, ById(jobs))
    ensures
      var next := jobs[i := Settle(jobs[i], ById(jobs), now)];
      Distinct(next) && Between(start, ById(next))
  {
    assert ById(jobs)[jobs[i].id] == jobs[i];
    SettleInPlace(jobs, i, now);
    SettleStaysBetween(start, ById(jobs), jobs[i].id, now);
  }

  /** How reconciliation changes a record: not at all, to failed with the reason and the time,
      or to queued. */
  predicate Recorded(before: Job, after: Job, now: nat)
  {
    || after == before
    || (Pending(before) && after == before.(status := Failed, finished := Some(now), error := after.error))
    || (Pending(before) && after == before.(status := Queued))
  }

  predicate AllRecorded(before: seq<Job>, after: seq<Job>, now: nat)
  {
    |before| == |after| && forall k :: 0 <= k < |before| ==> Recorded(before[k], after[k], now)
  }

  lemma {:induction false} PassRecords(before: seq<Job>, jobs: seq<Job>, i: nat, now: nat)
    requires Distinct(jobs) && i <= |jobs| && AllRecorded(before, jobs, now)
    ensures AllRecorded(before, PassFrom(jobs, i, now), now)
    decreases |jobs| - i
  {
    if i < |jobs| {
      SettleInPlace(jobs, i, now);
      SettleRecords(before, jobs, i, ById(jobs), now);
      PassRecords(before, jobs[i := Settle(jobs[i], ById(jobs), now)], i + 1, now);
    }
  }

  lemma {:induction false} SettleRecords(before: seq<Job>, jobs: seq<Job>, i: nat, index: Jobs, now: nat)
    requires AllRecorded(before, jobs, now) && i < |jobs|
    ensures AllRecorded(before, jobs[i := Settle(jobs[i], index, now)], now)
  {
    assert Recorded(before[i], Settle(jobs[i], index, now), now);
  }

  /** A pass either shrinks the set of pending jobs or finds nothing left to do. */
  lemma {:induction false} PassProgress(jobs: seq<Job>, i: nat, now: nat)
    requires Distinct(jobs) && i <= |jobs|
    ensures
      var after := PassFrom(jobs, i, now);
      && (after != jobs ==> PendingIds(ById(after)) < PendingIds(ById(jobs)))
      && (after == jobs ==> forall k :: i <= k < |jobs| ==> Settle(jobs[k], ById(jobs), 0).status == jobs[k].status)
    decreases |jobs| - i
  {
    if i < |jobs| {
      SettleInPlace(jobs, i, now);
      var next := jobs[i := Settle(jobs[i], ById(jobs), now)];
      PassProgress(next, i + 1, now);
    }
  }

  lemma {:induction false} IdlePassIsQuiet(jobs: seq<Job>, now: nat)
    requires Distinct(jobs) && PassFrom(jobs, 0, now) == jobs
    ensures Quiet(ById(jobs))
  {
    PassProgress(jobs, 0, now);
    var index := ById(jobs);
    forall id | id in index ensures Settle(index[id], index, 0).status == index[id].status {
      var k :| 0 <= k < |jobs| && jobs[k].id == id;
    }
  }

  method ReconcilePass(jobs: array<Job>, now: nat) returns (madeProgress: bool)
    requires Distinct(jobs[..])
    modifies jobs
    ensures jobs[..] == old(PassFrom(jobs[..], 0, now))
    ensures madeProgress <==> jobs[..] != old(jobs[..])
  {
    madeProgress := false;
    ghost var before := jobs[..];
    ghost var list := before;
    for i := 0 to jobs.Length
      invariant jobs[..] == list && Distinct(list)
      invariant PassFrom(before, 0, now) == PassFrom(list, i, now)
      invariant !madeProgress ==> list == before
      invariant madeProgress ==> PendingIds(ById(list)) < PendingIds(ById(before))
    {
      var settled := Settle(jobs[i], ById(jobs[..]), now);
      SettleInPlace(list, i, now);
      list := list[i := settled];
      if settled.status != jobs[i].status {
        jobs[i] := settled;
        madeProgress := true;
      }
    }
  }

  lemma {:induction false} BetweenSelf(jobs: Jobs)
    ensures Between(jobs, jobs)
  {
  }

  /** One pass keeps what the passes keep, and shrinks the set of pending jobs or ends them. */
  lemma {:induction false} PassGoesOn(start: Jobs, before: seq<Job>, list: seq<Job>, now: nat)
    requires Distinct(list) && Between(start, ById(list)) && SameIds(before, list) && AllRecorded(before, list, now)
    ensures
      var after := PassFrom(list, 0, now);
      && Distinct(after) && Between(start, ById(after)) && SameIds(before, after) && AllRecorded(before, after, now)
      && (after != list ==> PendingIds(ById(after)) < PendingIds(ById(list)))
      && (after == list ==> Quiet(ById(list)))
  {
    PassStaysBetween(start, list, 0, now);
    PassProgress(list, 0, now);
    PassRecords(before, list, 0, now);
    if PassFrom(list, 0, now) == list {
      IdlePassIsQuiet(list, now);
    }
  }

  /** The list of a quiet state on the way holds the final statuses. */
  lemma {:induction false} AllFinal(start: Jobs, before: seq<Job>, after: seq<Job>)
    requires Distinct(after) && SameIds(before, after) && Between(start, ById(after)) && Quiet(ById(after))
    ensures forall k :: 0 <= k < |after| ==> after[k].status == FinalStatus(start, before[k].id)
  {
    QuietIsFinal(start, ById(after));
    forall k | 0 <= k < |after| ensures after[k].status == FinalStatus(start, before[k].id) {
      assert ById(after)[after[k].id] == after[k];
    }
  }

  /** reconcileJobDependencies: passes over the list until one changes nothing. The list ends
      with the final statuses, which depend on the jobs alone and not on their order. */
  method ReconcileJobDependencies(jobs: array<Job>, now: nat) returns (updates: seq<Job>)
    requires Distinct(jobs[..])
    modifies jobs
    ensures Distinct(jobs[..]) && Between(old(ById(jobs[..])), ById(jobs[..])) && Quiet(ById(jobs[..]))
    ensures SameIds(old(jobs[..]), jobs[..])
    ensures forall k :: 0 <= k < jobs.Length ==> jobs[k].status == FinalStatus(old(ById(jobs[..])), old(jobs[k].id))
    ensures AllRecorded(old(jobs[..]), jobs[..], now)
    ensures updates == Changed(old(jobs[..]), jobs[..])
  {
    ghost var start := ById(jobs[..]);
    var before := jobs[..];
    BetweenSelf(start);
    var madeProgress := true;
    while madeProgress
      invariant Distinct(jobs[..]) && Between(start, ById(jobs[..]))
      invariant SameIds(before, jobs[..]) && AllRecorded(before, jobs[..], now)
      invariant !madeProgress ==> Quiet(ById(jobs[..]))
      decreases PendingIds(ById(jobs[..])), madeProgress
    {
      ghost var list := jobs[..];
      PassGoesOn(start, before, list, now);
      madeProgress := ReconcilePass(jobs, now);
    }
    AllFinal(start, before, jobs[..]);
    updates := Changed(before, jobs[..]);
  }
}
