/** The build queue as a state machine (internal/runner/coordinator.go and store.go). Every
    operation reads job records and saves one of them under that job's lock, so records
    read of other jobs may be out of date by the time the save happens: a view holds, for
    each job in it, some earlier version of the job's record. */
module BuildQueue {
  import opened Basics
  import opened Dependencies
  import DependencySearch

  const MAXIMUM_LOG_BYTES := 10485760

  datatype JobConfig = JobConfig(needs: seq<string>, manual: bool, onBranch: bool)

  datatype State = State(
    jobs: Jobs,
    logs: map<string, string>,
    /** History: everything accepted for a job's log. */
    sent: map<string, string>,
    clock: nat,
    leaseDuration: nat)

  datatype Step =
    | Tick(now: nat)
    | Schedule(configs: map<string, JobConfig>, branch: string, commit: string, ids: map<string, string>,
        saved: set<string>)
    | RejectConfiguration(newId: string, branch: string, commit: string)
    | Start(id: string, view: Jobs)
    | Rerun(id: string, newId: string, names: seq<string>, needs: seq<Need>, view: Jobs)
    | Cancel(id: string)
    | Claim(id: string, runner: string, configured: bool)
    | Heartbeat(id: string, runner: string)
    | Append(id: string, runner: string, offset: nat, contents: string)
    | Complete(id: string, runner: string, error: string)
    | Reconcile(id: string, view: Jobs, error: string)

  /** How a record may differ from an earlier version of itself. */
  predicate Precedes(before: Job, after: Job)
  {
    && after.id == before.id && after.name == before.name && after.branch == before.branch
        && after.commit == before.commit
    && after.needs == before.needs
    && before.attempt <= after.attempt
    && (Terminal(before.status) ==> after.status == before.status)
    && (Unstarted(after.status) ==> after.status == before.status)
  }

  predicate Unstarted(status: Status)
  {
    status.Waiting? || status.Manual?
  }

  predicate Seen(view: Jobs, jobs: Jobs)
  {
    forall id :: id in view ==> id in jobs && Precedes(view[id], jobs[id])
  }

  // ---------------------------------------------------------------------------
  // The records the operations write

  function NeedOf(name: string, ids: map<string, string>): (need: Need)
  {
    Need(name, if name in ids then ids[name] else "")
  }

  /** One job of configuredJobs. */
  function ConfiguredJob(name: string, config: JobConfig, branch: string, commit: string, ids: map<string, string>,
                         now: nat): (job: Job)
    requires name in ids
  {
    var needs := seq(|config.needs|, i requires 0 <= i < |config.needs| => NeedOf(config.needs[i], ids));
    var job := Job(ids[name], name, branch, commit, needs, Queued, "", "", 0, None, None);
    if exists i :: 0 <= i < |config.needs| && config.needs[i] !in ids then
      job.(status := Failed, finished := Some(now), error := "a dependency does not run on this branch")
    else if config.manual then job.(status := Manual)
    else if needs != [] then job.(status := Waiting)
    else job
  }

  /** An identifier that no record uses or refers to. */
  predicate Fresh(jobs: Jobs, id: string)
  {
    id != "" && id !in jobs && forall j :: j in jobs ==> forall need :: need in jobs[j].needs ==> need.id != id
  }

  /** Fresh and distinct identifiers for the jobs that run on the branch. */
  predicate FreshIds(jobs: Jobs, configs: map<string, JobConfig>, ids: map<string, string>)
  {
    && ids.Keys == (set name | name in configs && configs[name].onBranch)
    && (forall name :: name in ids ==> Fresh(jobs, ids[name]))
    && (forall m, n :: m in ids && n in ids && ids[m] == ids[n] ==> m == n)
  }

  function Graph(configs: map<string, JobConfig>): (graph: DependencySearch.Graph)
  {
    map name | name in configs :: configs[name].needs
  }

  function Scheduled(configs: map<string, JobConfig>, branch: string, commit: string, ids: map<string, string>,
                     saved: set<string>, now: nat): (jobs: Jobs)
    requires saved <= ids.Keys && ids.Keys <= configs.Keys
    requires forall m, n :: m in ids && n in ids && ids[m] == ids[n] ==> m == n
  {
    map name | name in saved :: ids[name] := ConfiguredJob(name, configs[name], branch, commit, ids, now)
  }

  predicate Claimable(job: Job, now: nat)
  {
    job.status.Queued? || (job.status.Running? && (job.lease.None? || job.lease.value <= now))
  }

  function ClaimedJob(job: Job, runner: string, now: nat, duration: nat): (claimed: Job)
  {
    job.(status := Running, runner := runner, attempt := job.attempt + 1, lease := Some(now + duration))
  }

  function FinishedJob(job: Job, error: string, now: nat): (finished: Job)
  {
    job.(status := if error == "" then Succeeded else Failed, error := error, finished := Some(now), lease := None)
  }

  function LogOf(logs: map<string, string>, id: string): (log: string)
  {
    if id in logs then logs[id] else ""
  }

  /** appendLog, once the offset has been checked. */
  function Appended(log: string, contents: string): (longer: string)
  {
    if |log| >= MAXIMUM_LOG_BYTES then log
    else if |contents| > MAXIMUM_LOG_BYTES - |log| then log + contents[..MAXIMUM_LOG_BYTES - |log|]
    else log + contents
  }

  /** The successful runs a rerun depends on, one for each needed name. */
  predicate SuccessfulNeeds(names: seq<string>, needs: seq<Need>, original: Job, view: Jobs)
  {
    && |needs| == |names|
    && forall i :: 0 <= i < |names| ==>
         && needs[i].name == names[i] && Met(needs[i], view)
         && var job := view[needs[i].id];
            job.name == names[i] && job.branch == original.branch && job.commit == original.commit
  }

  function Save(state: State, job: Job): (next: Option<State>)
  {
    Some(state.(jobs := state.jobs[job.id := job]))
  }

  predicate Owned(state: State, id: string, runner: string)
  {
    runner != "" && id in state.jobs && state.jobs[id].runner == runner
  }

  // ---------------------------------------------------------------------------
  // The operations; None is a refusal

  ghost function ScheduleJobs(state: State, configs: map<string, JobConfig>, branch: string, commit: string,
                              ids: map<string, string>, saved: set<string>): (next: Option<State>)
  {
    if !FreshIds(state.jobs, configs, ids) || !(saved <= ids.Keys) || !DependencySearch.Orderable(Graph(configs))
    then None
    else Some(state.(jobs := state.jobs + Scheduled(configs, branch, commit, ids, saved, state.clock)))
  }

  function RejectConfig(state: State, newId: string, branch: string, commit: string): (next: Option<State>)
  {
    if !Fresh(state.jobs, newId) then None
    else Save(state, Job(newId, "configuration", branch, commit, [], Failed, "invalid configuration", "", 0, None,
        Some(state.clock)))
  }

  function StartJob(state: State, id: string, view: Jobs): (next: Option<State>)
  {
    if id !in state.jobs || !state.jobs[id].status.Manual? || !ReadinessOf(state.jobs[id].needs, view).Ready? then None
    else Save(state, state.jobs[id].(status := Queued))
  }

  function RerunJob(state: State, id: string, newId: string, names: seq<string>, needs: seq<Need>,
                    view: Jobs): (next: Option<State>)
  {
    if id !in state.jobs || !Fresh(state.jobs, newId) || !Terminal(state.jobs[id].status) ||
       !SuccessfulNeeds(names, needs, state.jobs[id], view) then None
    else
      var original := state.jobs[id];
      Save(state, Job(newId, original.name, original.branch, original.commit, needs, Queued, "", "", 0, None, None))
  }

  function CancelJob(state: State, id: string): (next: Option<State>)
  {
    if id !in state.jobs then None
    else
      var job := state.jobs[id];
      if job.status.Canceled? then Some(state)
      else if job.status.Waiting? || job.status.Queued? || job.status.Running? then
        Save(state, job.(status := Canceled, finished := Some(state.clock), lease := None, error := ""))
      else None
  }

  function ClaimJob(state: State, id: string, runner: string, configured: bool): (next: Option<State>)
  {
    if id !in state.jobs || runner == "" || !Claimable(state.jobs[id], state.clock) then None
    else if configured then Save(state, ClaimedJob(state.jobs[id], runner, state.clock, state.leaseDuration))
    else Save(state, state.jobs[id].(status := Failed, finished := Some(state.clock), lease := None,
        error := "prepare remote build"))
  }

  function Renewed(state: State, job: Job): (renewed: Job)
  {
    job.(lease := Some(state.clock + state.leaseDuration))
  }

  function BeatJob(state: State, id: string, runner: string): (next: Option<State>)
  {
    if !Owned(state, id, runner) then None
    else if Terminal(state.jobs[id].status) then Some(state)
    else if !state.jobs[id].status.Running? then None
    else Save(state, Renewed(state, state.jobs[id]))
  }

  function AppendToLog(state: State, id: string, runner: string, offset: nat, contents: string): (next: Option<State>)
  {
    if !Owned(state, id, runner) || !state.jobs[id].status.Running? || offset != |LogOf(state.logs, id)| then None
    else
      Save(state.(logs := state.logs[id := Appended(LogOf(state.logs, id), contents)],
                  sent := state.sent[id := LogOf(state.sent, id) + contents]),
           Renewed(state, state.jobs[id]))
  }

  function CompleteJob(state: State, id: string, runner: string, error: string): (next: Option<State>)
  {
    if !Owned(state, id, runner) then None
    else
      var job, expected := state.jobs[id], if error == "" then Succeeded else Failed;
      if job.status.Canceled? then Some(state)
      else if job.status.Succeeded? || job.status.Failed? then
        if job.status == expected && job.error == error then Some(state) else None
      else if !job.status.Running? then None
      else Save(state, FinishedJob(job, error, state.clock))
  }

  /** One save of reconcileDependenciesWithLockedJob: the job's lock is held, so its own
      record is current, while those of the others are as of some earlier time. */
  ghost function ReconcileJob(state: State, id: string, view: Jobs, error: string): (next: Option<State>)
  {
    if id !in state.jobs || id !in view || view[id] != state.jobs[id]
        || FinalStatus(view, id) == state.jobs[id].status then None
    else Save(state, ReconciledJob(state.jobs[id], FinalStatus(view, id), error, state.clock))
  }

  function ReconciledJob(job: Job, status: Status, error: string, now: nat): (reconciled: Job)
  {
    if status.Failed? then job.(status := status, error := error, finished := Some(now)) else job.(status := status)
  }

  /** The next state, or None when the operation is refused. */
  ghost function Do(state: State, step: Step): (next: Option<State>)
  {
    match step
    case Tick(now) => if now < state.clock then None else Some(state.(clock := now))
    case Schedule(configs, branch, commit, ids, saved) => ScheduleJobs(state, configs, branch, commit, ids, saved)
    case RejectConfiguration(newId, branch, commit) => RejectConfig(state, newId, branch, commit)
    case Start(id, view) => if Seen(view, state.jobs) then StartJob(state, id, view) else None
    case Rerun(id, newId, names, needs, view) =>
      if Seen(view, state.jobs) then RerunJob(state, id, newId, names, needs, view) else None
    case Cancel(id) => CancelJob(state, id)
    case Claim(id, runner, configured) => ClaimJob(state, id, runner, configured)
    case Heartbeat(id, runner) => BeatJob(state, id, runner)
    case Append(id, runner, offset, contents) => AppendToLog(state, id, runner, offset, contents)
    case Complete(id, runner, error) => CompleteJob(state, id, runner, error)
    case Reconcile(id, view, error) => if Seen(view, state.jobs) then ReconcileJob(state, id, view, error) else None
  }

  ghost function Run(state: State, steps: seq<Step>): (end: Option<State>)
    decreases |steps|
  {
    if steps == [] then Some(state)
    else
      var next := Do(state, steps[0]);
      if next.None? then None else Run(next.value, steps[1..])
  }

  // ---------------------------------------------------------------------------
  // The invariant

  predicate NeedsMet(jobs: Jobs, job: Job)
  {
    forall need :: need in job.needs ==> Met(need, jobs)
  }

  predicate Started(status: Status)
  {
    status.Queued? || status.Running? || status.Succeeded?
  }

  /** A job that is queued, running or succeeded has all its needs succeeded. */
  predicate StartedAreMet(jobs: Jobs)
  {
    forall id :: id in jobs && Started(jobs[id].status) ==> NeedsMet(jobs, jobs[id])
  }

  predicate WellFormed(jobs: Jobs)
  {
    forall id :: id in jobs ==> WellFormedJob(id, jobs[id])
  }

  predicate WellFormedJob(id: string, job: Job)
  {
    && id != "" && job.id == id
    && (job.status.Waiting? ==> job.needs != [])
    && (job.status.Running? ==> job.runner != "" && job.attempt > 0 && job.lease.Some?)
  }

  /** A rank that falls from every job to the jobs it needs. */
  predicate RankedBy(jobs: Jobs, rank: map<string, nat>)
  {
    forall id :: id in jobs ==>
      id in rank && forall need :: need in jobs[id].needs && need.id in jobs ==>
          need.id in rank && rank[need.id] < rank[id]
  }

  ghost predicate Ranked(jobs: Jobs)
  {
    exists rank :: RankedBy(jobs, rank)
  }

  /** The stored log is what was accepted, cut at the maximum size. */
  ghost predicate LogsCut(state: State)
  {
    forall id :: LogOf(state.logs, id) == Cut(LogOf(state.sent, id))
  }

  function Cut(text: string): (cut: string)
  {
    if |text| <= MAXIMUM_LOG_BYTES then text else text[..MAXIMUM_LOG_BYTES]
  }

  ghost predicate Inv(state: State)
  {
    WellFormed(state.jobs) && StartedAreMet(state.jobs) && Ranked(state.jobs) && LogsCut(state)
  }

  predicate Initial(state: State)
  {
    state.jobs == map[] && state.logs == map[] && state.sent == map[]
  }

  /** Saving a later version of an existing record. */
  lemma {:induction false} SaveKeeps(jobs: Jobs, job: Job)
    requires WellFormed(jobs) && StartedAreMet(jobs) && Ranked(jobs)
    requires job.id in jobs && Precedes(jobs[job.id], job)
    requires Started(job.status) ==> NeedsMet(jobs, job)
    requires job.status.Running? ==> job.runner != "" && job.attempt > 0 && job.lease.Some?
    ensures WellFormed(jobs[job.id := job]) && StartedAreMet(jobs[job.id := job]) && Ranked(jobs[job.id := job])
  {
    var next := jobs[job.id := job];
    forall id | id in next && Started(next[id].status) ensures NeedsMet(next, next[id]) {
      assert NeedsMet(jobs, next[id]);
      forall need | need in next[id].needs ensures Met(need, next) {
        assert Met(need, jobs);
      }
    }
    var rank :| RankedBy(jobs, rank);
    assert RankedBy(next, rank);
  }

  lemma {:induction false} RankBound(ranks: set<nat>) returns (bound: nat)
    ensures forall r :: r in ranks ==> r < bound
  {
    if ranks == {} {
      bound := 0;
    } else {
      var r :| r in ranks;
      var rest := RankBound(ranks - {r});
      assert forall x :: x in ranks ==> x == r || x in ranks - {r};
      bound := if r < rest then rest else r + 1;
    }
  }

  /** Saving records under fresh identifiers, ranked above every job there is. */
  lemma {:induction false} AddKeeps(jobs: Jobs, added: Jobs, rank: map<string, nat>, newRank: map<string, nat>)
    requires WellFormed(jobs) && StartedAreMet(jobs) && RankedBy(jobs, rank)
    requires forall id :: id in added ==> Fresh(jobs, id)
    requires WellFormed(added)
    requires forall id :: id in added ==> BatchJobRanked(jobs, added, rank, newRank, id)
    ensures WellFormed(jobs + added) && StartedAreMet(jobs + added) && Ranked(jobs + added)
  {
    var next := jobs + added;
    forall id | id in next && Started(next[id].status) ensures NeedsMet(next, next[id]) {
      assert id in added ==> BatchJobRanked(jobs, added, rank, newRank, id);
      assert NeedsMet(jobs, next[id]);
      forall need | need in next[id].needs ensures Met(need, next) {
        assert Met(need, jobs);
      }
    }
    var both := map id | id in next :: if id in added then newRank[id] else rank[id];
    forall id | id in next
      ensures id in both && forall need :: need in next[id].needs && need.id in next ==>
          need.id in both && both[need.id] < both[id]
    {
      if id in jobs {
        assert forall need :: need in jobs[id].needs ==> need.id !in added;
      } else {
        assert BatchJobRanked(jobs, added, rank, newRank, id);
      }
    }
    assert RankedBy(next, both);
  }

  /** What a view shows as succeeded has succeeded. */
  lemma {:induction false} SeenMet(view: Jobs, jobs: Jobs, needs: seq<Need>)
    requires Seen(view, jobs) && forall need :: need in needs ==> Met(need, view)
    ensures forall need :: need in needs ==> Met(need, jobs)
  {
  }

  /** The needs of a scheduled job lie in its own batch, and come earlier in the order. */
  lemma {:induction false} ScheduledNeeds(jobs: Jobs, configs: map<string, JobConfig>, ids: map<string, string>,
                                          order: seq<string>, name: string, need: Need,
                                          branch: string, commit: string, now: nat)
    requires WellFormed(jobs) && FreshIds(jobs, configs, ids) && name in ids
    requires DependencySearch.Topological(Graph(configs), order) && forall n :: n in configs ==> n in order
    requires need in ConfiguredJob(name, configs[name], branch, commit, ids, now).needs
    ensures need.id !in jobs
    ensures need.id == "" || (need.name in ids && need.id == ids[need.name])
    ensures need.name in order && DependencySearch.FirstIndex(order, need.name)
        < DependencySearch.FirstIndex(order, name)
  {
    var needs := configs[name].needs;
    var i :| 0 <= i < |needs| && need == NeedOf(needs[i], ids);
    DependencySearch.NeedComesFirst(Graph(configs), order, name, needs[i]);
  }

  ghost function BatchRank(ids: map<string, string>, order: seq<string>): (rank: map<string, nat>)
    requires forall name :: name in ids ==> name in order
    requires forall m, n :: m in ids && n in ids && ids[m] == ids[n] ==> m == n
  {
    map name | name in ids :: ids[name] := DependencySearch.FirstIndex(order, name)
  }

  lemma {:induction false} ScheduleKeepsInv(state: State, configs: map<string, JobConfig>, branch: string,
                                            commit: string, ids: map<string, string>, saved: set<string>)
    requires Inv(state) && ScheduleJobs(state, configs, branch, commit, ids, saved).Some?
    ensures Inv(ScheduleJobs(state, configs, branch, commit, ids, saved).value)
  {
    var added := Scheduled(configs, branch, commit, ids, saved, state.clock);
    var order :| DependencySearch.Topological(Graph(configs), order) && forall name :: name in Graph(configs) ==>
        name in order;
    assert forall name :: name in configs ==> name in Graph(configs);
    var rank :| RankedBy(state.jobs, rank);
    BatchIsRanked(state, configs, branch, commit, ids, saved, order, rank);
    AddKeeps(state.jobs, added, rank, BatchRank(ids, order));
  }

  lemma {:induction false} BatchIsRanked(state: State, configs: map<string, JobConfig>, branch: string,
                                         commit: string, ids: map<string, string>, saved: set<string>,
                                         order: seq<string>, rank: map<string, nat>)
    requires WellFormed(state.jobs) && RankedBy(state.jobs, rank) && FreshIds(state.jobs, configs, ids)
        && saved <= ids.Keys
    requires DependencySearch.Topological(Graph(configs), order) && forall n :: n in configs ==> n in order
    ensures
      var added := Scheduled(configs, branch, commit, ids, saved, state.clock);
      && WellFormed(added)
      && (forall id :: id in added ==> Fresh(state.jobs, id))
      && (forall id :: id in added ==> BatchJobRanked(state.jobs, added, rank, BatchRank(ids, order), id))
  {
    var added := Scheduled(configs, branch, commit, ids, saved, state.clock);
    forall id | id in added
      ensures Fresh(state.jobs, id) && WellFormedJob(id, added[id])
      ensures BatchJobRanked(state.jobs, added, rank, BatchRank(ids, order), id)
    {
      var name :| name in saved && ids[name] == id;
      JobIsRanked(state, configs, branch, commit, ids, saved, order, rank, name);
    }
  }

  lemma {:induction false} ConfiguredShape(name: string, config: JobConfig, branch: string, commit: string,
                                           ids: map<string, string>, now: nat)
    requires name in ids && ids[name] != ""
    ensures
      var job := ConfiguredJob(name, config, branch, commit, ids, now);
      WellFormedJob(ids[name], job) && (Started(job.status) ==> job.needs == [])
  {
  }

  lemma {:induction false} ScheduledAt(configs: map<string, JobConfig>, branch: string, commit: string,
                                       ids: map<string, string>, saved: set<string>, now: nat, name: string)
    requires saved <= ids.Keys && ids.Keys <= configs.Keys && name in saved
    requires forall m, n :: m in ids && n in ids && ids[m] == ids[n] ==> m == n
    ensures
      var added := Scheduled(configs, branch, commit, ids, saved, now);
      ids[name] in added && added[ids[name]] == ConfiguredJob(name, configs[name], branch, commit, ids, now)
  {
  }

  lemma {:induction false} JobIsRanked(state: State, configs: map<string, JobConfig>, branch: string, commit: string,
                                       ids: map<string, string>, saved: set<string>,
                                       order: seq<string>, rank: map<string, nat>, name: string)
    requires WellFormed(state.jobs) && RankedBy(state.jobs, rank) && FreshIds(state.jobs, configs, ids)
        && saved <= ids.Keys && name in saved
    requires DependencySearch.Topological(Graph(configs), order) && forall n :: n in configs ==> n in order
    ensures
      var added := Scheduled(configs, branch, commit, ids, saved, state.clock);
      && ids[name] in added && WellFormedJob(ids[name], added[ids[name]])
      && BatchJobRanked(state.jobs, added, rank, BatchRank(ids, order), ids[name])
  {
    var added := Scheduled(configs, branch, commit, ids, saved, state.clock);
    var newRank, id := BatchRank(ids, order), ids[name];
    assert Fresh(state.jobs, id);
    ScheduledAt(configs, branch, commit, ids, saved, state.clock, name);
    ConfiguredShape(name, configs[name], branch, commit, ids, state.clock);
    forall need | need in added[id].needs
      ensures need.id !in state.jobs && (need.id in newRank ==> newRank[need.id] < newRank[id])
    {
      ScheduledNeeds(state.jobs, configs, ids, order, name, need, branch, commit, state.clock);
    }
    assert forall other :: other in added ==> other in newRank;
  }

  /** An added job has met needs if it is started, and ranks above everything it needs. */
  predicate BatchJobRanked(jobs: Jobs, added: Jobs, rank: map<string, nat>, newRank: map<string, nat>, id: string)
    requires id in added && RankedBy(jobs, rank)
  {
    && (Started(added[id].status) ==> NeedsMet(jobs, added[id]))
    && id in newRank
    && forall need :: need in added[id].needs ==>
         (need.id in jobs ==> rank[need.id] < newRank[id]) &&
         (need.id in added ==> need.id in newRank && newRank[need.id] < newRank[id])
  }

  lemma {:induction false} TopRanked(jobs: Jobs, rank: map<string, nat>, job: Job, bound: nat)
    requires RankedBy(jobs, rank) && job.id !in jobs && NeedsMet(jobs, job)
    requires forall id :: id in jobs ==> rank[id] < bound
    ensures BatchJobRanked(jobs, map[job.id := job], rank, map[job.id := bound], job.id)
  {
    forall need | need in job.needs ensures need.id in jobs && need.id != job.id {
      assert Met(need, jobs);
    }
  }

  lemma {:induction false} NewJobKeeps(state: State, job: Job)
    requires Inv(state) && Fresh(state.jobs, job.id)
    requires NeedsMet(state.jobs, job)
    requires job.status.Queued? || job.status.Failed?
    ensures Inv(state.(jobs := state.jobs[job.id := job]))
  {
    var jobs := state.jobs;
    var rank :| RankedBy(jobs, rank);
    var ranks := set id | id in jobs :: rank[id];
    var bound := RankBound(ranks);
    forall id | id in jobs ensures rank[id] < bound {
      assert rank[id] in ranks;
    }
    TopRanked(jobs, rank, job, bound);
    AddKeeps(jobs, map[job.id := job], rank, map[job.id := bound]);
    assert jobs + map[job.id := job] == jobs[job.id := job];
  }

  lemma {:induction false} CutAppend(sent: string, contents: string)
    ensures Appended(Cut(sent), contents) == Cut(sent + contents)
  {
  }

  lemma {:induction false} AppendKeepsLogs(state: State, id: string, contents: string)
    requires LogsCut(state)
    ensures LogsCut(state.(logs := state.logs[id := Appended(LogOf(state.logs, id), contents)],
                           sent := state.sent[id := LogOf(state.sent, id) + contents]))
  {
    CutAppend(LogOf(state.sent, id), contents);
    var next := state.(logs := state.logs[id := Appended(LogOf(state.logs, id), contents)],
                       sent := state.sent[id := LogOf(state.sent, id) + contents]);
    forall other ensures LogOf(next.logs, other) == Cut(LogOf(next.sent, other)) {
      assert LogOf(state.logs, other) == Cut(LogOf(state.sent, other));
    }
  }

  /** The step saves a later version of one existing record, and does nothing else. */
  predicate Saves(state: State, next: State, id: string)
  {
    && id in state.jobs && id in next.jobs
    && next.jobs == state.jobs[id := next.jobs[id]]
    && Precedes(state.jobs[id], next.jobs[id]) && WellFormedJob(id, next.jobs[id])
    && (Started(next.jobs[id].status) ==> NeedsMet(state.jobs, next.jobs[id]))
  }

  lemma {:induction false} SavesKeepsInv(state: State, next: State, id: string)
    requires Inv(state) && Saves(state, next, id) && LogsCut(next)
    ensures Inv(next)
  {
    SaveKeeps(state.jobs, next.jobs[id]);
  }

  lemma {:induction false} StartSaves(state: State, id: string, view: Jobs)
    requires Inv(state) && Seen(view, state.jobs) && StartJob(state, id, view).Some?
    ensures Saves(state, StartJob(state, id, view).value, id)
    ensures StartJob(state, id, view).value.jobs[id].runner == state.jobs[id].runner
  {
    assert WellFormedJob(id, state.jobs[id]);
    SeenMet(view, state.jobs, state.jobs[id].needs);
  }

  lemma {:induction false} CancelSaves(state: State, id: string)
    requires Inv(state) && CancelJob(state, id).Some?
    ensures Saves(state, CancelJob(state, id).value, id)
    ensures CancelJob(state, id).value.jobs[id].runner == state.jobs[id].runner
  {
    assert WellFormedJob(id, state.jobs[id]);
    assert state.jobs[id := state.jobs[id]] == state.jobs;
  }

  lemma {:induction false} ClaimSaves(state: State, id: string, runner: string, configured: bool)
    requires Inv(state) && ClaimJob(state, id, runner, configured).Some?
    ensures Saves(state, ClaimJob(state, id, runner, configured).value, id)
  {
    assert WellFormedJob(id, state.jobs[id]);
    assert NeedsMet(state.jobs, state.jobs[id]);
  }

  lemma {:induction false} BeatSaves(state: State, id: string, runner: string)
    requires Inv(state) && BeatJob(state, id, runner).Some?
    ensures Saves(state, BeatJob(state, id, runner).value, id)
    ensures BeatJob(state, id, runner).value.jobs[id].runner == state.jobs[id].runner
  {
    assert WellFormedJob(id, state.jobs[id]);
    assert Started(state.jobs[id].status) ==> NeedsMet(state.jobs, state.jobs[id]);
    assert state.jobs[id := state.jobs[id]] == state.jobs;
  }

  lemma {:induction false} AppendSaves(state: State, id: string, runner: string, offset: nat, contents: string)
    requires Inv(state) && AppendToLog(state, id, runner, offset, contents).Some?
    ensures Saves(state, AppendToLog(state, id, runner, offset, contents).value, id)
    ensures AppendToLog(state, id, runner, offset, contents).value.jobs[id].runner == state.jobs[id].runner
  {
    assert WellFormedJob(id, state.jobs[id]);
    assert NeedsMet(state.jobs, state.jobs[id]);
  }

  lemma {:induction false} CompleteSaves(state: State, id: string, runner: string, error: string)
    requires Inv(state) && CompleteJob(state, id, runner, error).Some?
    ensures Saves(state, CompleteJob(state, id, runner, error).value, id)
    ensures CompleteJob(state, id, runner, error).value.jobs[id].runner == state.jobs[id].runner
  {
    assert WellFormedJob(id, state.jobs[id]);
    assert Started(state.jobs[id].status) ==> NeedsMet(state.jobs, state.jobs[id]);
    assert state.jobs[id := state.jobs[id]] == state.jobs;
  }

  lemma {:induction false} ReconcileSaves(state: State, id: string, view: Jobs, error: string)
    requires Inv(state) && Seen(view, state.jobs) && ReconcileJob(state, id, view, error).Some?
    ensures Saves(state, ReconcileJob(state, id, view, error).value, id)
    ensures ReconcileJob(state, id, view, error).value.jobs[id].runner == state.jobs[id].runner
  {
    assert WellFormedJob(id, state.jobs[id]);
    SettledJobNotPending(view, id);
    if FinalStatus(view, id).Queued? {
      assert forall need :: need in view[id].needs ==> Met(need, view);
      SeenMet(view, state.jobs, state.jobs[id].needs);
    }
  }

  lemma {:induction false} StepKeepsInv(state: State, step: Step)
    requires Inv(state) && Do(state, step).Some?
    ensures Inv(Do(state, step).value)
  {
    var next := Do(state, step).value;
    match step
    case Tick(_) =>
    case Schedule(configs, branch, commit, ids, saved) => ScheduleKeepsInv(state, configs, branch, commit, ids, saved);
    case RejectConfiguration(newId, _, _) => NewJobKeeps(state, next.jobs[newId]);
    case Start(id, view) => StartSaves(state, id, view); SavesKeepsInv(state, next, id);
    case Rerun(id, newId, names, needs, view) => RerunKeepsInv(state, id, newId, names, needs, view);
    case Cancel(id) => CancelSaves(state, id); SavesKeepsInv(state, next, id);
    case Claim(id, runner, configured) => ClaimSaves(state, id, runner, configured); SavesKeepsInv(state, next, id);
    case Heartbeat(id, runner) => BeatSaves(state, id, runner); SavesKeepsInv(state, next, id);
    case Append(id, runner, offset, contents) =>
      AppendSaves(state, id, runner, offset, contents);
      AppendKeepsLogs(state, id, contents);
      SavesKeepsInv(state, next, id);
    case Complete(id, runner, error) => CompleteSaves(state, id, runner, error); SavesKeepsInv(state, next, id);
    case Reconcile(id, view, error) => ReconcileSaves(state, id, view, error); SavesKeepsInv(state, next, id);
  }

  lemma {:induction false} RerunKeepsInv(state: State, id: string, newId: string, names: seq<string>,
                                         needs: seq<Need>, view: Jobs)
    requires Inv(state) && Seen(view, state.jobs) && RerunJob(state, id, newId, names, needs, view).Some?
    ensures Inv(RerunJob(state, id, newId, names, needs, view).value)
  {
    SeenMet(view, state.jobs, needs);
    NewJobKeeps(state, RerunJob(state, id, newId, names, needs, view).value.jobs[newId]);
  }

  lemma {:induction false} ScheduleAdds(state: State, configs: map<string, JobConfig>, branch: string, commit: string,
                                        ids: map<string, string>, saved: set<string>)
    requires ScheduleJobs(state, configs, branch, commit, ids, saved).Some?
    ensures Seen(state.jobs, ScheduleJobs(state, configs, branch, commit, ids, saved).value.jobs)
  {
  }

  /** Records only ever move forward: no step leaves a terminal status, goes back to waiting or
      manual, changes what a job needs, or lowers its attempt number. */
  lemma {:induction false} StepMovesForward(state: State, step: Step)
    requires Inv(state) && Do(state, step).Some?
    ensures Seen(state.jobs, Do(state, step).value.jobs)
  {
    var next := Do(state, step).value;
    match step
    case Tick(_) => SameForward(state.jobs);
    case Schedule(configs, branch, commit, ids, saved) => ScheduleAdds(state, configs, branch, commit, ids, saved);
    case RejectConfiguration(newId, _, _) => AddForward(state.jobs, next.jobs[newId]);
    case Start(id, view) => StartSaves(state, id, view); SavesForward(state, next, id);
    case Rerun(_, newId, _, _, _) => AddForward(state.jobs, next.jobs[newId]);
    case Cancel(id) => CancelSaves(state, id); SavesForward(state, next, id);
    case Claim(id, runner, configured) => ClaimSaves(state, id, runner, configured); SavesForward(state, next, id);
    case Heartbeat(id, runner) => BeatSaves(state, id, runner); SavesForward(state, next, id);
    case Append(id, runner, offset, contents) => AppendSaves(state, id, runner, offset, contents);
        SavesForward(state, next, id);
    case Complete(id, runner, error) => CompleteSaves(state, id, runner, error); SavesForward(state, next, id);
    case Reconcile(id, view, error) => ReconcileSaves(state, id, view, error); SavesForward(state, next, id);
  }

  lemma {:induction false} SameForward(jobs: Jobs)
    ensures Seen(jobs, jobs)
  {
  }

  lemma {:induction false} AddForward(jobs: Jobs, job: Job)
    requires job.id !in jobs
    ensures Seen(jobs, jobs[job.id := job])
  {
  }

  lemma {:induction false} SavesForward(state: State, next: State, id: string)
    requires Saves(state, next, id)
    ensures Seen(state.jobs, next.jobs)
  {
  }

  // ---------------------------------------------------------------------------
  // Main results

  /** Under every interleaving of the operations the invariant holds; in particular a queued,
      running or succeeded job has all its needs succeeded, and every log is a prefix of what
      was accepted for it, cut at the maximum size. */
  lemma {:induction false} RunKeepsInv(state: State, steps: seq<Step>)
    requires Inv(state) && Run(state, steps).Some?
    ensures Inv(Run(state, steps).value)
    decreases |steps|
  {
    if steps != [] {
      StepKeepsInv(state, steps[0]);
      RunKeepsInv(Do(state, steps[0]).value, steps[1..]);
    }
  }

  lemma {:induction false} InitialInv(state: State)
    requires Initial(state)
    ensures Inv(state)
  {
    assert RankedBy(state.jobs, map[]);
  }

  lemma {:induction false} EveryRunMeetsNeeds(start: State, steps: seq<Step>, id: string, need: Need)
    requires Initial(start) && Run(start, steps).Some?
    requires
      var jobs := Run(start, steps).value.jobs;
      id in jobs && (jobs[id].status.Queued? || jobs[id].status.Running? || jobs[id].status.Succeeded?)
          && need in jobs[id].needs
    ensures
      var jobs := Run(start, steps).value.jobs;
      need.id in jobs && jobs[need.id].status.Succeeded?
  {
    InitialInv(start);
    RunKeepsInv(start, steps);
    var jobs := Run(start, steps).value.jobs;
    assert NeedsMet(jobs, jobs[id]);
    assert Met(need, jobs);
  }

  lemma {:induction false} SeenTransitive(a: Jobs, b: Jobs, c: Jobs)
    requires Seen(a, b) && Seen(b, c)
    ensures Seen(a, c)
  {
    forall id | id in a ensures id in c && Precedes(a[id], c[id]) {
      assert id in b;
      assert Precedes(a[id], b[id]) && Precedes(b[id], c[id]);
    }
  }

  /** Over any run no record is lost, no terminal status is left, and no job goes back to
      waiting or manual. This is also why a record read earlier may be used as a view later. */
  lemma {:induction false} RunMovesForward(state: State, steps: seq<Step>)
    requires Inv(state) && Run(state, steps).Some?
    ensures Seen(state.jobs, Run(state, steps).value.jobs)
    decreases |steps|
  {
    if steps == [] {
      SameForward(state.jobs);
    } else {
      var next := Do(state, steps[0]).value;
      StepKeepsInv(state, steps[0]);
      StepMovesForward(state, steps[0]);
      RunMovesForward(next, steps[1..]);
      SeenTransitive(state.jobs, next.jobs, Run(next, steps[1..]).value.jobs);
    }
  }

  /** A claim raises the attempt number by one and names its runner, and it is granted only on
      a queued job or one whose lease has run out. */
  lemma {:induction false} ClaimRaisesAttempt(state: State, id: string, runner: string)
    requires Inv(state) && Do(state, Claim(id, runner, true)).Some?
    ensures
      var before, after := state.jobs[id], Do(state, Claim(id, runner, true)).value.jobs[id];
      && after.attempt == before.attempt + 1 && after.runner == runner && after.status.Running?
      && after.lease == Some(state.clock + state.leaseDuration)
      && (before.status.Running? && before.lease.Some? ==> before.lease.value <= state.clock)
      && (before.status.Queued? || before.status.Running?)
  {
    assert Do(state, Claim(id, runner, true)) == ClaimJob(state, id, runner, true);
    assert WellFormedJob(id, state.jobs[id]);
  }

  predicate ClaimsJob(step: Step, id: string)
  {
    step.Claim? && step.id == id
  }

  lemma {:induction false} OnlyClaimChangesRunner(state: State, step: Step, id: string)
    requires Inv(state) && Do(state, step).Some? && id in state.jobs && !ClaimsJob(step, id)
    ensures id in Do(state, step).value.jobs && Do(state, step).value.jobs[id].runner == state.jobs[id].runner
  {
    var next := Do(state, step).value;
    match step
    case Tick(_) =>
    case Schedule(configs, branch, commit, ids, saved) => ScheduleKeepsRecord(state, configs, branch, commit, ids,
        saved, id);
    case RejectConfiguration(newId, _, _) =>
    case Start(j, view) => StartSaves(state, j, view); SavesRunner(state, next, j, id);
    case Rerun(_, newId, _, _, _) =>
    case Cancel(j) => CancelSaves(state, j); SavesRunner(state, next, j, id);
    case Claim(j, runner, configured) => ClaimSaves(state, j, runner, configured); OtherRecord(state, next, j, id);
    case Heartbeat(j, runner) => BeatSaves(state, j, runner); SavesRunner(state, next, j, id);
    case Append(j, runner, offset, contents) => AppendSaves(state, j, runner, offset, contents);
        SavesRunner(state, next, j, id);
    case Complete(j, runner, error) => CompleteSaves(state, j, runner, error); SavesRunner(state, next, j, id);
    case Reconcile(j, view, error) => ReconcileSaves(state, j, view, error); SavesRunner(state, next, j, id);
  }

  lemma {:induction false} ScheduleKeepsRecord(state: State, configs: map<string, JobConfig>, branch: string,
                                               commit: string, ids: map<string, string>, saved: set<string>, id: string)
    requires ScheduleJobs(state, configs, branch, commit, ids, saved).Some? && id in state.jobs
    ensures
      var next := ScheduleJobs(state, configs, branch, commit, ids, saved).value;
      id in next.jobs && next.jobs[id] == state.jobs[id]
  {
    assert forall name :: name in ids ==> Fresh(state.jobs, ids[name]);
  }

  lemma {:induction false} OtherRecord(state: State, next: State, saved: string, id: string)
    requires Saves(state, next, saved) && id in state.jobs && id != saved
    ensures id in next.jobs && next.jobs[id] == state.jobs[id]
  {
  }

  lemma {:induction false} SavesRunner(state: State, next: State, saved: string, id: string)
    requires Saves(state, next, saved) && id in state.jobs
    requires next.jobs[saved].runner == state.jobs[saved].runner
    ensures id in next.jobs && next.jobs[id].runner == state.jobs[id].runner
  {
  }

  /** Lease fencing: once a job is claimed by one runner, then until it is claimed again no
      other runner can extend its lease, append to its log or complete it. */
  lemma {:induction false} OldRunnerIsFenced(state: State, steps: seq<Step>, id: string, runner: string, stale: string)
    requires Inv(state) && Run(state, steps).Some? && id in state.jobs && state.jobs[id].runner == runner
        && stale != runner
    requires forall i :: 0 <= i < |steps| ==> !ClaimsJob(steps[i], id)
    ensures
      var end := Run(state, steps).value;
      && Do(end, Heartbeat(id, stale)).None?
      && (forall error :: Do(end, Complete(id, stale, error)).None?)
      && (forall offset, contents :: Do(end, Append(id, stale, offset, contents)).None?)
    decreases |steps|
  {
    if steps != [] {
      StepKeepsInv(state, steps[0]);
      OnlyClaimChangesRunner(state, steps[0], id);
      OldRunnerIsFenced(Do(state, steps[0]).value, steps[1..], id, runner, stale);
    }
  }

  /** Completing a job again with the same result is accepted and changes nothing, and with a
      different result is refused; a canceled job stays canceled, whatever its owner reports. */
  lemma {:induction false} CompletionIsFinal(state: State, id: string, runner: string, error: string, other: string)
    requires Inv(state) && Owned(state, id, runner)
    ensures state.jobs[id].status.Canceled? ==> Do(state, Complete(id, runner, error)) == Some(state)
    ensures state.jobs[id].status.Running? ==>
      var once := Do(state, Complete(id, runner, error));
      && once.Some?
      && Do(once.value, Complete(id, runner, error)) == once
      && (other != error ==> Do(once.value, Complete(id, runner, other)).None?)
      && once.value.jobs[id].status == (if error == "" then Succeeded else Failed)
  {
    assert WellFormedJob(id, state.jobs[id]);
    if state.jobs[id].status.Running? {
      assert Owned(CompleteJob(state, id, runner, error).value, id, runner);
    }
  }

  /** A waiting job has something left to wait for, by descent along the ranks. */
  lemma {:induction false} NotWaiting(jobs: Jobs, rank: map<string, nat>, id: string)
    requires WellFormed(jobs) && RankedBy(jobs, rank) && Quiet(jobs) && id in jobs
    requires forall j :: j in jobs ==> !jobs[j].status.Queued? && !jobs[j].status.Running? && !jobs[j].status.Manual?
    ensures !jobs[id].status.Waiting?
    decreases rank[id]
  {
    var job := jobs[id];
    if job.status.Waiting? {
      assert WellFormedJob(id, job);
      assert Settle(job, jobs, 0).status == job.status;
      assert ReadinessOf(job.needs, jobs).Blocked?;
      var need :| need in job.needs && !Met(need, jobs);
      assert Problem(need, jobs).None?;
      NotWaiting(jobs, rank, need.id);
      assert false;
    }
  }

  /** No build is stuck: in every reachable state in which reconciliation has nothing left to do
      and no job is queued, running or manual, no job is waiting either. */
  lemma {:induction false} NothingLeftWaiting(start: State, steps: seq<Step>)
    requires Initial(start) && Run(start, steps).Some?
    requires
      var jobs := Run(start, steps).value.jobs;
      Quiet(jobs) && forall j :: j in jobs ==>
          !jobs[j].status.Queued? && !jobs[j].status.Running? && !jobs[j].status.Manual?
    ensures forall id :: id in Run(start, steps).value.jobs ==> Terminal(Run(start, steps).value.jobs[id].status)
  {
    InitialInv(start);
    RunKeepsInv(start, steps);
    var jobs := Run(start, steps).value.jobs;
    var rank :| RankedBy(jobs, rank);
    forall id | id in jobs ensures Terminal(jobs[id].status) {
      NotWaiting(jobs, rank, id);
    }
  }
}
