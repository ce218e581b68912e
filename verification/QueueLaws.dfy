/** What the operations of the build queue do to a job, and what that means over runs
    (internal/runner/coordinator.go, internal/runner/dependencies.go). */
module QueueLaws {
  import opened Basics
  import opened Dependencies
  import opened BuildQueue

  // ---------------------------------------------------------------------------
  // Leases

  /** The runner has the job to itself up to some time, or the job has ended with it. */
  predicate Held(state: State, id: string, runner: string, until: nat)
  {
    && id in state.jobs && state.jobs[id].runner == runner
    && (Terminal(state.jobs[id].status) ||
        (state.jobs[id].status.Running? && state.jobs[id].lease.Some? && state.jobs[id].lease.value >= until))
  }

  /** The steps that save the one job they name, apart from reconciliation. */
  predicate IsJobStep(step: Step)
  {
    step.Start? || step.Cancel? || step.Claim? || step.Heartbeat? || step.Append? || step.Complete?
  }

  /** A claim, a heartbeat and an accepted piece of log each give the runner the whole lease. */
  lemma {:induction false} LeaseBegins(state: State, step: Step, id: string, runner: string)
    requires Inv(state) && Do(state, step).Some?
    requires step == Claim(id, runner, true) || step == Heartbeat(id, runner) ||
             (step.Append? && step.id == id && step.runner == runner)
    ensures Held(Do(state, step).value, id, runner, state.clock + state.leaseDuration)
    ensures Do(state, step).value.clock == state.clock
  {
    assert WellFormedJob(id, state.jobs[id]);
  }

  lemma {:induction false} OwnStepElsewhere(state: State, step: Step, other: string)
    requires WellFormed(state.jobs) && Do(state, step).Some? && IsJobStep(step) && other != step.id
    ensures other in Do(state, step).value.jobs <==> other in state.jobs
    ensures other in state.jobs ==> Do(state, step).value.jobs[other] == state.jobs[other]
  {
    assert WellFormedJob(step.id, state.jobs[step.id]);
  }

  lemma {:induction false} OwnStepKeepsHeld(state: State, step: Step, id: string, runner: string, until: nat)
    requires Inv(state) && Held(state, id, runner, until) && state.clock < until <= state.clock + state.leaseDuration
    requires Do(state, step).Some?
    requires IsJobStep(step)
    ensures Held(Do(state, step).value, id, runner, until)
  {
    if step.id == id {
      assert WellFormedJob(id, state.jobs[id]);
    } else {
      OwnStepElsewhere(state, step, id);
    }
  }

  lemma {:induction false} OtherStepKeepsHeld(state: State, step: Step, id: string, runner: string, until: nat)
    requires Inv(state) && Held(state, id, runner, until) && Do(state, step).Some?
    requires !IsJobStep(step)
    ensures Held(Do(state, step).value, id, runner, until)
  {
    if step.Reconcile? {
      SettledJobNotPending(step.view, step.id);
      assert WellFormedJob(step.id, state.jobs[step.id]);
    } else if step.Schedule? {
      ScheduleKeepsRecord(state, step.configs, step.branch, step.commit, step.ids, step.saved, id);
    }
  }

  lemma {:induction false} StepClock(state: State, step: Step)
    requires Do(state, step).Some?
    ensures state.clock <= Do(state, step).value.clock && Do(state, step).value.leaseDuration == state.leaseDuration
  {
  }

  lemma {:induction false} RunClock(state: State, steps: seq<Step>)
    requires Run(state, steps).Some?
    ensures state.clock <= Run(state, steps).value.clock
    decreases |steps|
  {
    if steps != [] {
      StepClock(state, steps[0]);
      RunClock(Do(state, steps[0]).value, steps[1..]);
    }
  }

  /** A lease holds: as long as it runs, whatever happens, the job is offered to nobody and stays with
      its runner. */
  lemma {:induction false} LeaseHolds(state: State, steps: seq<Step>, id: string, runner: string, until: nat,
                                      other: string, configured: bool)
    requires Inv(state) && Held(state, id, runner, until) && until <= state.clock + state.leaseDuration
    requires Run(state, steps).Some? && Run(state, steps).value.clock < until
    ensures Held(Run(state, steps).value, id, runner, until)
    ensures Do(Run(state, steps).value, Claim(id, other, configured)).None?
    decreases |steps|
  {
    RunClock(state, steps);
    if steps != [] {
      var next := Do(state, steps[0]).value;
      StepKeepsInv(state, steps[0]);
      StepClock(state, steps[0]);
      if IsJobStep(steps[0]) {
        OwnStepKeepsHeld(state, steps[0], id, runner, until);
      } else {
        OtherStepKeepsHeld(state, steps[0], id, runner, until);
      }
      LeaseHolds(next, steps[1..], id, runner, until, other, configured);
    }
  }

  /** ... and once it has run out, anyone may take the job over. */
  lemma {:induction false} LeaseLapses(state: State, id: string, other: string)
    requires Inv(state) && id in state.jobs && state.jobs[id].status.Running? && other != ""
    ensures state.jobs[id].lease.Some?
    ensures Do(state, Claim(id, other, true)).Some? <==> state.jobs[id].lease.value <= state.clock
  {
    assert WellFormedJob(id, state.jobs[id]);
  }

  // ---------------------------------------------------------------------------
  // Scheduling, starting, rerunning, cancelling

  /** What a configured job is recorded as: failed if it needs a job that does not run on the branch,
      else manual if it is configured so, else waiting if it needs anything, else queued; with its
      name, branch and commit, its needs in order, and no runner or attempt yet. */
  ghost predicate RecordedAs(job: Job, name: string, config: JobConfig, branch: string, commit: string,
                             ids: map<string, string>)
  {
    && name in ids && job.id == ids[name] && job.name == name && job.branch == branch && job.commit == commit
    && job.runner == "" && job.attempt == 0 && job.lease.None?
    && |job.needs| == |config.needs|
    && (forall i :: 0 <= i < |job.needs| ==> job.needs[i].name == config.needs[i])
    && (forall i :: 0 <= i < |job.needs| && config.needs[i] in ids ==> job.needs[i].id == ids[config.needs[i]])
    && (job.status.Failed? <==> exists i :: 0 <= i < |config.needs| && config.needs[i] !in ids)
    && (job.status.Manual? <==> !job.status.Failed? && config.manual)
    && (job.status.Waiting? <==> !job.status.Failed? && !config.manual && config.needs != [])
    && (job.status.Queued? <==> !job.status.Failed? && !config.manual && config.needs == [])
  }

  lemma {:induction false} ConfiguredAs(name: string, config: JobConfig, branch: string, commit: string,
                                        ids: map<string, string>, now: nat)
    requires name in ids
    ensures RecordedAs(ConfiguredJob(name, config, branch, commit, ids, now), name, config, branch, commit, ids)
  {
  }

  lemma {:induction false} ScheduledAs(state: State, configs: map<string, JobConfig>, branch: string, commit: string,
                                       ids: map<string, string>, saved: set<string>, name: string)
    requires Inv(state) && Do(state, Schedule(configs, branch, commit, ids, saved)).Some? && name in saved
    ensures name in configs && configs[name].onBranch && name in ids && ids[name] !in state.jobs
    ensures
      var jobs := Do(state, Schedule(configs, branch, commit, ids, saved)).value.jobs;
      ids[name] in jobs && RecordedAs(jobs[ids[name]], name, configs[name], branch, commit, ids)
  {
    assert name in ids;
    ConfiguredAs(name, configs[name], branch, commit, ids, state.clock);
    ScheduledAt(configs, branch, commit, ids, saved, state.clock, name);
  }

  /** Scheduling adds these jobs and leaves every record there is alone. */
  lemma {:induction false} ScheduleOnlyAdds(state: State, configs: map<string, JobConfig>, branch: string,
                                            commit: string,
                                            ids: map<string, string>, saved: set<string>, id: string)
    requires Inv(state) && Do(state, Schedule(configs, branch, commit, ids, saved)).Some?
    ensures
      var jobs := Do(state, Schedule(configs, branch, commit, ids, saved)).value.jobs;
      && (id in state.jobs ==> id in jobs && jobs[id] == state.jobs[id])
      && (id in jobs && id !in state.jobs ==> exists name :: name in saved && name in ids && ids[name] == id)
  {
  }

  /** A start queues exactly a manual job whose needs were all seen to have succeeded. */
  lemma {:induction false} StartQueues(state: State, id: string, view: Jobs)
    requires Inv(state) && Seen(view, state.jobs)
    ensures Do(state, Start(id, view)).Some? <==>
      && id in state.jobs && state.jobs[id].status.Manual?
      && (forall need :: need in state.jobs[id].needs ==> Met(need, view))
      && (forall need :: need in state.jobs[id].needs ==> Problem(need, view).None?)
    ensures Do(state, Start(id, view)).Some? ==>
      var next := Do(state, Start(id, view)).value;
      && next.jobs.Keys == state.jobs.Keys && next.jobs[id].status.Queued?
      && next.jobs[id].(status := Manual) == state.jobs[id]
      && forall other :: other in state.jobs && other != id ==> next.jobs[other] == state.jobs[other]
  {
    if id in state.jobs {
      assert WellFormedJob(id, state.jobs[id]);
    }
  }

  /** A cancel ends exactly a waiting, queued or running job, and leaves a canceled one as it is. */
  lemma {:induction false} CancelEnds(state: State, id: string)
    requires Inv(state)
    ensures Do(state, Cancel(id)).Some? <==>
      && id in state.jobs
      && !state.jobs[id].status.Manual? && !state.jobs[id].status.Succeeded? && !state.jobs[id].status.Failed?
    ensures Do(state, Cancel(id)).Some? ==>
      var next := Do(state, Cancel(id)).value;
      && next.jobs.Keys == state.jobs.Keys && next.jobs[id].status.Canceled?
      && (state.jobs[id].status.Canceled? ==> next == state)
      && (!state.jobs[id].status.Canceled? ==> next.jobs[id].finished == Some(state.clock) && next.jobs[id].lease.None?)
      && forall other :: other in state.jobs && other != id ==> next.jobs[other] == state.jobs[other]
  {
    if id in state.jobs {
      assert WellFormedJob(id, state.jobs[id]);
    }
  }

  /** A rerun is a new queued job like the one that has ended, needing successful runs of the same
      commit; the old record stays. */
  lemma {:induction false} RerunCopies(state: State, id: string, newId: string, names: seq<string>, needs: seq<Need>,
                                       view: Jobs)
    requires Inv(state) && Do(state, Rerun(id, newId, names, needs, view)).Some?
    ensures id in state.jobs && Terminal(state.jobs[id].status) && newId !in state.jobs
    ensures
      var next := Do(state, Rerun(id, newId, names, needs, view)).value;
      && newId in next.jobs && next.jobs - {newId} == state.jobs
      && var job, old_ := next.jobs[newId], state.jobs[id];
         && job.id == newId && job.name == old_.name && job.branch == old_.branch && job.commit == old_.commit
         && job.status.Queued? && job.needs == needs && job.runner == "" && job.attempt == 0
         && forall i :: 0 <= i < |needs| ==>
              && needs[i].id in next.jobs && next.jobs[needs[i].id].status.Succeeded?
              && next.jobs[needs[i].id].commit == old_.commit && next.jobs[needs[i].id].branch == old_.branch
  {
    SeenMet(view, state.jobs, needs);
    var next := Do(state, Rerun(id, newId, names, needs, view)).value;
    forall i | 0 <= i < |needs|
      ensures needs[i].id in state.jobs && state.jobs[needs[i].id].status.Succeeded?
      ensures state.jobs[needs[i].id].commit == state.jobs[id].commit
          && state.jobs[needs[i].id].branch == state.jobs[id].branch {
      assert needs[i] in needs;
      assert Precedes(view[needs[i].id], state.jobs[needs[i].id]);
    }
  }

  // ---------------------------------------------------------------------------
  // Manual jobs

  predicate Starts(step: Step, id: string)
  {
    step.Start? && step.id == id
  }

  predicate Resting(jobs: Jobs, id: string)
  {
    id in jobs && (jobs[id].status.Manual? || jobs[id].status.Failed?)
  }

  lemma {:induction false} OwnStepKeepsResting(state: State, step: Step, id: string)
    requires Inv(state) && Do(state, step).Some? && !Starts(step, id) && Resting(state.jobs, id)
    requires IsJobStep(step)
    ensures Resting(Do(state, step).value.jobs, id)
  {
    if step.id == id {
      assert WellFormedJob(id, state.jobs[id]);
    } else {
      OwnStepElsewhere(state, step, id);
    }
  }

  lemma {:induction false} OtherStepKeepsResting(state: State, step: Step, id: string)
    requires Inv(state) && Do(state, step).Some? && Resting(state.jobs, id)
    requires !IsJobStep(step)
    ensures Resting(Do(state, step).value.jobs, id)
  {
    if step.Schedule? {
      ScheduleKeepsRecord(state, step.configs, step.branch, step.commit, step.ids, step.saved, id);
    } else if step.Reconcile? {
      assert WellFormedJob(step.id, state.jobs[step.id]);
      SettledJobNotPending(step.view, step.id);
      if state.jobs[step.id].status.Manual? {
        ManualIsNeverQueued(step.view, step.id);
      }
    }
  }

  lemma {:induction false} ManualIsNeverQueued(jobs: Jobs, id: string)
    requires id in jobs && jobs[id].status.Manual?
    ensures FinalStatus(jobs, id).Manual? || FinalStatus(jobs, id).Failed?
  {
  }

  /** A manual job is never queued, run or completed unless somebody starts it. */
  lemma {:induction false} ManualNeedsStart(state: State, steps: seq<Step>, id: string)
    requires Inv(state) && Run(state, steps).Some?
    requires Resting(state.jobs, id)
    requires forall i :: 0 <= i < |steps| ==> !Starts(steps[i], id)
    ensures Resting(Run(state, steps).value.jobs, id)
    decreases |steps|
  {
    if steps != [] {
      StepKeepsInv(state, steps[0]);
      if IsJobStep(steps[0]) {
        OwnStepKeepsResting(state, steps[0], id);
      } else {
        OtherStepKeepsResting(state, steps[0], id);
      }
      assert forall i :: 0 <= i < |steps[1..]| ==> steps[1..][i] == steps[i + 1];
      ManualNeedsStart(Do(state, steps[0]).value, steps[1..], id);
    }
  }

  // ---------------------------------------------------------------------------
  // Logs and completions

  /** A piece of log is accepted exactly from the owner of a running job and exactly at the end of the
      log; it is added up to the maximum size, and no other log changes. */
  lemma {:induction false} AppendAdds(state: State, id: string, runner: string, offset: nat, contents: string,
                                      other: string)
    requires Inv(state)
    ensures Do(state, Append(id, runner, offset, contents)).Some? <==>
      && runner != "" && id in state.jobs && state.jobs[id].runner == runner && state.jobs[id].status.Running?
      && offset == |LogOf(state.logs, id)|
    ensures Do(state, Append(id, runner, offset, contents)).Some? ==>
      var next, log := Do(state, Append(id, runner, offset, contents)).value, LogOf(state.logs, id);
      && LogOf(next.logs, id) == Cut(log + contents)
      && LogOf(next.sent, id) == LogOf(state.sent, id) + contents
      && (other != id ==> LogOf(next.logs, other) == LogOf(state.logs, other))
      && (other in state.jobs && other != id ==> next.jobs[other] == state.jobs[other])
  {
    assert LogOf(state.logs, id) == Cut(LogOf(state.sent, id));
    if id in state.jobs {
      assert WellFormedJob(id, state.jobs[id]);
    }
  }

  /** A completed job has the result its owner reported, its end and no lease; others stay. */
  lemma {:induction false} CompleteRecords(state: State, id: string, runner: string, error: string)
    requires Inv(state) && Owned(state, id, runner) && state.jobs[id].status.Running?
    ensures
      var next := Do(state, Complete(id, runner, error));
      && next.Some? && next.value.jobs.Keys == state.jobs.Keys
      && var job := next.value.jobs[id];
         && job.status == (if error == "" then Succeeded else Failed) && job.error == error
         && job.finished == Some(state.clock) && job.lease.None? && job.runner == runner
         && forall other :: other in state.jobs && other != id ==> next.value.jobs[other] == state.jobs[other]
  {
    assert WellFormedJob(id, state.jobs[id]);
  }

  // ---------------------------------------------------------------------------
  // What a record says about the end of a job

  /** A record has an end exactly if the job has ended, a lease exactly while it runs, and an error exactly
      if it failed. */
  predicate Tidy(job: Job, clock: nat)
  {
    && (Terminal(job.status) <==> job.finished.Some?)
    && (job.finished.Some? ==> job.finished.value <= clock)
    && (job.lease.Some? <==> job.status.Running?)
    && (job.error != "" <==> job.status.Failed?)
  }

  predicate AllTidy(state: State)
  {
    forall id :: id in state.jobs ==> Tidy(state.jobs[id], state.clock)
  }

  /** A job that fails for its needs is told why. */
  predicate Explains(step: Step)
  {
    step.Reconcile? ==> step.error != ""
  }

  lemma {:induction false} OwnJobTidy(state: State, step: Step)
    requires WellFormed(state.jobs) && AllTidy(state) && Do(state, step).Some? && IsJobStep(step)
    ensures step.id in Do(state, step).value.jobs && Tidy(Do(state, step).value.jobs[step.id], state.clock)
  {
    assert WellFormedJob(step.id, state.jobs[step.id]) && Tidy(state.jobs[step.id], state.clock);
  }

  lemma {:induction false} OwnStepTidy(state: State, step: Step)
    requires WellFormed(state.jobs) && AllTidy(state) && Do(state, step).Some? && IsJobStep(step)
    ensures AllTidy(Do(state, step).value)
  {
    var next := Do(state, step).value;
    assert next.clock == state.clock;
    forall id | id in next.jobs ensures Tidy(next.jobs[id], next.clock) {
      if id == step.id {
        OwnJobTidy(state, step);
      } else {
        OwnStepElsewhere(state, step, id);
      }
    }
  }

  lemma {:induction false} ConfiguredTidy(name: string, config: JobConfig, branch: string, commit: string,
                                          ids: map<string, string>, now: nat)
    requires name in ids
    ensures Tidy(ConfiguredJob(name, config, branch, commit, ids, now), now)
  {
  }

  lemma {:induction false} ScheduleTidy(state: State, configs: map<string, JobConfig>, branch: string, commit: string,
                                        ids: map<string, string>, saved: set<string>)
    requires AllTidy(state) && ScheduleJobs(state, configs, branch, commit, ids, saved).Some?
    ensures AllTidy(ScheduleJobs(state, configs, branch, commit, ids, saved).value)
  {
    var added := Scheduled(configs, branch, commit, ids, saved, state.clock);
    forall id | id in added ensures Tidy(added[id], state.clock) {
      var name :| name in saved && ids[name] == id;
      ScheduledAt(configs, branch, commit, ids, saved, state.clock, name);
      ConfiguredTidy(name, configs[name], branch, commit, ids, state.clock);
    }
  }

  lemma {:induction false} ReconcileTidy(state: State, id: string, view: Jobs, error: string)
    requires Inv(state) && AllTidy(state) && ReconcileJob(state, id, view, error).Some? && error != ""
    ensures AllTidy(ReconcileJob(state, id, view, error).value)
  {
    SettledJobNotPending(view, id);
    assert WellFormedJob(id, state.jobs[id]);
  }

  lemma {:induction false} OtherStepTidy(state: State, step: Step)
    requires Inv(state) && AllTidy(state) && Do(state, step).Some? && !IsJobStep(step) && Explains(step)
    ensures AllTidy(Do(state, step).value)
  {
    match step {
      case Schedule(configs, branch, commit, ids, saved) =>
        ScheduleTidy(state, configs, branch, commit, ids, saved);
      case Reconcile(id, view, error) => ReconcileTidy(state, id, view, error);
      case _ =>
    }
  }

  /** Over every run all records are in order. */
  lemma {:induction false} RunTidy(state: State, steps: seq<Step>)
    requires Inv(state) && AllTidy(state) && Run(state, steps).Some?
    requires forall i :: 0 <= i < |steps| ==> Explains(steps[i])
    ensures AllTidy(Run(state, steps).value)
    decreases |steps|
  {
    if steps != [] {
      StepKeepsInv(state, steps[0]);
      if IsJobStep(steps[0]) {
        OwnStepTidy(state, steps[0]);
      } else {
        OtherStepTidy(state, steps[0]);
      }
      assert forall i :: 0 <= i < |steps[1..]| ==> steps[1..][i] == steps[i + 1];
      RunTidy(Do(state, steps[0]).value, steps[1..]);
    }
  }
}
