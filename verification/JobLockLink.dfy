/** The job locks stand for the build queue: what the lock system takes for granted about the records
    an operation reads and saves is what the queue's steps do (internal/runner/coordinator.go). */
module JobLockLink {
  import opened Dependencies
  import BuildQueue
  import JobLocks

  /** The jobs whose record says waiting or manual. */
  function UnstartedIds(jobs: Jobs): (ids: set<string>)
  {
    set id | id in jobs && BuildQueue.Unstarted(jobs[id].status)
  }

  /** The lock system knows which jobs are unstarted, and those that have left stay out. */
  ghost predicate Linked(locks: JobLocks.State, queue: BuildQueue.State)
  {
    && locks.unstarted == UnstartedIds(queue.jobs)
    && forall id :: id in locks.left ==> id in queue.jobs && !BuildQueue.Unstarted(queue.jobs[id].status)
  }

  /** Reconciliation wants to change only jobs that it read as waiting or manual. */
  lemma {:induction false} WantedIsUnstarted(jobs: Jobs, id: string)
    requires id in jobs && FinalStatus(jobs, id) != jobs[id].status
    ensures BuildQueue.Unstarted(jobs[id].status)
  {
    SettledJobNotPending(jobs, id);
  }

  /** A saved job that is not waiting or manual any more is the only one to leave. */
  lemma {:induction false} SavedLeaves(before: Jobs, after: Jobs, id: string)
    requires id in before && id in after && after == before[id := after[id]] && !BuildQueue.Unstarted(after[id].status)
    ensures UnstartedIds(after) == UnstartedIds(before) - {id}
  {
  }

  lemma {:induction false} LeaveLinked(locks: JobLocks.State, queue: BuildQueue.State, next: BuildQueue.State,
                                       id: string)
    requires Linked(locks, queue) && id in queue.jobs && id in next.jobs
    requires next.jobs == queue.jobs[id := next.jobs[id]] && !BuildQueue.Unstarted(next.jobs[id].status)
    ensures Linked(JobLocks.Leave(locks, id), next)
  {
    SavedLeaves(queue.jobs, next.jobs, id);
  }

  /** Start, Cancel and Complete, by the operation that holds the job's lock: if they save, they save
      their own job out of waiting and manual, which is the lock system's SaveOwn; if they do not, they
      only give up the lock. */
  lemma {:induction false} OwnStepProjects(locks: JobLocks.State, queue: BuildQueue.State, step: BuildQueue.Step,
                                           t: nat)
    requires Linked(locks, queue) && BuildQueue.Inv(queue) && (step.Start? || step.Cancel? || step.Complete?)
    requires BuildQueue.Do(queue, step).Some?
    requires t in locks.threads && locks.threads[t] == JobLocks.Holding(step.id)
    ensures
      var next := BuildQueue.Do(queue, step).value;
      var move := if next == queue then JobLocks.Refuse(t) else JobLocks.SaveOwn(t);
      JobLocks.Do(locks, move).Some? && Linked(JobLocks.Do(locks, move).value, next)
  {
    var next := BuildQueue.Do(queue, step).value;
    if next != queue {
      assert BuildQueue.WellFormedJob(step.id, queue.jobs[step.id]);
      LeaveLinked(locks, queue, next, step.id);
    }
  }

  /** Reading a job that reconciliation would change is the lock system's Read, and it is never the
      operation's own job. */
  lemma {:induction false} ReadProjects(locks: JobLocks.State, queue: BuildQueue.State, t: nat, id: string)
    requires Linked(locks, queue) && JobLocks.Inv(locks)
    requires t in locks.threads && locks.threads[t].Scanning?
    requires id in queue.jobs && FinalStatus(queue.jobs, id) != queue.jobs[id].status
    ensures JobLocks.Do(locks, JobLocks.Read(t, id)).Some? && id != locks.threads[t].own
    ensures Linked(JobLocks.Do(locks, JobLocks.Read(t, id)).value, queue)
  {
    WantedIsUnstarted(queue.jobs, id);
  }

  /** Saving under the second lock is the lock system's Update. */
  lemma {:induction false} ReconcileProjects(locks: JobLocks.State, queue: BuildQueue.State, id: string, view: Jobs,
                                             error: string, t: nat)
    requires Linked(locks, queue) && BuildQueue.Inv(queue)
    requires BuildQueue.Do(queue, BuildQueue.Reconcile(id, view, error)).Some?
    requires t in locks.threads && locks.threads[t].Updating? && locks.threads[t].want == id
    ensures id in locks.unstarted
    ensures
      var next := BuildQueue.Do(queue, BuildQueue.Reconcile(id, view, error)).value;
      var moved := JobLocks.Do(locks, JobLocks.Update(t, true));
      moved.Some? && Linked(moved.value, next)
  {
    var next := BuildQueue.Do(queue, BuildQueue.Reconcile(id, view, error)).value;
    WantedIsUnstarted(view, id);
    assert BuildQueue.WellFormedJob(id, queue.jobs[id]);
    FinalIsStarted(view, id);
    LeaveLinked(locks, queue, next, id);
  }

  lemma {:induction false} FinalIsStarted(jobs: Jobs, id: string)
    requires id in jobs && FinalStatus(jobs, id) != jobs[id].status
    ensures !BuildQueue.Unstarted(FinalStatus(jobs, id))
  {
  }

  /** Scheduling adds jobs the lock system has not seen; no operation is under way. */
  lemma {:induction false} ScheduleProjects(locks: JobLocks.State, queue: BuildQueue.State, step: BuildQueue.Step)
    requires Linked(locks, queue) && BuildQueue.Inv(queue) && step.Schedule? && BuildQueue.Do(queue, step).Some?
    requires forall t :: t in locks.threads ==> locks.threads[t].Idle?
    ensures
      var next := BuildQueue.Do(queue, step).value;
      var moved := JobLocks.Do(locks, JobLocks.AddJobs(UnstartedIds(next.jobs) - UnstartedIds(queue.jobs)));
      moved.Some? && Linked(moved.value, next)
  {
    var next := BuildQueue.Do(queue, step).value;
    BuildQueue.StepMovesForward(queue, step);
    SameUnstarted(queue, step);
  }

  /** No step changes an unstarted job but Start, Cancel and Reconcile; scheduling only adds. */
  lemma {:induction false} SameUnstarted(queue: BuildQueue.State, step: BuildQueue.Step)
    requires BuildQueue.Inv(queue) && step.Schedule? && BuildQueue.Do(queue, step).Some?
    ensures UnstartedIds(queue.jobs) <= UnstartedIds(BuildQueue.Do(queue, step).value.jobs)
    ensures forall id :: id in queue.jobs ==> BuildQueue.Do(queue, step).value.jobs[id] == queue.jobs[id]
  {
  }

  /** A record that is new or was started before is saved as a started one. */
  lemma {:induction false} SavedStarted(locks: JobLocks.State, queue: BuildQueue.State, next: BuildQueue.State,
                                        id: string)
    requires Linked(locks, queue) && id in next.jobs && next.jobs == queue.jobs[id := next.jobs[id]]
    requires id in queue.jobs ==> !BuildQueue.Unstarted(queue.jobs[id].status)
    requires !BuildQueue.Unstarted(next.jobs[id].status)
    ensures Linked(locks, next)
  {
    assert UnstartedIds(next.jobs) == UnstartedIds(queue.jobs);
  }

  lemma {:induction false} RunnerStepsProject(locks: JobLocks.State, queue: BuildQueue.State, step: BuildQueue.Step)
    requires Linked(locks, queue) && BuildQueue.Inv(queue) && BuildQueue.Do(queue, step).Some?
    requires step.Claim? || step.Heartbeat? || step.Append?
    ensures Linked(locks, BuildQueue.Do(queue, step).value)
  {
    var next := BuildQueue.Do(queue, step).value;
    assert BuildQueue.WellFormedJob(step.id, queue.jobs[step.id]);
    assert next.jobs == queue.jobs[step.id := next.jobs[step.id]];
    SavedStarted(locks, queue, next, step.id);
  }

  /** Everything else leaves the unstarted jobs alone, so the lock system does not move. */
  lemma {:induction false} OtherStepsProject(locks: JobLocks.State, queue: BuildQueue.State, step: BuildQueue.Step)
    requires Linked(locks, queue) && BuildQueue.Inv(queue) && BuildQueue.Do(queue, step).Some?
    requires step.Tick? || step.RejectConfiguration? || step.Rerun? || step.Claim? || step.Heartbeat? || step.Append?
    ensures Linked(locks, BuildQueue.Do(queue, step).value)
  {
    if step.Claim? || step.Heartbeat? || step.Append? {
      RunnerStepsProject(locks, queue, step);
    } else if step.RejectConfiguration? || step.Rerun? {
      SavedStarted(locks, queue, BuildQueue.Do(queue, step).value, step.newId);
    }
  }
}
