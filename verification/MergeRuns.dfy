/** Every run of the merge protocol: the merging thread's steps, failures and crashes at any
    point, recovery, review updates, and writes to the branches by others. */
module MergeRuns {
  import opened Basics
  import opened Commits
  import opened MergeClaim

  /** Where the thread that holds the repository and merge locks has got to. */
  datatype Phase =
    | Idle
    | Claimed(claimId: string, head: Commit, actor: string)
    | Planned(claimId: string, head: Commit, actor: string, plan: Plan)
    | Applied(claimId: string, head: Commit, actor: string, plan: Plan)
    | Failed(claimId: string, knownNotApplied: bool)

  /** `refSet` and `disturbed` are history: whether the current claim's compare-and-set has
      happened, and whether anyone else has written the target since the claim. */
  datatype State = State(
    target: Option<Commit>,
    source: Option<Commit>,
    request: Request,
    active: set<string>,
    process: string,
    phase: Phase,
    refSet: bool,
    disturbed: bool)

  datatype Step =
    | TakeClaim(claimId: string, head: Commit, actor: string)
    | MakePlan(commitId: nat)
    | HelperFails
    | SetRef
    | KeepRef
    | SetRefLost(applied: bool)
    | SetRefRejected
    | Complete
    | CompleteFails
    | Settle
    | SettleFails
    | Recover
    | Crash(process: string)
    | ApproveBy(actor: string, maintainer: bool, head: Commit)
    | ChangeStatus(status: Status, actor: string)
    | AbandonBy(actor: string)
    | OpenThread(actor: string)
    | CommentOn(thread: nat, actor: string)
    | ResolveThread(thread: nat, actor: string, developer: bool, resolved: bool)
    | WriteTarget(tip: Option<Commit>)
    | WriteSource(tip: Option<Commit>)

  function Update(state: State, updated: Option<Request>): (next: Option<State>)
  {
    if updated.None? then None else Some(state.(request := updated.value))
  }

  /** The claim is being worked on by a live thread of this process. */
  predicate ActiveHere(state: State)
    requires state.request.claim.Some?
  {
    state.request.claim.value.owner == state.process && state.request.claim.value.id in state.active
  }

  /** Whether others may write the target now. Pushes and edits take the repository lock, so
      they come while no merge runs; writers outside the process are admitted up to the
      compare-and-set, which is there to notice them. */
  predicate TargetWritable(phase: Phase)
  {
    match phase
    case Idle => true
    case Claimed(_, _, _) => true
    case Planned(_, _, _, plan) => !plan.strategy.AlreadyUpToDate?
    case Applied(_, _, _, _) => false
    case Failed(_, _) => true
  }

  /** The next state, or None when the step is not possible. */
  function Do(state: State, step: Step): (next: Option<State>)
  {
    var phase, request := state.phase, state.request;
    match step
    case TakeClaim(claimId, head, actor) =>
      if !phase.Idle? || claimId == "" || claimId in state.active || actor == "" || state.process == "" ||
         state.source != Some(head) || state.target.None? then None
      else
        var claimed := ClaimRequest(request, Claim(claimId, state.process, head, actor, None));
        if claimed.None? then None
        else Some(state.(request := claimed.value, active := state.active + {claimId},
                         phase := Claimed(claimId, head, actor), refSet := false, disturbed := false))
    case MakePlan(commitId) =>
      if !phase.Claimed? || state.target.None? || state.source != Some(phase.head) then None
      else
        var plan := PlanMerge(state.target.value, phase.head, commitId);
        var planned := RecordPlan(request, phase.claimId, plan);
        if planned.None? then None
        else Some(state.(request := planned.value, phase := Planned(phase.claimId, phase.head, phase.actor, plan)))
    case HelperFails =>
      if !phase.Claimed? then None else Some(state.(phase := Failed(phase.claimId, false)))
    case SetRef =>
      if !phase.Planned? || phase.plan.strategy.AlreadyUpToDate? || state.target != Some(phase.plan.previous) then None
      else Some(state.(target := Some(phase.plan.result), refSet := true,
                       phase := Applied(phase.claimId, phase.head, phase.actor, phase.plan)))
    case KeepRef =>
      if !phase.Planned? || !phase.plan.strategy.AlreadyUpToDate? then None
      else Some(state.(phase := Applied(phase.claimId, phase.head, phase.actor, phase.plan)))
    case SetRefLost(applied) =>
      if !phase.Planned? || phase.plan.strategy.AlreadyUpToDate?
          || (applied && state.target != Some(phase.plan.previous)) then None
      else if applied then Some(state.(target := Some(phase.plan.result), refSet := true,
          phase := Failed(phase.claimId, false)))
      else Some(state.(phase := Failed(phase.claimId, false)))
    case SetRefRejected =>
      if !phase.Planned? || phase.plan.strategy.AlreadyUpToDate? || state.target == Some(phase.plan.previous) then None
      else Some(state.(phase := Failed(phase.claimId, true)))
    case Complete =>
      if !phase.Applied? then None
      else
        var finished := Finalise(request, phase.claimId, phase.head, phase.plan, phase.actor);
        if finished.None? then None
        else Some(state.(request := finished.value, active := state.active - {phase.claimId}, phase := Idle))
    case CompleteFails =>
      if !phase.Applied? then None
      else Some(state.(active := state.active - {phase.claimId}, phase := Idle))
    case Settle =>
      if !phase.Failed? || request.claim.None? then None
      else Some(state.(request := Reconcile(request, state.target, phase.knownNotApplied),
                       active := state.active - {phase.claimId}, phase := Idle))
    case SettleFails =>
      if !phase.Failed? then None
      else Some(state.(active := state.active - {phase.claimId}, phase := Idle))
    case Recover =>
      if !phase.Idle? || request.claim.None? || ActiveHere(state) then None
      else Some(state.(request := Reconcile(request, state.target, false)))
    case Crash(process) =>
      if process == "" then None else Some(state.(active := {}, process := process, phase := Idle))
    case ApproveBy(actor, maintainer, head) =>
      if !phase.Idle? || state.source != Some(head) || state.target.None? then None
      else Update(state, Approve(request, actor, maintainer, head, state.target.value))
    case ChangeStatus(status, actor) =>
      if !phase.Idle? then None else Update(state, SetStatus(request, status, actor))
    case AbandonBy(actor) =>
      if !phase.Idle? || request.claim.None? || ActiveHere(state) ||
         !Judge(request.claim.value, state.target, false).Ambiguous? then None
      else Update(state, Abandon(request, actor))
    case OpenThread(actor) =>
      if !phase.Idle? then None else Update(state, StartThread(request, actor))
    case CommentOn(thread, actor) =>
      if !phase.Idle? then None else Update(state, AddComment(request, thread, actor))
    case ResolveThread(thread, actor, developer, resolved) =>
      if !phase.Idle? then None else Update(state, SetResolved(request, thread, actor, developer, resolved))
    case WriteTarget(tip) =>
      if !TargetWritable(phase) then None else Some(state.(target := tip, disturbed := true))
    case WriteSource(tip) =>
      Some(state.(source := tip))
  }

  /** The state after a run, or None when some step of it was not possible. */
  function Run(state: State, steps: seq<Step>): (end: Option<State>)
    decreases |steps|
  {
    if steps == [] then Some(state)
    else
      var next := Do(state, steps[0]);
      if next.None? then None else Run(next.value, steps[1..])
  }

  /** A request as it is created, before anything has happened to it. */
  predicate Initial(state: State)
  {
    && ValidRequest(state.request)
    && state.request.status.Open? && state.request.claim.None?
    && state.request.approvals == [] && state.request.threads == []
    && state.phase.Idle? && state.active == {} && state.process != ""
  }

  // ---------------------------------------------------------------------------
  // The invariant

  /** How a head is brought into a target without a needless commit: a target that contains the head
      stays, a head that contains the target becomes the tip, and only branches that have parted get a
      new commit, whose parents are exactly the two. */
  predicate Brings(previous: Commit, head: Commit, result: Commit, strategy: Strategy)
  {
    && (strategy.AlreadyUpToDate? <==> Reaches(previous, head))
    && (strategy.FastForward? <==> Reaches(head, previous) && !Reaches(previous, head))
    && match strategy
       case AlreadyUpToDate => result == previous
       case FastForward => result == head
       case MergeCommit => result.parents == [previous, head]
  }

  /** A plan brings the head into the tip it found. */
  predicate PlanFits(plan: Plan, head: Commit)
  {
    Brings(plan.previous, head, plan.result, plan.strategy)
  }

  /** The result contains both tips, and is new to the target exactly if the target has to move. */
  lemma {:induction false} BringsContains(previous: Commit, head: Commit, result: Commit, strategy: Strategy)
    requires Brings(previous, head, result, strategy)
    ensures Reaches(result, head) && Reaches(result, previous)
    ensures strategy.AlreadyUpToDate? <==> Reaches(previous, result)
  {
    if strategy.MergeCommit? {
      ParentCannotReach(result, previous);
      ParentCannotReach(result, head);
    }
  }

  /** What a claim on record guarantees. */
  predicate ClaimSound(state: State)
  {
    state.request.claim.Some? ==>
      var claim := state.request.claim.value;
      && Accepted(state.request, claim.head)
      && (claim.plan.Some? ==> PlanFits(claim.plan.value, claim.head))
  }

  /** Where the target is, as long as nobody else has written it. */
  predicate TargetKnown(state: State)
  {
    state.request.claim.Some? && !state.disturbed ==>
      var claim := state.request.claim.value;
      && (claim.plan.None? ==> !state.refSet)
      && (claim.plan.Some? ==>
            state.target == Some(if state.refSet then claim.plan.value.result else claim.plan.value.previous))
  }

  /** The merge commit on record is what its strategy says: the head itself, a commit of two parents
      of which the head is the second, or a tip that contained the head. */
  predicate CommitFits(completion: Completion, head: Commit)
  {
    && Reaches(completion.commit, head)
    && (completion.strategy.FastForward? ==> completion.commit == head)
    && (completion.strategy.MergeCommit? ==>
          |completion.commit.parents| == 2 && completion.commit.parents[1] == head)
  }

  /** What a merged record guarantees. */
  predicate MergedSound(request: Request)
  {
    request.status.Merged? && request.completion.Some? ==>
      Accepted(request, request.head) && CommitFits(request.completion.value, request.head)
  }

  /** The running thread and the record agree. */
  predicate PhaseMatches(state: State)
  {
    var claim := state.request.claim;
    match state.phase
    case Idle => claim.Some? ==> !ActiveHere(state)
    case Claimed(id, head, actor) =>
      claim == Some(Claim(id, state.process, head, actor, None)) && id in state.active && !state.refSet
    case Planned(id, head, actor, plan) =>
      && claim == Some(Claim(id, state.process, head, actor, Some(plan))) && id in state.active && !state.refSet
      && (plan.strategy.AlreadyUpToDate? ==> state.target == Some(plan.previous))
    case Applied(id, head, actor, plan) =>
      && claim == Some(Claim(id, state.process, head, actor, Some(plan))) && id in state.active
      && state.target == Some(plan.result)
    case Failed(id, known) =>
      claim.Some? && claim.value.id == id
  }

  predicate Inv(state: State)
  {
    && ValidRequest(state.request)
    && state.process != ""
    && ClaimSound(state)
    && TargetKnown(state)
    && MergedSound(state.request)
    && PhaseMatches(state)
  }

  /** The plan makes no needless commit, and its result contains both tips. */
  lemma {:induction false} PlanMergeFits(target: Commit, head: Commit, commitId: nat)
    ensures
      var plan := PlanMerge(target, head, commitId);
      && plan.previous == target && Brings(target, head, plan.result, plan.strategy)
      && Reaches(plan.result, head) && Reaches(plan.result, target)
      && (plan.strategy.AlreadyUpToDate? <==> Reaches(target, plan.result))
  {
    var plan := PlanMerge(target, head, commitId);
    BringsContains(target, head, plan.result, plan.strategy);
  }

  predicate IsReview(step: Step)
  {
    step.ApproveBy? || step.ChangeStatus? || step.AbandonBy? || step.OpenThread? || step.CommentOn?
        || step.ResolveThread?
  }

  /** An approval replaces its author's earlier one and leaves everyone else's alone. */
  lemma {:induction false} PutApprovalKeeps(author: string, approvals: seq<Approval>, approval: Approval)
    requires ValidApprovals(author, approvals)
    requires approval.author != "" && (approval.selfApproval <==> approval.author == author)
    ensures ValidApprovals(author, PutApproval(approvals, approval))
    ensures forall a :: a in PutApproval(approvals, approval) <==>
      a == approval || (a in approvals && a.author != approval.author)
  {
    if approvals != [] {
      var first, rest := approvals[0], approvals[1..];
      assert forall i :: 0 <= i < |rest| ==> rest[i] == approvals[i + 1];
      assert forall a :: a in rest ==> a in approvals && a.author != first.author;
      assert approvals == [first] + rest;
      if first.author == approval.author {
        ConsApproval(author, approval, rest);
      } else {
        PutApprovalKeeps(author, rest, approval);
        ConsApproval(author, first, PutApproval(rest, approval));
      }
    }
  }

  lemma {:induction false} ConsApproval(author: string, first: Approval, rest: seq<Approval>)
    requires ValidApprovals(author, rest)
    requires first.author != "" && (first.selfApproval <==> first.author == author)
    requires forall a :: a in rest ==> a.author != first.author
    ensures ValidApprovals(author, [first] + rest)
  {
  }

  lemma {:induction false} AppendThread(threads: seq<Thread>, thread: Thread)
    requires ValidThreads(threads) && ValidThread(thread)
    requires forall i :: 0 <= i < |threads| ==> threads[i].id != thread.id
    ensures ValidThreads(threads + [thread])
  {
  }

  lemma {:induction false} ReplaceThread(threads: seq<Thread>, k: nat, thread: Thread)
    requires ValidThreads(threads) && ValidThread(thread) && k < |threads| && threads[k].id == thread.id
    ensures ValidThreads(threads[k := thread])
  {
  }

  lemma {:induction false} CommentKeepsThread(thread: Thread, actor: string)
    requires ValidThread(thread) && actor != ""
    ensures ValidThread(thread.(comments := thread.comments + [Comment(NextId(CommentIds(thread.comments)), actor)]))
  {
    var ids := CommentIds(thread.comments);
    forall i | 0 <= i < |thread.comments| ensures thread.comments[i].id < NextId(ids) {
      assert ids[i] in ids;
    }
  }

  lemma {:induction false} ThreadsKeepValid(state: State, step: Step)
    requires ValidRequest(state.request) && Do(state, step).Some?
    requires step.OpenThread? || step.CommentOn? || step.ResolveThread?
    ensures ValidThreads(Do(state, step).value.request.threads)
  {
    var threads := state.request.threads;
    if step.OpenThread? {
      var ids := ThreadIds(threads);
      forall i | 0 <= i < |threads| ensures threads[i].id < NextId(ids) {
        assert ids[i] in ids;
      }
      AppendThread(threads, Thread(NextId(ids), [Comment(1, step.actor)], None));
    } else {
      var k := FindThread(threads, step.thread);
      if step.CommentOn? {
        CommentKeepsThread(threads[k], step.actor);
      }
      ReplaceThread(threads, k, Do(state, step).value.request.threads[k]);
    }
  }

  /** A review update yields a record the store accepts, without a claim and not merged. */
  lemma {:induction false} ReviewKeepsValid(state: State, step: Step)
    requires ValidRequest(state.request) && IsReview(step) && Do(state, step).Some?
    ensures
      var request := Do(state, step).value.request;
      ValidRequest(request) && request.claim.None? && !request.status.Merged?
  {
    if step.ApproveBy? {
      var own := step.actor == state.request.author;
      PutApprovalKeeps(state.request.author, state.request.approvals, Approval(step.actor, step.head, own));
    } else if step.OpenThread? || step.CommentOn? || step.ResolveThread? {
      ThreadsKeepValid(state, step);
    }
  }

  lemma {:induction false} ReviewKeepsInv(state: State, step: Step)
    requires Inv(state) && IsReview(step) && Do(state, step).Some?
    ensures Inv(Do(state, step).value)
  {
    ReviewKeepsValid(state, step);
  }

  /** Acceptance depends only on the reviews. */
  lemma {:induction false} AcceptedSame(left: Request, right: Request, head: Commit)
    requires left.author == right.author && left.required == right.required
    requires left.approvals == right.approvals && left.threads == right.threads
    ensures Accepted(left, head) <==> Accepted(right, head)
  {
    assert Approvers(left, head) == Approvers(right, head);
  }

  /** What a fitting plan says of the record it ends in. */
  lemma {:induction false} PlanFitsRecord(plan: Plan, head: Commit, actor: string)
    requires PlanFits(plan, head)
    ensures CommitFits(Completion(plan.result, plan.strategy, actor), head)
    ensures Reaches(plan.result, plan.previous)
    ensures plan.strategy.AlreadyUpToDate? <==> Reaches(plan.previous, plan.result)
  {
    BringsContains(plan.previous, head, plan.result, plan.strategy);
  }

  lemma {:induction false} ReconcileKeeps(state: State, knownNotApplied: bool)
    requires Inv(state) && state.request.claim.Some?
    ensures
      var request := Reconcile(state.request, state.target, knownNotApplied);
      ValidRequest(request) && MergedSound(request) && (request.claim.Some? ==> request == state.request)
  {
    var claim := state.request.claim.value;
    AcceptedSame(state.request, Reconcile(state.request, state.target, knownNotApplied), claim.head);
    if claim.plan.Some? {
      PlanFitsRecord(claim.plan.value, claim.head, claim.startedBy);
    }
  }

  lemma {:induction false} MergeStepKeepsInv(state: State, step: Step)
    requires Inv(state) && !IsReview(step) && Do(state, step).Some?
    requires step.TakeClaim? || step.MakePlan? || step.HelperFails? || step.SetRef? || step.KeepRef?
    ensures Inv(Do(state, step).value)
  {
    if step.MakePlan? {
      PlanMergeFits(state.target.value, state.phase.head, step.commitId);
      AcceptedSame(state.request, Do(state, step).value.request, state.phase.head);
    } else if step.TakeClaim? {
      AcceptedSame(state.request, Do(state, step).value.request, step.head);
    }
  }

  lemma {:induction false} EndStepKeepsInv(state: State, step: Step)
    requires Inv(state) && Do(state, step).Some?
    requires step.SetRefLost? || step.SetRefRejected? || step.Complete? || step.CompleteFails?
    ensures Inv(Do(state, step).value)
  {
    if step.Complete? {
      CompleteKeepsInv(state);
    }
  }

  lemma {:induction false} CompleteKeepsInv(state: State)
    requires Inv(state) && Do(state, Complete).Some?
    ensures Inv(Do(state, Complete).value)
  {
    AcceptedSame(state.request, Do(state, Complete).value.request, state.phase.head);
    PlanFitsRecord(state.phase.plan, state.phase.head, state.phase.actor);
  }

  lemma {:induction false} OtherStepKeepsInv(state: State, step: Step)
    requires Inv(state) && Do(state, step).Some?
    requires step.Settle? || step.SettleFails? || step.Recover? || step.Crash? || step.WriteTarget? || step.WriteSource?
    ensures Inv(Do(state, step).value)
  {
    if step.Settle? {
      ReconcileKeeps(state, state.phase.knownNotApplied);
    } else if step.Recover? {
      ReconcileKeeps(state, false);
    }
  }

  lemma {:induction false} StepKeepsInv(state: State, step: Step)
    requires Inv(state) && Do(state, step).Some?
    ensures Inv(Do(state, step).value)
  {
    if IsReview(step) {
      ReviewKeepsInv(state, step);
    } else if step.TakeClaim? || step.MakePlan? || step.HelperFails? || step.SetRef? || step.KeepRef? {
      MergeStepKeepsInv(state, step);
    } else if step.SetRefLost? || step.SetRefRejected? || step.Complete? || step.CompleteFails? {
      EndStepKeepsInv(state, step);
    } else {
      OtherStepKeepsInv(state, step);
    }
  }

  /** Every reachable state satisfies the invariant. */
  lemma {:induction false} RunKeepsInv(state: State, steps: seq<Step>)
    requires Inv(state) && Run(state, steps).Some?
    ensures Inv(Run(state, steps).value)
    decreases |steps|
  {
    if steps != [] {
      StepKeepsInv(state, steps[0]);
      RunKeepsInv(Do(state, steps[0]).value, steps[1..]);
    }
  }

  // ---------------------------------------------------------------------------
  // Main results

  predicate Reachable(start: State, steps: seq<Step>, state: State)
  {
    Initial(start) && Run(start, steps) == Some(state)
  }

  lemma {:induction false} ReachableInv(start: State, steps: seq<Step>, state: State)
    requires Reachable(start, steps, state)
    ensures Inv(state)
  {
    RunKeepsInv(start, steps);
  }

  /** In every run, the step that makes a request merged finds the recorded merge commit in
      the target branch, as its tip or as an ancestor of the tip. */
  lemma {:induction false} MergedOnlyWhenInTarget(start: State, steps: seq<Step>, state: State, step: Step)
    requires Reachable(start, steps, state) && Do(state, step).Some?
    requires !state.request.status.Merged? && Do(state, step).value.request.status.Merged?
    ensures
      var next := Do(state, step).value;
      && next.target.Some? && next.request.completion.Some?
      && Reaches(next.target.value, next.request.completion.value.commit)
  {
    ReachableInv(start, steps, state);
  }

  /** In every run, a claim is dropped back to a plain open request only when no plan was on
      record or the target does not contain the planned result. */
  lemma {:induction false} DroppedOnlyWhenNotInTarget(start: State, steps: seq<Step>, state: State, step: Step)
    requires Reachable(start, steps, state) && Do(state, step).Some?
    requires state.request.claim.Some?
    requires Do(state, step).value.request.claim.None? && Do(state, step).value.request.status.Open?
    ensures
      var plan, target := state.request.claim.value.plan, Do(state, step).value.target;
      plan.Some? ==> target.Some? && !Reaches(target.value, plan.value.result)
  {
    ReachableInv(start, steps, state);
  }

  /** Every reachable merged record was approved by enough distinct people for exactly the
      head it records, has no open discussion, and its merge commit contains that head. */
  lemma {:induction false} MergedRecordSound(start: State, steps: seq<Step>, state: State)
    requires Reachable(start, steps, state) && state.request.status.Merged?
    ensures state.request.completion.Some?
    ensures |Approvers(state.request, state.request.head)| >= state.request.required >= 1
    ensures forall t :: t in state.request.threads ==> t.resolvedBy.Some?
    ensures CommitFits(state.request.completion.value, state.request.head)
  {
    ReachableInv(start, steps, state);
  }

  lemma {:induction false} ClaimKeepsReviews(state: State, step: Step)
    requires Inv(state) && Do(state, step).Some? && state.request.claim.Some?
    ensures
      var next := Do(state, step).value.request;
      next.approvals == state.request.approvals && next.threads == state.request.threads
  {
  }

  lemma {:induction false} MergedStays(state: State, step: Step)
    requires Inv(state) && Do(state, step).Some? && state.request.status.Merged?
    ensures Do(state, step).value.request == state.request
  {
  }

  /** Between claim and completion nobody can touch the reviews, and a merged record is final. */
  lemma {:induction false} ReviewsFrozen(start: State, steps: seq<Step>, state: State, step: Step)
    requires Reachable(start, steps, state) && Do(state, step).Some?
    ensures
      var request, next := state.request, Do(state, step).value.request;
      && (request.claim.Some? ==> next.approvals == request.approvals && next.threads == request.threads)
      && (request.status.Merged? ==> next == request)
  {
    ReachableInv(start, steps, state);
    if state.request.claim.Some? {
      ClaimKeepsReviews(state, step);
    }
    if state.request.status.Merged? {
      MergedStays(state, step);
    }
  }

  /** Whether the branch already holds, or no longer lacks, what the claim set out to do. */
  predicate Happened(state: State)
    requires state.request.claim.Some?
  {
    var plan := state.request.claim.value.plan;
    plan.Some? && (state.refSet || plan.value.strategy.AlreadyUpToDate?)
  }

  /** A crash at any point of a run in which nobody else wrote the target is always decided:
      recovery marks the request merged exactly when the compare-and-set had happened (or
      there was nothing to set), and otherwise returns it to plain open. */
  lemma {:induction false} RecoveryExact(start: State, steps: seq<Step>, state: State, process: string)
    requires Reachable(start, steps, state) && process != ""
    requires state.request.claim.Some? && !state.disturbed
    ensures
      var end := Run(state, [Crash(process), Recover]);
      && end.Some? && end.value.request.claim.None?
      && end.value.request.status == (if Happened(state) then Merged else Open)
      && !Judge(state.request.claim.value, state.target, false).Ambiguous?
  {
    ReachableInv(start, steps, state);
    var crashed := state.(active := {}, process := process, phase := Idle);
    assert Do(state, Crash(process)) == Some(crashed);
    if state.request.claim.value.plan.Some? {
      PlanFitsRecord(state.request.claim.value.plan.value, state.request.claim.value.head, "");
    }
    var recovered := crashed.(request := Reconcile(state.request, state.target, false));
    assert Do(crashed, Recover) == Some(recovered);
    assert [Crash(process), Recover][1..] == [Recover];
    assert Run(crashed, [Recover]) == Run(recovered, []);
  }

  /** Exactly when recovery cannot decide: a plan is on record, the target has left the tip
      recorded before the merge, does not contain the result, and no failed compare-and-set
      proves that the merge did not happen. */
  lemma {:induction false} AmbiguousExactly(claim: Claim, target: Option<Commit>, knownNotApplied: bool)
    ensures Judge(claim, target, knownNotApplied).Ambiguous? <==>
      && claim.plan.Some? && target.Some? && !knownNotApplied
      && target.value != claim.plan.value.previous
      && !Reaches(target.value, claim.plan.value.result)
  {
    if claim.plan.Some? && target.Some? && Reaches(target.value, claim.plan.value.result) {
      assert Judge(claim, target, knownNotApplied).WasMerged?;
    }
  }

  /** ... so ambiguity takes a write to the target by someone else. */
  lemma {:induction false} AmbiguousOnlyIfDisturbed(start: State, steps: seq<Step>, state: State)
    requires Reachable(start, steps, state) && state.request.claim.Some?
    requires Judge(state.request.claim.value, state.target, false).Ambiguous?
    ensures state.disturbed
  {
    ReachableInv(start, steps, state);
  }

  /** An undecidable claim can always be given up by closing the request. */
  lemma {:induction false} AmbiguousCanBeClosed(start: State, steps: seq<Step>, state: State, actor: string)
    requires Reachable(start, steps, state) && state.phase.Idle? && actor != ""
    requires state.request.claim.Some? && Judge(state.request.claim.value, state.target, false).Ambiguous?
    ensures
      var end := Do(state, AbandonBy(actor));
      end.Some? && end.value.request.status.Closed? && end.value.request.claim.None? && end.value.target == state.target
  {
    ReachableInv(start, steps, state);
  }

  /** Finalising does not look at the target again: whatever tip a write after the
      compare-and-set had put there, the request would be marked merged. The repository
      lock, held to the end of the merge, is what rules such a write out. */
  lemma {:induction false} CompletionTrustsTheLock(state: State, tip: Option<Commit>)
    requires Inv(state) && state.phase.Applied?
    ensures !TargetWritable(state.phase)
    ensures
      var end := Do(state.(target := tip), Complete);
      && end.Some? && end.value.target == tip
      && end.value.request.completion == Some(Completion(state.phase.plan.result, state.phase.plan.strategy,
          state.phase.actor))
  {
  }

  /** The protocol's four steps. */
  function FourSteps(state: State, claimId: string, actor: string, commitId: nat): (steps: seq<Step>)
    requires state.source.Some? && state.target.Some?
  {
    [TakeClaim(claimId, state.source.value, actor), MakePlan(commitId),
     if Reaches(state.target.value, state.source.value) then KeepRef else SetRef, Complete]
  }

  /** An accepted request whose branches stay put is merged by the four steps of the protocol: the
      target is then the head brought into the old tip without a needless commit, and the record says
      so and by whom; nothing else of the record has changed. */
  lemma {:induction false} UndisturbedMergeSucceeds(state: State, claimId: string, actor: string, commitId: nat)
    requires Inv(state) && state.phase.Idle? && state.request.status.Open? && state.request.claim.None?
    requires state.source.Some? && state.target.Some? && Accepted(state.request, state.source.value)
    requires claimId != "" && claimId !in state.active && actor != ""
    ensures
      var end := Run(state, FourSteps(state, claimId, actor, commitId));
      && end.Some? && end.value.phase.Idle? && end.value.target.Some? && end.value.request.completion.Some?
      && var done := end.value.request.completion.value;
         && Brings(state.target.value, state.source.value, done.commit, done.strategy)
         && end.value.target == Some(done.commit) && done.actor == actor
         && end.value.request ==
            state.request.(status := Merged, head := state.source.value, completion := Some(done))
  {
    var head := state.source.value;
    var plan := PlanMerge(state.target.value, head, commitId);
    PlanMergeFits(state.target.value, head, commitId);
    var s1 := Do(state, TakeClaim(claimId, head, actor)).value;
    var s2 := Do(s1, MakePlan(commitId)).value;
    var steps := FourSteps(state, claimId, actor, commitId);
    var s3 := Do(s2, steps[2]).value;
    var s4 := Do(s3, Complete).value;
    RunFour(state, steps, s1, s2, s3, s4);
  }

  lemma {:induction false} RunFour(state: State, steps: seq<Step>, s1: State, s2: State, s3: State, s4: State)
    requires |steps| == 4
    requires Do(state, steps[0]) == Some(s1) && Do(s1, steps[1]) == Some(s2)
    requires Do(s2, steps[2]) == Some(s3) && Do(s3, steps[3]) == Some(s4)
    ensures Run(state, steps) == Some(s4)
  {
    assert Run(s4, steps[3..][1..]) == Some(s4);
    assert steps[2..][1..] == steps[3..] && Run(s3, steps[3..]) == Some(s4);
    assert steps[1..][1..] == steps[2..] && Run(s2, steps[2..]) == Some(s4);
    assert Run(s1, steps[1..]) == Some(s4);
  }
}
