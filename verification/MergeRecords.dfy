/** What the steps of the merge protocol leave on record (internal/httpapi/reviews.go): merging, by
    whichever path, the giving up of a claim, and the review updates. */
module MergeRecords {
  import opened Basics
  import opened Commits
  import opened MergeClaim
  import opened MergeRuns

  // ---------------------------------------------------------------------------
  // The record of a merge

  /** Recovery records what an uninterrupted merge would have: a crash after the reference was set, or
      kept, changes nothing about the record in the end. */
  lemma {:induction false} RecoveryCompletes(start: State, steps: seq<Step>, state: State, process: string)
    requires Reachable(start, steps, state) && state.phase.Applied? && process != ""
    ensures
      var recovered, completed := Run(state, [Crash(process), Recover]), Do(state, Complete);
      recovered.Some? && completed.Some? && recovered.value.request == completed.value.request
  {
    ReachableInv(start, steps, state);
    var crashed := Do(state, Crash(process)).value;
    assert Reaches(state.target.value, state.phase.plan.result);
    assert Do(crashed, Recover).Some?;
    assert [Crash(process), Recover][1..] == [Recover];
    assert Run(crashed, [Recover]) == Run(Do(crashed, Recover).value, []);
  }

  /** Whichever step makes a request merged, the commit, the strategy, the person and the head on
      record are those of the claim and its plan, and the rest of the record stays. */
  lemma {:induction false} MergedAsPlanned(start: State, steps: seq<Step>, state: State, step: Step)
    requires Reachable(start, steps, state) && Do(state, step).Some?
    requires !state.request.status.Merged? && Do(state, step).value.request.status.Merged?
    ensures state.request.claim.Some? && state.request.claim.value.plan.Some?
    ensures
      var next, claim, plan := Do(state, step).value.request, state.request.claim.value,
          state.request.claim.value.plan.value;
      && next.completion.Some? && next.claim.None? && next.head == claim.head
      && next.completion.value.commit == plan.result && next.completion.value.strategy == plan.strategy
      && next.completion.value.actor == claim.startedBy
      && next.(status := Open, head := state.request.head, claim := state.request.claim, completion := None)
          == state.request
  {
    ReachableInv(start, steps, state);
  }

  /** A claim that is dropped back to plain open leaves no trace. */
  lemma {:induction false} DroppedWithoutTrace(start: State, steps: seq<Step>, state: State, step: Step)
    requires Reachable(start, steps, state) && Do(state, step).Some? && state.request.claim.Some?
    requires Do(state, step).value.request.claim.None? && Do(state, step).value.request.status.Open?
    ensures Do(state, step).value.request.(claim := state.request.claim) == state.request
  {
    ReachableInv(start, steps, state);
  }

  /** A claim on record was taken by a step of the run, and so was the one a merged record names. */
  ghost predicate Origin(done: seq<Step>, state: State)
  {
    && (state.request.claim.Some? ==>
          exists i :: 0 <= i < |done| && TakenBy(done[i], state.request.claim.value.head,
              state.request.claim.value.startedBy))
    && (state.request.status.Merged? && state.request.completion.Some? ==>
          exists i :: 0 <= i < |done| && TakenBy(done[i], state.request.head, state.request.completion.value.actor))
  }

  predicate TakenBy(step: Step, head: Commit, actor: string)
  {
    step.TakeClaim? && step.head == head && step.actor == actor
  }

  lemma {:induction false} TakenLater(done: seq<Step>, step: Step, head: Commit, actor: string)
    requires exists i :: 0 <= i < |done| && TakenBy(done[i], head, actor)
    ensures exists i :: 0 <= i < |done + [step]| && TakenBy((done + [step])[i], head, actor)
  {
    var i :| 0 <= i < |done| && TakenBy(done[i], head, actor);
    assert (done + [step])[i] == done[i];
  }

  /** How a step can change who a record names. */
  predicate NamesFrom(request: Request, step: Step, next: Request)
  {
    && (next.claim.Some? ==>
          || TakenBy(step, next.claim.value.head, next.claim.value.startedBy)
          || (request.claim.Some? && next.claim.value.head == request.claim.value.head
              && next.claim.value.startedBy == request.claim.value.startedBy))
    && (next.status.Merged? && next.completion.Some? ==>
          || next == request
          || (request.claim.Some? && next.head == request.claim.value.head
              && next.completion.value.actor == request.claim.value.startedBy))
  }

  lemma {:induction false} ReviewNames(state: State, step: Step)
    requires Inv(state) && Do(state, step).Some? && IsReview(step)
    ensures NamesFrom(state.request, step, Do(state, step).value.request)
  {
  }

  lemma {:induction false} MergeNames(state: State, step: Step)
    requires Inv(state) && Do(state, step).Some? && !IsReview(step)
    ensures NamesFrom(state.request, step, Do(state, step).value.request)
  {
  }

  lemma {:induction false} StepKeepsOrigin(done: seq<Step>, state: State, step: Step)
    requires Inv(state) && Origin(done, state) && Do(state, step).Some?
    ensures Origin(done + [step], Do(state, step).value)
  {
    var request, next := state.request, Do(state, step).value.request;
    if IsReview(step) {
      ReviewNames(state, step);
    } else {
      MergeNames(state, step);
    }
    assert (done + [step])[|done|] == step;
    if request.claim.Some? {
      TakenLater(done, step, request.claim.value.head, request.claim.value.startedBy);
    }
    if request.status.Merged? && request.completion.Some? {
      TakenLater(done, step, request.head, request.completion.value.actor);
    }
  }

  lemma {:induction false} RunKeepsOrigin(done: seq<Step>, state: State, steps: seq<Step>)
    requires Inv(state) && Origin(done, state) && Run(state, steps).Some?
    ensures Origin(done + steps, Run(state, steps).value)
    decreases |steps|
  {
    if steps == [] {
      assert done + steps == done;
    } else {
      StepKeepsInv(state, steps[0]);
      StepKeepsOrigin(done, state, steps[0]);
      RunKeepsOrigin(done + [steps[0]], Do(state, steps[0]).value, steps[1..]);
      assert done + [steps[0]] + steps[1..] == done + steps;
    }
  }

  /** Every merged record names the head and the person of a claim that was taken on the way. */
  lemma {:induction false} MergedByClaimant(start: State, steps: seq<Step>, state: State)
    requires Reachable(start, steps, state) && state.request.status.Merged?
    ensures state.request.completion.Some?
    ensures exists i :: 0 <= i < |steps| && TakenBy(steps[i], state.request.head, state.request.completion.value.actor)
  {
    ReachableInv(start, steps, state);
    RunKeepsOrigin([], start, steps);
    assert [] + steps == steps;
  }

  // ---------------------------------------------------------------------------
  // Taking a claim

  /** A request can be claimed for a head exactly if it is open, unclaimed, approved for that head by
      enough people and free of open discussions; the claim is all that changes. */
  lemma {:induction false} ClaimExactly(request: Request, claim: Claim)
    ensures ClaimRequest(request, claim).Some? <==>
      && request.status.Open? && request.claim.None?
      && |Approvers(request, claim.head)| >= request.required
      && forall thread :: thread in request.threads ==> thread.resolvedBy.Some?
    ensures ClaimRequest(request, claim).Some? ==>
      var claimed := ClaimRequest(request, claim).value;
      claimed.claim == Some(claim) && claimed.(claim := None) == request
  {
  }

  // ---------------------------------------------------------------------------
  // Approvals

  /** An approval is possible exactly on an open, unclaimed request, of one's own only as a
      maintainer. It is for the head that was reviewed: the actor joins the approvers of that head and
      leaves those of every other commit, where nobody else's standing changes. */
  lemma {:induction false} ApprovalCounts(request: Request, actor: string, maintainer: bool, head: Commit,
                                          target: Commit, other: Commit)
    requires ValidRequest(request)
    ensures Approve(request, actor, maintainer, head, target).Some? <==>
      request.status.Open? && request.claim.None? && actor != "" && (actor == request.author ==> maintainer)
    ensures Approve(request, actor, maintainer, head, target).Some? ==>
      var after := Approve(request, actor, maintainer, head, target).value;
      && Approvers(after, head) == Approvers(request, head) + {actor}
      && (other != head ==> Approvers(after, other) == Approvers(request, other) - {actor})
      && after.head == head && after.base == target
      && after.(approvals := request.approvals, head := request.head, base := request.base) == request
  {
    if Approve(request, actor, maintainer, head, target).Some? {
      var approval := Approval(actor, head, actor == request.author);
      PutApprovalKeeps(request.author, request.approvals, approval);
      var after := Approve(request, actor, maintainer, head, target).value;
      forall commit, author ensures author in Approvers(after, commit) <==>
        if author == actor then commit == head else author in Approvers(request, commit) {
        ApproverAfter(request, after, approval, commit, author);
      }
    }
  }

  lemma {:induction false} ApproverAfter(request: Request, after: Request, approval: Approval, commit: Commit,
                                         author: string)
    requires after.author == request.author
    requires forall a :: a in after.approvals <==>
        a == approval || (a in request.approvals && a.author != approval.author)
    requires approval.selfApproval <==> approval.author == request.author
    ensures author in Approvers(after, commit) <==>
              if author == approval.author then commit == approval.head else author in Approvers(request, commit)
  {
    if author == approval.author {
      if commit == approval.head {
        assert approval in after.approvals && Eligible(after, approval);
      }
    } else {
      if author in Approvers(request, commit) {
        var a :| a in request.approvals && Eligible(request, a) && a.head == commit && a.author == author;
        assert a in after.approvals && Eligible(after, a);
      }
      if author in Approvers(after, commit) {
        var a :| a in after.approvals && Eligible(after, a) && a.head == commit && a.author == author;
        assert a in request.approvals && Eligible(request, a);
      }
    }
  }

  // ---------------------------------------------------------------------------
  // Discussions

  /** A new thread is open, comes last, has a number of its own and one comment by its author; with it
      the request cannot be claimed by anyone. */
  lemma {:induction false} NewThreadBlocks(request: Request, actor: string, claim: Claim)
    ensures StartThread(request, actor).Some? <==> request.status.Open? && request.claim.None? && actor != ""
    ensures StartThread(request, actor).Some? ==>
      var after := StartThread(request, actor).value;
      var n := |request.threads|;
      && |after.threads| == n + 1 && after.threads[..n] == request.threads
      && after.threads[n].resolvedBy.None? && after.threads[n].comments == [Comment(1, actor)]
      && (forall i :: 0 <= i < n ==> after.threads[i].id < after.threads[n].id)
      && after.(threads := request.threads) == request
      && !Resolved(after) && ClaimRequest(after, claim).None?
  {
    if StartThread(request, actor).Some? {
      var after := StartThread(request, actor).value;
      var n := |request.threads|;
      assert after.threads[n] in after.threads;
      forall i | 0 <= i < n ensures after.threads[i].id < after.threads[n].id {
        assert ThreadIds(request.threads)[i] in ThreadIds(request.threads);
      }
    }
  }

  /** The place of a thread number. */
  ghost predicate IsThread(request: Request, number: nat, k: nat)
  {
    k < |request.threads| && request.threads[k].id == number
  }

  lemma {:induction false} FindsThread(request: Request, number: nat, k: nat)
    requires ValidThreads(request.threads) && IsThread(request, number, k)
    ensures FindThread(request.threads, number) == k
  {
    var found := FindThread(request.threads, number);
    assert found >= 0;
  }

  /** Those who may resolve or reopen a thread: who began it, the author of the request, developers. */
  predicate MayResolve(request: Request, thread: Thread, actor: string, developer: bool)
  {
    || developer || actor == request.author
    || (thread.comments != [] && actor == thread.comments[0].author)
  }

  /** Resolving and reopening is for those who may; it touches the one thread and no other. A request
      with a reopened thread cannot be claimed, and resolving the last open one makes all resolved. */
  lemma {:induction false} ResolvingThread(request: Request, number: nat, k: nat, actor: string, developer: bool,
                                           resolved: bool, claim: Claim)
    requires ValidRequest(request) && IsThread(request, number, k)
    ensures SetResolved(request, number, actor, developer, resolved).Some? <==>
      && request.status.Open? && request.claim.None? && actor != ""
      && MayResolve(request, request.threads[k], actor, developer)
    ensures SetResolved(request, number, actor, developer, resolved).Some? ==>
      var after := SetResolved(request, number, actor, developer, resolved).value;
      && |after.threads| == |request.threads| && after.(threads := request.threads) == request
      && (forall i :: 0 <= i < |request.threads| && i != k ==> after.threads[i] == request.threads[i])
      && after.threads[k].id == number && after.threads[k].comments == request.threads[k].comments
      && (resolved ==> after.threads[k].resolvedBy == Some(actor))
      && (!resolved ==> !Resolved(after) && ClaimRequest(after, claim).None?)
      && (resolved ==> (Resolved(after) <==>
            forall i :: 0 <= i < |request.threads| && i != k ==> request.threads[i].resolvedBy.Some?))
  {
    FindsThread(request, number, k);
    if SetResolved(request, number, actor, developer, resolved).Some? {
      var after := SetResolved(request, number, actor, developer, resolved).value;
      assert after.threads[k] in after.threads;
      assert forall i :: 0 <= i < |after.threads| ==> after.threads[i] in after.threads;
    }
  }

  /** A comment goes to the end of its thread with a number of its own; nothing else changes. */
  lemma {:induction false} CommentOnThread(request: Request, number: nat, k: nat, actor: string)
    requires ValidRequest(request) && IsThread(request, number, k)
    ensures AddComment(request, number, actor).Some? <==> request.status.Open? && request.claim.None? && actor != ""
    ensures AddComment(request, number, actor).Some? ==>
      var after, before := AddComment(request, number, actor).value, request.threads[k].comments;
      && |after.threads| == |request.threads| && after.(threads := request.threads) == request
      && (forall i :: 0 <= i < |request.threads| && i != k ==> after.threads[i] == request.threads[i])
      && after.threads[k].(comments := before) == request.threads[k]
      && |after.threads[k].comments| == |before| + 1 && after.threads[k].comments[..|before|] == before
      && after.threads[k].comments[|before|].author == actor
      && forall i :: 0 <= i < |before| ==> before[i].id < after.threads[k].comments[|before|].id
  {
    FindsThread(request, number, k);
    var before := request.threads[k].comments;
    forall i | 0 <= i < |before| ensures before[i].id < NextId(CommentIds(before)) {
      assert CommentIds(before)[i] in CommentIds(before);
    }
  }

  // ---------------------------------------------------------------------------
  // Closing and reopening

  /** Closing names who closed and keeps the rest; a closed request cannot be claimed, and reopening
      brings back exactly what was closed. */
  lemma {:induction false} CloseAndReopen(request: Request, actor: string, other: string, claim: Claim)
    requires ValidRequest(request) && request.status.Open? && request.claim.None? && actor != "" && other != ""
    ensures
      var closed := SetStatus(request, Closed, actor);
      && closed.Some? && closed.value.status.Closed? && closed.value.closedBy == Some(actor)
      && closed.value.(status := Open, closedBy := None) == request
      && ClaimRequest(closed.value, claim).None?
      && SetStatus(closed.value, Open, other) == Some(request)
  {
  }

  /** Nobody sets merged by hand, changes a merged request, or closes one that is being merged. */
  lemma {:induction false} StatusGuarded(request: Request, status: Status, actor: string)
    requires status.Merged? || request.status.Merged? || request.claim.Some?
    ensures SetStatus(request, status, actor).None?
  {
  }

  /** Giving up an undecidable claim closes the request, unmerged. */
  lemma {:induction false} AbandonCloses(request: Request, actor: string)
    requires ValidRequest(request) && request.claim.Some? && actor != ""
    ensures
      var closed := Abandon(request, actor);
      && closed.Some? && closed.value.status.Closed? && closed.value.closedBy == Some(actor) && closed.value.claim.None?
      && closed.value.(status := Open, closedBy := None, claim := request.claim) == request
  {
  }
}
