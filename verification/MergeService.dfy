/** The merge request record as it is stored, with one field per JSON member, and the update
    closures and the merge operation that assign those fields step by step
    (internal/httpapi/reviews.go, internal/review/model.go). Each is proved against the
    update function or the step sequence it stands for. */
module MergeService {
  import opened Basics
  import opened Commits
  import opened MergeClaim
  import opened MergeRuns

  /** The stored record. An absent commit, strategy or name is None or the empty string. */
  datatype Record = Record(
    author: string,
    status: Status,
    baseCommit: Commit,
    headCommit: Commit,
    requiredApprovals: nat,
    approvals: seq<Approval>,
    threads: seq<Thread>,
    mergedCommit: Option<Commit>,
    mergedStrategy: Option<Strategy>,
    mergedBy: string,
    closedBy: string,
    mergeInProgress: bool,
    mergeClaimID: string,
    mergeOwnerID: string,
    mergeHeadCommit: Option<Commit>,
    mergeTargetCommit: Option<Commit>,
    mergeResultCommit: Option<Commit>,
    mergeResultStrategy: Option<Strategy>,
    mergeStartedBy: string)

  /** The field combinations the store accepts: all claim fields or none, all plan fields or
      none, and completion fields that come together. */
  predicate Consistent(r: Record)
  {
    && (r.mergeInProgress ==>
          && r.mergeClaimID != "" && r.mergeOwnerID != "" && r.mergeHeadCommit.Some? && r.mergeStartedBy != ""
          && (r.mergeTargetCommit.Some? <==> r.mergeResultCommit.Some?)
          && (r.mergeTargetCommit.Some? <==> r.mergeResultStrategy.Some?))
    && (!r.mergeInProgress ==>
          && r.mergeClaimID == "" && r.mergeOwnerID == "" && r.mergeHeadCommit.None? && r.mergeStartedBy == ""
          && r.mergeTargetCommit.None? && r.mergeResultCommit.None? && r.mergeResultStrategy.None?)
    && (r.mergedCommit.Some? <==> r.mergedStrategy.Some?)
    && (r.mergedCommit.Some? <==> r.mergedBy != "")
  }

  /** The request a consistent record stands for. */
  function View(r: Record): (request: Request)
    requires Consistent(r)
  {
    Request(r.author, r.status, r.baseCommit, r.headCommit, r.requiredApprovals, r.approvals, r.threads,
      if !r.mergeInProgress then None
      else Some(Claim(r.mergeClaimID, r.mergeOwnerID, r.mergeHeadCommit.value, r.mergeStartedBy,
             if r.mergeTargetCommit.None? then None
             else Some(Plan(r.mergeTargetCommit.value, r.mergeResultCommit.value, r.mergeResultStrategy.value)))),
      if r.mergedCommit.None? then None
      else Some(Completion(r.mergedCommit.value, r.mergedStrategy.value, r.mergedBy)),
      if r.closedBy == "" then None else Some(r.closedBy))
  }

  /** What validate accepts. */
  predicate Valid(r: Record)
  {
    Consistent(r) && ValidRequest(View(r))
  }

  /** An update of a stored record does what an update of the request it stands for does:
      it is rejected alike, and otherwise leaves a record the store accepts. */
  predicate Implements(stored: Record, updated: Option<Record>, request: Option<Request>)
    requires Valid(stored)
  {
    && (updated.Some? <==> request.Some?)
    && (updated.Some? ==> Consistent(updated.value) && View(updated.value) == request.value)
  }

  /** createMergeRequest. */
  function NewRecord(author: string, base: Commit, head: Commit): (r: Record)
    requires author != ""
    ensures Valid(r)
    ensures View(r) == Request(author, Open, base, head, 1, [], [], None, None, None)
  {
    Record(author, Open, base, head, 1, [], [], None, None, "", "", false, "", "", None, None, None, None, "")
  }

  method ClearMergeClaim(stored: Record) returns (request: Record)
    requires Consistent(stored)
    ensures Consistent(request) && View(request) == View(stored).(claim := None)
  {
    request := stored;
    request := request.(mergeInProgress := false);
    request := request.(mergeClaimID := "");
    request := request.(mergeOwnerID := "");
    request := request.(mergeHeadCommit := None);
    request := request.(mergeTargetCommit := None);
    request := request.(mergeResultCommit := None);
    request := request.(mergeResultStrategy := None);
    request := request.(mergeStartedBy := "");
  }

  /** The claiming closure of mergeStoredRequest. */
  method TakeMergeClaim(stored: Record, claimId: string, owner: string, head: Commit, startedBy: string)
    returns (updated: Option<Record>)
    requires Valid(stored) && claimId != "" && owner != "" && startedBy != ""
    ensures Implements(stored, updated, ClaimRequest(View(stored), Claim(claimId, owner, head, startedBy, None)))
  {
    if !stored.status.Open? || stored.mergeInProgress {
      return None;
    }
    var approvedBy: set<string> := {};
    for i := 0 to |stored.approvals|
      invariant approvedBy == set a | a in stored.approvals[..i] && Eligible(View(stored), a)
          && a.head == head :: a.author
    {
      var approval := stored.approvals[i];
      assert stored.approvals[..i + 1] == stored.approvals[..i] + [approval];
      if (approval.author != stored.author || approval.selfApproval) && approval.head == head {
        approvedBy := approvedBy + {approval.author};
      }
    }
    assert stored.approvals[..|stored.approvals|] == stored.approvals;
    assert approvedBy == Approvers(View(stored), head);
    if |approvedBy| < stored.requiredApprovals {
      return None;
    }
    for i := 0 to |stored.threads|
      invariant forall k :: 0 <= k < i ==> stored.threads[k].resolvedBy.Some?
    {
      if stored.threads[i].resolvedBy.None? {
        assert stored.threads[i] in View(stored).threads;
        return None;
      }
    }
    var request := stored;
    request := request.(mergeInProgress := true);
    request := request.(mergeClaimID := claimId);
    request := request.(mergeOwnerID := owner);
    request := request.(mergeHeadCommit := Some(head));
    request := request.(mergeStartedBy := startedBy);
    updated := Some(request);
  }

  /** The plan closure of mergeStoredRequest. */
  method PersistPlan(stored: Record, claimId: string, plan: Plan) returns (updated: Option<Record>)
    requires Valid(stored)
    ensures Implements(stored, updated, RecordPlan(View(stored), claimId, plan))
  {
    if !stored.status.Open? || !stored.mergeInProgress || stored.mergeClaimID != claimId {
      return None;
    }
    var request := stored;
    request := request.(mergeTargetCommit := Some(plan.previous));
    request := request.(mergeResultCommit := Some(plan.result));
    request := request.(mergeResultStrategy := Some(plan.strategy));
    updated := Some(request);
  }

  /** The completing closure of mergeStoredRequest. */
  method CompleteMerge(stored: Record, claimId: string, head: Commit, plan: Plan, actor: string)
    returns (updated: Option<Record>)
    requires Valid(stored) && actor != ""
    ensures Implements(stored, updated, Finalise(View(stored), claimId, head, plan, actor))
  {
    if !stored.status.Open? || !stored.mergeInProgress || stored.mergeClaimID != claimId ||
       stored.mergeHeadCommit != Some(head) || stored.mergeResultCommit != Some(plan.result) ||
       stored.mergeResultStrategy != Some(plan.strategy) {
      return None;
    }
    var request := stored;
    request := request.(status := Merged);
    request := request.(headCommit := head);
    request := request.(mergedCommit := Some(plan.result));
    request := request.(mergedStrategy := Some(plan.strategy));
    request := request.(mergedBy := actor);
    request := ClearMergeClaim(request);
    updated := Some(request);
  }

  /** What may go wrong while a claim is settled: the planned result cannot be read or inspected, or
      the record cannot be saved. */
  datatype Trouble = Trouble(read: bool, save: bool)

  /** reconcileMergeClaim: the verdict from the branch, then the update of the record. Without a
      verdict, or when the record cannot be saved, nothing changes. */
  method ReconcileMergeClaim(stored: Record, target: Option<Commit>, knownHelperFailure: bool, trouble: Trouble)
    returns (verdict: Verdict, saved: bool, request: Record)
    requires Valid(stored) && stored.mergeInProgress
    ensures verdict == if trouble.read && View(stored).claim.value.plan.Some? then Unreadable
                       else Judge(View(stored).claim.value, target, knownHelperFailure)
    ensures saved <==> (verdict.WasMerged? || verdict.NotMerged?) && !trouble.save
    ensures Consistent(request)
    ensures View(request) == if saved then Reconcile(View(stored), target, knownHelperFailure) else View(stored)
  {
    request, saved := stored, false;
    var merged := false;
    var canClear := stored.mergeResultCommit.None?;
    if stored.mergeResultCommit.Some? {
      if target.None? || trouble.read {
        return Unreadable, false, stored;
      }
      merged := target == stored.mergeResultCommit || Reaches(target.value, stored.mergeResultCommit.value);
      canClear := target == stored.mergeTargetCommit || knownHelperFailure;
    }
    if !merged && !canClear {
      return Ambiguous, false, stored;
    }
    verdict := if merged then WasMerged else NotMerged;
    if trouble.save {
      return;
    }
    if merged {
      request := request.(status := Merged);
      request := request.(headCommit := request.mergeHeadCommit.value);
      request := request.(mergedCommit := request.mergeResultCommit);
      request := request.(mergedStrategy := request.mergeResultStrategy);
      request := request.(mergedBy := request.mergeStartedBy);
    }
    request := ClearMergeClaim(request);
    saved := true;
  }

  /** The closure of approveMergeRequest. */
  method ApproveRequest(stored: Record, actor: string, maintainer: bool, head: Commit, target: Commit)
    returns (updated: Option<Record>)
    requires Valid(stored)
    ensures Implements(stored, updated, Approve(View(stored), actor, maintainer, head, target))
  {
    var own := actor == stored.author;
    if !stored.status.Open? || stored.mergeInProgress || actor == "" || (own && !maintainer) {
      return None;
    }
    var request := stored;
    var approvals := Recorded(stored.approvals, Approval(actor, head, own));
    request := request.(approvals := approvals);
    request := request.(baseCommit := target);
    request := request.(headCommit := head);
    updated := Some(request);
  }

  /** The closure of updateMergeRequest; `abandoned` names an undecidable claim to give up. */
  method UpdateStatus(stored: Record, to: Status, actor: string, abandoned: string) returns (updated: Option<Record>)
    requires Valid(stored) && actor != "" && !to.Merged?
    ensures stored.mergeInProgress && stored.mergeClaimID != abandoned ==> updated.None?
    ensures !(stored.mergeInProgress && stored.mergeClaimID != abandoned) ==>
      Implements(stored, updated, SetStatus(View(stored).(claim := None), to, actor))
  {
    var request := stored;
    if request.mergeInProgress {
      if request.mergeClaimID != abandoned {
        return None;
      }
      request := ClearMergeClaim(request);
    }
    if request.status.Merged? {
      return None;
    }
    request := request.(status := to);
    request := request.(closedBy := if to.Closed? then actor else "");
    updated := Some(request);
  }

  /** The closure of createReviewThread. */
  method CreateThread(stored: Record, actor: string) returns (updated: Option<Record>)
    requires Valid(stored) && actor != ""
    ensures Implements(stored, updated, StartThread(View(stored), actor))
  {
    if stored.mergeInProgress || !stored.status.Open? {
      return None;
    }
    var nextId := NextFree(ThreadIds(stored.threads));
    updated := Some(stored.(threads := stored.threads + [Thread(nextId, [Comment(1, actor)], None)]));
  }

  /** The closure of addReviewComment. */
  method AddReviewComment(stored: Record, thread: nat, actor: string) returns (updated: Option<Record>)
    requires Valid(stored) && actor != ""
    ensures Implements(stored, updated, AddComment(View(stored), thread, actor))
  {
    if stored.mergeInProgress || !stored.status.Open? {
      return None;
    }
    for i := 0 to |stored.threads|
      invariant forall k :: 0 <= k < i ==> stored.threads[k].id != thread
    {
      if stored.threads[i].id == thread {
        var found := stored.threads[i];
        var nextId := NextFree(CommentIds(found.comments));
        OneThread(stored.threads, i, thread);
        return Some(stored.(threads := stored.threads[i := found.(comments := found.comments
            + [Comment(nextId, actor)])]));
      }
    }
    updated := None;
  }

  /** The closure of updateReviewThread. */
  method UpdateReviewThread(stored: Record, thread: nat, actor: string, developer: bool, resolved: bool)
    returns (updated: Option<Record>)
    requires Valid(stored) && actor != ""
    ensures Implements(stored, updated, SetResolved(View(stored), thread, actor, developer, resolved))
  {
    if stored.mergeInProgress || !stored.status.Open? {
      return None;
    }
    for i := 0 to |stored.threads|
      invariant forall k :: 0 <= k < i ==> stored.threads[k].id != thread
    {
      if stored.threads[i].id == thread {
        var found := stored.threads[i];
        OneThread(stored.threads, i, thread);
        var threadAuthor := "";
        if |found.comments| > 0 {
          threadAuthor := found.comments[0].author;
        }
        if actor != threadAuthor && actor != stored.author && !developer {
          return None;
        }
        found := found.(resolvedBy := if resolved then Some(actor) else None);
        return Some(stored.(threads := stored.threads[i := found]));
      }
    }
    updated := None;
  }

  lemma {:induction false} OneThread(threads: seq<Thread>, i: nat, id: nat)
    requires ValidThreads(threads) && i < |threads| && threads[i].id == id
    ensures FindThread(threads, id) == i
  {
  }

  /** The numbering loops: one more than the largest number in use, at least one. */
  method NextFree(ids: seq<nat>) returns (next: nat)
    ensures next == NextId(ids)
  {
    next := 1;
    for i := 0 to |ids|
      invariant next > 0
      invariant forall k :: 0 <= k < i ==> ids[k] < next
      invariant next == 1 || exists k :: 0 <= k < i && ids[k] + 1 == next
    {
      if ids[i] >= next {
        next := ids[i] + 1;
      }
    }
    NextIdUnique(ids, next);
  }

  /** The loop of approveMergeRequest: replace the author's approval in place, or append. */
  method Recorded(approvals: seq<Approval>, approval: Approval) returns (updated: seq<Approval>)
    ensures updated == PutApproval(approvals, approval)
  {
    updated := approvals;
    for i := 0 to |approvals|
      invariant updated == approvals
      invariant PutApproval(approvals, approval) == approvals[..i] + PutApproval(approvals[i..], approval)
    {
      PutStep(approvals, i, approval);
      if approvals[i].author == approval.author {
        updated := updated[i := approval];
        return;
      }
    }
    updated := updated + [approval];
  }

  lemma {:induction false} PutStep(approvals: seq<Approval>, i: nat, approval: Approval)
    requires i < |approvals|
    ensures
      var whole := approvals[..i] + PutApproval(approvals[i..], approval);
      whole == if approvals[i].author == approval.author then approvals[i := approval]
               else approvals[..i + 1] + PutApproval(approvals[i + 1..], approval)
  {
    assert approvals[i..][1..] == approvals[i + 1..];
  }

  /** The next number is the least one above every number in use. */
  lemma {:induction false} NextIdUnique(ids: seq<nat>, next: nat)
    requires next > 0 && forall i :: 0 <= i < |ids| ==> ids[i] < next
    requires next == 1 || exists i :: 0 <= i < |ids| && ids[i] + 1 == next
    ensures NextId(ids) == next
  {
    NextIdLeast(ids);
    var id := NextId(ids);
    if next != 1 {
      var i :| 0 <= i < |ids| && ids[i] + 1 == next;
      assert ids[i] in ids;
    }
    if id != 1 {
      var i :| 0 <= i < |ids| && ids[i] + 1 == id;
    }
  }

  lemma {:induction false} NextIdLeast(ids: seq<nat>)
    ensures NextId(ids) == 1 || exists i :: 0 <= i < |ids| && ids[i] + 1 == NextId(ids)
  {
    if ids != [] {
      NextIdLeast(ids[1..]);
      var rest := NextId(ids[1..]);
      if ids[0] < rest && rest != 1 {
        var i :| 0 <= i < |ids[1..]| && ids[1..][i] + 1 == rest;
        assert ids[i + 1] + 1 == NextId(ids);
      } else if ids[0] >= rest {
        assert ids[0] + 1 == NextId(ids);
      }
    }
  }

  /** What may go wrong on the way: settling an earlier claim; saving the claim; the merge helper, up
      to and including the saving of the plan; another writer of the target between plan and
      compare-and-set, which the compare-and-set then rejects; an I/O error from the compare-and-set
      that leaves open whether it took effect; the final save; settling the failure. */
  datatype Faults = Faults(recover: Trouble, claim: bool, helper: bool, writer: Option<Option<Commit>>,
                           reference: Option<bool>, save: bool, settle: Trouble)

  const NoFaults := Faults(Trouble(false, false), false, false, None, None, false, Trouble(false, false))

  datatype Outcome = Rejected | Undecided | NotApplied | SavedMerged | MergedUnsaved

  /** An open, accepted request whose two branches are where they were reviewed. */
  predicate Mergeable(state: State, head: Commit)
  {
    && state.request.status.Open? && state.request.claim.None? && Accepted(state.request, head)
    && state.source == Some(head) && state.target.Some?
  }

  lemma {:induction false} RunSnoc(start: State, steps: seq<Step>, state: State, step: Step)
    requires Run(start, steps) == Some(state)
    ensures Run(start, steps + [step]) == Do(state, step)
    decreases |steps|
  {
    if steps == [] {
      assert Run(start, [step]) == if Do(start, step).None? then None else Run(Do(start, step).value, []);
    } else {
      assert (steps + [step])[0] == steps[0] && (steps + [step])[1..] == steps[1..] + [step];
      RunSnoc(Do(start, steps[0]).value, steps[1..], state, step);
    }
  }

  /** A run recorded with the invariant of its last state. */
  ghost predicate Traced(start: State, steps: seq<Step>, state: State)
  {
    Run(start, steps) == Some(state) && Inv(state)
  }

  lemma {:induction false} TraceStep(start: State, steps: seq<Step>, state: State, step: Step)
    requires Traced(start, steps, state) && Do(state, step).Some?
    ensures Traced(start, steps + [step], Do(state, step).value)
  {
    RunSnoc(start, steps, state, step);
    StepKeepsInv(state, step);
  }

  class Server {
    var target: Option<Commit>
    var source: Option<Commit>
    var record: Record
    var active: set<string>
    const process: string

    constructor (record: Record, target: Option<Commit>, source: Option<Commit>, process: string)
      ensures this.record == record && this.target == target && this.source == source
      ensures this.process == process && active == {}
    {
      this.record, this.target, this.source, this.process, this.active := record, target, source, process, {};
    }

    ghost function Now(phase: Phase, refSet: bool, disturbed: bool): (state: State)
      reads this
      requires Consistent(record)
    {
      State(target, source, View(record), active, process, phase, refSet, disturbed)
    }

    /** The first half of mergeStoredRequest: settle an earlier claim, check, and claim. */
    method ClaimForMerge(head: Commit, actor: string, claimId: string, mergeable: bool, faults: Faults,
                         ghost begun: State)
      returns (stopped: Option<Outcome>, ghost steps: seq<Step>, ghost now: State)
      requires Consistent(record) && begun == Now(Idle, begun.refSet, begun.disturbed) && Inv(begun)
      requires claimId != "" && claimId !in active && actor != ""
      modifies this`record, this`active
      ensures Consistent(record) && Traced(begun, steps, now)
      ensures stopped.Some? ==> now == Now(Idle, now.refSet, now.disturbed)
      ensures stopped.Some? ==> stopped == Some(Rejected) || stopped == Some(Undecided)
      ensures stopped.None? ==>
          now == Now(Claimed(claimId, head, actor), false, false) && source == Some(head) && target.Some?
      ensures Mergeable(begun, head) && mergeable && !faults.claim ==> stopped.None?
    {
      steps, now := [], begun;
      if record.mergeInProgress {
        var verdict, saved;
        verdict, saved, record := ReconcileMergeClaim(record, target, false, faults.recover);
        if !saved {
          return Some(Undecided), steps, now;
        }
        TraceStep(begun, steps, now, Recover);
        steps, now := steps + [Recover], Do(now, Recover).value;
      }
      if !record.status.Open? || source != Some(head) || target.None? || !mergeable {
        return Some(Rejected), steps, now;
      }
      var claimed := TakeMergeClaim(record, claimId, process, head, actor);
      if claimed.None? || faults.claim {
        return Some(Rejected), steps, now;
      }
      active, record := active + {claimId}, claimed.value;
      var step := TakeClaim(claimId, head, actor);
      TraceStep(begun, steps, now, step);
      stopped, steps, now := None, steps + [step], Do(now, step).value;
    }

    /** mergeStoredRequest, without a crash: whatever goes wrong on the way, what it does to
        the record, the branch and the active claims is a run of the protocol that starts
        and ends with no merge under way. */
    method MergeStoredRequest(head: Commit, actor: string, claimId: string, commitId: nat, mergeable: bool,
                              faults: Faults,
                              ghost begun: State)
      returns (outcome: Outcome, ghost steps: seq<Step>, ghost ended: State)
      requires Consistent(record) && begun == Now(Idle, begun.refSet, begun.disturbed) && Inv(begun)
      requires claimId != "" && claimId !in active && actor != ""
      modifies this
      ensures Consistent(record) && ended == Now(Idle, ended.refSet, ended.disturbed)
      ensures Traced(begun, steps, ended)
      ensures source == old(source)
      ensures outcome.SavedMerged? ==> record.status.Merged?
      ensures outcome.Rejected? ==> target == old(target)
      ensures outcome.MergedUnsaved? ==> record.mergeInProgress && target == record.mergeResultCommit
      ensures Mergeable(begun, head) && mergeable && faults == NoFaults ==>
        && outcome.SavedMerged? && target.Some? && record.mergedStrategy.Some? && record.mergedBy == actor
        && record.mergedCommit == target && record.headCommit == head
        && Brings(begun.target.value, head, target.value, record.mergedStrategy.value)
    {
      var stopped;
      stopped, steps, ended := ClaimForMerge(head, actor, claimId, mergeable, faults, begun);
      if stopped.Some? {
        return stopped.value, steps, ended;
      }
      if faults.helper {
        TraceStep(begun, steps, ended, HelperFails);
        steps, ended := steps + [HelperFails], Do(ended, HelperFails).value;
        outcome, steps, ended := SettleFailure(claimId, false, faults.settle, begun, steps, ended);
        return;
      }
      var plan := PlanMerge(target.value, head, commitId);
      PlanMergeFits(target.value, head, commitId);
      var planned := PersistPlan(record, claimId, plan);
      record := planned.value;
      TraceStep(begun, steps, ended, MakePlan(commitId));
      steps, ended := steps + [MakePlan(commitId)], Do(ended, MakePlan(commitId)).value;
      outcome, steps, ended := ApplyPlan(claimId, head, actor, plan, faults, begun, steps, ended);
    }

    /** The failure path of mergeStoredRequest. If the record cannot be read or saved, the claim stays
        on record for a later recovery. */
    method SettleFailure(claimId: string, knownNotApplied: bool, trouble: Trouble,
                         ghost begun: State, ghost before: seq<Step>, ghost now: State)
      returns (outcome: Outcome, ghost steps: seq<Step>, ghost ended: State)
      requires Consistent(record) && now == Now(Failed(claimId, knownNotApplied), now.refSet, now.disturbed)
      requires Traced(begun, before, now)
      modifies this
      ensures Consistent(record) && ended == Now(Idle, ended.refSet, ended.disturbed)
      ensures Traced(begun, steps, ended)
      ensures source == old(source) && target == old(target)
      ensures outcome == NotApplied || outcome == Undecided || outcome == SavedMerged
      ensures outcome.SavedMerged? ==> record.status.Merged?
      ensures outcome.Undecided? ==> View(record) == old(View(record))
    {
      active := active - {claimId};
      var verdict, saved;
      verdict, saved, record := ReconcileMergeClaim(record, target, knownNotApplied, trouble);
      ghost var step := if saved then Settle else SettleFails;
      TraceStep(begun, before, now, step);
      steps, ended := before + [step], Do(now, step).value;
      outcome := if !saved then Undecided else if verdict.WasMerged? then SavedMerged else NotApplied;
    }

    /** The compare-and-set of the target reference: it moves the branch, finds it moved by another
        writer, or fails without telling whether it took effect. */
    method CompareAndSet(claimId: string, head: Commit, actor: string, plan: Plan, faults: Faults,
                         ghost begun: State, ghost before: seq<Step>, ghost now: State)
      returns (applied: bool, knownNotApplied: bool, ghost steps: seq<Step>, ghost ended: State)
      requires Consistent(record) && now == Now(Planned(claimId, head, actor, plan), false, false)
      requires Traced(begun, before, now) && !plan.strategy.AlreadyUpToDate?
      modifies this`target
      ensures Traced(begun, steps, ended)
      ensures applied ==>
        && target == Some(plan.result)
        && ended == Now(Applied(claimId, head, actor, plan), ended.refSet, ended.disturbed)
      ensures !applied ==> ended == Now(Failed(claimId, knownNotApplied), ended.refSet, ended.disturbed)
      ensures knownNotApplied ==> faults.writer == Some(target) && target != Some(plan.previous)
      ensures applied <==> faults.reference.None? && (faults.writer.None? || faults.writer.value == Some(plan.previous))
    {
      steps, ended := before, now;
      if faults.writer.Some? {
        target := faults.writer.value;
        TraceStep(begun, steps, ended, WriteTarget(target));
        steps, ended := steps + [WriteTarget(target)], Do(ended, WriteTarget(target)).value;
      }
      var matches := target == Some(plan.previous);
      ghost var step := if faults.reference.Some? then SetRefLost(faults.reference.value && matches)
                        else if matches then SetRef else SetRefRejected;
      applied, knownNotApplied := faults.reference.None? && matches, faults.reference.None? && !matches;
      TraceStep(begun, steps, ended, step);
      steps, ended := steps + [step], Do(ended, step).value;
      if matches && (faults.reference.None? || faults.reference.value) {
        target := Some(plan.result);
      }
    }

    /** The completing save. */
    method CompleteApplied(claimId: string, head: Commit, actor: string, plan: Plan, fails: bool,
                           ghost begun: State, ghost before: seq<Step>, ghost now: State)
      returns (outcome: Outcome, ghost steps: seq<Step>, ghost ended: State)
      requires Consistent(record) && now == Now(Applied(claimId, head, actor, plan), now.refSet, now.disturbed)
      requires Traced(begun, before, now) && actor != ""
      modifies this`active, this`record
      ensures Consistent(record) && ended == Now(Idle, ended.refSet, ended.disturbed)
      ensures Traced(begun, steps, ended)
      ensures outcome == if fails then MergedUnsaved else SavedMerged
      ensures !fails ==> record.status.Merged? && record.mergedCommit == Some(plan.result) && record.headCommit == head
      ensures !fails ==> record.mergedStrategy == Some(plan.strategy) && record.mergedBy == actor
      ensures fails ==> record == old(record)
    {
      active := active - {claimId};
      if fails {
        TraceStep(begun, before, now, CompleteFails);
        return MergedUnsaved, before + [CompleteFails], Do(now, CompleteFails).value;
      }
      var completed := CompleteMerge(record, claimId, head, plan, actor);
      record := completed.value;
      TraceStep(begun, before, now, Complete);
      steps, ended := before + [Complete], Do(now, Complete).value;
      outcome := SavedMerged;
    }

    /** From the persisted plan to the end of mergeStoredRequest. */
    method ApplyPlan(claimId: string, head: Commit, actor: string, plan: Plan, faults: Faults,
                     ghost begun: State, ghost before: seq<Step>, ghost now: State)
      returns (outcome: Outcome, ghost steps: seq<Step>, ghost ended: State)
      requires Consistent(record) && now == Now(Planned(claimId, head, actor, plan), false, false)
      requires Traced(begun, before, now) && actor != ""
      modifies this
      ensures Consistent(record) && ended == Now(Idle, ended.refSet, ended.disturbed)
      ensures Traced(begun, steps, ended)
      ensures source == old(source)
      ensures !outcome.Rejected?
      ensures outcome.SavedMerged? ==> record.status.Merged?
      ensures outcome.MergedUnsaved? ==> record.mergeInProgress && target == record.mergeResultCommit
      ensures faults == NoFaults ==> outcome.SavedMerged? && target == Some(plan.result) && record.headCommit == head
      ensures faults == NoFaults ==>
        record.mergedCommit == target && record.mergedStrategy == Some(plan.strategy) && record.mergedBy == actor
    {
      steps, ended := before, now;
      if plan.strategy.AlreadyUpToDate? {
        TraceStep(begun, steps, ended, KeepRef);
        steps, ended := steps + [KeepRef], Do(ended, KeepRef).value;
      } else {
        var applied, known;
        applied, known, steps, ended := CompareAndSet(claimId, head, actor, plan, faults, begun, steps, ended);
        if !applied {
          outcome, steps, ended := SettleFailure(claimId, known, faults.settle, begun, steps, ended);
          return;
        }
      }
      AppliedRecord(ended, claimId, head, actor, plan);
      outcome, steps, ended := CompleteApplied(claimId, head, actor, plan, faults.save, begun, steps, ended);
    }
  }

  /** Once the reference is set, the record holds the claim and its plan, and the branch the result. */
  lemma {:induction false} AppliedRecord(state: State, claimId: string, head: Commit, actor: string, plan: Plan)
    requires Inv(state) && state.phase == Applied(claimId, head, actor, plan)
    ensures state.request.claim.Some? && state.request.claim.value.plan == Some(plan)
    ensures state.target == Some(plan.result)
  {
  }
}
