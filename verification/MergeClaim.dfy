/** Merging a stored merge request: claim the record, persist the plan, move the target
    branch by compare-and-set, finalise the record; and deciding after a crash whether the
    merge happened (internal/httpapi/reviews.go over internal/httpapi/merge.go).

    The state is one request, the two branch tips, the in-memory set of active claims and
    the place the merging thread has reached. Other requests merging into the same branch
    are writes to the target by others. */
module MergeClaim {
  import opened Basics
  import opened Commits

  datatype Status = Open | Closed | Merged
  datatype Strategy = AlreadyUpToDate | FastForward | MergeCommit

  datatype Approval = Approval(author: string, head: Commit, selfApproval: bool)
  datatype Comment = Comment(id: nat, author: string)
  datatype Thread = Thread(id: nat, comments: seq<Comment>, resolvedBy: Option<string>)

  /** What is about to happen to the target: its tip before, the tip after, and how. */
  datatype Plan = Plan(previous: Commit, result: Commit, strategy: Strategy)

  datatype Claim = Claim(id: string, owner: string, head: Commit, startedBy: string, plan: Option<Plan>)

  datatype Completion = Completion(commit: Commit, strategy: Strategy, actor: string)

  datatype Request = Request(
    author: string,
    status: Status,
    base: Commit,
    head: Commit,
    required: nat,
    approvals: seq<Approval>,
    threads: seq<Thread>,
    claim: Option<Claim>,
    completion: Option<Completion>,
    closedBy: Option<string>)

  // ---------------------------------------------------------------------------
  // What the record store accepts (validate in internal/review/store.go)

  predicate Eligible(request: Request, approval: Approval)
  {
    approval.author != request.author || approval.selfApproval
  }

  predicate ValidRequest(request: Request)
  {
    && request.author != ""
    && 1 <= request.required
    && ValidApprovals(request.author, request.approvals)
    && ValidThreads(request.threads)
    && (request.status.Open? ==> request.completion.None? && request.closedBy.None?)
    && (request.status.Closed? ==> request.completion.None? && request.closedBy.Some? && request.closedBy.value != "")
    && (request.status.Merged? ==>
        request.completion.Some? && request.completion.value.actor != "" && request.closedBy.None?)
    && (request.claim.Some? ==> request.status.Open? && ValidClaim(request.claim.value))
  }

  /** One approval a person, and only the author's own is marked as such. */
  predicate ValidApprovals(author: string, approvals: seq<Approval>)
  {
    && (forall a :: a in approvals ==> a.author != "" && (a.selfApproval <==> a.author == author))
    && (forall i, j :: 0 <= i < j < |approvals| ==> approvals[i].author != approvals[j].author)
  }

  predicate ValidThreads(threads: seq<Thread>)
  {
    && (forall i :: 0 <= i < |threads| ==> ValidThread(threads[i]))
    && (forall i, j :: 0 <= i < j < |threads| ==> threads[i].id != threads[j].id)
  }

  predicate ValidThread(thread: Thread)
  {
    && thread.id > 0
    && thread.resolvedBy != Some("")
    && (forall i :: 0 <= i < |thread.comments| ==> thread.comments[i].id > 0 && thread.comments[i].author != "")
    && (forall i, j :: 0 <= i < j < |thread.comments| ==> thread.comments[i].id != thread.comments[j].id)
  }

  predicate ValidClaim(claim: Claim)
  {
    claim.id != "" && claim.owner != "" && claim.startedBy != ""
  }

  /** Those who approved exactly this commit and may do so. */
  function Approvers(request: Request, head: Commit): (authors: set<string>)
  {
    set a | a in request.approvals && Eligible(request, a) && a.head == head :: a.author
  }

  predicate Resolved(request: Request)
  {
    forall t :: t in request.threads ==> t.resolvedBy.Some?
  }

  /** Enough distinct approvers of exactly this commit, and no open discussion. */
  predicate Accepted(request: Request, head: Commit)
  {
    |Approvers(request, head)| >= request.required && Resolved(request)
  }

  // ---------------------------------------------------------------------------
  // The updates of the merge itself; None is a rejected update

  function ClaimRequest(request: Request, claim: Claim): (updated: Option<Request>)
  {
    if request.status.Open? && request.claim.None? && Accepted(request, claim.head)
    then Some(request.(claim := Some(claim)))
    else None
  }

  function RecordPlan(request: Request, claimId: string, plan: Plan): (updated: Option<Request>)
  {
    if request.status.Open? && request.claim.Some? && request.claim.value.id == claimId
    then Some(request.(claim := Some(request.claim.value.(plan := Some(plan)))))
    else None
  }

  function Finalise(request: Request, claimId: string, head: Commit, plan: Plan,
                    actor: string): (updated: Option<Request>)
  {
    if request.status.Open? && request.claim.Some? && request.claim.value.id == claimId &&
       request.claim.value.head == head && request.claim.value.plan.Some? &&
       request.claim.value.plan.value.result == plan.result &&
       request.claim.value.plan.value.strategy == plan.strategy
    then Some(request.(status := Merged, head := head, claim := None,
                       completion := Some(Completion(plan.result, plan.strategy, actor))))
    else None
  }

  datatype Verdict = WasMerged | NotMerged | Ambiguous | Unreadable

  /** What reconcileMergeClaim concludes from the target branch. */
  function Judge(claim: Claim, target: Option<Commit>, knownNotApplied: bool): (verdict: Verdict)
  {
    if claim.plan.None? then NotMerged
    else if target.None? then Unreadable
    else if Reaches(target.value, claim.plan.value.result) then WasMerged
    else if target.value == claim.plan.value.previous || knownNotApplied then NotMerged
    else Ambiguous
  }

  function Reconcile(request: Request, target: Option<Commit>, knownNotApplied: bool): (updated: Request)
    requires request.claim.Some?
  {
    var claim := request.claim.value;
    match Judge(claim, target, knownNotApplied)
    case WasMerged =>
      request.(status := Merged, head := claim.head, claim := None,
               completion := Some(Completion(claim.plan.value.result, claim.plan.value.strategy, claim.startedBy)))
    case NotMerged => request.(claim := None)
    case Ambiguous => request
    case Unreadable => request
  }

  /** How mergeRepositoryBranchesAtSource plans to bring `head` into `target`; a merge
      commit gets some fresh identity. */
  function PlanMerge(target: Commit, head: Commit, commitId: nat): (plan: Plan)
  {
    if Reaches(target, head) then Plan(target, target, AlreadyUpToDate)
    else if Reaches(head, target) then Plan(target, head, FastForward)
    else Plan(target, Commit(commitId, [target, head]), MergeCommit)
  }

  // ---------------------------------------------------------------------------
  // The review updates

  function Approve(request: Request, actor: string, maintainer: bool, head: Commit,
                   target: Commit): (updated: Option<Request>)
  {
    var own := actor == request.author;
    if !request.status.Open? || request.claim.Some? || actor == "" || (own && !maintainer) then None
    else Some(request.(approvals := PutApproval(request.approvals, Approval(actor, head, own)),
                       base := target, head := head))
  }

  /** Replaces the author's earlier approval or adds a new one. */
  function PutApproval(approvals: seq<Approval>, approval: Approval): (updated: seq<Approval>)
  {
    if approvals == [] then [approval]
    else if approvals[0].author == approval.author then [approval] + approvals[1..]
    else [approvals[0]] + PutApproval(approvals[1..], approval)
  }

  function SetStatus(request: Request, status: Status, actor: string): (updated: Option<Request>)
  {
    if status.Merged? || request.claim.Some? || request.status.Merged? || actor == "" then None
    else Some(request.(status := status, closedBy := if status.Closed? then Some(actor) else None))
  }

  /** Closing a request whose claim could not be decided gives the claim up. */
  function Abandon(request: Request, actor: string): (updated: Option<Request>)
  {
    SetStatus(request.(claim := None), Closed, actor)
  }

  function NextId(ids: seq<nat>): (id: nat)
    ensures id > 0 && forall i :: i in ids ==> i < id
  {
    if ids == [] then 1
    else
      var rest := NextId(ids[1..]);
      assert forall i :: i in ids ==> i == ids[0] || i in ids[1..];
      if ids[0] >= rest then ids[0] + 1 else rest
  }

  function ThreadIds(threads: seq<Thread>): (ids: seq<nat>)
    ensures |ids| == |threads| && forall i :: 0 <= i < |ids| ==> ids[i] == threads[i].id
  {
    seq(|threads|, i requires 0 <= i < |threads| => threads[i].id)
  }

  function CommentIds(comments: seq<Comment>): (ids: seq<nat>)
    ensures |ids| == |comments| && forall i :: 0 <= i < |ids| ==> ids[i] == comments[i].id
  {
    seq(|comments|, i requires 0 <= i < |comments| => comments[i].id)
  }

  function StartThread(request: Request, actor: string): (updated: Option<Request>)
  {
    if !request.status.Open? || request.claim.Some? || actor == "" then None
    else Some(request.(threads := request.threads + [Thread(NextId(ThreadIds(request.threads)), [Comment(1, actor)],
        None)]))
  }

  function FindThread(threads: seq<Thread>, id: nat): (index: int)
    ensures -1 <= index < |threads|
    ensures index >= 0 ==> threads[index].id == id
    ensures index < 0 ==> forall i :: 0 <= i < |threads| ==> threads[i].id != id
  {
    if threads == [] then -1
    else if threads[0].id == id then 0
    else
      var rest := FindThread(threads[1..], id);
      if rest < 0 then -1 else rest + 1
  }

  function AddComment(request: Request, thread: nat, actor: string): (updated: Option<Request>)
  {
    var k := FindThread(request.threads, thread);
    if !request.status.Open? || request.claim.Some? || k < 0 || actor == "" then None
    else
      var t := request.threads[k];
      Some(request.(threads := request.threads[k := t.(comments := t.comments
          + [Comment(NextId(CommentIds(t.comments)), actor)])]))
  }

  function SetResolved(request: Request, thread: nat, actor: string, developer: bool,
                       resolved: bool): (updated: Option<Request>)
  {
    var k := FindThread(request.threads, thread);
    if !request.status.Open? || request.claim.Some? || k < 0 || actor == "" then None
    else
      var t := request.threads[k];
      var threadAuthor := if t.comments != [] then t.comments[0].author else "";
      if actor != threadAuthor && actor != request.author && !developer then None
      else Some(request.(threads := request.threads[k := t.(resolvedBy := if resolved then Some(actor) else None)]))
  }
}
