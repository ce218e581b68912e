# GitOne verification

A Dafny model of the parts of GitOne, a single-process Git server, where the difficulty lies in
hand-written protocols and algorithms, with proofs of what they are meant to guarantee. Values are
datatypes and functions; what the server changes in place is a class or a loop that is proved
against such a function; what several requests do at once is a step system whose runs are all
sequences of steps.

`dafny verify dfyconfig.toml` checks everything.

| files | what they model |
|---|---|
| `LineEdits`, `TextMerge` | line edits of a diff, their overlap, and the three-way merge of one text |
| `Trees`, `TreeMerge`, `TreeStore`, `MergeShape` | trees, their recursive three-way merge, the dry and the storing pass, and empty directories |
| `Commits`, `History` | the commit graph and the bounded walk over it |
| `MergeClaim`, `MergeRuns`, `MergeRecords`, `MergeService` | merging a request: claim, plan, compare-and-set, completion, crash and recovery, with the reviews around it |
| `DependencySearch`, `Dependencies` | the cycle search of a job configuration and the reconciliation of job dependencies |
| `BuildQueue`, `QueueLaws`, `QueueService`, `JobLocks`, `JobLockLink` | the build queue under every interleaving, its operations in sequence, its nested job locks, and how these follow the queue |
| `LockKeys`, `LockManager` | lock requests, and the reference-counted lock table |
| `WarmPool`, `PoolOwnership`, `PoolLaws`, `PoolReuse`, `PoolExecutor` | the pool of virtual machines |
| `UploadQuota`, `AttemptLimiter`, `LimiterRuns` | LFS quota reservations and the authentication limiter |
| `RecordStores`, `RepositoryMove`, `GroupMove` | renaming repositories and groups with rollback |
| `Basics` | optional values and sizes of sets |
| `TreeEdit` | adding, replacing, removing and renaming single files of a tree |

## What is proved

- **Merging a request.** Over every run of claim, plan, ref update, completion, failures, crash,
  recovery, review updates and foreign branch writes: a request becomes merged only while its merge
  commit is in the target, a claim is dropped only while it is not, merged records are properly
  approved, no needless commit is made, and recovery after an undisturbed crash is exact and records
  what an uninterrupted merge would have.
- **Three-way merge.** A clean text merge is one side's edits followed by the other's, in either
  order; it is symmetric; it conflicts exactly where two edits have no order; the later position check
  cannot fail. A conflict-free tree merge is the pointwise merge of the flattened trees, where what a
  merged file holds is said without the merge itself, and its conflicts are exactly the clashing paths.
- **Build queue.** No job is queued, running or done before its needs have succeeded; terminal
  statuses are final; a lease holds for its time whatever else happens; a manual job needs a start;
  dependency reconciliation has one result whatever the order; nothing is left waiting; the
  out-of-order job locks cannot deadlock; an old runner is fenced off.
- **Allocators.** Capacity, ownership and accounting invariants of the machine pool, the lock table,
  the quota reservations and the attempt limiter, over all their runs; no machine is lost, uploads are
  admitted exactly if they fit, and a key is locked out exactly as its failures in a row say.
- **Moves and edits.** Renames are all-or-nothing and lose nothing; tree edits change one path and
  undo each other exactly.

Five properties hold under a condition only. Each has its exact condition, as an equivalence, and a
run or an input at which it fails:

- **Machine ownership.** The pool knows machines by name. When Create returns a name the pool does not
  track, the exact idle list, one build and one destroyer a machine hold from there on if and only if
  no other creation is still removing a machine of that name and, unless the pool is shutting down, no
  Run on an earlier machine of that name has yet to look at the pool (`PoolReuse.ReuseExactly`). That
  nobody else leases a reserved machine needs the same of late calls of Assign: the strict form of the
  theorem. `PoolReuse.ReusedNameTwoBuilds` is a run from the start with two builds on one machine. A
  provider that never repeats a name meets the condition (`PoolOwnership.FreshRunIsFree`). The
  capacity limit needs no condition.
- **Admitted uploads.** An admitted upload of a new object is refused for storage at publishing if and
  only if the group was over its quota before any upload began (`UploadQuota.RefusedExactly`); an
  empty object in such a group is (`UploadQuota.OverQuotaRefused`).
- **Lock-outs.** The limiter forgets a key that nobody used for the retention time, its lock-out with
  it. With nothing under way, a sweep due and room in the table, a locked key lets an attempt through
  early if and only if its lock-out outlasts the retention time after its last use, and one
  (`LimiterRuns.EscapesExactly`); with a retention time of three a lock-out until ten ends at four
  (`LimiterRuns.LockOutForgotten`). Options whose longest delay does not exceed the retention time,
  and one, exclude it (`LimiterRuns.LockedOutInFull`).
- **Renaming back.** It restores the tree if and only if the file was not moved below its own old path
  (`TreeEdit.RenameBack`); `a` to `a/b` cannot be taken back (`TreeEdit.RenameBackRefused`).
- **The shape of merged trees.** A conflict-free merge of trees without empty directories has none if
  and only if no directory that both sides changed was emptied by them together
  (`MergeShape.TreeShapelyExactly`); each side deleting one of two files leaves one
  (`MergeShape.MergeLeavesEmptyDirectory`). So the tree edits' exact undoing, which asks for trees
  without empty directories, is not promised for every tree the server merges.

## Model

| member | source | states |
|---|---|---|
| `LineEdits.SplitJoins` | internal/httpapi/merge.go:1143-1158 | splitting a text into lines loses nothing, and every piece is a line |
| `LineEdits.SplitInvertsConcat` | internal/httpapi/merge.go:1143-1158 | lines are determined by their text: splitting their concatenation gives them back |
| `LineEdits.SplitTextLines` | internal/httpapi/merge.go:1143-1158 | the loop computes that splitting |
| `LineEdits.TextLineEdits` | internal/httpapi/merge.go:1100-1141 | the loop over a diff extracts the edits of the script |
| `LineEdits.ApplyIsSplice` | internal/httpapi/merge.go:1079-1097 | the pass with its position and bounds check succeeds exactly on edit lists in order and in bounds, and then splices them into the base |
| `LineEdits.VersionEditsChained` | internal/httpapi/merge.go:1100-1141 | edits of any valid diff are ordered, separated and inside the base |
| `LineEdits.ExtractThenApply` | internal/httpapi/merge.go:1044-1141 | extracting a version's edits and applying them to the base gives the version back |
| `TextMerge.OneVersionNoOverlap` | internal/httpapi/merge.go:1174-1187 | two edits of one version never overlap |
| `TextMerge.CleanIffNoOverlap` | internal/httpapi/merge.go:1054-1097 | the merge is clean exactly if of any two different edits exactly one comes first; after the overlap test the position check never fails |
| `TextMerge.OverlapExactly` | internal/httpapi/merge.go:1174-1187 | the overlap test with its cases for insertions says exactly that two edits have no order |
| `TextMerge.ShortcutsAgree` | internal/httpapi/merge.go:1044-1098 | equal sides stay, an unchanged side gives way to the other, and with diffs that agree the shortcuts give what the edits alone would |
| `TextMerge.MergeTextSymmetric` | internal/httpapi/merge.go:1044-1098 | swapping target and source changes neither the verdict nor the merged text |
| `TextMerge.MergeIsTargetThenSource` | internal/httpapi/merge.go:1054-1097 | a clean merge is the target's edits and then the source's own edits, shifted through them |
| `TextMerge.MergeIsSourceThenTarget` | internal/httpapi/merge.go:1054-1097 | ... and equally the source's edits first and then the target's |
| `TextMerge.CombineEdits` | internal/httpapi/merge.go:1054-1071 | the nested loops collect the source edits that are no duplicates, or stop at an overlap |
| `TextMerge.MergeTextLines` | internal/httpapi/merge.go:1044-1098 | the whole function computes the specified merge |
| `TreeMerge.MergeTreeAt` | internal/httpapi/merge.go:750-876 | under every name the merged tree holds the merge of what the three trees hold there, with the conflicts prefixed |
| `TreeMerge.CleanMergeIsPointwise` | internal/httpapi/merge.go:750-876 | without conflicts every path of the result holds the merge of the three files there: what one side changed, and where both changed the text, the text merge |
| `TreeMerge.ConflictsAreClashes` | internal/httpapi/merge.go:750-876 | the reported conflicts are exactly the paths whose entries differ pairwise and neither are all directories nor merge as files |
| `TreeMerge.FileMergeExactly` | internal/httpapi/merge.go:897-1001 | files merge exactly if mode and content are each changed on one side only or the texts merge; the result is exactly the changed mode with the changed content or the merged text |
| `TreeMerge.MergedTextIsLineMerge` | internal/httpapi/merge.go:958-983 | where the contents differ pairwise, a merged file holds the line merge of the texts, an absent base being the empty text |
| `TreeMerge.MergeTreeSymmetric` | internal/httpapi/merge.go:750-876 | swapping target and source changes neither tree nor conflicts |
| `TreeMerge.MergeFilesSymmetric` | internal/httpapi/merge.go:897-1001 | the merge of one file, its mode and its text, is symmetric |
| `MergeShape.TreeShapelyExactly` | internal/httpapi/merge.go:806-841 | a clean merge leaves no empty directory if and only if both sides emptied none together |
| `MergeShape.MergeLeavesEmptyDirectory` | internal/httpapi/merge.go:806-841 | trees without an empty directory whose merge has one |
| `TreeStore.ObjectStore.MergeFileEntries` | internal/httpapi/merge.go:897-984 | the file merge that TreeMerge.FileMergeExactly pins down, storing the merged text as a blob only in the persisting pass |
| `TreeStore.ObjectStore.MergeTrees` | internal/httpapi/merge.go:335-358 | both passes give the same tree and conflicts; the dry pass stores nothing, the other leaves every object of the result stored |
| `History.ReachableCommits` | internal/httpapi/merge.go:514-549 | the walk finds exactly the reachable commits, and gives up exactly if they exceed the limit |
| `History.AheadBehind` | internal/httpapi/merge.go:488-512 | the two loops count the commits each side lacks |
| `History.AheadBehindIsReach` | internal/httpapi/merge.go:471-486 | a count is zero exactly if the other tip is reachable |
| `MergeRuns.RunKeepsInv` | internal/httpapi/reviews.go:836-1057 | every reachable state of the merge protocol satisfies its invariant |
| `MergeRuns.MergedOnlyWhenInTarget` | internal/httpapi/reviews.go:1027-1045 | the step that makes a request merged finds its merge commit in the target |
| `MergeRuns.DroppedOnlyWhenNotInTarget` | internal/httpapi/reviews.go:1183-1268 | a claim is dropped back to open only if nothing was planned or the target lacks the planned result |
| `MergeRuns.MergedRecordSound` | internal/httpapi/reviews.go:926-959 | a merged record has enough distinct eligible approvers of exactly its head, no open thread, and a merge commit that fits its strategy and contains the head |
| `MergeRuns.ReviewsFrozen` | internal/httpapi/reviews.go:743-776 | between claim and completion no review changes, and a merged record is final |
| `MergeRuns.RecoveryExact` | internal/httpapi/reviews.go:1189-1232 | after a crash at any point without foreign writes recovery decides, and marks merged exactly if the ref was set or nothing was to set |
| `MergeRuns.AmbiguousExactly` | internal/httpapi/reviews.go:1189-1232 | a remark on the verdict function: when it says ambiguous |
| `MergeRuns.AmbiguousOnlyIfDisturbed` | internal/httpapi/reviews.go:1189-1232 | ambiguity takes somebody else's write to the target |
| `MergeRuns.AmbiguousCanBeClosed` | internal/httpapi/reviews.go:443-502 | an ambiguous claim can be given up by closing the request |
| `MergeRuns.CompletionTrustsTheLock` | internal/httpapi/reviews.go:1027-1045 | a remark on completion: it does not look at the target again, so it is the repository lock that protects it |
| `MergeRuns.UndisturbedMergeSucceeds` | internal/httpapi/reviews.go:836-1057 | an accepted request is merged by the four steps; target and record then are what bringing the head into the target means, the rest of the record stays |
| `MergeRuns.PlanMergeFits` | internal/httpapi/merge.go:261-387 | no needless commit: the result is the target exactly if it has the head already, the head exactly if only it has the target, and else a merge commit whose parents are the target and the head |
| `MergeRuns.PutApprovalKeeps` | internal/httpapi/reviews.go:750-771 | an approval replaces its author's earlier one and nobody else's |
| `MergeRecords.RecoveryCompletes` | internal/httpapi/reviews.go:1183-1268 | a crash after the reference was set, and recovery, leave the record an uninterrupted merge would have left |
| `MergeRecords.MergedAsPlanned` | internal/httpapi/reviews.go:1027-1045 | whichever step merges, commit, strategy, actor and head are those of the claim and its plan, and the rest of the record stays |
| `MergeRecords.DroppedWithoutTrace` | internal/httpapi/reviews.go:1183-1268 | a claim dropped back to open changes nothing but the claim |
| `MergeRecords.MergedByClaimant` | internal/httpapi/reviews.go:926-959 | over every run, a merged record names head and person of a claim that was taken on the way |
| `MergeRecords.ClaimExactly` | internal/httpapi/reviews.go:926-959 | a request can be claimed exactly if it is open, unclaimed, approved for that head and resolved |
| `MergeRecords.ApprovalCounts` | internal/httpapi/reviews.go:743-776 | the approvers of the reviewed head gain exactly the actor, those of other commits lose at most the actor; one's own approval takes a maintainer |
| `MergeRecords.NewThreadBlocks` | internal/httpapi/reviews.go:526-552 | a new thread is open and last, with a number of its own; with it nobody can claim the request |
| `MergeRecords.ResolvingThread` | internal/httpapi/reviews.go:651-684 | only those allowed to can; one thread changes; reopening blocks claims, resolving the last open one makes all resolved |
| `MergeRecords.CommentOnThread` | internal/httpapi/reviews.go:588-616 | a comment goes to the end of its thread and nothing else changes |
| `MergeRecords.CloseAndReopen` | internal/httpapi/reviews.go:443-502 | closing blocks claims, and reopening gives exactly the closed request back |
| `MergeRecords.StatusGuarded` | internal/httpapi/reviews.go:443-502 | nobody sets merged by hand, changes a merged request or closes a claimed one |
| `MergeRecords.AbandonCloses` | internal/httpapi/reviews.go:443-502 | giving up an undecidable claim closes the request, unmerged |
| `MergeService.NewRecord` | internal/httpapi/reviews.go:324-415 | a new request is open, unapproved and unclaimed, and the store accepts it |
| `MergeService.ClearMergeClaim` | internal/httpapi/reviews.go:1073-1083 | all fields of the claim are cleared and nothing else |
| `MergeService.TakeMergeClaim` | internal/httpapi/reviews.go:929-958 | claims exactly an open, unclaimed, accepted request |
| `MergeService.PersistPlan` | internal/httpapi/reviews.go:977-989 | records the plan exactly in the claim it belongs to |
| `MergeService.CompleteMerge` | internal/httpapi/reviews.go:1027-1045 | finalises exactly the claim and plan that were carried out |
| `MergeService.ReconcileMergeClaim` | internal/httpapi/reviews.go:1183-1268 | settles an earlier claim by what the target contains, with the record that MergeRecords pins down; without a verdict, or if the result cannot be read or the record saved, nothing changes |
| `MergeService.ApproveRequest` | internal/httpapi/reviews.go:743-776 | the approval update |
| `MergeService.UpdateStatus` | internal/httpapi/reviews.go:443-502 | closing and reopening, and giving up an undecidable claim |
| `MergeService.CreateThread` | internal/httpapi/reviews.go:526-552 | a thread with a number no other has |
| `MergeService.AddReviewComment` | internal/httpapi/reviews.go:588-616 | a comment in the named thread with a number no other has |
| `MergeService.UpdateReviewThread` | internal/httpapi/reviews.go:651-684 | resolving and reopening the named thread by those allowed to |
| `MergeService.NextFree` | internal/httpapi/reviews.go:533-538 | the numbering loop gives one more than the largest number in use |
| `MergeService.NextIdUnique` | internal/httpapi/reviews.go:533-538 | the next number is the least one above every number in use |
| `MergeService.Recorded` | internal/httpapi/reviews.go:750-771 | the loop that replaces or appends an approval |
| `MergeService.Server.ClaimForMerge` | internal/httpapi/reviews.go:884-963 | settling, checking and claiming is a run of the protocol, also if the settlement or the claim cannot be saved |
| `MergeService.Server.MergeStoredRequest` | internal/httpapi/reviews.go:836-1057 | the whole operation, whichever of its reads, saves and reference updates fail, is a run of the protocol back to idle; without a failure a mergeable request is merged: up to date, fast-forward or merge commit exactly as the two tips are related, with that commit and strategy on record |
| `MergeService.Server.SettleFailure` | internal/httpapi/reviews.go:997-1025 | the failure path is a run of the protocol; undecided, it leaves the record as it was |
| `MergeService.Server.ApplyPlan` | internal/httpapi/reviews.go:965-1045 | from the persisted plan on, likewise |
| `MergeService.Server.CompareAndSet` | internal/httpapi/merge.go:389-399 | the reference moves exactly if nobody else moved it and no error came; a rejection is known not to have applied |
| `MergeService.Server.CompleteApplied` | internal/httpapi/reviews.go:1026-1048 | the completing save makes the record merged, or fails and leaves it as it was |
| `DependencySearch.NeedComesFirst` | internal/repoconfig/config.go:114-149 | in a topological order needs come strictly first |
| `DependencySearch.OrderedIsAcyclic` | internal/repoconfig/config.go:114-149 | a graph with a topological order has no cycle |
| `DependencySearch.Search.Visit` | internal/repoconfig/config.go:114-149 | the depth-first search extends a topological order or has found a real cycle |
| `DependencySearch.Validate` | internal/repoconfig/config.go:77-149 | a configuration is accepted exactly if its size, its jobs by themselves and their needs are proper and it has no cycle |
| `Dependencies.DependencyReadiness` | internal/runner/dependencies.go:149-167 | the loop: the first broken need wins, else ready exactly if all needs succeeded |
| `Dependencies.QuietIsFinal` | internal/runner/dependencies.go:79-116 | at a fixpoint every job has the status that the starting jobs determine |
| `Dependencies.QuietExactly` | internal/runner/dependencies.go:79-116 | nothing is left to do exactly if no waiting or manual job has a missing, failed or canceled need and no waiting job has all needs succeeded |
| `Dependencies.ReconcilePass` | internal/runner/dependencies.go:83-113 | one pass over the list in place |
| `Dependencies.ReconcileJobDependencies` | internal/runner/dependencies.go:79-116 | the passes end at that fixpoint, whatever the order of the jobs, and the updates are the changed jobs |
| `BuildQueue.RunKeepsInv` | internal/runner/coordinator.go:109-504 | under every interleaving of the operations the queue's invariant holds |
| `BuildQueue.EveryRunMeetsNeeds` | internal/runner/dependencies.go:79-167 | a queued, running or succeeded job has all its needs succeeded |
| `BuildQueue.RunMovesForward` | internal/runner/coordinator.go:156-504 | no record is lost, no terminal status left, no job goes back to waiting |
| `BuildQueue.ClaimRaisesAttempt` | internal/runner/coordinator.go:315-375 | a claim raises the attempt and takes only queued jobs or expired leases |
| `BuildQueue.OldRunnerIsFenced` | internal/runner/coordinator.go:669-688 | until the next claim no other runner can heartbeat, append or complete |
| `BuildQueue.CompletionIsFinal` | internal/runner/coordinator.go:454-504 | the same completion again changes nothing and another is refused; completing a canceled job leaves it canceled |
| `BuildQueue.CutAppend` | internal/runner/store.go:211-256 | appending to a log that is cut at the maximum keeps it the cut of everything sent |
| `BuildQueue.AppendKeepsLogs` | internal/runner/coordinator.go:424-452 | every log stays the prefix of the accepted chunks, cut at the maximum |
| `BuildQueue.ScheduleKeepsInv` | internal/runner/dependencies.go:13-77 | scheduling a configuration keeps the invariant, for every choice of fresh identifiers |
| `BuildQueue.NothingLeftWaiting` | internal/runner/dependencies.go:79-116 | at a fixpoint with no queued, running or manual job, no job waits |
| `QueueLaws.LeaseBegins` | internal/runner/coordinator.go:388-452 | a claim, a heartbeat and an accepted piece of log each give the runner the whole lease |
| `QueueLaws.LeaseHolds` | internal/runner/coordinator.go:315-452 | over every run within the lease the job is offered to nobody and stays with its runner |
| `QueueLaws.LeaseLapses` | internal/runner/coordinator.go:530-575 | a running job can be taken over exactly from the end of its lease on |
| `QueueLaws.ScheduledAs` | internal/runner/dependencies.go:13-77 | what each scheduled job is recorded as: failed, manual, waiting or queued, with its needs in order |
| `QueueLaws.ScheduleOnlyAdds` | internal/runner/coordinator.go:109-153 | scheduling leaves every record there is alone |
| `QueueLaws.StartQueues` | internal/runner/coordinator.go:156-207 | a start queues exactly a manual job whose needs were all seen to have succeeded |
| `QueueLaws.ManualNeedsStart` | internal/runner/dependencies.go:79-116 | over every run, a manual job is never queued, run or completed unless it is started |
| `QueueLaws.RerunCopies` | internal/runner/coordinator.go:211-268 | a rerun is a new queued job of the same name and commit, needing successful runs of that commit; the old record stays |
| `QueueLaws.CancelEnds` | internal/runner/coordinator.go:272-313 | a cancel ends exactly a waiting, queued or running job in canceled |
| `QueueLaws.AppendAdds` | internal/runner/coordinator.go:424-452 | log is accepted exactly from the owner and at the end, added up to the maximum, and no other log changes |
| `QueueLaws.CompleteRecords` | internal/runner/coordinator.go:454-504 | a completed job has the reported result, its end and no lease |
| `QueueLaws.RunTidy` | internal/runner/coordinator.go:109-504 | over every run, a record has an end exactly if the job ended, a lease exactly while it runs and an error exactly if it failed |
| `QueueService.Coordinator.ReconcileDependencies` | internal/runner/coordinator.go:580-623 | reconciling one job a round, recomputed under its lock, ends at the fixpoint, is a run of the queue, and touches only waiting and manual jobs |
| `QueueService.Coordinator.LookAgain` | internal/runner/coordinator.go:607-617 | the second look finds an update for the job exactly if its final status is another, and it is the settled record |
| `QueueService.Coordinator.StartBuild` | internal/runner/coordinator.go:156-207 | exactly a manual job with a manual configuration and succeeded needs is queued, and the rest reconciled |
| `QueueService.Coordinator.CancelBuild` | internal/runner/coordinator.go:272-313 | an unfinished job is canceled, and what needs it fails |
| `QueueService.Coordinator.CompleteBuild` | internal/runner/coordinator.go:454-504 | the owner ends a job once, and the rest is reconciled |
| `QueueService.Coordinator.HeartbeatState` | internal/runner/coordinator.go:388-422 | the owner's heartbeat is the heartbeat step, by QueueLaws a whole new lease, and tells of a cancellation |
| `QueueService.Coordinator.AppendLog` | internal/runner/store.go:211-256 | the owner appends at exactly the end of the log, the append step with its whole new lease |
| `QueueService.Coordinator.FailCandidate` | internal/runner/coordinator.go:333-348 | a job without a readable configuration is failed; other candidates stay as they were listed |
| `QueueService.Coordinator.ClaimBuild` | internal/runner/coordinator.go:315-375 | grants a configured candidate as a claim step, or there was none |
| `QueueService.FinalOnTheWay` | internal/runner/coordinator.go:580-623 | the final statuses seen from a half-reconciled state are those seen from the start |
| `JobLocks.NoCircularWait` | internal/runner/coordinator.go:580-623 | no circle of operations waits for one another's job locks |
| `JobLocks.NeverDeadlocked` | internal/runner/coordinator.go:580-623 | while an operation is under way, one of them can go on |
| `JobLocks.RunKeepsInv` | internal/runner/coordinator.go:580-623 | in every run no job lock has two holders, and what an operation read of other jobs stays ordered in time |
| `JobLockLink.OwnStepProjects` | internal/runner/coordinator.go:156-205 | a saving Start, Cancel or Complete of the queue is the lock system's saving step, any other its refusal |
| `JobLockLink.ReadProjects` | internal/runner/coordinator.go:584-599 | a job that reconciliation would change is waiting or manual, and never the operation's own |
| `JobLockLink.ReconcileProjects` | internal/runner/coordinator.go:607-617 | a reconciling save of the queue is the lock system's update |
| `JobLockLink.ScheduleProjects` | internal/runner/coordinator.go:109-153 | scheduling adds only jobs that never left waiting and manual |
| `JobLockLink.OtherStepsProject` | internal/runner/coordinator.go:211-452 | no other step of the queue changes which jobs are waiting or manual |
| `LockKeys.NormalizeRequests` | internal/lockmgr/lockmgr.go:97-118 | fails exactly on an invalid request; else one request a key, in key order, exclusive exactly where some request was |
| `LockKeys.NormalFormUnique` | internal/lockmgr/lockmgr.go:97-118 | the normal form does not depend on the order in which the map is visited |
| `LockKeys.ConflictOfNormal` | internal/lockmgr/lockmgr.go:97-118 | normalising does not change what conflicts |
| `LockKeys.GroupAncestryRequests` | internal/lockmgr/lockmgr.go:239-253 | the loop over the path: shared on ancestors, the terminal mode on the group |
| `LockKeys.GroupExcludesRepository` | internal/lockmgr/lockmgr.go:120-142 | exclusive group locks conflict with repository requests exactly if a group is a path prefix of a repository's group |
| `LockKeys.RepositoryExcludesRepository` | internal/lockmgr/lockmgr.go:120-134 | repository requests conflict exactly if they name one repository and one is exclusive |
| `LockKeys.GroupExcludesGroup` | internal/lockmgr/lockmgr.go:136-142 | exclusive group requests conflict exactly if one of the groups is, or lies above, one of the others |
| `LockKeys.CatalogExcludesAll` | internal/lockmgr/lockmgr.go:120-159 | whoever holds the catalog exclusively is alone with it |
| `LockKeys.TopDown` | internal/lockmgr/lockmgr.go:239-253 | in key order the catalog comes before groups, a group before those below it, groups before repositories |
| `LockKeys.JoinInjective` | internal/lockmgr/lockmgr.go:239-253 | different group paths never share a key's value |
| `LockManager.RunKeepsInv` | internal/lockmgr/lockmgr.go:45-95 | every reachable state of the lock table satisfies its invariant |
| `LockManager.UsersShareOneEntry` | internal/lockmgr/lockmgr.go:54-65 | all live acquirers of a key share its one entry, whose count is their number |
| `LockManager.ExclusiveHolderIsAlone` | internal/lockmgr/lockmgr.go:67-73 | whoever holds a key exclusively is its only holder |
| `LockManager.EntersExactly` | internal/lockmgr/lockmgr.go:67-73 | a reader enters exactly if nobody writes the key or has announced to, an announced writer exactly if nobody holds it |
| `LockManager.ConflictingNeverTogether` | internal/lockmgr/lockmgr.go:45-95 | callers with conflicting requests are never inside together |
| `LockManager.NoCircularWait` | internal/lockmgr/lockmgr.go:67-73 | acquirers never wait in a circle, a waiting writer keeping readers out included |
| `LockManager.NeverStuck` | internal/lockmgr/lockmgr.go:45-95 | while anybody is there, somebody can go on |
| `LockManager.NothingLeftBehind` | internal/lockmgr/lockmgr.go:85-92 | when all have left, the table is empty |
| `LockManager.Manager.Register` | internal/lockmgr/lockmgr.go:54-65 | one more reference on each key, and the entries the table has |
| `LockManager.Manager.Unregister` | internal/lockmgr/lockmgr.go:85-92 | one reference less on each key, unused keys removed |
| `WarmPool.NeverOverCapacity` | internal/runner/libvirt_executor.go:770-876 | with any provider, tracked machines and creations not yet registered never exceed the limit |
| `WarmPool.RunKeepsCapacity` | internal/runner/libvirt_executor.go:770-876 | ... by an invariant that also ties the creation counter to the creations |
| `PoolOwnership.RunKeepsInv` | internal/runner/libvirt_executor.go:478-922 | with free names, the ownership invariant holds in every run, in either strength |
| `PoolOwnership.IdleListExact` | internal/runner/libvirt_executor.go:478-551 | the idle list is duplicate-free and names exactly the idle machines |
| `PoolOwnership.AtMostOneBuild` | internal/runner/libvirt_executor.go:598-653 | no machine runs a second build |
| `PoolOwnership.OneDestroyer` | internal/runner/libvirt_executor.go:685-718 | no two destroyers work on one machine |
| `PoolOwnership.LeasedNeverIdleAgain` | internal/runner/libvirt_executor.go:655-683 | a machine leased once is never idle or reserved again, if names are not repeated |
| `PoolOwnership.ReservationsKept` | internal/runner/libvirt_executor.go:655-664 | a reservation that was not used finds its machine reserved: nobody else leases it |
| `PoolOwnership.FreshRunIsFree` | internal/runner/libvirt_provider.go:753-798 | a provider that never repeats a name only returns free names |
| `PoolLaws.NothingLost` | internal/runner/libvirt_executor.go:478-922 | while the pool runs every machine is idle, waits for the reconciler, or is in the hands of one caller, creation or the reconciler |
| `PoolLaws.ServedInOrder` | internal/runner/libvirt_executor.go:493-502 | machines are handed out in the order of the idle list |
| `PoolLaws.UnhealthyIsDestroyed` | internal/runner/libvirt_executor.go:511-541 | a machine that fails its check waits to be destroyed and is not handed out |
| `PoolLaws.HealthyIsKept` | internal/runner/libvirt_executor.go:511-541 | a healthy one is the caller's, or goes back if the caller gave up |
| `PoolLaws.DestroyedIsGone` | internal/runner/libvirt_executor.go:685-718 | a destroyed machine is gone, and one whose destruction failed is left to the reconciler |
| `PoolLaws.ReleaseByUse` | internal/runner/libvirt_executor.go:598-643 | a used machine is destroyed and an unused one returned |
| `PoolLaws.CreatedIsIdle` | internal/runner/libvirt_executor.go:805-827 | a successful creation adds an idle machine at the end of the list |
| `PoolReuse.ReuseExactly` | internal/runner/libvirt_executor.go:805-846 | in every state and for every idle list: users get what they rely on from there on if and only if the returned name is free |
| `PoolReuse.ReusedNameTwoBuilds` | internal/runner/libvirt_executor.go:598-621 | with a name that is not free there is a run that puts two builds on one machine |
| `PoolExecutor.AvailableCapacity` | internal/runner/libvirt_executor.go:795-803 | the loop counts idle and reserved machines |
| `PoolExecutor.RemoveIdle` | internal/runner/libvirt_executor.go:725-732 | the loop removes the first occurrence of a name |
| `PoolExecutor.FindUnclaimed` | internal/runner/libvirt_executor.go:786-791 | finds a machine waiting to be destroyed exactly if there is one |
| `PoolExecutor.FirstUsable` | internal/runner/libvirt_executor.go:493-499 | the loop that drops stale names finds the first idle machine |
| `PoolExecutor.ReachableSound` | internal/runner/libvirt_executor.go:478-922 | whenever the mutex is free, ownership and capacity hold |
| `PoolExecutor.StepReaches` | internal/runner/libvirt_executor.go:478-922 | every section keeps that |
| `PoolExecutor.Executor.NextReconcileAction` | internal/runner/libvirt_executor.go:770-793 | creates exactly if idle, reserved and coming machines fall short of the target and the limit leaves room; the action is a step of the pool, and waiting means no step is possible |
| `PoolExecutor.Executor.RecordCreated` | internal/runner/libvirt_executor.go:805-827 | recording a creation is a step of the pool |
| `PoolExecutor.Executor.PopIdle` | internal/runner/libvirt_executor.go:493-502 | reserving is a step of the pool; without a machine nothing changes, for the list holds no stale name |
| `PoolExecutor.Executor.FinishCheck` | internal/runner/libvirt_executor.go:511-541 | the outcome of the health check is a step of the pool |
| `PoolExecutor.Executor.AssignReservation` | internal/runner/libvirt_executor.go:655-664 | leasing is a step of the pool |
| `PoolExecutor.Executor.LeasedInstance` | internal/runner/libvirt_executor.go:645-653 | a build starts only on a leased machine |
| `PoolExecutor.Executor.GiveBack` | internal/runner/libvirt_executor.go:666-683 | an unused reservation becomes idle again |
| `PoolExecutor.Executor.ClaimForDestroy` | internal/runner/libvirt_executor.go:685-698 | a used reservation is claimed for destruction |
| `PoolExecutor.Executor.RecordDestroyed` | internal/runner/libvirt_executor.go:700-718 | and removed, or left to the reconciler |
| `PoolExecutor.Executor.RecordReconciled` | internal/runner/libvirt_executor.go:901-922 | the same by the reconciler |
| `PoolExecutor.Executor.RetainFailedCleanup` | internal/runner/libvirt_executor.go:878-890 | a machine that could not be removed is tracked |
| `PoolExecutor.Executor.FinishCreation` | internal/runner/libvirt_executor.go:864-876 | the end of a creation is a step of the pool |
| `PoolExecutor.Executor.UncountRetained` | internal/runner/libvirt_executor.go:851-859 | a retained machine no longer counts as a creation |
| `PoolExecutor.Executor.BeginShutdown` | internal/runner/libvirt_executor.go:941-953 | Shutdown first stops the pool |
| `PoolExecutor.Executor.EndShutdown` | internal/runner/libvirt_executor.go:998-1006 | and at last forgets everything |
| `RecordStores.ReaddressedBack` | internal/review/store.go:211-279 | readdressing records back undoes readdressing |
| `RecordStores.StageRecords` | internal/review/store.go:234-263 | the loop succeeds exactly if every entry is a record of the repository, and stages all of them readdressed |
| `RepositoryMove.Mover.Relocate` | internal/review/store.go:211-279 | a relocation happens completely, not at all, or leaves the store in its backup directory after two failures |
| `RepositoryMove.Mover.MoveSidecars` | internal/storage/storage.go:1141-1182 | the first three moves, with flags that say what has moved |
| `RepositoryMove.Mover.RestoreSidecars` | internal/storage/storage.go:1183-1204 | moves back what the flags say, each once |
| `RepositoryMove.Mover.MoveIssues` | internal/issue/lifecycle.go:49-76 | the issue store's transaction around them |
| `RepositoryMove.Mover.RollBack` | internal/storage/storage.go:1220-1232 | the rollback after the issues have moved |
| `RepositoryMove.Mover.RenameRepository` | internal/storage/storage.go:1087-1234 | succeeds exactly if possible and nothing fails, and then all five stores are at the new name; otherwise the disk is as before unless an undo step failed; nothing is ever lost |
| `RepositoryMove.ShiftRearranges` | internal/review/lifecycle.go:124-146 | moving one piece of data changes where that piece is and nothing else |
| `RepositoryMove.BackToStart` | internal/review/lifecycle.go:124-146 | with all data back at the old name the disk is the initial one |
| `GroupMove.GroupMover.RewriteDirectory` | internal/issue/store.go:499-542 | one store is rewritten completely, not at all, or left in its backup directory |
| `GroupMove.GroupMover.TakeBack` | internal/issue/store.go:371-398 | the loop that takes completed rewrites back |
| `GroupMove.GroupMover.RewriteGroup` | internal/issue/store.go:284-400 | rewrites all stores of a kind exactly if the walk succeeds and each can be, else none unless an undo step failed |
| `GroupMove.GroupMover.MoveIssues` | internal/issue/lifecycle.go:80-101 | the issue stores' transaction around the directory |
| `GroupMove.GroupMover.RenameGroup` | internal/storage/storage.go:1324-1427 | all-or-nothing for the directory and all stores below, as for repositories |
| `GroupMove.BackToStart` | internal/review/lifecycle.go:196-212 | stores addressed to the old path are the initial ones |
| `GroupMove.AllThere` | internal/review/store.go:293-408 | stores addressed to the new path are the readdressed ones |
| `TreeEdit.ReplaceExactly` | internal/httpapi/edit.go:453-492 | a file can be replaced exactly if it is there and holds text |
| `TreeEdit.ReplaceOnlyAt` | internal/httpapi/edit.go:453-492 | replacing changes the content at one path, keeps the mode, and changes nothing else |
| `TreeEdit.ReplaceKeepsShape` | internal/httpapi/edit.go:453-492 | no empty directory appears |
| `TreeEdit.AddExactly` | internal/httpapi/edit.go:494-547 | an entry can be added exactly where nothing is and no file is in the way |
| `TreeEdit.AddOnlyAt` | internal/httpapi/edit.go:494-547 | adding changes one path only |
| `TreeEdit.AddKeepsShape` | internal/httpapi/edit.go:494-547 | no empty directory appears |
| `TreeEdit.RemoveExactly` | internal/httpapi/edit.go:549-607 | a file can be removed exactly if it is there, and its entry is returned |
| `TreeEdit.RemoveOnlyAt` | internal/httpapi/edit.go:549-607 | removing changes one path only |
| `TreeEdit.RemoveKeepsShape` | internal/httpapi/edit.go:549-607 | directories that become empty go as well |
| `TreeEdit.RemoveUndoesAdd` | internal/httpapi/edit.go:494-607 | removing undoes adding: the same tree comes back |
| `TreeEdit.AddUndoesRemove` | internal/httpapi/edit.go:494-607 | adding undoes removing |
| `TreeEdit.RenameMoves` | internal/httpapi/edit.go:196-271 | renaming moves one file and changes no other path |
| `TreeEdit.RenameExactly` | internal/httpapi/edit.go:232-257 | when a rename succeeds, as an equivalence |
| `TreeEdit.RenameKeepsShape` | internal/httpapi/edit.go:240-257 | no empty directory appears |
| `TreeEdit.RenameBack` | internal/httpapi/edit.go:196-271 | renaming back gives the same tree, exactly unless the file went below its old path |
| `TreeEdit.RenameBackRefused` | internal/httpapi/edit.go:234-238 | a file `a` moved to `a/b` cannot be moved back |
| `TreeEdit.ReplaceRepositoryTreeBlob` | internal/httpapi/edit.go:453-492 | the recursion over entry lists computes the specified replacement |
| `TreeEdit.AddRepositoryTreeEntry` | internal/httpapi/edit.go:494-547 | ... the specified addition |
| `TreeEdit.RemoveRepositoryTreeEntry` | internal/httpapi/edit.go:549-607 | ... the specified removal, and whether the tree became empty |
| `TreeEdit.StoreTree` | internal/httpapi/edit.go:609-620 | an entry list in any order gives the one tree it lists |
| `UploadQuota.WithinQuota` | internal/lfs/lfs.go:358-474 | whenever the group's lock is free, published and reserved bytes fit into the quota |
| `UploadQuota.NeverRefused` | internal/lfs/lfs.go:610-636 | an admitted upload is not refused for storage at publishing |
| `UploadQuota.RefusedExactly` | internal/lfs/lfs.go:610-636 | it is refused exactly if the group was over its quota to begin with |
| `UploadQuota.OverQuotaRefused` | internal/lfs/lfs.go:610-636 | in a group over its quota an empty upload is admitted and then refused |
| `UploadQuota.DeclaredAdmittedExactly` | internal/lfs/lfs.go:565-608 | a declared length within the maximum is admitted exactly if it is zero or fits with usage and reservations into the quota |
| `UploadQuota.UndeclaredAdmitted` | internal/lfs/lfs.go:565-608 | an undeclared one is admitted for as much as maximum and quota leave |
| `UploadQuota.PublishedStays` | internal/lfs/lfs.go:610-636 | a received upload, once it has the lock, leaves its object and nothing reserved |
| `UploadQuota.BodiesAndAborts` | internal/lfs/lfs.go:358-474 | a body is taken up to exactly its reservation, and giving up returns it |
| `UploadQuota.UploadReservations.Reserve` | internal/lfs/lfs.go:565-608 | the counter grows by exactly what the upload may receive and stays within the quota |
| `UploadQuota.UploadReservations.Release` | internal/lfs/lfs.go:596-607 | the reservation is given back, other groups keep theirs |
| `UploadQuota.GroupStorageUsage` | internal/lfs/lfs.go:638-695 | the walk adds up the published sizes |
| `AttemptLimiter.Backoff` | internal/auth/limit.go:239-248 | from the threshold on the loop gives initial times a power of two, cut at the maximum |
| `AttemptLimiter.SweepStates` | internal/auth/limit.go:250-261 | drops exactly the idle states past their retention |
| `AttemptLimiter.SweepKeepsLive` | internal/auth/limit.go:250-261 | no state that an attempt under way needs is dropped |
| `AttemptLimiter.TrackedKeys` | internal/auth/limit.go:186-208 | the loop computes the keys an attempt is counted under |
| `AttemptLimiter.TrackOnTracks` | internal/auth/limit.go:186-208 | every key stands for itself or for the overflow state, and at most one state exceeds the maximum |
| `AttemptLimiter.OverflowOnlyWhenFull` | internal/auth/limit.go:186-208 | only keys of the attempt are counted, and the overflow state for them only when the table is full |
| `AttemptLimiter.Decide` | internal/auth/limit.go:156-166 | the loop computes the longest wait any key demands |
| `AttemptLimiter.NoWaitExactly` | internal/auth/limit.go:156-170 | there is no wait exactly if every key admits the attempt |
| `AttemptLimiter.WaitIsDemanded` | internal/auth/limit.go:156-170 | a wait covers every backoff and every key without room, and one of the keys demands it |
| `AttemptLimiter.BegunSound` | internal/auth/limit.go:171-176 | counting an admitted attempt keeps each counter equal to the attempts under way and within the maximum |
| `AttemptLimiter.EndedSound` | internal/auth/limit.go:210-237 | and so does ending one |
| `AttemptLimiter.Limiter.Sweep` | internal/auth/limit.go:250-261 | sweeping keeps the invariant and every live state |
| `AttemptLimiter.Limiter.Begin` | internal/auth/limit.go:140-184 | admits exactly if none of the keys it counts refuses, counting all of them or none, as the step of LimiterRuns; the wait is the longest that one of them demands |
| `AttemptLimiter.Limiter.Finish` | internal/auth/limit.go:210-237 | ends one attempt with its outcome as the step of LimiterRuns, and keeps the invariant |
| `LimiterRuns.RunMatches` | internal/auth/limit.go:140-237 | over every run, a key's failures and backoff are those its outcomes in a row say: a failure counts, a success clears, an abort does nothing |
| `LimiterRuns.LockedOut` | internal/auth/limit.go:140-248 | after n failures in a row, n at or past the threshold, no attempt under a remembered key begins before the last plus the initial delay doubled n minus threshold times, or the maximum |
| `LimiterRuns.AdmittedExactly` | internal/auth/limit.go:140-248 | under one remembered key an attempt begins exactly if no such lock-out is on and there is room |
| `LimiterRuns.RememberedExactly` | internal/auth/limit.go:250-261 | when a key is forgotten |
| `LimiterRuns.LockedOutInFull` | internal/auth/limit.go:140-261 | a lock-out lasts in full if no delay exceeds the retention time and one |
| `LimiterRuns.ForgottenBegins` | internal/auth/limit.go:140-208 | a forgotten key is a new key |
| `LimiterRuns.EscapesExactly` | internal/auth/limit.go:140-261 | a locked key lets an attempt through early exactly if it can be forgotten before its lock-out is over |
| `LimiterRuns.LockOutForgotten` | internal/auth/limit.go:250-261 | a run with a lock-out until ten that ends at four |

## Left out

- HTTP handlers, authentication, sessions, TLS, LDAP, the web UI: plumbing over libraries.
- Object encoding, hashes, packfiles, merge-base search and the diff algorithm: commits and trees are
  values, so equal hashes are equal values, and a diff is any valid script of non-empty runs.
- The merge base of a plan is whatever the graph offers; the model requires of a merge commit only
  that its parents are the previous target and the head.
- Re-splitting a merged text into lines: the merge is stated on line sequences and their concatenation.
- The order of a conflict list: it is a set of paths.
- Texts of errors and messages, timestamps other than the queue's clock and the limiter's, comment
  bodies, and the size limits on blobs and comparisons except as an arbitrary text test.
- Clocks that go back: the times of the limiter's runs do not decrease.
- Integer width: identifiers, sizes, attempt numbers and durations are unbounded.
- More than one merge request at a time in the merge protocol; foreign writers of a branch are any
  writes the repository lock admits.
- The order in which claimable builds are offered, images, commands and time limits of a job; whether
  a job's configuration can be read is a parameter of a claim and of a start, and which jobs of a
  configuration are proper by themselves one of its validation.
- QueueService.Coordinator.ClaimBuild: does not state which of several configured candidates is granted, because the order is left out.
- Dependencies.ReconcileJobDependencies: does not return the list of promoted jobs, because only the in-process runner reads it.
- The in-process runner, a second executor of the same queue.
- A failed start of the machine pool, and the destructions of Shutdown itself: the pool starts full
  and Shutdown is stopping followed by forgetting.
- The mutex of a reservation handle is one step each for Assign, Run and Release.
- Locks on different storage roots, and the review and issue copies of the group lock requests.
- Validation of repository and group names before a rename, and files in a record store that are no
  `.json` entries, which a relocation does not carry along.
- Renames are stated for one fault plan at a time: every file system call may fail once, without effect.
- Deleting repositories and groups, imports, archives and quarantine.
- UploadQuota.GroupStorageUsage: adds up a map of published objects; which files of the directories count as such is left out.
- LFS batch negotiation, a group without a quota, and bytes deleted from a group.
