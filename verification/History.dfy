/** The history walk behind ahead and behind counts (reachableCommits and commitSetDifference in
    internal/httpapi/merge.go). */
module History {
  import opened Basics
  import opened Commits

  /** A commit and all its ancestors. */
  ghost function Closure(commit: Commit): (all: set<Commit>)
    decreases commit
  {
    {commit} + set i, x | 0 <= i < |commit.parents| && x in Closure(commit.parents[i]) :: x
  }

  lemma {:induction false} ClosureIsReach(commit: Commit, x: Commit)
    ensures x in Closure(commit) <==> Reaches(commit, x)
    decreases commit
  {
    forall i | 0 <= i < |commit.parents| ensures x in Closure(commit.parents[i]) <==> Reaches(commit.parents[i], x) {
      ClosureIsReach(commit.parents[i], x);
    }
  }

  lemma {:induction false} ParentInClosure(start: Commit, commit: Commit, i: nat)
    requires commit in Closure(start) && i < |commit.parents|
    ensures commit.parents[i] in Closure(start)
  {
    ClosureIsReach(start, commit);
    assert Reaches(commit.parents[i], commit.parents[i]);
    assert Reaches(commit, commit.parents[i]);
    ReachesTransitive(start, commit, commit.parents[i]);
    ClosureIsReach(start, commit.parents[i]);
  }

  ghost predicate ParentsIn(commit: Commit, seen: set<Commit>)
  {
    forall i :: 0 <= i < |commit.parents| ==> commit.parents[i] in seen
  }

  /** A set that holds the parents of its members holds everything they reach. */
  lemma {:induction false} ClosedHoldsAll(commit: Commit, seen: set<Commit>, x: Commit)
    requires commit in seen && (forall c :: c in seen ==> ParentsIn(c, seen)) && Reaches(commit, x)
    ensures x in seen
    decreases commit
  {
    if commit != x {
      var i :| 0 <= i < |commit.parents| && Reaches(commit.parents[i], x);
      assert ParentsIn(commit, seen);
      ClosedHoldsAll(commit.parents[i], seen, x);
    }
  }

  /** Every commit that was seen waits to be expanded or has been. */
  ghost predicate Explored(seen: set<Commit>, pending: seq<Commit>)
  {
    && (forall c :: c in pending ==> c in seen)
    && (forall c :: c in seen ==> c in pending || ParentsIn(c, seen))
  }

  lemma {:induction false} DoneIsClosure(start: Commit, seen: set<Commit>)
    requires start in seen && seen <= Closure(start) && Explored(seen, [])
    ensures seen == Closure(start)
  {
    forall x | x in Closure(start) ensures x in seen {
      ClosureIsReach(start, x);
      ClosedHoldsAll(start, seen, x);
    }
  }

  /** The set holds the parents of its members. */
  ghost predicate Closed(all: set<Commit>)
  {
    forall c :: c in all ==> ParentsIn(c, all)
  }

  lemma {:induction false} ClosureClosed(start: Commit)
    ensures Closed(Closure(start))
  {
    forall c, i | c in Closure(start) && 0 <= i < |c.parents| ensures c.parents[i] in Closure(start) {
      ParentInClosure(start, c, i);
    }
  }

  lemma {:induction false} OneMore(all: set<Commit>, commit: Commit, i: nat, seen: set<Commit>, maximum: nat)
    requires Closed(all) && commit in seen && seen <= all && i < |commit.parents| && commit.parents[i] !in seen
    ensures seen + {commit.parents[i]} <= all && |seen + {commit.parents[i]}| == |seen| + 1
    ensures |seen| >= maximum ==> |all| > maximum
  {
    assert ParentsIn(commit, all);
    SubsetSize(seen + {commit.parents[i]}, all);
  }

  /** Commits found so far, within the limit. */
  ghost predicate Found(all: set<Commit>, maximum: nat, seen: set<Commit>, next: set<Commit>)
  {
    seen <= next <= all && |seen| <= |next| <= maximum
  }

  lemma {:induction false} Expanded(commit: Commit, seen: set<Commit>, waiting: seq<Commit>)
    requires Explored(seen, waiting + [commit]) && ParentsIn(commit, seen)
    ensures Explored(seen, waiting)
  {
    assert forall c :: c in waiting + [commit] <==> c in waiting || c == commit;
  }

  /** The inner loop: the parents of one commit. */
  method Expand(commit: Commit, maximum: nat, seen: set<Commit>, pending: seq<Commit>, ghost all: set<Commit>)
    returns (more: bool, next: set<Commit>, waiting: seq<Commit>)
    requires Closed(all) && commit in seen && Found(all, maximum, seen, seen) && Explored(seen, pending + [commit])
    ensures !more ==> |all| > maximum
    ensures more ==> Found(all, maximum, seen, next) && Explored(next, waiting)
    ensures more ==> |next| > |seen| || waiting == pending
  {
    next, waiting := seen, pending;
    for i := 0 to |commit.parents|
      invariant Found(all, maximum, seen, next) && Explored(next, waiting + [commit])
      invariant forall k :: 0 <= k < i ==> commit.parents[k] in next
      invariant |next| > |seen| || waiting == pending
    {
      var parent := commit.parents[i];
      if parent !in next {
        OneMore(all, commit, i, next, maximum);
        if |next| >= maximum {
          return false, next, waiting;
        }
        ExploredMore(next, waiting, commit, parent);
        next, waiting := next + {parent}, waiting + [parent];
      }
    }
    Expanded(commit, next, waiting);
    more := true;
  }

  lemma {:induction false} ExploredMore(seen: set<Commit>, waiting: seq<Commit>, commit: Commit, parent: Commit)
    requires Explored(seen, waiting + [commit])
    ensures Explored(seen + {parent}, waiting + [parent] + [commit])
  {
    var before, after := waiting + [commit], waiting + [parent] + [commit];
    assert forall c :: c in after <==> c in before || c == parent;
    forall c | c in seen + {parent} ensures c in after || ParentsIn(c, seen + {parent}) {
      if c in seen && c !in before {
        assert ParentsIn(c, seen);
      }
    }
  }

  /** The outer loop: within any closed set the walk ends in a closed set, or the set is too large. */
  method Walk(start: Commit, maximum: nat, ghost all: set<Commit>) returns (found: Option<set<Commit>>)
    requires maximum > 0 && Closed(all) && start in all
    ensures found.None? ==> |all| > maximum
    ensures found.Some? ==>
        start in found.value && found.value <= all && |found.value| <= maximum && Explored(found.value, [])
  {
    var seen, pending := {start}, [start];
    while pending != []
      invariant start in seen && Found(all, maximum, seen, seen) && Explored(seen, pending)
      decreases maximum - |seen|, |pending|
    {
      var commit := pending[|pending| - 1];
      var rest := pending[..|pending| - 1];
      assert pending == rest + [commit];
      var more, next, waiting := Expand(commit, maximum, seen, rest, all);
      if !more {
        return None;
      }
      seen, pending := next, waiting;
    }
    found := Some(seen);
  }

  /** reachableCommits: exactly the commits the start reaches, or nothing if they are too many. */
  method ReachableCommits(start: Commit, maximum: nat) returns (found: Option<set<Commit>>)
    requires maximum > 0
    ensures found.Some? ==> forall x :: x in found.value <==> Reaches(start, x)
    ensures found.Some? <==> |Closure(start)| <= maximum
  {
    ClosureClosed(start);
    found := Walk(start, maximum, Closure(start));
    if found.Some? {
      DoneIsClosure(start, found.value);
      forall x ensures x in found.value <==> Reaches(start, x) {
        ClosureIsReach(start, x);
      }
    }
  }

  /** The number of members of one set that another lacks. */
  method CountMissing(all: set<Commit>, other: set<Commit>) returns (count: nat)
    ensures count == |all - other|
  {
    count := 0;
    var todo := all;
    while todo != {}
      invariant todo <= all && count == |(all - todo) - other|
    {
      var commit :| commit in todo;
      ghost var before := (all - todo) - other;
      todo := todo - {commit};
      if commit !in other {
        assert (all - todo) - other == before + {commit};
        count := count + 1;
      } else {
        assert (all - todo) - other == before;
      }
    }
    assert (all - todo) - other == all - other;
  }

  /** commitSetDifference. */
  method AheadBehind(base: set<Commit>, head: set<Commit>) returns (ahead: nat, behind: nat)
    ensures ahead == |head - base| && behind == |base - head|
    ensures ahead + |base| == behind + |head|
  {
    ahead := CountMissing(head, base);
    behind := CountMissing(base, head);
    assert head == (head - base) + (head * base) && base == (base - head) + (head * base);
  }

  /** A branch is not behind exactly if it reaches the base's tip, and has nothing of its own
      exactly if the base reaches it. */
  lemma {:induction false} AheadBehindIsReach(base: Commit, head: Commit)
    ensures |Closure(base) - Closure(head)| == 0 <==> Reaches(head, base)
    ensures |Closure(head) - Closure(base)| == 0 <==> Reaches(base, head)
  {
    NothingMissing(base, head);
    NothingMissing(head, base);
  }

  lemma {:induction false} NothingMissing(from: Commit, other: Commit)
    ensures |Closure(from) - Closure(other)| == 0 <==> Reaches(other, from)
  {
    ClosureIsReach(other, from);
    if Reaches(other, from) {
      forall x | x in Closure(from) ensures x in Closure(other) {
        ClosureIsReach(from, x);
        ReachesTransitive(other, from, x);
        ClosureIsReach(other, x);
      }
      assert Closure(from) - Closure(other) == {};
    } else {
      assert from in Closure(from) - Closure(other);
    }
  }
}
