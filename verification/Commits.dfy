/** The commit graph. A commit's hash covers its parents, so a commit is a value built from
    its parents, and the graph below a commit is finite and acyclic by construction. */
module Commits {

  datatype Commit = Commit(id: nat, parents: seq<Commit>)

  /** `to` is `from` or one of its ancestors, as go-git's IsAncestor answers it. */
  predicate Reaches(from: Commit, to: Commit)
    decreases from
  {
    from == to || exists i :: 0 <= i < |from.parents| && Reaches(from.parents[i], to)
  }

  function Height(commit: Commit): (h: nat)
    decreases commit, |commit.parents| + 1
  {
    1 + Tallest(commit, |commit.parents|)
  }

  /** The greatest height among the first parents. */
  function Tallest(commit: Commit, count: nat): (h: nat)
    requires count <= |commit.parents|
    decreases commit, count
  {
    if count == 0 then 0
    else
      var last, rest := Height(commit.parents[count - 1]), Tallest(commit, count - 1);
      if last < rest then rest else last
  }

  lemma {:induction false} TallestCovers(commit: Commit, count: nat, i: nat)
    requires i < count <= |commit.parents|
    ensures Height(commit.parents[i]) <= Tallest(commit, count)
    decreases count
  {
    if i < count - 1 {
      TallestCovers(commit, count - 1, i);
    }
  }

  lemma {:induction false} ParentLower(commit: Commit, i: nat)
    requires i < |commit.parents|
    ensures Height(commit.parents[i]) < Height(commit)
  {
    TallestCovers(commit, |commit.parents|, i);
  }

  lemma {:induction false} ReachesLower(from: Commit, to: Commit)
    requires Reaches(from, to)
    ensures from == to || Height(to) < Height(from)
    decreases from
  {
    if from != to {
      var i :| 0 <= i < |from.parents| && Reaches(from.parents[i], to);
      ParentLower(from, i);
      ReachesLower(from.parents[i], to);
    }
  }

  lemma {:induction false} ReachesTransitive(a: Commit, b: Commit, c: Commit)
    requires Reaches(a, b) && Reaches(b, c)
    ensures Reaches(a, c)
    decreases a
  {
    if a != b {
      var i :| 0 <= i < |a.parents| && Reaches(a.parents[i], b);
      ReachesTransitive(a.parents[i], b, c);
    }
  }

  /** No commit reaches one of its own descendants: the graph has no cycle. */
  lemma {:induction false} ParentCannotReach(child: Commit, parent: Commit)
    requires parent in child.parents
    ensures Reaches(child, parent) && !Reaches(parent, child)
  {
    var i :| 0 <= i < |child.parents| && child.parents[i] == parent;
    assert Reaches(child.parents[i], parent);
    ParentLower(child, i);
    if Reaches(parent, child) {
      ReachesLower(parent, child);
    }
  }
}
