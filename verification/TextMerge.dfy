/** Three-way merge of the text of one file (mergeTextLines in internal/httpapi/merge.go):
    the edits of both sides are checked for overlap, sorted and applied in one pass. */
module TextMerge {
  import opened Basics
  import opened LineEdits

  predicate EditsOverlap(left: LineEdit, right: LineEdit)
  {
    var leftInsert, rightInsert := left.start == left.end, right.start == right.end;
    if leftInsert && rightInsert then left.start == right.start
    else if leftInsert then right.start < left.start < right.end
    else if rightInsert then left.start < right.start < left.end
    else left.start < right.end && right.start < left.end
  }

  /** The sort order of the combined edits. */
  predicate Before(left: LineEdit, right: LineEdit)
  {
    left.start < right.start || (left.start == right.start && left.end < right.end)
  }

  /** Two sides conflict when two of their edits differ and overlap. */
  predicate Conflicting(target: seq<LineEdit>, source: seq<LineEdit>)
  {
    exists t, s :: t in target && s in source && t != s && EditsOverlap(t, s)
  }

  /** The source edits that the target does not make as well. */
  function Fresh(source: seq<LineEdit>, target: seq<LineEdit>): (edits: seq<LineEdit>)
  {
    if source == [] then []
    else if source[|source| - 1] in target then Fresh(source[..|source| - 1], target)
    else Fresh(source[..|source| - 1], target) + [source[|source| - 1]]
  }

  function InsertSorted(edit: LineEdit, edits: seq<LineEdit>): (sorted: seq<LineEdit>)
  {
    if edits == [] then [edit]
    else if Before(edit, edits[0]) then [edit] + edits
    else [edits[0]] + InsertSorted(edit, edits[1..])
  }

  function StableSort(edits: seq<LineEdit>): (sorted: seq<LineEdit>)
  {
    if edits == [] then []
    else InsertSorted(edits[|edits| - 1], StableSort(edits[..|edits| - 1]))
  }

  lemma {:induction false} FreshMembers(source: seq<LineEdit>, target: seq<LineEdit>)
    ensures forall e :: e in Fresh(source, target) <==> e in source && e !in target
  {
    if source != [] {
      FreshMembers(source[..|source| - 1], target);
    }
  }

  lemma {:induction false} InsertMembers(edit: LineEdit, edits: seq<LineEdit>)
    ensures multiset(InsertSorted(edit, edits)) == multiset(edits) + multiset{edit}
  {
    if edits != [] && !Before(edit, edits[0]) {
      InsertMembers(edit, edits[1..]);
      assert edits == [edits[0]] + edits[1..];
    }
  }

  /** Sorting neither adds, drops nor repeats an edit. */
  lemma {:induction false} SortMembers(edits: seq<LineEdit>)
    ensures multiset(StableSort(edits)) == multiset(edits)
  {
    if edits != [] {
      var init, last := edits[..|edits| - 1], edits[|edits| - 1];
      SortMembers(init);
      InsertMembers(last, StableSort(init));
      assert multiset(edits) == multiset(init) + multiset{last} by {
        assert edits == init + [last];
      }
    }
  }

  lemma {:induction false} InSorted(edits: seq<LineEdit>)
    ensures forall e :: e in StableSort(edits) <==> e in edits
  {
    SortMembers(edits);
    forall e ensures e in StableSort(edits) <==> e in edits {
      assert e in StableSort(edits) <==> e in multiset(StableSort(edits));
    }
  }

  lemma {:induction false} InInserted(edit: LineEdit, edits: seq<LineEdit>)
    ensures forall e :: e in InsertSorted(edit, edits) <==> e == edit || e in edits
  {
    InsertMembers(edit, edits);
    forall e ensures e in InsertSorted(edit, edits) <==> e == edit || e in edits {
      assert e in InsertSorted(edit, edits) <==> e in multiset(InsertSorted(edit, edits));
    }
  }

  predicate Forward(edits: seq<LineEdit>)
  {
    forall e :: e in edits ==> e.start <= e.end
  }

  function MergeEdits(base: seq<Line>, target: seq<LineEdit>, source: seq<LineEdit>): (merged: Option<seq<Line>>)
    requires Forward(target) && Forward(source)
  {
    if Conflicting(target, source) then None
    else
      FreshMembers(source, target);
      InSorted(target + Fresh(source, target));
      ApplyEdits(base, 0, StableSort(target + Fresh(source, target)))
  }

  /** mergeTextLines, with the two diffs against the base as arguments. */
  function MergeText(base: string, target: string, source: string,
                     targetDiff: seq<DiffRun>, sourceDiff: seq<DiffRun>): (merged: Option<string>)
    requires ValidScript(targetDiff, SplitLines(base), SplitLines(target))
    requires ValidScript(sourceDiff, SplitLines(base), SplitLines(source))
  {
    if target == source then Some(target)
    else if target == base then Some(source)
    else if source == base then Some(target)
    else
      VersionEditsChained(SplitLines(base), SplitLines(target), targetDiff);
      VersionEditsChained(SplitLines(base), SplitLines(source), sourceDiff);
      var lines := MergeEdits(SplitLines(base), ScriptEdits(targetDiff), ScriptEdits(sourceDiff));
      if lines.None? then None else Some(Concat(lines.value))
  }

  // ---------------------------------------------------------------------------
  // The combined edits are laid out side by side

  predicate Precedes(left: LineEdit, right: LineEdit)
  {
    Before(left, right) && left.end <= right.start
  }

  predicate LaidOut(edits: seq<LineEdit>)
  {
    forall i, j :: 0 <= i < j < |edits| ==> Precedes(edits[i], edits[j])
  }

  predicate Apart(edits: seq<LineEdit>)
  {
    forall i, j :: 0 <= i < j < |edits| ==> Precedes(edits[i], edits[j]) || Precedes(edits[j], edits[i])
  }

  /** Distinct edits that do not overlap are apart, one wholly before the other. */
  lemma {:induction false} DisjointIsApart(left: LineEdit, right: LineEdit)
    requires left.start <= left.end && right.start <= right.end
    requires left != right && !EditsOverlap(left, right)
    ensures Precedes(left, right) || Precedes(right, left)
  {
  }

  lemma {:induction false} ChainedLaidOut(after: int, edits: seq<LineEdit>, n: int)
    requires Chained(after, edits, n)
    ensures LaidOut(edits)
    ensures forall e :: e in edits ==> after < e.start <= e.end <= n
    decreases |edits|
  {
    if edits != [] {
      ChainedLaidOut(edits[0].end, edits[1..], n);
      forall i, j | 0 <= i < j < |edits| ensures Precedes(edits[i], edits[j]) {
        assert edits[j] == edits[1..][j - 1];
        if i > 0 {
          assert edits[i] == edits[1..][i - 1];
        }
      }
    }
  }

  /** Two edits of one version never overlap. */
  lemma {:induction false} OneVersionNoOverlap(edits: seq<LineEdit>, left: LineEdit, right: LineEdit, n: int)
    requires Chained(-1, edits, n) && left in edits && right in edits && left != right
    ensures !EditsOverlap(left, right)
  {
    ChainedSeparates(-1, edits, n);
    var i :| 0 <= i < |edits| && edits[i] == left;
    var j :| 0 <= j < |edits| && edits[j] == right;
    if i < j {
      assert edits[i].end < edits[j].start;
    } else {
      assert edits[j].end < edits[i].start;
    }
  }

  lemma {:induction false} ChainedSeparates(after: int, edits: seq<LineEdit>, n: int)
    requires Chained(after, edits, n)
    ensures forall i :: 0 <= i < |edits| ==> after < edits[i].start <= edits[i].end
    ensures forall i, j :: 0 <= i < j < |edits| ==> edits[i].end < edits[j].start
    decreases |edits|
  {
    if edits != [] {
      ChainedSeparates(edits[0].end, edits[1..], n);
      forall i, j | 0 <= i < j < |edits| ensures edits[i].end < edits[j].start {
        assert edits[j] == edits[1..][j - 1];
        if i > 0 {
          assert edits[i] == edits[1..][i - 1];
        }
      }
    }
  }

  lemma {:induction false} InsertKeepsLayout(edit: LineEdit, edits: seq<LineEdit>)
    requires LaidOut(edits)
    requires forall e :: e in edits ==> Precedes(edit, e) || Precedes(e, edit)
    ensures LaidOut(InsertSorted(edit, edits))
  {
    if edits != [] && !Before(edit, edits[0]) {
      InsertKeepsLayout(edit, edits[1..]);
      var rest := InsertSorted(edit, edits[1..]);
      InInserted(edit, edits[1..]);
      forall e | e in rest ensures Precedes(edits[0], e) {
        if e != edit {
          var k :| 0 <= k < |edits[1..]| && edits[1..][k] == e;
          assert e == edits[k + 1];
        }
      }
      ConsLaidOut(edits[0], rest);
    } else if edits != [] {
      forall e | e in edits ensures Precedes(edit, e) {
        var k :| 0 <= k < |edits| && edits[k] == e;
      }
      ConsLaidOut(edit, edits);
    }
  }

  lemma {:induction false} ConsLaidOut(first: LineEdit, rest: seq<LineEdit>)
    requires LaidOut(rest) && forall e :: e in rest ==> Precedes(first, e)
    ensures LaidOut([first] + rest)
  {
    forall i, j | 0 <= i < j < |[first] + rest| ensures Precedes(([first] + rest)[i], ([first] + rest)[j]) {
      assert ([first] + rest)[j] == rest[j - 1];
      if i > 0 {
        assert ([first] + rest)[i] == rest[i - 1];
      }
    }
  }

  lemma {:induction false} SortLaysOut(edits: seq<LineEdit>)
    requires Apart(edits)
    ensures LaidOut(StableSort(edits))
  {
    if edits != [] {
      var n := |edits| - 1;
      var init := edits[..n];
      SortLaysOut(init);
      InSorted(init);
      forall e | e in StableSort(init) ensures Precedes(edits[n], e) || Precedes(e, edits[n]) {
        var k :| 0 <= k < |init| && init[k] == e;
        assert e == edits[k];
      }
      InsertKeepsLayout(edits[n], StableSort(init));
    }
  }

  /** A laid-out list is determined by its set of edits. */
  lemma {:induction false} LayoutUnique(left: seq<LineEdit>, right: seq<LineEdit>)
    requires LaidOut(left) && LaidOut(right)
    requires forall e :: e in left <==> e in right
    ensures left == right
  {
    HeadLeast(left);
    HeadLeast(right);
    if left != [] {
      TailsAgree(left, right);
      LayoutUnique(left[1..], right[1..]);
      assert left == [left[0]] + left[1..] && right == [right[0]] + right[1..];
    }
  }

  lemma {:induction false} HeadLeast(edits: seq<LineEdit>)
    requires LaidOut(edits)
    ensures edits != [] ==> edits[0] in edits
    ensures forall e :: e in edits ==> e == edits[0] || Before(edits[0], e)
  {
    forall e | e in edits ensures e == edits[0] || Before(edits[0], e) {
      var k :| 0 <= k < |edits| && edits[k] == e;
      assert k > 0 ==> Precedes(edits[0], edits[k]);
    }
  }

  lemma {:induction false} TailsAgree(left: seq<LineEdit>, right: seq<LineEdit>)
    requires LaidOut(left) && LaidOut(right) && left != [] && right != [] && left[0] == right[0]
    requires forall e :: e in left <==> e in right
    ensures LaidOut(left[1..]) && LaidOut(right[1..])
    ensures forall e :: e in left[1..] <==> e in right[1..]
  {
    forall e ensures e in left[1..] <==> e in right[1..] {
      HeadOnce(left, e);
      HeadOnce(right, e);
    }
  }

  lemma {:induction false} HeadOnce(edits: seq<LineEdit>, e: LineEdit)
    requires LaidOut(edits) && edits != []
    ensures e in edits[1..] <==> e in edits && e != edits[0]
  {
    if e in edits[1..] {
      var k :| 0 <= k < |edits[1..]| && edits[1..][k] == e;
      assert Precedes(edits[0], edits[k + 1]);
    }
    if e in edits && e != edits[0] {
      var k :| 0 <= k < |edits| && edits[k] == e;
      assert edits[1..][k - 1] == e;
    }
  }

  lemma {:induction false} LaidOutIsTight(position: int, edits: seq<LineEdit>, n: int)
    requires LaidOut(edits) && position <= n
    requires forall e :: e in edits ==> position <= e.start <= e.end <= n
    ensures Tight(position, edits, n)
    decreases |edits|
  {
    if edits != [] {
      assert edits[0] in edits;
      forall e | e in edits[1..] ensures edits[0].end <= e.start <= e.end <= n {
        var k :| 0 <= k < |edits[1..]| && edits[1..][k] == e;
        assert e == edits[k + 1] && e in edits;
        assert Precedes(edits[0], edits[k + 1]);
      }
      LaidOutIsTight(edits[0].end, edits[1..], n);
    }
  }

  lemma {:induction false} FreshLaidOut(source: seq<LineEdit>, target: seq<LineEdit>)
    requires LaidOut(source)
    ensures LaidOut(Fresh(source, target))
  {
    if source != [] {
      var n := |source| - 1;
      FreshLaidOut(source[..n], target);
      FreshMembers(source[..n], target);
      var init := Fresh(source[..n], target);
      forall e | e in init ensures Precedes(e, source[n]) {
        var k :| 0 <= k < n && source[..n][k] == e;
        assert Precedes(source[k], source[n]);
      }
      if source[n] !in target {
        var all := init + [source[n]];
        forall i, j | 0 <= i < j < |all| ensures Precedes(all[i], all[j]) {
          assert all[i] == init[i];
        }
      }
    }
  }

  /** Without conflict, sorting lays the combined edits out inside the base. */
  lemma {:induction false} CombinedLaidOut(target: seq<LineEdit>, source: seq<LineEdit>, n: int)
    requires Chained(-1, target, n) && Chained(-1, source, n) && 0 <= n
    requires !Conflicting(target, source)
    ensures LaidOut(StableSort(target + Fresh(source, target)))
    ensures Tight(0, StableSort(target + Fresh(source, target)), n)
    ensures Forward(StableSort(target + Fresh(source, target)))
  {
    ChainedLaidOut(-1, target, n);
    ChainedLaidOut(-1, source, n);
    FreshLaidOut(source, target);
    FreshMembers(source, target);
    InSorted(target + Fresh(source, target));
    var extra := Fresh(source, target);
    var all := target + extra;
    forall i, j | 0 <= i < j < |all| ensures Precedes(all[i], all[j]) || Precedes(all[j], all[i]) {
      if i < |target| <= j {
        assert all[i] in target && all[j] in extra;
        DisjointIsApart(all[i], all[j]);
      } else if j < |target| {
        assert Precedes(target[i], target[j]);
      } else {
        assert Precedes(extra[i - |target|], extra[j - |target|]);
      }
    }
    SortLaysOut(all);
    LaidOutIsTight(0, StableSort(all), n);
  }

  // ---------------------------------------------------------------------------
  // Main results

  /** Of two edits exactly one comes first: they touch no common line, the one does not lie inside the
      other, and they are not insertions at one place, which have no order. */
  predicate Ordered(left: LineEdit, right: LineEdit)
  {
    (left.end <= right.start) != (right.end <= left.start)
  }

  lemma {:induction false} OverlapExactly(left: LineEdit, right: LineEdit)
    requires left.start <= left.end && right.start <= right.end
    ensures EditsOverlap(left, right) <==> !Ordered(left, right)
  {
  }

  lemma {:induction false} ConflictingExactly(target: seq<LineEdit>, source: seq<LineEdit>)
    requires Forward(target) && Forward(source)
    ensures !Conflicting(target, source) <==> forall t, s :: t in target && s in source ==> t == s || Ordered(t, s)
  {
    forall t, s | t in target && s in source ensures EditsOverlap(t, s) <==> !Ordered(t, s) {
      OverlapExactly(t, s);
    }
  }

  /** The merge is clean exactly when of any two different edits one comes first: once the overlap
      test has passed, the position and bounds check of the single pass never fails. */
  lemma {:induction false} CleanIffNoOverlap(base: seq<Line>, target: seq<LineEdit>, source: seq<LineEdit>)
    requires Chained(-1, target, |base|) && Chained(-1, source, |base|)
    ensures Forward(target) && Forward(source)
    ensures MergeEdits(base, target, source).Some? <==>
              forall t, s :: t in target && s in source ==> t == s || Ordered(t, s)
    ensures MergeEdits(base, target, source).Some? <==> !Conflicting(target, source)
    ensures MergeEdits(base, target, source).Some? ==>
      var combined := StableSort(target + Fresh(source, target));
      Tight(0, combined, |base|) && MergeEdits(base, target, source) == Some(Splice(base, 0, combined))
  {
    ChainedLaidOut(-1, target, |base|);
    ChainedLaidOut(-1, source, |base|);
    ConflictingExactly(target, source);
    if !Conflicting(target, source) {
      CombinedLaidOut(target, source, |base|);
      ApplyIsSplice(base, 0, StableSort(target + Fresh(source, target)));
    }
  }

  lemma {:induction false} OverlapSymmetric(left: LineEdit, right: LineEdit)
    ensures EditsOverlap(left, right) == EditsOverlap(right, left)
  {
  }

  lemma {:induction false} ConflictSymmetric(target: seq<LineEdit>, source: seq<LineEdit>)
    ensures Conflicting(target, source) == Conflicting(source, target)
  {
    if Conflicting(target, source) {
      var t, s :| t in target && s in source && t != s && EditsOverlap(t, s);
      OverlapSymmetric(t, s);
    } else if Conflicting(source, target) {
      var s, t :| s in source && t in target && s != t && EditsOverlap(s, t);
      OverlapSymmetric(s, t);
    }
  }

  lemma {:induction false} CombinedSymmetric(target: seq<LineEdit>, source: seq<LineEdit>, n: int)
    requires Chained(-1, target, n) && Chained(-1, source, n) && 0 <= n
    requires !Conflicting(target, source)
    ensures StableSort(target + Fresh(source, target)) == StableSort(source + Fresh(target, source))
  {
    ConflictSymmetric(target, source);
    CombinedLaidOut(target, source, n);
    CombinedLaidOut(source, target, n);
    FreshMembers(source, target);
    FreshMembers(target, source);
    InSorted(target + Fresh(source, target));
    InSorted(source + Fresh(target, source));
    LayoutUnique(StableSort(target + Fresh(source, target)), StableSort(source + Fresh(target, source)));
  }

  /** Swapping target and source changes neither the verdict nor the merged text. */
  lemma {:induction false} MergeTextSymmetric(base: string, target: string, source: string,
                                              targetDiff: seq<DiffRun>, sourceDiff: seq<DiffRun>)
    requires ValidScript(targetDiff, SplitLines(base), SplitLines(target))
    requires ValidScript(sourceDiff, SplitLines(base), SplitLines(source))
    ensures MergeText(base, target, source, targetDiff, sourceDiff)
         == MergeText(base, source, target, sourceDiff, targetDiff)
  {
    var t, s := ScriptEdits(targetDiff), ScriptEdits(sourceDiff);
    VersionEditsChained(SplitLines(base), SplitLines(target), targetDiff);
    VersionEditsChained(SplitLines(base), SplitLines(source), sourceDiff);
    MergeEditsSymmetric(SplitLines(base), t, s);
  }

  lemma {:induction false} MergeEditsSymmetric(base: seq<Line>, target: seq<LineEdit>, source: seq<LineEdit>)
    requires Chained(-1, target, |base|) && Chained(-1, source, |base|)
    requires Forward(target) && Forward(source)
    ensures MergeEdits(base, target, source) == MergeEdits(base, source, target)
  {
    ConflictSymmetric(target, source);
    if !Conflicting(target, source) {
      CombinedSymmetric(target, source, |base|);
    }
  }

  // ---------------------------------------------------------------------------
  // The shortcuts

  lemma {:induction false} SortedAlready(edits: seq<LineEdit>, n: int)
    requires Chained(-1, edits, n)
    ensures StableSort(edits) == edits
  {
    ChainedLaidOut(-1, edits, n);
    assert Apart(edits);
    SortLaysOut(edits);
    InSorted(edits);
    LayoutUnique(StableSort(edits), edits);
  }

  lemma {:induction false} FreshOfNothing(source: seq<LineEdit>)
    ensures Fresh(source, []) == source && Fresh([], source) == []
  {
    if source != [] {
      FreshOfNothing(source[..|source| - 1]);
    }
  }

  lemma {:induction false} NothingFresh(source: seq<LineEdit>, target: seq<LineEdit>)
    requires forall e :: e in source ==> e in target
    ensures Fresh(source, target) == []
  {
    if source != [] {
      NothingFresh(source[..|source| - 1], target);
    }
  }

  /** Merging one version's edits with none, or with themselves, gives that version. */
  lemma {:induction false} OneVersionMerges(base: string, version: string, diff: seq<DiffRun>)
    requires ValidScript(diff, SplitLines(base), SplitLines(version))
    ensures
      var edits := ScriptEdits(diff);
      && Forward(edits)
      && MergeEdits(SplitLines(base), edits, []) == Some(SplitLines(version))
      && MergeEdits(SplitLines(base), [], edits) == Some(SplitLines(version))
      && MergeEdits(SplitLines(base), edits, edits) == Some(SplitLines(version))
  {
    var edits, lines := ScriptEdits(diff), SplitLines(base);
    VersionEditsChained(lines, SplitLines(version), diff);
    ExtractThenApply(lines, SplitLines(version), diff);
    SortedAlready(edits, |lines|);
    FreshOfNothing(edits);
    NothingFresh(edits, edits);
    assert edits + [] == edits && [] + edits == edits;
    assert !Conflicting(edits, edits) by {
      forall t, s | t in edits && s in edits && t != s ensures !EditsOverlap(t, s) {
        OneVersionNoOverlap(edits, t, s, |lines|);
      }
    }
  }

  /** The text that the edits alone give, without the shortcuts for texts that are equal. */
  function EditedText(base: string, targetDiff: seq<DiffRun>, sourceDiff: seq<DiffRun>): (text: Option<string>)
    requires Forward(ScriptEdits(targetDiff)) && Forward(ScriptEdits(sourceDiff))
  {
    var lines := MergeEdits(SplitLines(base), ScriptEdits(targetDiff), ScriptEdits(sourceDiff));
    if lines.None? then None else Some(Concat(lines.value))
  }

  /** The diff of equal texts has no edits, and equal texts have equal diffs. */
  predicate DiffsAgree(base: string, target: string, source: string, targetDiff: seq<DiffRun>,
                       sourceDiff: seq<DiffRun>)
  {
    && (target == base ==> ScriptEdits(targetDiff) == [])
    && (source == base ==> ScriptEdits(sourceDiff) == [])
    && (target == source ==> targetDiff == sourceDiff)
  }

  /** An unchanged side loses nothing of the other, equal sides stay as they are, and otherwise the edits
      decide; in fact the edits alone would give the same in every case, so the shortcuts save work and
      change nothing. */
  lemma {:induction false} ShortcutsAgree(base: string, target: string, source: string,
                                          targetDiff: seq<DiffRun>, sourceDiff: seq<DiffRun>)
    requires ValidScript(targetDiff, SplitLines(base), SplitLines(target))
    requires ValidScript(sourceDiff, SplitLines(base), SplitLines(source))
    ensures Forward(ScriptEdits(targetDiff)) && Forward(ScriptEdits(sourceDiff))
    ensures
      var merged := MergeText(base, target, source, targetDiff, sourceDiff);
      && (target == source ==> merged == Some(target))
      && (target == base ==> merged == Some(source))
      && (source == base ==> merged == Some(target))
      && (DiffsAgree(base, target, source, targetDiff, sourceDiff) ==>
            merged == EditedText(base, targetDiff, sourceDiff))
  {
    OneVersionMerges(base, target, targetDiff);
    OneVersionMerges(base, source, sourceDiff);
    SplitJoins(target);
    SplitJoins(source);
  }

  // ---------------------------------------------------------------------------
  // One pass equals two passes

  function Gain(edit: LineEdit): (delta: int)
  {
    |edit.replacement| - (edit.end - edit.start)
  }

  /** How far the applied edits move the place of another edit of the same base. */
  function Displacement(applied: seq<LineEdit>, edit: LineEdit): (delta: int)
  {
    if applied == [] then 0
    else (if Before(applied[0], edit) then Gain(applied[0]) else 0) + Displacement(applied[1..], edit)
  }

  function Shift(edit: LineEdit, delta: int): (moved: LineEdit)
  {
    LineEdit(edit.start + delta, edit.end + delta, edit.replacement)
  }

  function ShiftThrough(applied: seq<LineEdit>, edits: seq<LineEdit>): (moved: seq<LineEdit>)
  {
    if edits == [] then []
    else [Shift(edits[0], Displacement(applied, edits[0]))] + ShiftThrough(applied, edits[1..])
  }

  function Kept(edits: seq<LineEdit>, side: seq<LineEdit>): (kept: seq<LineEdit>)
  {
    if edits == [] then []
    else (if edits[0] in side then [edits[0]] else []) + Kept(edits[1..], side)
  }

  function Others(edits: seq<LineEdit>, side: seq<LineEdit>): (others: seq<LineEdit>)
  {
    if edits == [] then []
    else (if edits[0] in side then [] else [edits[0]]) + Others(edits[1..], side)
  }

  lemma {:induction false} SideMembers(edits: seq<LineEdit>, side: seq<LineEdit>)
    ensures forall e :: e in Kept(edits, side) <==> e in edits && e in side
    ensures forall e :: e in Others(edits, side) <==> e in edits && e !in side
  {
    if edits != [] {
      SideMembers(edits[1..], side);
    }
  }

  /** The edits outside one side, shifted by what that side has gained so far. */
  function Walk(edits: seq<LineEdit>, side: seq<LineEdit>, delta: int): (moved: seq<LineEdit>)
  {
    if edits == [] then []
    else if edits[0] in side then Walk(edits[1..], side, delta + Gain(edits[0]))
    else [Shift(edits[0], delta)] + Walk(edits[1..], side, delta)
  }

  lemma {:induction false} StepInside(edits: seq<LineEdit>, side: seq<LineEdit>, delta: int)
    requires edits != [] && edits[0] in side
    ensures Kept(edits, side) == [edits[0]] + Kept(edits[1..], side)
    ensures Others(edits, side) == Others(edits[1..], side)
    ensures Walk(edits, side, delta) == Walk(edits[1..], side, delta + Gain(edits[0]))
  {
  }

  lemma {:induction false} StepOutside(edits: seq<LineEdit>, side: seq<LineEdit>, delta: int)
    requires edits != [] && edits[0] !in side
    ensures Kept(edits, side) == Kept(edits[1..], side)
    ensures Others(edits, side) == [edits[0]] + Others(edits[1..], side)
    ensures Walk(edits, side, delta) == [Shift(edits[0], delta)] + Walk(edits[1..], side, delta)
  {
  }

  lemma {:induction false} KeptTight(position: int, edits: seq<LineEdit>, side: seq<LineEdit>, n: int)
    requires Tight(position, edits, n)
    ensures Tight(position, Kept(edits, side), n)
    decreases |edits|
  {
    if edits != [] {
      KeptTight(edits[0].end, edits[1..], side, n);
      if edits[0] in side {
        assert Kept(edits, side)[1..] == Kept(edits[1..], side);
      } else {
        assert Kept(edits, side) == Kept(edits[1..], side);
        TightWeaken(edits[0].end, position, Kept(edits[1..], side), n);
      }
    }
  }

  /** Moving the start of a splice back over untouched lines adds just those lines. */
  lemma {:induction false} SpliceFromEarlier(lines: seq<Line>, earlier: int, position: int, edits: seq<LineEdit>)
    requires 0 <= earlier <= position && Tight(position, edits, |lines|)
    ensures Tight(earlier, edits, |lines|) && position <= |lines|
    ensures Splice(lines, earlier, edits) == lines[earlier..position] + Splice(lines, position, edits)
  {
    TightForward(position, edits, |lines|);
    if edits == [] {
      assert lines[earlier..] == lines[earlier..position] + lines[position..];
    } else {
      assert edits[0] in edits;
      assert lines[earlier..edits[0].start] == lines[earlier..position] + lines[position..edits[0].start];
      Regroup(lines[earlier..position], lines[position..edits[0].start], edits[0].replacement,
              Splice(lines, edits[0].end, edits[1..]));
    }
  }

  lemma {:induction false} SuffixSplits(lines: seq<Line>, place: int, head: seq<Line>, tail: seq<Line>)
    requires 0 <= place <= |lines| && lines[place..] == head + tail
    ensures place + |head| <= |lines|
    ensures lines[place..place + |head|] == head && lines[place + |head|..] == tail
  {
    assert lines[place..place + |head|] == (head + tail)[..|head|];
    assert lines[place + |head|..] == (head + tail)[|head|..];
  }

  lemma {:induction false} WalkSplices(base: seq<Line>, mid: seq<Line>, position: int, delta: int,
                                       edits: seq<LineEdit>, side: seq<LineEdit>)
    requires 0 <= position && Tight(position, edits, |base|)
    requires Tight(position, Kept(edits, side), |base|)
    requires 0 <= position + delta <= |mid|
    requires mid[position + delta..] == Splice(base, position, Kept(edits, side))
    ensures Tight(position + delta, Walk(edits, side, delta), |mid|)
    ensures Splice(mid, position + delta, Walk(edits, side, delta)) == Splice(base, position, edits)
    decreases |edits|
  {
    if edits != [] {
      if edits[0] in side {
        WalkKept(base, mid, position, delta, edits, side);
      } else {
        WalkOther(base, mid, position, delta, edits, side);
      }
    }
  }

  lemma {:induction false} WalkKept(base: seq<Line>, mid: seq<Line>, position: int, delta: int,
                                    edits: seq<LineEdit>, side: seq<LineEdit>)
    requires edits != [] && edits[0] in side
    requires 0 <= position && Tight(position, edits, |base|)
    requires Tight(position, Kept(edits, side), |base|)
    requires 0 <= position + delta <= |mid|
    requires mid[position + delta..] == Splice(base, position, Kept(edits, side))
    ensures Tight(position + delta, Walk(edits, side, delta), |mid|)
    ensures Splice(mid, position + delta, Walk(edits, side, delta)) == Splice(base, position, edits)
    decreases |edits|, 0
  {
    var edit, rest := edits[0], edits[1..];
    KeptTight(edit.end, rest, side, |base|);
    StepInside(edits, side, delta);
    AppliedSplits(base, mid, position, position + delta, edit, Kept(rest, side));
    WalkSplices(base, mid, edit.end, delta + Gain(edit), rest, side);
    JoinInside(base, mid, position, position + delta, edit, rest, Walk(rest, side, delta + Gain(edit)));
    assert edits == [edit] + rest;
  }

  lemma {:induction false} WalkOther(base: seq<Line>, mid: seq<Line>, position: int, delta: int,
                                     edits: seq<LineEdit>, side: seq<LineEdit>)
    requires edits != [] && edits[0] !in side
    requires 0 <= position && Tight(position, edits, |base|)
    requires Tight(position, Kept(edits, side), |base|)
    requires 0 <= position + delta <= |mid|
    requires mid[position + delta..] == Splice(base, position, Kept(edits, side))
    ensures Tight(position + delta, Walk(edits, side, delta), |mid|)
    ensures Splice(mid, position + delta, Walk(edits, side, delta)) == Splice(base, position, edits)
    decreases |edits|, 0
  {
    var edit, rest := edits[0], edits[1..];
    KeptTight(edit.end, rest, side, |base|);
    StepOutside(edits, side, delta);
    var shifted := Shift(edit, delta);
    UntouchedSplits(base, mid, position, position + delta, edit, shifted, Kept(rest, side));
    WalkSplices(base, mid, edit.end, delta, rest, side);
    JoinOutside(base, mid, position, position + delta, edit, shifted, rest, Walk(rest, side, delta));
    assert edits == [edit] + rest;
  }

  lemma {:induction false} JoinInside(base: seq<Line>, mid: seq<Line>, position: int, place: int, edit: LineEdit,
                                      rest: seq<LineEdit>, moved: seq<LineEdit>)
    requires 0 <= position <= edit.start <= edit.end <= |base| && Tight(edit.end, rest, |base|)
    requires
      var place' := place + edit.end - position + Gain(edit);
      && 0 <= place <= place' <= |mid|
      && mid[place..place'] == base[position..edit.start] + edit.replacement
      && Tight(place', moved, |mid|) && Splice(mid, place', moved) == Splice(base, edit.end, rest)
    ensures Tight(place, moved, |mid|) && Tight(position, [edit] + rest, |base|)
    ensures Splice(mid, place, moved) == Splice(base, position, [edit] + rest)
  {
    var place' := place + edit.end - position + Gain(edit);
    SpliceFromEarlier(mid, place, place', moved);
    SpliceCons(base, position, edit, rest);
    SamePieces(mid[place..place'], [], Splice(mid, place', moved),
               base[position..edit.start] + edit.replacement, [], Splice(base, edit.end, rest));
  }

  lemma {:induction false} SamePieces<T>(a: seq<T>, b: seq<T>, c: seq<T>, x: seq<T>, y: seq<T>, z: seq<T>)
    requires a == x && b == y && c == z
    ensures a + b + c == x + y + z && a + c == x + z
  {
  }

  lemma {:induction false} JoinOutside(base: seq<Line>, mid: seq<Line>, position: int, place: int, edit: LineEdit,
                                       shifted: LineEdit,
                                       rest: seq<LineEdit>, moved: seq<LineEdit>)
    requires 0 <= position <= edit.start <= edit.end <= |base| && Tight(edit.end, rest, |base|)
    requires 0 <= place <= shifted.start <= shifted.end <= |mid| && Tight(shifted.end, moved, |mid|)
    requires mid[place..shifted.start] == base[position..edit.start]
    requires shifted.replacement == edit.replacement
    requires Splice(mid, shifted.end, moved) == Splice(base, edit.end, rest)
    ensures Tight(place, [shifted] + moved, |mid|) && Tight(position, [edit] + rest, |base|)
    ensures Splice(mid, place, [shifted] + moved) == Splice(base, position, [edit] + rest)
  {
    SpliceCons(mid, place, shifted, moved);
    SpliceCons(base, position, edit, rest);
  }

  lemma {:induction false} AppliedSplits(base: seq<Line>, mid: seq<Line>, position: int, place: int, edit: LineEdit,
                                         rest: seq<LineEdit>)
    requires 0 <= position <= edit.start <= edit.end <= |base| && Tight(edit.end, rest, |base|)
    requires Tight(position, [edit] + rest, |base|)
    requires 0 <= place <= |mid| && mid[place..] == Splice(base, position, [edit] + rest)
    ensures
      var place' := place + edit.end - position + Gain(edit);
      && place <= place' <= |mid|
      && mid[place'..] == Splice(base, edit.end, rest)
      && mid[place..place'] == base[position..edit.start] + edit.replacement
  {
    SpliceCons(base, position, edit, rest);
    SuffixSplits(mid, place, base[position..edit.start] + edit.replacement, Splice(base, edit.end, rest));
  }

  lemma {:induction false} UntouchedSplits(base: seq<Line>, mid: seq<Line>, position: int, place: int, edit: LineEdit,
                                           shifted: LineEdit, rest: seq<LineEdit>)
    requires 0 <= position <= edit.start <= edit.end <= |base| && Tight(edit.end, rest, |base|)
    requires Tight(position, rest, |base|)
    requires 0 <= place <= |mid| && mid[place..] == Splice(base, position, rest)
    requires shifted == Shift(edit, place - position)
    ensures place <= shifted.start <= shifted.end <= |mid|
    ensures mid[shifted.end..] == Splice(base, edit.end, rest)
    ensures mid[place..shifted.start] == base[position..edit.start]
  {
    SpliceFromEarlier(base, position, edit.end, rest);
    var tail := Splice(base, edit.end, rest);
    SuffixSplits(mid, place, base[position..edit.end], tail);
    assert base[position..edit.end] + tail == base[position..edit.start] + (base[edit.start..edit.end] + tail);
    SuffixSplits(mid, place, base[position..edit.start], base[edit.start..edit.end] + tail);
  }

  function TotalGain(edits: seq<LineEdit>): (delta: int)
  {
    if edits == [] then 0 else Gain(edits[0]) + TotalGain(edits[1..])
  }

  lemma {:induction false} DisplacementSplits(done: seq<LineEdit>, ahead: seq<LineEdit>, edit: LineEdit)
    requires forall e :: e in done ==> Before(e, edit)
    requires forall e :: e in ahead ==> !Before(e, edit)
    ensures Displacement(done + ahead, edit) == TotalGain(done)
  {
    if done != [] {
      assert (done + ahead)[1..] == done[1..] + ahead;
      DisplacementSplits(done[1..], ahead, edit);
    } else {
      assert done + ahead == ahead;
      NothingBefore(ahead, edit);
    }
  }

  lemma {:induction false} NothingBefore(edits: seq<LineEdit>, edit: LineEdit)
    requires forall e :: e in edits ==> !Before(e, edit)
    ensures Displacement(edits, edit) == 0
  {
    if edits != [] {
      NothingBefore(edits[1..], edit);
    }
  }

  lemma {:induction false} TotalGainSnoc(edits: seq<LineEdit>, edit: LineEdit)
    ensures TotalGain(edits + [edit]) == TotalGain(edits) + Gain(edit)
  {
    if edits != [] {
      assert (edits + [edit])[1..] == edits[1..] + [edit];
      TotalGainSnoc(edits[1..], edit);
    }
  }

  predicate AllBefore(done: seq<LineEdit>, edits: seq<LineEdit>)
  {
    forall d, e :: d in done && e in edits ==> Before(d, e)
  }

  lemma {:induction false} AdvanceBefore(done: seq<LineEdit>, edits: seq<LineEdit>)
    requires LaidOut(edits) && edits != [] && AllBefore(done, edits)
    ensures LaidOut(edits[1..])
    ensures AllBefore(done, edits[1..]) && AllBefore(done + [edits[0]], edits[1..])
    ensures forall d :: d in done ==> Before(d, edits[0])
    ensures forall e :: e in edits[1..] ==> Before(edits[0], e)
  {
    forall e | e in edits[1..] ensures Before(edits[0], e) {
      var k :| 0 <= k < |edits[1..]| && edits[1..][k] == e;
      assert Precedes(edits[0], edits[k + 1]);
    }
  }

  lemma {:induction false} MoveOver<T>(done: seq<T>, next: T, rest: seq<T>)
    ensures done + ([next] + rest) == (done + [next]) + rest
  {
  }

  /** The running shift of the walk is the displacement through the whole side. */
  lemma {:induction false} WalkIsShift(done: seq<LineEdit>, edits: seq<LineEdit>, side: seq<LineEdit>)
    requires LaidOut(edits)
    requires side == done + Kept(edits, side)
    requires AllBefore(done, edits)
    ensures Walk(edits, side, TotalGain(done)) == ShiftThrough(side, Others(edits, side))
    decreases |edits|
  {
    if edits != [] {
      var first, rest := edits[0], edits[1..];
      AdvanceBefore(done, edits);
      if first in side {
        StepInside(edits, side, TotalGain(done));
        MoveOver(done, first, Kept(rest, side));
        TotalGainSnoc(done, first);
        WalkIsShift(done + [first], rest, side);
      } else {
        StepOutside(edits, side, TotalGain(done));
        WalkIsShift(done, rest, side);
        assert forall e :: e in Kept(rest, side) ==> !Before(e, first) by {
          SideMembers(rest, side);
        }
        DisplacementSplits(done, Kept(rest, side), first);
      }
    }
  }

  lemma {:induction false} KeptLaidOut(edits: seq<LineEdit>, side: seq<LineEdit>)
    requires LaidOut(edits)
    ensures LaidOut(Kept(edits, side)) && LaidOut(Others(edits, side))
  {
    if edits != [] {
      KeptLaidOut(edits[1..], side);
      SideMembers(edits[1..], side);
      forall e | e in edits[1..] ensures Precedes(edits[0], e) {
        var k :| 0 <= k < |edits[1..]| && edits[1..][k] == e;
        assert e == edits[k + 1];
      }
      if edits[0] in side {
        ConsLaidOut(edits[0], Kept(edits[1..], side));
        assert Others(edits, side) == Others(edits[1..], side);
      } else {
        ConsLaidOut(edits[0], Others(edits[1..], side));
        assert Kept(edits, side) == Kept(edits[1..], side);
      }
    }
  }

  /** A clean merge is the target's edits applied to the base, and then the source's own
      edits applied to that, each moved to where the target's edits have put its place. */
  lemma {:induction false} MergeIsTargetThenSource(base: seq<Line>, target: seq<LineEdit>, source: seq<LineEdit>)
    requires Chained(-1, target, |base|) && Chained(-1, source, |base|)
    requires !Conflicting(target, source)
    ensures Forward(target) && Forward(source)
    ensures ApplyEdits(base, 0, target).Some?
    ensures
      var mid := ApplyEdits(base, 0, target).value;
      var moved := ShiftThrough(target, Fresh(source, target));
      Forward(moved) && ApplyEdits(mid, 0, moved) == MergeEdits(base, target, source)
  {
    var combined := StableSort(target + Fresh(source, target));
    CleanIffNoOverlap(base, target, source);
    CombinedParts(target, source, |base|);
    ApplyIsSplice(base, 0, target);
    var mid := Splice(base, 0, target);
    assert mid[0..] == mid;
    WalkSplices(base, mid, 0, 0, combined, target);
    var moved := ShiftThrough(target, Fresh(source, target));
    TightForward(0, moved, |mid|);
    ApplyIsSplice(mid, 0, moved);
  }

  /** The combined edits are the target's and the shifted rest, interleaved. */
  lemma {:induction false} CombinedParts(target: seq<LineEdit>, source: seq<LineEdit>, n: int)
    requires Chained(-1, target, n) && Chained(-1, source, n) && 0 <= n
    requires !Conflicting(target, source)
    ensures
      var combined := StableSort(target + Fresh(source, target));
      && Tight(0, combined, n) && Tight(0, target, n)
      && Kept(combined, target) == target
      && Walk(combined, target, 0) == ShiftThrough(target, Fresh(source, target))
  {
    var combined := StableSort(target + Fresh(source, target));
    CombinedLaidOut(target, source, n);
    ChainedLaidOut(-1, target, n);
    ChainedLaidOut(-1, source, n);
    FreshLaidOut(source, target);
    FreshMembers(source, target);
    InSorted(target + Fresh(source, target));
    SidesOf(combined, target, Fresh(source, target));
    KeptTight(0, combined, target, n);
    WalkIsShift([], combined, target);
  }

  /** A laid-out list taken apart along one of its two sides. */
  lemma {:induction false} SidesOf(combined: seq<LineEdit>, side: seq<LineEdit>, rest: seq<LineEdit>)
    requires LaidOut(combined) && LaidOut(side) && LaidOut(rest)
    requires forall e :: e in combined <==> e in side || e in rest
    requires forall e :: e in rest ==> e !in side
    ensures Kept(combined, side) == side == [] + Kept(combined, side)
    ensures Others(combined, side) == rest
  {
    KeptLaidOut(combined, side);
    SideMembers(combined, side);
    LayoutUnique(Kept(combined, side), side);
    LayoutUnique(Others(combined, side), rest);
  }

  /** ... and equally the source's edits first and then the target's own edits. */
  lemma {:induction false} MergeIsSourceThenTarget(base: seq<Line>, target: seq<LineEdit>, source: seq<LineEdit>)
    requires Chained(-1, target, |base|) && Chained(-1, source, |base|)
    requires !Conflicting(target, source)
    ensures Forward(target) && Forward(source)
    ensures ApplyEdits(base, 0, source).Some?
    ensures
      var mid := ApplyEdits(base, 0, source).value;
      var moved := ShiftThrough(source, Fresh(target, source));
      Forward(moved) && ApplyEdits(mid, 0, moved) == MergeEdits(base, target, source)
  {
    ConflictSymmetric(target, source);
    CombinedSymmetric(target, source, |base|);
    MergeIsTargetThenSource(base, source, target);
  }

  // ---------------------------------------------------------------------------
  // The loops of the implementation

  /** The source edits that no target edit duplicates, or None at the first overlap. */
  method CombineEdits(target: seq<LineEdit>, source: seq<LineEdit>, ghost n: int)
    returns (combined: Option<seq<LineEdit>>)
    requires Chained(-1, target, n)
    ensures combined == if Conflicting(target, source) then None else Some(target + Fresh(source, target))
  {
    var all := target;
    for i := 0 to |source|
      invariant all == target + Fresh(source[..i], target)
      invariant !Conflicting(target, source[..i])
    {
      var s := source[i];
      assert source[..i + 1] == source[..i] + [s];
      var duplicate := false;
      for j := 0 to |target|
        invariant !duplicate
        invariant forall k :: 0 <= k < j ==> target[k] != s && !EditsOverlap(target[k], s)
      {
        if target[j] == s {
          duplicate := true;
          break;
        }
        if EditsOverlap(target[j], s) {
          assert target[j] in target && s in source;
          return None;
        }
      }
      forall t | t in target && t != s ensures !EditsOverlap(t, s) {
        if duplicate {
          OneVersionNoOverlap(target, t, s, n);
        }
      }
      assert Fresh(source[..i + 1], target)
          == if s in target then Fresh(source[..i], target) else Fresh(source[..i], target) + [s];
      if !duplicate {
        all := all + [s];
      }
    }
    assert source[..|source|] == source;
    combined := Some(all);
  }

  lemma {:induction false} WrittenStep(lines: seq<Line>, position: int, edits: seq<LineEdit>, written: string)
    requires 0 <= position <= |lines| && Forward(edits) && edits != []
    requires position <= edits[0].start <= edits[0].end <= |lines|
    ensures ApplyEdits(lines, position, edits).Some? <==> ApplyEdits(lines, edits[0].end, edits[1..]).Some?
    ensures ApplyEdits(lines, position, edits).Some? ==>
      written + Concat(ApplyEdits(lines, position, edits).value)
        == (written + Concat(lines[position..edits[0].start]) + Concat(edits[0].replacement))
           + Concat(ApplyEdits(lines, edits[0].end, edits[1..]).value)
  {
    var edit := edits[0];
    var rest := ApplyEdits(lines, edit.end, edits[1..]);
    if rest.Some? {
      ConcatAppend(lines[position..edit.start] + edit.replacement, rest.value);
      ConcatAppend(lines[position..edit.start], edit.replacement);
      Regroup(written, Concat(lines[position..edit.start]), Concat(edit.replacement), Concat(rest.value));
    }
  }

  /** One pass over the base that writes untouched lines and replacements. */
  method WriteEdited(lines: seq<Line>, edits: seq<LineEdit>) returns (text: Option<string>)
    requires Forward(edits)
    ensures text == match ApplyEdits(lines, 0, edits) { case None => None case Some(all) => Some(Concat(all)) }
  {
    var written := "";
    var position := 0;
    for i := 0 to |edits|
      invariant 0 <= position <= |lines|
      invariant
        match ApplyEdits(lines, position, edits[i..]) {
          case None => ApplyEdits(lines, 0, edits).None?
          case Some(rest) =>
            && ApplyEdits(lines, 0, edits).Some?
            && Concat(ApplyEdits(lines, 0, edits).value) == written + Concat(rest)
        }
    {
      var edit := edits[i];
      assert edits[i..][0] == edit && edits[i..][1..] == edits[i + 1..];
      if edit.start < position || edit.start > |lines| || edit.end > |lines| {
        return None;
      }
      WrittenStep(lines, position, edits[i..], written);
      written := written + Concat(lines[position..edit.start]) + Concat(edit.replacement);
      position := edit.end;
    }
    text := Some(written + Concat(lines[position..]));
  }

  method MergeTextLines(base: string, target: string, source: string,
                        targetDiff: seq<DiffRun>, sourceDiff: seq<DiffRun>) returns (merged: Option<string>)
    requires ValidScript(targetDiff, SplitLines(base), SplitLines(target))
    requires ValidScript(sourceDiff, SplitLines(base), SplitLines(source))
    ensures merged == MergeText(base, target, source, targetDiff, sourceDiff)
  {
    if target == source {
      return Some(target);
    }
    if target == base {
      return Some(source);
    }
    if source == base {
      return Some(target);
    }
    VersionEditsChained(SplitLines(base), SplitLines(target), targetDiff);
    VersionEditsChained(SplitLines(base), SplitLines(source), sourceDiff);
    var targetEdits := TextLineEdits(targetDiff);
    var sourceEdits := TextLineEdits(sourceDiff);
    var combined := CombineEdits(targetEdits, sourceEdits, |SplitLines(base)|);
    if combined.None? {
      return None;
    }
    FreshMembers(sourceEdits, targetEdits);
    InSorted(combined.value);
    var lines := SplitTextLines(base);
    merged := WriteEdited(lines, StableSort(combined.value));
  }
}
