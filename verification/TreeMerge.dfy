/** Three-way merge of directory trees (mergeTrees and mergeFileEntries in
    internal/httpapi/merge.go), over the text merge of single files. */
module TreeMerge {
  import opened Basics
  import opened LineEdits
  import opened Trees
  import TextMerge

  /** What merging a file needs: the text merge of three contents, and whether a blob is
      small, valid, non-binary text. */
  datatype Tools = Tools(text: (string, string, string) -> Option<string>, isText: string -> bool)

  function MergeMode(base: Option<Mode>, target: Mode, source: Mode): (mode: Option<Mode>)
  {
    if target == source then Some(target)
    else if Some(target) == base then Some(source)
    else if Some(source) == base then Some(target)
    else None
  }

  /** The text of a blob that may be merged (readMergeBlob). */
  function Read(tools: Tools, content: Content): (text: Option<string>)
  {
    if content.Blob? && tools.isText(content.text) then Some(content.text) else None
  }

  /** mergeFileEntries; None is a conflict. */
  function MergeFiles(tools: Tools, base: Option<Entry>, target: Option<Entry>,
                      source: Option<Entry>): (merged: Option<Entry>)
  {
    if target.None? || source.None? || target.value.Dir? || source.value.Dir? || (base.Some? && base.value.Dir?)
    then None
    else
      var t, s := target.value, source.value;
      var mode := MergeMode(if base.Some? then Some(base.value.mode) else None, t.mode, s.mode);
      if mode.None? then None
      else if t.content == s.content then Some(File(mode.value, t.content))
      else if base.Some? && t.content == base.value.content then Some(File(mode.value, s.content))
      else if base.Some? && s.content == base.value.content then Some(File(mode.value, t.content))
      else if !t.mode.IsText() || !s.mode.IsText() || (base.Some? && !base.value.mode.IsText()) then None
      else
        var original := if base.Some? then Read(tools, base.value.content) else Some("");
        var left, right := Read(tools, t.content), Read(tools, s.content);
        if original.None? || left.None? || right.None? then None
        else
          var text := tools.text(original.value, left.value, right.value);
          if text.None? then None else Some(File(mode.value, Blob(text.value)))
  }

  // ---------------------------------------------------------------------------
  // What a merged file holds

  /** Some two of the three agree, so that there is nothing to mix. */
  predicate OneSided<T(==)>(base: Option<T>, target: T, source: T)
  {
    target == source || base == Some(target) || base == Some(source)
  }

  /** What both sides have is taken, and what one side left alone is taken from the other. */
  predicate Chosen<T(==)>(base: Option<T>, target: T, source: T, merged: T)
  {
    && (target == source ==> merged == target)
    && (base == Some(target) ==> merged == source)
    && (base == Some(source) ==> merged == target)
  }

  /** Two files, and in the base a file or nothing. */
  predicate Files(base: Option<Entry>, target: Option<Entry>, source: Option<Entry>)
  {
    && target.Some? && target.value.File? && source.Some? && source.value.File?
    && (base.Some? ==> base.value.File?)
  }

  function ModeOf(entry: Option<Entry>): (mode: Option<Mode>)
    requires entry.Some? ==> entry.value.File?
  {
    if entry.Some? then Some(entry.value.mode) else None
  }

  function ContentOf(entry: Option<Entry>): (content: Option<Content>)
    requires entry.Some? ==> entry.value.File?
  {
    if entry.Some? then Some(entry.value.content) else None
  }

  /** A file whose content may be merged as text; where there is no file the text is empty. */
  predicate IsTextFile(tools: Tools, entry: Option<Entry>)
  {
    entry.Some? ==>
      && entry.value.File? && entry.value.mode.IsText()
      && entry.value.content.Blob? && tools.isText(entry.value.content.text)
  }

  function TextOf(entry: Option<Entry>): (text: string)
    requires entry.Some? ==> entry.value.File? && entry.value.content.Blob?
  {
    if entry.Some? then entry.value.content.text else ""
  }

  /** The contents differ pairwise and are texts that merge without conflict. */
  predicate TextsMerge(tools: Tools, base: Option<Entry>, target: Option<Entry>, source: Option<Entry>)
  {
    && IsTextFile(tools, base) && IsTextFile(tools, target) && IsTextFile(tools, source)
    && tools.text(TextOf(base), TextOf(target), TextOf(source)).Some?
  }

  /** Exactly when three entries merge as files. */
  predicate FilesMerge(tools: Tools, base: Option<Entry>, target: Option<Entry>, source: Option<Entry>)
  {
    && Files(base, target, source)
    && OneSided(ModeOf(base), target.value.mode, source.value.mode)
    && (OneSided(ContentOf(base), target.value.content, source.value.content)
        || TextsMerge(tools, base, target, source))
  }

  /** What the merge of three files is: mode and content each from the side that changed it, and where
      both sides changed the content, the merge of the texts. */
  predicate IsFileMerge(tools: Tools, base: Option<Entry>, target: Option<Entry>, source: Option<Entry>, merged: Entry)
    requires FilesMerge(tools, base, target, source)
  {
    && merged.File?
    && Chosen(ModeOf(base), target.value.mode, source.value.mode, merged.mode)
    && if OneSided(ContentOf(base), target.value.content, source.value.content)
       then Chosen(ContentOf(base), target.value.content, source.value.content, merged.content)
       else merged.content == Blob(tools.text(TextOf(base), TextOf(target), TextOf(source)).value)
  }

  /** Files merge exactly under that condition and to exactly that file. */
  lemma {:induction false} FileMergeExactly(tools: Tools, base: Option<Entry>, target: Option<Entry>,
                                            source: Option<Entry>,
                                            merged: Entry)
    ensures MergeFiles(tools, base, target, source).Some? <==> FilesMerge(tools, base, target, source)
    ensures MergeFiles(tools, base, target, source) == Some(merged) <==>
              FilesMerge(tools, base, target, source) && IsFileMerge(tools, base, target, source, merged)
  {
  }

  /** The merged entry, if any, and the paths that could not be merged. */
  datatype Merged = Merged(entry: Option<Entry>, conflicts: set<Path>)

  predicate PairwiseDifferent(base: Option<Entry>, target: Option<Entry>, source: Option<Entry>)
  {
    target != source && target != base && source != base
  }

  /** Both sides hold a directory, and so does the base unless it has nothing there. */
  predicate AllDirs(base: Option<Entry>, target: Option<Entry>, source: Option<Entry>)
  {
    && target.Some? && target.value.Dir? && source.Some? && source.value.Dir?
    && (base.None? || base.value.Dir?)
  }

  predicate Descends(base: Option<Entry>, target: Option<Entry>, source: Option<Entry>)
  {
    PairwiseDifferent(base, target, source) && AllDirs(base, target, source)
  }

  function TreeOf(entry: Option<Entry>): (tree: Tree)
  {
    if entry.Some? && entry.value.Dir? then entry.value.tree else EmptyTree
  }

  function Names(base: Tree, target: Tree, source: Tree): (names: set<string>)
  {
    base.entries.Keys + target.entries.Keys + source.entries.Keys
  }

  /** The cases of one name that need no descent. */
  function Settle(tools: Tools, base: Option<Entry>, target: Option<Entry>, source: Option<Entry>): (merged: Merged)
  {
    if target == source then Merged(target, {})
    else if target == base then Merged(source, {})
    else if source == base then Merged(target, {})
    else
      var file := MergeFiles(tools, base, target, source);
      if file.None? then Merged(None, {[]}) else Merged(file, {})
  }

  function MergeTree(tools: Tools, base: Tree, target: Tree, source: Tree): (merged: Merged)
    decreases target
  {
    Gather(map name | name in Names(base, target, source) ::
      var b, t, s := Child(base, name), Child(target, name), Child(source, name);
      if Descends(b, t, s) then MergeTree(tools, TreeOf(b), t.value.tree, s.value.tree)
      else Settle(tools, b, t, s))
  }

  /** The tree of the merged names, with the conflicts prefixed by their name. */
  function Gather(parts: map<string, Merged>): (merged: Merged)
  {
    Merged(Some(Dir(Tree(map name | name in parts && parts[name].entry.Some? :: parts[name].entry.value))),
           set name, path | name in parts && path in parts[name].conflicts :: [name] + path)
  }

  /** The merge of what three trees hold under one name. */
  function MergeEntry(tools: Tools, base: Option<Entry>, target: Option<Entry>, source: Option<Entry>): (merged: Merged)
  {
    if Descends(base, target, source) then MergeTree(tools, TreeOf(base), target.value.tree, source.value.tree)
    else Settle(tools, base, target, source)
  }

  function Parts(tools: Tools, base: Tree, target: Tree, source: Tree): (parts: map<string, Merged>)
  {
    map name | name in Names(base, target, source) ::
      MergeEntry(tools, Child(base, name), Child(target, name), Child(source, name))
  }

  lemma {:induction false} MergeTreeGathers(tools: Tools, base: Tree, target: Tree, source: Tree)
    ensures MergeTree(tools, base, target, source) == Gather(Parts(tools, base, target, source))
  {
    var parts := map name | name in Names(base, target, source) ::
      var b, t, s := Child(base, name), Child(target, name), Child(source, name);
      if Descends(b, t, s) then MergeTree(tools, TreeOf(b), t.value.tree, s.value.tree)
      else Settle(tools, b, t, s);
    assert parts == Parts(tools, base, target, source);
  }

  /** What a merged tree holds under a name is the merge of what the three trees hold there. */
  lemma {:induction false} MergeTreeAt(tools: Tools, base: Tree, target: Tree, source: Tree, name: string)
    ensures
      var whole := MergeTree(tools, base, target, source);
      var part := MergeEntry(tools, Child(base, name), Child(target, name), Child(source, name));
      && whole.entry.Some? && whole.entry.value.Dir?
      && Child(whole.entry.value.tree, name) == part.entry
      && forall path :: [name] + path in whole.conflicts <==> path in part.conflicts
  {
    MergeTreeGathers(tools, base, target, source);
    var whole := MergeTree(tools, base, target, source);
    var part := MergeEntry(tools, Child(base, name), Child(target, name), Child(source, name));
    if name !in Names(base, target, source) {
      assert part == Merged(None, {});
    }
    forall path ensures [name] + path in whole.conflicts <==> path in part.conflicts {
      assert ([name] + path)[0] == name && ([name] + path)[1..] == path;
      if [name] + path in whole.conflicts {
        var n, p :| n in Names(base, target, source) && [name] + path == [n] + p
          && p in MergeEntry(tools, Child(base, n), Child(target, n), Child(source, n)).conflicts;
        assert ([n] + p)[0] == n && ([n] + p)[1..] == p;
      }
    }
  }

  // ---------------------------------------------------------------------------
  // A clean merge refines the pointwise merge of the flattened trees

  /** The three-way merge of what is at one path, a file or nothing. */
  predicate IsPointMerge(tools: Tools, base: Option<Entry>, target: Option<Entry>, source: Option<Entry>,
                         merged: Option<Entry>)
  {
    if target == source || target == base || source == base then
      && (target == source ==> merged == target)
      && (target == base ==> merged == source)
      && (source == base ==> merged == target)
    else
      && merged.Some? && FilesMerge(tools, base, target, source)
      && IsFileMerge(tools, base, target, source, merged.value)
  }

  lemma {:induction false} SettledIsPoint(tools: Tools, base: Option<Entry>, target: Option<Entry>,
                                          source: Option<Entry>,
                                          path: Path)
    requires !Descends(base, target, source) && MergeEntry(tools, base, target, source).conflicts == {}
    ensures IsPointMerge(tools, FileAt(base, path), FileAt(target, path), FileAt(source, path),
                         FileAt(MergeEntry(tools, base, target, source).entry, path))
  {
    var merged := MergeEntry(tools, base, target, source).entry;
    if PairwiseDifferent(base, target, source) {
      FileMergeExactly(tools, base, target, source, merged.value);
    }
  }

  lemma {:induction false} CleanBelow(tools: Tools, base: Tree, target: Tree, source: Tree, name: string)
    requires MergeTree(tools, base, target, source).conflicts == {}
    ensures MergeEntry(tools, Child(base, name), Child(target, name), Child(source, name)).conflicts == {}
  {
    MergeTreeAt(tools, base, target, source, name);
    var part := MergeEntry(tools, Child(base, name), Child(target, name), Child(source, name));
    forall path ensures path !in part.conflicts {
      assert [name] + path !in MergeTree(tools, base, target, source).conflicts;
    }
  }

  lemma {:induction false} FileBelow(entry: Option<Entry>, path: Path)
    requires path != [] && (entry.Some? ==> entry.value.Dir?)
    ensures FileAt(entry, path) == FileAt(Child(TreeOf(entry), path[0]), path[1..])
  {
    if entry.None? {
      assert EntryAt(None, path[1..]).None?;
    }
  }

  /** Directories hold no file at their own place. */
  lemma {:induction false} DirsArePoint(tools: Tools, base: Option<Entry>, target: Option<Entry>, source: Option<Entry>)
    requires Descends(base, target, source)
    ensures IsPointMerge(tools, FileAt(base, []), FileAt(target, []), FileAt(source, []),
                         FileAt(MergeEntry(tools, base, target, source).entry, []))
  {
    MergeTreeAt(tools, TreeOf(base), TreeOf(target), TreeOf(source), "");
  }

  /** Without conflicts, every path of the merged tree holds the three-way merge of what the base,
      target and source hold at that path. */
  lemma {:induction false} CleanMergeIsPointwise(tools: Tools, base: Option<Entry>, target: Option<Entry>,
                                                 source: Option<Entry>, path: Path)
    requires MergeEntry(tools, base, target, source).conflicts == {}
    ensures IsPointMerge(tools, FileAt(base, path), FileAt(target, path), FileAt(source, path),
                         FileAt(MergeEntry(tools, base, target, source).entry, path))
    decreases |path|
  {
    if !Descends(base, target, source) {
      SettledIsPoint(tools, base, target, source, path);
    } else if path == [] {
      DirsArePoint(tools, base, target, source);
    } else {
      var b, t, s, name := TreeOf(base), TreeOf(target), TreeOf(source), path[0];
      MergeTreeAt(tools, b, t, s, name);
      CleanBelow(tools, b, t, s, name);
      CleanMergeIsPointwise(tools, Child(b, name), Child(t, name), Child(s, name), path[1..]);
      FileBelow(base, path);
      FileBelow(target, path);
      FileBelow(source, path);
      FileBelow(MergeEntry(tools, base, target, source).entry, path);
    }
  }

  // ---------------------------------------------------------------------------
  // Exactly which paths conflict

  /** Directories on both sides, and in the base unless absent there, all the way to a path. */
  predicate DirsAbove(base: Option<Entry>, target: Option<Entry>, source: Option<Entry>, path: Path)
    decreases |path|
  {
    path == [] || (
      && AllDirs(base, target, source)
      && DirsAbove(Child(TreeOf(base), path[0]), Child(target.value.tree, path[0]),
          Child(source.value.tree, path[0]), path[1..]))
  }

  /** The entries at a path differ pairwise and cannot be merged there. */
  predicate ClashAt(tools: Tools, base: Option<Entry>, target: Option<Entry>, source: Option<Entry>, path: Path)
  {
    var b, t, s := EntryAt(base, path), EntryAt(target, path), EntryAt(source, path);
    && DirsAbove(base, target, source, path)
    && PairwiseDifferent(b, t, s)
    && !AllDirs(b, t, s)
    && !FilesMerge(tools, b, t, s)
  }

  /** The conflicts of a merge are exactly the clashing paths. */
  lemma {:induction false} ConflictsAreClashes(tools: Tools, base: Option<Entry>, target: Option<Entry>,
                                               source: Option<Entry>, path: Path)
    ensures path in MergeEntry(tools, base, target, source).conflicts <==> ClashAt(tools, base, target, source, path)
    decreases |path|
  {
    if path == [] {
      if Descends(base, target, source) {
        NoEmptyConflict(tools, TreeOf(base), target.value.tree, source.value.tree);
      }
    } else if AllDirs(base, target, source) {
      var name := path[0];
      var b, t, s := TreeOf(base), target.value.tree, source.value.tree;
      assert path == [name] + path[1..];
      if PairwiseDifferent(base, target, source) {
        MergeTreeAt(tools, b, t, s, name);
        ConflictsAreClashes(tools, Child(b, name), Child(t, name), Child(s, name), path[1..]);
      }
    }
  }

  lemma {:induction false} NoEmptyConflict(tools: Tools, base: Tree, target: Tree, source: Tree)
    ensures [] !in MergeTree(tools, base, target, source).conflicts
  {
    forall name, path: Path ensures [name] + path != [] {
      assert |[name] + path| > 0;
    }
  }

  // ---------------------------------------------------------------------------
  // Symmetry

  /** The text merge is the line merge over some diff that is valid on every input. */
  ghost predicate MergesLines(tools: Tools, diff: (string, string) -> seq<DiffRun>)
  {
    && (forall base: string, version: string ::
          ValidScript(diff(base, version), SplitLines(base), SplitLines(version)))
    && (forall base: string, target: string, source: string ::
          tools.text(base, target, source)
            == TextMerge.MergeText(base, target, source, diff(base, target), diff(base, source)))
  }

  predicate SymmetricAt(tools: Tools, base: string, target: string, source: string)
  {
    tools.text(base, target, source) == tools.text(base, source, target)
  }

  /** Where both sides changed a file's text, the merged text is the line merge of the three, on any
      valid diff. */
  lemma {:induction false} MergedTextIsLineMerge(tools: Tools, diff: (string, string) -> seq<DiffRun>,
                                                 base: Option<Entry>,
                                                 target: Option<Entry>, source: Option<Entry>, merged: Entry)
    requires MergesLines(tools, diff) && MergeFiles(tools, base, target, source) == Some(merged)
    requires Files(base, target, source) && !OneSided(ContentOf(base), target.value.content, source.value.content)
    ensures IsTextFile(tools, base) && IsTextFile(tools, target) && IsTextFile(tools, source) && merged.content.Blob?
    ensures
      var original, left, right := TextOf(base), TextOf(target), TextOf(source);
      && ValidScript(diff(original, left), SplitLines(original), SplitLines(left))
      && ValidScript(diff(original, right), SplitLines(original), SplitLines(right))
      && TextMerge.MergeText(original, left, right, diff(original, left), diff(original, right))
          == Some(merged.content.text)
  {
    FileMergeExactly(tools, base, target, source, merged);
  }

  lemma {:induction false} TextSymmetric(tools: Tools, diff: (string, string) -> seq<DiffRun>)
    requires MergesLines(tools, diff)
    ensures forall base, target, source :: SymmetricAt(tools, base, target, source)
  {
    forall base, target, source ensures SymmetricAt(tools, base, target, source) {
      TextMerge.MergeTextSymmetric(base, target, source, diff(base, target), diff(base, source));
    }
  }

  lemma {:induction false} MergeFilesSymmetric(tools: Tools, base: Option<Entry>, target: Option<Entry>,
                                               source: Option<Entry>)
    requires forall base, target, source :: SymmetricAt(tools, base, target, source)
    ensures MergeFiles(tools, base, target, source) == MergeFiles(tools, base, source, target)
  {
    if target.Some? && source.Some? && target.value.File? && source.value.File? && (base.None? || base.value.File?) {
      var original := if base.Some? then Read(tools, base.value.content) else Some("");
      var left, right := Read(tools, target.value.content), Read(tools, source.value.content);
      if original.Some? && left.Some? && right.Some? {
        assert SymmetricAt(tools, original.value, left.value, right.value);
      }
    }
  }

  predicate EntrySymmetric(tools: Tools, base: Option<Entry>, target: Option<Entry>, source: Option<Entry>)
  {
    MergeEntry(tools, base, target, source) == MergeEntry(tools, base, source, target)
  }

  lemma {:induction false} SettleSymmetric(tools: Tools, base: Option<Entry>, target: Option<Entry>,
                                           source: Option<Entry>)
    requires forall base, target, source :: SymmetricAt(tools, base, target, source)
    requires !Descends(base, target, source)
    ensures EntrySymmetric(tools, base, target, source)
  {
    MergeFilesSymmetric(tools, base, target, source);
  }

  lemma {:induction false} NamesSymmetric(tools: Tools, base: Tree, target: Tree, source: Tree)
    requires forall name :: name in Names(base, target, source) ==>
      EntrySymmetric(tools, Child(base, name), Child(target, name), Child(source, name))
    ensures MergeTree(tools, base, target, source) == MergeTree(tools, base, source, target)
  {
    MergeTreeGathers(tools, base, target, source);
    MergeTreeGathers(tools, base, source, target);
    SameParts(tools, base, target, source);
  }

  lemma {:induction false} SameParts(tools: Tools, base: Tree, target: Tree, source: Tree)
    requires forall name :: name in Names(base, target, source) ==>
      EntrySymmetric(tools, Child(base, name), Child(target, name), Child(source, name))
    ensures Parts(tools, base, target, source) == Parts(tools, base, source, target)
  {
    assert Names(base, target, source) == Names(base, source, target);
  }

  lemma {:induction false} PartsSymmetric(tools: Tools, base: Tree, target: Tree, source: Tree)
    requires forall base, target, source :: SymmetricAt(tools, base, target, source)
    ensures MergeTree(tools, base, target, source) == MergeTree(tools, base, source, target)
    decreases target
  {
    forall name | name in Names(base, target, source)
      ensures EntrySymmetric(tools, Child(base, name), Child(target, name), Child(source, name))
    {
      var b, t, s := Child(base, name), Child(target, name), Child(source, name);
      if Descends(b, t, s) {
        PartsSymmetric(tools, TreeOf(b), t.value.tree, s.value.tree);
      } else {
        SettleSymmetric(tools, b, t, s);
      }
    }
    NamesSymmetric(tools, base, target, source);
  }

  /** Swapping target and source changes neither the merged tree nor the conflicts. */
  lemma {:induction false} MergeTreeSymmetric(tools: Tools, diff: (string, string) -> seq<DiffRun>, base: Tree,
                                              target: Tree, source: Tree)
    requires MergesLines(tools, diff)
    ensures MergeTree(tools, base, target, source) == MergeTree(tools, base, source, target)
  {
    TextSymmetric(tools, diff);
    PartsSymmetric(tools, base, target, source);
  }
}
