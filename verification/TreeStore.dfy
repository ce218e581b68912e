/** The tree merge as it runs against an object store: subtrees and blobs are read from the
    store on the way down, and the persisting pass writes the merged objects. */
module TreeStore {
  import opened Basics
  import opened Trees
  import opened TreeMerge

  datatype Outcome<+T> = Ok(value: T) | Missing

  /** An entry whose objects are all stored. A link names a commit of another repository. */
  predicate EntryStored(trees: set<Tree>, blobs: set<string>, entry: Entry)
    decreases entry
  {
    match entry
    case File(mode, content) => mode.Submodule? == content.Link? && (content.Blob? ==> content.text in blobs)
    case Dir(tree) =>
      && tree in trees
      && forall name :: name in tree.entries ==> EntryStored(trees, blobs, tree.entries[name])
  }

  predicate Stored(trees: set<Tree>, blobs: set<string>, entry: Option<Entry>)
  {
    entry.None? || EntryStored(trees, blobs, entry.value)
  }

  predicate ChildrenStored(trees: set<Tree>, blobs: set<string>, tree: Tree)
  {
    forall name :: name in tree.entries ==> EntryStored(trees, blobs, tree.entries[name])
  }

  /** Writing more objects keeps stored entries stored. */
  lemma {:induction false} StoredGrows(trees: set<Tree>, blobs: set<string>, trees': set<Tree>, blobs': set<string>,
                                       entry: Entry)
    requires trees <= trees' && blobs <= blobs' && EntryStored(trees, blobs, entry)
    ensures EntryStored(trees', blobs', entry)
    decreases entry
  {
    if entry.Dir? {
      forall name | name in entry.tree.entries ensures EntryStored(trees', blobs', entry.tree.entries[name]) {
        StoredGrows(trees, blobs, trees', blobs', entry.tree.entries[name]);
      }
    }
  }

  predicate InputsStored(trees: set<Tree>, blobs: set<string>, base: Tree, target: Tree, source: Tree)
  {
    forall tree :: tree in [base, target, source] ==> ChildrenStored(trees, blobs, tree)
  }

  lemma {:induction false} InputsGrow(trees: set<Tree>, blobs: set<string>, trees': set<Tree>, blobs': set<string>,
                                      base: Tree, target: Tree, source: Tree)
    requires trees <= trees' && blobs <= blobs' && InputsStored(trees, blobs, base, target, source)
    ensures InputsStored(trees', blobs', base, target, source)
  {
    forall tree, name | tree in [base, target, source] && name in tree.entries
      ensures EntryStored(trees', blobs', tree.entries[name])
    {
      assert ChildrenStored(trees, blobs, tree);
      StoredGrows(trees, blobs, trees', blobs', tree.entries[name]);
    }
  }

  lemma {:induction false} InputStored(trees: set<Tree>, blobs: set<string>, base: Tree, target: Tree, source: Tree,
                                       name: string)
    requires InputsStored(trees, blobs, base, target, source)
    ensures Stored(trees, blobs, Child(base, name)) && Stored(trees, blobs, Child(target, name))
        && Stored(trees, blobs, Child(source, name))
  {
    assert ChildrenStored(trees, blobs, base) && ChildrenStored(trees, blobs, target)
        && ChildrenStored(trees, blobs, source);
  }

  /** Inside a stored directory everything is stored, with or without a directory in the base. */
  lemma {:induction false} NestedStored(trees: set<Tree>, blobs: set<string>, base: Option<Entry>,
                                        target: Option<Entry>, source: Option<Entry>)
    requires Stored(trees, blobs, base) && Stored(trees, blobs, target) && Stored(trees, blobs, source)
    requires AllDirs(base, target, source)
    ensures InputsStored(trees, blobs, TreeOf(base), target.value.tree, source.value.tree)
  {
  }

  class ObjectStore {
    var trees: set<Tree>
    var blobs: set<string>

    constructor ()
      ensures trees == {} && blobs == {}
    {
      trees, blobs := {}, {};
    }

    /** mergeFileEntries: reads up to three blobs and may store one. */
    method MergeFileEntries(tools: Tools, base: Option<Entry>, target: Option<Entry>, source: Option<Entry>,
                            persist: bool)
      returns (merged: Outcome<Option<Entry>>)
      modifies this
      ensures merged.Ok? ==> merged.value == MergeFiles(tools, base, target, source)
      ensures trees == old(trees) && old(blobs) <= blobs && (!persist ==> blobs == old(blobs))
      ensures old(Stored(trees, blobs, base) && Stored(trees, blobs, target) && Stored(trees, blobs, source)) ==>
        merged.Ok? && (persist ==> Stored(trees, blobs, merged.value))
    {
      ghost var trees0, blobs0 := trees, blobs;
      if target.None? || source.None? || target.value.Dir? || source.value.Dir? || (base.Some? && base.value.Dir?) {
        return Ok(None);
      }
      var t, s := target.value, source.value;
      var mode := MergeMode(if base.Some? then Some(base.value.mode) else None, t.mode, s.mode);
      if mode.None? {
        return Ok(None);
      }
      if t.content == s.content {
        return Ok(Some(File(mode.value, t.content)));
      }
      if base.Some? && t.content == base.value.content {
        return Ok(Some(File(mode.value, s.content)));
      }
      if base.Some? && s.content == base.value.content {
        return Ok(Some(File(mode.value, t.content)));
      }
      if !t.mode.IsText() || !s.mode.IsText() || (base.Some? && !base.value.mode.IsText()) {
        return Ok(None);
      }
      var original := Some("");
      if base.Some? {
        if !Readable(base.value.content) {
          return Missing;
        }
        original := Read(tools, base.value.content);
        if original.None? {
          return Ok(None);
        }
      }
      if !Readable(t.content) {
        return Missing;
      }
      var left := Read(tools, t.content);
      if left.None? {
        return Ok(None);
      }
      if !Readable(s.content) {
        return Missing;
      }
      var right := Read(tools, s.content);
      if right.None? {
        return Ok(None);
      }
      var text := tools.text(original.value, left.value, right.value);
      if text.None? {
        return Ok(None);
      }
      if persist {
        blobs := blobs + {text.value};
      }
      merged := Ok(Some(File(mode.value, Blob(text.value))));
    }

    predicate Readable(content: Content)
      reads this
    {
      content.Blob? && content.text in blobs
    }

    predicate AllStored(base: Tree, target: Tree, source: Tree)
      reads this
    {
      InputsStored(trees, blobs, base, target, source)
    }

    /** One turn of the loop of mergeTrees, for one name of the three trees. */
    method MergeName(tools: Tools, base: Tree, target: Tree, source: Tree, name: string, persist: bool)
      returns (part: Outcome<Merged>)
      modifies this
      ensures part.Ok? ==> part.value == MergeEntry(tools, Child(base, name), Child(target, name), Child(source, name))
      ensures old(trees) <= trees && old(blobs) <= blobs
      ensures !persist ==> trees == old(trees) && blobs == old(blobs)
      ensures old(AllStored(base, target, source)) ==>
        part.Ok? && (persist && part.value.conflicts == {} ==> Stored(trees, blobs, part.value.entry))
      decreases target, 0
    {
      var b, t, s := Child(base, name), Child(target, name), Child(source, name);
      if AllStored(base, target, source) {
        InputStored(trees, blobs, base, target, source, name);
        if AllDirs(b, t, s) {
          NestedStored(trees, blobs, b, t, s);
        }
      }
      if t == s {
        return Ok(Merged(t, {}));
      }
      if t == b {
        return Ok(Merged(s, {}));
      }
      if s == b {
        return Ok(Merged(t, {}));
      }
      if AllDirs(b, t, s) {
        if (b.Some? && b.value.tree !in trees) || t.value.tree !in trees || s.value.tree !in trees {
          return Missing;
        }
        part := MergeTrees(tools, TreeOf(b), t.value.tree, s.value.tree, persist);
      } else {
        var file := MergeFileEntries(tools, b, t, s, persist);
        if file.Missing? {
          return Missing;
        }
        part := Ok(if file.value.None? then Merged(None, {[]}) else Merged(file.value, {}));
      }
    }

    /** mergeTrees: the dry pass leaves the store alone, the persisting pass computes the
        same result and leaves every object of a clean result in the store. */
    method MergeTrees(tools: Tools, base: Tree, target: Tree, source: Tree, persist: bool)
      returns (merged: Outcome<Merged>)
      modifies this
      ensures merged.Ok? ==> merged.value == MergeTree(tools, base, target, source)
      ensures old(trees) <= trees && old(blobs) <= blobs
      ensures !persist ==> trees == old(trees) && blobs == old(blobs)
      ensures old(AllStored(base, target, source)) ==>
        merged.Ok? && (persist && merged.value.conflicts == {} ==> Stored(trees, blobs, merged.value.entry))
      decreases target, 1
    {
      var names := Names(base, target, source);
      var parts: map<string, Merged> := map[];
      while names != {}
        invariant names <= Names(base, target, source) && parts.Keys == Names(base, target, source) - names
        invariant PartsMatch(tools, base, target, source, parts)
        invariant old(trees) <= trees && old(blobs) <= blobs
        invariant !persist ==> trees == old(trees) && blobs == old(blobs)
        invariant old(AllStored(base, target, source)) ==> AllStored(base, target, source)
        invariant old(AllStored(base, target, source)) && persist ==> PartsStored(trees, blobs, parts)
      {
        var name :| name in names;
        ghost var trees0, blobs0 := trees, blobs;
        var part := MergeName(tools, base, target, source, name, persist);
        if part.Missing? {
          return Missing;
        }
        if old(AllStored(base, target, source)) {
          InputsGrow(trees0, blobs0, trees, blobs, base, target, source);
          if persist {
            PartsGrow(trees0, blobs0, trees, blobs, parts);
          }
        }
        parts := parts[name := part.value];
        names := names - {name};
      }
      AllPartsMatch(tools, base, target, source, parts);
      merged := Ok(Gather(parts));
      if persist && merged.value.conflicts == {} {
        ghost var trees0 := trees;
        trees := trees + {merged.value.entry.value.tree};
        if old(AllStored(base, target, source)) {
          PartsGrow(trees0, blobs, trees, blobs, parts);
          GatheredStored(trees, blobs, parts);
        }
      }
    }
  }

  lemma {:induction false} AllPartsMatch(tools: Tools, base: Tree, target: Tree, source: Tree, parts: map<string,
                                         Merged>)
    requires parts.Keys == Names(base, target, source) && PartsMatch(tools, base, target, source, parts)
    ensures Gather(parts) == MergeTree(tools, base, target, source)
  {
    assert parts == Parts(tools, base, target, source);
    MergeTreeGathers(tools, base, target, source);
  }

  predicate PartsMatch(tools: Tools, base: Tree, target: Tree, source: Tree, parts: map<string, Merged>)
  {
    forall name :: name in parts ==>
      parts[name] == MergeEntry(tools, Child(base, name), Child(target, name), Child(source, name))
  }

  predicate PartsStored(trees: set<Tree>, blobs: set<string>, parts: map<string, Merged>)
  {
    forall name :: name in parts && parts[name].conflicts == {} ==> Stored(trees, blobs, parts[name].entry)
  }

  lemma {:induction false} PartsGrow(trees: set<Tree>, blobs: set<string>, trees': set<Tree>, blobs': set<string>,
                                     parts: map<string, Merged>)
    requires trees <= trees' && blobs <= blobs' && PartsStored(trees, blobs, parts)
    ensures PartsStored(trees', blobs', parts)
  {
    forall name | name in parts && parts[name].conflicts == {} ensures Stored(trees', blobs', parts[name].entry) {
      if parts[name].entry.Some? {
        StoredGrows(trees, blobs, trees', blobs', parts[name].entry.value);
      }
    }
  }

  lemma {:induction false} GatheredStored(trees: set<Tree>, blobs: set<string>, parts: map<string, Merged>)
    requires PartsStored(trees, blobs, parts)
    requires Gather(parts).conflicts == {} && Gather(parts).entry.value.tree in trees
    ensures Stored(trees, blobs, Gather(parts).entry)
  {
    var tree := Gather(parts).entry.value.tree;
    forall name | name in tree.entries ensures EntryStored(trees, blobs, tree.entries[name]) {
      assert parts[name].conflicts == {} by {
        forall path ensures path !in parts[name].conflicts {
          assert [name] + path !in Gather(parts).conflicts;
        }
      }
    }
  }
}
