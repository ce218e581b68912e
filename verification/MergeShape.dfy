/** When a merge leaves an empty directory behind (mergeTrees in internal/httpapi/merge.go): a merged
    subtree is stored and entered even if nothing is left in it. */
module MergeShape {
  import opened Basics
  import opened Trees
  import opened TreeMerge

  /** An entry is no empty directory and holds none. */
  ghost predicate Shapely(entry: Option<Entry>)
  {
    entry.Some? && entry.value.Dir? ==> entry.value.tree != EmptyTree && NoEmptyDirectory(entry.value.tree)
  }

  /** What is deleted on one side is untouched or deleted on the other. */
  predicate Deleted(base: Option<Entry>, target: Option<Entry>, source: Option<Entry>)
  {
    (target.None? && (source.None? || source == base)) || (source.None? && target == base)
  }

  /** Both sides changed a directory, and together they deleted everything in it. */
  ghost predicate Emptied(base: Option<Entry>, target: Option<Entry>, source: Option<Entry>)
  {
    && Descends(base, target, source)
    && forall name :: Deleted(Child(TreeOf(base), name), Child(TreeOf(target), name), Child(TreeOf(source), name))
  }

  /** ... at a path below, through directories that both sides changed. */
  ghost predicate EmptiedAt(base: Option<Entry>, target: Option<Entry>, source: Option<Entry>, path: Path)
    decreases |path|
  {
    if path == [] then Emptied(base, target, source)
    else
      var b, t, s := TreeOf(base), TreeOf(target), TreeOf(source);
      && Descends(base, target, source)
      && EmptiedAt(Child(b, path[0]), Child(t, path[0]), Child(s, path[0]), path[1..])
  }

  ghost predicate EmptiedSomewhere(base: Option<Entry>, target: Option<Entry>, source: Option<Entry>)
  {
    exists path :: EmptiedAt(base, target, source, path)
  }

  lemma {:induction false} MergedAway(tools: Tools, base: Option<Entry>, target: Option<Entry>, source: Option<Entry>)
    requires MergeEntry(tools, base, target, source).conflicts == {}
    ensures MergeEntry(tools, base, target, source).entry.None? <==> Deleted(base, target, source)
  {
    if Descends(base, target, source) {
      MergeTreeAt(tools, TreeOf(base), TreeOf(target), TreeOf(source), "");
    }
  }

  lemma {:induction false} EmptyExactly(tree: Tree)
    ensures tree == EmptyTree <==> forall name :: Child(tree, name).None?
  {
    if forall name :: Child(tree, name).None? {
      forall name ensures name !in tree.entries {
        assert Child(tree, name).None?;
      }
      assert tree.entries == map[];
    }
  }

  lemma {:induction false} ShapelyExactly(tree: Tree)
    ensures NoEmptyDirectory(tree) <==> forall name :: Shapely(Child(tree, name))
  {
    if forall name :: Shapely(Child(tree, name)) {
      forall name | name in tree.entries && tree.entries[name].Dir?
        ensures tree.entries[name].tree != EmptyTree && NoEmptyDirectory(tree.entries[name].tree) {
        assert Shapely(Child(tree, name));
      }
    }
  }

  /** A merged directory is empty exactly if both sides together deleted everything in it. */
  lemma {:induction false} MergedEmpty(tools: Tools, base: Option<Entry>, target: Option<Entry>, source: Option<Entry>)
    requires Descends(base, target, source) && MergeEntry(tools, base, target, source).conflicts == {}
    ensures
      var merged := MergeEntry(tools, base, target, source).entry;
      merged.Some? && merged.value.Dir? && (merged.value.tree == EmptyTree <==> Emptied(base, target, source))
  {
    var b, t, s := TreeOf(base), TreeOf(target), TreeOf(source);
    MergeTreeAt(tools, b, t, s, "");
    var tree := MergeTree(tools, b, t, s).entry.value.tree;
    forall name ensures Child(tree, name).None? <==> Deleted(Child(b, name), Child(t, name), Child(s, name)) {
      MergeTreeAt(tools, b, t, s, name);
      CleanBelow(tools, b, t, s, name);
      MergedAway(tools, Child(b, name), Child(t, name), Child(s, name));
    }
    EmptyExactly(tree);
  }

  lemma {:induction false} EmptiedInside(base: Option<Entry>, target: Option<Entry>, source: Option<Entry>)
    requires Descends(base, target, source)
    ensures EmptiedSomewhere(base, target, source) <==>
              || Emptied(base, target, source)
              || exists name ::
                   EmptiedSomewhere(Child(TreeOf(base), name), Child(TreeOf(target), name), Child(TreeOf(source), name))
  {
    var b, t, s := TreeOf(base), TreeOf(target), TreeOf(source);
    if EmptiedSomewhere(base, target, source) && !Emptied(base, target, source) {
      var path :| EmptiedAt(base, target, source, path);
      assert EmptiedAt(Child(b, path[0]), Child(t, path[0]), Child(s, path[0]), path[1..]);
      assert EmptiedSomewhere(Child(b, path[0]), Child(t, path[0]), Child(s, path[0]));
    }
    if Emptied(base, target, source) {
      assert EmptiedAt(base, target, source, []);
    }
    if name :| EmptiedSomewhere(Child(b, name), Child(t, name), Child(s, name)) {
      var path :| EmptiedAt(Child(b, name), Child(t, name), Child(s, name), path);
      assert ([name] + path)[0] == name && ([name] + path)[1..] == path;
      assert EmptiedAt(base, target, source, [name] + path);
    }
  }

  lemma {:induction false} SettledShapely(tools: Tools, base: Option<Entry>, target: Option<Entry>,
                                          source: Option<Entry>)
    requires !Descends(base, target, source) && Shapely(target) && Shapely(source)
    ensures Shapely(MergeEntry(tools, base, target, source).entry) && !EmptiedSomewhere(base, target, source)
  {
  }

  /** A merged directory is shapely exactly if neither it nor one below was emptied. */
  lemma {:induction false} DirShapelyExactly(tools: Tools, base: Option<Entry>, target: Option<Entry>,
                                             source: Option<Entry>)
    requires Descends(base, target, source) && MergeEntry(tools, base, target, source).conflicts == {}
    requires
      var b, t, s := TreeOf(base), TreeOf(target), TreeOf(source);
      var merged := MergeTree(tools, b, t, s).entry;
      && merged.Some? && merged.value.Dir?
      && (NoEmptyDirectory(merged.value.tree) <==>
            forall name :: !EmptiedSomewhere(Child(b, name), Child(t, name), Child(s, name)))
    ensures Shapely(MergeEntry(tools, base, target, source).entry) <==> !EmptiedSomewhere(base, target, source)
  {
    MergedEmpty(tools, base, target, source);
    EmptiedInside(base, target, source);
  }

  /** A conflict-free merge of trees without empty directories has none either, if and only if no
      directory that both sides changed was emptied by them together. */
  lemma {:induction false} TreeShapelyExactly(tools: Tools, base: Tree, target: Tree, source: Tree)
    requires NoEmptyDirectory(target) && NoEmptyDirectory(source)
        && MergeTree(tools, base, target, source).conflicts == {}
    ensures
      var merged := MergeTree(tools, base, target, source).entry;
      && merged.Some? && merged.value.Dir?
      && (NoEmptyDirectory(merged.value.tree) <==>
            forall name :: !EmptiedSomewhere(Child(base, name), Child(target, name), Child(source, name)))
    decreases target
  {
    MergeTreeAt(tools, base, target, source, "");
    var tree := MergeTree(tools, base, target, source).entry.value.tree;
    ShapelyExactly(target);
    ShapelyExactly(source);
    ShapelyExactly(tree);
    forall name
      ensures Shapely(Child(tree, name)) <==> !EmptiedSomewhere(Child(base, name), Child(target, name),
          Child(source, name)) {
      MergeTreeAt(tools, base, target, source, name);
      CleanBelow(tools, base, target, source, name);
      if Descends(Child(base, name), Child(target, name), Child(source, name)) {
        assert Shapely(Child(target, name)) && Shapely(Child(source, name));
        TreeShapelyExactly(tools, TreeOf(Child(base, name)), target.entries[name].tree, source.entries[name].tree);
        DirShapelyExactly(tools, Child(base, name), Child(target, name), Child(source, name));
      } else {
        SettledShapely(tools, Child(base, name), Child(target, name), Child(source, name));
      }
    }
  }

  /** An emptied directory merges without conflict to an empty one. */
  lemma {:induction false} EmptiedMerges(tools: Tools, base: Option<Entry>, target: Option<Entry>,
                                         source: Option<Entry>)
    requires Emptied(base, target, source)
    ensures MergeEntry(tools, base, target, source) == Merged(Some(Dir(EmptyTree)), {})
  {
    var b, t, s := TreeOf(base), TreeOf(target), TreeOf(source);
    MergeTreeGathers(tools, b, t, s);
    var parts := Parts(tools, b, t, s);
    forall name | name in parts ensures parts[name] == Merged(None, {}) {
      assert Deleted(Child(b, name), Child(t, name), Child(s, name));
    }
    assert Gather(parts).entry.value.tree.entries == map[];
  }

  lemma {:induction false} OnlyChild(tools: Tools, base: Tree, target: Tree, source: Tree)
    requires base.entries.Keys == {"d"} && target.entries.Keys == {"d"} && source.entries.Keys == {"d"}
    requires MergeEntry(tools, Child(base, "d"), Child(target, "d"), Child(source, "d"))
        == Merged(Some(Dir(EmptyTree)), {})
    ensures MergeTree(tools, base, target, source) == Merged(Some(Dir(Tree(map["d" := Dir(EmptyTree)]))), {})
  {
    MergeTreeGathers(tools, base, target, source);
    var parts := Parts(tools, base, target, source);
    assert parts == map["d" := Merged(Some(Dir(EmptyTree)), {})];
    assert Gather(parts).entry.value.tree.entries == map["d" := Dir(EmptyTree)];
  }

  /** A directory of two files, of which each side deleted another one. */
  lemma {:induction false} EachDeletesOne(base: Tree, target: Tree, source: Tree, file: Entry)
    requires base == Tree(map["a" := file, "b" := file]) && target == Tree(map["a" := file])
        && source == Tree(map["b" := file])
    ensures Emptied(Some(Dir(base)), Some(Dir(target)), Some(Dir(source)))
  {
    assert Child(base, "b").Some? && Child(target, "b").None? && Child(source, "a").None? && Child(target, "a").Some?;
    forall name ensures Deleted(Child(base, name), Child(target, name), Child(source, name)) {
      if name != "a" && name != "b" {
        assert Child(target, name).None? && Child(source, name).None?;
      }
    }
  }

  lemma {:induction false} Lone(tree: Tree)
    requires tree != EmptyTree && NoEmptyDirectory(tree)
    ensures NoEmptyDirectory(Tree(map["d" := Dir(tree)]))
  {
  }

  /** Trees without an empty directory whose merge has one. */
  lemma {:induction false} MergeLeavesEmptyDirectory(tools: Tools, file: Entry, b: Tree, t: Tree, s: Tree)
    requires file.File? && b == Tree(map["a" := file, "b" := file]) && t == Tree(map["a" := file])
        && s == Tree(map["b" := file])
    ensures
      var base, target, source := Tree(map["d" := Dir(b)]), Tree(map["d" := Dir(t)]), Tree(map["d" := Dir(s)]);
      && NoEmptyDirectory(base) && NoEmptyDirectory(target) && NoEmptyDirectory(source)
      && MergeTree(tools, base, target, source) == Merged(Some(Dir(Tree(map["d" := Dir(EmptyTree)]))), {})
  {
    assert "a" in b.entries && "a" in t.entries && "b" in s.entries;
    Lone(b);
    Lone(t);
    Lone(s);
    EachDeletesOne(b, t, s, file);
    EmptiedMerges(tools, Some(Dir(b)), Some(Dir(t)), Some(Dir(s)));
    OnlyChild(tools, Tree(map["d" := Dir(b)]), Tree(map["d" := Dir(t)]), Tree(map["d" := Dir(s)]));
  }
}
