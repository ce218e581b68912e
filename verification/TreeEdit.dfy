/** Editing single files of a repository tree (internal/httpapi/edit.go). Trees are persistent: an
    edit rebuilds the directories along one path and shares the rest. */
module TreeEdit {
  import opened Basics
  import opened Trees

  // ---------------------------------------------------------------------------
  // The edits

  function WithEntry(tree: Tree, name: string, entry: Entry): (after: Tree)
  {
    Tree(tree.entries[name := entry])
  }

  function WithoutEntry(tree: Tree, name: string): (after: Tree)
  {
    Tree(tree.entries - {name})
  }

  /** replaceRepositoryTreeBlob: an existing text file gets other content and keeps its mode. */
  function Replace(tree: Tree, path: Path, content: Content): (after: Option<Tree>)
    requires path != []
    decreases |path|
  {
    var found := Child(tree, path[0]);
    if found.None? then None
    else if |path| == 1 then
      if found.value.File? && found.value.mode.IsText()
      then Some(WithEntry(tree, path[0], File(found.value.mode, content))) else None
    else if !found.value.Dir? then None
    else
      var below := Replace(found.value.tree, path[1..], content);
      if below.None? then None else Some(WithEntry(tree, path[0], Dir(below.value)))
  }

  /** The directory an addition goes on in: an existing one, or a new one where there is nothing. */
  function Inside(found: Option<Entry>): (tree: Option<Tree>)
  {
    if found.None? then Some(EmptyTree) else if found.value.Dir? then Some(found.value.tree) else None
  }

  /** addRepositoryTreeEntry: missing directories are made on the way. */
  function Add(tree: Tree, path: Path, entry: Entry): (after: Option<Tree>)
    decreases |path|
  {
    if path == [] || path[0] == "" then None
    else
      var found := Child(tree, path[0]);
      if |path| == 1 then if found.Some? then None else Some(WithEntry(tree, path[0], entry))
      else
        var inside := Inside(found);
        if inside.None? then None
        else
          var below := Add(inside.value, path[1..], entry);
          if below.None? then None else Some(WithEntry(tree, path[0], Dir(below.value)))
  }

  /** removeRepositoryTreeEntry: the tree without the file and the file's entry; a directory that
      becomes empty goes as well. */
  function Remove(tree: Tree, path: Path): (after: Option<(Tree, Entry)>)
    decreases |path|
  {
    if path == [] || path[0] == "" then None
    else
      var found := Child(tree, path[0]);
      if found.None? then None
      else if |path| == 1 then
        if found.value.File? && found.value.mode.IsFile() then Some((WithoutEntry(tree, path[0]), found.value))
        else None
      else if !found.value.Dir? then None
      else
        var below := Remove(found.value.tree, path[1..]);
        if below.None? then None
        else Some((if below.value.0 == EmptyTree then WithoutEntry(tree, path[0])
                   else WithEntry(tree, path[0], Dir(below.value.0)), below.value.1))
  }

  /** renameRepositoryFile after its path checks: remove, then add. */
  function Rename(tree: Tree, from: Path, to: Path): (after: Option<Tree>)
  {
    var entry := EntryAt(Some(Dir(tree)), from);
    if from == to || entry.None? || !entry.value.File? || !entry.value.mode.IsFile() then None
    else if EntryAt(Some(Dir(tree)), to).Some? then None
    else
      var removed := Remove(tree, from);
      if removed.None? then None else Add(removed.value.0, to, removed.value.1)
  }

  // ---------------------------------------------------------------------------
  // The flattened view

  /** The file at a path of a tree. */
  function At(tree: Tree, path: Path): (file: Option<Entry>)
  {
    FileAt(Some(Dir(tree)), path)
  }

  /** The tree differs from another in one path only. */
  ghost predicate OnlyAt(before: Tree, after: Tree, path: Path, file: Option<Entry>)
  {
    forall other :: At(after, other) == if other == path then file else At(before, other)
  }

  lemma {:induction false} AtChild(tree: Tree, path: Path)
    requires path != []
    ensures At(tree, path) == FileAt(Child(tree, path[0]), path[1..])
    ensures EntryAt(Some(Dir(tree)), path) == EntryAt(Child(tree, path[0]), path[1..])
  {
  }

  /** A change under one name of a tree, seen from the tree. */
  lemma {:induction false} OnlyBelow(before: Tree, after: Tree, path: Path, file: Option<Entry>)
    requires path != [] && (forall name :: name != path[0] ==> Child(after, name) == Child(before, name))
    requires forall rest :: FileAt(Child(after, path[0]), rest) == if rest == path[1..] then file
        else FileAt(Child(before, path[0]), rest)
    ensures OnlyAt(before, after, path, file)
  {
    forall other ensures At(after, other) == if other == path then file else At(before, other) {
      if other != [] {
        AtChild(before, other);
        AtChild(after, other);
        assert other == [other[0]] + other[1..] && path == [path[0]] + path[1..];
      }
    }
  }

  lemma {:induction false} FileIsLeaf(entry: Option<Entry>, path: Path)
    requires entry.None? || entry.value.File?
    ensures FileAt(entry, path) == if path == [] then entry else None
  {
  }

  // ---------------------------------------------------------------------------
  // Each edit changes exactly one path

  /** A file can be replaced exactly if it is there and holds text. */
  lemma {:induction false} ReplaceExactly(tree: Tree, path: Path, content: Content)
    requires path != []
    ensures Replace(tree, path, content).Some? <==> At(tree, path).Some? && At(tree, path).value.mode.IsText()
    decreases |path|
  {
    AtChild(tree, path);
    var found := Child(tree, path[0]);
    if found.Some? && |path| > 1 && found.value.Dir? {
      ReplaceExactly(found.value.tree, path[1..], content);
    }
  }

  /** Replacing changes the content at one path and nothing else. */
  lemma {:induction false} ReplaceOnlyAt(tree: Tree, path: Path, content: Content)
    requires path != [] && Replace(tree, path, content).Some?
    ensures At(tree, path).Some?
    ensures OnlyAt(tree, Replace(tree, path, content).value, path, Some(File(At(tree, path).value.mode, content)))
    decreases |path|
  {
    ReplaceExactly(tree, path, content);
    var found, after := Child(tree, path[0]).value, Replace(tree, path, content).value;
    AtChild(tree, path);
    var file := Some(File(At(tree, path).value.mode, content));
    forall rest ensures FileAt(Child(after, path[0]), rest) == if rest == path[1..] then file
        else FileAt(Some(found), rest) {
      if |path| == 1 {
        FileIsLeaf(Some(found), rest);
        FileIsLeaf(file, rest);
      } else {
        ReplaceOnlyAt(found.tree, path[1..], content);
        assert At(after.entries[path[0]].tree, rest) == if rest == path[1..] then file else At(found.tree, rest);
      }
    }
    OnlyBelow(tree, after, path, file);
  }

  /** Nothing is at the path, and no file is in the way of it. */
  ghost predicate Addable(tree: Tree, path: Path)
  {
    && path != [] && (forall i :: 0 <= i < |path| ==> path[i] != "")
    && EntryAt(Some(Dir(tree)), path).None?
    && forall n :: 0 < n < |path| ==> At(tree, path[..n]).None?
  }

  lemma {:induction false} AddableBelow(tree: Tree, path: Path, inside: Tree)
    requires |path| > 1 && Inside(Child(tree, path[0])) == Some(inside)
    ensures Addable(tree, path) <==> path[0] != "" && Addable(inside, path[1..])
  {
    var rest := path[1..];
    AtChild(tree, path);
    EmptyHasNothing(rest);
    assert EntryAt(Some(Dir(tree)), path).None? <==> EntryAt(Some(Dir(inside)), rest).None?;
    forall n | 0 < n < |path| ensures At(tree, path[..n]).None? <==> n == 1 || At(inside, rest[..n - 1]).None? {
      AtChild(tree, path[..n]);
      assert path[..n][1..] == rest[..n - 1];
      EmptyHasNothing(rest[..n - 1]);
    }
    if Addable(tree, path) {
      forall i | 0 <= i < |rest| ensures rest[i] != "" {
        assert rest[i] == path[i + 1];
      }
      forall n | 0 < n < |rest| ensures At(inside, rest[..n]).None? {
        assert At(tree, path[..n + 1]).None?;
      }
    }
    if path[0] != "" && Addable(inside, rest) {
      forall i | 0 <= i < |path| ensures path[i] != "" {
        assert i > 0 ==> path[i] == rest[i - 1];
      }
    }
  }

  lemma {:induction false} EmptyHasNothing(path: Path)
    ensures path != [] ==> EntryAt(Some(Dir(EmptyTree)), path).None? && EntryAt(None, path).None?
    ensures At(EmptyTree, path).None?
  {
    if path != [] {
      AtChild(EmptyTree, path);
    }
  }

  /** An entry can be added exactly where nothing is and no file is in the way. */
  lemma {:induction false} AddExactly(tree: Tree, path: Path, entry: Entry)
    ensures Add(tree, path, entry).Some? <==> Addable(tree, path)
    decreases |path|
  {
    if path != [] {
      AtChild(tree, path);
      var inside := Inside(Child(tree, path[0]));
      if |path| > 1 && inside.Some? {
        AddableBelow(tree, path, inside.value);
        AddExactly(inside.value, path[1..], entry);
      } else if |path| > 1 {
        AtChild(tree, path[..1]);
        assert At(tree, path[..1]).Some?;
      }
    }
  }

  /** Adding a file puts it at its path and changes nothing else. */
  lemma {:induction false} AddOnlyAt(tree: Tree, path: Path, entry: Entry)
    requires Add(tree, path, entry).Some? && entry.File?
    ensures At(tree, path).None? && OnlyAt(tree, Add(tree, path, entry).value, path, Some(entry))
    decreases |path|
  {
    AddExactly(tree, path, entry);
    var found, after := Child(tree, path[0]), Add(tree, path, entry).value;
    forall rest ensures FileAt(Child(after, path[0]), rest) == if rest == path[1..] then Some(entry)
        else FileAt(found, rest) {
      if |path| == 1 {
        FileIsLeaf(found, rest);
        FileIsLeaf(Some(entry), rest);
      } else {
        var inside := Inside(found).value;
        AddOnlyAt(inside, path[1..], entry);
        assert At(after.entries[path[0]].tree, rest) == if rest == path[1..] then Some(entry) else At(inside, rest);
        if found.None? {
          EmptyHasNothing(rest);
          FileIsLeaf(None, rest);
        }
      }
    }
    OnlyBelow(tree, after, path, Some(entry));
  }

  /** A file can be removed exactly if it is there. */
  lemma {:induction false} RemoveExactly(tree: Tree, path: Path)
    requires forall i :: 0 <= i < |path| ==> path[i] != ""
    ensures Remove(tree, path).Some? <==> At(tree, path).Some? && At(tree, path).value.mode.IsFile()
    ensures Remove(tree, path).Some? ==> Remove(tree, path).value.1 == At(tree, path).value
    decreases |path|
  {
    if path != [] {
      AtChild(tree, path);
      var found := Child(tree, path[0]);
      if found.Some? && |path| > 1 && found.value.Dir? {
        RemoveExactly(found.value.tree, path[1..]);
      }
    }
  }

  /** Removing takes one file away and changes nothing else. */
  lemma {:induction false} RemoveOnlyAt(tree: Tree, path: Path)
    requires Remove(tree, path).Some?
    ensures OnlyAt(tree, Remove(tree, path).value.0, path, None)
    decreases |path|
  {
    var found, after := Child(tree, path[0]).value, Remove(tree, path).value.0;
    forall rest ensures FileAt(Child(after, path[0]), rest) == if rest == path[1..] then None
        else FileAt(Some(found), rest) {
      if |path| == 1 {
        FileIsLeaf(Some(found), rest);
        FileIsLeaf(None, rest);
      } else {
        RemoveOnlyAt(found.tree, path[1..]);
        var below := Remove(found.tree, path[1..]).value.0;
        assert At(below, rest) == if rest == path[1..] then None else At(found.tree, rest);
        if below == EmptyTree {
          EmptyHasNothing(rest);
          FileIsLeaf(None, rest);
        }
      }
    }
    OnlyBelow(tree, after, path, None);
  }

  // ---------------------------------------------------------------------------
  // The shape is kept and the edits undo each other

  lemma {:induction false} ReplaceKeepsShape(tree: Tree, path: Path, content: Content)
    requires path != [] && Replace(tree, path, content).Some? && NoEmptyDirectory(tree)
    ensures NoEmptyDirectory(Replace(tree, path, content).value) && Replace(tree, path, content).value != EmptyTree
    decreases |path|
  {
    var after := Replace(tree, path, content).value;
    if |path| > 1 {
      ReplaceKeepsShape(tree.entries[path[0]].tree, path[1..], content);
    }
    assert path[0] in after.entries;
  }

  lemma {:induction false} AddKeepsShape(tree: Tree, path: Path, entry: Entry)
    requires Add(tree, path, entry).Some? && entry.File? && NoEmptyDirectory(tree)
    ensures NoEmptyDirectory(Add(tree, path, entry).value) && Add(tree, path, entry).value != EmptyTree
    decreases |path|
  {
    var after := Add(tree, path, entry).value;
    if |path| > 1 {
      AddKeepsShape(Inside(Child(tree, path[0])).value, path[1..], entry);
    }
    assert path[0] in after.entries;
  }

  lemma {:induction false} RemoveKeepsShape(tree: Tree, path: Path)
    requires Remove(tree, path).Some? && NoEmptyDirectory(tree)
    ensures NoEmptyDirectory(Remove(tree, path).value.0)
    decreases |path|
  {
    if |path| > 1 {
      RemoveKeepsShape(tree.entries[path[0]].tree, path[1..]);
    }
  }

  /** Removing undoes adding: the very same tree comes back. */
  lemma {:induction false} RemoveUndoesAdd(tree: Tree, path: Path, entry: Entry)
    requires Add(tree, path, entry).Some? && entry.File? && entry.mode.IsFile() && NoEmptyDirectory(tree)
    ensures Remove(Add(tree, path, entry).value, path) == Some((tree, entry))
    decreases |path|
  {
    var after := Add(tree, path, entry).value;
    if |path| == 1 {
      assert after.entries - {path[0]} == tree.entries;
    } else {
      var found := Child(tree, path[0]);
      RemoveUndoesAdd(Inside(found).value, path[1..], entry);
      if found.None? {
        assert after.entries - {path[0]} == tree.entries;
      } else {
        assert after.entries[path[0] := found.value] == tree.entries;
      }
    }
  }

  /** ... and adding undoes removing. */
  lemma {:induction false} AddUndoesRemove(tree: Tree, path: Path)
    requires Remove(tree, path).Some? && NoEmptyDirectory(tree)
    ensures Add(Remove(tree, path).value.0, path, Remove(tree, path).value.1) == Some(tree)
    decreases |path|
  {
    var after, entry := Remove(tree, path).value.0, Remove(tree, path).value.1;
    if |path| == 1 {
      assert after.entries[path[0] := entry] == tree.entries;
    } else {
      AddUndoesRemove(tree.entries[path[0]].tree, path[1..]);
      assert after.entries[path[0] := tree.entries[path[0]]] == tree.entries;
    }
  }

  // ---------------------------------------------------------------------------
  // Renaming

  /** Removing makes no entry. */
  lemma {:induction false} RemoveMakesNothing(tree: Tree, path: Path, other: Path)
    requires Remove(tree, path).Some? && EntryAt(Some(Dir(tree)), other).None?
    ensures EntryAt(Some(Dir(Remove(tree, path).value.0)), other).None?
    decreases |path|
  {
    var after := Remove(tree, path).value.0;
    AtChild(tree, other);
    AtChild(after, other);
    if other[0] == path[0] && |path| > 1 {
      RemoveMakesNothing(tree.entries[path[0]].tree, path[1..], other[1..]);
    } else if other[0] == path[0] {
      EmptyHasNothing(other[1..]);
    }
  }

  /** ... and leaves none at its path. */
  lemma {:induction false} RemovedIsGone(tree: Tree, path: Path)
    requires Remove(tree, path).Some?
    ensures EntryAt(Some(Dir(Remove(tree, path).value.0)), path).None?
    decreases |path|
  {
    AtChild(Remove(tree, path).value.0, path);
    if |path| > 1 {
      RemovedIsGone(tree.entries[path[0]].tree, path[1..]);
    }
  }

  ghost predicate Under(path: Path, above: Path)
  {
    |above| <= |path| && path[..|above|] == above
  }

  lemma {:induction false} UnderBelow(path: Path, above: Path)
    requires path != [] && above != []
    ensures Under(path, above) <==> path[0] == above[0] && Under(path[1..], above[1..])
  {
    if |above| <= |path| {
      assert path[..|above|] == [path[0]] + path[1..][..|above| - 1];
      assert above == [above[0]] + above[1..];
      assert path[..|above|][1..] == path[1..][..|above| - 1];
      assert path[..|above|][0] == path[0];
    }
  }

  /** Adding makes entries exactly along its path. */
  lemma {:induction false} AddMakesPath(tree: Tree, path: Path, entry: Entry, other: Path)
    requires Add(tree, path, entry).Some? && entry.File? && EntryAt(Some(Dir(tree)), other).None?
    ensures EntryAt(Some(Dir(Add(tree, path, entry).value)), other).Some? <==> Under(path, other)
    decreases |path|
  {
    var after := Add(tree, path, entry).value;
    AtChild(tree, other);
    AtChild(after, other);
    UnderBelow(path, other);
    if other[0] == path[0] {
      if |path| > 1 {
        AddBelow(tree, path, entry, other);
      } else {
        LeafHasNothing(entry, other[1..]);
      }
    }
  }

  lemma {:induction false} LeafHasNothing(entry: Entry, path: Path)
    requires entry.File?
    ensures EntryAt(Some(entry), path).Some? <==> path == []
  {
  }

  lemma {:induction false} AddBelow(tree: Tree, path: Path, entry: Entry, other: Path)
    requires Add(tree, path, entry).Some? && entry.File? && EntryAt(Some(Dir(tree)), other).None?
    requires |path| > 1 && other != [] && other[0] == path[0]
    ensures EntryAt(Some(Dir(Add(tree, path, entry).value)), other).Some? <==> Under(path[1..], other[1..])
    decreases |path|, 0
  {
    var after, found := Add(tree, path, entry).value, Child(tree, path[0]);
    AtChild(tree, other);
    AtChild(after, other);
    var inside := Inside(found).value;
    EmptyHasNothing(other[1..]);
    if other[1..] != [] {
      AddMakesPath(inside, path[1..], entry, other[1..]);
    }
  }

  /** Renaming moves one file and changes nothing else. */
  lemma {:induction false} RenameMoves(tree: Tree, from: Path, to: Path)
    requires Rename(tree, from, to).Some?
    ensures
      var after := Rename(tree, from, to).value;
      forall other :: At(after, other) == if other == to then At(tree, from) else if other == from then None
          else At(tree, other)
  {
    var removed := Remove(tree, from).value;
    RemovedIsAt(tree, from);
    RemoveOnlyAt(tree, from);
    AddOnlyAt(removed.0, to, removed.1);
  }

  lemma {:induction false} RemovedIsAt(tree: Tree, path: Path)
    requires Remove(tree, path).Some?
    ensures At(tree, path) == Some(Remove(tree, path).value.1) && Remove(tree, path).value.1.mode.IsFile()
    ensures forall i :: 0 <= i < |path| ==> path[i] != ""
    decreases |path|
  {
    AtChild(tree, path);
    if |path| > 1 {
      RemovedIsAt(tree.entries[path[0]].tree, path[1..]);
      assert forall i :: 0 < i < |path| ==> path[i] == path[1..][i - 1];
    }
  }

  ghost predicate NamesOk(path: Path)
  {
    path != [] && forall i :: 0 <= i < |path| ==> path[i] != ""
  }

  /** A file can be renamed exactly if nothing is at the new path and no file but itself is in the
      way of it. */
  lemma {:induction false} RenameExactly(tree: Tree, from: Path, to: Path)
    requires NamesOk(from) && NamesOk(to) && from != to
    ensures Rename(tree, from, to).Some? <==>
            && At(tree, from).Some? && At(tree, from).value.mode.IsFile()
            && EntryAt(Some(Dir(tree)), to).None?
            && forall n :: 0 < n < |to| && to[..n] != from ==> At(tree, to[..n]).None?
  {
    RemoveExactly(tree, from);
    if Remove(tree, from).Some? && EntryAt(Some(Dir(tree)), to).None? {
      var removed := Remove(tree, from).value;
      RemoveMakesNothing(tree, from, to);
      RemoveOnlyAt(tree, from);
      AddExactly(removed.0, to, removed.1);
      assert forall n :: 0 < n < |to| ==> At(removed.0, to[..n]) == if to[..n] == from then None else At(tree, to[..n]);
    }
  }

  lemma {:induction false} RenameKeepsShape(tree: Tree, from: Path, to: Path)
    requires Rename(tree, from, to).Some? && NoEmptyDirectory(tree)
    ensures NoEmptyDirectory(Rename(tree, from, to).value)
  {
    RemoveKeepsShape(tree, from);
    RemovedIsAt(tree, from);
    AddKeepsShape(Remove(tree, from).value.0, to, Remove(tree, from).value.1);
  }

  /** Renaming back gives the very same tree, exactly unless the file was moved below its own old
      path: then a directory is at the old path and the way back is refused. */
  lemma {:induction false} RenameBack(tree: Tree, from: Path, to: Path)
    requires Rename(tree, from, to).Some? && NoEmptyDirectory(tree)
    ensures Rename(Rename(tree, from, to).value, to, from) == (if Under(to, from) then None else Some(tree))
  {
    var removed, after := Remove(tree, from).value, Rename(tree, from, to).value;
    RemovedIsAt(tree, from);
    RemovedIsGone(tree, from);
    RemoveKeepsShape(tree, from);
    AddMakesPath(removed.0, to, removed.1, from);
    RemoveUndoesAdd(removed.0, to, removed.1);
    AddUndoesRemove(tree, from);
    RemovedIsAt(after, to);
  }

  /** The way back that is refused: a file `a` moved to `a/b`. */
  lemma {:induction false} RenameBackRefused(mode: Mode, content: Content)
    requires mode.IsFile()
    ensures
      var tree, moved := Tree(map["a" := File(mode, content)]),
          Tree(map["a" := Dir(Tree(map["b" := File(mode, content)]))]);
      && Rename(tree, ["a"], ["a", "b"]) == Some(moved)
      && Rename(moved, ["a", "b"], ["a"]) == None
  {
    var file := File(mode, content);
    var tree := Tree(map["a" := file]);
    assert ["a"][1..] == [] && ["a", "b"][1..] == ["b"] && ["b"][1..] == [];
    assert EntryAt(Some(Dir(tree)), ["a"]) == EntryAt(Some(file), []);
    assert EntryAt(Some(Dir(tree)), ["a", "b"]) == EntryAt(Some(file), ["b"]);
    assert WithoutEntry(tree, "a") == EmptyTree;
    assert Remove(tree, ["a"]) == Some((EmptyTree, file));
    assert WithEntry(EmptyTree, "b", file) == Tree(map["b" := file]);
    assert Add(EmptyTree, ["b"], file) == Some(Tree(map["b" := file]));
    var moved := Tree(map["a" := Dir(Tree(map["b" := file]))]);
    assert WithEntry(EmptyTree, "a", Dir(Tree(map["b" := file]))) == moved;
    assert EntryAt(Some(Dir(moved)), ["a"]) == EntryAt(Some(Dir(Tree(map["b" := file]))), []);
  }

  // ---------------------------------------------------------------------------
  // The loops over a directory's entries

  datatype Named = Named(name: string, entry: Entry)

  /** The list holds the directory's entries, each name once. */
  ghost predicate Lists(list: seq<Named>, tree: Tree)
  {
    UniqueNames(list) && Truthful(list, tree) && (forall name :: name in tree.entries ==> HasName(list, name))
  }

  ghost predicate UniqueNames(list: seq<Named>)
  {
    forall i, j :: 0 <= i < j < |list| ==> list[i].name != list[j].name
  }

  ghost predicate Truthful(list: seq<Named>, tree: Tree)
  {
    forall i :: 0 <= i < |list| ==> Child(tree, list[i].name) == Some(list[i].entry)
  }

  ghost predicate HasName(list: seq<Named>, name: string)
  {
    exists i :: 0 <= i < |list| && list[i].name == name
  }

  method EntriesOf(tree: Tree) returns (list: seq<Named>)
    ensures Lists(list, tree)
  {
    list := [];
    var todo := tree.entries.Keys;
    while todo != {}
      invariant todo <= tree.entries.Keys
      invariant forall i, j :: 0 <= i < j < |list| ==> list[i].name != list[j].name
      invariant forall i :: 0 <= i < |list| ==>
          Child(tree, list[i].name) == Some(list[i].entry) && list[i].name !in todo
      invariant forall name :: name in tree.entries && name !in todo ==>
          exists i :: 0 <= i < |list| && list[i].name == name
    {
      var name :| name in todo;
      ghost var before := list;
      list := list + [Named(name, tree.entries[name])];
      todo := todo - {name};
      assert list[|list| - 1].name == name;
      assert forall i :: 0 <= i < |before| ==> list[i] == before[i];
    }
  }

  /** storeRepositoryTree: a list in any order becomes the one tree that it lists. */
  method StoreTree(list: seq<Named>, ghost tree: Tree) returns (stored: Tree)
    requires Lists(list, tree)
    ensures stored == tree
  {
    var entries: map<string, Entry> := map[];
    for i := 0 to |list|
      invariant forall k :: 0 <= k < i ==> list[k].name in entries
      invariant forall name :: name in entries ==> Child(tree, name) == Some(entries[name])
    {
      entries := entries[list[i].name := list[i].entry];
    }
    assert forall name :: name in tree.entries ==> name in entries;
    assert entries == tree.entries;
    stored := Tree(entries);
  }

  method Find(list: seq<Named>, name: string, ghost tree: Tree) returns (found: Option<nat>)
    requires Lists(list, tree)
    ensures found.Some? <==> name in tree.entries
    ensures found.Some? ==>
        found.value < |list| && list[found.value].name == name && list[found.value].entry == tree.entries[name]
  {
    for index := 0 to |list|
      invariant forall k :: 0 <= k < index ==> list[k].name != name
    {
      if list[index].name == name {
        return Some(index);
      }
    }
    found := None;
  }

  lemma {:induction false} ListsWith(list: seq<Named>, tree: Tree, index: nat, entry: Entry)
    requires Lists(list, tree) && index < |list|
    ensures Lists(list[index := list[index].(entry := entry)], WithEntry(tree, list[index].name, entry))
  {
    var name, after := list[index].name, list[index := list[index].(entry := entry)];
    assert forall i :: 0 <= i < |list| ==> after[i].name == list[i].name;
    forall x | x in WithEntry(tree, name, entry).entries ensures HasName(after, x) {
      assert HasName(list, x);
      var i :| 0 <= i < |list| && list[i].name == x;
      assert after[i].name == x;
    }
  }

  lemma {:induction false} ListsAppended(list: seq<Named>, tree: Tree, name: string, entry: Entry)
    requires Lists(list, tree) && name !in tree.entries
    ensures Lists(list + [Named(name, entry)], WithEntry(tree, name, entry))
  {
    var after := list + [Named(name, entry)];
    forall i | 0 <= i < |list| ensures after[i] == list[i] && after[i].name != name {
      assert Child(tree, list[i].name).Some?;
    }
    assert UniqueNames(after);
    assert Truthful(after, WithEntry(tree, name, entry));
    forall x | x in WithEntry(tree, name, entry).entries ensures HasName(after, x) {
      if x == name {
        assert after[|list|].name == x;
      } else {
        assert HasName(list, x);
        var i :| 0 <= i < |list| && list[i].name == x;
        assert after[i].name == x;
      }
    }
  }

  lemma {:induction false} WithoutKeepsNames(list: seq<Named>, index: nat, x: string)
    requires index < |list| && HasName(list, x) && x != list[index].name
    ensures HasName(list[..index] + list[index + 1..], x)
  {
    var after := list[..index] + list[index + 1..];
    var i :| 0 <= i < |list| && list[i].name == x;
    assert after[if i < index then i else i - 1] == list[i];
  }

  lemma {:induction false} WithoutUnique(list: seq<Named>, index: nat, after: seq<Named>)
    requires index < |list| && UniqueNames(list) && after == list[..index] + list[index + 1..]
    ensures UniqueNames(after)
    ensures forall i :: 0 <= i < |after| ==> after[i].name != list[index].name
  {
    assert forall i :: 0 <= i < |after| ==> after[i] == if i < index then list[i] else list[i + 1];
  }

  lemma {:induction false} WithoutTruthful(list: seq<Named>, tree: Tree, index: nat, after: seq<Named>)
    requires index < |list| && Truthful(list, tree) && UniqueNames(list) && after == list[..index] + list[index + 1..]
    ensures Truthful(after, WithoutEntry(tree, list[index].name))
  {
    WithoutUnique(list, index, after);
    forall i | 0 <= i < |after| ensures Child(WithoutEntry(tree, list[index].name), after[i].name)
        == Some(after[i].entry) {
      assert after[i] == if i < index then list[i] else list[i + 1];
    }
  }

  lemma {:induction false} ListsWithout(list: seq<Named>, tree: Tree, index: nat)
    requires Lists(list, tree) && index < |list|
    ensures Lists(list[..index] + list[index + 1..], WithoutEntry(tree, list[index].name))
  {
    var name, after := list[index].name, list[..index] + list[index + 1..];
    WithoutUnique(list, index, after);
    WithoutTruthful(list, tree, index, after);
    forall x | x in WithoutEntry(tree, name).entries ensures HasName(after, x) {
      WithoutKeepsNames(list, index, x);
    }
  }

  method ReplaceRepositoryTreeBlob(tree: Tree, parts: Path, content: Content) returns (after: Option<Tree>)
    requires parts != []
    ensures after == Replace(tree, parts, content)
    decreases |parts|
  {
    var entries := EntriesOf(tree);
    var found := Find(entries, parts[0], tree);
    if found.None? {
      return None;
    }
    var entry := entries[found.value].entry;
    if |parts| == 1 {
      if !entry.File? || !entry.mode.IsText() {
        return None;
      }
      entry := File(entry.mode, content);
    } else {
      if !entry.Dir? {
        return None;
      }
      var below := ReplaceRepositoryTreeBlob(entry.tree, parts[1..], content);
      if below.None? {
        return None;
      }
      entry := Dir(below.value);
    }
    ListsWith(entries, tree, found.value, entry);
    entries := entries[found.value := entries[found.value].(entry := entry)];
    var stored := StoreTree(entries, WithEntry(tree, parts[0], entry));
    after := Some(stored);
  }

  method AddRepositoryTreeEntry(tree: Tree, parts: Path, entry: Entry) returns (after: Option<Tree>)
    ensures after == Add(tree, parts, entry)
    decreases |parts|
  {
    if parts == [] || parts[0] == "" {
      return None;
    }
    var entries := EntriesOf(tree);
    var found := Find(entries, parts[0], tree);
    var added := entry;
    if |parts| == 1 {
      if found.Some? {
        return None;
      }
    } else {
      var subtree := EmptyTree;
      if found.Some? {
        if !entries[found.value].entry.Dir? {
          return None;
        }
        subtree := entries[found.value].entry.tree;
      }
      var below := AddRepositoryTreeEntry(subtree, parts[1..], entry);
      if below.None? {
        return None;
      }
      added := Dir(below.value);
    }
    if found.Some? {
      ListsWith(entries, tree, found.value, added);
      entries := entries[found.value := entries[found.value].(entry := added)];
    } else {
      ListsAppended(entries, tree, parts[0], added);
      entries := entries + [Named(parts[0], added)];
    }
    var stored := StoreTree(entries, WithEntry(tree, parts[0], added));
    after := Some(stored);
  }

  lemma {:induction false} NoEntries(list: seq<Named>, tree: Tree)
    requires Lists(list, tree)
    ensures list == [] <==> tree == EmptyTree
  {
    if list != [] {
      assert list[0].name in tree.entries;
    } else {
      assert tree.entries == map[];
    }
  }

  method RemoveRepositoryTreeEntry(tree: Tree, parts: Path) returns (after: Option<(Tree, Entry)>, empty: bool)
    ensures after == Remove(tree, parts)
    ensures empty <==> after.Some? && after.value.0 == EmptyTree
    decreases |parts|
  {
    if parts == [] || parts[0] == "" {
      return None, false;
    }
    var entries := EntriesOf(tree);
    var found := Find(entries, parts[0], tree);
    if found.None? {
      return None, false;
    }
    var entry := entries[found.value].entry;
    var removed, drop, kept := entry, true, entry;
    if |parts| == 1 {
      if !entry.File? || !entry.mode.IsFile() {
        return None, false;
      }
    } else {
      if !entry.Dir? {
        return None, false;
      }
      var below, emptied := RemoveRepositoryTreeEntry(entry.tree, parts[1..]);
      if below.None? {
        return None, false;
      }
      removed, drop, kept := below.value.1, emptied, Dir(below.value.0);
    }
    ghost var next := if drop then WithoutEntry(tree, parts[0]) else WithEntry(tree, parts[0], kept);
    if drop {
      ListsWithout(entries, tree, found.value);
      entries := entries[..found.value] + entries[found.value + 1..];
    } else {
      ListsWith(entries, tree, found.value, kept);
      entries := entries[found.value := entries[found.value].(entry := kept)];
    }
    NoEntries(entries, next);
    var stored := StoreTree(entries, next);
    after, empty := Some((stored, removed)), |entries| == 0;
  }
}
