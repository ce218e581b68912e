/** Git trees as values. Objects are content-addressed, so a tree or a file is identified
    with what it holds: equal hashes are equal values. A tree has unique names and one
    canonical order, which makes it a map from names to entries. */
module Trees {
  import opened Basics

  datatype Mode = Regular | Deprecated | Executable | Symlink | Submodule {
    /** Modes whose content is merged or edited as text. */
    predicate IsText() { Regular? || Deprecated? || Executable? }
    /** Modes that name a file of this repository. */
    predicate IsFile() { !Submodule? }
  }

  /** What a file entry names: a blob of this repository, or a commit of another one. */
  datatype Content = Blob(text: string) | Link(commit: string)

  datatype Entry = File(mode: Mode, content: Content) | Dir(tree: Tree)
  datatype Tree = Tree(entries: map<string, Entry>)

  type Path = seq<string>

  const EmptyTree := Tree(map[])

  function Child(tree: Tree, name: string): (entry: Option<Entry>)
  {
    if name in tree.entries then Some(tree.entries[name]) else None
  }

  /** The entry, file or directory, found by descending along a path. */
  function EntryAt(entry: Option<Entry>, path: Path): (found: Option<Entry>)
    decreases |path|
  {
    if path == [] then entry
    else if entry.Some? && entry.value.Dir? then EntryAt(Child(entry.value.tree, path[0]), path[1..])
    else None
  }

  /** The flattened view of an entry: the file at a path, if there is one. */
  function FileAt(entry: Option<Entry>, path: Path): (file: Option<Entry>)
  {
    var found := EntryAt(entry, path);
    if found.Some? && found.value.File? then found else None
  }

  /** No directory below the root is empty. */
  ghost predicate NoEmptyDirectory(tree: Tree)
    decreases tree
  {
    forall name :: name in tree.entries && tree.entries[name].Dir? ==>
      tree.entries[name].tree != EmptyTree && NoEmptyDirectory(tree.entries[name].tree)
  }
}
