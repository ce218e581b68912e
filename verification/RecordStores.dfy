/** The record files of one repository's review or issue store and how they are readdressed when
    the repository gets another path (internal/review/store.go, internal/issue/store.go). */
module RecordStores {
  import opened Basics

  /** A `.json` entry of a store's directory: a record that names its repository, or something
      that cannot be read as one. */
  datatype Entry = Record(repository: string, body: string) | Unreadable(content: string)

  type Folder = map<nat, Entry>

  /** listDirectory succeeds: every entry is a record of that repository. */
  ghost predicate Belongs(folder: Folder, repository: string)
  {
    forall id :: id in folder ==> folder[id].Record? && folder[id].repository == repository
  }

  /** The records as written into the staged directory. */
  ghost function Readdressed(folder: Folder, repository: string): (moved: Folder)
  {
    map id | id in folder :: if folder[id].Record? then folder[id].(repository := repository) else folder[id]
  }

  lemma {:induction false} ReaddressedBelongs(folder: Folder, from: string, to: string)
    requires Belongs(folder, from)
    ensures Belongs(Readdressed(folder, to), to)
  {
  }

  /** Readdressing back undoes readdressing. */
  lemma {:induction false} ReaddressedBack(folder: Folder, from: string, to: string)
    requires Belongs(folder, from)
    ensures Readdressed(Readdressed(folder, to), from) == folder
  {
    forall id | id in folder ensures Readdressed(Readdressed(folder, to), from)[id] == folder[id] {
      assert Readdressed(folder, to)[id] == folder[id].(repository := to);
    }
  }

  /** The loop that reads every record and writes its readdressed copy into a staged directory. */
  method StageRecords(folder: Folder, from: string, to: string) returns (staged: Option<Folder>)
    ensures staged.Some? <==> Belongs(folder, from)
    ensures staged.Some? ==> staged.value == Readdressed(folder, to)
  {
    var todo, copy: Folder := folder.Keys, map[];
    while todo != {}
      invariant todo <= folder.Keys && copy.Keys == folder.Keys - todo
      invariant forall id :: id in copy ==>
          folder[id].Record? && folder[id].repository == from && copy[id] == folder[id].(repository := to)
    {
      var id :| id in todo;
      if !folder[id].Record? || folder[id].repository != from {
        return None;
      }
      copy := copy[id := folder[id].(repository := to)];
      todo := todo - {id};
    }
    staged := Some(copy);
  }
}
