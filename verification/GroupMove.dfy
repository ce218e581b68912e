/** Renaming a group (RenameGroupLocked in internal/storage/storage.go, moveGroup and rewriteGroup
    in the review and issue packages): the group's directory moves as a whole and then every issue
    store and every review store below it is rewritten in place. */
module GroupMove {
  import opened RecordStores

  datatype Kind = Reviews | Issues

  /** A store below the group: `rel` is the repository's path within the group. */
  datatype Key = Key(kind: Kind, rel: string)

  /** A store's records, in their directory or left in the backup directory of a failed swap. */
  datatype Slot = Present(folder: Folder) | LeftAside(folder: Folder)

  type Stores = map<Key, Slot>

  /** `pass` tells the attempts on a store apart: 0 rewrites, 1 takes the rewrites of an
      unfinished pass 0 back, 2 is the rollback of finished rewrites, 3 takes back an unfinished
      pass 2. Fail leaves the store as it was, Jam leaves it in the backup directory; Walk is a walk
      for the stores of a kind that fails before the first of them is touched. */
  datatype Fault =
    | Check
    | Walk(kind: Kind, pass: nat)
    | MoveDirectory
    | RestoreDirectory
    | Fail(key: Key, pass: nat)
    | Jam(key: Key, pass: nat)

  predicate UndoFault(fault: Fault)
  {
    fault.RestoreDirectory? || fault.Jam? || ((fault.Fail? || fault.Walk?) && fault.pass > 0)
  }

  ghost predicate UndoFails(faults: set<Fault>)
  {
    exists fault :: fault in faults && UndoFault(fault)
  }

  datatype Outcome = Done | Refused | Stuck

  datatype Result = Moved | RolledBack | Broken

  function Full(group: string, rel: string): (path: string)
  {
    group + "/" + rel
  }

  // ---------------------------------------------------------------------------
  // How each store is addressed during a rename

  datatype Mark = Old | New | OldAside | NewAside

  type Marks = map<Key, Mark>

  function MarkOf(marks: Marks, key: Key): (mark: Mark)
  {
    if key in marks then marks[key] else Old
  }

  ghost function Slotted(folder: Folder, key: Key, target: string, mark: Mark): (slot: Slot)
  {
    match mark
    case Old => Present(folder)
    case OldAside => LeftAside(folder)
    case New => Present(Readdressed(folder, Full(target, key.rel)))
    case NewAside => LeftAside(Readdressed(folder, Full(target, key.rel)))
  }

  /** Every store holds its records, addressed as its mark says. */
  ghost predicate Arranged(start: map<Key, Folder>, group: string, target: string, marks: Marks, stores: Stores)
  {
    && stores.Keys == start.Keys
    && (forall key :: key in start ==> stores[key] == Slotted(start[key], key, target, MarkOf(marks, key)))
    && (forall key :: key in start && !MarkOf(marks, key).Old? && !MarkOf(marks, key).OldAside? ==>
        Belongs(start[key], Full(group, key.rel)))
  }

  ghost function AsStores(start: map<Key, Folder>): (stores: Stores)
  {
    map key | key in start :: Present(start[key])
  }

  /** Every store under the new path, readdressed. */
  ghost function AllRenamed(start: map<Key, Folder>, target: string): (stores: Stores)
  {
    map key | key in start :: Present(Readdressed(start[key], Full(target, key.rel)))
  }

  ghost predicate AllAt(start: map<Key, Folder>, kind: Kind, marks: Marks, mark: Mark)
  {
    forall key :: key in start && key.kind == kind ==> MarkOf(marks, key) == mark
  }

  lemma {:induction false} BackToStart(start: map<Key, Folder>, group: string, target: string, marks: Marks,
                                       stores: Stores)
    requires Arranged(start, group, target, marks, stores) && AllAt(start, Issues, marks, Old)
        && AllAt(start, Reviews, marks, Old)
    ensures stores == AsStores(start)
  {
    forall key | key in start ensures stores[key] == Present(start[key]) {
      match key.kind
      case Issues =>
      case Reviews =>
    }
  }

  lemma {:induction false} AllThere(start: map<Key, Folder>, group: string, target: string, marks: Marks,
                                    stores: Stores)
    requires Arranged(start, group, target, marks, stores) && AllAt(start, Issues, marks, New)
        && AllAt(start, Reviews, marks, New)
    ensures stores == AllRenamed(start, target)
  {
    forall key | key in start ensures stores[key] == Present(Readdressed(start[key], Full(target, key.rel))) {
      match key.kind
      case Issues =>
      case Reviews =>
    }
  }

  lemma {:induction false} SlotSet(start: map<Key, Folder>, group: string, target: string, marks: Marks,
                                   stores: Stores, key: Key, mark: Mark)
    requires Arranged(start, group, target, marks, stores) && key in start && Belongs(start[key], Full(group, key.rel))
    ensures Arranged(start, group, target, marks[key := mark], stores[key := Slotted(start[key], key, target, mark)])
  {
  }

  predicate Distinct(keys: seq<Key>)
  {
    forall i, j :: 0 <= i < j < |keys| ==> keys[i] != keys[j]
  }

  /** All keys of one kind, once each. */
  ghost predicate Lists(keys: seq<Key>, kind: Kind, stores: Stores)
  {
    Distinct(keys) && forall key :: key in keys <==> key in stores && key.kind == kind
  }

  /** The first `count` stores of the list are at one mark, the rest at the other. */
  ghost predicate Split(keys: seq<Key>, count: nat, marks: Marks, first: Mark, rest: Mark)
  {
    forall i :: 0 <= i < |keys| ==> MarkOf(marks, keys[i]) == if i < count then first else rest
  }

  ghost predicate OthersSame(kind: Kind, before: Marks, after: Marks)
  {
    forall key: Key :: key.kind != kind ==> MarkOf(after, key) == MarkOf(before, key)
  }

  lemma {:induction false} SplitIsAll(start: map<Key, Folder>, keys: seq<Key>, kind: Kind, stores: Stores,
                                      marks: Marks, count: nat, first: Mark, rest: Mark)
    requires Lists(keys, kind, stores) && stores.Keys == start.Keys && Split(keys, count, marks, first, rest)
    ensures count == 0 ==> AllAt(start, kind, marks, rest)
    ensures count == |keys| ==> AllAt(start, kind, marks, first)
  {
    forall key | key in start && key.kind == kind
      ensures count == 0 ==> MarkOf(marks, key) == rest
      ensures count == |keys| ==> MarkOf(marks, key) == first {
      assert key in keys;
    }
  }

  /** The record lists that rewriteDirectory can read, and no failure in a pass over them. */
  ghost predicate Rewritable(start: map<Key, Folder>, group: string, faults: set<Fault>, key: Key, pass: nat)
    requires key in start
  {
    Belongs(start[key], Full(group, key.rel)) && Fail(key, pass) !in faults && Jam(key, pass) !in faults
  }

  class GroupMover {
    const group: string
    const target: string
    const faults: set<Fault>
    /** Where the group's directory is. */
    var base: string
    var stores: Stores
    ghost const start: map<Key, Folder>
    ghost var marks: Marks

    constructor (group: string, target: string, stores: Stores, ghost start: map<Key, Folder>, faults: set<Fault>)
      requires stores == AsStores(start)
      ensures Valid() && base == group && marks == map[]
      ensures this.group == group && this.target == target && this.faults == faults && this.start == start
    {
      this.group, this.target, this.faults, this.base, this.stores := group, target, faults, group, stores;
      this.start, marks := start, map[];
    }

    ghost predicate Valid()
      reads this
    {
      Arranged(start, group, target, marks, stores)
    }

    /** rewriteDirectory: the records are staged under the other path, the store is set aside and
        the staged directory takes its place. */
    method RewriteDirectory(key: Key, forward: bool, pass: nat) returns (outcome: Outcome)
      requires Valid() && key in start && MarkOf(marks, key) == if forward then Old else New
      modifies this`stores, this`marks
      ensures Valid()
      ensures outcome.Done? <==> Rewritable(start, group, faults, key, pass)
      ensures outcome.Done? ==> marks == old(marks)[key := if forward then New else Old]
      ensures outcome.Refused? ==> marks == old(marks)
      ensures outcome.Stuck? ==>
          Jam(key, pass) in faults && marks == old(marks)[key := if forward then OldAside else NewAside]
    {
      var here, there := Full(if forward then group else target, key.rel),
          Full(if forward then target else group, key.rel);
      if !forward {
        ReaddressedBelongs(start[key], Full(group, key.rel), Full(target, key.rel));
        ReaddressedBack(start[key], Full(group, key.rel), Full(target, key.rel));
      }
      var staged := StageRecords(stores[key].folder, here, there);
      if staged.None? || Fail(key, pass) in faults {
        return Refused;
      }
      var stuck := Jam(key, pass) in faults;
      ghost var mark := if stuck then (if forward then OldAside else NewAside) else There(forward);
      SlotSet(start, group, target, marks, stores, key, mark);
      stores := stores[key := if stuck then LeftAside(stores[key].folder) else Present(staged.value)];
      marks := marks[key := mark];
      outcome := if stuck then Stuck else Done;
    }

    /** The walk that finds the stores of one kind. */
    method FindStores(kind: Kind) returns (keys: seq<Key>)
      ensures Lists(keys, kind, stores)
    {
      keys := [];
      var todo := stores.Keys;
      while todo != {}
        invariant todo <= stores.Keys && Distinct(keys)
        invariant forall key :: key in keys <==> key in stores && key.kind == kind && key !in todo
      {
        var key :| key in todo;
        if key.kind == kind {
          keys := keys + [key];
        }
        todo := todo - {key};
      }
    }

    /** Takes the completed rewrites back, the last one first. */
    method TakeBack(keys: seq<Key>, kind: Kind, completed: nat, forward: bool, pass: nat) returns (ok: bool)
      requires Valid() && Lists(keys, kind, stores) && completed <= |keys| && pass > 0
      requires AllBefore(keys, completed, marks, There(forward)) && AllBelong(start, group, keys, completed)
      modifies this`stores, this`marks
      ensures Valid() && OthersSame(kind, old(marks), marks)
      ensures ok ==> TakenBack(keys, 0, completed, old(marks), marks, Here(forward))
      ensures !ok ==> UndoFails(faults)
    {
      var index: nat := completed;
      ok := true;
      while index > 0
        invariant index <= completed && Valid() && Lists(keys, kind, stores) && OthersSame(kind, old(marks), marks)
        invariant AllBefore(keys, index, marks, There(forward))
        invariant ok ==> TakenBack(keys, index, completed, old(marks), marks, Here(forward))
        invariant !ok ==> UndoFails(faults)
      {
        index := index - 1;
        assert keys[index] in keys;
        ghost var before := marks;
        var outcome := RewriteDirectory(keys[index], !forward, pass);
        OneChanged(keys, index, kind, old(marks), before, marks, There(forward));
        if !outcome.Done? {
          ok := false;
          assert UndoFault(Fail(keys[index], pass)) && UndoFault(Jam(keys[index], pass));
        } else if ok {
          OneBack(keys, index, completed, old(marks), before, marks, Here(forward));
        }
      }
    }

    /** A pass ends at a store it cannot rewrite. */
    method Abandon(keys: seq<Key>, kind: Kind, completed: nat, forward: bool, pass: nat, stuck: bool)
      returns (outcome: Outcome)
      requires Valid() && Lists(keys, kind, stores) && completed <= |keys|
      requires AllBefore(keys, completed, marks, There(forward)) && AllBelong(start, group, keys, completed)
      requires stuck ==> UndoFails(faults)
      requires !stuck ==> Split(keys, completed, marks, There(forward), Here(forward))
      modifies this`stores, this`marks
      ensures Valid() && OthersSame(kind, old(marks), marks) && !outcome.Done?
      ensures outcome.Refused? ==> AllAt(start, kind, marks, Here(forward))
      ensures outcome.Stuck? ==> UndoFails(faults)
    {
      var ok := TakeBack(keys, kind, completed, forward, pass + 1);
      if !ok || stuck {
        return Stuck;
      }
      SplitIsAll(start, keys, kind, stores, marks, 0, There(forward), Here(forward));
      outcome := Refused;
    }

    /** rewriteGroup: the stores of one kind are rewritten in turn; when one cannot be, those
        before it are taken back. */
    method RewriteGroup(kind: Kind, forward: bool, pass: nat) returns (outcome: Outcome)
      requires Valid() && AllAt(start, kind, marks, Here(forward))
      modifies this`stores, this`marks
      ensures Valid() && OthersSame(kind, old(marks), marks)
      ensures outcome.Done? <==> AllRewritable(start, group, faults, kind, pass)
      ensures outcome.Done? ==> AllAt(start, kind, marks, There(forward))
      ensures outcome.Refused? ==> AllAt(start, kind, marks, Here(forward))
      ensures outcome.Stuck? ==> UndoFails(faults)
    {
      if Walk(kind, pass) in faults {
        return Refused;
      }
      var keys := FindStores(kind);
      for completed := 0 to |keys|
        invariant Valid() && Lists(keys, kind, stores) && OthersSame(kind, old(marks), marks)
        invariant Split(keys, completed, marks, There(forward), Here(forward))
        invariant forall i :: 0 <= i < completed ==> keys[i] in start && Rewritable(start, group, faults, keys[i], pass)
      {
        assert keys[completed] in keys;
        ghost var before := marks;
        outcome := RewriteDirectory(keys[completed], forward, pass);
        OneRewritten(keys, completed, kind, old(marks), before, marks, forward);
        if !outcome.Done? {
          assert UndoFault(Jam(keys[completed], pass));
          outcome := Abandon(keys, kind, completed, forward, pass, outcome.Stuck?);
          return;
        }
      }
      SplitIsAll(start, keys, kind, stores, marks, |keys|, There(forward), Here(forward));
      assert forall key :: key in start && key.kind == kind ==> key in keys;
      outcome := Done;
    }

    /** MoveGroupLocked of the issue store, around the directory. */
    method MoveIssues() returns (result: Result)
      requires Valid() && base == group && marks == map[]
      modifies this
      ensures Valid() && AllAt(start, Reviews, marks, Old)
      ensures result.Moved? <==>
        Check !in faults && MoveDirectory !in faults && AllRewritable(start, group, faults, Issues, 0)
      ensures result.Moved? ==> base == target && AllAt(start, Issues, marks, New)
      ensures result.RolledBack? ==> base == group && AllAt(start, Issues, marks, Old)
      ensures result.Broken? ==> UndoFails(faults)
    {
      if Check in faults || MoveDirectory in faults {
        return RolledBack;
      }
      base := target;
      var outcome := RewriteGroup(Issues, true, 0);
      if outcome.Done? {
        return Moved;
      }
      var restored := RestoreDirectory();
      result := if restored && outcome.Refused? then RolledBack else Broken;
    }

    method RestoreDirectory() returns (ok: bool)
      modifies this`base
      ensures ok ==> base == group
      ensures !ok ==> UndoFails(faults)
    {
      ok := Fault.RestoreDirectory !in faults;
      if ok {
        base := group;
      }
      assert UndoFault(Fault.RestoreDirectory);
    }

    /** The rollback that RenameGroupLocked hands to the review store: the issues are rewritten
        back only if the directory could be restored. */
    method RollBack() returns (ok: bool)
      requires Valid() && AllAt(start, Issues, marks, New)
      modifies this
      ensures Valid() && OthersSame(Issues, old(marks), marks)
      ensures ok ==> base == group && AllAt(start, Issues, marks, Old)
      ensures !ok ==> UndoFails(faults)
    {
      ok := RestoreDirectory();
      if ok {
        ghost var rewritten, before := marks, stores;
        var outcome := RewriteGroup(Issues, false, 2);
        ok := outcome.Done?;
        if !ok {
          OnlyFaultsStopTheUndo(start, group, target, faults, rewritten, before, Issues, 2);
        }
      }
    }

    /** RenameGroupLocked: all or nothing, and no record is ever lost. */
    method RenameGroup() returns (result: Result)
      requires Valid() && base == group && marks == map[]
      modifies this
      ensures Arranged(start, group, target, marks, stores)
      ensures result.Moved? <==> Ready(start, group, target, faults)
      ensures result.Moved? ==> base == target && stores == AllRenamed(start, target)
      ensures result.RolledBack? ==> base == group && stores == AsStores(start)
      ensures result.Broken? ==> UndoFails(faults)
    {
      if IntoItself(group, target) {
        BackToStart(start, group, target, marks, stores);
        return RolledBack;
      }
      result := MoveIssues();
      if result.Moved? {
        var outcome := RewriteGroup(Reviews, true, 0);
        if outcome.Done? {
          AllThere(start, group, target, marks, stores);
          return Moved;
        }
        var restored := RollBack();
        result := if restored && outcome.Refused? then RolledBack else Broken;
      }
      if result.RolledBack? {
        BackToStart(start, group, target, marks, stores);
      }
    }
  }

  predicate IntoItself(group: string, target: string)
  {
    target == group || (|group| < |target| && target[..|group| + 1] == group + "/")
  }

  ghost predicate Ready(start: map<Key, Folder>, group: string, target: string, faults: set<Fault>)
  {
    && !IntoItself(group, target) && Check !in faults && MoveDirectory !in faults
    && AllRewritable(start, group, faults, Issues, 0) && AllRewritable(start, group, faults, Reviews, 0)
  }

  /** Stores that have been rewritten once can be rewritten back, unless that fails by itself. */
  lemma {:induction false} OnlyFaultsStopTheUndo(start: map<Key, Folder>, group: string, target: string,
                                                 faults: set<Fault>, marks: Marks, stores: Stores, kind: Kind,
                                                 pass: nat)
    requires Arranged(start, group, target, marks, stores) && AllAt(start, kind, marks, New)
    requires pass > 0 && !AllRewritable(start, group, faults, kind, pass)
    ensures UndoFails(faults)
  {
    if Walk(kind, pass) in faults {
      assert UndoFault(Walk(kind, pass));
    } else {
      var key :| key in start && key.kind == kind && !Rewritable(start, group, faults, key, pass);
      assert MarkOf(marks, key).New?;
      assert UndoFault(Fail(key, pass)) && UndoFault(Jam(key, pass));
    }
  }

  function There(forward: bool): (mark: Mark)
  {
    if forward then New else Old
  }

  function Here(forward: bool): (mark: Mark)
  {
    if forward then Old else New
  }

  ghost predicate AllRewritable(start: map<Key, Folder>, group: string, faults: set<Fault>, kind: Kind, pass: nat)
  {
    && Walk(kind, pass) !in faults
    && forall key :: key in start && key.kind == kind ==> Rewritable(start, group, faults, key, pass)
  }

  ghost predicate AllBefore(keys: seq<Key>, count: nat, marks: Marks, mark: Mark)
  {
    forall i :: 0 <= i < |keys| && i < count ==> MarkOf(marks, keys[i]) == mark
  }

  ghost predicate AllBelong(start: map<Key, Folder>, group: string, keys: seq<Key>, count: nat)
  {
    forall i :: 0 <= i < |keys| && i < count ==> keys[i] in start && Belongs(start[keys[i]], Full(group, keys[i].rel))
  }

  /** Of the first `completed` stores those from `index` on have been taken back, the others are
      as they were. */
  ghost predicate TakenBack(keys: seq<Key>, index: nat, completed: nat, before: Marks, marks: Marks, mark: Mark)
  {
    forall i :: 0 <= i < |keys| ==> MarkOf(marks, keys[i]) == if index <= i < completed then mark
        else MarkOf(before, keys[i])
  }

  lemma {:induction false} OneChanged(keys: seq<Key>, index: nat, kind: Kind, first: Marks, before: Marks,
                                      after: Marks, mark: Mark)
    requires Distinct(keys) && index < |keys| && keys[index].kind == kind && OthersSame(kind, first, before)
    requires AllBefore(keys, index + 1, before, mark)
    requires forall key :: key != keys[index] ==> MarkOf(after, key) == MarkOf(before, key)
    ensures OthersSame(kind, first, after) && AllBefore(keys, index, after, mark)
  {
  }

  lemma {:induction false} OneBack(keys: seq<Key>, index: nat, completed: nat, first: Marks, before: Marks,
                                   after: Marks, mark: Mark)
    requires Distinct(keys) && index < |keys| && index < completed
    requires TakenBack(keys, index + 1, completed, first, before, mark) && after == before[keys[index] := mark]
    ensures TakenBack(keys, index, completed, first, after, mark)
  {
  }

  lemma {:induction false} OneRewritten(keys: seq<Key>, index: nat, kind: Kind, first: Marks, before: Marks,
                                        after: Marks, forward: bool)
    requires Distinct(keys) && index < |keys| && keys[index].kind == kind && OthersSame(kind, first, before)
    requires Split(keys, index, before, There(forward), Here(forward))
    requires forall key :: key != keys[index] ==> MarkOf(after, key) == MarkOf(before, key)
    ensures OthersSame(kind, first, after) && AllBefore(keys, index, after, There(forward))
    ensures after == before[keys[index] := There(forward)] ==>
        Split(keys, index + 1, after, There(forward), Here(forward))
  {
  }
}
