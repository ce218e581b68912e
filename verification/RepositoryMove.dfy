/** Renaming a repository (internal/storage/storage.go, internal/review/lifecycle.go,
    internal/issue/lifecycle.go and the relocate functions of the two record stores): five pieces
    of data move one after another, and what has moved is moved back when a later step fails. */
module RepositoryMove {
  import opened Basics
  import opened RecordStores

  datatype Kind = Git | Lfs | Build | Reviews | Issues

  /** Where data is on the disk; `Aside` is the backup directory of a relocation. */
  datatype Location = At(kind: Kind, name: string) | Aside(kind: Kind)

  datatype Node = Directory(folder: Folder) | Plain(content: string)

  type Disk = map<Location, Node>

  /** A file system operation that fails. Every operation happens at most once in a rename. */
  datatype Fault =
    | Check
    | Move(kind: Kind)
    | Undo(kind: Kind)
    | Stage(kind: Kind, back: bool)
    | SetAside(kind: Kind, back: bool)
    | SwapIn(kind: Kind, back: bool)
    | PutBack(kind: Kind, back: bool)

  datatype Outcome = Done | Refused | Stuck

  function Kinds(): (kinds: seq<Kind>)
  {
    [Git, Lfs, Build, Reviews, Issues]
  }

  function Look(disk: Disk, at: Location): (node: Option<Node>)
  {
    if at in disk then Some(disk[at]) else None
  }

  function Shifted(disk: Disk, from: Location, to: Location, node: Node): (after: Disk)
  {
    (disk - {from})[to := node]
  }

  ghost function Renamed(node: Node, name: string): (after: Node)
  {
    if node.Directory? then Directory(Readdressed(node.folder, name)) else node
  }

  /** A store that relocate accepts. */
  ghost predicate Relocatable(node: Node, name: string)
  {
    node.Directory? && Belongs(node.folder, name)
  }

  // ---------------------------------------------------------------------------
  // Where each piece of data is during a rename

  datatype Where = Old | New | OldAside | NewAside

  type Places = map<Kind, Where>

  function Place(places: Places, kind: Kind): (at: Where)
  {
    if kind in places then places[kind] else Old
  }

  predicate HasRecords(kind: Kind)
  {
    kind.Reviews? || kind.Issues?
  }

  /** The data as it is under the new name. */
  ghost function Arrived(kind: Kind, node: Option<Node>, name: string): (after: Option<Node>)
  {
    if node.None? then None else Some(if HasRecords(kind) then Renamed(node.value, name) else node.value)
  }

  /** What is at a location of a disk whose data is where `places` says and that was `start` before. */
  ghost function Expected(start: Disk, source: string, target: string, places: Places,
                          at: Location): (node: Option<Node>)
  {
    match at
    case At(kind, name) =>
      if name == source then if Place(places, kind).Old? then Look(start, at) else None
      else if name == target && Place(places, kind).New? then Arrived(kind, Look(start, At(kind, source)), target)
      else Look(start, at)
    case Aside(kind) =>
      if Place(places, kind).OldAside? then Look(start, At(kind, source))
      else if Place(places, kind).NewAside? then Arrived(kind, Look(start, At(kind, source)), target)
      else None
  }

  /** Every piece of data is in exactly one place, the one `places` names, and the rest of the
      disk is untouched. */
  ghost predicate Arranged(start: Disk, source: string, target: string, places: Places, disk: Disk)
  {
    forall at :: Look(disk, at) == Expected(start, source, target, places, at)
  }

  lemma {:induction false} SameLooks(left: Disk, right: Disk)
    requires forall at :: Look(left, at) == Look(right, at)
    ensures left == right
  {
    forall at ensures (at in left <==> at in right) && (at in left ==> left[at] == right[at]) {
      assert Look(left, at) == Look(right, at);
    }
  }

  ghost predicate Clean(start: Disk, target: string)
  {
    forall kind :: At(kind, target) !in start && Aside(kind) !in start
  }

  lemma {:induction false} ArrangedAtFirst(start: Disk, source: string, target: string)
    requires forall kind :: Aside(kind) !in start
    ensures Arranged(start, source, target, map[], start)
  {
  }

  /** With everything at the old name, nothing has changed. */
  lemma {:induction false} BackToStart(start: Disk, source: string, target: string, places: Places, disk: Disk)
    requires Arranged(start, source, target, places, disk) && (forall kind :: Aside(kind) !in start)
    requires forall kind :: Place(places, kind).Old? || At(kind, source) !in start
    requires forall kind :: Place(places, kind).New? ==> At(kind, target) !in start
    ensures disk == start
  {
    forall at ensures Look(disk, at) == Look(start, at) {
      assert Look(disk, at) == Expected(start, source, target, places, at);
    }
    SameLooks(disk, start);
  }

  /** One piece of data changes its place. */
  lemma {:induction false} Rearranged(start: Disk, source: string, target: string, places: Places, disk: Disk,
                                      kind: Kind, to: Where, after: Disk)
    requires Arranged(start, source, target, places, disk)
    requires forall at: Location :: at.kind != kind ==> Look(after, at) == Look(disk, at)
    requires forall at: Location :: at.kind == kind ==>
        Look(after, at) == Expected(start, source, target, places[kind := to], at)
    ensures Arranged(start, source, target, places[kind := to], after)
  {
    forall at ensures Look(after, at) == Expected(start, source, target, places[kind := to], at) {
      if at.kind != kind {
        assert Look(after, at) == Look(disk, at) == Expected(start, source, target, places, at);
      }
    }
  }

  /** The place of a kind's data. */
  function Spot(kind: Kind, source: string, target: string, at: Where): (location: Location)
  {
    match at
    case Old => At(kind, source)
    case New => At(kind, target)
    case _ => Aside(kind)
  }

  /** The data as it is at a place. */
  ghost function Form(start: Disk, kind: Kind, source: string, target: string, at: Where): (node: Option<Node>)
  {
    if at.Old? || at.OldAside? then Look(start, At(kind, source))
    else Arrived(kind, Look(start, At(kind, source)), target)
  }

  /** Taking a kind's data from its place and putting it, in the right form, to another. */
  lemma {:induction false} ShiftRearranges(start: Disk, source: string, target: string, places: Places, disk: Disk,
                                           kind: Kind, to: Where, node: Node)
    requires Arranged(start, source, target, places, disk) && Clean(start, target) && source != target
    requires At(kind, source) in start && Some(node) == Form(start, kind, source, target, to)
    ensures Arranged(start, source, target, places[kind := to],
                     Shifted(disk, Spot(kind, source, target, Place(places, kind)), Spot(kind, source, target, to),
                         node))
  {
    var after := Shifted(disk, Spot(kind, source, target, Place(places, kind)), Spot(kind, source, target, to), node);
    forall at: Location | at.kind == kind ensures Look(after, at)
        == Expected(start, source, target, places[kind := to], at) {
      assert Look(disk, at) == Expected(start, source, target, places, at);
    }
    Rearranged(start, source, target, places, disk, kind, to, after);
  }

  // ---------------------------------------------------------------------------
  // When a rename succeeds

  predicate UndoFault(fault: Fault)
  {
    fault.Undo? || fault.PutBack? || ((fault.Stage? || fault.SetAside? || fault.SwapIn?) && fault.back)
  }

  /** Some step of an undo fails. */
  ghost predicate UndoFails(faults: set<Fault>)
  {
    exists fault :: fault in faults && UndoFault(fault)
  }

  ghost predicate StoreReady(start: Disk, kind: Kind, source: string, faults: set<Fault>)
  {
    At(kind, source) in start ==>
      && Relocatable(start[At(kind, source)], source)
      && Stage(kind, false) !in faults && SetAside(kind, false) !in faults && SwapIn(kind, false) !in faults
  }

  ghost predicate SidecarsReady(start: Disk, source: string, target: string, faults: set<Fault>)
  {
    && Check !in faults && (forall kind :: At(kind, target) !in start)
    && (forall kind: Kind :: HasRecords(kind) && At(kind, source) in start ==> start[At(kind, source)].Directory?)
    && At(Git, source) in start && Move(Git) !in faults
    && (At(Lfs, source) in start ==> Move(Lfs) !in faults)
    && (At(Build, source) in start ==> Move(Build) !in faults)
  }

  ghost predicate Ready(start: Disk, source: string, target: string, faults: set<Fault>)
  {
    SidecarsReady(start, source, target, faults) && StoreReady(start, Issues, source, faults)
        && StoreReady(start, Reviews, source, faults)
  }

  /** Everything under the new name. */
  function AllNew(): (places: Places)
  {
    map[Git := New, Lfs := New, Build := New, Reviews := New, Issues := New]
  }

  datatype Result = Moved | RolledBack | Broken

  /** The checks of moveSidecars before anything is touched. */
  method Checks(disk: Disk, source: string, target: string, faults: set<Fault>) returns (ok: bool)
    ensures ok <==>
      && Check !in faults && (forall kind :: At(kind, target) !in disk)
      && (forall kind: Kind :: HasRecords(kind) && At(kind, source) in disk ==> disk[At(kind, source)].Directory?)
  {
    if Check in faults {
      return false;
    }
    var kinds := Kinds();
    for i := 0 to |kinds|
      invariant forall k :: 0 <= k < i ==> At(kinds[k], target) !in disk
    {
      if At(kinds[i], target) in disk {
        return false;
      }
    }
    forall kind: Kind ensures At(kind, target) !in disk {
      assert kind == kinds[0] || kind == kinds[1] || kind == kinds[2] || kind == kinds[3] || kind == kinds[4];
    }
    var reviews := At(Reviews, source) in disk && !disk[At(Reviews, source)].Directory?;
    var issues := At(Issues, source) in disk && !disk[At(Issues, source)].Directory?;
    ok := !reviews && !issues;
  }

  class Mover {
    const source: string
    const target: string
    const faults: set<Fault>
    var disk: Disk
    var gitMoved: bool
    var lfsMoved: bool
    var buildMoved: bool
    var issuesMoved: bool
    ghost const start: Disk
    ghost var places: Places

    constructor (source: string, target: string, disk: Disk, faults: set<Fault>)
      requires forall kind :: Aside(kind) !in disk
      ensures Fresh() && this.source == source && this.target == target && this.faults == faults && start == disk
    {
      this.source, this.target, this.faults, this.disk := source, target, faults, disk;
      gitMoved, lfsMoved, buildMoved, issuesMoved := false, false, false, false;
      start, places := disk, map[];
      new;
      ArrangedAtFirst(start, source, target);
    }

    /** Nothing has been lost: every piece of data is where `places` says. */
    ghost predicate Valid()
      reads this
    {
      && Arranged(start, source, target, places, disk) && (forall kind :: Aside(kind) !in start)
      && (forall kind :: !Place(places, kind).Old? ==>
          Clean(start, target) && source != target && At(kind, source) in start)
    }

    ghost predicate Fresh()
      reads this
    {
      Valid() && places == map[] && !gitMoved && !lfsMoved && !buildMoved && !issuesMoved
    }

    /** The flags of the sidecars say which of them are under the new name. */
    ghost predicate Flagged()
      reads this
    {
      && Place(places, Git) == (if gitMoved then New else Old)
      && Place(places, Lfs) == (if lfsMoved then New else Old)
      && Place(places, Build) == (if buildMoved then New else Old)
    }

    ghost predicate SidecarsArrived()
      reads this
    {
      && Flagged() && gitMoved && (At(Lfs, source) in start ==> lfsMoved) && (At(Build, source) in start ==> buildMoved)
    }

    /** A plain rename of one sidecar. */
    method Rename(kind: Kind, from: string, to: string, fault: Fault) returns (ok: bool)
      modifies this`disk
      ensures ok <==> fault !in faults && At(kind, from) in old(disk)
      ensures disk == if ok then Shifted(old(disk), At(kind, from), At(kind, to), old(disk)[At(kind, from)])
          else old(disk)
    {
      ok := fault !in faults && At(kind, from) in disk;
      if ok {
        disk := Shifted(disk, At(kind, from), At(kind, to), disk[At(kind, from)]);
      }
    }

    method MoveSidecar(kind: Kind) returns (ok: bool)
      requires Valid() && !HasRecords(kind) && Place(places, kind).Old? && Clean(start, target)
      requires At(kind, source) in start && source != target
      modifies this`disk, this`places
      ensures Valid() && ok == (Move(kind) !in faults)
      ensures places == if ok then old(places)[kind := New] else old(places)
    {
      assert Look(disk, At(kind, source)) == Expected(start, source, target, places, At(kind, source));
      ghost var before := disk;
      ok := Rename(kind, source, target, Move(kind));
      if ok {
        ShiftRearranges(start, source, target, places, before, kind, New, before[At(kind, source)]);
        places := places[kind := New];
      }
    }

    method RestoreSidecar(kind: Kind) returns (ok: bool)
      requires Valid() && !HasRecords(kind) && Place(places, kind).New?
      modifies this`disk, this`places
      ensures Valid() && (!ok ==> UndoFails(faults))
      ensures places == if ok then old(places)[kind := Old] else old(places)
    {
      assert Look(disk, At(kind, target)) == Expected(start, source, target, places, At(kind, target));
      ghost var before := disk;
      ok := Rename(kind, target, source, Undo(kind));
      assert UndoFault(Undo(kind));
      if ok {
        ShiftRearranges(start, source, target, places, before, kind, Old, before[At(kind, target)]);
        places := places[kind := Old];
      }
    }

    /** moveSidecars. */
    method MoveSidecars() returns (ok: bool)
      requires Fresh()
      modifies this`disk, this`places, this`gitMoved, this`lfsMoved, this`buildMoved
      ensures Valid() && Flagged() && Place(places, Issues).Old? && Place(places, Reviews).Old?
      ensures ok <==> SidecarsReady(start, source, target, faults)
      ensures ok ==> SidecarsArrived() && Clean(start, target) && source != target
    {
      BackToStart(start, source, target, places, disk);
      ok := Checks(disk, source, target, faults);
      if !ok {
        return;
      }
      var lfsExists, buildExists := At(Lfs, source) in disk, At(Build, source) in disk;
      if At(Git, source) !in disk {
        return false;
      }
      ok := MoveSidecar(Git);
      if !ok {
        return;
      }
      gitMoved := true;
      if lfsExists {
        ok := MoveSidecar(Lfs);
        if !ok {
          return;
        }
        lfsMoved := true;
      }
      if buildExists {
        ok := MoveSidecar(Build);
        if !ok {
          return;
        }
        buildMoved := true;
      }
    }

    /** restoreSidecars: each is tried once, whatever happened to the others. */
    method RestoreSidecars() returns (ok: bool)
      requires Valid() && Flagged()
      modifies this`disk, this`places, this`gitMoved, this`lfsMoved, this`buildMoved
      ensures Valid() && !gitMoved && !lfsMoved && !buildMoved
      ensures Place(places, Issues) == old(Place(places, Issues))
          && Place(places, Reviews) == old(Place(places, Reviews))
      ensures ok ==> Flagged()
      ensures !ok ==> UndoFails(faults)
    {
      ok := true;
      if buildMoved {
        var done := RestoreSidecar(Build);
        ok := done;
        buildMoved := false;
      }
      if lfsMoved {
        var done := RestoreSidecar(Lfs);
        ok := ok && done;
        lfsMoved := false;
      }
      if gitMoved {
        var done := RestoreSidecar(Git);
        ok := ok && done;
        gitMoved := false;
      }
    }

    /** relocate of the two record stores: the readdressed records are staged beside the store,
        the store is set aside and the staged directory takes the new name. */
    method Relocate(kind: Kind, from: string, to: string, back: bool) returns (outcome: Outcome)
      requires Aside(kind) !in disk
      modifies this`disk
      ensures outcome.Done? <==>
        from == to || (At(kind, to) !in old(disk)
                       && (At(kind, from) in old(disk) ==>
                             && Relocatable(old(disk)[At(kind, from)], from)
                             && Stage(kind, back) !in faults && SetAside(kind, back) !in faults
                                 && SwapIn(kind, back) !in faults))
      ensures outcome.Done? ==>
        disk == if from == to || At(kind, from) !in old(disk) then old(disk)
                else Shifted(old(disk), At(kind, from), At(kind, to), Renamed(old(disk)[At(kind, from)], to))
      ensures outcome.Refused? ==> disk == old(disk)
      ensures outcome.Stuck? ==> At(kind, from) in old(disk) && PutBack(kind, back) in faults
      ensures outcome.Stuck? ==> disk == Shifted(old(disk), At(kind, from), Aside(kind), old(disk)[At(kind, from)])
    {
      if from == to {
        return Done;
      }
      if At(kind, to) in disk {
        return Refused;
      }
      if At(kind, from) !in disk {
        return Done;
      }
      var node := disk[At(kind, from)];
      if !node.Directory? {
        return Refused;
      }
      var staged := StageRecords(node.folder, from, to);
      if staged.None? || Stage(kind, back) in faults || SetAside(kind, back) in faults {
        return Refused;
      }
      ghost var before := disk;
      disk := Shifted(disk, At(kind, from), Aside(kind), node);
      if SwapIn(kind, back) in faults {
        if PutBack(kind, back) in faults {
          return Stuck;
        }
        disk := Shifted(disk, Aside(kind), At(kind, from), node);
        assert disk == before;
        return Refused;
      }
      disk := disk[At(kind, to) := Directory(staged.value)] - {Aside(kind)};
      outcome := Done;
    }

    /** A store goes to the new name. */
    method RelocateStore(kind: Kind) returns (outcome: Outcome)
      requires Valid() && HasRecords(kind) && Place(places, kind).Old? && Clean(start, target) && source != target
      modifies this`disk, this`places
      ensures Valid() && (outcome.Done? <==> StoreReady(start, kind, source, faults))
      ensures outcome.Done? ==> places == if At(kind, source) in start then old(places)[kind := New] else old(places)
      ensures outcome.Refused? ==> places == old(places)
      ensures outcome.Stuck? ==> PutBack(kind, false) in faults && places == old(places)[kind := OldAside]
    {
      ghost var before := disk;
      LookAt(start, source, target, places, disk, kind);
      outcome := Relocate(kind, source, target, false);
      if At(kind, source) in start && !outcome.Refused? {
        ghost var to := if outcome.Done? then New else OldAside;
        ghost var node := if outcome.Done? then Renamed(start[At(kind, source)], target) else start[At(kind, source)];
        ShiftRearranges(start, source, target, places, before, kind, to, node);
        places := places[kind := to];
      }
    }

    /** ... and back. */
    method RelocateBack(kind: Kind) returns (outcome: Outcome)
      requires Valid() && HasRecords(kind) && Clean(start, target) && source != target
      requires Place(places, kind).New? || (Place(places, kind).Old? && At(kind, source) !in start)
      requires At(kind, source) in start ==> Relocatable(start[At(kind, source)], source)
      modifies this`disk, this`places
      ensures Valid()
      ensures outcome.Done? ==> places == if At(kind, source) in start then old(places)[kind := Old] else old(places)
      ensures outcome.Refused? ==> places == old(places)
      ensures outcome.Stuck? ==> places == old(places)[kind := NewAside]
      ensures !outcome.Done? ==> UndoFails(faults)
    {
      ghost var before := disk;
      LookAt(start, source, target, places, disk, kind);
      RoundTrip(start, kind, source, target);
      outcome := Relocate(kind, target, source, true);
      if At(kind, source) in start && !outcome.Refused? {
        ghost var to := if outcome.Done? then Old else NewAside;
        ghost var node := if outcome.Done? then start[At(kind, source)] else Renamed(start[At(kind, source)], target);
        ShiftRearranges(start, source, target, places, before, kind, to, node);
        places := places[kind := to];
      }
      assert UndoFault(Stage(kind, true)) && UndoFault(SetAside(kind, true)) && UndoFault(SwapIn(kind, true))
          && UndoFault(PutBack(kind, true));
    }

    /** MoveRepositoryLocked of the issue store, around the sidecars. */
    method MoveIssues() returns (result: Result)
      requires Fresh()
      modifies this`disk, this`places, this`gitMoved, this`lfsMoved, this`buildMoved
      ensures Valid() && Place(places, Reviews).Old?
      ensures result.Moved? <==>
          SidecarsReady(start, source, target, faults) && StoreReady(start, Issues, source, faults)
      ensures result.Moved? ==> SidecarsArrived() && Clean(start, target) && source != target
      ensures result.Moved? ==> Place(places, Issues) == if At(Issues, source) in start then New else Old
      ensures result.RolledBack? ==> AllOld()
      ensures !result.Moved? ==> !gitMoved && !lfsMoved && !buildMoved
      ensures result.Broken? ==> UndoFails(faults)
    {
      var moved := MoveSidecars();
      var outcome := Refused;
      if moved {
        outcome := RelocateStore(Issues);
        if outcome.Done? {
          return Moved;
        }
        assert UndoFault(PutBack(Issues, false));
      }
      var restored := RestoreSidecars();
      result := if restored && !outcome.Stuck? then RolledBack else Broken;
    }

    ghost predicate AllOld()
      reads this
    {
      && Place(places, Git).Old? && Place(places, Lfs).Old? && Place(places, Build).Old?
      && Place(places, Reviews).Old? && Place(places, Issues).Old?
    }

    /** The rollback that RenameRepositoryLocked hands to the review store. */
    method RollBack() returns (ok: bool)
      requires Valid() && SidecarsArrived() && Clean(start, target) && source != target && issuesMoved
      requires Place(places, Issues) == if At(Issues, source) in start then New else Old
      requires At(Issues, source) in start ==> Relocatable(start[At(Issues, source)], source)
      modifies this`disk, this`places, this`gitMoved, this`lfsMoved, this`buildMoved, this`issuesMoved
      ensures Valid() && Place(places, Reviews) == old(Place(places, Reviews))
      ensures ok ==> Place(places, Issues).Old? && Flagged() && !gitMoved && !lfsMoved && !buildMoved
      ensures !ok ==> UndoFails(faults)
    {
      var outcome := RelocateBack(Issues);
      issuesMoved := false;
      var restored := RestoreSidecars();
      ok := outcome.Done? && restored;
    }

    /** RenameRepositoryLocked: all or nothing, and nothing is ever lost. A rename that is possible
        and meets no failure succeeds; one that does not succeed leaves the disk as it was, unless
        a step of the undo failed as well. */
    method RenameRepository() returns (result: Result)
      requires Fresh()
      modifies this
      ensures Arranged(start, source, target, places, disk)
      ensures result.Moved? <==> Ready(start, source, target, faults)
      ensures result.Moved? ==> Arranged(start, source, target, AllNew(), disk)
      ensures result.RolledBack? ==> disk == start
      ensures result.Broken? ==> UndoFails(faults)
    {
      result := MoveIssues();
      if !result.Moved? {
        // The rollback finds every flag cleared and does nothing more.
        if result.RolledBack? {
          FivePlaces(places, Old);
          BackToStart(start, source, target, places, disk);
        }
        return;
      }
      issuesMoved := true;
      var outcome := RelocateStore(Reviews);
      if outcome.Done? {
        Everywhere(start, source, target, places, disk);
        return Moved;
      }
      assert UndoFault(PutBack(Reviews, false));
      var restored := RollBack();
      if restored && outcome.Refused? {
        FivePlaces(places, Old);
        BackToStart(start, source, target, places, disk);
        return RolledBack;
      }
      result := Broken;
    }
  }

  lemma {:induction false} FivePlaces(places: Places, at: Where)
    requires Place(places, Git) == at && Place(places, Lfs) == at && Place(places, Build) == at
    requires Place(places, Reviews) == at && Place(places, Issues) == at
    ensures forall kind :: Place(places, kind) == at
  {
    forall kind ensures Place(places, kind) == at {
      match kind
      case Git =>
      case Lfs =>
      case Build =>
      case Reviews =>
      case Issues =>
    }
  }

  /** Every piece that exists is under the new name. */
  lemma {:induction false} Everywhere(start: Disk, source: string, target: string, places: Places, disk: Disk)
    requires Arranged(start, source, target, places, disk) && Clean(start, target) && source != target
    requires At(Git, source) in start ==> Place(places, Git).New?
    requires At(Lfs, source) in start ==> Place(places, Lfs).New?
    requires At(Build, source) in start ==> Place(places, Build).New?
    requires At(Reviews, source) in start ==> Place(places, Reviews).New?
    requires At(Issues, source) in start ==> Place(places, Issues).New?
    ensures Arranged(start, source, target, AllNew(), disk)
  {
    FivePlaces(AllNew(), New);
    forall at ensures Look(disk, at) == Expected(start, source, target, AllNew(), at) {
      assert Look(disk, at) == Expected(start, source, target, places, at);
      match at.kind
      case Git =>
      case Lfs =>
      case Build =>
      case Reviews =>
      case Issues =>
    }
  }

  /** What a kind's three locations hold. */
  lemma {:induction false} LookAt(start: Disk, source: string, target: string, places: Places, disk: Disk, kind: Kind)
    requires Arranged(start, source, target, places, disk) && Clean(start, target)
    ensures Look(disk, At(kind, source)) == Expected(start, source, target, places, At(kind, source))
    ensures Look(disk, At(kind, target)) == Expected(start, source, target, places, At(kind, target))
    ensures Look(disk, Aside(kind)) == Expected(start, source, target, places, Aside(kind))
  {
  }

  lemma {:induction false} RoundTrip(start: Disk, kind: Kind, source: string, target: string)
    requires At(kind, source) in start ==> Relocatable(start[At(kind, source)], source)
    ensures At(kind, source) in start ==>
              var node := start[At(kind, source)];
              Relocatable(Renamed(node, target), target) && Renamed(Renamed(node, target), source) == node
  {
    if At(kind, source) in start {
      ReaddressedBelongs(start[At(kind, source)].folder, source, target);
      ReaddressedBack(start[At(kind, source)].folder, source, target);
    }
  }
}
