/** The reference-counted lock table (internal/lockmgr/lockmgr.go). An acquirer first registers
    with the entries of all its keys, then takes their read-write mutexes one by one in key
    order, and on release gives them back in reverse and drops its references; an entry whose
    count reaches zero leaves the table. */
module LockManager {
  import opened Basics
  import opened LockKeys

  // ---------------------------------------------------------------------------
  // The table

  /** `locks` names the entry of a key, `refs` counts its users. Entries are never reused: `next`
      is the first unused one. */
  datatype Table = Table(locks: map<string, nat>, refs: map<nat, nat>, next: nat)

  ghost predicate Sound(table: Table)
  {
    && (forall key :: key in table.locks ==> table.locks[key] in table.refs)
    && (forall key :: key in table.locks ==> table.locks[key] < table.next && table.refs[table.locks[key]] > 0)
    && (forall x, y :: x in table.locks && y in table.locks && table.locks[x] == table.locks[y] ==> x == y)
  }

  function Count(table: Table, key: string): (count: nat)
  {
    if key in table.locks && table.locks[key] in table.refs then table.refs[table.locks[key]] else 0
  }

  function AddOne(table: Table, key: string): (after: Table)
  {
    if key in table.locks then
      var entry := table.locks[key];
      table.(refs := table.refs[entry := (if entry in table.refs then table.refs[entry] else 0) + 1])
    else Table(table.locks[key := table.next], table.refs[table.next := 1], table.next + 1)
  }

  /** One reference less on an entry the caller kept; the key goes when the last one goes. */
  function DropOne(table: Table, key: string, entry: nat): (after: Table)
  {
    if entry !in table.refs || table.refs[entry] <= 1
    then table.(locks := table.locks - {key}, refs := table.refs - {entry})
    else table.(refs := table.refs[entry := table.refs[entry] - 1])
  }

  function Add(table: Table, requests: seq<Request>): (after: Table)
  {
    if requests == [] then table
    else AddOne(Add(table, requests[..|requests| - 1]), requests[|requests| - 1].key)
  }

  function Drop(table: Table, requests: seq<Request>, entries: seq<nat>): (after: Table)
    requires |requests| == |entries|
  {
    if requests == [] then table
    else
      var n := |requests| - 1;
      DropOne(Drop(table, requests[..n], entries[..n]), requests[n].key, entries[n])
  }

  ghost predicate Names(requests: seq<Request>, key: string)
  {
    exists i :: 0 <= i < |requests| && requests[i].key == key
  }

  lemma {:induction false} NamesOneMore(requests: seq<Request>, key: string)
    requires requests != []
    ensures
      var front, last := requests[..|requests| - 1], requests[|requests| - 1];
      Names(requests, key) <==> Names(front, key) || last.key == key
  {
    var front, last := requests[..|requests| - 1], requests[|requests| - 1];
    assert requests[|requests| - 1] == last;
    assert forall i :: 0 <= i < |front| ==> front[i] == requests[i];
  }

  lemma {:induction false} AddOneEffect(table: Table, key: string, other: string)
    requires Sound(table)
    ensures Sound(AddOne(table, key))
    ensures other in table.locks ==>
        other in AddOne(table, key).locks && AddOne(table, key).locks[other] == table.locks[other]
    ensures other in AddOne(table, key).locks <==> other in table.locks || other == key
    ensures Count(AddOne(table, key), other) == Count(table, other) + if other == key then 1 else 0
  {
  }

  lemma {:induction false} DropOneEffect(table: Table, key: string, other: string)
    requires Sound(table) && key in table.locks
    ensures
      var after := DropOne(table, key, table.locks[key]);
      && Sound(after)
      && (other in after.locks ==> other in table.locks && after.locks[other] == table.locks[other])
      && (other in table.locks && other != key ==> other in after.locks)
      && (other in after.locks <==> Count(after, other) > 0)
      && Count(after, other) == Count(table, other) - if other == key then 1 else 0
  {
  }

  lemma {:induction false} LastIsNew(requests: seq<Request>)
    requires Sorted(requests) && requests != []
    ensures !Names(requests[..|requests| - 1], requests[|requests| - 1].key)
    ensures Sorted(requests[..|requests| - 1])
  {
    var n := |requests| - 1;
    forall i | 0 <= i < n ensures requests[..n][i].key != requests[n].key {
      LessAsymmetric(requests[i].key, requests[n].key);
    }
  }

  /** Registering adds one reference to each requested key and leaves the entries in the table
      where they are. */
  lemma {:induction false} AddEffect(table: Table, requests: seq<Request>, key: string)
    requires Sound(table) && Sorted(requests)
    ensures Sound(Add(table, requests))
    ensures key in table.locks ==>
        key in Add(table, requests).locks && Add(table, requests).locks[key] == table.locks[key]
    ensures key in Add(table, requests).locks <==> key in table.locks || Names(requests, key)
    ensures Count(Add(table, requests), key) == Count(table, key) + if Names(requests, key) then 1 else 0
  {
    if requests != [] {
      var front, last := requests[..|requests| - 1], requests[|requests| - 1];
      LastIsNew(requests);
      NamesOneMore(requests, key);
      AddEffect(table, front, key);
      AddOneEffect(Add(table, front), last.key, key);
    }
  }

  /** The entries an acquirer remembers are those in the table. */
  ghost predicate Agree(table: Table, requests: seq<Request>, entries: seq<nat>)
  {
    && |requests| == |entries|
    && forall i :: 0 <= i < |requests| ==> requests[i].key in table.locks && table.locks[requests[i].key] == entries[i]
  }

  lemma {:induction false} AgreeFront(table: Table, requests: seq<Request>, entries: seq<nat>)
    requires Agree(table, requests, entries) && requests != []
    ensures Agree(table, requests[..|requests| - 1], entries[..|requests| - 1])
  {
  }

  /** Dropping takes one reference from each requested key; a key stays exactly while it is used. */
  lemma {:induction false} DropEffect(table: Table, requests: seq<Request>, entries: seq<nat>, key: string)
    requires Sound(table) && Sorted(requests) && Agree(table, requests, entries)
    ensures
      var after := Drop(table, requests, entries);
      && Sound(after)
      && (key in after.locks ==> key in table.locks && after.locks[key] == table.locks[key])
      && (key in table.locks && !Names(requests, key) ==> key in after.locks)
      && (key in after.locks <==> Count(after, key) > 0)
      && Count(after, key) == Count(table, key) - if Names(requests, key) then 1 else 0
    decreases |requests|
  {
    if requests != [] {
      var n := |requests| - 1;
      var front, last := requests[..n], requests[n];
      LastIsNew(requests);
      NamesOneMore(requests, key);
      AgreeFront(table, requests, entries);
      DropEffect(table, front, entries[..n], key);
      DropEffect(table, front, entries[..n], last.key);
      DropOneEffect(Drop(table, front, entries[..n]), last.key, key);
    }
  }

  // ---------------------------------------------------------------------------
  // The system of acquirers

  /** A call of Acquire that has registered, up to the end of its release. It holds the mutexes
      of its first `taken` entries. A writer first announces itself, which keeps new readers out,
      and then waits for the readers inside to leave. */
  datatype Acquirer = Acquirer(requests: seq<Request>, entries: seq<nat>, taken: nat, announced: bool, releasing: bool)

  datatype State = State(table: Table, live: map<nat, Acquirer>)

  datatype Step =
    | Register(id: nat, requests: seq<Request>)
    | Announce(id: nat)
    | Take(id: nat)
    | Release(id: nat)
    | Unlock(id: nat)
    | Unregister(id: nat)

  predicate Holds(acquirer: Acquirer, entry: nat)
  {
    exists i :: 0 <= i < |acquirer.entries| && i < acquirer.taken && acquirer.entries[i] == entry
  }

  predicate Writes(acquirer: Acquirer, entry: nat)
  {
    exists i :: 0 <= i < |acquirer.entries| && i < acquirer.taken && i < |acquirer.requests|
      && acquirer.entries[i] == entry && acquirer.requests[i].mode.Exclusive?
  }

  /** It still has mutexes to take. */
  predicate Waiting(acquirer: Acquirer)
  {
    !acquirer.releasing && acquirer.taken < |acquirer.requests| && acquirer.taken < |acquirer.entries|
  }

  predicate AnnouncedAt(acquirer: Acquirer, entry: nat)
  {
    Waiting(acquirer) && acquirer.announced && acquirer.entries[acquirer.taken] == entry
  }

  /** `other` stands in the way of the waiting acquirer's next move. */
  predicate Blocks(other: Acquirer, acquirer: Acquirer)
    requires Waiting(acquirer)
  {
    var entry := acquirer.entries[acquirer.taken];
    if acquirer.announced then Holds(other, entry) else Writes(other, entry) || AnnouncedAt(other, entry)
  }

  predicate Unblocked(state: State, id: nat)
    requires id in state.live && Waiting(state.live[id])
  {
    forall other :: other in state.live && other != id ==> !Blocks(state.live[other], state.live[id])
  }

  function Entries(table: Table, requests: seq<Request>): (entries: seq<nat>)
  {
    seq(|requests|, i requires 0 <= i < |requests| => if requests[i].key in table.locks
        then table.locks[requests[i].key] else 0)
  }

  function Become(state: State, id: nat, acquirer: Acquirer): (next: Option<State>)
  {
    Some(state.(live := state.live[id := acquirer]))
  }

  function Do(state: State, step: Step): (next: Option<State>)
  {
    if step.Register? then
      if step.id in state.live || step.requests == [] || !Sorted(step.requests) then None
      else
        var table := Add(state.table, step.requests);
        Some(State(table, state.live[step.id := Acquirer(step.requests, Entries(table, step.requests), 0, false,
            false)]))
    else if step.id !in state.live then None
    else
      var acquirer := state.live[step.id];
      match step
      case Announce(id) =>
        if Waiting(acquirer) && acquirer.requests[acquirer.taken].mode.Exclusive? && !acquirer.announced
            && Unblocked(state, id)
        then Become(state, id, acquirer.(announced := true)) else None
      case Take(id) =>
        if Waiting(acquirer) && acquirer.announced == acquirer.requests[acquirer.taken].mode.Exclusive?
            && Unblocked(state, id)
        then Become(state, id, acquirer.(taken := acquirer.taken + 1, announced := false)) else None
      case Release(id) =>
        if !acquirer.releasing && !Waiting(acquirer) then Become(state, id, acquirer.(releasing := true)) else None
      case Unlock(id) =>
        if acquirer.releasing && acquirer.taken > 0 then Become(state, id, acquirer.(taken := acquirer.taken - 1))
        else None
      case Unregister(id) =>
        if acquirer.releasing && acquirer.taken == 0 && |acquirer.requests| == |acquirer.entries|
        then Some(State(Drop(state.table, acquirer.requests, acquirer.entries), state.live - {id})) else None
  }

  function Run(state: State, steps: seq<Step>): (end: Option<State>)
    decreases |steps|
  {
    if steps == [] then Some(state)
    else
      var next := Do(state, steps[0]);
      if next.None? then None else Run(next.value, steps[1..])
  }

  const Empty := State(Table(map[], map[], 0), map[])

  // ---------------------------------------------------------------------------
  // The invariant

  ghost predicate AcquirerSound(table: Table, acquirer: Acquirer)
  {
    && Sorted(acquirer.requests) && Agree(table, acquirer.requests, acquirer.entries)
    && acquirer.taken <= |acquirer.requests|
    && (acquirer.announced ==> Waiting(acquirer) && acquirer.requests[acquirer.taken].mode.Exclusive?)
  }

  ghost predicate AllSound(state: State)
  {
    forall id :: id in state.live ==> AcquirerSound(state.table, state.live[id])
  }

  /** The live acquirers that asked for a key. */
  ghost function Users(live: map<nat, Acquirer>, key: string): (ids: set<nat>)
  {
    set id | id in live && Names(live[id].requests, key)
  }

  /** Every key has an entry exactly while somebody uses it, and its count is their number. */
  ghost predicate Counted(state: State)
  {
    forall key :: Count(state.table, key) == |Users(state.live, key)|
        && (key in state.table.locks <==> Users(state.live, key) != {})
  }

  /** A mutex held for writing has no other holder. */
  ghost predicate Apart(live: map<nat, Acquirer>)
  {
    forall a, b, entry :: a in live && b in live && a != b && Writes(live[a], entry) ==> !Holds(live[b], entry)
  }

  ghost predicate Inv(state: State)
  {
    Sound(state.table) && AllSound(state) && Counted(state) && Apart(state.live)
  }

  lemma {:induction false} UsersSame(live: map<nat, Acquirer>, id: nat, acquirer: Acquirer, key: string)
    requires id in live && live[id].requests == acquirer.requests
    ensures Users(live[id := acquirer], key) == Users(live, key)
  {
  }

  lemma {:induction false} UsersAdded(live: map<nat, Acquirer>, id: nat, acquirer: Acquirer, key: string)
    requires id !in live
    ensures Users(live[id := acquirer], key) == Users(live, key) + if Names(acquirer.requests, key) then {id} else {}
    ensures |Users(live[id := acquirer], key)| == |Users(live, key)| + if Names(acquirer.requests, key) then 1 else 0
  {
    assert id !in Users(live, key);
    assert Users(live[id := acquirer], key) == Users(live, key) + if Names(acquirer.requests, key) then {id} else {};
  }

  lemma {:induction false} UsersRemoved(live: map<nat, Acquirer>, id: nat, key: string)
    requires id in live
    ensures |Users(live - {id}, key)| == |Users(live, key)| - if Names(live[id].requests, key) then 1 else 0
  {
    assert Users(live - {id}, key) == Users(live, key) - {id};
  }

  lemma {:induction false} RegisterKeepsTable(state: State, id: nat, requests: seq<Request>)
    requires Inv(state) && Do(state, Register(id, requests)).Some?
    ensures
      var next := Do(state, Register(id, requests)).value;
      Sound(next.table) && Counted(next)
  {
    var next := Do(state, Register(id, requests)).value;
    AddEffect(state.table, requests, "");
    forall key ensures Count(next.table, key) == |Users(next.live, key)|
        && (key in next.table.locks <==> Users(next.live, key) != {}) {
      AddEffect(state.table, requests, key);
      UsersAdded(state.live, id, next.live[id], key);
    }
  }

  lemma {:induction false} AgreeAfter(before: Table, after: Table, requests: seq<Request>, entries: seq<nat>)
    requires Agree(before, requests, entries)
    requires forall key :: Names(requests, key) && key in before.locks ==>
        key in after.locks && after.locks[key] == before.locks[key]
    ensures Agree(after, requests, entries)
  {
    assert forall i :: 0 <= i < |requests| ==> Names(requests, requests[i].key);
  }

  lemma {:induction false} RegisterKeepsSound(state: State, id: nat, requests: seq<Request>)
    requires Inv(state) && Do(state, Register(id, requests)).Some?
    ensures AllSound(Do(state, Register(id, requests)).value)
  {
    var next := Do(state, Register(id, requests)).value;
    forall key ensures key in state.table.locks ==>
        key in next.table.locks && next.table.locks[key] == state.table.locks[key]
      ensures Names(requests, key) ==> key in next.table.locks {
      AddEffect(state.table, requests, key);
    }
    forall other | other in next.live ensures AcquirerSound(next.table, next.live[other]) {
      if other == id {
        assert forall i :: 0 <= i < |requests| ==> Names(requests, requests[i].key);
      } else {
        AgreeAfter(state.table, next.table, state.live[other].requests, state.live[other].entries);
      }
    }
  }

  lemma {:induction false} ApartWithout(live: map<nat, Acquirer>, id: nat, acquirer: Acquirer)
    requires Apart(live)
    requires forall entry :: !Holds(acquirer, entry)
    requires forall entry :: !Writes(acquirer, entry)
    ensures Apart(live[id := acquirer])
  {
  }

  lemma {:induction false} RegisterKeeps(state: State, id: nat, requests: seq<Request>)
    requires Inv(state) && Do(state, Register(id, requests)).Some?
    ensures Inv(Do(state, Register(id, requests)).value)
  {
    var next := Do(state, Register(id, requests)).value;
    RegisterKeepsTable(state, id, requests);
    RegisterKeepsSound(state, id, requests);
    ApartWithout(state.live, id, next.live[id]);
  }

  /** A key that somebody else uses outlives the one who leaves. */
  lemma {:induction false} UsedKeyStays(state: State, id: nat, other: nat, key: string)
    requires Inv(state) && id in state.live && other in state.live && other != id
    requires Agree(state.table, state.live[id].requests, state.live[id].entries)
    requires Names(state.live[other].requests, key) && key in state.table.locks
    ensures
      var after := Drop(state.table, state.live[id].requests, state.live[id].entries);
      key in after.locks && after.locks[key] == state.table.locks[key]
  {
    assert AcquirerSound(state.table, state.live[id]);
    DropEffect(state.table, state.live[id].requests, state.live[id].entries, key);
    UsersRemoved(state.live, id, key);
    assert other in Users(state.live - {id}, key);
  }

  lemma {:induction false} OthersKeepEntries(state: State, id: nat, other: nat)
    requires Inv(state) && id in state.live && other in state.live && other != id
    requires Agree(state.table, state.live[id].requests, state.live[id].entries)
    ensures AcquirerSound(Drop(state.table, state.live[id].requests, state.live[id].entries), state.live[other])
  {
    var after := Drop(state.table, state.live[id].requests, state.live[id].entries);
    forall key | Names(state.live[other].requests, key) && key in state.table.locks
      ensures key in after.locks && after.locks[key] == state.table.locks[key] {
      UsedKeyStays(state, id, other, key);
    }
    assert AcquirerSound(state.table, state.live[other]);
    AgreeAfter(state.table, after, state.live[other].requests, state.live[other].entries);
  }

  lemma {:induction false} UnregisterCounts(state: State, id: nat)
    requires Inv(state) && id in state.live
    requires Agree(state.table, state.live[id].requests, state.live[id].entries)
    ensures
      var after := Drop(state.table, state.live[id].requests, state.live[id].entries);
      Sound(after) && Counted(State(after, state.live - {id}))
  {
    var acquirer := state.live[id];
    assert AcquirerSound(state.table, acquirer);
    var after := Drop(state.table, acquirer.requests, acquirer.entries);
    DropEffect(state.table, acquirer.requests, acquirer.entries, "");
    forall key ensures Count(after, key) == |Users(state.live - {id}, key)|
        && (key in after.locks <==> Users(state.live - {id}, key) != {}) {
      DropEffect(state.table, acquirer.requests, acquirer.entries, key);
      UsersRemoved(state.live, id, key);
    }
  }

  lemma {:induction false} ApartFewer(live: map<nat, Acquirer>, id: nat)
    requires Apart(live)
    ensures Apart(live - {id})
  {
  }

  lemma {:induction false} UnregisterSound(state: State, id: nat)
    requires Inv(state) && id in state.live
    requires Agree(state.table, state.live[id].requests, state.live[id].entries)
    ensures AllSound(State(Drop(state.table, state.live[id].requests, state.live[id].entries), state.live - {id}))
  {
    forall other | other in state.live && other != id
      ensures AcquirerSound(Drop(state.table, state.live[id].requests, state.live[id].entries), state.live[other]) {
      OthersKeepEntries(state, id, other);
    }
  }

  lemma {:induction false} UnregisterKeeps(state: State, id: nat)
    requires Inv(state) && Do(state, Unregister(id)).Some?
    ensures Inv(Do(state, Unregister(id)).value)
  {
    assert AcquirerSound(state.table, state.live[id]);
    UnregisterCounts(state, id);
    UnregisterSound(state, id);
    ApartFewer(state.live, id);
    var next := State(Drop(state.table, state.live[id].requests, state.live[id].entries), state.live - {id});
    assert Do(state, Unregister(id)) == Some(next);
  }

  /** A step of one acquirer that leaves the table alone. */
  lemma {:induction false} ChangeKeeps(state: State, id: nat, acquirer: Acquirer)
    requires Inv(state) && id in state.live
    requires AcquirerSound(state.table, acquirer) && acquirer.requests == state.live[id].requests
    requires Apart(state.live[id := acquirer])
    ensures Inv(state.(live := state.live[id := acquirer]))
  {
    forall key ensures Users(state.live[id := acquirer], key) == Users(state.live, key) {
      UsersSame(state.live, id, acquirer, key);
    }
  }

  lemma {:induction false} TakenEntries(before: Acquirer, after: Acquirer, entry: nat)
    requires Waiting(before) && after == before.(taken := before.taken + 1, announced := false)
    ensures Holds(after, entry) <==> Holds(before, entry) || entry == before.entries[before.taken]
    ensures Writes(after, entry) <==>
            Writes(before, entry) || (entry == before.entries[before.taken]
                && before.requests[before.taken].mode.Exclusive?)
  {
    if Holds(before, entry) {
      var i :| 0 <= i < |before.entries| && i < before.taken && before.entries[i] == entry;
      assert after.entries[i] == entry && i < after.taken;
    }
    if Writes(before, entry) {
      var i :| 0 <= i < |before.entries| && i < before.taken && i < |before.requests|
        && before.entries[i] == entry && before.requests[i].mode.Exclusive?;
      assert after.entries[i] == entry && after.requests[i].mode.Exclusive? && i < after.taken;
    }
    assert after.entries[before.taken] == before.entries[before.taken] && before.taken < after.taken;
    assert after.requests[before.taken] == before.requests[before.taken];
  }

  /** The acquirer and the others do not meet at any entry that one of them writes. */
  ghost predicate AwayFrom(live: map<nat, Acquirer>, id: nat, acquirer: Acquirer)
  {
    forall other, entry :: other in live && other != id ==>
      && (Writes(acquirer, entry) ==> !Holds(live[other], entry))
      && (Writes(live[other], entry) ==> !Holds(acquirer, entry))
  }

  lemma {:induction false} ApartWith(live: map<nat, Acquirer>, id: nat, acquirer: Acquirer)
    requires Apart(live) && AwayFrom(live, id, acquirer)
    ensures Apart(live[id := acquirer])
  {
  }

  lemma {:induction false} TakenApart(live: map<nat, Acquirer>, id: nat, other: nat, after: Acquirer, entry: nat)
    requires Apart(live) && id in live && other in live && other != id
    requires Waiting(live[id]) && after == live[id].(taken := live[id].taken + 1, announced := false)
    requires live[id].announced == live[id].requests[live[id].taken].mode.Exclusive? && !Blocks(live[other], live[id])
    ensures Writes(after, entry) ==> !Holds(live[other], entry)
    ensures Writes(live[other], entry) ==> !Holds(after, entry)
  {
    TakenEntries(live[id], after, entry);
    WriterHolds(live[other], entry);
  }

  lemma {:induction false} TakenAway(live: map<nat, Acquirer>, id: nat, after: Acquirer)
    requires Apart(live) && id in live && Waiting(live[id])
    requires after == live[id].(taken := live[id].taken + 1, announced := false)
    requires live[id].announced == live[id].requests[live[id].taken].mode.Exclusive?
    requires forall other :: other in live && other != id ==> !Blocks(live[other], live[id])
    ensures AwayFrom(live, id, after)
  {
    forall other, entry | other in live && other != id
      ensures Writes(after, entry) ==> !Holds(live[other], entry)
      ensures Writes(live[other], entry) ==> !Holds(after, entry) {
      TakenApart(live, id, other, after, entry);
    }
  }

  lemma {:induction false} ApartAfterTake(state: State, id: nat)
    requires Apart(state.live) && Do(state, Take(id)).Some?
    ensures Apart(Do(state, Take(id)).value.live)
  {
    var after := state.live[id].(taken := state.live[id].taken + 1, announced := false);
    TakenAway(state.live, id, after);
    ApartWith(state.live, id, after);
  }

  lemma {:induction false} ApartAfterLess(live: map<nat, Acquirer>, id: nat, acquirer: Acquirer)
    requires Apart(live) && id in live
    requires acquirer.entries == live[id].entries && acquirer.requests == live[id].requests
        && acquirer.taken <= live[id].taken
    ensures Apart(live[id := acquirer])
  {
    assert forall entry :: Holds(acquirer, entry) ==> Holds(live[id], entry);
    assert forall entry :: Writes(acquirer, entry) ==> Writes(live[id], entry);
  }

  lemma {:induction false} StepKeepsInv(state: State, step: Step)
    requires Inv(state) && Do(state, step).Some?
    ensures Inv(Do(state, step).value)
  {
    match step
    case Register(id, requests) => RegisterKeeps(state, id, requests);
    case Unregister(id) => UnregisterKeeps(state, id);
    case Take(id) =>
      ApartAfterTake(state, id);
      ChangeKeeps(state, id, Do(state, step).value.live[id]);
    case Announce(id) =>
      ApartAfterLess(state.live, id, Do(state, step).value.live[id]);
      ChangeKeeps(state, id, Do(state, step).value.live[id]);
    case Release(id) =>
      ApartAfterLess(state.live, id, Do(state, step).value.live[id]);
      ChangeKeeps(state, id, Do(state, step).value.live[id]);
    case Unlock(id) =>
      ApartAfterLess(state.live, id, Do(state, step).value.live[id]);
      ChangeKeeps(state, id, Do(state, step).value.live[id]);
  }

  lemma {:induction false} RunKeepsInv(state: State, steps: seq<Step>)
    requires Inv(state) && Run(state, steps).Some?
    ensures Inv(Run(state, steps).value)
    decreases |steps|
  {
    if steps != [] {
      StepKeepsInv(state, steps[0]);
      RunKeepsInv(Do(state, steps[0]).value, steps[1..]);
    }
  }

  lemma {:induction false} EmptyInv()
    ensures Inv(Empty)
  {
    assert forall key :: Users(Empty.live, key) == {};
  }

  ghost predicate Reachable(state: State)
  {
    exists steps :: Run(Empty, steps) == Some(state)
  }

  lemma {:induction false} ReachableInv(state: State)
    requires Reachable(state)
    ensures Inv(state)
  {
    var steps :| Run(Empty, steps) == Some(state);
    EmptyInv();
    RunKeepsInv(Empty, steps);
  }

  // ---------------------------------------------------------------------------
  // What callers rely on

  /** The acquirer holds the lock of a key, and whether for writing. */
  ghost predicate HoldsKey(acquirer: Acquirer, key: string)
  {
    exists i :: 0 <= i < |acquirer.requests| && i < acquirer.taken && acquirer.requests[i].key == key
  }

  ghost predicate WritesKey(acquirer: Acquirer, key: string)
  {
    exists i :: 0 <= i < |acquirer.requests| && i < acquirer.taken && acquirer.requests[i] == Request(key, Exclusive)
  }

  lemma {:induction false} KeyIsEntry(table: Table, acquirer: Acquirer, key: string)
    requires Sound(table) && AcquirerSound(table, acquirer) && key in table.locks
    ensures HoldsKey(acquirer, key) <==> Holds(acquirer, table.locks[key])
    ensures WritesKey(acquirer, key) <==> Writes(acquirer, table.locks[key])
  {
    if HoldsKey(acquirer, key) {
      var i :| 0 <= i < |acquirer.requests| && i < acquirer.taken && acquirer.requests[i].key == key;
      assert acquirer.entries[i] == table.locks[key];
    }
    if WritesKey(acquirer, key) {
      var i :| 0 <= i < |acquirer.requests| && i < acquirer.taken && acquirer.requests[i] == Request(key, Exclusive);
      assert acquirer.entries[i] == table.locks[key];
    }
    if Writes(acquirer, table.locks[key]) {
      var i :| 0 <= i < |acquirer.entries| && i < acquirer.taken && i < |acquirer.requests|
        && acquirer.entries[i] == table.locks[key] && acquirer.requests[i].mode.Exclusive?;
      assert acquirer.requests[i] == Request(key, Exclusive);
    }
    if Holds(acquirer, table.locks[key]) {
      var i :| 0 <= i < |acquirer.entries| && i < acquirer.taken && acquirer.entries[i] == table.locks[key];
      assert acquirer.requests[i].key == key;
    }
  }

  /** In every reachable state all users of a key share the one entry in the table, whose count
      is their number, and nothing is kept for a key without users. */
  lemma {:induction false} UsersShareOneEntry(state: State, key: string)
    requires Reachable(state)
    ensures key in state.table.locks <==> Users(state.live, key) != {}
    ensures Count(state.table, key) == |Users(state.live, key)|
    ensures forall id, i ::
              id in state.live && 0 <= i < |state.live[id].requests| && state.live[id].requests[i].key == key ==>
                && key in state.table.locks && |state.live[id].entries| == |state.live[id].requests|
                && state.live[id].entries[i] == state.table.locks[key]
  {
    ReachableInv(state);
    forall id, i | id in state.live && 0 <= i < |state.live[id].requests| && state.live[id].requests[i].key == key
      ensures key in state.table.locks && |state.live[id].entries| == |state.live[id].requests|
          && state.live[id].entries[i] == state.table.locks[key] {
      assert AcquirerSound(state.table, state.live[id]);
    }
  }

  /** Whoever holds a key exclusively is its only holder. */
  lemma {:induction false} ExclusiveHolderIsAlone(state: State, a: nat, b: nat, key: string)
    requires Reachable(state) && a in state.live && b in state.live && a != b
    requires WritesKey(state.live[a], key)
    ensures !HoldsKey(state.live[b], key)
  {
    ReachableInv(state);
    var i :| 0 <= i < |state.live[a].requests| && i < state.live[a].taken
        && state.live[a].requests[i] == Request(key, Exclusive);
    assert AcquirerSound(state.table, state.live[a]) && AcquirerSound(state.table, state.live[b]);
    KeyIsEntry(state.table, state.live[a], key);
    KeyIsEntry(state.table, state.live[b], key);
  }

  /** The acquirer waits for the key as a writer that has announced itself. */
  ghost predicate AnnouncedFor(acquirer: Acquirer, key: string)
  {
    Waiting(acquirer) && acquirer.announced && acquirer.requests[acquirer.taken].key == key
  }

  lemma {:induction false} AnnouncedIsEntry(table: Table, acquirer: Acquirer, key: string)
    requires Sound(table) && AcquirerSound(table, acquirer) && key in table.locks
    ensures AnnouncedFor(acquirer, key) <==> AnnouncedAt(acquirer, table.locks[key])
  {
  }

  /** A reader enters exactly if nobody else writes the key or has announced to: readers do not keep
      each other out. A writer that has announced itself enters exactly if nobody else holds the key. */
  lemma {:induction false} EntersExactly(state: State, id: nat)
    requires Reachable(state) && id in state.live && Waiting(state.live[id])
    ensures
      var key := state.live[id].requests[state.live[id].taken].key;
      var others := set other | other in state.live && other != id;
      && (!state.live[id].requests[state.live[id].taken].mode.Exclusive? ==>
            (Do(state, Take(id)).Some? <==>
              forall other :: other in others ==>
                !WritesKey(state.live[other], key) && !AnnouncedFor(state.live[other], key)))
      && (state.live[id].announced ==>
            (Do(state, Take(id)).Some? <==> forall other :: other in others ==> !HoldsKey(state.live[other], key)))
  {
    ReachableInv(state);
    var acquirer := state.live[id];
    assert AcquirerSound(state.table, acquirer);
    var key := acquirer.requests[acquirer.taken].key;
    var others := set other | other in state.live && other != id;
    forall other | other in others
      ensures Blocks(state.live[other], acquirer) <==>
        if acquirer.announced then HoldsKey(state.live[other], key)
        else WritesKey(state.live[other], key) || AnnouncedFor(state.live[other], key) {
      assert AcquirerSound(state.table, state.live[other]);
      KeyIsEntry(state.table, state.live[other], key);
      AnnouncedIsEntry(state.table, state.live[other], key);
    }
    assert Unblocked(state, id) <==> forall other :: other in others ==> !Blocks(state.live[other], acquirer);
  }

  /** Callers that have completed conflicting requests are never there together. */
  lemma {:induction false} ConflictingNeverTogether(state: State, a: nat, b: nat)
    requires Reachable(state) && a in state.live && b in state.live && a != b
    requires state.live[a].taken == |state.live[a].requests| && state.live[b].taken == |state.live[b].requests|
    ensures !Conflict(state.live[a].requests, state.live[b].requests)
  {
    var left, right := state.live[a].requests, state.live[b].requests;
    forall key: string
      ensures !(Asks(left, key, Exclusive) && (Asks(right, key, Exclusive) || Asks(right, key, Shared)))
      ensures !(Asks(right, key, Exclusive) && Asks(left, key, Shared)) {
      if Asks(left, key, Exclusive) {
        ExclusiveHolderIsAlone(state, a, b, key);
      }
      if Asks(right, key, Exclusive) {
        ExclusiveHolderIsAlone(state, b, a, key);
      }
    }
  }

  // ---------------------------------------------------------------------------
  // No deadlock

  ghost predicate WaitsFor(state: State, a: nat, b: nat)
  {
    a in state.live && b in state.live && a != b && Waiting(state.live[a]) && Blocks(state.live[b], state.live[a])
  }

  function WantedKey(acquirer: Acquirer): (key: string)
    requires Waiting(acquirer)
  {
    acquirer.requests[acquirer.taken].key
  }

  /** Waiting acquirers are ranked by the key they want, an announced writer above the rest. */
  ghost predicate Below(a: Acquirer, b: Acquirer)
    requires Waiting(a) && Waiting(b)
  {
    Less(WantedKey(a), WantedKey(b)) || (WantedKey(a) == WantedKey(b) && !a.announced && b.announced)
  }

  lemma {:induction false} BelowTransitive(a: Acquirer, b: Acquirer, c: Acquirer)
    requires Waiting(a) && Waiting(b) && Waiting(c) && Below(a, b) && Below(b, c)
    ensures Below(a, c)
  {
    if Less(WantedKey(a), WantedKey(b)) && Less(WantedKey(b), WantedKey(c)) {
      LessTransitive(WantedKey(a), WantedKey(b), WantedKey(c));
    }
  }

  lemma {:induction false} WantedEntry(state: State, id: nat)
    requires Inv(state) && id in state.live && Waiting(state.live[id])
    ensures WantedKey(state.live[id]) in state.table.locks
    ensures state.table.locks[WantedKey(state.live[id])] == state.live[id].entries[state.live[id].taken]
  {
    assert AcquirerSound(state.table, state.live[id]);
  }

  /** Who holds a key and waits, waits for a later key. */
  lemma {:induction false} HolderWantsMore(table: Table, acquirer: Acquirer, key: string)
    requires AcquirerSound(table, acquirer) && Waiting(acquirer) && HoldsKey(acquirer, key)
    ensures Less(key, WantedKey(acquirer))
  {
  }

  lemma {:induction false} WriterHolds(acquirer: Acquirer, entry: nat)
    ensures Writes(acquirer, entry) ==> Holds(acquirer, entry)
  {
  }

  lemma {:induction false} WaitGoesUp(state: State, a: nat, b: nat)
    requires Inv(state) && WaitsFor(state, a, b) && Waiting(state.live[b])
    ensures Below(state.live[a], state.live[b])
  {
    var left, right := state.live[a], state.live[b];
    var key := WantedKey(left);
    assert AcquirerSound(state.table, left) && AcquirerSound(state.table, right);
    WantedEntry(state, a);
    KeyIsEntry(state.table, right, key);
    WriterHolds(right, state.table.locks[key]);
    if HoldsKey(right, key) {
      HolderWantsMore(state.table, right, key);
    } else {
      WantedEntry(state, b);
    }
  }

  ghost predicate Chain(state: State, path: seq<nat>)
  {
    forall i :: 0 <= i < |path| - 1 ==> WaitsFor(state, path[i], path[i + 1])
  }

  lemma {:induction false} ChainGoesUp(state: State, path: seq<nat>, n: nat)
    requires Inv(state) && Chain(state, path) && 0 < n < |path| && path[n] in state.live && Waiting(state.live[path[n]])
    ensures path[0] in state.live && Waiting(state.live[path[0]]) && Below(state.live[path[0]], state.live[path[n]])
    decreases n
  {
    assert WaitsFor(state, path[n - 1], path[n - 1 + 1]);
    WaitGoesUp(state, path[n - 1], path[n]);
    if n > 1 {
      ChainGoesUp(state, path, n - 1);
      BelowTransitive(state.live[path[0]], state.live[path[n - 1]], state.live[path[n]]);
    }
  }

  /** No acquirers ever wait for each other in a circle. */
  lemma {:induction false} NoCircularWait(state: State, path: seq<nat>)
    requires Reachable(state) && |path| > 1 && Chain(state, path)
    ensures path[0] != path[|path| - 1]
  {
    ReachableInv(state);
    assert WaitsFor(state, path[0], path[0 + 1]);
    if path[0] == path[|path| - 1] {
      ChainGoesUp(state, path, |path| - 1);
      LessIrreflexive(WantedKey(state.live[path[0]]));
    }
  }

  /** Some waiting acquirer that no other waiting one is ranked above. */
  lemma {:induction false} SomeTop(state: State, ids: set<nat>) returns (top: nat)
    requires ids != {} && forall id :: id in ids ==> id in state.live && Waiting(state.live[id])
    ensures top in ids && forall id :: id in ids ==> !Below(state.live[top], state.live[id])
  {
    var id :| id in ids;
    var rest := ids - {id};
    LessIrreflexive(WantedKey(state.live[id]));
    if rest == {} {
      assert forall other :: other in ids ==> other == id || other in rest;
      return id;
    }
    top := SomeTop(state, rest);
    if Below(state.live[top], state.live[id]) {
      forall other | other in ids ensures !Below(state.live[id], state.live[other]) {
        if other != id && Below(state.live[id], state.live[other]) {
          BelowTransitive(state.live[top], state.live[id], state.live[other]);
        }
      }
      top := id;
    }
  }

  ghost predicate CanMove(state: State)
  {
    exists step :: Do(state, step).Some? && !step.Register?
  }

  /** While anybody is there, somebody can go on: the system is never stuck. */
  lemma {:induction false} NeverStuck(state: State)
    requires Reachable(state) && state.live != map[]
    ensures CanMove(state)
  {
    ReachableInv(state);
    if id :| id in state.live && !Waiting(state.live[id]) {
      OthersMove(state, id);
    } else {
      var id :| id in state.live;
      assert state.live.Keys != {};
      var top := SomeTop(state, state.live.Keys);
      TopMoves(state, top);
    }
  }

  /** If everybody waits, nobody stands in the way of one that none is ranked above. */
  lemma {:induction false} TopMoves(state: State, top: nat)
    requires Inv(state) && top in state.live && forall id :: id in state.live ==> Waiting(state.live[id])
    requires forall id :: id in state.live ==> !Below(state.live[top], state.live[id])
    ensures CanMove(state)
  {
    forall other | other in state.live && other != top ensures !Blocks(state.live[other], state.live[top]) {
      if WaitsFor(state, top, other) {
        WaitGoesUp(state, top, other);
      }
    }
    assert AcquirerSound(state.table, state.live[top]);
    UnblockedMoves(state, top);
  }

  lemma {:induction false} UnblockedMoves(state: State, id: nat)
    requires id in state.live && Waiting(state.live[id]) && Unblocked(state, id)
    requires AcquirerSound(state.table, state.live[id])
    ensures CanMove(state)
  {
    if state.live[id].announced == state.live[id].requests[state.live[id].taken].mode.Exclusive? {
      assert Do(state, Take(id)).Some?;
    } else {
      assert Do(state, Announce(id)).Some?;
    }
  }

  lemma {:induction false} OthersMove(state: State, id: nat)
    requires Inv(state) && id in state.live && !Waiting(state.live[id])
    ensures CanMove(state)
  {
    var acquirer := state.live[id];
    assert AcquirerSound(state.table, acquirer);
    if !acquirer.releasing {
      assert Do(state, Release(id)).Some?;
    } else if acquirer.taken > 0 {
      assert Do(state, Unlock(id)).Some?;
    } else {
      assert Do(state, Unregister(id)).Some?;
    }
  }

  /** When everybody has left, the table is empty. */
  lemma {:induction false} NothingLeftBehind(state: State)
    requires Reachable(state) && state.live == map[]
    ensures state.table.locks == map[]
  {
    ReachableInv(state);
    forall key ensures key !in state.table.locks {
      assert Users(state.live, key) == {};
    }
  }

  // ---------------------------------------------------------------------------
  // The two sections of Acquire and its release that run under the manager's own mutex

  class Manager {
    var locks: map<string, nat>
    var refs: map<nat, nat>
    var next: nat

    constructor ()
      ensures Now() == Empty.table
    {
      locks, refs, next := map[], map[], 0;
    }

    ghost function Now(): (table: Table)
      reads this
    {
      Table(locks, refs, next)
    }

    method AddReference(key: string) returns (candidate: nat)
      requires Sound(Now())
      modifies this
      ensures Now() == AddOne(old(Now()), key) && Sound(Now())
      ensures key in locks && locks[key] == candidate
    {
      AddOneEffect(Now(), key, key);
      if key !in locks {
        locks, refs, next := locks[key := next], refs[next := 0], next + 1;
      }
      candidate := locks[key];
      refs := refs[candidate := refs[candidate] + 1];
    }

    method DropReference(key: string, entry: nat)
      requires Sound(Now()) && key in locks && locks[key] == entry
      modifies this
      ensures Now() == DropOne(old(Now()), key, entry)
    {
      refs := refs[entry := refs[entry] - 1];
      if refs[entry] == 0 {
        locks, refs := locks - {key}, refs - {entry};
      }
    }

    /** The first section of Acquire. */
    method Register(normalized: seq<Request>) returns (entries: seq<nat>)
      requires Sound(Now()) && Sorted(normalized)
      modifies this
      ensures Now() == Add(old(Now()), normalized) && Sound(Now())
      ensures Agree(Now(), normalized, entries)
    {
      ghost var start := Now();
      entries := [];
      for index := 0 to |normalized|
        invariant |entries| == index && Now() == Add(start, normalized[..index])
        invariant Sound(Now()) && Agree(Now(), normalized[..index], entries)
      {
        ghost var before := Now();
        var candidate := AddReference(normalized[index].key);
        RegisteredOneMore(start, before, normalized, index, entries, candidate);
        entries := entries + [candidate];
      }
      assert normalized[..|normalized|] == normalized;
    }

    /** The last section of the release. */
    method Unregister(normalized: seq<Request>, entries: seq<nat>)
      requires Sound(Now()) && Sorted(normalized) && Agree(Now(), normalized, entries)
      modifies this
      ensures Now() == Drop(old(Now()), normalized, entries) && Sound(Now())
    {
      ghost var start := Now();
      for index := 0 to |normalized|
        invariant Now() == Drop(start, normalized[..index], entries[..index])
      {
        NextStillThere(start, normalized, entries, index);
        DropReference(normalized[index].key, entries[index]);
        DroppedOneMore(start, normalized, entries, index);
      }
      assert normalized[..|normalized|] == normalized && entries[..|entries|] == entries;
      DropEffect(start, normalized, entries, "");
    }
  }

  lemma {:induction false} RegisteredOneMore(start: Table, before: Table, normalized: seq<Request>, index: nat,
                                             entries: seq<nat>, entry: nat)
    requires index < |normalized| && before == Add(start, normalized[..index]) && Sound(before)
    requires |entries| == index && Agree(before, normalized[..index], entries)
    requires entry == AddOne(before, normalized[index].key).locks[normalized[index].key]
    ensures AddOne(before, normalized[index].key) == Add(start, normalized[..index + 1])
    ensures Agree(AddOne(before, normalized[index].key), normalized[..index + 1], entries + [entry])
  {
    var more, front := normalized[..index + 1], normalized[..index];
    assert more[..|more| - 1] == front && more[|more| - 1] == normalized[index];
    forall i | 0 <= i < index ensures more[i].key in AddOne(before, normalized[index].key).locks
      && AddOne(before, normalized[index].key).locks[more[i].key] == (entries + [entry])[i] {
      assert more[i] == front[i];
    }
  }

  lemma {:induction false} PrefixFits(start: Table, normalized: seq<Request>, entries: seq<nat>, index: nat)
    requires Agree(start, normalized, entries) && index <= |normalized| && Sorted(normalized)
    ensures Agree(start, normalized[..index], entries[..index]) && Sorted(normalized[..index])
  {
  }

  /** The next key has not been dropped yet. */
  lemma {:induction false} NextStillThere(start: Table, normalized: seq<Request>, entries: seq<nat>, index: nat)
    requires Sound(start) && Sorted(normalized) && Agree(start, normalized, entries) && index < |normalized|
    ensures
      var table, key := Drop(start, normalized[..index], entries[..index]), normalized[index].key;
      Sound(table) && key in table.locks && table.locks[key] == entries[index] && entries[index] in table.refs
  {
    PrefixFits(start, normalized, entries, index);
    PrefixFits(start, normalized, entries, index + 1);
    var more := normalized[..index + 1];
    LastIsNew(more);
    assert more[..|more| - 1] == normalized[..index] && more[|more| - 1] == normalized[index];
    DropEffect(start, normalized[..index], entries[..index], normalized[index].key);
  }

  lemma {:induction false} DroppedOneMore(start: Table, normalized: seq<Request>, entries: seq<nat>, index: nat)
    requires index < |normalized| && |normalized| == |entries|
    ensures Drop(start, normalized[..index + 1], entries[..index + 1])
            == DropOne(Drop(start, normalized[..index], entries[..index]), normalized[index].key, entries[index])
  {
    var more, kept := normalized[..index + 1], entries[..index + 1];
    assert more[..index] == normalized[..index] && kept[..index] == entries[..index];
  }
}
