/** Large-file uploads against a group's storage quota (internal/lfs/lfs.go). An upload reserves
    bytes while the group's LFS lock is held, receives its body without the lock, and takes the
    lock again to publish. */
module UploadQuota {
  import opened Basics

  // ---------------------------------------------------------------------------
  // Sums

  ghost function Total<K>(sizes: map<K, nat>): (sum: nat)
    decreases |sizes|
  {
    if sizes == map[] then 0
    else
      var key :| key in sizes;
      assert |sizes - {key}| < |sizes| by {
        Smaller(sizes, key);
      }
      sizes[key] + Total(sizes - {key})
  }

  lemma {:induction false} Smaller<K>(sizes: map<K, nat>, key: K)
    requires key in sizes
    ensures |sizes - {key}| < |sizes|
  {
    assert (sizes - {key}).Keys == sizes.Keys - {key};
    assert |sizes.Keys| == |sizes| && |(sizes - {key}).Keys| == |sizes - {key}|;
  }

  lemma {:induction false} TotalLess<K>(sizes: map<K, nat>, key: K)
    requires key in sizes
    ensures Total(sizes) == sizes[key] + Total(sizes - {key})
    decreases |sizes|
  {
    var first :| first in sizes && Total(sizes) == sizes[first] + Total(sizes - {first});
    if first != key {
      Smaller(sizes, first);
      Smaller(sizes, key);
      TotalLess(sizes - {first}, key);
      TotalLess(sizes - {key}, first);
      assert sizes - {first} - {key} == sizes - {key} - {first};
    }
  }

  lemma {:induction false} TotalMore<K>(sizes: map<K, nat>, key: K, size: nat)
    requires key !in sizes
    ensures Total(sizes[key := size]) == Total(sizes) + size
  {
    TotalLess(sizes[key := size], key);
    assert sizes[key := size] - {key} == sizes;
  }

  // ---------------------------------------------------------------------------
  // One group

  /** Receiving the body, having it, or done with publishing but not yet with the reservation. */
  datatype Stage = Receiving | Ready(oid: string, size: nat) | Published

  datatype Upload = Upload(reservation: nat, stage: Stage)

  /** `objects` are the published objects and their sizes, `reserved` is the counter of the
      process, `lock` is the upload that holds the group's LFS lock. Admission holds it for one
      step only. */
  datatype State = State(objects: map<string, nat>, reserved: nat, uploads: map<nat, Upload>, lock: Option<nat>)

  datatype Step =
    | Admit(id: nat, maximum: nat, length: Option<nat>)
    | Receive(id: nat, oid: string, size: nat)
    | Abort(id: nat)
    | Enter(id: nat)
    | Leave(id: nat)
    | Publish(id: nat)
    | Settle(id: nat)

  /** The bytes that usage and reservations leave. */
  function Available(usage: nat, quota: nat, reserved: nat): (bytes: nat)
  {
    if usage < quota && reserved < quota - usage then quota - usage - reserved else 0
  }

  /** The reservation of an upload: its declared length if that fits, or for an undeclared length
      as much as is allowed and available. None is a refusal. */
  function Reservation(available: nat, maximum: nat, length: Option<nat>): (bytes: Option<nat>)
  {
    if length.Some? then if length.value > available then None else Some(length.value)
    else Some(if maximum > available then available else maximum)
  }

  ghost function Usage(state: State): (bytes: nat)
  {
    Total(state.objects)
  }

  ghost predicate Refused(state: State, quota: nat, id: nat)
  {
    && id in state.uploads && state.uploads[id].stage.Ready? && state.lock == Some(id)
    && state.uploads[id].stage.oid !in state.objects
    && Usage(state) + state.uploads[id].stage.size > quota
  }

  function SetStage(state: State, id: nat, stage: Stage): (next: State)
    requires id in state.uploads
  {
    state.(uploads := state.uploads[id := state.uploads[id].(stage := stage)])
  }

  /** The reservation is given back and the upload is over. */
  function Finished(state: State, id: nat): (next: State)
    requires id in state.uploads
  {
    var bytes := state.uploads[id].reservation;
    state.(uploads := state.uploads - {id}, reserved := if bytes <= state.reserved then state.reserved - bytes else 0)
  }

  ghost function Do(quota: nat, state: State, step: Step): (next: Option<State>)
  {
    match step
    case Admit(id, maximum, length) =>
      if id in state.uploads || state.lock.Some? || (length.Some? && length.value > maximum) then None
      else
        var bytes := Reservation(Available(Usage(state), quota, state.reserved), maximum, length);
        if bytes.None? then None
        else Some(state.(uploads := state.uploads[id := Upload(bytes.value, Receiving)],
            reserved := state.reserved + bytes.value))
    case Receive(id, oid, size) =>
      if id in state.uploads && state.uploads[id].stage.Receiving? && size <= state.uploads[id].reservation
      then Some(SetStage(state, id, Ready(oid, size))) else None
    case Abort(id) =>
      if id in state.uploads && state.lock != Some(id) then Some(Finished(state, id)) else None
    case Enter(id) =>
      if id in state.uploads && state.uploads[id].stage.Ready? && state.lock.None?
      then Some(state.(lock := Some(id))) else None
    case Leave(id) =>
      // Any reason to give up after taking the lock, the storage limit among them.
      if id in state.uploads && state.uploads[id].stage.Ready? && state.lock == Some(id)
      then Some(state.(lock := None)) else None
    case Publish(id) =>
      if id !in state.uploads || !state.uploads[id].stage.Ready? || state.lock != Some(id)
          || Refused(state, quota, id) then None
      else
        var oid, size := state.uploads[id].stage.oid, state.uploads[id].stage.size;
        var after := SetStage(state, id, Published);
        Some(if oid in state.objects then after else after.(objects := state.objects[oid := size]))
    case Settle(id) =>
      if id in state.uploads && state.uploads[id].stage.Published? && state.lock == Some(id)
      then Some(Finished(state, id).(lock := None)) else None
  }

  ghost function Run(quota: nat, state: State, steps: seq<Step>): (end: Option<State>)
    decreases |steps|
  {
    if steps == [] then Some(state)
    else
      var next := Do(quota, state, steps[0]);
      if next.None? then None else Run(quota, next.value, steps[1..])
  }

  // ---------------------------------------------------------------------------
  // The invariant

  ghost function Reservations(uploads: map<nat, Upload>): (bytes: map<nat, nat>)
  {
    map id | id in uploads :: uploads[id].reservation
  }

  /** What the lock holder has published and still has reserved. */
  ghost function CountedTwice(state: State): (bytes: nat)
  {
    if state.lock.Some? && state.lock.value in state.uploads && state.uploads[state.lock.value].stage.Published?
    then state.uploads[state.lock.value].reservation else 0
  }

  ghost predicate Consistent(state: State)
  {
    && state.reserved == Total(Reservations(state.uploads))
    && (forall id :: id in state.uploads && state.uploads[id].stage.Ready? ==>
        state.uploads[id].stage.size <= state.uploads[id].reservation)
    && (forall id :: id in state.uploads && state.uploads[id].stage.Published? ==> state.lock == Some(id))
    && (state.lock.Some? ==> state.lock.value in state.uploads && !state.uploads[state.lock.value].stage.Receiving?)
  }

  ghost predicate Inv(quota: nat, state: State)
  {
    Consistent(state) && Usage(state) + state.reserved <= quota + CountedTwice(state)
  }

  lemma {:induction false} ReservationsAdded(uploads: map<nat, Upload>, id: nat, upload: Upload)
    requires id !in uploads
    ensures Total(Reservations(uploads[id := upload])) == Total(Reservations(uploads)) + upload.reservation
  {
    assert Reservations(uploads[id := upload]) == Reservations(uploads)[id := upload.reservation];
    TotalMore(Reservations(uploads), id, upload.reservation);
  }

  lemma {:induction false} ReservationsRemoved(uploads: map<nat, Upload>, id: nat)
    requires id in uploads
    ensures Total(Reservations(uploads)) == Total(Reservations(uploads - {id})) + uploads[id].reservation
  {
    assert Reservations(uploads - {id}) == Reservations(uploads) - {id};
    TotalLess(Reservations(uploads), id);
  }

  lemma {:induction false} ReservationsSame(uploads: map<nat, Upload>, id: nat, stage: Stage)
    requires id in uploads
    ensures Reservations(uploads[id := uploads[id].(stage := stage)]) == Reservations(uploads)
  {
  }

  lemma {:induction false} StepConsistent(quota: nat, state: State, step: Step)
    requires Consistent(state) && Do(quota, state, step).Some?
    ensures Consistent(Do(quota, state, step).value)
  {
    var next := Do(quota, state, step).value;
    match step
    case Admit(id, maximum, length) => ReservationsAdded(state.uploads, id, next.uploads[id]);
    case Receive(id, oid, size) => ReservationsSame(state.uploads, id, Ready(oid, size));
    case Abort(id) => ReservationsRemoved(state.uploads, id);
    case Publish(id) => ReservationsSame(state.uploads, id, Published);
    case Settle(id) => ReservationsRemoved(state.uploads, id);
    case _ =>
  }

  lemma {:induction false} PublishUsage(state: State, oid: string, size: nat)
    requires oid !in state.objects
    ensures Total(state.objects[oid := size]) == Usage(state) + size
  {
    TotalMore(state.objects, oid, size);
  }

  lemma {:induction false} StepKeepsInv(quota: nat, state: State, step: Step)
    requires Inv(quota, state) && Do(quota, state, step).Some?
    ensures Inv(quota, Do(quota, state, step).value)
  {
    StepConsistent(quota, state, step);
    match step
    case Abort(id) => ReservationsRemoved(state.uploads, id);
    case Settle(id) => ReservationsRemoved(state.uploads, id);
    case Publish(id) =>
      var stage := state.uploads[id].stage;
      if stage.oid !in state.objects {
        PublishUsage(state, stage.oid, stage.size);
      }
    case _ =>
  }

  lemma {:induction false} RunKeepsInv(quota: nat, state: State, steps: seq<Step>)
    requires Inv(quota, state) && Run(quota, state, steps).Some?
    ensures Inv(quota, Run(quota, state, steps).value)
    decreases |steps|
  {
    if steps != [] {
      StepKeepsInv(quota, state, steps[0]);
      RunKeepsInv(quota, Do(quota, state, steps[0]).value, steps[1..]);
    }
  }

  /** No upload under way. */
  function Quiet(objects: map<string, nat>): (state: State)
  {
    State(objects, 0, map[], None)
  }

  /** Whenever the group's lock is free, published and reserved bytes fit into the quota. */
  lemma {:induction false} WithinQuota(quota: nat, objects: map<string, nat>, steps: seq<Step>)
    requires Total(objects) <= quota && Run(quota, Quiet(objects), steps).Some?
    ensures
      var state := Run(quota, Quiet(objects), steps).value;
      state.lock.None? ==> Usage(state) + Total(Reservations(state.uploads)) <= quota
  {
    assert Reservations(map[]) == map[];
    RunKeepsInv(quota, Quiet(objects), steps);
  }

  /** An upload that was admitted is never refused for storage when it is published. */
  lemma {:induction false} NeverRefused(quota: nat, objects: map<string, nat>, steps: seq<Step>, id: nat)
    requires Total(objects) <= quota && Run(quota, Quiet(objects), steps).Some?
    ensures !Refused(Run(quota, Quiet(objects), steps).value, quota, id)
  {
    assert Reservations(map[]) == map[];
    RunKeepsInv(quota, Quiet(objects), steps);
    var state := Run(quota, Quiet(objects), steps).value;
    if id in state.uploads {
      ReservationsRemoved(state.uploads, id);
    }
  }

  // ---------------------------------------------------------------------------
  // Who is admitted, and what an upload leaves

  /** An upload of declared length is admitted exactly if it is within the maximum and fits beside what
      is published and reserved, or is empty; it then has just its length reserved. */
  lemma {:induction false} DeclaredAdmittedExactly(quota: nat, state: State, id: nat, maximum: nat, length: nat)
    requires id !in state.uploads && state.lock.None?
    ensures Do(quota, state, Admit(id, maximum, Some(length))).Some? <==>
      length <= maximum && (length == 0 || Usage(state) + state.reserved + length <= quota)
    ensures Do(quota, state, Admit(id, maximum, Some(length))).Some? ==>
      var next := Do(quota, state, Admit(id, maximum, Some(length))).value;
      next == state.(uploads := state.uploads[id := Upload(length, Receiving)], reserved := state.reserved + length)
  {
  }

  /** An upload of undeclared length is always admitted, for as much as the maximum and the quota
      leave: one byte more would exceed one of them. */
  lemma {:induction false} UndeclaredAdmitted(quota: nat, state: State, id: nat, maximum: nat)
    requires id !in state.uploads && state.lock.None?
    ensures
      var next := Do(quota, state, Admit(id, maximum, None));
      && next.Some? && id in next.value.uploads && next.value.uploads[id].stage.Receiving?
      && var bytes := next.value.uploads[id].reservation;
         && next.value == state.(uploads := state.uploads[id := Upload(bytes, Receiving)],
             reserved := state.reserved + bytes)
         && bytes <= maximum && (bytes == 0 || Usage(state) + state.reserved + bytes <= quota)
         && (bytes == maximum || Usage(state) + state.reserved + bytes >= quota)
  {
  }

  /** From the lock on, a published upload leaves its object, if that is new, and nothing reserved;
      everything else is as it was. */
  lemma {:induction false} PublishedStays(quota: nat, objects: map<string, nat>, steps: seq<Step>, id: nat)
    requires Total(objects) <= quota && Run(quota, Quiet(objects), steps).Some?
    requires
      var state := Run(quota, Quiet(objects), steps).value;
      id in state.uploads && state.uploads[id].stage.Ready? && state.lock.None?
    ensures
      var state := Run(quota, Quiet(objects), steps).value;
      var end := Run(quota, state, [Enter(id), Publish(id), Settle(id)]);
      && end.Some? && end.value.lock.None? && end.value.uploads == state.uploads - {id}
      && end.value.reserved + state.uploads[id].reservation == state.reserved
      && var oid, size := state.uploads[id].stage.oid, state.uploads[id].stage.size;
         end.value.objects == if oid in state.objects then state.objects else state.objects[oid := size]
  {
    var state := Run(quota, Quiet(objects), steps).value;
    assert Reservations(map[]) == map[];
    RunKeepsInv(quota, Quiet(objects), steps);
    RunAppend(quota, Quiet(objects), steps, [Enter(id)]);
    var entered := Do(quota, state, Enter(id)).value;
    assert Run(quota, state, [Enter(id)]) == Run(quota, entered, []);
    NeverRefused(quota, objects, steps + [Enter(id)], id);
    ReservationsRemoved(state.uploads, id);
    var published := Do(quota, entered, Publish(id)).value;
    var settled := Do(quota, published, Settle(id)).value;
    assert published.uploads - {id} == state.uploads - {id};
    assert [Enter(id), Publish(id), Settle(id)][1..] == [Publish(id), Settle(id)];
    assert [Publish(id), Settle(id)][1..] == [Settle(id)];
    assert Run(quota, published, [Settle(id)]) == Run(quota, settled, []);
    assert Run(quota, entered, [Publish(id), Settle(id)]) == Run(quota, published, [Settle(id)]);
  }

  lemma {:induction false} RunAppend(quota: nat, state: State, steps: seq<Step>, more: seq<Step>)
    requires Run(quota, state, steps).Some?
    ensures Run(quota, state, steps + more) == Run(quota, Run(quota, state, steps).value, more)
    decreases |steps|
  {
    if steps == [] {
      assert steps + more == more;
    } else {
      assert (steps + more)[0] == steps[0] && (steps + more)[1..] == steps[1..] + more;
      RunAppend(quota, Do(quota, state, steps[0]).value, steps[1..], more);
    }
  }

  /** A body is taken up to exactly what was reserved, and an upload that gives up leaves nothing
      reserved. */
  lemma {:induction false} BodiesAndAborts(quota: nat, state: State, id: nat, oid: string, size: nat)
    requires Inv(quota, state) && id in state.uploads && state.uploads[id].stage.Receiving?
    ensures Do(quota, state, Receive(id, oid, size)).Some? <==> size <= state.uploads[id].reservation
    ensures Do(quota, state, Receive(id, oid, size)).Some? ==>
      var next := Do(quota, state, Receive(id, oid, size)).value;
      next == state.(uploads := state.uploads[id := Upload(state.uploads[id].reservation, Ready(oid, size))])
    ensures
      var next := Do(quota, state, Abort(id));
      && next.Some? && next.value.uploads == state.uploads - {id} && next.value.objects == state.objects
      && next.value.reserved + state.uploads[id].reservation == state.reserved && next.value.lock == state.lock
  {
    ReservationsRemoved(state.uploads, id);
  }

  // ---------------------------------------------------------------------------
  // A group that is over its quota, after the quota was lowered

  /** Only empty bodies are admitted and nothing is published. */
  ghost predicate Full(objects: map<string, nat>, state: State)
  {
    Consistent(state) && state.objects == objects && forall id :: id in state.uploads ==>
        state.uploads[id].reservation == 0
  }

  lemma {:induction false} StepKeepsFull(quota: nat, objects: map<string, nat>, state: State, step: Step)
    requires Total(objects) > quota && Full(objects, state) && Do(quota, state, step).Some?
    ensures Full(objects, Do(quota, state, step).value)
  {
    StepConsistent(quota, state, step);
  }

  lemma {:induction false} RunKeepsFull(quota: nat, objects: map<string, nat>, state: State, steps: seq<Step>)
    requires Total(objects) > quota && Full(objects, state) && Run(quota, state, steps).Some?
    ensures Full(objects, Run(quota, state, steps).value)
    decreases |steps|
  {
    if steps != [] {
      StepKeepsFull(quota, objects, state, steps[0]);
      RunKeepsFull(quota, objects, Do(quota, state, steps[0]).value, steps[1..]);
    }
  }

  /** The exact condition: an upload of a new object is refused for storage when it comes to be
      published if and only if the group was over its quota to begin with. */
  lemma {:induction false} RefusedExactly(quota: nat, objects: map<string, nat>, steps: seq<Step>, id: nat)
    requires Run(quota, Quiet(objects), steps).Some?
    requires
      var state := Run(quota, Quiet(objects), steps).value;
      && state.lock == Some(id) && id in state.uploads && state.uploads[id].stage.Ready?
      && state.uploads[id].stage.oid !in state.objects
    ensures Refused(Run(quota, Quiet(objects), steps).value, quota, id) <==> Total(objects) > quota
  {
    if Total(objects) <= quota {
      NeverRefused(quota, objects, steps, id);
    } else {
      assert Reservations(map[]) == map[];
      RunKeepsFull(quota, objects, Quiet(objects), steps);
    }
  }

  /** The upload that is admitted and then refused: an empty object in a group over its quota. */
  lemma {:induction false} OverQuotaRefused(quota: nat, objects: map<string, nat>, oid: string)
    requires Total(objects) > quota && oid !in objects
    ensures
      var end := Run(quota, Quiet(objects), [Admit(0, 0, Some(0)), Receive(0, oid, 0), Enter(0)]);
      end.Some? && Refused(end.value, quota, 0)
  {
    var start := Quiet(objects);
    var steps := [Admit(0, 0, Some(0)), Receive(0, oid, 0), Enter(0)];
    var admitted := Do(quota, start, steps[0]).value;
    var received := Do(quota, admitted, steps[1]).value;
    var entered := Do(quota, received, steps[2]).value;
    assert steps[1..][1..] == [Enter(0)] && [Enter(0)][1..] == [];
    assert Run(quota, received, [Enter(0)]) == Run(quota, entered, []);
    assert Run(quota, admitted, steps[1..]) == Run(quota, received, [Enter(0)]);
  }

  // ---------------------------------------------------------------------------
  // The reservation counter of the process

  class UploadReservations {
    /** Reserved bytes of each group; a group without any has no key. */
    var bytes: map<string, nat>

    constructor ()
      ensures bytes == map[]
    {
      bytes := map[];
    }

    ghost predicate Valid()
      reads this
    {
      forall key :: key in bytes ==> bytes[key] > 0
    }

    function Of(key: string): (reserved: nat)
      reads this
    {
      if key in bytes then bytes[key] else 0
    }

    /** reserve: on success the counter has grown by exactly what the upload may receive. */
    method Reserve(key: string, usage: nat, quota: nat, maximum: nat, length: Option<nat>) returns (limit: Option<nat>)
      requires Valid()
      modifies this
      ensures Valid() && limit == old(Reservation(Available(usage, quota, Of(key)), maximum, length))
      ensures Of(key) == old(Of(key)) + (if limit.Some? then limit.value else 0)
      ensures forall other :: other != key ==> Of(other) == old(Of(other))
      ensures usage + old(Of(key)) <= quota ==> usage + Of(key) <= quota
    {
      var available := 0;
      if usage < quota {
        available := quota - usage;
        var reserved := Of(key);
        available := if reserved < available then available - reserved else 0;
      }
      var reservation := maximum;
      if length.Some? {
        reservation := length.value;
        if reservation > available {
          return None;
        }
      } else if reservation > available {
        reservation := available;
      }
      if reservation == 0 {
        return Some(0);
      }
      bytes := bytes[key := Of(key) + reservation];
      limit := Some(reservation);
    }

    /** The release function that reserve returns. */
    method Release(key: string, reservation: nat)
      requires Valid() && reservation <= Of(key)
      modifies this
      ensures Valid() && Of(key) == old(Of(key)) - reservation
      ensures forall other :: other != key ==> Of(other) == old(Of(other))
    {
      if reservation > 0 {
        var left := Of(key) - reservation;
        bytes := if left == 0 then bytes - {key} else bytes[key := left];
      }
    }
  }

  /** groupStorageUsage: the walk adds up the sizes of the published objects. */
  method GroupStorageUsage(objects: map<string, nat>) returns (total: nat)
    ensures total == Total(objects)
  {
    total := 0;
    var todo := objects;
    while todo != map[]
      invariant total + Total(todo) == Total(objects)
      decreases |todo|
    {
      var key :| key in todo;
      TotalLess(todo, key);
      Smaller(todo, key);
      total, todo := total + todo[key], todo - {key};
    }
  }
}
