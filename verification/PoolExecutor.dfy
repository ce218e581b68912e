/** The executor's critical sections as they change its fields
    (internal/runner/libvirt_executor.go), each proved to be a step of the pool. The goroutines
    around them are ghost state. */
module PoolExecutor {
  import opened Basics
  import opened WarmPool
  import PoolOwnership

  datatype Action = Wait | Create | Destroy(name: string) | Halt

  lemma {:induction false} ReservedOneMore(machines: map<string, Machine>, seen: set<string>, name: string)
    requires name in machines && name !in seen
    ensures
      var before := set x | x in seen && x in machines && machines[x].phase.Reserved?;
      var after := set x | x in seen + {name} && x in machines && machines[x].phase.Reserved?;
      |after| == |before| + if machines[name].phase.Reserved? then 1 else 0
  {
    var before := set x | x in seen && x in machines && machines[x].phase.Reserved?;
    var after := set x | x in seen + {name} && x in machines && machines[x].phase.Reserved?;
    assert after == if machines[name].phase.Reserved? then before + {name} else before;
  }

  /** availableCapacityLocked. */
  method AvailableCapacity(machines: map<string, Machine>, idle: seq<string>) returns (available: nat)
    ensures available == |idle| + |ReservedNames(machines)|
  {
    available := |idle|;
    var seen, todo := {}, machines.Keys;
    while todo != {}
      invariant todo !! seen && todo + seen == machines.Keys
      invariant available == |idle| + |set x | x in seen && x in machines && machines[x].phase.Reserved?|
    {
      var name :| name in todo;
      ReservedOneMore(machines, seen, name);
      if machines[name].phase.Reserved? {
        available := available + 1;
      }
      todo, seen := todo - {name}, seen + {name};
    }
    assert (set x | x in seen && x in machines && machines[x].phase.Reserved?) == ReservedNames(machines);
  }

  /** A machine that waits for a destroyer, if there is one. */
  method FindUnclaimed(machines: map<string, Machine>) returns (found: Option<string>)
    ensures found.Some? ==>
        found.value in machines && machines[found.value].phase.Destroying? && !machines[found.value].claimed
    ensures found.None? ==> forall name :: name in machines ==>
        !machines[name].phase.Destroying? || machines[name].claimed
  {
    var todo := machines.Keys;
    while todo != {}
      invariant todo <= machines.Keys
      invariant forall name :: name in machines && name !in todo ==>
          !machines[name].phase.Destroying? || machines[name].claimed
    {
      var name :| name in todo;
      if machines[name].phase.Destroying? && !machines[name].claimed {
        return Some(name);
      }
      todo := todo - {name};
    }
    found := None;
  }

  /** removeIdleLocked. */
  method RemoveIdle(idle: seq<string>, name: string) returns (rest: seq<string>)
    ensures rest == Without(idle, name)
  {
    var index := 0;
    while index < |idle|
      invariant index <= |idle| && Without(idle, name) == idle[..index] + Without(idle[index..], name)
    {
      if idle[index] == name {
        return idle[..index] + idle[index + 1..];
      }
      WithoutStep(idle, name, index);
      index := index + 1;
    }
    rest := idle;
  }

  lemma {:induction false} WithoutStep(idle: seq<string>, name: string, index: nat)
    requires index < |idle| && idle[index] != name
        && Without(idle, name) == idle[..index] + Without(idle[index..], name)
    ensures Without(idle, name) == idle[..index + 1] + Without(idle[index + 1..], name)
  {
    assert idle[index..][1..] == idle[index + 1..];
    assert idle[..index + 1] == idle[..index] + [idle[index]];
  }

  /** The loop of Reserve that pops names until one is idle. */
  method FirstUsable(machines: map<string, Machine>, idle: seq<string>)
    returns (found: Option<string>, rest: seq<string>)
    ensures found.Some? ==> FirstIdle(idle, machines) == Some((found.value, rest)) && found.value in machines
    ensures found.None? ==> FirstIdle(idle, machines).None? && rest == []
    ensures found.None? ==> forall i :: 0 <= i < |idle| ==> idle[i] !in machines || !machines[idle[i]].phase.Idle?
  {
    rest := idle;
    ghost var stale := 0;
    while |rest| > 0
      invariant stale <= |idle| && rest == idle[stale..] && FirstIdle(idle, machines) == FirstIdle(rest, machines)
      invariant forall i :: 0 <= i < stale ==> idle[i] !in machines || !machines[idle[i]].phase.Idle?
      decreases |rest|
    {
      var name := rest[0];
      if name in machines && machines[name].phase.Idle? {
        return Some(name), rest[1..];
      }
      rest, stale := rest[1..], stale + 1;
    }
    found := None;
  }

  /** The test of nextReconcileAction whether another machine is to be made. */
  method WantsAnother(limits: Limits, machines: map<string, Machine>, idle: seq<string>, creating: nat)
    returns (wants: bool)
    ensures wants <==>
      && |idle| + |ReservedNames(machines)| + creating < limits.idleCount
      && |machines| + creating < limits.maxInstances
  {
    var available := AvailableCapacity(machines, idle);
    wants := available + creating < limits.idleCount && |machines| + creating < limits.maxInstances;
  }

  /** The state of an executor that has been used from its start on, with a provider whose names were
      free. */
  ghost predicate Reachable(limits: Limits, state: State)
  {
    exists names, steps ::
      |names| <= limits.maxInstances && PoolOwnership.Reached(false, limits, names, steps, state)
  }

  /** Whenever the mutex is free, ownership and capacity hold. */
  lemma {:induction false} ReachableSound(limits: Limits, state: State)
    requires Reachable(limits, state)
    ensures PoolOwnership.Inv(false, state) && WithinCapacity(limits, state)
  {
    var names, steps :|
      |names| <= limits.maxInstances && PoolOwnership.Reached(false, limits, names, steps, state);
    PoolOwnership.PoolInv(false, limits, names, steps, state);
    StartedWithinCapacity(limits, names);
    RunKeepsCapacity(limits, Started(names), steps);
  }

  lemma {:induction false} StartedReachable(limits: Limits, names: seq<string>)
    requires Distinct(names) && |names| <= limits.maxInstances
    ensures Reachable(limits, Started(names))
  {
    assert PoolOwnership.Reached(false, limits, names, [], Started(names));
  }

  /** Every section keeps it. */
  lemma {:induction false} StepReaches(limits: Limits, state: State, step: Step)
    requires Reachable(limits, state) && Do(limits, state, step).Some? && PoolOwnership.StepFree(false, state, step)
    ensures Reachable(limits, Do(limits, state, step).value)
  {
    var names, steps :|
      |names| <= limits.maxInstances && PoolOwnership.Reached(false, limits, names, steps, state);
    PoolOwnership.RunSnoc(false, limits, Started(names), steps, state, step);
    assert PoolOwnership.Reached(false, limits, names, steps + [step], Do(limits, state, step).value);
  }

  lemma {:induction false} StillCounted(limits: Limits, state: State, task: nat)
    requires Reachable(limits, state) && task in state.tasks && !state.tasks[task].Guarding?
    ensures state.creating > 0
  {
    ReachableSound(limits, state);
    CountedNotZero(state, limits, task);
  }

  /** An idle list of which every name is stale is empty. */
  lemma {:induction false} NoneStale(limits: Limits, state: State)
    requires Reachable(limits, state)
    requires forall i :: 0 <= i < |state.idle| ==> !PoolOwnership.IsIdle(state, state.idle[i])
    ensures state.idle == []
  {
    ReachableSound(limits, state);
    if state.idle != [] {
      FirstIsIdle(state);
    }
  }

  lemma {:induction false} FirstIsIdle(state: State)
    requires PoolOwnership.IdleExact(state) && state.idle != []
    ensures PoolOwnership.IsIdle(state, state.idle[0])
  {
    assert state.idle[0] in state.idle;
  }

  class Executor {
    const limits: Limits
    var machines: map<string, Machine>
    var idle: seq<string>
    var creating: nat
    var stopping: bool
    var stopped: bool
    ghost var reconciler: Option<string>
    ghost var tasks: map<nat, Task>
    ghost var clients: map<nat, Client>
    ghost var used: set<string>

    ghost function Now(): (state: State)
      reads this
    {
      State(machines, idle, creating, stopping, stopped, reconciler, tasks, clients, used)
    }

    /** The end of Start: the preheated machines enter the pool. */
    constructor (limits: Limits, created: seq<string>)
      requires Distinct(created) && |created| <= limits.maxInstances
      ensures Valid() && Now() == Started(created) && this.limits == limits
    {
      this.limits := limits;
      machines := map name | name in created :: Machine(Idle, false, 0);
      idle, creating, stopping, stopped := created, 0, false, false;
      reconciler, tasks, clients, used := None, map[], map[], set name | name in created;
      new;
      StartedReachable(limits, created);
    }

    ghost predicate Valid()
      reads this
    {
      Reachable(limits, Now())
    }

    /** nextReconcileAction. */
    method NextReconcileAction(ghost task: nat) returns (action: Action)
      requires Valid() && reconciler.None? && task !in tasks
      modifies this
      ensures Valid()
      ensures action.Halt? ==> !Running(Now()) && Now() == old(Now())
      ensures action.Create? <==>
        && !old(stopping) && !old(stopped)
        && |old(idle)| + |ReservedNames(old(machines))| + old(creating) < limits.idleCount
        && |old(machines)| + old(creating) < limits.maxInstances
      ensures action.Create? ==> Do(limits, old(Now()), StartCreate(task)) == Some(Now())
      ensures action.Destroy? ==> Do(limits, old(Now()), StartDestroy(action.name)) == Some(Now())
      ensures action.Wait? ==> Now() == old(Now()) && Running(Now()) && Do(limits, Now(), StartCreate(task)).None?
      ensures action.Wait? ==> forall name :: Do(limits, Now(), StartDestroy(name)).None?
    {
      if stopping || stopped {
        return Halt;
      }
      var wants := WantsAnother(limits, machines, idle, creating);
      if wants {
        StepReaches(limits, Now(), StartCreate(task));
        creating := creating + 1;
        tasks := tasks[task := Calling];
        return Create;
      }
      var found := FindUnclaimed(machines);
      if found.Some? {
        ClaimUnclaimed(found.value);
        return Destroy(found.value);
      }
      return Wait;
    }

    method ClaimUnclaimed(name: string)
      requires Valid() && Running(Now()) && reconciler.None? && !WantsMachine(Now(), limits)
      requires name in machines && machines[name].phase.Destroying? && !machines[name].claimed
      modifies this
      ensures Valid() && Do(limits, old(Now()), StartDestroy(name)) == Some(Now())
    {
      StepReaches(limits, Now(), StartDestroy(name));
      machines := machines[name := machines[name].(claimed := true)];
      reconciler := Some(name);
    }

    /** The section of reconcileCreate after the provider returned. */
    method RecordCreated(name: string, ok: bool, ghost task: nat) returns (clean: bool)
      requires Valid() && task in tasks && tasks[task].Calling?
      requires name != "" ==> PoolOwnership.NameFree(false, Now(), name)
      modifies this
      ensures Valid() && Do(limits, old(Now()), CreateReturns(task, name, ok)) == Some(Now())
      ensures clean <==> tasks[task].Cleaning?
    {
      StepReaches(limits, Now(), CreateReturns(task, name, ok));
      var returned := name != "";
      var tracked := returned && name in machines;
      clean := false;
      ghost var outcome := Settled;
      if returned && ok && !tracked {
        machines := machines[name := Machine(Idle, false, 0)];
        idle := idle + [name];
      } else if returned && !tracked {
        clean := true;
        outcome := Cleaning(name);
      }
      tasks := tasks[task := outcome];
      used := if returned then used + {name} else used;
    }

    /** The part of Reserve that takes a machine. The list holds no stale names, so that without a
        machine nothing changes. */
    method PopIdle(ghost client: nat) returns (found: Option<string>)
      requires Valid() && Running(Now()) && client !in clients
      modifies this
      ensures Valid()
      ensures found.Some? ==>
          Do(limits, old(Now()), TakeIdle(client)) == Some(Now()) && clients[client] == Checking(found.value)
      ensures found.None? ==> Now() == old(Now()) && Do(limits, old(Now()), TakeIdle(client)).None?
    {
      var rest;
      found, rest := FirstUsable(machines, idle);
      if found.None? {
        NoneStale(limits, Now());
        return;
      }
      StepReaches(limits, Now(), TakeIdle(client));
      var name := found.value;
      idle := rest;
      machines := machines[name := machines[name].(phase := Reserved)];
      clients := clients[client := Checking(name)];
    }

    /** The section of Reserve after the health check. */
    method FinishCheck(name: string, canceled: bool, healthy: bool, ghost client: nat) returns (handle: bool)
      requires Valid() && client in clients && clients[client] == Checking(name)
      modifies this
      ensures Valid() && Do(limits, old(Now()), Checked(client, canceled, healthy)) == Some(Now())
      ensures handle ==> client in clients && clients[client] == Handle(name, false, false, false, false, Open)
    {
      StepReaches(limits, Now(), Checked(client, canceled, healthy));
      handle := false;
      var current := name in machines && machines[name].phase.Reserved?;
      if canceled {
        if current && !stopping && !stopped {
          machines := machines[name := machines[name].(phase := Idle)];
          idle := idle + [name];
        }
        clients := clients - {client};
      } else if stopping || stopped || !current {
        clients := clients - {client};
      } else if healthy {
        clients := clients[client := Handle(name, false, false, false, false, Open)];
        handle := true;
      } else {
        machines := machines[name := machines[name].(phase := Destroying, claimed := false)];
        clients := clients - {client};
      }
    }

    /** assignReservation. */
    method AssignReservation(name: string, ghost client: nat)
      requires Valid() && client in clients && clients[client].Handle? && clients[client].leasing
          && clients[client].name == name
      modifies this
      ensures Valid() && Do(limits, old(Now()), Lease(client)) == Some(Now())
    {
      StepReaches(limits, Now(), Lease(client));
      if name in machines && machines[name].phase.Reserved? {
        machines := machines[name := machines[name].(phase := Leased)];
      }
      clients := clients[client := clients[client].(leasing := false)];
    }

    /** leasedInstance: the build starts only on a leased machine. */
    method LeasedInstance(name: string, ghost client: nat) returns (ok: bool)
      requires Valid() && client in clients && clients[client].Handle? && clients[client].starting
          && clients[client].name == name
      modifies this
      ensures Valid() && Do(limits, old(Now()), StartBuild(client)) == Some(Now())
      ensures ok <==> name in old(machines) && old(machines)[name].phase.Leased?
    {
      StepReaches(limits, Now(), StartBuild(client));
      ok := name in machines && machines[name].phase.Leased?;
      if ok {
        machines := machines[name := machines[name].(builds := machines[name].builds + 1)];
      }
      clients := clients[client := clients[client].(starting := false)];
    }

    /** returnIdle. */
    method GiveBack(name: string, ghost client: nat)
      requires Valid() && EndIs(Now(), client, Returning) && clients[client].name == name
      modifies this
      ensures Valid() && Do(limits, old(Now()), ReturnIdle(client)) == Some(Now())
    {
      StepReaches(limits, Now(), ReturnIdle(client));
      if !stopping && !stopped && name in machines && machines[name].phase.Reserved? {
        machines := machines[name := machines[name].(phase := Idle)];
        idle := idle + [name];
      }
      clients := clients[client := clients[client].(end := Done)];
    }

    /** The first section of destroyReleased. */
    method ClaimForDestroy(name: string, ghost client: nat) returns (found: bool)
      requires Valid() && EndIs(Now(), client, ToDestroy) && clients[client].name == name
      modifies this
      ensures Valid() && Do(limits, old(Now()), BeginDestroy(client)) == Some(Now())
      ensures found <==> EndIs(Now(), client, InDestroy)
    {
      StepReaches(limits, Now(), BeginDestroy(client));
      found := name in machines;
      if !found {
        clients := clients[client := clients[client].(end := Done)];
        return;
      }
      var rest := RemoveIdle(idle, name);
      idle := rest;
      machines := machines[name := machines[name].(phase := Destroying, claimed := true)];
      clients := clients[client := clients[client].(end := InDestroy)];
    }

    /** The second section of destroyReleased. */
    method RecordDestroyed(name: string, ok: bool, ghost client: nat)
      requires Valid() && EndIs(Now(), client, InDestroy) && clients[client].name == name
      modifies this
      ensures Valid() && Do(limits, old(Now()), EndDestroy(client, ok)) == Some(Now())
    {
      StepReaches(limits, Now(), EndDestroy(client, ok));
      if name in machines {
        machines := if ok then machines - {name} else machines[name := machines[name].(claimed := false)];
      }
      clients := clients[client := clients[client].(end := Done)];
    }

    /** The section of reconcileDestroy after the provider returned. */
    method RecordReconciled(name: string, ok: bool)
      requires Valid() && reconciler == Some(name)
      modifies this
      ensures Valid() && Do(limits, old(Now()), EndReconcile(ok)) == Some(Now())
    {
      StepReaches(limits, Now(), EndReconcile(ok));
      if name in machines {
        if ok {
          machines := machines - {name};
          idle := RemoveIdle(idle, name);
        } else {
          machines := machines[name := machines[name].(claimed := false)];
        }
      }
      reconciler := None;
    }

    /** retainFailedCleanup. */
    method RetainFailedCleanup(name: string, ghost task: nat)
      requires Valid() && task in tasks && tasks[task] == Cleaning(name)
      modifies this
      ensures Valid() && Do(limits, old(Now()), Retain(task)) == Some(Now())
    {
      StepReaches(limits, Now(), Retain(task));
      if name !in machines {
        machines := machines[name := Machine(Destroying, true, 0)];
      }
      tasks := tasks[task := Retained(name)];
    }

    /** The first section of runReconcileCreate: the machine now stands for its creation. */
    method UncountRetained(name: string, ghost task: nat)
      requires Valid() && task in tasks && tasks[task] == Retained(name)
      modifies this
      ensures Valid() && Do(limits, old(Now()), Uncount(task)) == Some(Now())
    {
      StillCounted(limits, Now(), task);
      StepReaches(limits, Now(), Uncount(task));
      creating := creating - 1;
      tasks := tasks[task := Guarding(name)];
    }

    /** The first section of Shutdown. */
    method BeginShutdown()
      requires Valid()
      modifies this
      ensures Valid() && Do(limits, old(Now()), Stop) == Some(Now())
    {
      StepReaches(limits, Now(), Stop);
      stopping := true;
    }

    /** The last section of Shutdown, after the reconciler and all creations have ended. */
    method EndShutdown()
      requires Valid() && stopping && !stopped && tasks == map[] && reconciler.None?
      modifies this
      ensures Valid() && Do(limits, old(Now()), Clear) == Some(Now())
    {
      StepReaches(limits, Now(), Clear);
      machines, idle, creating, stopped := map[], [], 0, true;
    }

    /** The last section of runReconcileCreate. */
    method FinishCreation(retry: Option<string>, ghost task: nat)
      requires Valid() && task in tasks && tasks[task] == (if retry.Some? then Guarding(retry.value) else Settled)
      modifies this
      ensures Valid() && Do(limits, old(Now()), FinishCreate(task)) == Some(Now())
    {
      StepReaches(limits, Now(), FinishCreate(task));
      if retry.None? {
        StillCounted(limits, Now(), task);
      }
      if retry.None? {
        creating := creating - 1;
      } else if retry.value in machines && machines[retry.value].phase.Destroying? {
        machines := machines[retry.value := machines[retry.value].(claimed := false)];
      }
      tasks := tasks - {task};
    }
  }
}
