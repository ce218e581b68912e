/** No machine of the warm pool is lost, and what becomes of machines that are made, checked, used and
    destroyed (internal/runner/libvirt_executor.go). */
module PoolLaws {
  import opened Basics
  import opened WarmPool
  import opened PoolOwnership

  /** Somebody sees to the machine: it is on the idle list, waits for the reconciler, or is in the hands
      of a caller, a creation or the reconciler. */
  ghost predicate TendedAt(state: State, name: string)
    requires name in state.machines
  {
    || state.machines[name].phase.Idle?
    || (state.machines[name].phase.Destroying? && !state.machines[name].claimed)
    || exists actor :: Grip(RoleOf(state, actor)) == Some(name)
  }

  /** While the pool runs, every machine is seen to. */
  ghost predicate Tended(state: State)
  {
    Running(state) ==> forall name :: name in state.machines ==> TendedAt(state, name)
  }

  /** One actor changes, and at most the machine in its hands. */
  ghost predicate ChangesAt(state: State, next: State, actor: Actor, name: string)
  {
    && (forall other :: other != actor ==> RoleOf(next, other) == RoleOf(state, other))
    && (forall x :: x != name ==> At(next.machines, x) == At(state.machines, x))
    && (Grip(RoleOf(state, actor)).None? || Grip(RoleOf(state, actor)) == Some(name))
    && (Running(next) ==> Running(state))
  }

  lemma {:induction false} StaysTended(state: State, next: State, actor: Actor, name: string)
    requires Tended(state) && ChangesAt(state, next, actor, name)
    requires Running(next) && name in next.machines ==> TendedAt(next, name)
    ensures Tended(next)
  {
    if Running(next) {
      forall x | x in next.machines ensures TendedAt(next, x) {
        if x != name {
          assert At(next.machines, x) == At(state.machines, x);
          assert TendedAt(state, x);
          if actor' :| Grip(RoleOf(state, actor')) == Some(x) {
            assert RoleOf(next, actor') == RoleOf(state, actor');
          }
        }
      }
    }
  }

  lemma {:induction false} Gripped(state: State, actor: Actor, name: string)
    requires name in state.machines && Grip(RoleOf(state, actor)) == Some(name)
    ensures TendedAt(state, name)
  {
  }

  /** The actor of a step. */
  function ActorOf(step: Step): (actor: Actor)
    requires !step.Stop? && !step.Clear?
  {
    if IsTaskStep(step) then Creator(step.task)
    else if step.StartDestroy? || step.EndReconcile? then Reconciler
    else Caller(step.client)
  }

  lemma {:induction false} CreateReturnsTended(state: State, task: nat, name: string, ok: bool)
    requires Inv(true, state) && Tended(state) && DoCreateReturns(state, task, name, ok).Some?
    ensures Tended(DoCreateReturns(state, task, name, ok).value)
  {
    var next := DoCreateReturns(state, task, name, ok).value;
    if name in state.machines && Running(state) {
      assert TendedAt(state, name);
      if actor :| Grip(RoleOf(state, actor)) == Some(name) {
        assert actor != Creator(task) && RoleOf(next, actor) == RoleOf(state, actor);
      }
    }
    StaysTended(state, next, Creator(task), name);
  }

  lemma {:induction false} StartCreateTended(limits: Limits, state: State, task: nat)
    requires Tended(state) && DoStartCreate(state, limits, task).Some?
    ensures Tended(DoStartCreate(state, limits, task).value)
  {
    SameMachinesTended(state, DoStartCreate(state, limits, task).value, Creator(task));
  }

  /** A step that touches no machine and lets go of none. */
  lemma {:induction false} SameMachinesTended(state: State, next: State, actor: Actor)
    requires Tended(state) && next.machines == state.machines && (Running(next) ==> Running(state))
    requires forall other :: other != actor ==> RoleOf(next, other) == RoleOf(state, other)
    requires
      var grip := Grip(RoleOf(state, actor));
      grip.None? || grip == Grip(RoleOf(next, actor)) || grip.value !in state.machines
      || (state.machines[grip.value].phase.Destroying? && !state.machines[grip.value].claimed)
    ensures Tended(next)
  {
    if Running(next) {
      forall x | x in next.machines ensures TendedAt(next, x) {
        assert TendedAt(state, x);
        if actor' :| Grip(RoleOf(state, actor')) == Some(x) {
          if actor' != actor {
            assert RoleOf(next, actor') == RoleOf(state, actor');
          }
        }
      }
    }
  }

  lemma {:induction false} TaskStepTended(limits: Limits, state: State, step: Step)
    requires Inv(true, state) && Tended(state) && Do(limits, state, step).Some?
    requires step.Cleaned? || step.Retain? || step.Uncount? || step.FinishCreate?
    ensures Tended(Do(limits, state, step).value)
  {
    var next, actor := Do(limits, state, step).value, Creator(step.task);
    assert ActorSound(true, state, actor);
    if state.tasks[step.task].Settled? {
      SameMachinesTended(state, next, actor);
    } else {
      var name := state.tasks[step.task].name;
      if Grip(RoleOf(next, actor)) == Some(name) && name in next.machines {
        Gripped(next, actor, name);
      }
      StaysTended(state, next, actor, name);
    }
  }

  lemma {:induction false} ReconcilerStepTended(limits: Limits, state: State, step: Step)
    requires Inv(true, state) && Tended(state) && Do(limits, state, step).Some?
    requires step.StartDestroy? || step.EndReconcile?
    ensures Tended(Do(limits, state, step).value)
  {
    var next := Do(limits, state, step).value;
    assert ActorSound(true, state, Reconciler);
    var name := if step.StartDestroy? then step.name else state.reconciler.value;
    if step.StartDestroy? {
      Gripped(next, Reconciler, name);
    }
    StaysTended(state, next, Reconciler, name);
  }

  lemma {:induction false} TakeIdleTended(limits: Limits, state: State, client: nat)
    requires Inv(true, state) && Tended(state) && DoTakeIdle(state, client).Some?
    ensures Tended(DoTakeIdle(state, client).value)
  {
    var next, name := DoTakeIdle(state, client).value, DoTakeIdle(state, client).value.clients[client].name;
    FirstIdleIsIdle(state.idle, state.machines);
    Gripped(next, Caller(client), name);
    StaysTended(state, next, Caller(client), name);
  }

  lemma {:induction false} CheckedTended(state: State, client: nat, canceled: bool, healthy: bool)
    requires Inv(true, state) && Tended(state) && DoChecked(state, client, canceled, healthy).Some?
    ensures Tended(DoChecked(state, client, canceled, healthy).value)
  {
    var next, name := DoChecked(state, client, canceled, healthy).value, state.clients[client].name;
    assert ActorSound(true, state, Caller(client));
    if Grip(RoleOf(next, Caller(client))) == Some(name) && name in next.machines {
      Gripped(next, Caller(client), name);
    }
    StaysTended(state, next, Caller(client), name);
  }

  lemma {:induction false} OpenHandleTended(limits: Limits, state: State, step: Step)
    requires Inv(true, state) && Tended(state) && Do(limits, state, step).Some?
    requires step.MarkAssigned? || step.MarkRan? || step.MarkReleased?
    ensures Tended(Do(limits, state, step).value)
  {
    SameMachinesTended(state, Do(limits, state, step).value, Caller(step.client));
  }

  lemma {:induction false} LeaseTended(state: State, client: nat)
    requires Inv(true, state) && Tended(state) && DoLease(state, client).Some?
    ensures Tended(DoLease(state, client).value)
  {
    var next, actor, name := DoLease(state, client).value, Caller(client), state.clients[client].name;
    assert ActorSound(true, state, actor);
    if state.clients[client].end.Done? {
      SameMachinesTended(state, next, actor);
    } else {
      if name in next.machines {
        Gripped(next, actor, name);
      }
      StaysTended(state, next, actor, name);
    }
  }

  lemma {:induction false} StartBuildTended(state: State, client: nat)
    requires Inv(true, state) && Tended(state) && DoStartBuild(state, client).Some?
    ensures Tended(DoStartBuild(state, client).value)
  {
    var next, actor, name := DoStartBuild(state, client).value, Caller(client), state.clients[client].name;
    assert ActorSound(true, state, actor);
    if state.clients[client].end.Done? {
      SameMachinesTended(state, next, actor);
    } else {
      if name in next.machines {
        Gripped(next, actor, name);
      }
      StaysTended(state, next, actor, name);
    }
  }

  lemma {:induction false} EndTended(limits: Limits, state: State, step: Step)
    requires Inv(true, state) && Tended(state) && Do(limits, state, step).Some?
    requires step.ReturnIdle? || step.BeginDestroy? || step.EndDestroy?
    ensures Tended(Do(limits, state, step).value)
  {
    var next, actor := Do(limits, state, step).value, Caller(step.client);
    assert ActorSound(true, state, actor);
    var name := state.clients[step.client].name;
    if step.BeginDestroy? && name in next.machines {
      Gripped(next, actor, name);
    }
    StaysTended(state, next, actor, name);
  }

  lemma {:induction false} StepKeepsTended(limits: Limits, state: State, step: Step)
    requires Inv(true, state) && Tended(state) && Do(limits, state, step).Some?
    ensures Tended(Do(limits, state, step).value)
  {
    match step
    case StartCreate(task) => StartCreateTended(limits, state, task);
    case CreateReturns(task, name, ok) => CreateReturnsTended(state, task, name, ok);
    case Cleaned(_) => TaskStepTended(limits, state, step);
    case Retain(_) => TaskStepTended(limits, state, step);
    case Uncount(_) => TaskStepTended(limits, state, step);
    case FinishCreate(_) => TaskStepTended(limits, state, step);
    case StartDestroy(_) => ReconcilerStepTended(limits, state, step);
    case EndReconcile(_) => ReconcilerStepTended(limits, state, step);
    case TakeIdle(client) => TakeIdleTended(limits, state, client);
    case Checked(client, canceled, healthy) => CheckedTended(state, client, canceled, healthy);
    case MarkAssigned(_) => OpenHandleTended(limits, state, step);
    case MarkRan(_) => OpenHandleTended(limits, state, step);
    case MarkReleased(_) => OpenHandleTended(limits, state, step);
    case Lease(client) => LeaseTended(state, client);
    case StartBuild(client) => StartBuildTended(state, client);
    case ReturnIdle(_) => EndTended(limits, state, step);
    case BeginDestroy(_) => EndTended(limits, state, step);
    case EndDestroy(_, _) => EndTended(limits, state, step);
    case Stop =>
    case Clear =>
  }

  lemma {:induction false} RunKeepsTended(limits: Limits, state: State, steps: seq<Step>)
    requires Inv(true, state) && Tended(state) && Run(limits, state, steps).Some? && FreeRun(true, limits, state, steps)
    ensures Tended(Run(limits, state, steps).value)
    decreases |steps|
  {
    if steps != [] {
      StepKeepsTended(limits, state, steps[0]);
      StepKeepsInv(true, limits, state, steps[0]);
      RunKeepsTended(limits, Do(limits, state, steps[0]).value, steps[1..]);
    }
  }

  /** No machine is lost: while the pool runs, each is idle, waits for the reconciler, or is in the
      hands of exactly one caller, creation or the reconciler. */
  lemma {:induction false} NothingLost(limits: Limits, names: seq<string>, steps: seq<Step>, state: State, name: string)
    requires Reached(true, limits, names, steps, state) && Running(state) && name in state.machines
    ensures TendedAt(state, name)
    ensures forall a, b :: Grip(RoleOf(state, a)) == Some(name) && Grip(RoleOf(state, b)) == Some(name) ==> a == b
  {
    StartedInv(true, names);
    RunKeepsTended(limits, Started(names), steps);
    PoolInv(true, limits, names, steps, state);
  }

  // ---------------------------------------------------------------------------
  // What becomes of a machine

  /** Machines are handed out in the order of the idle list, to a caller of their own. */
  lemma {:induction false} ServedInOrder(limits: Limits, state: State, client: nat)
    requires Inv(false, state) && Running(state) && client !in state.clients
    ensures Do(limits, state, TakeIdle(client)).Some? <==> state.idle != []
    ensures Do(limits, state, TakeIdle(client)).Some? ==>
      var next, name := Do(limits, state, TakeIdle(client)).value, state.idle[0];
      && next.clients == state.clients[client := Checking(name)] && next.idle == state.idle[1..]
      && next.machines == state.machines[name := Machine(Reserved, false, 0)]
  {
    if state.idle != [] {
      assert state.idle[0] in state.idle;
      assert IsIdle(state, state.idle[0]) && MachineSound(state.machines[state.idle[0]]);
    }
  }

  /** A machine that fails its health check is not handed out: it waits to be destroyed. */
  lemma {:induction false} UnhealthyIsDestroyed(limits: Limits, state: State, client: nat)
    requires Inv(true, state) && Running(state) && client in state.clients && state.clients[client].Checking?
    ensures
      var next, name := Do(limits, state, Checked(client, false, false)), state.clients[client].name;
      && next.Some? && client !in next.value.clients && next.value.idle == state.idle
      && name in next.value.machines && next.value.machines[name].phase.Destroying?
          && !next.value.machines[name].claimed
  {
    assert ActorSound(true, state, Caller(client));
  }

  /** A healthy one is the caller's, and one whose caller gave up in the meantime goes back. */
  lemma {:induction false} HealthyIsKept(limits: Limits, state: State, client: nat, healthy: bool)
    requires Inv(true, state) && Running(state) && client in state.clients && state.clients[client].Checking?
    ensures
      var next, name := Do(limits, state, Checked(client, false, true)), state.clients[client].name;
      && next.Some? && next.value.machines == state.machines && next.value.idle == state.idle
      && next.value.clients == state.clients[client := Handle(name, false, false, false, false, Open)]
    ensures
      var next, name := Do(limits, state, Checked(client, true, healthy)), state.clients[client].name;
      && next.Some? && client !in next.value.clients && next.value.idle == state.idle + [name]
          && IsIdle(next.value, name)
  {
    assert ActorSound(true, state, Caller(client));
  }

  /** A machine whose destruction succeeds is gone, and one whose destruction fails is left to the
      reconciler, by whomever it was destroyed. */
  lemma {:induction false} DestroyedIsGone(limits: Limits, state: State, step: Step, name: string)
    requires Inv(true, state) && !state.stopped && Do(limits, state, step).Some?
    requires (step.EndDestroy? && state.clients[step.client].name == name) ||
             (step.EndReconcile? && state.reconciler == Some(name))
    ensures
      var next := Do(limits, state, step).value;
      && (step.ok ==> name !in next.machines)
      && (!step.ok ==> name in next.machines && next.machines[name].phase.Destroying? && !next.machines[name].claimed)
  {
    assert ActorSound(true, state, ActorOf(step));
  }

  /** A used machine is destroyed and never returned, an unused one is returned and not destroyed. */
  lemma {:induction false} ReleaseByUse(limits: Limits, state: State, client: nat)
    requires Inv(true, state) && Running(state) && IsOpen(state, client)
    ensures
      var name, consumed := state.clients[client].name, state.clients[client].consumed;
      var released := Do(limits, state, MarkReleased(client));
      && released.Some?
      && var ended := Do(limits, released.value, if consumed then BeginDestroy(client) else ReturnIdle(client));
         && ended.Some? && name in ended.value.machines
         && (consumed ==> ended.value.machines[name].phase.Destroying? && ended.value.machines[name].claimed)
         && (!consumed ==> IsIdle(ended.value, name) && ended.value.idle == state.idle + [name])
  {
    assert ActorSound(true, state, Caller(client));
  }

  /** A successful creation adds an idle machine at the end of the list; a name that is tracked already
      changes no machine. */
  lemma {:induction false} CreatedIsIdle(limits: Limits, state: State, task: nat, name: string, ok: bool)
    requires task in state.tasks && state.tasks[task].Calling? && name != ""
    ensures
      var next := Do(limits, state, CreateReturns(task, name, ok));
      && next.Some?
      && (name in state.machines ==> next.value.machines == state.machines && next.value.idle == state.idle)
      && (name !in state.machines && ok ==>
            next.value.machines == state.machines[name := Machine(Idle, false, 0)]
                && next.value.idle == state.idle + [name])
      && (name !in state.machines && !ok ==>
            next.value.machines == state.machines && next.value.tasks[task] == Cleaning(name))
  {
  }
}
