/** Who may touch which machine of the warm pool (internal/runner/libvirt_executor.go). The pool knows
    machines by name only, so everything depends on whether a name can come back while somebody
    still means the machine that had it before. */
module PoolOwnership {
  import opened Basics
  import opened WarmPool

  // ---------------------------------------------------------------------------
  // Actors

  datatype Actor = Caller(client: nat) | Creator(task: nat) | Reconciler

  datatype Role = AsClient(client: Client) | AsTask(task: Task) | AsDestroyer(name: string)

  function RoleOf(state: State, actor: Actor): (role: Option<Role>)
  {
    match actor
    case Caller(client) => if client in state.clients then Some(AsClient(state.clients[client])) else None
    case Creator(task) => if task in state.tasks then Some(AsTask(state.tasks[task])) else None
    case Reconciler => if state.reconciler.Some? then Some(AsDestroyer(state.reconciler.value)) else None
  }

  /** The machine an actor has its hands on. */
  function Grip(role: Option<Role>): (name: Option<string>)
  {
    match role
    case None => None
    case Some(AsClient(Checking(name))) => Some(name)
    case Some(AsClient(Handle(name, _, _, _, _, end))) => if end.Done? then None else Some(name)
    case Some(AsTask(Cleaning(name))) => Some(name)
    case Some(AsTask(Retained(name))) => Some(name)
    case Some(AsTask(Guarding(name))) => Some(name)
    case Some(AsTask(_)) => None
    case Some(AsDestroyer(name)) => Some(name)
  }

  /** Every name an actor remembers, in its hands or not. */
  function Recalls(role: Role): (name: Option<string>)
  {
    match role
    case AsClient(client) => Some(client.name)
    case AsTask(_) => Grip(Some(role))
    case AsDestroyer(name) => Some(name)
  }

  /** The actor is destroying the machine. */
  predicate Destroys(role: Option<Role>, name: string)
  {
    match role
    case None => false
    case Some(AsClient(client)) => client.Handle? && client.end.InDestroy? && client.name == name
    case Some(AsTask(task)) => task.Cleaning? && task.name == name
    case Some(AsDestroyer(x)) => x == name
  }

  function At(machines: map<string, Machine>, name: string): (machine: Option<Machine>)
  {
    if name in machines then Some(machines[name]) else None
  }

  predicate OutOfUse(machine: Option<Machine>)
  {
    machine.None? || machine.value.phase.Destroying?
  }

  predicate UnderClaim(machine: Option<Machine>)
  {
    machine.Some? && machine.value.phase.Destroying? && machine.value.claimed
  }

  /** A machine that a late call can do nothing to: it is out of use, or idle in a pool that hands
      out no more reservations. */
  predicate Harmless(machine: Option<Machine>, stopping: bool)
  {
    OutOfUse(machine) || (stopping && machine.value.phase.Idle?)
  }

  /** The phase of a machine whose reservation has not been turned into a lease. Strictly it is
      reserved; otherwise a late Assign on an earlier machine of the same name may have leased it. */
  predicate NotLeasedYet(strict: bool, phase: Phase)
  {
    phase.Reserved? || (!strict && phase.Leased?)
  }

  /** The handle is over, but a call of Run, or strictly also of Assign, has yet to look at the pool. */
  predicate Late(strict: bool, client: Client)
  {
    client.Handle? && client.end.Done? && (client.starting || (strict && client.leasing))
  }

  predicate HandleSound(strict: bool, machine: Option<Machine>, stopping: bool, stopped: bool, handle: Client)
    requires handle.Handle?
  {
    && (handle.starting ==> handle.ran) && (handle.ran || handle.leasing ==> handle.consumed)
    && (handle.end.Returning? ==> !handle.consumed)
        && (handle.end.ToDestroy? || handle.end.InDestroy? ==> handle.consumed)
    && match handle.end
       case Done => Late(strict, handle) ==> Harmless(machine, stopping)
       case InDestroy => stopped || UnderClaim(machine)
       case _ =>
         || stopped
         || (&& machine.Some?
             && (if !handle.consumed || handle.leasing then NotLeasedYet(strict, machine.value.phase)
                 else machine.value.phase.Leased?)
             && (!handle.ran || handle.starting ==> machine.value.builds == 0))
  }

  predicate RoleSound(strict: bool, machine: Option<Machine>, stopping: bool, stopped: bool, role: Role)
  {
    match role
    case AsClient(client) =>
      if client.Checking?
      then stopped || (machine.Some? && NotLeasedYet(strict, machine.value.phase) && machine.value.builds == 0)
      else HandleSound(strict, machine, stopping, stopped, client)
    case AsTask(task) =>
      (task.Cleaning? ==> machine.None?) && (task.Retained? || task.Guarding? ==> UnderClaim(machine))
    case AsDestroyer(_) => UnderClaim(machine)
  }

  function MachineOf(machines: map<string, Machine>, role: Role): (machine: Option<Machine>)
  {
    if Recalls(role).Some? then At(machines, Recalls(role).value) else None
  }

  // ---------------------------------------------------------------------------
  // The invariant

  predicate MachineSound(machine: Machine)
  {
    && machine.builds <= 1
    && (machine.phase.Idle? || machine.phase.Reserved? ==> machine.builds == 0)
    && (!machine.phase.Destroying? ==> !machine.claimed)
  }

  predicate IsIdle(state: State, name: string)
  {
    name in state.machines && state.machines[name].phase.Idle?
  }

  ghost predicate MachinesSound(state: State)
  {
    forall name :: name in state.machines ==> MachineSound(state.machines[name])
  }

  /** The idle list is duplicate-free and names exactly the idle machines. */
  ghost predicate IdleExact(state: State)
  {
    Distinct(state.idle) && forall name :: name in state.idle <==> IsIdle(state, name)
  }

  ghost predicate ActorSound(strict: bool, state: State, actor: Actor)
  {
    var role := RoleOf(state, actor);
    role.Some? ==> RoleSound(strict, MachineOf(state.machines, role.value), state.stopping, state.stopped, role.value)
  }

  ghost predicate ActorsSound(strict: bool, state: State)
  {
    forall actor :: ActorSound(strict, state, actor)
  }

  /** No two actors have their hands on one machine. */
  ghost predicate Apart(state: State)
  {
    forall a, b :: Grip(RoleOf(state, a)).Some? && Grip(RoleOf(state, a)) == Grip(RoleOf(state, b)) ==> a == b
  }

  /** The invariant, in two strengths: the strict one also keeps reservations from being leased by
      somebody else's late call. */
  ghost predicate Inv(strict: bool, state: State)
  {
    && MachinesSound(state) && IdleExact(state) && ActorsSound(strict, state) && Apart(state)
    && (state.stopped ==> state.stopping && state.machines == map[] && state.tasks == map[] && state.reconciler.None?)
  }

  // ---------------------------------------------------------------------------
  // One actor and one machine change

  ghost predicate OthersSame(state: State, next: State, actor: Actor, name: string)
  {
    && (forall other :: other != actor ==> RoleOf(next, other) == RoleOf(state, other))
    && (forall x :: x != name ==> At(next.machines, x) == At(state.machines, x))
    && next.stopped == state.stopped && next.stopping == state.stopping
    && (state.stopped ==>
        next.machines == state.machines && next.tasks == state.tasks && next.reconciler == state.reconciler)
  }

  ghost predicate NobodyElse(state: State, actor: Actor, name: string)
  {
    forall other :: other != actor ==> Grip(RoleOf(state, other)) != Some(name)
  }

  ghost predicate IdleMoves(state: State, next: State, name: string)
  {
    || (next.idle == state.idle && (IsIdle(state, name) <==> IsIdle(next, name)))
    || (next.idle == state.idle + [name] && !IsIdle(state, name) && IsIdle(next, name))
    || (state.idle == [name] + next.idle && IsIdle(state, name) && !IsIdle(next, name))
  }

  /** A machine that a late call could do nothing to stays so, or no call on its name is late. */
  ghost predicate NoReturn(strict: bool, state: State, next: State, name: string)
  {
    || (Harmless(At(state.machines, name), state.stopping) ==> Harmless(At(next.machines, name), next.stopping))
    || NoneLate(strict, state, name)
  }

  predicate NoneLate(strict: bool, state: State, name: string)
  {
    forall id :: id in state.clients && state.clients[id].name == name ==> !Late(strict, state.clients[id])
  }

  ghost predicate ActorFits(strict: bool, next: State, actor: Actor, name: string)
  {
    && ActorSound(strict, next, actor)
    && (Grip(RoleOf(next, actor)).None? || Grip(RoleOf(next, actor)) == Some(name))
    && (name in next.machines ==> MachineSound(next.machines[name]))
  }

  lemma {:induction false} HeadNotInTail(idle: seq<string>, name: string, rest: seq<string>)
    requires Distinct(idle) && idle == [name] + rest
    ensures name !in rest
  {
    assert idle[0] == name;
    assert forall i :: 0 <= i < |rest| ==> rest[i] == idle[i + 1];
  }

  lemma {:induction false} IdlePreserved(state: State, next: State, actor: Actor, name: string)
    requires IdleExact(state) && OthersSame(state, next, actor, name) && IdleMoves(state, next, name)
    ensures IdleExact(next)
  {
    forall x ensures x in next.idle <==> IsIdle(next, x) {
      assert x != name ==> At(next.machines, x) == At(state.machines, x);
      if state.idle == [name] + next.idle {
        assert x in state.idle <==> x == name || x in next.idle;
        HeadNotInTail(state.idle, name, next.idle);
      }
    }
    DistinctPreserved(state, next, name);
  }

  lemma {:induction false} DistinctPreserved(state: State, next: State, name: string)
    requires IdleExact(state) && IdleMoves(state, next, name)
    ensures Distinct(next.idle)
  {
    if state.idle == [name] + next.idle {
      forall i, j | 0 <= i < j < |next.idle| ensures next.idle[i] != next.idle[j] {
        assert next.idle[i] == state.idle[i + 1] && next.idle[j] == state.idle[j + 1];
      }
    }
  }

  lemma {:induction false} OtherSound(strict: bool, state: State, next: State, actor: Actor, name: string, other: Actor)
    requires ActorSound(strict, state, other) && other != actor
    requires OthersSame(state, next, actor, name) && NobodyElse(state, actor, name)
        && NoReturn(strict, state, next, name)
    ensures ActorSound(strict, next, other)
  {
    var role := RoleOf(state, other);
    assert RoleOf(next, other) == role;
    if role.Some? && Recalls(role.value).Some? {
      var x := Recalls(role.value).value;
      if x != name {
        assert At(next.machines, x) == At(state.machines, x);
      } else {
        assert Grip(role) != Some(name);
      }
    }
  }

  lemma {:induction false} Preserve(strict: bool, state: State, next: State, actor: Actor, name: string)
    requires Inv(strict, state) && OthersSame(state, next, actor, name) && NobodyElse(state, actor, name)
    requires IdleMoves(state, next, name) && NoReturn(strict, state, next, name) && ActorFits(strict, next, actor, name)
    ensures Inv(strict, next)
  {
    IdlePreserved(state, next, actor, name);
    forall other ensures ActorSound(strict, next, other) {
      if other != actor {
        OtherSound(strict, state, next, actor, name, other);
      }
    }
    StillApart(state, next, actor, name);
    forall x | x in next.machines ensures MachineSound(next.machines[x]) {
      assert x != name ==> At(next.machines, x) == At(state.machines, x);
    }
  }

  lemma {:induction false} StillApart(state: State, next: State, actor: Actor, name: string)
    requires Apart(state) && NobodyElse(state, actor, name)
    requires forall other :: other != actor ==> RoleOf(next, other) == RoleOf(state, other)
    requires Grip(RoleOf(next, actor)).None? || Grip(RoleOf(next, actor)) == Some(name)
    ensures Apart(next)
  {
    assert forall other :: other != actor ==> Grip(RoleOf(next, other)) != Some(name);
    forall a, b | Grip(RoleOf(next, a)).Some? && Grip(RoleOf(next, a)) == Grip(RoleOf(next, b)) ensures a == b {
      if a != actor && b != actor {
        assert Grip(RoleOf(state, a)).Some? && Grip(RoleOf(state, a)) == Grip(RoleOf(state, b));
      }
    }
  }

  /** One actor changes its mind and no machine changes. */
  lemma {:induction false} PreserveRole(strict: bool, state: State, next: State, actor: Actor)
    requires Inv(strict, state)
    requires forall other :: other != actor ==> RoleOf(next, other) == RoleOf(state, other)
    requires next.machines == state.machines && next.idle == state.idle && next.stopped == state.stopped
    requires (state.stopping ==> next.stopping)
    requires state.stopped ==> next.tasks == state.tasks && next.reconciler == state.reconciler
    requires Grip(RoleOf(next, actor)).None? || Grip(RoleOf(next, actor)) == Grip(RoleOf(state, actor))
    requires ActorSound(strict, next, actor)
    ensures Inv(strict, next)
  {
    forall other ensures ActorSound(strict, next, other) {
      if other != actor {
        assert ActorSound(strict, state, other) && RoleOf(next, other) == RoleOf(state, other);
      }
    }
    RolesStillApart(state, next, actor);
    assert forall name :: IsIdle(next, name) <==> IsIdle(state, name);
  }

  lemma {:induction false} RolesStillApart(state: State, next: State, actor: Actor)
    requires Apart(state)
    requires forall other :: other != actor ==> RoleOf(next, other) == RoleOf(state, other)
    requires Grip(RoleOf(next, actor)).None? || Grip(RoleOf(next, actor)) == Grip(RoleOf(state, actor))
    ensures Apart(next)
  {
    forall a, b | Grip(RoleOf(next, a)).Some? && Grip(RoleOf(next, a)) == Grip(RoleOf(next, b)) ensures a == b {
      assert Grip(RoleOf(state, a)) == Grip(RoleOf(next, a)) && Grip(RoleOf(state, b)) == Grip(RoleOf(next, b));
    }
  }

  // ---------------------------------------------------------------------------
  // Every step keeps it

  lemma {:induction false} HolderAlone(state: State, actor: Actor, name: string)
    requires Apart(state) && Grip(RoleOf(state, actor)) == Some(name)
    ensures NobodyElse(state, actor, name)
  {
  }

  /** Nobody has a hand on a tracked machine that is idle or waits for a destroyer. */
  lemma {:induction false} FreeMachine(strict: bool, state: State, actor: Actor, name: string)
    requires Inv(strict, state) && name in state.machines
    requires state.machines[name].phase.Idle? || (state.machines[name].phase.Destroying?
        && !state.machines[name].claimed)
    ensures NobodyElse(state, actor, name) && Grip(RoleOf(state, actor)) != Some(name)
  {
    forall other ensures Grip(RoleOf(state, other)) != Some(name) {
      assert ActorSound(strict, state, other);
    }
  }

  /** A name that Create may return: the pool tracks a machine of that name, which it notices; or
      no creation is still removing a machine of that name, and while the pool hands out reservations
      no call on an earlier machine of that name is late. */
  predicate NameFree(strict: bool, state: State, name: string)
  {
    || name in state.machines
    || (&& (forall id :: id in state.tasks ==> state.tasks[id] != Cleaning(name))
        && (state.stopping || NoneLate(strict, state, name)))
  }

  /** Create is at liberty to fail without naming a machine. */
  predicate StepFree(strict: bool, state: State, step: Step)
  {
    step.CreateReturns? && step.name != "" ==> NameFree(strict, state, step.name)
  }

  predicate FreeRun(strict: bool, limits: Limits, state: State, steps: seq<Step>)
    decreases |steps|
  {
    steps == [] ||
    (StepFree(strict, state, steps[0])
     && (Do(limits, state, steps[0]).Some? ==>
           FreeRun(strict, limits, Do(limits, state, steps[0]).value, steps[1..])))
  }

  /** Only a creation that is removing a machine has a hand on one that the pool does not track. */
  lemma {:induction false} UntrackedName(strict: bool, state: State, actor: Actor, name: string)
    requires Inv(strict, state) && !state.stopped && name !in state.machines && NameFree(strict, state, name)
    ensures NobodyElse(state, actor, name)
  {
    forall other ensures Grip(RoleOf(state, other)) != Some(name) {
      assert ActorSound(strict, state, other);
    }
  }

  lemma {:induction false} NewMachineKeeps(strict: bool, state: State, task: nat, name: string, ok: bool)
    requires Inv(strict, state) && task in state.tasks && state.tasks[task].Calling?
    requires name != "" && name !in state.machines && NameFree(strict, state, name)
    ensures Inv(strict, DoCreateReturns(state, task, name, ok).value)
  {
    UntrackedName(strict, state, Creator(task), name);
    Preserve(strict, state, DoCreateReturns(state, task, name, ok).value, Creator(task), name);
  }

  lemma {:induction false} CreateReturnsKeeps(strict: bool, state: State, task: nat, name: string, ok: bool)
    requires Inv(strict, state) && DoCreateReturns(state, task, name, ok).Some?
    requires StepFree(strict, state, CreateReturns(task, name, ok))
    ensures Inv(strict, DoCreateReturns(state, task, name, ok).value)
  {
    var next := DoCreateReturns(state, task, name, ok).value;
    if name == "" || name in state.machines {
      PreserveRole(strict, state, next, Creator(task));
    } else {
      NewMachineKeeps(strict, state, task, name, ok);
    }
  }

  lemma {:induction false} StartCreateKeeps(strict: bool, limits: Limits, state: State, task: nat)
    requires Inv(strict, state) && DoStartCreate(state, limits, task).Some?
    ensures Inv(strict, DoStartCreate(state, limits, task).value)
  {
    PreserveRole(strict, state, DoStartCreate(state, limits, task).value, Creator(task));
  }

  lemma {:induction false} CleanedKeeps(strict: bool, state: State, task: nat)
    requires Inv(strict, state) && DoCleaned(state, task).Some?
    ensures Inv(strict, DoCleaned(state, task).value)
  {
    PreserveRole(strict, state, DoCleaned(state, task).value, Creator(task));
  }

  lemma {:induction false} RetainKeeps(strict: bool, state: State, task: nat)
    requires Inv(strict, state) && DoRetain(state, task).Some?
    ensures Inv(strict, DoRetain(state, task).value)
  {
    assert ActorSound(strict, state, Creator(task));
    HolderAlone(state, Creator(task), state.tasks[task].name);
    Preserve(strict, state, DoRetain(state, task).value, Creator(task), state.tasks[task].name);
  }

  lemma {:induction false} UncountKeeps(strict: bool, state: State, task: nat)
    requires Inv(strict, state) && DoUncount(state, task).Some?
    ensures Inv(strict, DoUncount(state, task).value)
  {
    assert ActorSound(strict, state, Creator(task));
    PreserveRole(strict, state, DoUncount(state, task).value, Creator(task));
  }

  lemma {:induction false} FinishCreateKeeps(strict: bool, state: State, task: nat)
    requires Inv(strict, state) && DoFinishCreate(state, task).Some?
    ensures Inv(strict, DoFinishCreate(state, task).value)
  {
    var next := DoFinishCreate(state, task).value;
    assert ActorSound(strict, state, Creator(task));
    if state.tasks[task].Settled? {
      PreserveRole(strict, state, next, Creator(task));
    } else {
      HolderAlone(state, Creator(task), state.tasks[task].name);
      Preserve(strict, state, next, Creator(task), state.tasks[task].name);
    }
  }

  lemma {:induction false} StartDestroyKeeps(strict: bool, limits: Limits, state: State, name: string)
    requires Inv(strict, state) && DoStartDestroy(state, limits, name).Some?
    ensures Inv(strict, DoStartDestroy(state, limits, name).value)
  {
    FreeMachine(strict, state, Reconciler, name);
    Preserve(strict, state, DoStartDestroy(state, limits, name).value, Reconciler, name);
  }

  lemma {:induction false} WithoutAbsent(idle: seq<string>, name: string)
    requires name !in idle
    ensures Without(idle, name) == idle
  {
    if idle != [] {
      WithoutAbsent(idle[1..], name);
    }
  }

  lemma {:induction false} EndReconcileKeeps(strict: bool, state: State, ok: bool)
    requires Inv(strict, state) && DoEndReconcile(state, ok).Some?
    ensures Inv(strict, DoEndReconcile(state, ok).value)
  {
    var name := state.reconciler.value;
    assert ActorSound(strict, state, Reconciler);
    HolderAlone(state, Reconciler, name);
    assert !IsIdle(state, name);
    WithoutAbsent(state.idle, name);
    Preserve(strict, state, DoEndReconcile(state, ok).value, Reconciler, name);
  }

  lemma {:induction false} TakeIdleKeeps(strict: bool, state: State, client: nat)
    requires Inv(strict, state) && DoTakeIdle(state, client).Some?
    ensures Inv(strict, DoTakeIdle(state, client).value)
  {
    assert state.idle != [];
    var name := state.idle[0];
    assert IsIdle(state, name);
    FreeMachine(strict, state, Caller(client), name);
    var next := DoTakeIdle(state, client).value;
    assert state.idle == [name] + next.idle;
    assert MachineSound(state.machines[name]);
    Preserve(strict, state, next, Caller(client), name);
  }

  lemma {:induction false} CheckedKeeps(strict: bool, state: State, client: nat, canceled: bool, healthy: bool)
    requires Inv(strict, state) && DoChecked(state, client, canceled, healthy).Some?
    ensures Inv(strict, DoChecked(state, client, canceled, healthy).value)
  {
    var name := state.clients[client].name;
    assert ActorSound(strict, state, Caller(client));
    HolderAlone(state, Caller(client), name);
    Preserve(strict, state, DoChecked(state, client, canceled, healthy).value, Caller(client), name);
  }

  lemma {:induction false} MarkKeeps(strict: bool, limits: Limits, state: State, step: Step)
    requires Inv(strict, state) && Do(limits, state, step).Some?
        && (step.MarkAssigned? || step.MarkRan? || step.MarkReleased?)
    ensures Inv(strict, Do(limits, state, step).value)
  {
    assert ActorSound(strict, state, Caller(step.client));
    PreserveRole(strict, state, Do(limits, state, step).value, Caller(step.client));
  }

  /** A late Assign leases the machine that has its name now. Strictly that cannot happen. */
  lemma {:induction false} LateLeaseKeeps(strict: bool, state: State, client: nat)
    requires Inv(strict, state) && DoLease(state, client).Some?
    requires state.clients[client].end.Done? && state.clients[client].name in state.machines
    requires state.machines[state.clients[client].name].phase.Reserved?
    ensures Inv(strict, DoLease(state, client).value)
  {
    var name, next := state.clients[client].name, DoLease(state, client).value;
    assert ActorSound(strict, state, Caller(client));
    assert forall other :: other != Caller(client) ==> RoleOf(next, other) == RoleOf(state, other);
    assert forall x :: x != name ==> At(next.machines, x) == At(state.machines, x);
    forall other ensures ActorSound(strict, next, other) {
      assert ActorSound(strict, state, other);
    }
    RolesStillApart(state, next, Caller(client));
    assert forall x :: IsIdle(next, x) <==> IsIdle(state, x);
  }

  lemma {:induction false} LeaseKeeps(strict: bool, state: State, client: nat)
    requires Inv(strict, state) && DoLease(state, client).Some?
    ensures Inv(strict, DoLease(state, client).value)
  {
    var name, next := state.clients[client].name, DoLease(state, client).value;
    assert ActorSound(strict, state, Caller(client));
    if name !in state.machines || !state.machines[name].phase.Reserved? {
      PreserveRole(strict, state, next, Caller(client));
    } else if state.clients[client].end.Done? {
      LateLeaseKeeps(strict, state, client);
    } else {
      HolderAlone(state, Caller(client), name);
      Preserve(strict, state, next, Caller(client), name);
    }
  }

  lemma {:induction false} StartBuildKeeps(strict: bool, state: State, client: nat)
    requires Inv(strict, state) && DoStartBuild(state, client).Some?
    ensures Inv(strict, DoStartBuild(state, client).value)
  {
    var name, next := state.clients[client].name, DoStartBuild(state, client).value;
    assert ActorSound(strict, state, Caller(client));
    if name in state.machines && state.machines[name].phase.Leased? {
      HolderAlone(state, Caller(client), name);
      Preserve(strict, state, next, Caller(client), name);
    } else {
      PreserveRole(strict, state, next, Caller(client));
    }
  }

  lemma {:induction false} ReturnIdleKeeps(strict: bool, state: State, client: nat)
    requires Inv(strict, state) && DoReturnIdle(state, client).Some?
    ensures Inv(strict, DoReturnIdle(state, client).value)
  {
    var name := state.clients[client].name;
    assert ActorSound(strict, state, Caller(client));
    HolderAlone(state, Caller(client), name);
    Preserve(strict, state, DoReturnIdle(state, client).value, Caller(client), name);
  }

  lemma {:induction false} BeginDestroyKeeps(strict: bool, state: State, client: nat)
    requires Inv(strict, state) && DoBeginDestroy(state, client).Some?
    ensures Inv(strict, DoBeginDestroy(state, client).value)
  {
    var name := state.clients[client].name;
    assert ActorSound(strict, state, Caller(client));
    HolderAlone(state, Caller(client), name);
    assert !IsIdle(state, name);
    WithoutAbsent(state.idle, name);
    Preserve(strict, state, DoBeginDestroy(state, client).value, Caller(client), name);
  }

  lemma {:induction false} EndDestroyKeeps(strict: bool, state: State, client: nat, ok: bool)
    requires Inv(strict, state) && DoEndDestroy(state, client, ok).Some?
    ensures Inv(strict, DoEndDestroy(state, client, ok).value)
  {
    var name := state.clients[client].name;
    assert ActorSound(strict, state, Caller(client));
    HolderAlone(state, Caller(client), name);
    Preserve(strict, state, DoEndDestroy(state, client, ok).value, Caller(client), name);
  }

  lemma {:induction false} ClearKeeps(strict: bool, state: State)
    requires Inv(strict, state) && DoClear(state).Some?
    ensures Inv(strict, DoClear(state).value)
  {
    var next := DoClear(state).value;
    forall actor ensures ActorSound(strict, next, actor) {
      assert ActorSound(strict, state, actor) && RoleOf(next, actor) == RoleOf(state, actor);
    }
    assert forall actor :: RoleOf(next, actor) == RoleOf(state, actor);
  }

  lemma {:induction false} StopKeeps(strict: bool, state: State)
    requires Inv(strict, state)
    ensures Inv(strict, state.(stopping := true))
  {
    var next := state.(stopping := true);
    assert forall actor :: RoleOf(next, actor) == RoleOf(state, actor);
    assert ActorSound(strict, state, Reconciler);
    PreserveRole(strict, state, next, Reconciler);
  }

  lemma {:induction false} StepKeepsInv(strict: bool, limits: Limits, state: State, step: Step)
    requires Inv(strict, state) && Do(limits, state, step).Some? && StepFree(strict, state, step)
    ensures Inv(strict, Do(limits, state, step).value)
  {
    match step
    case StartCreate(task) => StartCreateKeeps(strict, limits, state, task);
    case CreateReturns(task, name, ok) => CreateReturnsKeeps(strict, state, task, name, ok);
    case Cleaned(task) => CleanedKeeps(strict, state, task);
    case Retain(task) => RetainKeeps(strict, state, task);
    case Uncount(task) => UncountKeeps(strict, state, task);
    case FinishCreate(task) => FinishCreateKeeps(strict, state, task);
    case StartDestroy(name) => StartDestroyKeeps(strict, limits, state, name);
    case EndReconcile(ok) => EndReconcileKeeps(strict, state, ok);
    case TakeIdle(client) => TakeIdleKeeps(strict, state, client);
    case Checked(client, canceled, healthy) => CheckedKeeps(strict, state, client, canceled, healthy);
    case Lease(client) => LeaseKeeps(strict, state, client);
    case StartBuild(client) => StartBuildKeeps(strict, state, client);
    case ReturnIdle(client) => ReturnIdleKeeps(strict, state, client);
    case BeginDestroy(client) => BeginDestroyKeeps(strict, state, client);
    case EndDestroy(client, ok) => EndDestroyKeeps(strict, state, client, ok);
    case Stop => StopKeeps(strict, state);
    case Clear => ClearKeeps(strict, state);
    case _ => MarkKeeps(strict, limits, state, step);
  }

  lemma {:induction false} RunKeepsInv(strict: bool, limits: Limits, state: State, steps: seq<Step>)
    requires Inv(strict, state) && Run(limits, state, steps).Some? && FreeRun(strict, limits, state, steps)
    ensures Inv(strict, Run(limits, state, steps).value)
    decreases |steps|
  {
    if steps != [] {
      StepKeepsInv(strict, limits, state, steps[0]);
      RunKeepsInv(strict, limits, Do(limits, state, steps[0]).value, steps[1..]);
    }
  }

  lemma {:induction false} RunSnoc(strict: bool, limits: Limits, start: State, steps: seq<Step>, state: State,
                                   step: Step)
    requires Run(limits, start, steps) == Some(state) && FreeRun(strict, limits, start, steps)
    requires Do(limits, state, step).Some? && StepFree(strict, state, step)
    ensures Run(limits, start, steps + [step]) == Do(limits, state, step)
        && FreeRun(strict, limits, start, steps + [step])
    decreases |steps|
  {
    if steps == [] {
      assert [] + [step] == [step] && [step][1..] == [];
    } else {
      assert (steps + [step])[0] == steps[0] && (steps + [step])[1..] == steps[1..] + [step];
      RunSnoc(strict, limits, Do(limits, start, steps[0]).value, steps[1..], state, step);
    }
  }

  lemma {:induction false} StartedInv(strict: bool, names: seq<string>)
    requires Distinct(names)
    ensures Inv(strict, Started(names))
  {
    var state := Started(names);
    assert forall actor :: RoleOf(state, actor).None?;
  }

  // ---------------------------------------------------------------------------
  // What it means for users of the pool

  /** The state a run leads to from a pool that has just started, if all names were free. */
  predicate Reached(strict: bool, limits: Limits, names: seq<string>, steps: seq<Step>, state: State)
  {
    && Distinct(names) && Run(limits, Started(names), steps) == Some(state)
    && FreeRun(strict, limits, Started(names), steps)
  }

  lemma {:induction false} PoolInv(strict: bool, limits: Limits, names: seq<string>, steps: seq<Step>, state: State)
    requires Reached(strict, limits, names, steps, state)
    ensures Inv(strict, state)
  {
    StartedInv(strict, names);
    RunKeepsInv(strict, limits, Started(names), steps);
  }

  /** In every run the idle list is duplicate-free and lists exactly the idle machines. */
  lemma {:induction false} IdleListExact(limits: Limits, names: seq<string>, steps: seq<Step>, state: State)
    requires Reached(false, limits, names, steps, state)
    ensures Distinct(state.idle)
    ensures forall name :: name in state.idle <==> name in state.machines && state.machines[name].phase.Idle?
  {
    PoolInv(false, limits, names, steps, state);
    assert forall name :: IsIdle(state, name) <==> name in state.machines && state.machines[name].phase.Idle?;
  }

  /** No machine ever runs a second build. */
  lemma {:induction false} AtMostOneBuild(limits: Limits, names: seq<string>, steps: seq<Step>, state: State,
                                          name: string)
    requires Reached(false, limits, names, steps, state) && name in state.machines
    ensures state.machines[name].builds <= 1
  {
    PoolInv(false, limits, names, steps, state);
  }

  /** No machine is ever in two hands; in particular no two destroyers work on one. */
  lemma {:induction false} OneDestroyer(limits: Limits, names: seq<string>, steps: seq<Step>, state: State, a: Actor,
                                        b: Actor, name: string)
    requires Reached(false, limits, names, steps, state)
    requires Destroys(RoleOf(state, a), name) && Destroys(RoleOf(state, b), name)
    ensures a == b
  {
    PoolInv(false, limits, names, steps, state);
    assert Grip(RoleOf(state, a)) == Some(name) && Grip(RoleOf(state, b)) == Some(name);
  }

  /** The caller has a reservation that it has not used or given back. */
  predicate Waits(client: Client)
  {
    client.Checking? || (!client.consumed && (client.end.Open? || client.end.Returning?))
  }

  /** An unused reservation finds its machine reserved: nobody else leases it. */
  ghost predicate Kept(state: State)
  {
    forall id :: id in state.clients && Waits(state.clients[id]) && !state.stopped ==>
      var name := state.clients[id].name;
      name in state.machines && state.machines[name].phase.Reserved?
  }

  lemma {:induction false} StrictKeeps(state: State)
    requires Inv(true, state)
    ensures Kept(state)
  {
    forall id | id in state.clients && Waits(state.clients[id]) && !state.stopped
      ensures
        var name := state.clients[id].name;
        name in state.machines && state.machines[name].phase.Reserved? {
      assert ActorSound(true, state, Caller(id));
    }
  }

  lemma {:induction false} ReservationsKept(limits: Limits, names: seq<string>, steps: seq<Step>, state: State)
    requires Reached(true, limits, names, steps, state)
    ensures Kept(state)
  {
    PoolInv(true, limits, names, steps, state);
    StrictKeeps(state);
  }

  // ---------------------------------------------------------------------------
  // A provider that never names two machines alike

  /** The name is one the pool tracks right now, or one Create never returned before. */
  predicate FreshName(state: State, step: Step)
  {
    step.CreateReturns? && step.name != "" ==> step.name in state.machines || step.name !in state.used
  }

  predicate FreshRun(limits: Limits, state: State, steps: seq<Step>)
    decreases |steps|
  {
    steps == [] ||
    (FreshName(state, steps[0])
     && (Do(limits, state, steps[0]).Some? ==> FreshRun(limits, Do(limits, state, steps[0]).value, steps[1..])))
  }

  /** The history holds every name that anybody means. */
  ghost predicate Remembered(state: State)
  {
    && state.machines.Keys <= state.used
    && (forall id :: id in state.clients ==> state.clients[id].name in state.used)
    && (forall id :: id in state.tasks && Grip(Some(AsTask(state.tasks[id]))).Some? ==>
          Grip(Some(AsTask(state.tasks[id]))).value in state.used)
  }

  lemma {:induction false} CreateRemembers(state: State, task: nat, name: string, ok: bool)
    requires Remembered(state) && DoCreateReturns(state, task, name, ok).Some?
    ensures Remembered(DoCreateReturns(state, task, name, ok).value)
  {
  }

  lemma {:induction false} TaskStepRemembers(limits: Limits, state: State, step: Step)
    requires Remembered(state) && Do(limits, state, step).Some? && IsTaskStep(step)
    ensures Remembered(Do(limits, state, step).value)
  {
    if step.CreateReturns? {
      CreateRemembers(state, step.task, step.name, step.ok);
    }
  }

  lemma {:induction false} HandleStepRemembers(limits: Limits, state: State, step: Step)
    requires Remembered(state) && Do(limits, state, step).Some? && IsHandleStep(step)
    ensures Remembered(Do(limits, state, step).value)
  {
    HandleStepTracksNoMore(limits, state, step);
    HandleStepKeepsNames(limits, state, step);
  }

  lemma {:induction false} HandleStepKeepsNames(limits: Limits, state: State, step: Step)
    requires Do(limits, state, step).Some? && IsHandleStep(step)
    ensures
      var next := Do(limits, state, step).value;
      && next.used == state.used && next.clients.Keys == state.clients.Keys
      && forall id :: id in state.clients ==> next.clients[id].name == state.clients[id].name
  {
    var next := Do(limits, state, step).value;
    if step.MarkAssigned? || step.Lease? || step.MarkRan? || step.StartBuild? {
      UseSetsOne(limits, state, step);
    } else {
      EndSetsOne(limits, state, step);
    }
  }

  /** A step of a handle sets that handle, which keeps its name. */
  ghost predicate SetsOne(state: State, next: State, id: nat)
  {
    && next.used == state.used && id in state.clients && id in next.clients
    && next.clients == state.clients[id := next.clients[id]] && next.clients[id].name == state.clients[id].name
  }

  lemma {:induction false} UseSetsOne(limits: Limits, state: State, step: Step)
    requires Do(limits, state, step).Some? && (step.MarkAssigned? || step.Lease? || step.MarkRan? || step.StartBuild?)
    ensures SetsOne(state, Do(limits, state, step).value, step.client)
  {
  }

  lemma {:induction false} EndSetsOne(limits: Limits, state: State, step: Step)
    requires Do(limits, state, step).Some?
    requires step.MarkReleased? || step.ReturnIdle? || step.BeginDestroy? || step.EndDestroy?
    ensures SetsOne(state, Do(limits, state, step).value, step.client)
  {
  }

  lemma {:induction false} OtherStepRemembers(limits: Limits, state: State, step: Step)
    requires Remembered(state) && Do(limits, state, step).Some? && !IsHandleStep(step) && !IsTaskStep(step)
    ensures Remembered(Do(limits, state, step).value)
  {
  }

  /** New names are free names, so everything above holds for such a provider. */
  lemma {:induction false} FreshRunIsFree(strict: bool, limits: Limits, state: State, steps: seq<Step>)
    requires Remembered(state) && FreshRun(limits, state, steps)
    ensures FreeRun(strict, limits, state, steps)
    decreases |steps|
  {
    if steps != [] && Do(limits, state, steps[0]).Some? {
      if IsTaskStep(steps[0]) {
        TaskStepRemembers(limits, state, steps[0]);
      } else if IsHandleStep(steps[0]) {
        HandleStepRemembers(limits, state, steps[0]);
      } else {
        OtherStepRemembers(limits, state, steps[0]);
      }
      FreshRunIsFree(strict, limits, Do(limits, state, steps[0]).value, steps[1..]);
    }
  }

  /** The machine has been leased or is gone. */
  predicate Spent(state: State, name: string)
  {
    name in state.used && (name in state.machines ==>
        state.machines[name].phase.Leased? || state.machines[name].phase.Destroying?)
  }

  lemma {:induction false} TaskStepKeepsSpent(limits: Limits, state: State, step: Step, name: string)
    requires Spent(state, name) && Do(limits, state, step).Some? && FreshName(state, step) && IsTaskStep(step)
    ensures Spent(Do(limits, state, step).value, name)
  {
  }

  lemma {:induction false} HandleStepKeepsSpent(limits: Limits, state: State, step: Step, name: string)
    requires Spent(state, name) && Do(limits, state, step).Some? && IsHandleStep(step)
    ensures Spent(Do(limits, state, step).value, name)
  {
  }

  lemma {:induction false} FirstIdleIsIdle(idle: seq<string>, machines: map<string, Machine>)
    requires FirstIdle(idle, machines).Some?
    ensures
      var name := FirstIdle(idle, machines).value.0;
      name in machines && machines[name].phase.Idle?
  {
    if !(idle[0] in machines && machines[idle[0]].phase.Idle?) {
      FirstIdleIsIdle(idle[1..], machines);
    }
  }

  lemma {:induction false} OtherStepKeepsSpent(limits: Limits, state: State, step: Step, name: string)
    requires Spent(state, name) && Do(limits, state, step).Some? && !IsHandleStep(step) && !IsTaskStep(step)
    ensures Spent(Do(limits, state, step).value, name)
  {
    if step.TakeIdle? {
      FirstIdleIsIdle(state.idle, state.machines);
    }
  }

  /** A machine that was leased once is never idle or reserved again. */
  lemma {:induction false} LeasedNeverIdleAgain(limits: Limits, state: State, steps: seq<Step>, name: string)
    requires Spent(state, name) && Run(limits, state, steps).Some? && FreshRun(limits, state, steps)
    ensures
      var end := Run(limits, state, steps).value;
      name in end.machines ==> !end.machines[name].phase.Idle? && !end.machines[name].phase.Reserved?
    decreases |steps|
  {
    if steps != [] {
      if IsTaskStep(steps[0]) {
        TaskStepKeepsSpent(limits, state, steps[0], name);
      } else if IsHandleStep(steps[0]) {
        HandleStepKeepsSpent(limits, state, steps[0], name);
      } else {
        OtherStepKeepsSpent(limits, state, steps[0], name);
      }
      LeasedNeverIdleAgain(limits, Do(limits, state, steps[0]).value, steps[1..], name);
    }
  }
}
