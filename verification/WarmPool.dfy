/** The warm pool of virtual machines (internal/runner/libvirt_executor.go) as a step system. One
    step is one critical section under the executor's mutex; the calls to the provider (Create,
    CheckReady, Execute, Destroy) happen between steps and may fail. */
module WarmPool {
  import opened Basics

  datatype Phase = Idle | Reserved | Leased | Destroying

  /** A tracked machine; `claimed` is destroyInProgress. `builds` is history: the builds started on it. */
  datatype Machine = Machine(phase: Phase, claimed: bool, builds: nat)

  /** A creation started by the reconciler.
      Calling: inside the provider's Create. Cleaning: Create failed but named a machine the pool
      does not track; its removal is under way. Settled: the outcome is recorded. Retained: the
      removal failed and the machine was put into the pool. Guarding: its capacity is no longer
      counted as a creation and the retry delay runs. */
  datatype Task = Calling | Cleaning(name: string) | Settled | Retained(name: string) | Guarding(name: string)

  /** How far the release of a reservation is. */
  datatype End = Open | Returning | ToDestroy | InDestroy | Done

  /** A caller of Reserve: first the health check, then the reservation handle. `leasing` and
      `starting` say that Assign or Run have set their flag but not yet looked at the pool. */
  datatype Client =
    | Checking(name: string)
    | Handle(name: string, consumed: bool, leasing: bool, ran: bool, starting: bool, end: End)

  /** `used` is history: the names Create has returned. */
  datatype State = State(
    machines: map<string, Machine>, idle: seq<string>, creating: nat, stopping: bool, stopped: bool,
    reconciler: Option<string>, tasks: map<nat, Task>, clients: map<nat, Client>, used: set<string>)

  datatype Limits = Limits(idleCount: nat, maxInstances: nat)

  datatype Step =
    | StartCreate(task: nat)
    | CreateReturns(task: nat, name: string, ok: bool)
    | Cleaned(task: nat)
    | Retain(task: nat)
    | Uncount(task: nat)
    | FinishCreate(task: nat)
    | StartDestroy(name: string)
    | EndReconcile(ok: bool)
    | TakeIdle(client: nat)
    | Checked(client: nat, canceled: bool, healthy: bool)
    | MarkAssigned(client: nat)
    | Lease(client: nat)
    | MarkRan(client: nat)
    | StartBuild(client: nat)
    | MarkReleased(client: nat)
    | ReturnIdle(client: nat)
    | BeginDestroy(client: nat)
    | EndDestroy(client: nat, ok: bool)
    | Stop
    | Clear

  // ---------------------------------------------------------------------------
  // The steps

  /** removeIdleLocked. */
  function Without(idle: seq<string>, name: string): (rest: seq<string>)
  {
    if idle == [] then []
    else if idle[0] == name then idle[1..]
    else [idle[0]] + Without(idle[1..], name)
  }

  /** The first name on the idle list whose machine is idle; names before it are dropped. */
  function FirstIdle(idle: seq<string>, machines: map<string, Machine>): (found: Option<(string, seq<string>)>)
  {
    if idle == [] then None
    else if idle[0] in machines && machines[idle[0]].phase.Idle? then Some((idle[0], idle[1..]))
    else FirstIdle(idle[1..], machines)
  }

  function ReservedNames(machines: map<string, Machine>): (names: set<string>)
  {
    set name | name in machines && machines[name].phase.Reserved?
  }

  function Available(state: State): (count: nat)
  {
    |state.idle| + |ReservedNames(state.machines)|
  }

  predicate WantsMachine(state: State, limits: Limits)
  {
    Available(state) + state.creating < limits.idleCount && |state.machines| + state.creating < limits.maxInstances
  }

  predicate Running(state: State)
  {
    !state.stopping && !state.stopped
  }

  function SetPhase(state: State, name: string, phase: Phase, claimed: bool): (next: State)
    requires name in state.machines
  {
    state.(machines := state.machines[name := state.machines[name].(phase := phase, claimed := claimed)])
  }

  function SetTask(state: State, task: nat, value: Task): (next: State)
  {
    state.(tasks := state.tasks[task := value])
  }

  function SetClient(state: State, client: nat, value: Client): (next: State)
  {
    state.(clients := state.clients[client := value])
  }

  function DoStartCreate(state: State, limits: Limits, task: nat): (next: Option<State>)
  {
    if Running(state) && state.reconciler.None? && task !in state.tasks && WantsMachine(state, limits)
    then Some(SetTask(state, task, Calling).(creating := state.creating + 1)) else None
  }

  function DoCreateReturns(state: State, task: nat, name: string, ok: bool): (next: Option<State>)
  {
    if task !in state.tasks || !state.tasks[task].Calling? then None
    else if name == "" then Some(SetTask(state, task, Settled))
    else if name in state.machines then Some(SetTask(state, task, Settled).(used := state.used + {name}))
    else if ok then
      Some(SetTask(state, task, Settled).(machines := state.machines[name := Machine(Idle, false, 0)],
                                         idle := state.idle + [name], used := state.used + {name}))
    else Some(SetTask(state, task, Cleaning(name)).(used := state.used + {name}))
  }

  function DoCleaned(state: State, task: nat): (next: Option<State>)
  {
    if task in state.tasks && state.tasks[task].Cleaning? then Some(SetTask(state, task, Settled)) else None
  }

  function DoRetain(state: State, task: nat): (next: Option<State>)
  {
    if task !in state.tasks || !state.tasks[task].Cleaning? then None
    else
      var name := state.tasks[task].name;
      var after := SetTask(state, task, Retained(name));
      Some(if name in state.machines then after else after.(machines := state.machines[name := Machine(Destroying,
          true, 0)]))
  }

  function Less(creating: nat): (n: nat)
  {
    if creating == 0 then 0 else creating - 1
  }

  function DoUncount(state: State, task: nat): (next: Option<State>)
  {
    if task in state.tasks && state.tasks[task].Retained?
    then Some(SetTask(state, task, Guarding(state.tasks[task].name)).(creating := Less(state.creating))) else None
  }

  function DoFinishCreate(state: State, task: nat): (next: Option<State>)
  {
    if task !in state.tasks then None
    else if state.tasks[task].Settled? then Some(state.(tasks := state.tasks - {task},
        creating := Less(state.creating)))
    else if state.tasks[task].Guarding? then Some(Unguard(state.(tasks := state.tasks - {task}),
        state.tasks[task].name))
    else None
  }

  /** The retry delay is over: the reconciler may take the machine. */
  function Unguard(state: State, name: string): (next: State)
  {
    if name in state.machines && state.machines[name].phase.Destroying?
    then SetPhase(state, name, Destroying, false) else state
  }

  function DoStartDestroy(state: State, limits: Limits, name: string): (next: Option<State>)
  {
    if Running(state) && state.reconciler.None? && !WantsMachine(state, limits)
       && name in state.machines && state.machines[name].phase.Destroying? && !state.machines[name].claimed
    then Some(SetPhase(state, name, Destroying, true).(reconciler := Some(name))) else None
  }

  function DoEndReconcile(state: State, ok: bool): (next: Option<State>)
  {
    if state.reconciler.None? then None
    else
      var name, after := state.reconciler.value, state.(reconciler := None);
      Some(if name !in state.machines then after
           else if ok then after.(machines := state.machines - {name}, idle := Without(state.idle, name))
           else SetPhase(after, name, state.machines[name].phase, false))
  }

  function DoTakeIdle(state: State, client: nat): (next: Option<State>)
  {
    if !Running(state) || client in state.clients then None
    else
      var found := FirstIdle(state.idle, state.machines);
      if found.None? || found.value.0 !in state.machines then None
      else
        var name := found.value.0;
        Some(SetClient(SetPhase(state, name, Reserved, state.machines[name].claimed), client,
            Checking(name)).(idle := found.value.1))
  }

  function DoChecked(state: State, client: nat, canceled: bool, healthy: bool): (next: Option<State>)
  {
    if client !in state.clients || !state.clients[client].Checking? then None
    else
      var name, gone := state.clients[client].name, state.(clients := state.clients - {client});
      var current := name in state.machines && state.machines[name].phase.Reserved?;
      Some(if canceled then
             if current && Running(state) then SetPhase(gone, name, Idle,
                 state.machines[name].claimed).(idle := state.idle + [name]) else gone
           else if !Running(state) || !current then gone
           else if healthy then SetClient(state, client, Handle(name, false, false, false, false, Open))
           else SetPhase(gone, name, Destroying, false))
  }

  predicate IsOpen(state: State, client: nat)
  {
    client in state.clients && state.clients[client].Handle? && state.clients[client].end.Open?
  }

  function DoMarkAssigned(state: State, client: nat): (next: Option<State>)
  {
    if IsOpen(state, client) && !state.clients[client].consumed
    then Some(SetClient(state, client, state.clients[client].(consumed := true, leasing := true))) else None
  }

  function DoLease(state: State, client: nat): (next: Option<State>)
  {
    if client !in state.clients || !state.clients[client].Handle? || !state.clients[client].leasing then None
    else
      var name, after := state.clients[client].name, SetClient(state, client, state.clients[client].(leasing := false));
      Some(if name in state.machines && state.machines[name].phase.Reserved?
           then SetPhase(after, name, Leased, state.machines[name].claimed) else after)
  }

  function DoMarkRan(state: State, client: nat): (next: Option<State>)
  {
    if IsOpen(state, client) && state.clients[client].consumed && !state.clients[client].ran
    then Some(SetClient(state, client, state.clients[client].(ran := true, starting := true))) else None
  }

  function Built(machine: Machine): (after: Machine)
  {
    machine.(builds := machine.builds + 1)
  }

  function DoStartBuild(state: State, client: nat): (next: Option<State>)
  {
    if client !in state.clients || !state.clients[client].Handle? || !state.clients[client].starting then None
    else
      var name, after := state.clients[client].name, SetClient(state, client,
          state.clients[client].(starting := false));
      Some(if name in state.machines && state.machines[name].phase.Leased?
           then after.(machines := state.machines[name := Built(state.machines[name])]) else after)
  }

  function DoMarkReleased(state: State, client: nat): (next: Option<State>)
  {
    if IsOpen(state, client)
    then Some(SetClient(state, client, state.clients[client].(end := if state.clients[client].consumed
    then ToDestroy else Returning))) else None
  }

  predicate EndIs(state: State, client: nat, end: End)
  {
    client in state.clients && state.clients[client].Handle? && state.clients[client].end == end
  }

  function DoReturnIdle(state: State, client: nat): (next: Option<State>)
  {
    if !EndIs(state, client, Returning) then None
    else
      var name, after := state.clients[client].name, SetClient(state, client, state.clients[client].(end := Done));
      Some(if Running(state) && name in state.machines && state.machines[name].phase.Reserved?
           then SetPhase(after, name, Idle, state.machines[name].claimed).(idle := state.idle + [name]) else after)
  }

  function DoBeginDestroy(state: State, client: nat): (next: Option<State>)
  {
    if !EndIs(state, client, ToDestroy) then None
    else
      var name := state.clients[client].name;
      Some(if name !in state.machines then SetClient(state, client, state.clients[client].(end := Done))
           else SetPhase(SetClient(state, client, state.clients[client].(end := InDestroy)), name, Destroying, true)
                .(idle := Without(state.idle, name)))
  }

  function DoEndDestroy(state: State, client: nat, ok: bool): (next: Option<State>)
  {
    if !EndIs(state, client, InDestroy) then None
    else
      var name, after := state.clients[client].name, SetClient(state, client, state.clients[client].(end := Done));
      Some(if name !in state.machines then after
           else if ok then after.(machines := state.machines - {name})
           else SetPhase(after, name, state.machines[name].phase, false))
  }

  /** Shutdown forgets everything once the reconciler and all creations have ended. */
  function DoClear(state: State): (next: Option<State>)
  {
    if state.stopping && !state.stopped && state.tasks == map[] && state.reconciler.None?
    then Some(state.(machines := map[], idle := [], creating := 0, stopped := true)) else None
  }

  function Do(limits: Limits, state: State, step: Step): (next: Option<State>)
  {
    match step
    case StartCreate(task) => DoStartCreate(state, limits, task)
    case CreateReturns(task, name, ok) => DoCreateReturns(state, task, name, ok)
    case Cleaned(task) => DoCleaned(state, task)
    case Retain(task) => DoRetain(state, task)
    case Uncount(task) => DoUncount(state, task)
    case FinishCreate(task) => DoFinishCreate(state, task)
    case StartDestroy(name) => DoStartDestroy(state, limits, name)
    case EndReconcile(ok) => DoEndReconcile(state, ok)
    case TakeIdle(client) => DoTakeIdle(state, client)
    case Checked(client, canceled, healthy) => DoChecked(state, client, canceled, healthy)
    case MarkAssigned(client) => DoMarkAssigned(state, client)
    case Lease(client) => DoLease(state, client)
    case MarkRan(client) => DoMarkRan(state, client)
    case StartBuild(client) => DoStartBuild(state, client)
    case MarkReleased(client) => DoMarkReleased(state, client)
    case ReturnIdle(client) => DoReturnIdle(state, client)
    case BeginDestroy(client) => DoBeginDestroy(state, client)
    case EndDestroy(client, ok) => DoEndDestroy(state, client, ok)
    case Stop => Some(state.(stopping := true))
    case Clear => DoClear(state)
  }

  function Run(limits: Limits, state: State, steps: seq<Step>): (end: Option<State>)
    decreases |steps|
  {
    if steps == [] then Some(state)
    else
      var next := Do(limits, state, steps[0]);
      if next.None? then None else Run(limits, next.value, steps[1..])
  }

  predicate Distinct(names: seq<string>)
  {
    forall i, j :: 0 <= i < j < |names| ==> names[i] != names[j]
  }

  /** After a successful Start: the preheated machines are idle and nothing is under way. */
  function Started(names: seq<string>): (state: State)
  {
    State(map name | name in names :: Machine(Idle, false, 0), names, 0, false, false, None, map[], map[],
        set name | name in names)
  }

  // ---------------------------------------------------------------------------
  // Capacity, whatever the provider returns

  /** Creations that may have made a machine the pool does not track yet. */
  ghost function Unregistered(tasks: map<nat, Task>): (ids: set<nat>)
  {
    set id | id in tasks && (tasks[id].Calling? || tasks[id].Cleaning?)
  }

  /** Creations that `creating` counts. */
  ghost function Counted(tasks: map<nat, Task>): (ids: set<nat>)
  {
    set id | id in tasks && !tasks[id].Guarding?
  }

  ghost predicate Fits(limits: Limits, size: nat, creating: nat, tasks: map<nat, Task>)
  {
    creating == |Counted(tasks)| && size + |Unregistered(tasks)| <= limits.maxInstances
  }

  ghost predicate WithinCapacity(limits: Limits, state: State)
  {
    Fits(limits, |state.machines|, state.creating, state.tasks)
  }

  lemma {:induction false} SizeLess<T>(all: set<T>, x: T)
    ensures |all - {x}| == |all| - Bit(x in all)
  {
  }

  function Bit(b: bool): (n: nat)
  {
    if b then 1 else 0
  }

  function Loose(tasks: map<nat, Task>, id: nat): (n: nat)
  {
    Bit(id in tasks && (tasks[id].Calling? || tasks[id].Cleaning?))
  }

  function Uses(tasks: map<nat, Task>, id: nat): (n: nat)
  {
    Bit(id in tasks && !tasks[id].Guarding?)
  }

  lemma {:induction false} SameElsewhere(tasks: map<nat, Task>, after: map<nat, Task>, id: nat, other: nat)
    requires after - {id} == tasks - {id} && other != id
    ensures other in after <==> other in tasks
    ensures other in after ==> after[other] == tasks[other]
  {
    assert other in after <==> other in after - {id};
    assert other in tasks <==> other in tasks - {id};
    if other in after {
      assert after[other] == (after - {id})[other] && tasks[other] == (tasks - {id})[other];
    }
  }

  lemma {:induction false} SetsElsewhere(tasks: map<nat, Task>, after: map<nat, Task>, id: nat)
    requires after - {id} == tasks - {id}
    ensures Unregistered(after) - {id} == Unregistered(tasks) - {id}
    ensures Counted(after) - {id} == Counted(tasks) - {id}
  {
    forall other | other != id ensures (other in after <==> other in tasks)
        && (other in after ==> after[other] == tasks[other]) {
      SameElsewhere(tasks, after, id, other);
    }
  }

  lemma {:induction false} TaskCounts(tasks: map<nat, Task>, after: map<nat, Task>, id: nat)
    requires after - {id} == tasks - {id}
    ensures |Unregistered(after)| - Loose(after, id) == |Unregistered(tasks)| - Loose(tasks, id)
    ensures |Counted(after)| - Uses(after, id) == |Counted(tasks)| - Uses(tasks, id)
  {
    SetsElsewhere(tasks, after, id);
    SizeLess(Unregistered(after), id);
    SizeLess(Unregistered(tasks), id);
    SizeLess(Counted(after), id);
    SizeLess(Counted(tasks), id);
  }

  lemma {:induction false} SizeSet(machines: map<string, Machine>, name: string, machine: Machine)
    ensures |machines[name := machine]| == |machines| + if name in machines then 0 else 1
  {
    assert machines[name := machine].Keys == machines.Keys + {name};
    assert |machines.Keys| == |machines| && |machines[name := machine].Keys| == |machines[name := machine]|;
  }

  /** One creation goes on; at most it hands its place over to a machine. */
  lemma {:induction false} TaskMoves(limits: Limits, state: State, next: State, id: nat)
    requires WithinCapacity(limits, state) && next.tasks - {id} == state.tasks - {id}
    requires |next.machines| + Loose(next.tasks, id) <= |state.machines| + Loose(state.tasks, id)
    requires next.creating + Uses(state.tasks, id) == state.creating + Uses(next.tasks, id)
    ensures WithinCapacity(limits, next)
  {
    TaskCounts(state.tasks, next.tasks, id);
  }

  lemma {:induction false} CountedNotZero(state: State, limits: Limits, id: nat)
    requires WithinCapacity(limits, state) && id in state.tasks && !state.tasks[id].Guarding?
    ensures state.creating > 0
  {
    assert id in Counted(state.tasks);
  }

  lemma {:induction false} CreateReturnsKeepsCapacity(limits: Limits, state: State, task: nat, name: string, ok: bool)
    requires WithinCapacity(limits, state) && DoCreateReturns(state, task, name, ok).Some?
    ensures WithinCapacity(limits, DoCreateReturns(state, task, name, ok).value)
  {
    SizeSet(state.machines, name, Machine(Idle, false, 0));
    TaskMoves(limits, state, DoCreateReturns(state, task, name, ok).value, task);
  }

  lemma {:induction false} CleanedKeepsCapacity(limits: Limits, state: State, task: nat)
    requires WithinCapacity(limits, state) && DoCleaned(state, task).Some?
    ensures WithinCapacity(limits, DoCleaned(state, task).value)
  {
    TaskMoves(limits, state, DoCleaned(state, task).value, task);
  }

  lemma {:induction false} RetainKeepsCapacity(limits: Limits, state: State, task: nat)
    requires WithinCapacity(limits, state) && DoRetain(state, task).Some?
    ensures WithinCapacity(limits, DoRetain(state, task).value)
  {
    SizeSet(state.machines, state.tasks[task].name, Machine(Destroying, true, 0));
    TaskMoves(limits, state, DoRetain(state, task).value, task);
  }

  lemma {:induction false} UncountKeepsCapacity(limits: Limits, state: State, task: nat)
    requires WithinCapacity(limits, state) && DoUncount(state, task).Some?
    ensures WithinCapacity(limits, DoUncount(state, task).value)
  {
    CountedNotZero(state, limits, task);
    TaskMoves(limits, state, DoUncount(state, task).value, task);
  }

  lemma {:induction false} SizeUnguard(state: State, name: string)
    ensures
      var next := Unguard(state, name);
      |next.machines| == |state.machines| && next.tasks == state.tasks && next.creating == state.creating
  {
    if name in state.machines {
      SizeSet(state.machines, name, state.machines[name].(phase := Destroying, claimed := false));
    }
  }

  lemma {:induction false} FinishKeepsCapacity(limits: Limits, state: State, task: nat)
    requires WithinCapacity(limits, state) && DoFinishCreate(state, task).Some?
    ensures WithinCapacity(limits, DoFinishCreate(state, task).value)
  {
    var gone := state.(tasks := state.tasks - {task});
    if state.tasks[task].Settled? {
      CountedNotZero(state, limits, task);
      TaskMoves(limits, state, gone.(creating := state.creating - 1), task);
    } else {
      TaskMoves(limits, state, gone, task);
      SizeUnguard(gone, state.tasks[task].name);
    }
  }

  lemma {:induction false} UnregisteredAreCounted(limits: Limits, state: State)
    requires WithinCapacity(limits, state)
    ensures |Unregistered(state.tasks)| <= state.creating
  {
    SubsetSize(Unregistered(state.tasks), Counted(state.tasks));
  }

  lemma {:induction false} CreateKeepsCapacity(limits: Limits, state: State, task: nat)
    requires WithinCapacity(limits, state) && DoStartCreate(state, limits, task).Some?
    ensures WithinCapacity(limits, DoStartCreate(state, limits, task).value)
  {
    TaskCounts(state.tasks, state.tasks[task := Calling], task);
    UnregisteredAreCounted(limits, state);
  }

  /** Steps that track no new machine and leave the creations alone. */
  ghost predicate TracksNoMore(state: State, next: State)
  {
    next.machines.Keys <= state.machines.Keys && next.tasks == state.tasks && next.creating == state.creating
  }

  lemma {:induction false} TracksNoMoreKeepsCapacity(limits: Limits, state: State, next: State)
    requires WithinCapacity(limits, state) && TracksNoMore(state, next)
    ensures WithinCapacity(limits, next)
  {
    SubsetSize(next.machines.Keys, state.machines.Keys);
    assert |state.machines.Keys| == |state.machines| && |next.machines.Keys| == |next.machines|;
  }

  predicate IsHandleStep(step: Step)
  {
    || step.MarkAssigned? || step.Lease? || step.MarkRan? || step.StartBuild? || step.MarkReleased?
    || step.ReturnIdle? || step.BeginDestroy? || step.EndDestroy?
  }

  predicate IsTaskStep(step: Step)
  {
    step.StartCreate? || step.CreateReturns? || step.Cleaned? || step.Retain? || step.Uncount? || step.FinishCreate?
  }

  lemma {:induction false} HandleStepTracksNoMore(limits: Limits, state: State, step: Step)
    requires Do(limits, state, step).Some? && IsHandleStep(step)
    ensures TracksNoMore(state, Do(limits, state, step).value)
  {
  }

  lemma {:induction false} OtherStepTracksNoMore(limits: Limits, state: State, step: Step)
    requires Do(limits, state, step).Some? && !IsHandleStep(step) && !IsTaskStep(step) && !step.Clear?
    ensures TracksNoMore(state, Do(limits, state, step).value)
  {
  }

  lemma {:induction false} ClearKeepsCapacity(limits: Limits, state: State)
    requires DoClear(state).Some?
    ensures WithinCapacity(limits, DoClear(state).value)
  {
    assert Counted(state.tasks) == {} && Unregistered(state.tasks) == {};
  }

  lemma {:induction false} StepKeepsCapacity(limits: Limits, state: State, step: Step)
    requires WithinCapacity(limits, state) && Do(limits, state, step).Some?
    ensures WithinCapacity(limits, Do(limits, state, step).value)
  {
    match step
    case StartCreate(task) => CreateKeepsCapacity(limits, state, task);
    case CreateReturns(task, name, ok) => CreateReturnsKeepsCapacity(limits, state, task, name, ok);
    case Cleaned(task) => CleanedKeepsCapacity(limits, state, task);
    case Retain(task) => RetainKeepsCapacity(limits, state, task);
    case Uncount(task) => UncountKeepsCapacity(limits, state, task);
    case FinishCreate(task) => FinishKeepsCapacity(limits, state, task);
    case Clear => ClearKeepsCapacity(limits, state);
    case _ =>
      if IsHandleStep(step) {
        HandleStepTracksNoMore(limits, state, step);
      } else {
        OtherStepTracksNoMore(limits, state, step);
      }
      TracksNoMoreKeepsCapacity(limits, state, Do(limits, state, step).value);
  }

  lemma {:induction false} RunKeepsCapacity(limits: Limits, state: State, steps: seq<Step>)
    requires WithinCapacity(limits, state) && Run(limits, state, steps).Some?
    ensures WithinCapacity(limits, Run(limits, state, steps).value)
    decreases |steps|
  {
    if steps != [] {
      StepKeepsCapacity(limits, state, steps[0]);
      RunKeepsCapacity(limits, Do(limits, state, steps[0]).value, steps[1..]);
    }
  }

  lemma {:induction false} NamesSize(names: seq<string>)
    ensures |set name | name in names| <= |names|
  {
    var all := set name | name in names;
    if names == [] {
      assert all == {};
    } else {
      NamesSize(names[1..]);
      assert names == [names[0]] + names[1..];
      assert all == (set name | name in names[1..]) + {names[0]};
    }
  }

  lemma {:induction false} StartedWithinCapacity(limits: Limits, names: seq<string>)
    requires |names| <= limits.maxInstances
    ensures WithinCapacity(limits, Started(names))
  {
    var start := Started(names);
    NamesSize(names);
    assert start.machines.Keys == set name | name in names;
    assert |start.machines| == |start.machines.Keys|;
    assert Counted(start.tasks) == {} && Unregistered(start.tasks) == {};
  }

  /** In every run, with any provider, the machines in the pool and the creations that may have
      made another one never exceed the limit together. */
  lemma {:induction false} NeverOverCapacity(limits: Limits, names: seq<string>, steps: seq<Step>)
    requires |names| <= limits.maxInstances && Run(limits, Started(names), steps).Some?
    ensures
      var state := Run(limits, Started(names), steps).value;
      |state.machines| + |Unregistered(state.tasks)| <= limits.maxInstances
  {
    StartedWithinCapacity(limits, names);
    RunKeepsCapacity(limits, Started(names), steps);
  }
}
