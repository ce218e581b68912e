/** What happens when a name comes back too early (internal/runner/libvirt_executor.go). */
module PoolReuse {
  import opened Basics
  import opened WarmPool
  import opened PoolOwnership

  /** What users of the pool rely on: an exact idle list, at most one build a machine, at most one
      destroyer a machine, and strictly that reservations are kept. */
  ghost predicate Owned(strict: bool, state: State)
  {
    && IdleExact(state)
    && (forall name :: name in state.machines ==> state.machines[name].builds <= 1)
    && (forall a, b, name :: Destroys(RoleOf(state, a), name) && Destroys(RoleOf(state, b), name) ==> a == b)
    && (strict ==> Kept(state))
  }

  lemma {:induction false} InvOwned(strict: bool, state: State)
    requires Inv(strict, state)
    ensures Owned(strict, state)
  {
    forall a, b, name | Destroys(RoleOf(state, a), name) && Destroys(RoleOf(state, b), name) ensures a == b {
      assert Grip(RoleOf(state, a)) == Some(name) && Grip(RoleOf(state, b)) == Some(name);
    }
    if strict {
      StrictKeeps(state);
    }
  }

  /** Whatever happens from here on, with free names only, users get what they rely on. */
  ghost predicate OwnedForever(strict: bool, limits: Limits, state: State)
  {
    forall steps :: FreeRun(strict, limits, state, steps) && Run(limits, state, steps).Some? ==>
      Owned(strict, Run(limits, state, steps).value)
  }

  lemma {:induction false} InvOwnedForever(strict: bool, limits: Limits, state: State)
    requires Inv(strict, state)
    ensures OwnedForever(strict, limits, state)
  {
    forall steps | FreeRun(strict, limits, state, steps) && Run(limits, state, steps).Some?
      ensures Owned(strict, Run(limits, state, steps).value) {
      RunKeepsInv(strict, limits, state, steps);
      InvOwned(strict, Run(limits, state, steps).value);
    }
  }

  // ---------------------------------------------------------------------------
  // The way to a machine at the end of the idle list

  /** No machine is created on the way. */
  predicate MakesNone(steps: seq<Step>)
  {
    forall i :: 0 <= i < |steps| ==> !steps[i].CreateReturns?
  }

  lemma {:induction false} MakesNoneIsFree(strict: bool, limits: Limits, state: State, steps: seq<Step>)
    requires MakesNone(steps)
    ensures FreeRun(strict, limits, state, steps)
    decreases |steps|
  {
    if steps != [] {
      assert MakesNone(steps[1..]);
      if Do(limits, state, steps[0]).Some? {
        MakesNoneIsFree(strict, limits, Do(limits, state, steps[0]).value, steps[1..]);
      }
    }
  }

  /** A path of steps that create nothing. */
  ghost predicate Path(limits: Limits, start: State, steps: seq<Step>, end: State)
  {
    Run(limits, start, steps) == Some(end) && MakesNone(steps)
  }

  lemma {:induction false} PathStep(limits: Limits, start: State, steps: seq<Step>, state: State, step: Step)
    requires Path(limits, start, steps, state) && Do(limits, state, step).Some? && !step.CreateReturns?
    ensures Path(limits, start, steps + [step], Do(limits, state, step).value)
  {
    RunAppend(limits, start, steps, [step]);
    RunCons(limits, state, step, []);
    assert [step] + [] == [step];
  }

  /** The machine has its phase and builds, the late handle is as it was, new callers have numbers
      from `free` on, and the pool hands out reservations. */
  ghost predicate Scene(state: State, name: string, machine: Machine, late: nat, handle: Client, free: nat)
  {
    && name in state.machines && state.machines[name] == machine
    && late in state.clients && state.clients[late] == handle && handle.name == name
    && Running(state) && forall id :: id in state.clients ==> id < free
  }

  ghost predicate AllIdle(state: State)
  {
    Distinct(state.idle) && forall i :: 0 <= i < |state.idle| ==> IsIdle(state, state.idle[i])
  }

  lemma {:induction false} TakeFirst(limits: Limits, state: State, free: nat)
    requires AllIdle(state) && |state.idle| > 0 && Running(state) && forall id :: id in state.clients ==> id < free
    ensures
      var name := state.idle[0];
      Do(limits, state, TakeIdle(free)) == Some(
        state.(machines := state.machines[name := state.machines[name].(phase := Reserved)],
               clients := state.clients[free := Checking(name)], idle := state.idle[1..]))
  {
    assert IsIdle(state, state.idle[0]);
  }

  /** The machines before it are taken one by one. */
  lemma {:induction false} ReachFront(limits: Limits, start: State, before: seq<Step>, state: State, name: string,
                                      machine: Machine, late: nat, handle: Client, free: nat)
    returns (steps: seq<Step>, end: State, next: nat)
    requires Path(limits, start, before, state) && Scene(state, name, machine, late, handle, free)
    requires AllIdle(state) && |state.idle| > 0 && state.idle[|state.idle| - 1] == name
    ensures Path(limits, start, steps, end) && Scene(end, name, machine, late, handle, next)
    ensures AllIdle(end) && end.idle == [name]
    decreases |state.idle|
  {
    if |state.idle| == 1 {
      return before, state, free;
    }
    TakeFirst(limits, state, free);
    PathStep(limits, start, before, state, TakeIdle(free));
    var taken := Do(limits, state, TakeIdle(free)).value;
    assert state.idle[0] != name;
    TakenAllIdle(state, taken);
    steps, end, next := ReachFront(limits, start, before + [TakeIdle(free)], taken, name, machine, late, handle,
        free + 1);
  }

  lemma {:induction false} TakenAllIdle(state: State, taken: State)
    requires AllIdle(state) && |state.idle| > 0 && taken.idle == state.idle[1..]
    requires forall x :: x != state.idle[0] ==> At(taken.machines, x) == At(state.machines, x)
    ensures AllIdle(taken)
  {
    forall i | 0 <= i < |taken.idle| ensures IsIdle(taken, taken.idle[i]) {
      assert taken.idle[i] == state.idle[i + 1] && IsIdle(state, state.idle[i + 1]);
      assert At(taken.machines, taken.idle[i]) == At(state.machines, taken.idle[i]);
    }
    forall i, j | 0 <= i < j < |taken.idle| ensures taken.idle[i] != taken.idle[j] {
      assert taken.idle[i] == state.idle[i + 1] && taken.idle[j] == state.idle[j + 1];
    }
  }

  /** Another caller has the machine in hand. */
  ghost predicate InHand(state: State, name: string, machine: Machine, late: nat, handle: Client, other: nat,
                         hand: Client)
  {
    && Scene(state, name, machine, late, handle, other + 1) && late != other
    && other in state.clients && state.clients[other] == hand && hand.name == name
  }

  /** A new caller reserves the machine and gets its handle. */
  lemma {:induction false} Reserve(limits: Limits, start: State, before: seq<Step>, state: State, name: string,
                                   late: nat, handle: Client, free: nat)
    returns (steps: seq<Step>, end: State)
    requires Path(limits, start, before, state) && Scene(state, name, Machine(Idle, false, 0), late, handle, free)
    requires AllIdle(state) && state.idle == [name]
    ensures Path(limits, start, steps, end)
    ensures InHand(end, name, Machine(Reserved, false, 0), late, handle, free,
        Handle(name, false, false, false, false, Open))
  {
    TakeFirst(limits, state, free);
    PathStep(limits, start, before, state, TakeIdle(free));
    var taken := Do(limits, state, TakeIdle(free)).value;
    PathStep(limits, start, before + [TakeIdle(free)], taken, Checked(free, false, true));
    steps := before + [TakeIdle(free)] + [Checked(free, false, true)];
    end := Do(limits, taken, Checked(free, false, true)).value;
  }

  lemma {:induction false} HandStep(limits: Limits, start: State, before: seq<Step>, state: State, name: string,
                                    machine: Machine, late: nat,
                                    handle: Client, other: nat, hand: Client, step: Step)
    returns (steps: seq<Step>, end: State)
    requires Path(limits, start, before, state) && InHand(state, name, machine, late, handle, other, hand)
    requires hand.Handle? && hand.end.Open?
    requires step == MarkAssigned(other) || step == Lease(other) || step == MarkRan(other) || step == StartBuild(other)
    requires Do(limits, state, step).Some?
    ensures Path(limits, start, steps, end) && end == Do(limits, state, step).value
    ensures other in end.clients && name in end.machines
    ensures InHand(end, name, end.machines[name], late, handle, other, end.clients[other])
    ensures step.MarkAssigned? ==>
        end.machines[name] == machine && end.clients[other] == hand.(consumed := true, leasing := true)
    ensures step.Lease? && machine.phase.Reserved? ==>
              end.machines[name] == machine.(phase := Leased) && end.clients[other] == hand.(leasing := false)
    ensures step.MarkRan? ==>
        end.machines[name] == machine && end.clients[other] == hand.(ran := true, starting := true)
    ensures step.StartBuild? && machine.phase.Leased? ==>
              end.machines[name] == machine.(builds := machine.builds + 1)
                  && end.clients[other] == hand.(starting := false)
  {
    PathStep(limits, start, before, state, step);
    steps, end := before + [step], Do(limits, state, step).value;
  }

  /** The new caller turns its reservation into a lease. */
  lemma {:induction false} TakeLease(limits: Limits, start: State, before: seq<Step>, state: State, name: string,
                                     late: nat, handle: Client, other: nat)
    returns (steps: seq<Step>, end: State)
    requires Path(limits, start, before, state)
    requires InHand(state, name, Machine(Reserved, false, 0), late, handle, other,
        Handle(name, false, false, false, false, Open))
    ensures Path(limits, start, steps, end)
    ensures InHand(end, name, Machine(Leased, false, 0), late, handle, other,
        Handle(name, true, false, false, false, Open))
  {
    steps, end := HandStep(limits, start, before, state, name, Machine(Reserved, false, 0), late, handle, other,
                           Handle(name, false, false, false, false, Open), MarkAssigned(other));
    steps, end := HandStep(limits, start, steps, end, name, Machine(Reserved, false, 0), late, handle, other,
                           Handle(name, true, true, false, false, Open), Lease(other));
  }

  /** ... and builds on its machine. */
  lemma {:induction false} OneBuild(limits: Limits, start: State, before: seq<Step>, state: State, name: string,
                                    late: nat, handle: Client, other: nat)
    returns (steps: seq<Step>, end: State)
    requires Path(limits, start, before, state)
    requires InHand(state, name, Machine(Leased, false, 0), late, handle, other,
        Handle(name, true, false, false, false, Open))
    ensures Path(limits, start, steps, end)
    ensures InHand(end, name, Machine(Leased, false, 1), late, handle, other,
        Handle(name, true, false, true, false, Open))
  {
    steps, end := HandStep(limits, start, before, state, name, Machine(Leased, false, 0), late, handle, other,
                           Handle(name, true, false, false, false, Open), MarkRan(other));
    steps, end := HandStep(limits, start, steps, end, name, Machine(Leased, false, 0), late, handle, other,
                           Handle(name, true, false, true, true, Open), StartBuild(other));
  }

  /** Then the late Run looks the name up. */
  lemma {:induction false} TwoBuilds(limits: Limits, start: State, before: seq<Step>, state: State, name: string,
                                     late: nat, handle: Client, other: nat)
    returns (steps: seq<Step>, end: State)
    requires Path(limits, start, before, state)
    requires InHand(state, name, Machine(Reserved, false, 0), late, handle, other,
        Handle(name, false, false, false, false, Open))
    requires handle.Handle? && handle.starting
    ensures Path(limits, start, steps, end)
    ensures name in end.machines && end.machines[name].builds == 2
  {
    steps, end := TakeLease(limits, start, before, state, name, late, handle, other);
    steps, end := OneBuild(limits, start, steps, end, name, late, handle, other);
    PathStep(limits, start, steps, end, StartBuild(late));
    steps, end := steps + [StartBuild(late)], Do(limits, end, StartBuild(late)).value;
  }

  /** ... or the late Assign leases a machine that the new caller has only reserved. */
  lemma {:induction false} LostReservation(limits: Limits, start: State, before: seq<Step>, state: State,
                                           name: string, late: nat, handle: Client, other: nat)
    returns (steps: seq<Step>, end: State)
    requires Path(limits, start, before, state)
    requires InHand(state, name, Machine(Reserved, false, 0), late, handle, other,
        Handle(name, false, false, false, false, Open))
    requires handle.Handle? && handle.leasing
    ensures Path(limits, start, steps, end) && !Kept(end)
  {
    PathStep(limits, start, before, state, Lease(late));
    steps, end := before + [Lease(late)], Do(limits, state, Lease(late)).value;
    assert other in end.clients && Waits(end.clients[other]);
  }

  // ---------------------------------------------------------------------------
  // The exact condition

  /** Some number above all in use. */
  lemma {:induction false} Above(ids: set<nat>) returns (free: nat)
    ensures forall id :: id in ids ==> id < free
  {
    if ids == {} {
      return 0;
    }
    var id :| id in ids;
    free := Above(ids - {id});
    assert forall other :: other in ids ==> other == id || other in ids - {id};
    free := if free <= id then id + 1 else free;
  }

  /** While a creation removes a machine, another one that fails under the same name removes it too. */
  lemma {:induction false} SecondRemoval(strict: bool, limits: Limits, state: State, task: nat, name: string,
                                         other: nat)
    requires task in state.tasks && state.tasks[task].Calling? && name != "" && name !in state.machines
    requires other in state.tasks && state.tasks[other] == Cleaning(name)
    ensures !OwnedForever(strict, limits, DoCreateReturns(state, task, name, false).value)
  {
    var next := DoCreateReturns(state, task, name, false).value;
    assert Destroys(RoleOf(next, Creator(task)), name) && Destroys(RoleOf(next, Creator(other)), name);
    assert Run(limits, next, []) == Some(next) && FreeRun(strict, limits, next, []);
  }

  /** While a call on the earlier machine is late, a new machine of the same name falls into two hands. */
  lemma {:induction false} LateCallMeets(strict: bool, limits: Limits, state: State, task: nat, name: string, late: nat)
    requires Inv(strict, state) && task in state.tasks && state.tasks[task].Calling? && name != ""
        && name !in state.machines
    requires Running(state) && late in state.clients && state.clients[late].name == name
        && Late(strict, state.clients[late])
    ensures !OwnedForever(strict, limits, DoCreateReturns(state, task, name, true).value)
  {
    var next, handle := DoCreateReturns(state, task, name, true).value, state.clients[late];
    var free := Above(state.clients.Keys);
    NewLastIdle(strict, state, next, name);
    assert Run(limits, next, []) == Some(next);
    var steps, end, other := ReachFront(limits, next, [], next, name, Machine(Idle, false, 0), late, handle, free);
    steps, end := Reserve(limits, next, steps, end, name, late, handle, other);
    if handle.starting {
      steps, end := TwoBuilds(limits, next, steps, end, name, late, handle, other);
    } else {
      steps, end := LostReservation(limits, next, steps, end, name, late, handle, other);
    }
    MakesNoneIsFree(strict, limits, next, steps);
    assert !Owned(strict, end);
  }

  lemma {:induction false} NewLastIdle(strict: bool, state: State, next: State, name: string)
    requires Inv(strict, state) && name !in state.machines
    requires next.idle == state.idle + [name] && next.machines == state.machines[name := Machine(Idle, false, 0)]
    ensures AllIdle(next)
  {
    forall i | 0 <= i < |state.idle| ensures state.idle[i] != name && IsIdle(next, state.idle[i]) {
      assert state.idle[i] in state.idle;
      assert IsIdle(state, state.idle[i]);
    }
  }

  /** The exact condition on the provider. Let Create return the name of a machine the pool does not
      track, in any state that keeps the invariant, whatever the idle list. Users get what they rely
      on, however Create ended and whatever happens from there on, if and only if the name is free. */
  lemma {:induction false} ReuseExactly(strict: bool, limits: Limits, state: State, task: nat, name: string)
    requires Inv(strict, state) && task in state.tasks && state.tasks[task].Calling? && name != ""
        && name !in state.machines
    ensures NameFree(strict, state, name) <==>
              && OwnedForever(strict, limits, DoCreateReturns(state, task, name, true).value)
              && OwnedForever(strict, limits, DoCreateReturns(state, task, name, false).value)
  {
    if NameFree(strict, state, name) {
      NewMachineKeeps(strict, state, task, name, true);
      NewMachineKeeps(strict, state, task, name, false);
      InvOwnedForever(strict, limits, DoCreateReturns(state, task, name, true).value);
      InvOwnedForever(strict, limits, DoCreateReturns(state, task, name, false).value);
    } else if other :| other in state.tasks && state.tasks[other] == Cleaning(name) {
      SecondRemoval(strict, limits, state, task, name, other);
    } else {
      var late :| late in state.clients && state.clients[late].name == name && Late(strict, state.clients[late]);
      LateCallMeets(strict, limits, state, task, name, late);
    }
  }

  // ---------------------------------------------------------------------------
  // A run from the start of the pool

  /** A pool of one machine with nothing else going on. */
  function Single(machine: Option<Machine>, clients: map<nat, Client>): (state: State)
  {
    State(if machine.Some? then map["vm" := machine.value] else map[],
          if machine.Some? && machine.value.phase.Idle? then ["vm"] else [],
          0, false, false, None, map[], clients, {"vm"})
  }

  lemma {:induction false} RunCons(limits: Limits, state: State, step: Step, rest: seq<Step>)
    requires Do(limits, state, step).Some?
    ensures Run(limits, state, [step] + rest) == Run(limits, Do(limits, state, step).value, rest)
  {
    assert ([step] + rest)[0] == step && ([step] + rest)[1..] == rest;
  }

  /** A caller gets the machine and says it wants to run, but is slow to look at the pool. */
  function SlowCaller(id: nat): (steps: seq<Step>)
  {
    [TakeIdle(id)] + ([Checked(id, false, true)] + ([MarkAssigned(id)] + ([Lease(id)] + ([MarkRan(id)] + []))))
  }

  lemma {:induction false} SlowCallerRuns(limits: Limits, clients: map<nat, Client>, id: nat)
    requires id !in clients
    ensures Run(limits, Single(Some(Machine(Idle, false, 0)), clients), SlowCaller(id))
            == Some(Single(Some(Machine(Leased, false, 0)), clients[id := Handle("vm", true, false, true, true, Open)]))
  {
    Reserves(limits, clients, id);
    Consumes(limits, clients, id);
    RunCons(limits, Single(Some(Machine(Idle, false, 0)), clients), TakeIdle(id),
            [Checked(id, false, true)] + ([MarkAssigned(id)] + ([Lease(id)] + ([MarkRan(id)] + []))));
    RunCons(limits, Single(Some(Machine(Reserved, false, 0)), clients[id := Checking("vm")]), Checked(id, false, true),
            [MarkAssigned(id)] + ([Lease(id)] + ([MarkRan(id)] + [])));
  }

  lemma {:induction false} RunThree(limits: Limits, s0: State, a: Step, s1: State, b: Step, s2: State, c: Step,
                                    s3: State)
    requires Do(limits, s0, a) == Some(s1) && Do(limits, s1, b) == Some(s2) && Do(limits, s2, c) == Some(s3)
    ensures Run(limits, s0, [a] + ([b] + ([c] + []))) == Some(s3)
  {
    RunCons(limits, s2, c, []);
    RunCons(limits, s1, b, [c] + []);
    RunCons(limits, s0, a, [b] + ([c] + []));
  }

  lemma {:induction false} Marks(limits: Limits, clients: map<nat, Client>, id: nat)
    ensures Do(limits, Single(Some(Machine(Reserved, false, 0)),
        clients[id := Handle("vm", false, false, false, false, Open)]), MarkAssigned(id))
            == Some(Single(Some(Machine(Reserved, false, 0)),
                clients[id := Handle("vm", true, true, false, false, Open)]))
    ensures Do(limits, Single(Some(Machine(Leased, false, 0)),
        clients[id := Handle("vm", true, false, false, false, Open)]), MarkRan(id))
            == Some(Single(Some(Machine(Leased, false, 0)), clients[id := Handle("vm", true, false, true, true, Open)]))
  {
    Does(limits, Single(Some(Machine(Reserved, false, 0)),
        clients[id := Handle("vm", false, false, false, false, Open)]), MarkAssigned(id),
         Single(Some(Machine(Reserved, false, 0)), clients[id := Handle("vm", true, true, false, false, Open)]));
    Does(limits, Single(Some(Machine(Leased, false, 0)),
        clients[id := Handle("vm", true, false, false, false, Open)]), MarkRan(id),
         Single(Some(Machine(Leased, false, 0)), clients[id := Handle("vm", true, false, true, true, Open)]));
  }

  lemma {:induction false} Leases(limits: Limits, clients: map<nat, Client>, id: nat)
    ensures Do(limits, Single(Some(Machine(Reserved, false, 0)),
        clients[id := Handle("vm", true, true, false, false, Open)]), Lease(id))
            == Some(Single(Some(Machine(Leased, false, 0)),
                clients[id := Handle("vm", true, false, false, false, Open)]))
  {
    Does(limits, Single(Some(Machine(Reserved, false, 0)),
        clients[id := Handle("vm", true, true, false, false, Open)]), Lease(id),
         Single(Some(Machine(Leased, false, 0)), clients[id := Handle("vm", true, false, false, false, Open)]));
  }

  lemma {:induction false} Consumes(limits: Limits, clients: map<nat, Client>, id: nat)
    ensures Run(limits, Single(Some(Machine(Reserved, false, 0)),
        clients[id := Handle("vm", false, false, false, false, Open)]),
                [MarkAssigned(id)] + ([Lease(id)] + ([MarkRan(id)] + [])))
            == Some(Single(Some(Machine(Leased, false, 0)), clients[id := Handle("vm", true, false, true, true, Open)]))
  {
    Marks(limits, clients, id);
    Leases(limits, clients, id);
    RunThree(limits,
             Single(Some(Machine(Reserved, false, 0)), clients[id := Handle("vm", false, false, false, false,
                 Open)]), MarkAssigned(id),
             Single(Some(Machine(Reserved, false, 0)), clients[id := Handle("vm", true, true, false, false, Open)]),
                 Lease(id),
             Single(Some(Machine(Leased, false, 0)), clients[id := Handle("vm", true, false, false, false, Open)]),
                 MarkRan(id),
             Single(Some(Machine(Leased, false, 0)), clients[id := Handle("vm", true, false, true, true, Open)]));
  }

  lemma {:induction false} Reserves(limits: Limits, clients: map<nat, Client>, id: nat)
    requires id !in clients
    ensures
      var checking := Single(Some(Machine(Reserved, false, 0)), clients[id := Checking("vm")]);
      && Do(limits, Single(Some(Machine(Idle, false, 0)), clients), TakeIdle(id)) == Some(checking)
      && Do(limits, checking, Checked(id, false, true))
         == Some(Single(Some(Machine(Reserved, false, 0)),
             clients[id := Handle("vm", false, false, false, false, Open)]))
  {
    var s0, s1 := Single(Some(Machine(Idle, false, 0)), clients),
        Single(Some(Machine(Reserved, false, 0)), clients[id := Checking("vm")]);
    assert ["vm"][1..] == [];
    assert FirstIdle(s0.idle, s0.machines) == Some(("vm", []));
    Does(limits, s0, TakeIdle(id), s1);
    Does(limits, s1, Checked(id, false, true), Single(Some(Machine(Reserved, false, 0)),
        clients[id := Handle("vm", false, false, false, false, Open)]));
  }

  /** The outcome of a step, told field by field. */
  lemma {:induction false} Does(limits: Limits, state: State, step: Step, next: State)
    requires Do(limits, state, step).Some?
    requires
      var outcome := Do(limits, state, step).value;
      && outcome.machines == next.machines && outcome.clients == next.clients && outcome.tasks == next.tasks
      && outcome.idle == next.idle && outcome.used == next.used && outcome.creating == next.creating
      && outcome.reconciler == next.reconciler && outcome.stopping == next.stopping && outcome.stopped == next.stopped
    ensures Do(limits, state, step) == Some(next)
  {
  }

  /** Meanwhile its machine is released and destroyed, ... */
  function Removal(): (steps: seq<Step>)
  {
    [MarkReleased(1)] + ([BeginDestroy(1)] + ([EndDestroy(1, true)] + []))
  }

  /** The slow caller's handle at each stage of its release. */
  function Slow(end: End): (clients: map<nat, Client>)
  {
    map[1 := Handle("vm", true, false, true, true, end)]
  }

  lemma {:induction false} Releases(limits: Limits)
    ensures Do(limits, Single(Some(Machine(Leased, false, 0)), Slow(Open)), MarkReleased(1))
        == Some(Single(Some(Machine(Leased, false, 0)), Slow(ToDestroy)))
  {
    Does(limits, Single(Some(Machine(Leased, false, 0)), Slow(Open)), MarkReleased(1),
        Single(Some(Machine(Leased, false, 0)), Slow(ToDestroy)));
  }

  lemma {:induction false} Begins(limits: Limits)
    ensures Do(limits, Single(Some(Machine(Leased, false, 0)), Slow(ToDestroy)), BeginDestroy(1))
            == Some(Single(Some(Machine(Destroying, true, 0)), Slow(InDestroy)))
  {
    Does(limits, Single(Some(Machine(Leased, false, 0)), Slow(ToDestroy)), BeginDestroy(1),
        Single(Some(Machine(Destroying, true, 0)), Slow(InDestroy)));
  }

  lemma {:induction false} Ends(limits: Limits)
    ensures Do(limits, Single(Some(Machine(Destroying, true, 0)), Slow(InDestroy)), EndDestroy(1, true))
        == Some(Single(None, Slow(Done)))
  {
    Does(limits, Single(Some(Machine(Destroying, true, 0)), Slow(InDestroy)), EndDestroy(1, true),
        Single(None, Slow(Done)));
  }

  lemma {:induction false} RemovalRuns(limits: Limits)
    ensures Run(limits, Single(Some(Machine(Leased, false, 0)), Slow(Open)), Removal())
        == Some(Single(None, Slow(Done)))
  {
    Releases(limits);
    Begins(limits);
    Ends(limits);
    RunThree(limits, Single(Some(Machine(Leased, false, 0)), Slow(Open)), MarkReleased(1),
             Single(Some(Machine(Leased, false, 0)), Slow(ToDestroy)), BeginDestroy(1),
             Single(Some(Machine(Destroying, true, 0)), Slow(InDestroy)), EndDestroy(1, true),
                 Single(None, Slow(Done)));
  }

  /** ... and another one is made under the same name. */
  function Renewal(): (steps: seq<Step>)
  {
    [StartCreate(0)] + ([CreateReturns(0, "vm", true)] + ([FinishCreate(0)] + []))
  }

  lemma {:induction false} RenewalRuns(limits: Limits, clients: map<nat, Client>)
    requires limits == Limits(1, 1)
    ensures Run(limits, Single(None, clients), Renewal()) == Some(Single(Some(Machine(Idle, false, 0)), clients))
  {
    var s3 := Single(None, clients);
    var s4 := s3.(creating := 1, tasks := map[0 := Calling]);
    var s6 := Single(Some(Machine(Idle, false, 0)), clients);
    var s5 := s6.(creating := 1, tasks := map[0 := Settled]);
    assert ReservedNames(s3.machines) == {};
    Does(limits, s3, StartCreate(0), s4);
    Does(limits, s4, CreateReturns(0, "vm", true), s5);
    Does(limits, s5, FinishCreate(0), s6);
    RunThree(limits, s3, StartCreate(0), s4, CreateReturns(0, "vm", true), s5, FinishCreate(0), s6);
  }

  /** Both callers then start their builds. */
  function BothStart(): (steps: seq<Step>)
  {
    [StartBuild(2)] + ([StartBuild(1)] + [])
  }

  lemma {:induction false} BothStartRuns(limits: Limits, clients: map<nat, Client>)
    requires 1 in clients && clients[1] == Handle("vm", true, false, true, true, Done)
    requires 2 in clients && clients[2] == Handle("vm", true, false, true, true, Open)
    ensures Run(limits, Single(Some(Machine(Leased, false, 0)), clients), BothStart()).Some?
    ensures Run(limits, Single(Some(Machine(Leased, false, 0)), clients), BothStart()).value.machines
        == map["vm" := Machine(Leased, false, 2)]
  {
    var s0 := Single(Some(Machine(Leased, false, 0)), clients);
    var one := clients[2 := Handle("vm", true, false, true, false, Open)];
    var s1 := Single(Some(Machine(Leased, false, 1)), one);
    var s2 := Single(Some(Machine(Leased, false, 2)), one[1 := Handle("vm", true, false, true, false, Done)]);
    Does(limits, s0, StartBuild(2), s1);
    Does(limits, s1, StartBuild(1), s2);
    RunCons(limits, s1, StartBuild(1), []);
    RunCons(limits, s0, StartBuild(2), [StartBuild(1)] + []);
  }

  lemma {:induction false} RunAppend(limits: Limits, state: State, steps: seq<Step>, more: seq<Step>)
    requires Run(limits, state, steps).Some?
    ensures Run(limits, state, steps + more) == Run(limits, Run(limits, state, steps).value, more)
    decreases |steps|
  {
    if steps == [] {
      assert steps + more == more;
    } else {
      assert (steps + more)[0] == steps[0] && (steps + more)[1..] == steps[1..] + more;
      RunAppend(limits, Do(limits, state, steps[0]).value, steps[1..], more);
    }
  }

  /** If the provider may reuse a name, a machine can get two builds: the run in which the slow
      caller finally looks up its machine by name and finds the new one. */
  lemma {:induction false} ReusedNameTwoBuilds()
    ensures
      var steps := SlowCaller(1) + (Removal() + (Renewal() + (SlowCaller(2) + BothStart())));
      var end := Run(Limits(1, 1), Started(["vm"]), steps);
      end.Some? && end.value.machines == map["vm" := Machine(Leased, false, 2)]
  {
    var limits := Limits(1, 1);
    var start := Single(Some(Machine(Idle, false, 0)), map[]);
    assert Started(["vm"]).machines == start.machines && Started(["vm"]).used == start.used;
    SlowCallerRuns(limits, map[], 1);
    assert map[][1 := Handle("vm", true, false, true, true, Open)] == Slow(Open);
    RemovalRuns(limits);
    RenewalRuns(limits, Slow(Done));
    SlowCallerRuns(limits, Slow(Done), 2);
    BothStartRuns(limits, Slow(Done)[2 := Handle("vm", true, false, true, true, Open)]);
    RunAppend(limits, start, SlowCaller(1), Removal() + (Renewal() + (SlowCaller(2) + BothStart())));
    RunAppend(limits, Run(limits, start, SlowCaller(1)).value, Removal(), Renewal() + (SlowCaller(2) + BothStart()));
    RunAppend(limits, Single(None, Slow(Done)), Renewal(), SlowCaller(2) + BothStart());
    RunAppend(limits, Single(Some(Machine(Idle, false, 0)), Slow(Done)), SlowCaller(2), BothStart());
  }
}
