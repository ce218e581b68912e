/** The dependency checks of a build configuration and the depth-first cycle search
    (Config.Validate in internal/repoconfig/config.go). */
module DependencySearch {

  /** The jobs of a configuration and the names each one needs. */
  type Graph = map<string, seq<string>>

  const MAXIMUM_JOBS := 128

  predicate Closed(graph: Graph)
  {
    forall name, need :: name in graph && need in graph[name] ==> need in graph
  }

  /** Consecutive names of a path need one another. */
  predicate IsPath(graph: Graph, path: seq<string>)
  {
    && (forall i :: 0 <= i < |path| ==> path[i] in graph)
    && (forall i :: 0 <= i < |path| - 1 ==> path[i + 1] in graph[path[i]])
  }

  predicate IsCycle(graph: Graph, path: seq<string>)
  {
    |path| >= 2 && path[0] == path[|path| - 1] && IsPath(graph, path)
  }

  ghost predicate Acyclic(graph: Graph)
  {
    forall path :: !IsCycle(graph, path)
  }

  /** Every name of the order is a job whose needs all come earlier in it. */
  predicate Topological(graph: Graph, order: seq<string>)
  {
    forall i :: 0 <= i < |order| ==>
      order[i] in graph && forall need :: need in graph[order[i]] ==> need in order[..i]
  }

  ghost predicate Orderable(graph: Graph)
  {
    exists order :: Topological(graph, order) && forall name :: name in graph ==> name in order
  }

  function FirstIndex(order: seq<string>, name: string): (i: nat)
    requires name in order
    ensures i < |order| && order[i] == name && forall k :: 0 <= k < i ==> order[k] != name
  {
    if order[0] == name then 0
    else
      assert order == [order[0]] + order[1..];
      1 + FirstIndex(order[1..], name)
  }

  /** In a topological order a need comes strictly before the job that needs it. */
  lemma {:induction false} NeedComesFirst(graph: Graph, order: seq<string>, name: string, need: string)
    requires Topological(graph, order) && name in order && name in graph && need in graph[name]
    ensures need in order && FirstIndex(order, need) < FirstIndex(order, name)
  {
    var i := FirstIndex(order, name);
    assert need in order[..i];
    var k :| 0 <= k < i && order[..i][k] == need;
    assert order[k] == need;
  }

  lemma {:induction false} PathDescends(graph: Graph, order: seq<string>, path: seq<string>, n: nat)
    requires Topological(graph, order) && IsPath(graph, path) && n < |path| && path[0] in order
    ensures path[n] in order
    ensures FirstIndex(order, path[n]) + n <= FirstIndex(order, path[0])
  {
    if n > 0 {
      PathDescends(graph, order, path, n - 1);
      NeedComesFirst(graph, order, path[n - 1], path[n]);
    }
  }

  /** A graph with a topological order of all its jobs has no cycle. */
  lemma {:induction false} OrderedIsAcyclic(graph: Graph, order: seq<string>)
    requires Topological(graph, order) && forall name :: name in graph ==> name in order
    ensures Acyclic(graph)
  {
    forall path ensures !IsCycle(graph, path) {
      if IsCycle(graph, path) {
        PathDescends(graph, order, path, |path| - 1);
        assert false;
      }
    }
  }

  /** The search state: 1 marks a job on the stack, 2 a finished one. */
  class Search {
    const graph: Graph
    var states: map<string, int>
    var stack: seq<string>
    ghost var order: seq<string>

    ghost predicate Valid()
      reads this
    {
      && Closed(graph)
      && (forall name :: name in states ==> name in graph && (states[name] == 1 || states[name] == 2))
      && (forall name :: name in stack <==> name in states && states[name] == 1)
      && (forall name :: name in order <==> name in states && states[name] == 2)
      && IsPath(graph, stack)
      && Topological(graph, order)
    }

    constructor (graph: Graph)
      requires Closed(graph)
      ensures Valid() && this.graph == graph && states == map[] && stack == []
    {
      this.graph, states, stack, order := graph, map[], [], [];
    }

    /** Visits a job and all it needs, or finds a cycle through the stack. */
    method Visit(name: string) returns (cycle: seq<string>)
      requires Valid() && name in graph
      requires stack != [] ==> name in graph[stack[|stack| - 1]]
      modifies this
      ensures cycle != [] ==> IsCycle(graph, cycle)
      ensures cycle == [] ==> Valid() && stack == old(stack) && name in order && old(order) <= order
      ensures states.Keys >= old(states.Keys)
      decreases graph.Keys - states.Keys
    {
      if name in states && states[name] == 2 {
        return [];
      }
      if name in states && states[name] == 1 {
        var start := FirstIndex(stack, name);
        cycle := stack[start..] + [name];
        CloseCycle(graph, stack, start, name);
        return;
      }
      Enter(name);
      for i := 0 to |graph[name]|
        invariant Valid() && stack == old(stack) + [name] && old(order) <= order
        invariant states.Keys >= old(states.Keys) + {name}
        invariant forall k :: 0 <= k < i ==> graph[name][k] in order
      {
        assert stack[|stack| - 1] == name;
        cycle := Visit(graph[name][i]);
        if cycle != [] {
          return;
        }
      }
      Finish(name);
      return [];
    }

    method Enter(name: string)
      requires Valid() && name in graph && name !in states
      requires stack != [] ==> name in graph[stack[|stack| - 1]]
      modifies this`states, this`stack
      ensures Valid() && stack == old(stack) + [name] && states.Keys == old(states.Keys) + {name}
    {
      states := states[name := 1];
      stack := stack + [name];
    }

    method Finish(name: string)
      requires Valid() && stack != [] && stack[|stack| - 1] == name && name !in stack[..|stack| - 1]
      requires forall need :: need in graph[name] ==> need in order
      modifies this
      ensures Valid() && stack == old(stack)[..|old(stack)| - 1]
      ensures order == old(order) + [name] && states.Keys == old(states.Keys)
    {
      stack := stack[..|stack| - 1];
      states := states[name := 2];
      order := order + [name];
      assert forall i :: 0 <= i < |order| - 1 ==> order[..i] == old(order)[..i];
      assert order[..|order| - 1] == old(order);
    }
  }

  lemma {:induction false} CloseCycle(graph: Graph, stack: seq<string>, start: nat, name: string)
    requires IsPath(graph, stack) && start < |stack| && stack[start] == name
    requires name in graph[stack[|stack| - 1]]
    ensures IsCycle(graph, stack[start..] + [name])
  {
  }

  datatype Verdict = Accepted | TooManyJobs | BadJob(job: string) | BadNeed(job: string) | Cycle(path: seq<string>)

  /** The checks before the search: no job needs itself, a missing job, or one job twice. */
  predicate NeedsListed(graph: Graph, name: string)
    requires name in graph
  {
    var needs := graph[name];
    && (forall i :: 0 <= i < |needs| ==> needs[i] != name && needs[i] in graph)
    && (forall i, j :: 0 <= i < j < |needs| ==> needs[i] != needs[j])
  }

  method CheckNeeds(graph: Graph, name: string) returns (ok: bool)
    requires name in graph
    ensures ok <==> NeedsListed(graph, name)
  {
    var needs := graph[name];
    var seen: set<string> := {};
    for i := 0 to |needs|
      invariant seen == set k | 0 <= k < i :: needs[k]
      invariant forall k :: 0 <= k < i ==> needs[k] != name && needs[k] in graph
      invariant forall k, l :: 0 <= k < l < i ==> needs[k] != needs[l]
    {
      if needs[i] == name || needs[i] !in graph || needs[i] in seen {
        return false;
      }
      seen := seen + {needs[i]};
    }
    ok := true;
  }

  /** A configuration is accepted exactly when it is small enough, its jobs are proper by themselves,
      it lists its needs properly and has no dependency cycle; a rejected cycle is a real one, and an
      accepted configuration has an order in which every job follows what it needs. `proper` are the
      jobs whose name and own settings are valid. */
  method Validate(graph: Graph, proper: set<string>) returns (verdict: Verdict, ghost order: seq<string>)
    ensures verdict.Accepted? <==>
      && |graph| <= MAXIMUM_JOBS && graph.Keys <= proper
      && (forall name :: name in graph ==> NeedsListed(graph, name)) && Acyclic(graph)
    ensures verdict.BadJob? ==> verdict.job in graph && verdict.job !in proper
    ensures verdict.Cycle? ==> IsCycle(graph, verdict.path)
    ensures verdict.BadNeed? ==> verdict.job in graph && !NeedsListed(graph, verdict.job)
    ensures verdict.TooManyJobs? <==> |graph| > MAXIMUM_JOBS
    ensures verdict.Accepted? ==> Topological(graph, order) && forall name :: name in order <==> name in graph
  {
    order := [];
    if |graph| > MAXIMUM_JOBS {
      return TooManyJobs, [];
    }
    var names := graph.Keys;
    while names != {}
      invariant names <= graph.Keys
      invariant forall name :: name in graph && name !in names ==> name in proper && NeedsListed(graph, name)
    {
      var name :| name in names;
      if name !in proper {
        return BadJob(name), [];
      }
      var ok := CheckNeeds(graph, name);
      if !ok {
        return BadNeed(name), [];
      }
      names := names - {name};
    }
    var search := new Search(graph);
    names := graph.Keys;
    while names != {}
      invariant names <= graph.Keys
      invariant search.Valid() && search.graph == graph && search.stack == []
      invariant forall name :: name in graph && name !in names ==> name in search.order
    {
      var name :| name in names;
      var cycle := search.Visit(name);
      if cycle != [] {
        return Cycle(cycle), [];
      }
      names := names - {name};
    }
    order := search.order;
    OrderedIsAcyclic(graph, order);
    verdict := Accepted;
  }
}
