/**
  Every flow request is answered: a bound on the steps that handlers can take, over all interleavings.
 */
module FlowTermination {
  import opened CacheTypes
  import opened Flows
  import opened FlowConnections
  import opened FlowMachine

  /** Steps a request for f can cause: look, invoke, store, and the steps of its children. */
  ghost function Work(d: Deployment, f: string): nat
    requires Acyclic(d, f)
    decreases Reachable(d, f), 2
  {
    3 + WorkOf(d, f, Children(d, f).Keys)
  }

  ghost function WorkOf(d: Deployment, f: string, aliases: set<string>): nat
    requires Acyclic(d, f) && aliases <= Children(d, f).Keys
    decreases Reachable(d, f), 1, aliases
  {
    if aliases == {} then 0
    else
      var alias :| alias in aliases;
      ChildWork(d, f, alias) + WorkOf(d, f, aliases - {alias})
  }

  ghost function ChildWork(d: Deployment, f: string, alias: string): nat
    requires Acyclic(d, f) && alias in Children(d, f)
    decreases Reachable(d, f), 0
  {
    var target := Children(d, f)[alias].target;
    if External(d, target) then 1
    else
      ChildOfAcyclic(d, f, alias);
      2 + Work(d, target)
  }

  lemma {:induction false} WorkRemove(d: Deployment, f: string, aliases: set<string>, alias: string)
    requires Acyclic(d, f) && aliases <= Children(d, f).Keys && alias in aliases
    ensures WorkOf(d, f, aliases) == ChildWork(d, f, alias) + WorkOf(d, f, aliases - {alias})
    decreases aliases
  {
    hide ChildWork, Acyclic, Children;
    var first :| first in aliases && WorkOf(d, f, aliases) == ChildWork(d, f, first) + WorkOf(d, f, aliases - {first});
    if first != alias {
      WorkRemove(d, f, aliases - {first}, alias);
      WorkRemove(d, f, aliases - {alias}, first);
      assert aliases - {first} - {alias} == aliases - {alias} - {first};
    }
  }

  /** Aliases whose child has not been called. */
  function Uncalled(d: Deployment, a: Activation): set<string> {
    Children(d, a.name).Keys - a.outputs.Keys - (if a.pending.Some? then {a.pending.value.alias} else {})
  }

  ghost function Remaining(d: Deployment, a: Activation): nat
    requires Acyclic(d, a.name)
  {
    var children := WorkOf(d, a.name, Uncalled(d, a)) + if a.pending.Some? then 1 else 0;
    match a.stage
    case Arrived => 3 + children
    case Gathering => 2 + children
    case Answered(_) => 1
    case Finished(_, _) => 0
  }

  ghost predicate AllAcyclic(d: Deployment, all: seq<Activation>) {
    forall id | 0 <= id < |all| :: Acyclic(d, all[id].name)
  }

  ghost function Total(d: Deployment, all: seq<Activation>): nat
    requires AllAcyclic(d, all)
  {
    if all == [] then 0 else Total(d, all[..|all| - 1]) + Remaining(d, all[|all| - 1])
  }

  lemma TotalAppend(d: Deployment, all: seq<Activation>, a: Activation)
    requires AllAcyclic(d, all) && Acyclic(d, a.name)
    ensures Total(d, all + [a]) == Total(d, all) + Remaining(d, a)
  {
    assert (all + [a])[..|all|] == all;
  }

  lemma {:induction false} TotalPut(d: Deployment, all: seq<Activation>, id: nat, a: Activation)
    requires AllAcyclic(d, all) && id < |all| && Acyclic(d, a.name)
    ensures Total(d, all[id := a]) + Remaining(d, all[id]) == Total(d, all) + Remaining(d, a)
  {
    hide Remaining, Acyclic;
    var after := all[id := a];
    var last := |all| - 1;
    if id == last {
      assert after[..last] == all[..last];
    } else {
      TotalPut(d, all[..last], id, a);
      assert after[..last] == all[..last][id := a];
    }
  }

  /** The work of a new request is what remains of it. */
  lemma NewRemaining(d: Deployment, name: string, request: Args, place: Place)
    requires Acyclic(d, name)
    ensures Remaining(d, New(name, request, place)) == Work(d, name)
  {
    assert Uncalled(d, New(name, request, place)) == Children(d, name).Keys;
  }

  lemma CallUsesWork(d: Deployment, n: Net, id: nat, alias: string)
    requires Enabled(d, n, Call(id, alias)) && AllAcyclic(d, n.activations)
    ensures var after := Apply(d, n, Call(id, alias)).activations;
            AllAcyclic(d, after) && Total(d, after) < Total(d, n.activations)
  {
    hide Acyclic, Mapped, Work, WorkOf, Total, Reachable;
    var a := n.activations[id];
    var target := Children(d, a.name)[alias].target;
    var b := Apply(d, n, Call(id, alias)).activations[id];
    WorkRemove(d, a.name, Uncalled(d, a), alias);
    assert Uncalled(d, b) == Uncalled(d, a) - {alias};
    TotalPut(d, n.activations, id, b);
    if !External(d, target) {
      ChildOfAcyclic(d, a.name, alias);
      var args := Mapped(Children(d, a.name)[alias].argsMap, a.args);
      NewRemaining(d, target, args, Inside(a, id));
      TotalAppend(d, n.activations[id := b], New(target, args, Inside(a, id)));
    }
  }

  lemma CollectUsesWork(d: Deployment, n: Net, id: nat)
    requires Enabled(d, n, Collect(id)) && AllAcyclic(d, n.activations)
    ensures var after := Apply(d, n, Collect(id)).activations;
            AllAcyclic(d, after) && Total(d, after) < Total(d, n.activations)
  {
    hide Acyclic, WorkOf, Total;
    var b := Apply(d, n, Collect(id)).activations[id];
    assert Uncalled(d, b) == Uncalled(d, n.activations[id]);
    TotalPut(d, n.activations, id, b);
  }

  lemma OwnStepUsesWork(d: Deployment, n: Net, step: Step)
    requires Enabled(d, n, step) && AllAcyclic(d, n.activations) && OwnStep(step)
    ensures var after := Apply(d, n, step).activations;
            AllAcyclic(d, after) && Total(d, after) < Total(d, n.activations)
  {
    hide Acyclic, Inv, WorkOf, Total;
    match step
    case Call(id, alias) => CallUsesWork(d, n, id, alias);
    case Look(id, _) => TotalPut(d, n.activations, id, Apply(d, n, step).activations[id]);
    case Collect(id) => CollectUsesWork(d, n, id);
    case Invoke(id) => TotalPut(d, n.activations, id, Apply(d, n, step).activations[id]);
    case Store(id, _) => TotalPut(d, n.activations, id, Apply(d, n, step).activations[id]);
  }

  /** The steps of handlers in a run, and the work its requests bring. */
  function OwnSteps(steps: seq<Step>): nat {
    if steps == [] then 0 else OwnSteps(steps[..|steps| - 1]) + if OwnStep(steps[|steps| - 1]) then 1 else 0
  }

  ghost predicate AcyclicRequests(d: Deployment, steps: seq<Step>) {
    forall i | 0 <= i < |steps| && steps[i].Arrive? :: Acyclic(d, steps[i].name)
  }

  ghost function Demand(d: Deployment, steps: seq<Step>): nat
    requires AcyclicRequests(d, steps)
  {
    if steps == [] then 0
    else
      var last := steps[|steps| - 1];
      Demand(d, steps[..|steps| - 1]) + if last.Arrive? then Work(d, last.name) else 0
  }

  lemma StepBalance(d: Deployment, n: Net, step: Step)
    requires Enabled(d, n, step) && AllAcyclic(d, n.activations)
    requires step.Arrive? ==> Acyclic(d, step.name)
    ensures var after := Apply(d, n, step).activations;
            && AllAcyclic(d, after)
            && Total(d, after) + (if OwnStep(step) then 1 else 0)
                 <= Total(d, n.activations) + (if step.Arrive? then Work(d, step.name) else 0)
  {
    hide Acyclic, Work, Remaining;
    if OwnStep(step) {
      OwnStepUsesWork(d, n, step);
    } else if step.Arrive? {
      var place := Place(|n.activations|, 0, |n.activations|);
      NewRemaining(d, step.name, step.request, place);
      TotalAppend(d, n.activations, New(step.name, step.request, place));
    }
  }

  lemma {:induction false} RunBalance(d: Deployment, n: Net, steps: seq<Step>)
    requires AllAcyclic(d, n.activations)
    requires Legal(d, n, steps) && AcyclicRequests(d, steps)
    ensures var after := After(d, n, steps).activations;
            AllAcyclic(d, after) && OwnSteps(steps) + Total(d, after) <= Total(d, n.activations) + Demand(d, steps)
  {
    hide Enabled, Apply, Acyclic, Total, Work;
    if steps == [] {
    } else {
      var front := steps[..|steps| - 1];
      RunBalance(d, n, front);
      StepBalance(d, After(d, n, front), steps[|steps| - 1]);
    }
  }

  /**
    Requests for flows without cycles are answered while connections last. In every run, whatever the interleaving
    and the cache's failures, handlers take at most as many steps as the requests demand; and as long as a request is
    unfinished some handler can take a step, if at most `most` requests are open, their calls nest at most h deep, and
    holding h - 1 connections for each leaves one free.
   */
  lemma {:induction false} RequestsAreAnswered(d: Deployment, cache: map<string, Body>, steps: seq<Step>, most: nat, h: nat)
    requires Legal(d, Net(cache, []), steps) && AcyclicRequests(d, steps)
    requires Loaded(d, After(d, Net(cache, []), steps).activations, most, h) && most * (h - 1) < d.connections
    ensures OwnSteps(steps) <= Demand(d, steps)
    ensures var n := After(d, Net(cache, []), steps);
            AllFinished(n) || exists step :: OwnStep(step) && Enabled(d, n, step)
  {
    hide Enabled, Apply, Loaded, Nests;
    var start := Net(cache, []);
    RunBalance(d, start, steps);
    RunsKeepTree(d, start, steps);
    NeverStuck(d, After(d, start, steps), most, h);
  }
}
