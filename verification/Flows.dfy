/**
  Flow configurations (types/flows.go) and what a flow means: the reference evaluation that reads no cache.
 */
module Flows {
  import opened CacheTypes

  /** A number is the text that denotes it. */
  datatype Json =
    | Null
    | Bool(b: bool)
    | Number(literal: string)
    | Text(text: string)
    | Array(items: seq<Json>)
    | Object(fields: map<string, Json>)

  type Args = map<string, Json>
  type Body = string

  datatype FlowChild = FlowChild(argsMap: map<string, string>, target: string)

  /** The URL is present exactly for third-party flows. */
  datatype Flow = Flow(children: map<string, FlowChild>, caching: bool, thirdPartyURL: Option<string>)

  datatype FlowOutput = FlowOutput(data: Body, target: string)

  datatype FlowInput = FlowInput(args: Args, children: map<string, FlowOutput>)

  /** Connections the shared client opens to one host. */
  const MAX_CONNS_PER_HOST: nat := 100

  /**
    Configuration, deployed functions and third parties, the hash of a JSON object, and the number of connections
    that calls of internal children share: MAX_CONNS_PER_HOST, though nothing below depends on that number.
   */
  datatype Deployment = Deployment(
    flows: map<string, Flow>, enableCaching: bool, connections: nat,
    invoke: (string, FlowInput) -> Body, thirdParty: (string, Args) -> Body, hash: Args -> string)

  const NAME_FIELD := "openfaas_flow_function_name"
  const UNKNOWN_FLOW := "Can not find this kind of function in flows config\n"

  function Children(d: Deployment, f: string): map<string, FlowChild> {
    if f in d.flows then d.flows[f].children else map[]
  }

  predicate Caches(d: Deployment, f: string) {
    d.enableCaching && f in d.flows && d.flows[f].caching
  }

  predicate External(d: Deployment, f: string) {
    f in d.flows && d.flows[f].thirdPartyURL.Some?
  }

  /** The arguments a child is called with; a field the parent does not have becomes null. */
  function Mapped(argsMap: map<string, string>, args: Args): Args {
    map field | field in argsMap :: if argsMap[field] in args then args[argsMap[field]] else Null
  }

  /** The request a child is due: exactly the fields of the map, each with its parent's field, or null. */
  ghost predicate Delivers(argsMap: map<string, string>, parent: Args, args: Args) {
    && args.Keys == argsMap.Keys
    && forall field | field in argsMap ::
         && (argsMap[field] in parent ==> args[field] == parent[argsMap[field]])
         && (argsMap[field] !in parent ==> args[field] == Null)
  }

  lemma MappedDelivers(argsMap: map<string, string>, parent: Args, args: Args)
    ensures Delivers(argsMap, parent, args) <==> args == Mapped(argsMap, parent)
  {
  }

  /** Only the parent's fields that the map names matter. */
  lemma MappedAgree(argsMap: map<string, string>, a: Args, b: Args)
    requires forall source | source in argsMap.Values ::
               (source in a <==> source in b) && (source in a ==> a[source] == b[source])
    ensures Mapped(argsMap, a) == Mapped(argsMap, b)
  {
    forall field | field in argsMap
      ensures Mapped(argsMap, a)[field] == Mapped(argsMap, b)[field]
    {
      assert argsMap[field] in argsMap.Values;
    }
  }

  /** Renaming the parent's fields, in the request and in the map alike, changes nothing for the child. */
  lemma MappedRename(argsMap: map<string, string>, a: Args, b: Args, rename: string -> string)
    requires forall source :: (source in a <==> rename(source) in b) && (source in a ==> a[source] == b[rename(source)])
    ensures Mapped(map field | field in argsMap :: rename(argsMap[field]), b) == Mapped(argsMap, a)
  {
    var renamed := map field | field in argsMap :: rename(argsMap[field]);
    forall field | field in argsMap
      ensures Mapped(renamed, b)[field] == Mapped(argsMap, a)[field]
    {
      assert argsMap[field] in a <==> renamed[field] in b;
    }
  }

  /** The arguments a flow works on: for a cached flow the shared object also holds the flow's name. */
  function Effective(d: Deployment, f: string, args: Args): Args {
    if Caches(d, f) then args[NAME_FIELD := Text(f)] else args
  }

  function Key(d: Deployment, f: string, args: Args): string {
    d.hash(args[NAME_FIELD := Text(f)])
  }

  /** Different JSON objects have different hashes. */
  ghost predicate InjectiveHash(d: Deployment) {
    forall a, b :: d.hash(a) == d.hash(b) ==> a == b
  }

  /** What is written to the caller once the children have answered; an unknown name is reported but still invoked. */
  function Answer(d: Deployment, f: string, input: FlowInput): Body {
    (if f in d.flows then "" else UNKNOWN_FLOW) + d.invoke(f, input)
  }

  // ----- the graph of internal calls -----

  ghost predicate Calls(d: Deployment, f: string, g: string) {
    !External(d, g) && exists alias :: alias in Children(d, f) && Children(d, f)[alias].target == g
  }

  ghost predicate Path(d: Deployment, p: seq<string>) {
    |p| >= 2 && forall i | 0 <= i < |p| - 1 :: Calls(d, p[i], p[i + 1])
  }

  ghost predicate Reaches(d: Deployment, f: string, g: string) {
    exists p :: Path(d, p) && p[0] == f && p[|p| - 1] == g
  }

  /** No flow that f leads to, nor f itself, leads back to itself. */
  ghost predicate Acyclic(d: Deployment, f: string) {
    !Reaches(d, f, f) && forall g | Reaches(d, f, g) :: !Reaches(d, g, g)
  }

  lemma CallReaches(d: Deployment, f: string, g: string)
    requires Calls(d, f, g)
    ensures Reaches(d, f, g)
  {
    assert Path(d, [f, g]);
  }

  lemma ReachesTransitive(d: Deployment, f: string, g: string, h: string)
    requires Reaches(d, f, g) && Reaches(d, g, h)
    ensures Reaches(d, f, h)
  {
    var p :| Path(d, p) && p[0] == f && p[|p| - 1] == g;
    var q :| Path(d, q) && q[0] == g && q[|q| - 1] == h;
    var r := p + q[1..];
    forall i | 0 <= i < |r| - 1
      ensures Calls(d, r[i], r[i + 1])
    {
      if i < |p| - 1 {
        assert Calls(d, p[i], p[i + 1]);
      } else {
        assert Calls(d, q[i - |p| + 1], q[i - |p| + 2]);
      }
    }
    assert Path(d, r);
  }

  lemma FirstCall(d: Deployment, f: string, g: string) returns (h: string)
    requires Reaches(d, f, g)
    ensures Calls(d, f, h) && (h == g || Reaches(d, h, g))
  {
    var p :| Path(d, p) && p[0] == f && p[|p| - 1] == g;
    h := p[1];
    assert Calls(d, p[0], p[1]);
    if |p| > 2 {
      var rest := p[1..];
      forall i | 0 <= i < |rest| - 1
        ensures Calls(d, rest[i], rest[i + 1])
      {
        assert Calls(d, p[i + 1], p[i + 2]);
      }
      assert Path(d, rest);
    }
  }

  /** A flow is free of cycles exactly when all the flows it calls are. */
  lemma AcyclicChildren(d: Deployment, f: string)
    ensures Acyclic(d, f) <==> forall g | Calls(d, f, g) :: Acyclic(d, g)
  {
    if Acyclic(d, f) {
      forall g | Calls(d, f, g)
        ensures Acyclic(d, g)
      {
        CallReaches(d, f, g);
        forall h | Reaches(d, g, h)
          ensures !Reaches(d, h, h)
        {
          ReachesTransitive(d, f, g, h);
        }
      }
    } else {
      var c := if Reaches(d, f, f) then f else var g :| Reaches(d, f, g) && Reaches(d, g, g); g;
      var h := FirstCall(d, f, c);
      assert !Acyclic(d, h);
    }
  }

  ghost function Targets(d: Deployment): set<string> {
    set f, alias | f in d.flows && alias in d.flows[f].children :: d.flows[f].children[alias].target
  }

  ghost function Reachable(d: Deployment, f: string): set<string> {
    set g | g in Targets(d) && Reaches(d, f, g)
  }

  lemma ReachesTarget(d: Deployment, f: string, g: string)
    requires Reaches(d, f, g)
    ensures g in Reachable(d, f)
  {
    var p :| Path(d, p) && p[0] == f && p[|p| - 1] == g;
    assert Calls(d, p[|p| - 2], p[|p| - 1]);
  }

  /** A call to a flow outside every cycle leaves fewer flows reachable. */
  lemma CallDescends(d: Deployment, f: string, g: string)
    requires Calls(d, f, g) && !Reaches(d, g, g)
    ensures Reachable(d, g) < Reachable(d, f)
  {
    CallReaches(d, f, g);
    ReachesTarget(d, f, g);
    forall h | h in Reachable(d, g)
      ensures h in Reachable(d, f)
    {
      ReachesTransitive(d, f, g, h);
    }
  }

  lemma ChildOfAcyclic(d: Deployment, f: string, alias: string)
    requires Acyclic(d, f) && alias in Children(d, f) && !External(d, Children(d, f)[alias].target)
    ensures var g := Children(d, f)[alias].target;
            Calls(d, f, g) && Acyclic(d, g) && Reachable(d, g) < Reachable(d, f)
  {
    var g := Children(d, f)[alias].target;
    assert Calls(d, f, g);
    AcyclicChildren(d, f);
    CallDescends(d, f, g);
  }

  // ----- how deep calls nest -----

  /** Below f, k internal calls can be under way at once, one inside the other. */
  ghost predicate Nests(d: Deployment, f: string, k: nat)
    decreases k
  {
    k == 0 || exists g :: Calls(d, f, g) && Nests(d, g, k - 1)
  }

  lemma {:induction false} NestsLess(d: Deployment, f: string, k: nat, j: nat)
    requires Nests(d, f, k) && j <= k
    ensures Nests(d, f, j)
    decreases k
  {
    if j > 0 {
      var g :| Calls(d, f, g) && Nests(d, g, k - 1);
      NestsLess(d, g, k - 1, j - 1);
    }
  }

  /** A flow that leads to a cycle nests calls without end; any other at most as deep as the flows it can reach. */
  lemma {:induction false} CyclesNest(d: Deployment, f: string, k: nat)
    requires !Acyclic(d, f)
    ensures Nests(d, f, k)
    decreases k
  {
    if k > 0 {
      AcyclicChildren(d, f);
      var g :| Calls(d, f, g) && !Acyclic(d, g);
      CyclesNest(d, g, k - 1);
    }
  }

  lemma {:induction false} AcyclicNests(d: Deployment, f: string, k: nat)
    requires Acyclic(d, f) && Nests(d, f, k)
    ensures k <= |Reachable(d, f)|
    decreases k
  {
    if k > 0 {
      var g :| Calls(d, f, g) && Nests(d, g, k - 1);
      AcyclicChildren(d, f);
      CallDescends(d, f, g);
      SmallerSet(Reachable(d, g), Reachable(d, f));
      AcyclicNests(d, g, k - 1);
    }
  }

  lemma SmallerSet<T>(a: set<T>, b: set<T>)
    requires a < b
    ensures |a| < |b|
  {
    assert |b - a| > 0 && |b| == |a| + |b - a| by {
      assert b == a + (b - a);
    }
  }

  // ----- reference evaluation -----

  ghost function Eval(d: Deployment, f: string, args: Args): Body
    requires Acyclic(d, f)
    decreases Reachable(d, f), 1
  {
    var e := Effective(d, f, args);
    Answer(d, f, FlowInput(e, map alias | alias in Children(d, f) :: ChildOutput(d, f, alias, e)))
  }

  ghost function ChildOutput(d: Deployment, f: string, alias: string, e: Args): FlowOutput
    requires Acyclic(d, f) && alias in Children(d, f)
    decreases Reachable(d, f), 0
  {
    var child := Children(d, f)[alias];
    var args := Mapped(child.argsMap, e);
    if External(d, child.target) then
        FlowOutput(d.thirdParty(d.flows[child.target].thirdPartyURL.value, args), child.target)
    else
      ChildOfAcyclic(d, f, alias);
      FlowOutput(Eval(d, child.target, args), child.target)
  }

  /** A body is right for a request when the flow has no cycles and the reference evaluation gives that body. */
  ghost predicate Right(d: Deployment, f: string, args: Args, body: Body) {
    Acyclic(d, f) && body == Eval(d, f, args)
  }

  ghost predicate OutputRight(d: Deployment, f: string, alias: string, e: Args, output: FlowOutput)
    requires alias in Children(d, f)
  {
    var child := Children(d, f)[alias];
    var args := Mapped(child.argsMap, e);
    && output.target == child.target
    && if External(d, child.target) then output.data == d.thirdParty(d.flows[child.target].thirdPartyURL.value, args)
       else Right(d, child.target, args, output.data)
  }

  /** Right outputs of all children, in whatever order they came, make a right answer. */
  lemma AnswerRight(d: Deployment, f: string, args: Args, outputs: map<string, FlowOutput>)
    requires outputs.Keys == Children(d, f).Keys
    requires forall alias | alias in outputs :: OutputRight(d, f, alias, Effective(d, f, args), outputs[alias])
    ensures Right(d, f, args, Answer(d, f, FlowInput(Effective(d, f, args), outputs)))
  {
    var e := Effective(d, f, args);
    forall g | Calls(d, f, g)
      ensures Acyclic(d, g)
    {
      var alias :| alias in Children(d, f) && Children(d, f)[alias].target == g;
      assert OutputRight(d, f, alias, e, outputs[alias]);
    }
    AcyclicChildren(d, f);
    forall alias | alias in outputs
      ensures outputs[alias] == ChildOutput(d, f, alias, e)
    {
      assert OutputRight(d, f, alias, e, outputs[alias]);
    }
    assert outputs == map alias | alias in Children(d, f) :: ChildOutput(d, f, alias, e);
  }

  /** The output of a child is what its target answers to the request the child is due. */
  ghost predicate OutputMeans(d: Deployment, child: FlowChild, parent: Args, output: FlowOutput) {
    && output.target == child.target
    && forall args | Delivers(child.argsMap, parent, args) ::
         if child.target in d.flows && d.flows[child.target].thirdPartyURL.Some?
         then output.data == d.thirdParty(d.flows[child.target].thirdPartyURL.value, args)
         else Acyclic(d, child.target) && output.data == Eval(d, child.target, args)
  }

  lemma OutputIsRight(d: Deployment, f: string, alias: string, e: Args, output: FlowOutput)
    requires alias in Children(d, f)
    ensures OutputMeans(d, Children(d, f)[alias], e, output) <==> OutputRight(d, f, alias, e, output)
  {
    hide Acyclic, Eval, Mapped, Delivers;
    var child := Children(d, f)[alias];
    forall args
      ensures Delivers(child.argsMap, e, args) <==> args == Mapped(child.argsMap, e)
    {
      MappedDelivers(child.argsMap, e, args);
    }
    assert Delivers(child.argsMap, e, Mapped(child.argsMap, e));
  }

  /**
    What a flow answers, in terms of its configuration alone: the deployed function of its own name, called on the
    arguments, which for a caching flow under a caching provider also hold that name, and on what each child's target
    answers to the request the child is due. An unknown name is reported and has no children.
   */
  lemma EvalMeans(d: Deployment, f: string, args: Args, e: Args, outputs: map<string, FlowOutput>)
    requires e == if d.enableCaching && f in d.flows && d.flows[f].caching
                  then args["openfaas_flow_function_name" := Text(f)] else args
    requires outputs.Keys == if f in d.flows then d.flows[f].children.Keys else {}
    requires forall alias | alias in outputs :: OutputMeans(d, d.flows[f].children[alias], e, outputs[alias])
    ensures Acyclic(d, f)
    ensures f in d.flows ==> Eval(d, f, args) == d.invoke(f, FlowInput(e, outputs))
    ensures f !in d.flows ==>
              Eval(d, f, args) == "Can not find this kind of function in flows config\n"
                  + d.invoke(f, FlowInput(e, outputs))
  {
    forall alias | alias in outputs
      ensures OutputRight(d, f, alias, e, outputs[alias])
    {
      OutputIsRight(d, f, alias, e, outputs[alias]);
    }
    hide Acyclic, Eval, OutputRight, OutputMeans;
    AnswerRight(d, f, args, outputs);
    assert "" + d.invoke(f, FlowInput(e, outputs)) == d.invoke(f, FlowInput(e, outputs));
  }

  /** A key tells the flow apart and everything the flow's evaluation depends on. */
  lemma KeyDetermines(d: Deployment, f: string, a: Args, g: string, b: Args)
    requires InjectiveHash(d) && Key(d, f, a) == Key(d, g, b)
    ensures f == g
    ensures Caches(d, f) ==> Effective(d, f, a) == Effective(d, f, b)
    ensures Caches(d, f) && Acyclic(d, f) ==> Eval(d, f, a) == Eval(d, f, b)
  {
    var x, y := a[NAME_FIELD := Text(f)], b[NAME_FIELD := Text(g)];
    assert d.hash(x) == d.hash(y);
    assert x[NAME_FIELD] == Text(f) && y[NAME_FIELD] == Text(g);
  }

  /** The key computed again after the shared object was extended is the key that was looked up. */
  lemma KeyStable(d: Deployment, f: string, args: Args)
    ensures Key(d, f, Effective(d, f, args)) == Key(d, f, args)
  {
    if Caches(d, f) {
      var e := args[NAME_FIELD := Text(f)];
      assert e[NAME_FIELD := Text(f)] == e;
    }
  }

  // ----- termination -----

  /** Evaluation by plain recursion that gives up below a given depth. */
  ghost function Bounded(d: Deployment, depth: nat, f: string, args: Args): Option<Body>
    decreases depth, 1
  {
    if depth == 0 then None
    else
      var e := Effective(d, f, args);
      var outputs := map alias | alias in Children(d, f) :: BoundedChild(d, depth, f, alias, e);
      if exists alias | alias in outputs :: outputs[alias].None? then None
      else Some(Answer(d, f, FlowInput(e, map alias | alias in outputs :: outputs[alias].value)))
  }

  ghost function BoundedChild(d: Deployment, depth: nat, f: string, alias: string, e: Args): Option<FlowOutput>
    requires depth > 0 && alias in Children(d, f)
    decreases depth, 0
  {
    var child := Children(d, f)[alias];
    var args := Mapped(child.argsMap, e);
    if External(d, child.target) then
      Some(FlowOutput(d.thirdParty(d.flows[child.target].thirdPartyURL.value, args), child.target))
    else
      var body := Bounded(d, depth - 1, child.target, args);
      if body.None? then None else Some(FlowOutput(body.value, child.target))
  }

  /** Whatever plain recursion returns is right; in particular it returns nothing for a flow that leads to a cycle. */
  lemma {:induction false} BoundedRight(d: Deployment, depth: nat, f: string, args: Args)
    requires Bounded(d, depth, f, args).Some?
    ensures Right(d, f, args, Bounded(d, depth, f, args).value)
    decreases depth
  {
    hide Right, Mapped, Effective, Answer;
    var e := Effective(d, f, args);
    var outputs := map alias | alias in Children(d, f) :: BoundedChild(d, depth, f, alias, e);
    var values := map alias | alias in outputs :: outputs[alias].value;
    forall alias | alias in values
      ensures OutputRight(d, f, alias, e, values[alias])
    {
      var child := Children(d, f)[alias];
      assert outputs[alias].Some?;
      if !External(d, child.target) {
        BoundedRight(d, depth - 1, child.target, Mapped(child.argsMap, e));
      }
    }
    AnswerRight(d, f, args, values);
  }

  /** Without cycles the recursion is no deeper than the number of flows reachable. */
  lemma {:induction false} BoundedEnough(d: Deployment, depth: nat, f: string, args: Args)
    requires Acyclic(d, f) && depth > |Reachable(d, f)|
    ensures Bounded(d, depth, f, args).Some?
    decreases depth
  {
    hide Acyclic, Reachable, Mapped, Effective, Answer;
    var e := Effective(d, f, args);
    var outputs := map alias | alias in Children(d, f) :: BoundedChild(d, depth, f, alias, e);
    forall alias | alias in outputs
      ensures outputs[alias].Some?
    {
      var child := Children(d, f)[alias];
      if !External(d, child.target) {
        ChildOfAcyclic(d, f, alias);
        SmallerSet(Reachable(d, child.target), Reachable(d, f));
        BoundedEnough(d, depth - 1, child.target, Mapped(child.argsMap, e));
      }
    }
  }

  lemma NestsChild(d: Deployment, f: string, k: nat)
    requires k > 0
    ensures Nests(d, f, k) <==>
              exists alias :: alias in Children(d, f) && !External(d, Children(d, f)[alias].target)
                              && Nests(d, Children(d, f)[alias].target, k - 1)
  {
    if Nests(d, f, k) {
      var g :| Calls(d, f, g) && Nests(d, g, k - 1);
    }
    if alias :| alias in Children(d, f) && !External(d, Children(d, f)[alias].target)
                && Nests(d, Children(d, f)[alias].target, k - 1) {
      assert Calls(d, f, Children(d, f)[alias].target);
    }
  }

  lemma {:induction false} BoundedChildExactly(d: Deployment, depth: nat, f: string, alias: string, e: Args)
    requires depth > 0 && alias in Children(d, f)
    ensures BoundedChild(d, depth, f, alias, e).None? <==>
              !External(d, Children(d, f)[alias].target) && Nests(d, Children(d, f)[alias].target, depth - 1)
    decreases depth, 0
  {
    hide Nests, Mapped, Bounded;
    var child := Children(d, f)[alias];
    if !External(d, child.target) {
      BoundedExactly(d, depth - 1, child.target, Mapped(child.argsMap, e));
    }
  }

  /** Recursion of a given depth is enough exactly for flows whose calls do not nest that deep. */
  lemma {:induction false} BoundedExactly(d: Deployment, depth: nat, f: string, args: Args)
    ensures Bounded(d, depth, f, args).Some? <==> !Nests(d, f, depth)
    decreases depth, 1
  {
    if depth > 0 {
      hide Nests, Mapped, BoundedChild, Effective, Answer;
      var e := Effective(d, f, args);
      forall alias | alias in Children(d, f)
        ensures BoundedChild(d, depth, f, alias, e).None? <==>
                  !External(d, Children(d, f)[alias].target) && Nests(d, Children(d, f)[alias].target, depth - 1)
      {
        BoundedChildExactly(d, depth, f, alias, e);
      }
      NestsChild(d, f, depth);
      var outputs := map alias | alias in Children(d, f) :: BoundedChild(d, depth, f, alias, e);
      if Nests(d, f, depth) {
        var alias :| alias in Children(d, f) && !External(d, Children(d, f)[alias].target)
                     && Nests(d, Children(d, f)[alias].target, depth - 1);
        assert BoundedChild(d, depth, f, alias, e).None?;
        assert outputs[alias].None?;
      }
      if alias :| alias in outputs && outputs[alias].None? {
        assert BoundedChild(d, depth, f, alias, e).None?;
      }
    }
  }

  /**
    A flow's evaluation by plain recursion ends for every request exactly when the flow leads to no cycle; it then
    needs a depth of at most one more than the number of flows reachable, and its result is the reference one. A
    recursion that holds one connection for each call under way ends exactly when the calls do not nest deeper than
    there are connections.
   */
  lemma {:induction false} TerminatesExactly(d: Deployment, f: string, args: Args)
    ensures Acyclic(d, f) <==> exists depth :: Bounded(d, depth, f, args).Some?
    ensures Acyclic(d, f) ==> Bounded(d, |Reachable(d, f)| + 1, f, args) == Some(Eval(d, f, args))
    ensures !Nests(d, f, d.connections + 1) <==> Bounded(d, d.connections + 1, f, args).Some?
    ensures !Nests(d, f, d.connections + 1) ==> Right(d, f, args, Bounded(d, d.connections + 1, f, args).value)
  {
    hide Bounded, Nests, Acyclic, Reachable, Eval;
    BoundedExactly(d, d.connections + 1, f, args);
    if Acyclic(d, f) {
      BoundedEnough(d, |Reachable(d, f)| + 1, f, args);
      BoundedRight(d, |Reachable(d, f)| + 1, f, args);
    } else if depth :| Bounded(d, depth, f, args).Some? {
      BoundedRight(d, depth, f, args);
    }
    if !Nests(d, f, d.connections + 1) {
      BoundedRight(d, d.connections + 1, f, args);
    }
  }

  // ----- the shared argument object -----

  /** No function of the evaluation is handed a field it was not sent: where the cache adds one, it is there already. */
  ghost predicate Unseen(d: Deployment, f: string, args: Args)
    requires Acyclic(d, f)
    decreases Reachable(d, f), 1
  {
    && (Caches(d, f) ==> NAME_FIELD in args && args[NAME_FIELD] == Text(f))
    && forall alias | alias in Children(d, f) :: ChildUnseen(d, f, alias, args)
  }

  ghost predicate ChildUnseen(d: Deployment, f: string, alias: string, args: Args)
    requires Acyclic(d, f) && alias in Children(d, f)
    decreases Reachable(d, f), 0
  {
    var child := Children(d, f)[alias];
    External(d, child.target) ||
    (ChildOfAcyclic(d, f, alias);
     Unseen(d, child.target, Mapped(child.argsMap, args)))
  }

  /** Every function shows all of its input in its answer. */
  ghost predicate InjectiveInvoke(d: Deployment) {
    forall f, x, y :: d.invoke(f, x) == d.invoke(f, y) ==> x == y
  }

  function Uncached(d: Deployment): Deployment {
    d.(enableCaching := false)
  }

  /** The cache changes no call, so it closes no cycle. */
  lemma SameGraph(d: Deployment, f: string)
    ensures Acyclic(Uncached(d), f) <==> Acyclic(d, f)
  {
    var u := Uncached(d);
    forall g, h
      ensures Calls(u, g, h) <==> Calls(d, g, h)
    {
      assert Children(u, g) == Children(d, g);
    }
    forall p
      ensures Path(u, p) <==> Path(d, p)
    {
    }
    forall g, h
      ensures Reaches(u, g, h) <==> Reaches(d, g, h)
    {
    }
  }

  /** The function sees the request's own arguments exactly when the flow is not cached or they already name it. */
  lemma SeesRequest(d: Deployment, f: string, args: Args)
    ensures Effective(d, f, args) == args <==> (Caches(d, f) ==> NAME_FIELD in args && args[NAME_FIELD] == Text(f))
  {
    if Caches(d, f) && NAME_FIELD in args && args[NAME_FIELD] == Text(f) {
      assert args[NAME_FIELD := Text(f)] == args;
    }
  }

  ghost function Outputs(d: Deployment, f: string, e: Args): map<string, FlowOutput>
    requires Acyclic(d, f)
  {
    map alias | alias in Children(d, f) :: ChildOutput(d, f, alias, e)
  }

  lemma AnswerInjective(d: Deployment, f: string, x: FlowInput, y: FlowInput)
    requires InjectiveInvoke(d) && Answer(d, f, x) == Answer(d, f, y)
    ensures x == y
  {
    var prefix := if f in d.flows then "" else UNKNOWN_FLOW;
    assert (prefix + d.invoke(f, x))[|prefix|..] == d.invoke(f, x);
    assert (prefix + d.invoke(f, y))[|prefix|..] == d.invoke(f, y);
  }

  /** One child's output with and without the cache. */
  lemma {:induction false} CachingOfChild(d: Deployment, f: string, alias: string, args: Args)
    requires Acyclic(d, f) && Acyclic(Uncached(d), f) && alias in Children(d, f)
    ensures ChildUnseen(d, f, alias, args) ==>
              ChildOutput(d, f, alias, args) == ChildOutput(Uncached(d), f, alias, args)
    ensures InjectiveInvoke(d) && !ChildUnseen(d, f, alias, args) ==>
              ChildOutput(d, f, alias, args) != ChildOutput(Uncached(d), f, alias, args)
    decreases Reachable(d, f), 0
  {
    var child := Children(d, f)[alias];
    if !External(d, child.target) {
      ChildOfAcyclic(d, f, alias);
      CachingIsVisible(d, child.target, Mapped(child.argsMap, args));
    }
  }

  /** The outputs of all children agree exactly where each child's do. */
  lemma {:induction false} CachingOfChildren(d: Deployment, f: string, args: Args)
    requires Acyclic(d, f) && Acyclic(Uncached(d), f)
    ensures (forall alias | alias in Children(d, f) :: ChildUnseen(d, f, alias, args)) ==>
              Outputs(d, f, args) == Outputs(Uncached(d), f, args)
    ensures InjectiveInvoke(d) && Outputs(d, f, args) == Outputs(Uncached(d), f, args) ==>
              forall alias | alias in Children(d, f) :: ChildUnseen(d, f, alias, args)
    decreases Reachable(d, f), 1
  {
    hide ChildUnseen, ChildOutput, InjectiveInvoke, Acyclic, Reachable;
    var u := Uncached(d);
    forall alias | alias in Children(d, f)
      ensures ChildUnseen(d, f, alias, args) ==> ChildOutput(d, f, alias, args) == ChildOutput(u, f, alias, args)
      ensures InjectiveInvoke(d) && !ChildUnseen(d, f, alias, args) ==>
                ChildOutput(d, f, alias, args) != ChildOutput(u, f, alias, args)
    {
      CachingOfChild(d, f, alias, args);
    }
    if InjectiveInvoke(d) && Outputs(d, f, args) == Outputs(u, f, args) {
      forall alias | alias in Children(d, f)
        ensures ChildUnseen(d, f, alias, args)
      {
        assert Outputs(d, f, args)[alias] == Outputs(u, f, args)[alias];
      }
    }
  }

  /**
    When the cache changes an answer. Switching it on leaves the answer as it is whenever no function of the
    evaluation is handed a field it was not sent; and when functions show their whole input, only then.
   */
  lemma {:induction false} CachingIsVisible(d: Deployment, f: string, args: Args)
    requires Acyclic(d, f)
    ensures Acyclic(Uncached(d), f)
    ensures Unseen(d, f, args) ==> Eval(d, f, args) == Eval(Uncached(d), f, args)
    ensures InjectiveInvoke(d) ==> (Unseen(d, f, args) <==> Eval(d, f, args) == Eval(Uncached(d), f, args))
    decreases Reachable(d, f), 2
  {
    hide ChildUnseen, ChildOutput, InjectiveInvoke, Acyclic, Reachable, Answer, Outputs;
    var u := Uncached(d);
    SameGraph(d, f);
    SeesRequest(d, f, args);
    CachingOfChildren(d, f, args);
    var e := Effective(d, f, args);
    var x, y := FlowInput(e, Outputs(d, f, e)), FlowInput(args, Outputs(u, f, args));
    EvalIsAnswer(d, f, args);
    EvalIsAnswer(u, f, args);
    if InjectiveInvoke(d) && Answer(d, f, x) == Answer(d, f, y) {
      AnswerInjective(d, f, x, y);
    }
    assert Answer(u, f, y) == Answer(d, f, y) by {
      AnswerUncached(d, f, y);
    }
  }

  lemma EvalIsAnswer(d: Deployment, f: string, args: Args)
    requires Acyclic(d, f)
    ensures Eval(d, f, args) == Answer(d, f, FlowInput(Effective(d, f, args), Outputs(d, f, Effective(d, f, args))))
  {
  }

  lemma AnswerUncached(d: Deployment, f: string, input: FlowInput)
    ensures Answer(Uncached(d), f, input) == Answer(d, f, input)
  {
  }

  /** A function that tells whether it was handed the added field. */
  function Observer(): (string, FlowInput) -> Body {
    (f: string, input: FlowInput) => if NAME_FIELD in input.args then "named" else ""
  }

  lemma LeafEval(d: Deployment, f: string, args: Args)
    requires Children(d, f) == map[]
    ensures Acyclic(d, f) && Eval(d, f, args) == Answer(d, f, FlowInput(Effective(d, f, args), map[]))
  {
    AnswerRight(d, f, args, map[]);
  }

  /** A function that only looks for the field tells the two apart on every request without it. */
  lemma ObserverSeesCaching(d: Deployment, f: string, args: Args)
    requires Caches(d, f) && Children(d, f) == map[] && NAME_FIELD !in args && d.invoke == Observer()
    ensures Acyclic(d, f) && Acyclic(Uncached(d), f) && Eval(d, f, args) != Eval(Uncached(d), f, args)
  {
    LeafEval(d, f, args);
    LeafEval(Uncached(d), f, args);
    hide Eval, Acyclic;
    assert d.invoke(f, FlowInput(Effective(d, f, args), map[])) == "named";
    assert d.invoke(f, FlowInput(args, map[])) == "";
  }
}
