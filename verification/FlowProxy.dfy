/**
  The flow handler of proxy/proxy.go, with its shared argument object, its loop over the children and its cache.
 */
module FlowProxy {
  import opened CacheTypes
  import opened Flows
  import opened FlowMachine

  /** Every entry of the first cache is an entry of the second. */
  ghost predicate Within(a: map<string, Body>, b: map<string, Body>) {
    forall k | k in a :: k in b && a[k] == b[k]
  }

  /** The cache server. One that is not reliable may lose any entries and fail any call. */
  class CacheClient {
    const reliable: bool
    var entries: map<string, Body>

    constructor (reliable: bool)
      ensures this.reliable == reliable && entries == map[]
    {
      this.reliable := reliable;
      entries := map[];
    }

    method Decay()
      modifies this`entries
      ensures Within(entries, old(entries)) && (reliable ==> entries == old(entries))
    {
      if !reliable {
        var lost: set<string> := *;
        entries := entries - lost;
      }
    }

    method Get(key: string) returns (found: Option<Body>)
      modifies this`entries
      ensures Within(entries, old(entries)) && (reliable ==> entries == old(entries))
      ensures found.Some? ==> key in old(entries) && found.value == old(entries)[key]
      ensures reliable && key in old(entries) ==> found.Some?
    {
      Decay();
      var failed: bool := *;
      if key !in entries || (failed && !reliable) {
        return None;
      }
      return Some(entries[key]);
    }

    method SetEx(key: string, value: Body) returns (ok: bool)
      modifies this`entries
      ensures Within(entries, old(entries)) || Within(entries, old(entries)[key := value])
      ensures reliable ==> ok && entries == old(entries)[key := value]
    {
      Decay();
      var stored: bool := *;
      if stored || reliable {
        entries := entries[key := value];
      }
      ok := *;
      ok := ok || reliable;
    }
  }

  /** The HTTP client that all handlers share: its free connections to the provider itself. */
  class HttpClient {
    var free: nat

    constructor (connections: nat)
      ensures free == connections
    {
      free := connections;
    }
  }

  /** A decoded JSON object, shared by reference. */
  class JsonObject {
    var fields: Args

    constructor (fields: Args)
      ensures this.fields == fields
    {
      this.fields := fields;
    }
  }

  class Input {
    const args: JsonObject
    var children: map<string, FlowOutput>

    constructor (args: JsonObject)
      ensures this.args == args && children == map[]
    {
      this.args := args;
      children := map[];
    }
  }

  datatype Request = Request(name: string, args: Args)

  ghost predicate NoDuplicates(keys: seq<string>) {
    forall i, j | 0 <= i < j < |keys| :: keys[i] != keys[j]
  }

  /** A key of f or of a flow it leads to. */
  ghost predicate KeyBelow(d: Deployment, f: string, key: string) {
    exists g, args :: (g == f || Reaches(d, f, g)) && key == Key(d, g, args)
  }

  /** A key of a flow f leads to. */
  ghost predicate KeyStrictlyBelow(d: Deployment, f: string, key: string) {
    exists g, args :: Reaches(d, f, g) && key == Key(d, g, args)
  }

  /** With a cache that keeps everything: the invocations made are of keys that were not cached, each once, and now are. */
  ghost predicate Memoised(before: map<string, Body>, after: map<string, Body>, was: seq<string>, now: seq<string>) {
    && Within(before, after)
    && was <= now
    && NoDuplicates(now[|was|..])
    && (forall k :: k in now[|was|..] <==> k in after && k !in before)
  }

  /** New entries belong to flows below f or, unless strictly, to f; a reliable cache makes the invocations memoised. */
  ghost predicate Progressed(d: Deployment, f: string, strictly: bool, reliable: bool,
                             before: map<string, Body>, after: map<string, Body>, was: seq<string>, now: seq<string>)
  {
    && (reliable ==> Memoised(before, after, was, now))
    && forall k | k in after && k !in before :: if strictly then KeyStrictlyBelow(d, f, k) else KeyBelow(d, f, k)
  }

  lemma {:induction false} MemoisedTransitive(a: map<string, Body>, b: map<string, Body>, c: map<string, Body>,
                                              p: seq<string>, q: seq<string>, r: seq<string>)
    requires Memoised(a, b, p, q) && Memoised(b, c, q, r)
    ensures Memoised(a, c, p, r)
  {
    var x, y := q[|p|..], r[|q|..];
    assert r[|p|..] == x + y;
    forall i, j | 0 <= i < j < |x + y|
      ensures (x + y)[i] != (x + y)[j]
    {
      if i < |x| <= j {
        assert x[i] in x && y[j - |x|] in y;
      }
    }
    forall k
      ensures k in x + y <==> k in c && k !in a
    {
      assert k in x + y <==> k in x || k in y;
    }
  }

  /** One more invocation, of a key that is not cached yet and is stored now. */
  lemma MemoisedOnce(a: map<string, Body>, b: map<string, Body>, p: seq<string>, q: seq<string>, key: string, body: Body)
    requires Memoised(a, b, p, q) && key !in b
    ensures Memoised(a, b[key := body], p, q + [key])
  {
    var now := q + [key];
    assert now[|q|..] == [key];
    assert Memoised(b, b[key := body], q, now);
    MemoisedTransitive(a, b, b[key := body], p, q, now);
  }

  /** What the children of a flow without cycles store is never under one of the flow's own keys. */
  lemma ParentKeyApart(d: Deployment, f: string, args: Args, key: string)
    requires InjectiveHash(d) && Acyclic(d, f) && KeyStrictlyBelow(d, f, key)
    ensures key != Key(d, f, args)
  {
    var g, a :| Reaches(d, f, g) && key == Key(d, g, a);
    if key == Key(d, f, args) {
      KeyDetermines(d, g, a, f, args);
    }
  }

  lemma ChildKeyBelow(d: Deployment, f: string, g: string, key: string)
    requires Calls(d, f, g) && KeyBelow(d, g, key)
    ensures KeyStrictlyBelow(d, f, key)
  {
    var h, a :| (h == g || Reaches(d, g, h)) && key == Key(d, h, a);
    CallReaches(d, f, g);
    if h != g {
      ReachesTransitive(d, f, g, h);
    }
  }

  lemma ProgressedTransitive(d: Deployment, f: string, strictly: bool, reliable: bool,
                             a: map<string, Body>, b: map<string, Body>, c: map<string, Body>,
                             p: seq<string>, q: seq<string>, r: seq<string>)
    requires Progressed(d, f, strictly, reliable, a, b, p, q) && Progressed(d, f, strictly, reliable, b, c, q, r)
    ensures Progressed(d, f, strictly, reliable, a, c, p, r)
  {
    hide KeyStrictlyBelow, KeyBelow, Memoised;
    if reliable {
      MemoisedTransitive(a, b, c, p, q, r);
    }
  }

  /** A child's progress is progress strictly below its caller. */
  lemma ChildProgress(d: Deployment, f: string, g: string, reliable: bool,
                      a: map<string, Body>, b: map<string, Body>, p: seq<string>, q: seq<string>)
    requires Calls(d, f, g) && Progressed(d, g, false, reliable, a, b, p, q)
    ensures Progressed(d, f, true, reliable, a, b, p, q)
  {
    hide KeyStrictlyBelow, Memoised, KeyBelow;
    forall k | k in b && k !in a
      ensures KeyStrictlyBelow(d, f, k)
    {
      ChildKeyBelow(d, f, g, k);
    }
  }

  lemma StrictProgress(d: Deployment, f: string, reliable: bool,
                       a: map<string, Body>, b: map<string, Body>, p: seq<string>, q: seq<string>)
    requires Progressed(d, f, true, reliable, a, b, p, q)
    ensures Progressed(d, f, false, reliable, a, b, p, q)
  {
    hide Memoised;
  }

  lemma KeyUntouched(d: Deployment, f: string, args: Args, reliable: bool,
                     a: map<string, Body>, b: map<string, Body>, p: seq<string>, q: seq<string>)
    requires InjectiveHash(d) && Acyclic(d, f) && Progressed(d, f, true, reliable, a, b, p, q)
    ensures Key(d, f, args) in b ==> Key(d, f, args) in a
  {
    hide KeyStrictlyBelow, Memoised, Key, InjectiveHash, Acyclic;
    if Key(d, f, args) in b && Key(d, f, args) !in a {
      ParentKeyApart(d, f, args, Key(d, f, args));
    }
  }

  /** Storing the flow's own result after its children ran. */
  lemma OwnProgress(d: Deployment, f: string, args: Args, reliable: bool, body: Body,
                    a: map<string, Body>, b: map<string, Body>, c: map<string, Body>,
                    p: seq<string>, q: seq<string>, r: seq<string>)
    requires Progressed(d, f, true, reliable, a, b, p, q)
    requires forall k | k in c && k != Key(d, f, args) :: k in b
    requires reliable ==> Key(d, f, args) !in b && c == b[Key(d, f, args) := body]
    requires r == q + [Key(d, f, args)]
    ensures Progressed(d, f, false, reliable, a, c, p, r)
  {
    StrictProgress(d, f, reliable, a, b, p, q);
    hide KeyStrictlyBelow, Memoised, Key;
    if reliable {
      MemoisedOnce(a, b, p, q, Key(d, f, args), body);
    }
  }

  lemma NoProgress(d: Deployment, f: string, strictly: bool, reliable: bool,
                   a: map<string, Body>, b: map<string, Body>, p: seq<string>)
    requires Within(b, a) && (reliable ==> a == b)
    ensures Progressed(d, f, strictly, reliable, a, b, p, p)
  {
    assert p[|p|..] == [];
  }

  lemma ProgressMemoises(d: Deployment, f: string, a: map<string, Body>, b: map<string, Body>, p: seq<string>,
      q: seq<string>)
    requires Progressed(d, f, false, true, a, b, p, q)
    ensures Memoised(a, b, p, q)
  {
  }

  lemma MemoisedNothing(a: map<string, Body>, p: seq<string>)
    ensures Memoised(a, a, p, p)
  {
    assert p[|p|..] == [];
  }

  lemma {:induction false} DistinctCount(keys: seq<string>)
    requires NoDuplicates(keys)
    ensures |set k | k in keys| == |keys|
  {
    if keys == [] {
    } else {
      var last := |keys| - 1;
      DistinctCount(keys[..last]);
      assert (set k | k in keys) == (set k | k in keys[..last]) + {keys[last]};
    }
  }

  /** Memoised invocations are as many as the keys they add. */
  lemma MemoisedCount(a: map<string, Body>, b: map<string, Body>, p: seq<string>, q: seq<string>)
    requires Memoised(a, b, p, q)
    ensures |q| - |p| == |b.Keys - a.Keys|
  {
    var added := q[|p|..];
    DistinctCount(added);
    hide NoDuplicates, Within;
    assert (set k | k in added) == b.Keys - a.Keys;
  }

  lemma WithinKeepsCache(d: Deployment, a: map<string, Body>, b: map<string, Body>)
    requires CacheRight(d, b) && Within(a, b)
    ensures CacheRight(d, a)
  {
    hide Key, Right, Caches;
  }

  lemma RightAcyclic(d: Deployment, f: string, args: Args, body: Body)
    requires Right(d, f, args, body)
    ensures Acyclic(d, f)
  {
  }

  lemma NestsNone(d: Deployment, f: string)
    ensures Nests(d, f, 0)
  {
  }

  method MapArgs(argsMap: map<string, string>, parent: JsonObject) returns (args: Args)
    ensures args.Keys == argsMap.Keys
    ensures forall field | field in argsMap ::
              args[field] == if argsMap[field] in parent.fields then parent.fields[argsMap[field]] else Null
  {
    args := map[];
    var left := argsMap.Keys;
    while left != {}
      invariant left <= argsMap.Keys && args.Keys == argsMap.Keys - left
      invariant forall field | field in args ::
                  args[field] == if argsMap[field] in parent.fields then parent.fields[argsMap[field]] else Null
      decreases left
    {
      var field :| field in left;
      var source := argsMap[field];
      args := args[field := if source in parent.fields then parent.fields[source] else Null];
      left := left - {field};
    }
  }

  class FlowHandler {
    const d: Deployment
    const cache: CacheClient
    const client: HttpClient
    /** Keys of the upstream invocations of cached flows, in order. */
    ghost var invoked: seq<string>

    constructor (d: Deployment, cache: CacheClient)
      ensures this.d == d && this.cache == cache && invoked == []
      ensures fresh(client) && client.free == d.connections
    {
      this.d := d;
      this.cache := cache;
      client := new HttpClient(d.connections);
      invoked := [];
    }

    ghost predicate Ready()
      reads cache`entries
    {
      InjectiveHash(d) && CacheRight(d, cache.entries)
    }

    /** Looks the request up under the key of the shared object. */
    method LookUp(name: string, body: Args, requestBody: JsonObject) returns (hit: Option<Body>)
      requires Ready() && Caches(d, name)
      requires requestBody.fields == body[NAME_FIELD := Text(name)]
      modifies cache`entries
      ensures Ready() && Within(cache.entries, old(cache.entries))
      ensures hit.Some? ==> Right(d, name, body, hit.value)
      ensures cache.reliable ==> cache.entries == old(cache.entries) && (hit.Some? <==> Key(d, name, body) in cache.entries)
    {
      hide Right, InjectiveHash;
      var key := d.hash(requestBody.fields);
      assert key in cache.entries ==> Right(d, name, body, cache.entries[key]) by {
        assert key == Key(d, name, body);
      }
      hit := cache.Get(key);
      WithinKeepsCache(d, cache.entries, old(cache.entries));
    }

    /**
      Runs one child, with arguments taken from the shared object, and saves its response. An internal child needs a
      connection; without one the call waits until the client gives up, and the handler dies without a reply.
     */
    method RunChild(name: string, flowInput: Input, alias: string) returns (ok: bool)
      requires Ready() && alias in Children(d, name)
      modifies cache`entries, client`free, this`invoked, flowInput`children
      ensures Ready() && client.free == old(client.free)
      ensures ok ==> alias in flowInput.children
      ensures ok ==> OutputRight(d, name, alias, flowInput.args.fields, flowInput.children[alias])
      ensures ok ==> OutputMeans(d, d.flows[name].children[alias], flowInput.args.fields, flowInput.children[alias])
      ensures ok ==> flowInput.children == old(flowInput.children)[alias := flowInput.children[alias]]
      ensures !ok ==> Nests(d, name, client.free + 1)
      ensures Progressed(d, name, true, cache.reliable, old(cache.entries), cache.entries, old(invoked), invoked)
      decreases client.free, 0
    {
      hide Progressed, CacheRight, InjectiveHash, Mapped, Nests, Right, OutputMeans;
      NoProgress(d, name, true, cache.reliable, cache.entries, cache.entries, invoked);
      var child := Children(d, name)[alias];
      var args := MapArgs(child.argsMap, flowInput.args);
      MappedDelivers(child.argsMap, flowInput.args.fields, args);
      var data;
      if External(d, child.target) {
        data := d.thirdParty(d.flows[child.target].thirdPartyURL.value, args);
      } else {
        NestsChild(d, name, client.free + 1);
        if client.free == 0 {
          NestsNone(d, child.target);
          return false;
        }
        client.free := client.free - 1;
        var reply := Handle(child.target, args);
        client.free := client.free + 1;
        assert Calls(d, name, child.target);
        ChildProgress(d, name, child.target, cache.reliable, old(cache.entries), cache.entries, old(invoked), invoked);
        if reply.None? {
          return false;
        }
        data := reply.value;
      }
      flowInput.children := flowInput.children[alias := FlowOutput(data, child.target)];
      OutputIsRight(d, name, alias, flowInput.args.fields, FlowOutput(data, child.target));
      return true;
    }

    /** The loop over the children, in any order. */
    method RunChildren(name: string, flowInput: Input) returns (ok: bool)
      requires Ready() && flowInput.children == map[]
      modifies cache`entries, client`free, this`invoked, flowInput`children
      ensures Ready() && client.free == old(client.free)
      ensures ok ==> flowInput.children.Keys == Children(d, name).Keys
      ensures ok ==> forall alias | alias in flowInput.children ::
                OutputRight(d, name, alias, flowInput.args.fields, flowInput.children[alias])
      ensures !ok ==> Nests(d, name, client.free + 1)
      ensures Progressed(d, name, true, cache.reliable, old(cache.entries), cache.entries, old(invoked), invoked)
      decreases client.free, 1
    {
      hide Progressed, OutputRight, CacheRight, InjectiveHash, Nests;
      NoProgress(d, name, true, cache.reliable, cache.entries, cache.entries, invoked);
      var left := Children(d, name).Keys;
      while left != {}
        invariant Ready() && client.free == old(client.free)
        invariant left <= Children(d, name).Keys && flowInput.children.Keys == Children(d, name).Keys - left
        invariant forall alias | alias in flowInput.children ::
                    OutputRight(d, name, alias, flowInput.args.fields, flowInput.children[alias])
        invariant Progressed(d, name, true, cache.reliable, old(cache.entries), cache.entries, old(invoked), invoked)
        decreases left
      {
        var alias :| alias in left;
        ghost var entries, log := cache.entries, invoked;
        var done := RunChild(name, flowInput, alias);
        ProgressedTransitive(d, name, true, cache.reliable, old(cache.entries), entries, cache.entries, old(invoked),
            log, invoked);
        if !done {
          return false;
        }
        left := left - {alias};
      }
      return true;
    }

    /** Calls the deployed function; every call for a cached flow is logged under the request's key. */
    method ProxyRequest(name: string, flowInput: Input) returns (reply: Body)
      modifies this`invoked
      ensures reply == Answer(d, name, FlowInput(flowInput.args.fields, flowInput.children))
      ensures invoked == if Caches(d, name) then old(invoked) + [Key(d, name, flowInput.args.fields)] else old(invoked)
    {
      if Caches(d, name) {
        invoked := invoked + [Key(d, name, flowInput.args.fields)];
      }
      reply := Answer(d, name, FlowInput(flowInput.args.fields, flowInput.children));
    }

    /** Stores the response under the key of the shared object, computed again. */
    method Remember(name: string, body: Args, flowInput: Input, reply: Body)
      requires Ready() && Caches(d, name)
      requires flowInput.args.fields == Effective(d, name, body) && Right(d, name, body, reply)
      requires cache.reliable ==> Key(d, name, body) !in cache.entries
      modifies cache`entries, flowInput.args
      ensures Ready()
      ensures var key := Key(d, name, body);
              && (forall k | k in cache.entries && k != key :: k in old(cache.entries))
              && (cache.reliable ==> cache.entries == old(cache.entries)[key := reply])
    {
      hide Right, InjectiveHash;
      var requestBody := flowInput.args;
      requestBody.fields := requestBody.fields[NAME_FIELD := Text(name)];
      KeyStable(d, name, body);
      var key := d.hash(requestBody.fields);
      ghost var entries := cache.entries;
      var ok := cache.SetEx(key, reply);
      StoreKeepsCache(d, entries, name, body, reply);
      if Within(cache.entries, entries) {
        WithinKeepsCache(d, cache.entries, entries);
      } else {
        WithinKeepsCache(d, cache.entries, entries[key := reply]);
      }
    }

    /** What follows a miss: the children, the function itself, and the new cache entry. */
    method Compute(name: string, body: Args, flowInput: Input) returns (reply: Option<Body>)
      requires Ready()
      requires flowInput.args.fields == Effective(d, name, body) && flowInput.children == map[]
      requires cache.reliable && Caches(d, name) ==> Key(d, name, body) !in cache.entries
      modifies cache`entries, client`free, this`invoked, flowInput`children, flowInput.args
      ensures Ready() && client.free == old(client.free)
      ensures if reply.Some? then Right(d, name, body, reply.value) else Nests(d, name, client.free + 1)
      ensures Progressed(d, name, false, cache.reliable, old(cache.entries), cache.entries, old(invoked), invoked)
      ensures cache.reliable && Caches(d, name) && reply.Some? ==> Key(d, name, body) in cache.entries
      decreases client.free, 2
    {
      hide Progressed, CacheRight, InjectiveHash, OutputRight, Right, Key, Effective, Answer, Nests;
      ghost var entries, log := cache.entries, invoked;
      var ok := RunChildren(name, flowInput);
      ghost var between, listed := cache.entries, invoked;
      if !ok {
        StrictProgress(d, name, cache.reliable, entries, between, log, listed);
        return None;
      }
      AnswerRight(d, name, body, flowInput.children);
      RightAcyclic(d, name, body, Answer(d, name, FlowInput(flowInput.args.fields, flowInput.children)));
      KeyUntouched(d, name, body, cache.reliable, entries, between, log, listed);
      KeyStable(d, name, body);
      var answer := ProxyRequest(name, flowInput);
      if Caches(d, name) {
        Remember(name, body, flowInput, answer);
        OwnProgress(d, name, body, cache.reliable, answer, entries, between, cache.entries, log, listed, invoked);
      } else {
        StrictProgress(d, name, cache.reliable, entries, between, log, listed);
      }
      return Some(answer);
    }

    /**
      The handler for one request; a child is another request to the same handler. It always ends: with the reference
      result, or without a reply when the calls below nest deeper than there are free connections.
     */
    method Handle(name: string, body: Args) returns (reply: Option<Body>)
      requires Ready()
      modifies cache`entries, client`free, this`invoked
      ensures Ready() && client.free == old(client.free)
      ensures reply.Some? ==> Right(d, name, body, reply.value)
      ensures reply.None? ==> Nests(d, name, client.free + 1)
      ensures Progressed(d, name, false, cache.reliable, old(cache.entries), cache.entries, old(invoked), invoked)
      ensures cache.reliable && Caches(d, name) && reply.Some? ==> Key(d, name, body) in cache.entries
      ensures cache.reliable && Caches(d, name) && Key(d, name, body) in old(cache.entries) ==>
                reply.Some? && invoked == old(invoked)
      decreases client.free, 3
    {
      hide Progressed, CacheRight, InjectiveHash, Right, Key, Within, Nests;
      ghost var entries, log := cache.entries, invoked;
      var requestBody := new JsonObject(body);
      var flowInput := new Input(requestBody);
      NoProgress(d, name, false, cache.reliable, entries, entries, log);
      if Caches(d, name) {
        requestBody.fields := requestBody.fields[NAME_FIELD := Text(name)];
        var hit := LookUp(name, body, requestBody);
        NoProgress(d, name, false, cache.reliable, entries, cache.entries, log);
        if hit.Some? {
          return hit;
        }
      }
      ghost var found := cache.entries;
      reply := Compute(name, body, flowInput);
      ProgressedTransitive(d, name, false, cache.reliable, entries, found, cache.entries, log, log, invoked);
    }

    /**
      Requests one after another. A reply is the reference result, whatever the cache loses in between, and every
      request has one whose calls nest no deeper than there are connections; with a cache that keeps everything, the
      invocations of cached flows are as many as the keys they add to the cache.
     */
    method Serve(requests: seq<Request>) returns (replies: seq<Option<Body>>)
      requires Ready()
      modifies cache`entries, client`free, this`invoked
      ensures Ready() && client.free == old(client.free)
      ensures |replies| == |requests|
      ensures forall i | 0 <= i < |requests| && replies[i].Some? ::
                Right(d, requests[i].name, requests[i].args, replies[i].value)
      ensures forall i | 0 <= i < |requests| && !Nests(d, requests[i].name, client.free + 1) :: replies[i].Some?
      ensures cache.reliable ==> Memoised(old(cache.entries), cache.entries, old(invoked), invoked)
      ensures cache.reliable ==> |invoked| - |old(invoked)| == |cache.entries.Keys - old(cache.entries).Keys|
    {
      hide Memoised, Progressed, CacheRight, InjectiveHash, Right, Key, Nests;
      replies := [];
      MemoisedNothing(cache.entries, invoked);
      for i := 0 to |requests|
        invariant Ready() && client.free == old(client.free) && |replies| == i
        invariant forall j | 0 <= j < i && replies[j].Some? ::
            Right(d, requests[j].name, requests[j].args, replies[j].value)
        invariant forall j | 0 <= j < i && !Nests(d, requests[j].name, client.free + 1) :: replies[j].Some?
        invariant cache.reliable ==> Memoised(old(cache.entries), cache.entries, old(invoked), invoked)
      {
        ghost var entries, log := cache.entries, invoked;
        cache.Decay();
        WithinKeepsCache(d, cache.entries, entries);
        var reply := Handle(requests[i].name, requests[i].args);
        if cache.reliable {
          ProgressMemoises(d, requests[i].name, entries, cache.entries, log, invoked);
          MemoisedTransitive(old(cache.entries), entries, cache.entries, old(invoked), log, invoked);
        }
        replies := replies + [reply];
      }
      if cache.reliable {
        MemoisedCount(old(cache.entries), cache.entries, old(invoked), invoked);
      }
    }
  }
}
