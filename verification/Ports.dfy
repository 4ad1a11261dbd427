/** Ordering ports so that each comes after the ports it depends on. */
module Ports {
  import opened Options

  type Port = string
  type Graph = map<Port, seq<Port>>

  /** Each port is a dependency of the one before it. */
  ghost predicate Walk(deps: Graph, p: seq<Port>) {
    forall i :: 0 <= i < |p| - 1 ==> p[i] in deps && p[i + 1] in deps[p[i]]
  }

  ghost predicate Walks(deps: Graph, p: seq<Port>, from: Port, to: Port) {
    p != [] && p[0] == from && p[|p| - 1] == to && Walk(deps, p)
  }

  /** `x` is asked for, or needed by something that is. */
  ghost predicate Needed(deps: Graph, requested: seq<Port>, x: Port) {
    exists p :: p != [] && p[0] in requested && p[|p| - 1] == x && Walk(deps, p)
  }

  /** Everything needed is known, and nothing needed needs itself. */
  ghost predicate Resolvable(deps: Graph, requested: seq<Port>) {
    && (forall x :: Needed(deps, requested, x) ==> x in deps)
    && (forall x, p :: Needed(deps, requested, x) && Walks(deps, p, x, x) ==> |p| == 1)
  }

  datatype Error = Unknown(port: Port) | Cyclic(port: Port)

  /** Each once, each known, and each after what it depends on. */
  ghost predicate Ordered(deps: Graph, s: seq<Port>) {
    && (forall i, j :: 0 <= i < j < |s| ==> s[i] != s[j])
    && (forall k :: 0 <= k < |s| ==> s[k] in deps && forall d :: d in deps[s[k]] ==> d in s[..k])
  }

  lemma Extend(deps: Graph, p: seq<Port>, x: Port)
    requires Walk(deps, p) && (p != [] ==> p[|p| - 1] in deps && x in deps[p[|p| - 1]])
    ensures Walk(deps, p + [x])
  {
  }

  lemma WalkSuffix(deps: Graph, p: seq<Port>, k: nat)
    requires Walk(deps, p) && k <= |p|
    ensures Walk(deps, p[k..])
  {
    var q := p[k..];
    forall i | 0 <= i < |q| - 1
      ensures q[i] in deps && q[i + 1] in deps[q[i]]
    {
      assert q[i] == p[k + i] && q[i + 1] == p[(k + i) + 1];
    }
  }

  /** Going down a walk through an ordered list, places only get smaller. */
  lemma {:induction false} WalkDescends(deps: Graph, s: seq<Port>, p: seq<Port>, k: nat)
    requires Ordered(deps, s) && p != [] && Walk(deps, p) && k < |s| && s[k] == p[0]
    ensures exists j :: 0 <= j <= k && s[j] == p[|p| - 1] && (|p| > 1 ==> j < k)
    decreases |p|
  {
    if |p| == 1 {
      assert s[k] == p[|p| - 1];
    } else {
      assert p[1] in deps[p[0]];
      assert p[1] in s[..k];
      var m :| 0 <= m < k && s[..k][m] == p[1];
      WalkSuffix(deps, p, 1);
      WalkDescends(deps, s, p[1..], m);
    }
  }

  /** An ordered list with everything requested in it shows that the request can be met, and holds all that is needed. */
  lemma OrderedResolves(deps: Graph, requested: seq<Port>, s: seq<Port>)
    requires Ordered(deps, s) && forall r :: r in requested ==> r in s
    ensures Resolvable(deps, requested) && forall x :: Needed(deps, requested, x) ==> x in s
  {
    forall x | Needed(deps, requested, x)
      ensures x in s && x in deps
    {
      var p :| p != [] && p[0] in requested && p[|p| - 1] == x && Walk(deps, p);
      var k :| 0 <= k < |s| && s[k] == p[0];
      WalkDescends(deps, s, p, k);
    }
    forall x, p | Needed(deps, requested, x) && Walks(deps, p, x, x)
      ensures |p| == 1
    {
      var k :| 0 <= k < |s| && s[k] == x;
      WalkDescends(deps, s, p, k);
    }
  }

  /** The walk shows why the request cannot be met. */
  ghost predicate Explains(deps: Graph, e: Error, trace: seq<Port>) {
    trace != [] && Walk(deps, trace) && trace[|trace| - 1] == e.port &&
    match e
    case Unknown(x) => x !in deps
    case Cyclic(x) => exists k :: 0 <= k < |trace| - 1 && trace[k] == x
  }

  lemma ExplainsFailure(deps: Graph, requested: seq<Port>, e: Error, trace: seq<Port>)
    requires Explains(deps, e, trace) && trace[0] in requested
    ensures !Resolvable(deps, requested)
  {
    assert Needed(deps, requested, e.port);
    if e.Cyclic? {
      var k :| 0 <= k < |trace| - 1 && trace[k] == e.port;
      var loop := trace[k..];
      WalkSuffix(deps, trace, k);
      assert Walks(deps, loop, e.port, e.port);
    }
  }

  class Resolver {
    const deps: Graph
    var resolved: seq<Port>
    var seen: set<Port>
    var visiting: set<Port>

    constructor (deps: Graph)
      ensures this.deps == deps && resolved == [] && seen == {} && visiting == {}
    {
      this.deps := deps;
      resolved, seen, visiting := [], {}, {};
    }

    /** `stack` is the walk of ports being visited. */
    ghost predicate Valid(stack: seq<Port>)
      reads this
    {
      && Ordered(deps, resolved) && (forall x :: x in seen <==> x in resolved)
      && (forall x :: x in visiting <==> x in stack) && Walk(deps, stack) && visiting <= deps.Keys && seen !! visiting
    }

    /** Everything resolved is needed by one of the requested ports. */
    ghost predicate OnlyNeeded(requested: seq<Port>)
      reads this
    {
      forall x :: x in resolved ==> Needed(deps, requested, x)
    }

    method Visit(port: Port, ghost stack: seq<Port>, ghost requested: seq<Port>) returns (error: Option<Error>, ghost trace: seq<Port>)
      requires Valid(stack) && Walk(deps, stack + [port]) && (stack + [port])[0] in requested && OnlyNeeded(requested)
      modifies this
      ensures error.None? ==> Valid(stack) && visiting == old(visiting) && port in resolved && OnlyNeeded(requested)
      ensures error.None? ==> old(resolved) <= resolved
      ensures error.Some? ==> Explains(deps, error.value, trace) && trace[0] == (stack + [port])[0]
      decreases deps.Keys - visiting, 1
    {
      if port in seen { return None, []; }
      if port in visiting {
        ghost var k :| 0 <= k < |stack| && stack[k] == port;
        assert (stack + [port])[k] == port;
        return Some(Cyclic(port)), stack + [port];
      }
      if port !in deps { return Some(Unknown(port)), stack + [port]; }
      visiting := visiting + {port};
      error, trace := VisitAll(deps[port], stack + [port], requested);
      if error.Some? { return; }
      visiting := visiting - {port};
      seen := seen + {port};
      Appends(deps, resolved, port);
      assert Needed(deps, requested, port) by { assert (stack + [port])[|stack|] == port; }
      resolved := resolved + [port];
    }

    method VisitAll(ports: seq<Port>, ghost stack: seq<Port>, ghost requested: seq<Port>) returns (error: Option<Error>, ghost trace: seq<Port>)
      requires Valid(stack) && stack != [] && stack[0] in requested && OnlyNeeded(requested)
      requires stack[|stack| - 1] in deps && ports == deps[stack[|stack| - 1]]
      modifies this
      ensures error.None? ==> Valid(stack) && visiting == old(visiting) && OnlyNeeded(requested) && old(resolved) <= resolved
      ensures error.None? ==> forall d :: d in ports ==> d in resolved
      ensures error.Some? ==> Explains(deps, error.value, trace) && trace[0] == stack[0]
      decreases deps.Keys - visiting, 2
    {
      for i := 0 to |ports|
        invariant Valid(stack) && visiting == old(visiting) && OnlyNeeded(requested) && old(resolved) <= resolved
        invariant forall j :: 0 <= j < i ==> ports[j] in resolved
      {
        Extend(deps, stack, ports[i]);
        error, trace := Visit(ports[i], stack, requested);
        if error.Some? { return; }
      }
      error, trace := None, [];
    }
  }

  /** Succeeds exactly if the request can be met, and then gives each needed port once, after what it depends on. */
  method Resolve(deps: Graph, requested: seq<Port>) returns (error: Option<Error>, resolved: seq<Port>)
    ensures error.None? <==> Resolvable(deps, requested)
    ensures error.None? ==> Ordered(deps, resolved) && forall x :: x in resolved <==> Needed(deps, requested, x)
  {
    var r := new Resolver(deps);
    error, resolved := None, [];
    for i := 0 to |requested|
      invariant error.None? && r.deps == deps && r.Valid([]) && r.OnlyNeeded(requested)
      invariant forall j :: 0 <= j < i ==> requested[j] in r.resolved
    {
      ghost var trace;
      error, trace := r.Visit(requested[i], [], requested);
      if error.Some? {
        ExplainsFailure(deps, requested, error.value, trace);
        return;
      }
    }
    resolved := r.resolved;
    OrderedResolves(deps, requested, resolved);
  }

  lemma Appends(deps: Graph, s: seq<Port>, x: Port)
    requires Ordered(deps, s) && x !in s && x in deps && forall d :: d in deps[x] ==> d in s
    ensures Ordered(deps, s + [x])
  {
    var t := s + [x];
    assert t[..|s|] == s;
    forall k | 0 <= k < |t|
      ensures t[k] in deps && forall d :: d in deps[t[k]] ==> d in t[..k]
    {
      if k < |s| { assert t[..k] == s[..k]; }
    }
  }
}
