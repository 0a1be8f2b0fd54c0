/** The provider graph: completed calls respect it, and a solved request proves it acyclic. */
module Topology {
  import opened Scanner
  import opened Injection
  import opened Wrappers

  // ----- The override-substituted graph

  /** The effective providers a parameter list depends on. */
  function Needs(w: World, params: seq<ParamPlan>): set<Provider> {
    if params == [] then {}
    else
      Needs(w, params[1..])
      + if params[0].kind.Depends? && params[0].dependency.Some?
        then {w.Effective(params[0].dependency.value.callable)} else {}
  }

  predicate Edge(w: World, p: Provider, q: Provider) {
    q in Needs(w, w.Params(p))
  }

  predicate IsPath(w: World, path: seq<Provider>) {
    forall i :: 0 <= i < |path| - 1 ==> Edge(w, path[i], path[i + 1])
  }

  ghost predicate Reaches(w: World, p: Provider, q: Provider) {
    exists path: seq<Provider> :: PathBetween(w, path, p, q)
  }

  predicate PathBetween(w: World, path: seq<Provider>, p: Provider, q: Provider) {
    path != [] && path[0] == p && path[|path| - 1] == q && IsPath(w, path)
  }

  predicate Distinct<T(==)>(s: seq<T>) {
    forall i, j :: 0 <= i < j < |s| ==> s[i] != s[j]
  }

  /** The providers a request refers to directly. */
  function Roots(w: World, routes: seq<Dependency>, params: seq<ParamPlan>): set<Provider> {
    Needs(w, params) + set i | 0 <= i < |routes| :: w.Effective(routes[i].callable)
  }

  // ----- Completed calls respect the graph

  predicate Completed(instances: seq<Instance>, p: Provider) {
    exists j :: 0 <= j < |instances| && instances[j].provider == p
  }

  /** Call k came after a completed call of everything its provider needs, and was passed earlier results only. */
  ghost predicate Ordered(w: World, instances: seq<Instance>, k: nat)
    requires k < |instances|
  {
    && (forall q :: Edge(w, instances[k].provider, q) ==> Completed(instances[..k], q))
    && (forall n :: n in instances[k].args ==> instances[k].args[n] < k)
  }

  ghost predicate Grounded(w: World, st: State) {
    && (forall p :: p in st.cache ==> st.cache[p] < |st.instances| && st.instances[st.cache[p]].provider == p)
    && (forall k :: 0 <= k < |st.instances| ==> Ordered(w, st.instances, k))
  }

  lemma {:induction false} CompletedGrows(a: seq<Instance>, b: seq<Instance>, p: Provider)
    requires a <= b && Completed(a, p)
    ensures Completed(b, p)
  {
    var j :| 0 <= j < |a| && a[j].provider == p;
    assert b[j].provider == p;
  }

  lemma {:induction false} OrderedStays(w: World, a: seq<Instance>, b: seq<Instance>, k: nat)
    requires a <= b && k < |a| && Ordered(w, a, k)
    ensures Ordered(w, b, k)
  {
    assert b[..k] == a[..k];
  }

  lemma {:induction false} CallGrounds(w: World, p: Provider, shared: bool, args: map<string, Ref>, st: State)
    requires Grounded(w, st)
    requires forall q :: Edge(w, p, q) ==> Completed(st.instances, q)
    requires forall n :: n in args ==> args[n] < |st.instances|
    ensures var s := CallAndRemember(w, p, shared, args, st);
            && Grounded(w, s.state) && st.instances <= s.state.instances
            && (s.result.Ok? ==> s.result.value < |s.state.instances|
                                 && s.state.instances[s.result.value].provider == p)
  {
    var s := CallAndRemember(w, p, shared, args, st);
    if s.result.Ok? {
      var after := s.state.instances;
      assert after[..|st.instances|] == st.instances;
      forall k | 0 <= k < |after| ensures Ordered(w, after, k) {
        if k < |st.instances| {
          OrderedStays(w, st.instances, after, k);
        }
      }
    }
  }

  /** Resolving one reference keeps the order; on success the reference's provider has completed. */
  lemma {:induction false} ResolveGrounds(w: World, dep: Dependency, chain: seq<Provider>, st: State)
    requires |chain| <= MAX_DEPTH && Grounded(w, st)
    ensures var s := Resolve(w, dep, chain, st);
            && Grounded(w, s.state) && st.instances <= s.state.instances
            && (s.result.Ok? ==> s.result.value < |s.state.instances|
                                 && s.state.instances[s.result.value].provider == w.Effective(dep.callable))
    decreases MAX_DEPTH - |chain|, 0
  {
    var p := w.Effective(dep.callable);
    if |chain| < MAX_DEPTH && !(dep.useCache && p in st.cache) {
      ParamsGround(w, w.Params(p), chain + [p], st, map[]);
      var s := ResolveParams(w, w.Params(p), chain + [p], st, map[]);
      if s.result.Ok? {
        CallGrounds(w, p, dep.useCache, s.result.value, s.state);
      }
    }
  }

  lemma {:induction false} ParamsGround(w: World, params: seq<ParamPlan>, chain: seq<Provider>, st: State,
                                        args: map<string, Ref>)
    requires |chain| <= MAX_DEPTH && Grounded(w, st)
    requires forall n :: n in args ==> args[n] < |st.instances|
    ensures var s := ResolveParams(w, params, chain, st, args);
            && Grounded(w, s.state) && st.instances <= s.state.instances
            && (s.result.Ok? ==>
                  && (forall q :: q in Needs(w, params) ==> Completed(s.state.instances, q))
                  && (forall n :: n in s.result.value ==> s.result.value[n] < |s.state.instances|))
    decreases MAX_DEPTH - |chain|, 1 + |params|
  {
    if params == [] {
    } else if !params[0].kind.Depends? {
      ParamsGround(w, params[1..], chain, st, args);
    } else if params[0].dependency.Some? {
      var dep := params[0].dependency.value;
      ResolveGrounds(w, dep, chain, st);
      var s := Resolve(w, dep, chain, st);
      if s.result.Ok? {
        ParamsGround(w, params[1..], chain, s.state, args[params[0].name := s.result.value]);
        var t := ResolveParams(w, params[1..], chain, s.state, args[params[0].name := s.result.value]);
        if t.result.Ok? {
          assert Completed(s.state.instances, w.Effective(dep.callable));
          CompletedGrows(s.state.instances, t.state.instances, w.Effective(dep.callable));
        }
      }
    }
  }

  lemma {:induction false} RoutesGround(w: World, routes: seq<Dependency>, st: State)
    requires Grounded(w, st)
    ensures var s := SolveRoutes(w, routes, st);
            && Grounded(w, s.state) && st.instances <= s.state.instances
            && (s.result.Ok? ==> forall i :: 0 <= i < |routes| ==>
                                   Completed(s.state.instances, w.Effective(routes[i].callable)))
    decreases |routes|
  {
    if routes != [] {
      ResolveGrounds(w, routes[0], [], st);
      var s := Resolve(w, routes[0], [], st);
      if s.result.Ok? {
        RoutesGround(w, routes[1..], s.state);
        var t := SolveRoutes(w, routes[1..], s.state);
        if t.result.Ok? {
          CompletedGrows(s.state.instances, t.state.instances, w.Effective(routes[0].callable));
          forall i | 0 <= i < |routes| ensures Completed(t.state.instances, w.Effective(routes[i].callable)) {
            if i > 0 { assert routes[i] == routes[1..][i - 1]; }
          }
        }
      }
    }
  }

  lemma {:induction false} PlanGrounds(w: World, params: seq<ParamPlan>, stream: bool, st: State, call: HandlerCall)
    requires Grounded(w, st)
    ensures var s := SolvePlan(w, params, stream, st, call);
            && Grounded(w, s.state) && st.instances <= s.state.instances
            && (s.result.Ok? ==> forall q :: q in Needs(w, params) ==> Completed(s.state.instances, q))
    decreases |params|
  {
    if params == [] {
    } else if !params[0].kind.Depends? {
      PlanGrounds(w, params[1..], stream, st, FillBuiltIn(params[0], stream, call));
    } else if params[0].dependency.Some? {
      var dep := params[0].dependency.value;
      ResolveGrounds(w, dep, [], st);
      var s := Resolve(w, dep, [], st);
      if s.result.Ok? {
        var call' := call.With(params[0].name, Resolved(s.result.value));
        PlanGrounds(w, params[1..], stream, s.state, call');
        var t := SolvePlan(w, params[1..], stream, s.state, call');
        if t.result.Ok? {
          CompletedGrows(s.state.instances, t.state.instances, w.Effective(dep.callable));
        }
      }
    }
  }

  /**
   Every run, successful or not, only calls a provider after everything it
   needs has completed, and passes it results of earlier calls only; on
   success every root of the request has completed.
   */
  lemma {:induction false} SolveGrounds(w: World, routes: seq<Dependency>, params: seq<ParamPlan>, stream: bool)
    ensures var s := Solve(w, routes, params, stream);
            && Grounded(w, s.state)
            && (s.result.Ok? ==> forall p :: p in Roots(w, routes, params) ==> Completed(s.state.instances, p))
  {
    RoutesGround(w, routes, EMPTY);
    var r := SolveRoutes(w, routes, EMPTY);
    if r.result.Ok? {
      PlanGrounds(w, params, stream, r.state, NO_CALL);
      var s := SolvePlan(w, params, stream, r.state, NO_CALL);
      forall i | 0 <= i < |routes| && s.result.Ok?
        ensures Completed(s.state.instances, w.Effective(routes[i].callable))
      {
        CompletedGrows(r.state.instances, s.state.instances, w.Effective(routes[i].callable));
      }
    }
  }

  // ----- Acyclicity

  /** The number of the first completed call of p. */
  function First(instances: seq<Instance>, p: Provider): (j: nat)
    requires Completed(instances, p)
    ensures j < |instances| && instances[j].provider == p
    ensures forall i :: 0 <= i < j ==> instances[i].provider != p
  {
    if instances[0].provider == p then 0
    else
      assert Completed(instances[1..], p) by {
        var j :| 0 <= j < |instances| && instances[j].provider == p;
        assert instances[1..][j - 1].provider == p;
      }
      1 + First(instances[1..], p)
  }

  lemma {:induction false} FirstFallsAlongPath(w: World, st: State, path: seq<Provider>, a: nat, b: nat)
    requires Grounded(w, st) && IsPath(w, path)
    requires a < b < |path| && Completed(st.instances, path[a])
    ensures Completed(st.instances, path[b])
    ensures First(st.instances, path[b]) < First(st.instances, path[a])
    decreases b - a
  {
    var k := First(st.instances, path[a]);
    assert Ordered(w, st.instances, k) && Edge(w, path[a], path[a + 1]);
    var j :| 0 <= j < k && st.instances[..k][j].provider == path[a + 1];
    assert st.instances[j].provider == path[a + 1];
    if a + 1 < b {
      FirstFallsAlongPath(w, st, path, a + 1, b);
    }
  }

  lemma {:induction false} CompletedIsAcyclic(w: World, st: State, path: seq<Provider>)
    requires Grounded(w, st) && IsPath(w, path)
    requires path != [] && Completed(st.instances, path[0])
    ensures Distinct(path)
    ensures forall i :: 0 <= i < |path| ==> Completed(st.instances, path[i])
  {
    forall i | 0 < i < |path| ensures Completed(st.instances, path[i]) {
      FirstFallsAlongPath(w, st, path, 0, i);
    }
    forall i, j | 0 <= i < j < |path| ensures path[i] != path[j] {
      FirstFallsAlongPath(w, st, path, i, j);
    }
  }

  /** If `solve` returns, no path of dependencies from a root of the request meets a provider twice. */
  lemma {:induction false} SuccessImpliesAcyclic(w: World, routes: seq<Dependency>, params: seq<ParamPlan>,
                                                 stream: bool, path: seq<Provider>)
    requires Solve(w, routes, params, stream).result.Ok?
    requires IsPath(w, path) && path != [] && path[0] in Roots(w, routes, params)
    ensures Distinct(path)
    ensures forall i :: 0 <= i < |path| ==> Completed(Solve(w, routes, params, stream).state.instances, path[i])
  {
    SolveGrounds(w, routes, params, stream);
    CompletedIsAcyclic(w, Solve(w, routes, params, stream).state, path);
  }

  // ----- The depth error

  /** The chain of a depth error names a real path, one provider longer than the limit. */
  ghost predicate NamesRealPath(w: World, start: seq<Provider>, labels: seq<string>) {
    exists path: seq<Provider> :: DeepPath(w, start, labels, path)
  }

  predicate DeepPath(w: World, start: seq<Provider>, labels: seq<string>, path: seq<Provider>) {
    && start <= path && |path| == MAX_DEPTH + 1 && IsPath(w, path)
    && |labels| == |path| && forall i :: 0 <= i < |path| ==> labels[i] == w.qualname(path[i])
  }

  lemma {:induction false} ResolveDepth(w: World, dep: Dependency, chain: seq<Provider>, st: State)
    requires |chain| <= MAX_DEPTH && IsPath(w, chain + [w.Effective(dep.callable)])
    ensures var r := Resolve(w, dep, chain, st).result;
            r.Err? && r.error.DepthExceeded? ==>
              NamesRealPath(w, chain + [w.Effective(dep.callable)], r.error.chain)
    decreases MAX_DEPTH - |chain|, 0
  {
    var p := w.Effective(dep.callable);
    var chain' := chain + [p];
    if |chain'| > MAX_DEPTH {
      assert DeepPath(w, chain', w.Labels(chain'), chain');
    } else if !(dep.useCache && p in st.cache) {
      ParamsDepth(w, w.Params(p), chain', st, map[]);
    }
  }

  lemma {:induction false} ParamsDepth(w: World, params: seq<ParamPlan>, chain: seq<Provider>, st: State,
                                       args: map<string, Ref>)
    requires |chain| <= MAX_DEPTH && chain != [] && IsPath(w, chain)
    requires Needs(w, params) <= Needs(w, w.Params(chain[|chain| - 1]))
    ensures var r := ResolveParams(w, params, chain, st, args).result;
            r.Err? && r.error.DepthExceeded? ==> NamesRealPath(w, chain, r.error.chain)
    decreases MAX_DEPTH - |chain|, 1 + |params|
  {
    if params == [] {
    } else if !params[0].kind.Depends? {
      ParamsDepth(w, params[1..], chain, st, args);
    } else if params[0].dependency.Some? {
      var dep := params[0].dependency.value;
      var q := w.Effective(dep.callable);
      assert q in Needs(w, params);
      assert IsPath(w, chain + [q]);
      ResolveDepth(w, dep, chain, st);
      var s := Resolve(w, dep, chain, st);
      if s.result.Ok? {
        ParamsDepth(w, params[1..], chain, s.state, args[params[0].name := s.result.value]);
      } else if s.result.error.DepthExceeded? {
        var path :| DeepPath(w, chain + [q], s.result.error.chain, path);
        assert DeepPath(w, chain, s.result.error.chain, path);
      }
    }
  }

  ghost predicate DeepFromRoot(w: World, roots: set<Provider>, labels: seq<string>) {
    exists path: seq<Provider> :: DeepPath(w, [], labels, path) && path[0] in roots
  }

  lemma {:induction false} RootDepth(w: World, dep: Dependency, st: State, roots: set<Provider>)
    requires w.Effective(dep.callable) in roots
    ensures var r := Resolve(w, dep, [], st).result;
            r.Err? && r.error.DepthExceeded? ==> DeepFromRoot(w, roots, r.error.chain)
  {
    var p := w.Effective(dep.callable);
    ResolveDepth(w, dep, [], st);
    var r := Resolve(w, dep, [], st).result;
    if r.Err? && r.error.DepthExceeded? {
      var path :| DeepPath(w, [] + [p], r.error.chain, path);
      assert DeepPath(w, [], r.error.chain, path) && path[0] == p;
    }
  }

  lemma {:induction false} RoutesDepth(w: World, routes: seq<Dependency>, st: State, roots: set<Provider>)
    requires forall i :: 0 <= i < |routes| ==> w.Effective(routes[i].callable) in roots
    ensures var r := SolveRoutes(w, routes, st).result;
            r.Err? && r.error.DepthExceeded? ==> DeepFromRoot(w, roots, r.error.chain)
    decreases |routes|
  {
    if routes != [] {
      RootDepth(w, routes[0], st, roots);
      RoutesDepth(w, routes[1..], Resolve(w, routes[0], [], st).state, roots);
    }
  }

  lemma {:induction false} PlanDepth(w: World, params: seq<ParamPlan>, stream: bool, st: State, call: HandlerCall,
                                     roots: set<Provider>)
    requires Needs(w, params) <= roots
    ensures var r := SolvePlan(w, params, stream, st, call).result;
            r.Err? && r.error.DepthExceeded? ==> DeepFromRoot(w, roots, r.error.chain)
    decreases |params|
  {
    if params == [] {
    } else if !params[0].kind.Depends? {
      PlanDepth(w, params[1..], stream, st, FillBuiltIn(params[0], stream, call), roots);
    } else if params[0].dependency.Some? {
      RootDepth(w, params[0].dependency.value, st, roots);
      var s := Resolve(w, params[0].dependency.value, [], st);
      if s.result.Ok? {
        PlanDepth(w, params[1..], stream, s.state, call.With(params[0].name, Resolved(s.result.value)), roots);
      }
    }
  }

  /**
   When the depth error is raised, its chain lists the 33 providers of a real
   dependency path that starts at a root.
   */
  lemma {:induction false} DepthErrorShowsDeepPath(w: World, routes: seq<Dependency>, params: seq<ParamPlan>,
                                                   stream: bool)
    ensures var r := Solve(w, routes, params, stream).result;
            r.Err? && r.error.DepthExceeded? ==>
              |r.error.chain| == 33 && DeepFromRoot(w, Roots(w, routes, params), r.error.chain)
  {
    RoutesDepth(w, routes, EMPTY, Roots(w, routes, params));
    var s := SolveRoutes(w, routes, EMPTY);
    if s.result.Ok? {
      PlanDepth(w, params, stream, s.state, NO_CALL, Roots(w, routes, params));
    }
  }

  /** If every dependency path from a root has at most 32 providers, the depth error is never raised. */
  lemma {:induction false} ShallowNeverExceedsDepth(w: World, routes: seq<Dependency>, params: seq<ParamPlan>,
                                                    stream: bool)
    requires forall path: seq<Provider> ::
               path != [] && IsPath(w, path) && path[0] in Roots(w, routes, params) ==> |path| <= 32
    ensures var r := Solve(w, routes, params, stream).result;
            !(r.Err? && r.error.DepthExceeded?)
  {
    DepthErrorShowsDeepPath(w, routes, params, stream);
  }

  // ----- Cycles fail

  ghost predicate NeverRaises(w: World) {
    forall n, p, kwargs :: w.invoke(n, p, kwargs).Returned?
  }

  ghost predicate Complete(params: seq<ParamPlan>) {
    forall i :: 0 <= i < |params| && params[i].kind.Depends? ==> params[i].dependency.Some?
  }

  lemma {:induction false} ProvidersAreComplete(w: World, p: Provider)
    ensures Complete(w.Params(p))
  {
    forall i | 0 <= i < |w.Params(p)|
      ensures w.Params(p)[i].kind.Depends? ==> w.Params(p)[i].dependency.Some?
    {
      ScanKeepsKinds(w.signature(p));
      ScannedDependsIsComplete(w.signature(p), i);
    }
  }

  lemma {:induction false} ResolveOnlyExceedsDepth(w: World, dep: Dependency, chain: seq<Provider>, st: State)
    requires NeverRaises(w) && |chain| <= MAX_DEPTH
    ensures var r := Resolve(w, dep, chain, st).result;
            r.Err? ==> r.error.DepthExceeded?
    decreases MAX_DEPTH - |chain|, 0
  {
    var p := w.Effective(dep.callable);
    if |chain| < MAX_DEPTH && !(dep.useCache && p in st.cache) {
      ProvidersAreComplete(w, p);
      ParamsOnlyExceedDepth(w, w.Params(p), chain + [p], st, map[]);
    }
  }

  lemma {:induction false} ParamsOnlyExceedDepth(w: World, params: seq<ParamPlan>, chain: seq<Provider>, st: State,
                                                 args: map<string, Ref>)
    requires NeverRaises(w) && |chain| <= MAX_DEPTH && Complete(params)
    ensures var r := ResolveParams(w, params, chain, st, args).result;
            r.Err? ==> r.error.DepthExceeded?
    decreases MAX_DEPTH - |chain|, 1 + |params|
  {
    if params == [] {
    } else if !params[0].kind.Depends? {
      ParamsOnlyExceedDepth(w, params[1..], chain, st, args);
    } else {
      ResolveOnlyExceedsDepth(w, params[0].dependency.value, chain, st);
      var s := Resolve(w, params[0].dependency.value, chain, st);
      if s.result.Ok? {
        ParamsOnlyExceedDepth(w, params[1..], chain, s.state, args[params[0].name := s.result.value]);
      }
    }
  }

  lemma {:induction false} RoutesOnlyExceedDepth(w: World, routes: seq<Dependency>, st: State)
    requires NeverRaises(w)
    ensures var r := SolveRoutes(w, routes, st).result; r.Err? ==> r.error.DepthExceeded?
    decreases |routes|
  {
    if routes != [] {
      ResolveOnlyExceedsDepth(w, routes[0], [], st);
      RoutesOnlyExceedDepth(w, routes[1..], Resolve(w, routes[0], [], st).state);
    }
  }

  lemma {:induction false} PlanOnlyExceedsDepth(w: World, params: seq<ParamPlan>, stream: bool, st: State,
                                                call: HandlerCall)
    requires NeverRaises(w) && Complete(params)
    ensures var r := SolvePlan(w, params, stream, st, call).result; r.Err? ==> r.error.DepthExceeded?
    decreases |params|
  {
    if params == [] {
    } else if !params[0].kind.Depends? {
      PlanOnlyExceedsDepth(w, params[1..], stream, st, FillBuiltIn(params[0], stream, call));
    } else {
      ResolveOnlyExceedsDepth(w, params[0].dependency.value, [], st);
      var s := Resolve(w, params[0].dependency.value, [], st);
      if s.result.Ok? {
        PlanOnlyExceedsDepth(w, params[1..], stream, s.state, call.With(params[0].name, Resolved(s.result.value)));
      }
    }
  }

  predicate MissingNamed(params: seq<ParamPlan>, name: string) {
    exists i :: 0 <= i < |params| && params[i].kind.Depends? && params[i].dependency.None? && params[i].name == name
  }

  lemma {:induction false} MissingLater(params: seq<ParamPlan>, name: string)
    requires params != [] && MissingNamed(params[1..], name)
    ensures MissingNamed(params, name)
  {
    var i :| 0 <= i < |params[1..]| && params[1..][i].kind.Depends? && params[1..][i].dependency.None?
             && params[1..][i].name == name;
    assert params[i + 1].name == name;
  }

  lemma {:induction false} ResolveHasCallable(w: World, dep: Dependency, chain: seq<Provider>, st: State)
    requires |chain| <= MAX_DEPTH
    ensures var r := Resolve(w, dep, chain, st).result; !(r.Err? && r.error.NoCallable?)
    decreases MAX_DEPTH - |chain|, 0
  {
    var p := w.Effective(dep.callable);
    if |chain| < MAX_DEPTH && !(dep.useCache && p in st.cache) {
      ProvidersAreComplete(w, p);
      ParamsHaveCallables(w, w.Params(p), chain + [p], st, map[]);
    }
  }

  lemma {:induction false} ParamsHaveCallables(w: World, params: seq<ParamPlan>, chain: seq<Provider>, st: State,
                                               args: map<string, Ref>)
    requires |chain| <= MAX_DEPTH && Complete(params)
    ensures var r := ResolveParams(w, params, chain, st, args).result; !(r.Err? && r.error.NoCallable?)
    decreases MAX_DEPTH - |chain|, 1 + |params|
  {
    if params == [] {
    } else if !params[0].kind.Depends? {
      ParamsHaveCallables(w, params[1..], chain, st, args);
    } else {
      ResolveHasCallable(w, params[0].dependency.value, chain, st);
      var s := Resolve(w, params[0].dependency.value, chain, st);
      if s.result.Ok? {
        ParamsHaveCallables(w, params[1..], chain, s.state, args[params[0].name := s.result.value]);
      }
    }
  }

  lemma {:induction false} PlanNamesMissing(w: World, params: seq<ParamPlan>, stream: bool, st: State,
                                            call: HandlerCall)
    ensures var r := SolvePlan(w, params, stream, st, call).result;
            && (r.Ok? ==> Complete(params))
            && (r.Err? && r.error.NoCallable? ==> MissingNamed(params, r.error.name))
    decreases |params|
  {
    if params == [] {
    } else if !params[0].kind.Depends? {
      PlanNamesMissing(w, params[1..], stream, st, FillBuiltIn(params[0], stream, call));
      MissingHead(params, SolvePlan(w, params, stream, st, call).result);
    } else if params[0].dependency.None? {
      assert MissingNamed(params, params[0].name);
    } else {
      ResolveHasCallable(w, params[0].dependency.value, [], st);
      var s := Resolve(w, params[0].dependency.value, [], st);
      if s.result.Ok? {
        PlanNamesMissing(w, params[1..], stream, s.state, call.With(params[0].name, Resolved(s.result.value)));
        MissingHead(params, SolvePlan(w, params, stream, st, call).result);
      }
    }
  }

  lemma {:induction false} MissingHead(params: seq<ParamPlan>, r: Result<HandlerCall, SolveError>)
    requires params != [] && (params[0].kind.Depends? ==> params[0].dependency.Some?)
    requires r.Ok? ==> Complete(params[1..])
    requires r.Err? && r.error.NoCallable? ==> MissingNamed(params[1..], r.error.name)
    ensures r.Ok? ==> Complete(params)
    ensures r.Err? && r.error.NoCallable? ==> MissingNamed(params, r.error.name)
  {
    if r.Ok? {
      forall i | 0 <= i < |params| ensures params[i].kind.Depends? ==> params[i].dependency.Some? {
        assert i > 0 ==> params[i] == params[1..][i - 1];
      }
    } else if r.error.NoCallable? {
      MissingLater(params, r.error.name);
    }
  }

  /**
   A plan with a `Depends` parameter that has no callable is never solved, and
   the error that says so names such a parameter.
   */
  lemma {:induction false} MissingCallable(w: World, routes: seq<Dependency>, params: seq<ParamPlan>, stream: bool)
    ensures var r := Solve(w, routes, params, stream).result;
            && (r.Ok? ==> Complete(params))
            && (r.Err? && r.error.NoCallable? ==> MissingNamed(params, r.error.name))
  {
    RoutesHaveCallables(w, routes, EMPTY);
    PlanNamesMissing(w, params, stream, SolveRoutes(w, routes, EMPTY).state, NO_CALL);
  }

  lemma {:induction false} RoutesHaveCallables(w: World, routes: seq<Dependency>, st: State)
    ensures var r := SolveRoutes(w, routes, st).result; !(r.Err? && r.error.NoCallable?)
    decreases |routes|
  {
    if routes != [] {
      ResolveHasCallable(w, routes[0], [], st);
      RoutesHaveCallables(w, routes[1..], Resolve(w, routes[0], [], st).state);
    }
  }

  /**
   Whatever the `use_cache` flags, a request that can reach a cycle fails; if
   its providers return normally, it fails with the depth error.
   */
  lemma {:induction false} CycleFails(w: World, routes: seq<Dependency>, params: seq<ParamPlan>, stream: bool,
                                      path: seq<Provider>)
    requires IsPath(w, path) && path != [] && path[0] in Roots(w, routes, params)
    requires !Distinct(path)
    ensures var r := Solve(w, routes, params, stream).result;
            r.Err? && (NeverRaises(w) && Complete(params) ==> r.error.DepthExceeded?)
  {
    if Solve(w, routes, params, stream).result.Ok? {
      SuccessImpliesAcyclic(w, routes, params, stream, path);
    }
    if NeverRaises(w) && Complete(params) {
      RoutesOnlyExceedDepth(w, routes, EMPTY);
      PlanOnlyExceedsDepth(w, params, stream, SolveRoutes(w, routes, EMPTY).state, NO_CALL);
    }
  }
}
