/** How much a request does: every reachable provider, and nothing twice when everything is shared. */
module Work {
  import opened Scanner
  import opened Injection
  import opened Topology
  import opened Sharing

  // ----- One resolution per reference written in the source

  function DependsCount(params: seq<ParamPlan>): nat {
    if params == [] then 0
    else (if params[0].kind.Depends? then 1 else 0) + DependsCount(params[1..])
  }

  /** The `Depends` parameters of the providers called, once per call. */
  function CalledDepends(w: World, instances: seq<Instance>): nat {
    if instances == [] then 0
    else
      CalledDepends(w, instances[..|instances| - 1])
      + DependsCount(w.Params(instances[|instances| - 1].provider))
  }

  /** `resolved` references were resolved between the states, beside those for the parameters of new calls. */
  predicate Accounts(w: World, st: State, later: State, resolved: nat) {
    |later.references| + CalledDepends(w, st.instances)
    == |st.references| + resolved + CalledDepends(w, later.instances)
  }

  lemma {:induction false} ResolveAccounts(w: World, dep: Dependency, chain: seq<Provider>, st: State)
    requires |chain| <= MAX_DEPTH
    ensures var s := Resolve(w, dep, chain, st); s.result.Ok? ==> Accounts(w, st, s.state, 1)
    decreases MAX_DEPTH - |chain|, 0
  {
    var p := w.Effective(dep.callable);
    if |chain| < MAX_DEPTH && !(dep.useCache && p in st.cache) {
      ParamsAccount(w, w.Params(p), chain + [p], st, map[]);
      var s := ResolveParams(w, w.Params(p), chain + [p], st, map[]);
      if s.result.Ok? {
        var t := CallAndRemember(w, p, dep.useCache, s.result.value, s.state);
        if t.result.Ok? {
          assert t.state.instances[..|s.state.instances|] == s.state.instances;
        }
      }
    }
  }

  lemma {:induction false} ParamsAccount(w: World, params: seq<ParamPlan>, chain: seq<Provider>, st: State,
                                         args: map<string, Ref>)
    requires |chain| <= MAX_DEPTH
    ensures var s := ResolveParams(w, params, chain, st, args);
            s.result.Ok? ==> Accounts(w, st, s.state, DependsCount(params))
    decreases MAX_DEPTH - |chain|, 1 + |params|
  {
    if params == [] {
    } else if !params[0].kind.Depends? {
      ParamsAccount(w, params[1..], chain, st, args);
    } else if params[0].dependency.Some? {
      ResolveAccounts(w, params[0].dependency.value, chain, st);
      var s := Resolve(w, params[0].dependency.value, chain, st);
      if s.result.Ok? {
        ParamsAccount(w, params[1..], chain, s.state, args[params[0].name := s.result.value]);
      }
    }
  }

  lemma {:induction false} RoutesAccount(w: World, routes: seq<Dependency>, st: State)
    ensures var s := SolveRoutes(w, routes, st); s.result.Ok? ==> Accounts(w, st, s.state, |routes|)
    decreases |routes|
  {
    if routes != [] {
      ResolveAccounts(w, routes[0], [], st);
      RoutesAccount(w, routes[1..], Resolve(w, routes[0], [], st).state);
    }
  }

  lemma {:induction false} PlanAccounts(w: World, params: seq<ParamPlan>, stream: bool, st: State, call: HandlerCall)
    ensures var s := SolvePlan(w, params, stream, st, call);
            s.result.Ok? ==> Accounts(w, st, s.state, DependsCount(params))
    decreases |params|
  {
    if params == [] {
    } else if !params[0].kind.Depends? {
      PlanAccounts(w, params[1..], stream, st, FillBuiltIn(params[0], stream, call));
    } else if params[0].dependency.Some? {
      ResolveAccounts(w, params[0].dependency.value, [], st);
      var s := Resolve(w, params[0].dependency.value, [], st);
      if s.result.Ok? {
        PlanAccounts(w, params[1..], stream, s.state, call.With(params[0].name, Resolved(s.result.value)));
      }
    }
  }

  /** A solved request resolved each root reference once, and each `Depends` parameter once per call of its provider. */
  lemma {:induction false} ResolutionsAccounted(w: World, routes: seq<Dependency>, params: seq<ParamPlan>, stream: bool)
    ensures var s := Solve(w, routes, params, stream);
            s.result.Ok? ==>
              |s.state.references| == |routes| + DependsCount(params) + CalledDepends(w, s.state.instances)
  {
    RoutesAccount(w, routes, EMPTY);
    PlanAccounts(w, params, stream, SolveRoutes(w, routes, EMPTY).state, NO_CALL);
  }

  // ----- The providers called are the reachable ones

  lemma {:induction false} RoutesReach(w: World, routes: seq<Dependency>, st: State, roots: set<Provider>)
    requires Grounded(w, st)
    requires forall i :: 0 <= i < |routes| ==> w.Effective(routes[i].callable) in roots
    ensures var s := SolveRoutes(w, routes, st);
            st.instances <= s.state.instances && NewCallsReached(w, roots, st, s.state)
    decreases |routes|
  {
    if routes != [] {
      ResolveGrounds(w, routes[0], [], st);
      ResolveReaches(w, routes[0], [], st);
      var s := Resolve(w, routes[0], [], st);
      WiderSources(w, {w.Effective(routes[0].callable)}, roots, st, s.state);
      RoutesReach(w, routes[1..], s.state, roots);
    }
  }

  lemma {:induction false} PlanReaches(w: World, params: seq<ParamPlan>, stream: bool, st: State, call: HandlerCall,
                                       roots: set<Provider>)
    requires Grounded(w, st) && Needs(w, params) <= roots
    ensures var s := SolvePlan(w, params, stream, st, call);
            st.instances <= s.state.instances && NewCallsReached(w, roots, st, s.state)
    decreases |params|
  {
    if params == [] {
    } else if !params[0].kind.Depends? {
      PlanReaches(w, params[1..], stream, st, FillBuiltIn(params[0], stream, call), roots);
    } else if params[0].dependency.Some? {
      var dep := params[0].dependency.value;
      ResolveGrounds(w, dep, [], st);
      ResolveReaches(w, dep, [], st);
      var s := Resolve(w, dep, [], st);
      WiderSources(w, {w.Effective(dep.callable)}, roots, st, s.state);
      if s.result.Ok? {
        PlanReaches(w, params[1..], stream, s.state, call.With(params[0].name, Resolved(s.result.value)), roots);
      }
    }
  }

  /** Only reachable providers are ever called; a solved request has called all of them. */
  lemma {:induction false} CalledIffReachable(w: World, routes: seq<Dependency>, params: seq<ParamPlan>, stream: bool,
                                              p: Provider)
    ensures var s := Solve(w, routes, params, stream);
            && (Completed(s.state.instances, p) ==> ReachedFrom(w, Roots(w, routes, params), p))
            && (s.result.Ok? && ReachedFrom(w, Roots(w, routes, params), p) ==> Completed(s.state.instances, p))
  {
    var roots, r, s := Roots(w, routes, params), SolveRoutes(w, routes, EMPTY), Solve(w, routes, params, stream);
    RoutesGround(w, routes, EMPTY);
    RoutesReach(w, routes, EMPTY, roots);
    PlanReaches(w, params, stream, r.state, NO_CALL, roots);
    if Completed(s.state.instances, p) {
      var k :| 0 <= k < |s.state.instances| && s.state.instances[k].provider == p;
      if k < |r.state.instances| {
        assert ReachedFrom(w, roots, r.state.instances[k].provider);
      }
    }
    if s.result.Ok? && ReachedFrom(w, roots, p) {
      var q :| q in roots && Reaches(w, q, p);
      var path :| PathBetween(w, path, q, p);
      SuccessImpliesAcyclic(w, routes, params, stream, path);
      assert Completed(s.state.instances, path[|path| - 1]);
    }
  }

  // ----- Everything shared

  predicate SharedOnly(params: seq<ParamPlan>) {
    forall i :: 0 <= i < |params| && params[i].kind.Depends? && params[i].dependency.Some? ==>
                  params[i].dependency.value.useCache
  }

  ghost predicate AllShared(instances: seq<Instance>) {
    forall k :: 0 <= k < |instances| ==> instances[k].shared
  }

  /** Where every reachable reference is shared, every call is made for shared references. */
  ghost predicate SharedBelow(w: World, p: Provider) {
    forall q :: Reaches(w, p, q) ==> SharedOnly(w.Params(q))
  }

  lemma {:induction false} SharedBelowNext(w: World, p: Provider, q: Provider)
    requires SharedBelow(w, p) && Edge(w, p, q)
    ensures SharedBelow(w, q)
  {
    forall r | Reaches(w, q, r) ensures SharedOnly(w.Params(r)) {
      assert ReachedFrom(w, Needs(w, w.Params(p)), r);
      ReachesOneMore(w, p, r);
    }
  }

  lemma {:induction false} ResolveSharedOnly(w: World, dep: Dependency, chain: seq<Provider>, st: State)
    requires |chain| <= MAX_DEPTH && AllShared(st.instances)
    requires dep.useCache && SharedBelow(w, w.Effective(dep.callable))
    ensures AllShared(Resolve(w, dep, chain, st).state.instances)
    decreases MAX_DEPTH - |chain|, 0
  {
    var p := w.Effective(dep.callable);
    if |chain| < MAX_DEPTH && !(dep.useCache && p in st.cache) {
      ReachesSelf(w, p);
      forall q | q in Needs(w, w.Params(p)) ensures SharedBelow(w, q) {
        SharedBelowNext(w, p, q);
      }
      ParamsSharedOnly(w, w.Params(p), chain + [p], st, map[]);
    }
  }

  lemma {:induction false} ParamsSharedOnly(w: World, params: seq<ParamPlan>, chain: seq<Provider>, st: State,
                                            args: map<string, Ref>)
    requires |chain| <= MAX_DEPTH && AllShared(st.instances)
    requires SharedOnly(params) && forall q :: q in Needs(w, params) ==> SharedBelow(w, q)
    ensures AllShared(ResolveParams(w, params, chain, st, args).state.instances)
    decreases MAX_DEPTH - |chain|, 1 + |params|
  {
    if params == [] {
    } else if !params[0].kind.Depends? {
      ParamsSharedOnly(w, params[1..], chain, st, args);
    } else if params[0].dependency.Some? {
      ResolveSharedOnly(w, params[0].dependency.value, chain, st);
      var s := Resolve(w, params[0].dependency.value, chain, st);
      if s.result.Ok? {
        ParamsSharedOnly(w, params[1..], chain, s.state, args[params[0].name := s.result.value]);
      }
    }
  }

  lemma {:induction false} RoutesSharedOnly(w: World, routes: seq<Dependency>, st: State)
    requires AllShared(st.instances)
    requires forall i :: 0 <= i < |routes| ==> routes[i].useCache && SharedBelow(w, w.Effective(routes[i].callable))
    ensures AllShared(SolveRoutes(w, routes, st).state.instances)
    decreases |routes|
  {
    if routes != [] {
      ResolveSharedOnly(w, routes[0], [], st);
      RoutesSharedOnly(w, routes[1..], Resolve(w, routes[0], [], st).state);
    }
  }

  lemma {:induction false} PlanSharedOnly(w: World, params: seq<ParamPlan>, stream: bool, st: State, call: HandlerCall)
    requires AllShared(st.instances)
    requires SharedOnly(params) && forall q :: q in Needs(w, params) ==> SharedBelow(w, q)
    ensures AllShared(SolvePlan(w, params, stream, st, call).state.instances)
    decreases |params|
  {
    if params == [] {
    } else if !params[0].kind.Depends? {
      PlanSharedOnly(w, params[1..], stream, st, FillBuiltIn(params[0], stream, call));
    } else if params[0].dependency.Some? {
      ResolveSharedOnly(w, params[0].dependency.value, [], st);
      var s := Resolve(w, params[0].dependency.value, [], st);
      if s.result.Ok? {
        PlanSharedOnly(w, params[1..], stream, s.state, call.With(params[0].name, Resolved(s.result.value)));
      }
    }
  }

  lemma {:induction false} NoFreshCalls(st: State, n: nat, p: Provider)
    requires Ledger(st) && AllShared(st.instances) && n <= |st.references|
    ensures FreshReferences(st.references[..n], p) == 0
  {
    if n > 0 {
      assert st.references[..n][..n - 1] == st.references[..n - 1];
      assert Settled(st, st.references[n - 1]);
      NoFreshCalls(st, n - 1, p);
    }
  }

  // ----- The sum over a set of providers

  ghost function SumDepends(w: World, providers: set<Provider>): nat {
    if providers == {} then 0
    else
      var p :| p in providers;
      DependsCount(w.Params(p)) + SumDepends(w, providers - {p})
  }

  lemma {:induction false} SumWithout(w: World, providers: set<Provider>, p: Provider)
    requires p in providers
    ensures SumDepends(w, providers) == DependsCount(w.Params(p)) + SumDepends(w, providers - {p})
    decreases |providers|
  {
    var q :| q in providers
             && SumDepends(w, providers) == DependsCount(w.Params(q)) + SumDepends(w, providers - {q});
    if q != p {
      SumWithout(w, providers - {q}, p);
      SumWithout(w, providers - {p}, q);
      assert providers - {q} - {p} == providers - {p} - {q};
    }
  }

  function ProvidersCalled(instances: seq<Instance>): set<Provider> {
    set k | 0 <= k < |instances| :: instances[k].provider
  }

  lemma {:induction false} LastCalled(instances: seq<Instance>)
    requires instances != []
    requires forall i, j :: 0 <= i < j < |instances| ==> instances[i].provider != instances[j].provider
    ensures var init, last := instances[..|instances| - 1], instances[|instances| - 1].provider;
            last in ProvidersCalled(instances) && ProvidersCalled(instances) - {last} == ProvidersCalled(init)
  {
    var n := |instances| - 1;
    var init, last := instances[..n], instances[n].provider;
    forall p ensures p in ProvidersCalled(init) <==> p in ProvidersCalled(instances) && p != last {
      if p in ProvidersCalled(init) {
        var k :| 0 <= k < n && init[k].provider == p;
        assert instances[k].provider == p;
      }
      if p in ProvidersCalled(instances) && p != last {
        var k :| 0 <= k <= n && instances[k].provider == p;
        assert init[k].provider == p;
      }
    }
  }

  lemma {:induction false} CalledOnceSum(w: World, instances: seq<Instance>)
    requires forall i, j :: 0 <= i < j < |instances| ==> instances[i].provider != instances[j].provider
    ensures CalledDepends(w, instances) == SumDepends(w, ProvidersCalled(instances))
    decreases |instances|
  {
    if instances != [] {
      CalledOnceSum(w, instances[..|instances| - 1]);
      LastCalled(instances);
      SumWithout(w, ProvidersCalled(instances), instances[|instances| - 1].provider);
    }
  }

  lemma {:induction false} SharedCallsAreOnce(st: State, i: nat, j: nat)
    requires Ledger(st) && AllShared(st.instances) && i < j < |st.instances|
    ensures st.instances[i].provider != st.instances[j].provider
  {
    assert st.instances[i].shared && st.instances[j].shared;
  }

  lemma {:induction false} RequestIsShared(w: World, routes: seq<Dependency>, params: seq<ParamPlan>, stream: bool)
    requires forall i :: 0 <= i < |routes| ==> routes[i].useCache
    requires SharedOnly(params)
    requires forall q :: ReachedFrom(w, Roots(w, routes, params), q) ==> SharedOnly(w.Params(q))
    ensures AllShared(Solve(w, routes, params, stream).state.instances)
  {
    var roots := Roots(w, routes, params);
    forall q | q in roots ensures SharedBelow(w, q) {
      forall r | Reaches(w, q, r) ensures SharedOnly(w.Params(r)) {
        assert ReachedFrom(w, roots, r);
      }
    }
    RoutesSharedOnly(w, routes, EMPTY);
    PlanSharedOnly(w, params, stream, SolveRoutes(w, routes, EMPTY).state, NO_CALL);
  }

  /**
   When every reference is shared and `solve` returns: each reachable provider
   is called exactly once, after everything it depends on, nothing else is
   called, and a reference is resolved once for each root and once for each
   `Depends` parameter of each reachable provider.
   */
  lemma {:induction false} SharedRequestWork(w: World, routes: seq<Dependency>, params: seq<ParamPlan>, stream: bool)
    returns (reachable: set<Provider>)
    requires Solve(w, routes, params, stream).result.Ok?
    requires forall i :: 0 <= i < |routes| ==> routes[i].useCache
    requires SharedOnly(params)
    requires forall q :: ReachedFrom(w, Roots(w, routes, params), q) ==> SharedOnly(w.Params(q))
    ensures forall p :: p in reachable <==> ReachedFrom(w, Roots(w, routes, params), p)
    ensures var s := Solve(w, routes, params, stream).state;
            && (forall p :: Calls(s.instances, p) == if p in reachable then 1 else 0)
            && (forall k :: 0 <= k < |s.instances| ==> Ordered(w, s.instances, k))
            && |s.references| == |routes| + DependsCount(params) + SumDepends(w, reachable)
  {
    var s := Solve(w, routes, params, stream).state;
    reachable := ProvidersCalled(s.instances);
    SolveGrounds(w, routes, params, stream);
    SolveKeepsLedger(w, routes, params, stream);
    ResolutionsAccounted(w, routes, params, stream);
    RequestIsShared(w, routes, params, stream);
    forall p
      ensures p in reachable <==> ReachedFrom(w, Roots(w, routes, params), p)
      ensures Calls(s.instances, p) == if p in reachable then 1 else 0
    {
      CalledIffReachable(w, routes, params, stream, p);
      assert p in reachable <==> Completed(s.instances, p);
      SharedCalls(s, p);
    }
    forall i, j | 0 <= i < j < |s.instances| ensures s.instances[i].provider != s.instances[j].provider {
      SharedCallsAreOnce(s, i, j);
    }
    CalledOnceSum(w, s.instances);
  }

  lemma {:induction false} SharedCalls(st: State, p: Provider)
    requires Ledger(st) && AllShared(st.instances)
    ensures Calls(st.instances, p) == if Completed(st.instances, p) then 1 else 0
  {
    NoFreshCalls(st, |st.references|, p);
    assert st.references[..|st.references|] == st.references;
    if Completed(st.instances, p) {
      var k :| 0 <= k < |st.instances| && st.instances[k].provider == p;
      assert st.instances[k].shared;
    }
  }
}
