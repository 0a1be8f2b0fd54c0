/**
 `dependency_overrides`: which provider stands in for which, and that they act
 like rewriting the graph once, before the request.
 */
module Overrides {
  import opened Wrappers
  import opened Scanner
  import opened Injection
  import opened Topology
  import opened Sharing
  import opened Work

  function SubstituteDependency(w: World, dep: Dependency): Dependency {
    dep.(callable := w.Effective(dep.callable))
  }

  function SubstituteDefault(w: World, d: Default): Default {
    if d.Marker? then Marker(SubstituteDependency(w, d.dependency)) else d
  }

  function SubstituteSignature(w: World, sig: seq<Parameter>): (r: seq<Parameter>)
    ensures |r| == |sig|
    ensures forall i :: 0 <= i < |sig| ==> r[i] == sig[i].(default := SubstituteDefault(w, sig[i].default))
  {
    seq(|sig|, i requires 0 <= i < |sig| => sig[i].(default := SubstituteDefault(w, sig[i].default)))
  }

  function SubstitutePlan(w: World, plan: ParamPlan): ParamPlan {
    if plan.dependency.Some? then plan.(dependency := Some(SubstituteDependency(w, plan.dependency.value))) else plan
  }

  function SubstitutePlans(w: World, params: seq<ParamPlan>): (r: seq<ParamPlan>)
    ensures |r| == |params|
    ensures forall i :: 0 <= i < |params| ==> r[i] == SubstitutePlan(w, params[i])
  {
    seq(|params|, i requires 0 <= i < |params| => SubstitutePlan(w, params[i]))
  }

  function SubstituteRoutes(w: World, routes: seq<Dependency>): (r: seq<Dependency>)
    ensures |r| == |routes|
    ensures forall i :: 0 <= i < |routes| ==> r[i] == SubstituteDependency(w, routes[i])
  {
    seq(|routes|, i requires 0 <= i < |routes| => SubstituteDependency(w, routes[i]))
  }

  /** The world with no overrides, in which every signature names the overriding callables itself. */
  function Substituted(w: World): World {
    w.(overrides := map[], signature := p => SubstituteSignature(w, w.signature(p)))
  }

  // ----- Scanning a rewritten signature gives the rewritten plan

  lemma {:induction false} SameCounts(w: World, sig: seq<Parameter>)
    ensures BareCount(SubstituteSignature(w, sig)) == BareCount(sig)
    ensures HasKind(SubstituteSignature(w, sig), Intent) == HasKind(sig, Intent)
    ensures HasKind(SubstituteSignature(w, sig), Context) == HasKind(sig, Context)
    decreases |sig|
  {
    if sig != [] {
      var init := sig[..|sig| - 1];
      assert SubstituteSignature(w, sig)[..|sig| - 1] == SubstituteSignature(w, init);
      SameCounts(w, init);
    }
  }

  lemma {:induction false} ScanSubstitutes(w: World, p: Provider)
    ensures Substituted(w).Params(p) == SubstitutePlans(w, w.Params(p))
  {
    var sig := w.signature(p);
    SameCounts(w, sig);
    assert NeedsFallback(SubstituteSignature(w, sig)) == NeedsFallback(sig);
    forall i | 0 <= i < |sig|
      ensures Substituted(w).Params(p)[i] == SubstitutePlan(w, w.Params(p)[i])
    {
      assert Classify(SubstituteSignature(w, sig)[i], i) == SubstitutePlan(w, Classify(sig[i], i));
    }
    assert Substituted(w).Params(p) == SubstitutePlans(w, w.Params(p));
  }

  // ----- Solving commutes with rewriting

  lemma {:induction false} ResolveSubstitutes(w: World, dep: Dependency, chain: seq<Provider>, st: State)
    requires |chain| <= MAX_DEPTH
    ensures Resolve(Substituted(w), SubstituteDependency(w, dep), chain, st) == Resolve(w, dep, chain, st)
    decreases MAX_DEPTH - |chain|, 0
  {
    var p := w.Effective(dep.callable);
    assert Substituted(w).Labels(chain + [p]) == w.Labels(chain + [p]);
    if |chain| < MAX_DEPTH && !(dep.useCache && p in st.cache) {
      ScanSubstitutes(w, p);
      ParamsSubstitute(w, w.Params(p), chain + [p], st, map[]);
    }
  }

  lemma {:induction false} ParamsSubstitute(w: World, params: seq<ParamPlan>, chain: seq<Provider>, st: State,
                                            args: map<string, Ref>)
    requires |chain| <= MAX_DEPTH
    ensures ResolveParams(Substituted(w), SubstitutePlans(w, params), chain, st, args)
         == ResolveParams(w, params, chain, st, args)
    decreases MAX_DEPTH - |chain|, 1 + |params|
  {
    if params != [] {
      assert SubstitutePlans(w, params)[1..] == SubstitutePlans(w, params[1..]);
      if !params[0].kind.Depends? {
        ParamsSubstitute(w, params[1..], chain, st, args);
      } else if params[0].dependency.Some? {
        ResolveSubstitutes(w, params[0].dependency.value, chain, st);
        var s := Resolve(w, params[0].dependency.value, chain, st);
        if s.result.Ok? {
          ParamsSubstitute(w, params[1..], chain, s.state, args[params[0].name := s.result.value]);
        }
      }
    }
  }

  lemma {:induction false} RoutesSubstitute(w: World, routes: seq<Dependency>, st: State)
    ensures SolveRoutes(Substituted(w), SubstituteRoutes(w, routes), st) == SolveRoutes(w, routes, st)
    decreases |routes|
  {
    if routes != [] {
      assert SubstituteRoutes(w, routes)[1..] == SubstituteRoutes(w, routes[1..]);
      ResolveSubstitutes(w, routes[0], [], st);
      RoutesSubstitute(w, routes[1..], Resolve(w, routes[0], [], st).state);
    }
  }

  lemma {:induction false} PlanSubstitutes(w: World, params: seq<ParamPlan>, stream: bool, st: State, call: HandlerCall)
    ensures SolvePlan(Substituted(w), SubstitutePlans(w, params), stream, st, call)
         == SolvePlan(w, params, stream, st, call)
    decreases |params|
  {
    if params != [] {
      assert SubstitutePlans(w, params)[1..] == SubstitutePlans(w, params[1..]);
      if !params[0].kind.Depends? {
        assert FillBuiltIn(SubstitutePlan(w, params[0]), stream, call) == FillBuiltIn(params[0], stream, call);
        PlanSubstitutes(w, params[1..], stream, st, FillBuiltIn(params[0], stream, call));
      } else if params[0].dependency.Some? {
        ResolveSubstitutes(w, params[0].dependency.value, [], st);
        var s := Resolve(w, params[0].dependency.value, [], st);
        if s.result.Ok? {
          PlanSubstitutes(w, params[1..], stream, s.state, call.With(params[0].name, Resolved(s.result.value)));
        }
      }
    }
  }

  /**
   Solving under overrides gives the same call, calls, exit stack, references
   and error as solving without any overrides the graph in which each callable
   was replaced by one lookup.
   */
  lemma {:induction false} OverridesCommute(w: World, routes: seq<Dependency>, params: seq<ParamPlan>, stream: bool)
    ensures Solve(w, routes, params, stream)
         == Solve(Substituted(w), SubstituteRoutes(w, routes), SubstitutePlans(w, params), stream)
  {
    RoutesSubstitute(w, routes, EMPTY);
    PlanSubstitutes(w, params, stream, SolveRoutes(w, routes, EMPTY).state, NO_CALL);
  }

  // ----- Who is called for whom

  /** p is what the override map gives for the callable, or the callable itself if the map has nothing for it. */
  predicate StandsFor(w: World, callable: Provider, p: Provider) {
    if callable in w.overrides then p == w.overrides[callable] else p == callable
  }

  /** The reference got an object of its stand-in, made for references of its kind. */
  predicate MadeFor(w: World, dep: Dependency, instances: seq<Instance>, r: Ref) {
    && r < |instances| && StandsFor(w, dep.callable, instances[r].provider)
    && instances[r].shared == dep.useCache
  }

  lemma {:induction false} RecordedIsMade(w: World, dep: Dependency, st: State, r: Ref)
    requires Ledger(st) && ReferenceTo(w, dep, r) in st.references
    ensures MadeFor(w, dep, st.instances, r)
  {
    var i :| 0 <= i < |st.references| && st.references[i] == ReferenceTo(w, dep, r);
    assert Settled(st, st.references[i]);
  }

  ghost predicate Referenced(w: World, dep: Dependency, st: State) {
    exists r :: ReferenceTo(w, dep, r) in st.references
  }

  lemma {:induction false} RoutesReferenced(w: World, routes: seq<Dependency>, st: State)
    requires WellNamed(w) && Delivered(w, st)
    ensures var s := SolveRoutes(w, routes, st);
            && Delivered(w, s.state) && st.references <= s.state.references
            && (s.result.Ok? ==> forall i :: 0 <= i < |routes| ==> Referenced(w, routes[i], s.state))
    decreases |routes|
  {
    if routes != [] {
      ResolveDelivers(w, routes[0], [], st);
      var s := Resolve(w, routes[0], [], st);
      if s.result.Ok? {
        RoutesReferenced(w, routes[1..], s.state);
        var t := SolveRoutes(w, routes[1..], s.state);
        if t.result.Ok? {
          ReferencedStays(w, routes[0], s.state, t.state, s.result.value);
          forall i | 0 <= i < |routes| ensures Referenced(w, routes[i], t.state) {
            if i > 0 {
              assert routes[i] == routes[1..][i - 1];
            }
          }
        }
      }
    }
  }

  lemma {:induction false} ReferencedStays(w: World, dep: Dependency, st: State, later: State, r: Ref)
    requires ReferenceTo(w, dep, r) in st.references && st.references <= later.references
    ensures Referenced(w, dep, later)
  {
    assert ReferenceTo(w, dep, r) in later.references;
  }

  lemma {:induction false} RoutesMade(w: World, routes: seq<Dependency>, params: seq<ParamPlan>, stream: bool, i: nat)
    requires WellNamed(w) && DistinctNames(params) && i < |routes| && Solve(w, routes, params, stream).result.Ok?
    ensures exists r :: MadeFor(w, routes[i], Solve(w, routes, params, stream).state.instances, r)
  {
    var s, st := SolveRoutes(w, routes, EMPTY), Solve(w, routes, params, stream).state;
    RoutesReferenced(w, routes, EMPTY);
    PlanDelivers(w, params, stream, s.state, NO_CALL);
    SolveKeepsLedger(w, routes, params, stream);
    var r :| ReferenceTo(w, routes[i], r) in s.state.references;
    assert ReferenceTo(w, routes[i], r) in st.references;
    RecordedIsMade(w, routes[i], st, r);
  }

  /**
   In a solved request, every reference written in the source, by callable,
   got an object of the provider the override map names for that callable, or
   of the callable itself if the map does not have it: those of the route,
   those of the handler's parameters, and those in the signature of every
   provider called.
   */
  lemma {:induction false} OverridesApply(w: World, routes: seq<Dependency>, params: seq<ParamPlan>, stream: bool,
                                          i: nat, k: nat)
    requires WellNamed(w) && DistinctNames(params) && Solve(w, routes, params, stream).result.Ok?
    ensures var s := Solve(w, routes, params, stream);
            var made, kwargs := s.state.instances, s.result.value.kwargs;
            && (i < |routes| ==> exists r :: MadeFor(w, routes[i], made, r))
            && (i < |params| && params[i].kind.Depends? && params[i].dependency.Some? ==>
                  && params[i].name in kwargs && kwargs[params[i].name].Resolved?
                  && MadeFor(w, params[i].dependency.value, made, kwargs[params[i].name].ref))
            && (k < |made| ==> var sig := w.signature(made[k].provider);
                  i < |sig| && sig[i].default.Marker? ==>
                    && sig[i].name in made[k].args
                    && MadeFor(w, sig[i].default.dependency, made, made[k].args[sig[i].name]))
  {
    var s := Solve(w, routes, params, stream);
    SolveKeepsLedger(w, routes, params, stream);
    ReferencesAreDelivered(w, routes, params, stream);
    if i < |routes| {
      RoutesMade(w, routes, params, stream, i);
    }
    if i < |params| && params[i].kind.Depends? && params[i].dependency.Some? {
      RecordedIsMade(w, params[i].dependency.value, s.state, Dependencies(s.result.value)[params[i].name]);
    }
    if k < |s.state.instances| {
      ProviderArgumentMade(w, s.state, k, i);
    }
  }

  lemma {:induction false} ProviderArgumentMade(w: World, st: State, k: nat, i: nat)
    requires Ledger(st) && AllSupplied(w, st) && k < |st.instances|
    ensures var sig := w.signature(st.instances[k].provider);
            i < |sig| && sig[i].default.Marker? ==>
              && sig[i].name in st.instances[k].args
              && MadeFor(w, sig[i].default.dependency, st.instances, st.instances[k].args[sig[i].name])
  {
    var p := st.instances[k].provider;
    var sig := w.signature(p);
    if i < |sig| && sig[i].default.Marker? {
      ScanKeepsKinds(sig);
      assert w.Params(p)[i].kind.Depends? && w.Params(p)[i].dependency == Some(sig[i].default.dependency);
      assert Supplied(w, w.Params(p), st.instances[k].args, st.references);
      RecordedIsMade(w, sig[i].default.dependency, st, st.instances[k].args[sig[i].name]);
    }
  }

  // ----- Who is never called

  ghost predicate IsStandIn(w: World, p: Provider) {
    exists callable :: StandsFor(w, callable, p)
  }

  lemma {:induction false} NeedsStandIns(w: World, params: seq<ParamPlan>, q: Provider)
    requires q in Needs(w, params)
    ensures IsStandIn(w, q)
    decreases |params|
  {
    if q in Needs(w, params[1..]) {
      NeedsStandIns(w, params[1..], q);
    } else {
      assert StandsFor(w, params[0].dependency.value.callable, q);
    }
  }

  lemma {:induction false} ReachedIsStandIn(w: World, path: seq<Provider>, p: Provider, q: Provider)
    requires PathBetween(w, path, p, q) && IsStandIn(w, p)
    ensures IsStandIn(w, q)
  {
    if |path| > 1 {
      assert Edge(w, path[|path| - 2], path[|path| - 1]);
      NeedsStandIns(w, w.Params(path[|path| - 2]), q);
    }
  }

  lemma {:induction false} RootsAreStandIns(w: World, routes: seq<Dependency>, params: seq<ParamPlan>, p: Provider)
    requires p in Roots(w, routes, params)
    ensures IsStandIn(w, p)
  {
    if p in Needs(w, params) {
      NeedsStandIns(w, params, p);
    } else {
      var i :| 0 <= i < |routes| && p == w.Effective(routes[i].callable);
      assert StandsFor(w, routes[i].callable, p);
    }
  }

  /** In any run, an overridden callable is called only if the map also names it as a stand-in. */
  lemma {:induction false} OverriddenIsNotCalled(w: World, routes: seq<Dependency>, params: seq<ParamPlan>,
                                                 stream: bool, k: nat)
    requires k < |Solve(w, routes, params, stream).state.instances|
    ensures var p := Solve(w, routes, params, stream).state.instances[k].provider;
            p in w.overrides ==> exists callable :: callable in w.overrides && w.overrides[callable] == p
  {
    var st := Solve(w, routes, params, stream).state;
    var p := st.instances[k].provider;
    assert Completed(st.instances, p);
    CalledIffReachable(w, routes, params, stream, p);
    var root :| root in Roots(w, routes, params) && Reaches(w, root, p);
    var path :| PathBetween(w, path, root, p);
    RootsAreStandIns(w, routes, params, root);
    ReachedIsStandIn(w, path, root, p);
    var callable :| StandsFor(w, callable, p);
  }

  // ----- A stand-in that is overridden itself

  /** Provider 0 is overridden by 1, and 1 by 2; none needs anything. */
  const CHAINED := World(
    (p: Provider) => [],
    (p: Provider) => "provider",
    (p: Provider) => false,
    (n: nat, p: Provider, kwargs: map<string, Object>) => Returned(Object(p.id)),
    map[Provider(0) := Provider(1), Provider(1) := Provider(2)])

  /** A reference to the first calls the second: the map is looked up once. */
  lemma {:induction false} OverridesAreNotFollowed()
    ensures var s := Solve(CHAINED, [Dependency(Provider(0), true)], [], false);
            s.result.Ok? && |s.state.instances| == 1 && s.state.instances[0].provider == Provider(1)
  {
    var dep := Dependency(Provider(0), true);
    assert CHAINED.Params(Provider(1)) == [];
    var s := Resolve(CHAINED, dep, [], EMPTY);
    assert s == CallAndRemember(CHAINED, Provider(1), true, map[], EMPTY);
    assert [dep][1..] == [];
    assert SolveRoutes(CHAINED, [dep], EMPTY) == Step(s.state, Ok(()));
  }
}
