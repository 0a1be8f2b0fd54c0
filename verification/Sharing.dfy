/** Who gets which object: sharing, freshness, and how much work a request does. */
module Sharing {
  import opened Wrappers
  import opened Scanner
  import opened Injection
  import opened Topology

  // ----- Calls made while resolving a reference are to providers it can reach

  /** Every call between the two states went to something reachable from one of `sources`. */
  ghost predicate NewCallsReached(w: World, sources: set<Provider>, st: State, later: State)
    requires st.instances <= later.instances
  {
    forall k :: |st.instances| <= k < |later.instances| ==> ReachedFrom(w, sources, later.instances[k].provider)
  }

  ghost predicate ReachedFrom(w: World, sources: set<Provider>, p: Provider) {
    exists q :: q in sources && Reaches(w, q, p)
  }

  lemma {:induction false} ReachesSelf(w: World, p: Provider)
    ensures Reaches(w, p, p)
  {
    assert PathBetween(w, [p], p, p);
  }

  lemma {:induction false} ReachesOneMore(w: World, p: Provider, r: Provider)
    requires ReachedFrom(w, Needs(w, w.Params(p)), r)
    ensures Reaches(w, p, r)
  {
    var q :| q in Needs(w, w.Params(p)) && Reaches(w, q, r);
    var path :| PathBetween(w, path, q, r);
    assert PathBetween(w, [p] + path, p, r);
  }

  lemma {:induction false} ResolveReaches(w: World, dep: Dependency, chain: seq<Provider>, st: State)
    requires |chain| <= MAX_DEPTH && Grounded(w, st)
    ensures var s := Resolve(w, dep, chain, st);
            st.instances <= s.state.instances && NewCallsReached(w, {w.Effective(dep.callable)}, st, s.state)
    decreases MAX_DEPTH - |chain|, 0
  {
    var p := w.Effective(dep.callable);
    ResolveGrounds(w, dep, chain, st);
    if |chain| < MAX_DEPTH && !(dep.useCache && p in st.cache) {
      ParamsReach(w, w.Params(p), chain + [p], st, map[]);
      var s := ResolveParams(w, w.Params(p), chain + [p], st, map[]);
      forall k | |st.instances| <= k < |s.state.instances|
        ensures ReachedFrom(w, {p}, s.state.instances[k].provider)
      {
        ReachesOneMore(w, p, s.state.instances[k].provider);
      }
      ReachesSelf(w, p);
      assert ReachedFrom(w, {p}, p);
    }
  }

  lemma {:induction false} ParamsReach(w: World, params: seq<ParamPlan>, chain: seq<Provider>, st: State,
                                       args: map<string, Ref>)
    requires |chain| <= MAX_DEPTH && Grounded(w, st) && (forall n :: n in args ==> args[n] < |st.instances|)
    ensures var s := ResolveParams(w, params, chain, st, args);
            st.instances <= s.state.instances && NewCallsReached(w, Needs(w, params), st, s.state)
    decreases MAX_DEPTH - |chain|, 1 + |params|
  {
    ParamsGround(w, params, chain, st, args);
    if params == [] {
    } else if !params[0].kind.Depends? {
      ParamsReach(w, params[1..], chain, st, args);
    } else if params[0].dependency.Some? {
      var dep := params[0].dependency.value;
      ResolveGrounds(w, dep, chain, st);
      ResolveReaches(w, dep, chain, st);
      var s := Resolve(w, dep, chain, st);
      WiderSources(w, {w.Effective(dep.callable)}, Needs(w, params), st, s.state);
      if s.result.Ok? {
        var args' := args[params[0].name := s.result.value];
        ParamsReach(w, params[1..], chain, s.state, args');
        var t := ResolveParams(w, params[1..], chain, s.state, args');
        WiderSources(w, Needs(w, params[1..]), Needs(w, params), s.state, t.state);
      }
    }
  }

  lemma {:induction false} WiderSources(w: World, few: set<Provider>, many: set<Provider>, st: State, later: State)
    requires few <= many && st.instances <= later.instances
    requires NewCallsReached(w, few, st, later)
    ensures NewCallsReached(w, many, st, later)
  {
    forall k | |st.instances| <= k < |later.instances|
      ensures ReachedFrom(w, many, later.instances[k].provider)
    {
      assert ReachedFrom(w, few, later.instances[k].provider);
      var q :| q in few && Reaches(w, q, later.instances[k].provider);
    }
  }

  // ----- The ledger of references and calls

  function Calls(instances: seq<Instance>, p: Provider): nat {
    if instances == [] then 0
    else Calls(instances[..|instances| - 1], p) + if instances[|instances| - 1].provider == p then 1 else 0
  }

  function FreshReferences(references: seq<Reference>, p: Provider): nat {
    if references == [] then 0
    else
      var last := references[|references| - 1];
      FreshReferences(references[..|references| - 1], p) + if last.provider == p && !last.shared then 1 else 0
  }

  ghost predicate HasShared(references: seq<Reference>, p: Provider) {
    exists i :: 0 <= i < |references| && references[i].provider == p && references[i].shared
  }

  predicate Settled(st: State, r: Reference) {
    && r.target < |st.instances|
    && st.instances[r.target].provider == r.provider
    && st.instances[r.target].shared == r.shared
  }

  /** The call made for the shared references to a provider is the one its cache entry names, and no other. */
  ghost predicate OneSharedCall(st: State) {
    && (forall p :: p in st.cache ==>
          && st.cache[p] < |st.instances|
          && st.instances[st.cache[p]].provider == p && st.instances[st.cache[p]].shared)
    && (forall k :: 0 <= k < |st.instances| && st.instances[k].shared ==>
          && st.instances[k].provider in st.cache
          && st.cache[st.instances[k].provider] == k)
  }

  ghost predicate ReferencesSettled(st: State) {
    && (forall i :: 0 <= i < |st.references| ==> Settled(st, st.references[i]))
    && (forall i, j :: 0 <= i < j < |st.references| && !st.references[i].shared && !st.references[j].shared ==>
          st.references[i].target != st.references[j].target)
  }

  ghost predicate Counted(st: State) {
    forall p :: && Calls(st.instances, p) == FreshReferences(st.references, p) + (if p in st.cache then 1 else 0)
                && (p in st.cache ==> HasShared(st.references, p))
  }

  ghost predicate Ledger(st: State) {
    OneSharedCall(st) && ReferencesSettled(st) && Counted(st)
  }

  /** Cache entries are never overwritten or dropped, and the record only grows. */
  predicate Extends(st: State, later: State) {
    && (forall p :: p in st.cache ==> p in later.cache && later.cache[p] == st.cache[p])
    && st.instances <= later.instances
    && st.references <= later.references
  }

  lemma {:induction false} SharedStays(a: seq<Reference>, b: seq<Reference>, p: Provider)
    requires a <= b && HasShared(a, p)
    ensures HasShared(b, p)
  {
    var i :| 0 <= i < |a| && a[i].provider == p && a[i].shared;
    assert b[i].provider == p && b[i].shared;
  }

  lemma {:induction false} HitKeepsLedger(p: Provider, st: State)
    requires Ledger(st) && p in st.cache
    ensures Ledger(st.Refer(p, true, st.cache[p])) && Extends(st, st.Refer(p, true, st.cache[p]))
  {
    var later := st.Refer(p, true, st.cache[p]);
    assert later.references[..|st.references|] == st.references;
    forall q | q in st.cache ensures HasShared(later.references, q) {
      SharedStays(st.references, later.references, q);
    }
  }

  lemma {:induction false} CallKeepsLedger(w: World, p: Provider, shared: bool, args: map<string, Ref>, st: State)
    requires Ledger(st) && (shared ==> p !in st.cache)
    ensures var s := CallAndRemember(w, p, shared, args, st);
            && Ledger(s.state) && Extends(st, s.state)
            && (s.result.Ok? ==> Reference(p, shared, s.result.value) in s.state.references)
  {
    match w.invoke(|st.instances|, p, st.Values(args))
    case Raised(_) =>
    case Returned(value) =>
      var r := |st.instances|;
      var later := st.Create(w, p, shared, args, value).Remember(p, shared, r).Refer(p, shared, r);
      assert CallAndRemember(w, p, shared, args, st).state == later;
      var called, referred := Instance(p, shared, args, value), Reference(p, shared, |st.instances|);
      RecordCall(st, later, called, referred);
      CountCall(st, later, called, referred);
  }

  /** `later` is `st` after one more call, made for one more reference. */
  predicate Recorded(st: State, later: State, called: Instance, referred: Reference) {
    && referred == Reference(called.provider, called.shared, |st.instances|)
    && later.instances == st.instances + [called]
    && later.references == st.references + [referred]
    && later.cache == if called.shared then st.cache[called.provider := |st.instances|] else st.cache
  }

  lemma {:induction false} RecordCall(st: State, later: State, called: Instance, referred: Reference)
    requires OneSharedCall(st) && ReferencesSettled(st) && (called.shared ==> called.provider !in st.cache)
    requires Recorded(st, later, called, referred)
    ensures OneSharedCall(later) && ReferencesSettled(later) && Extends(st, later)
  {
    assert forall i :: 0 <= i < |st.references| ==> Settled(st, st.references[i]) && Settled(later, st.references[i]);
  }

  lemma {:induction false} CountCall(st: State, later: State, called: Instance, referred: Reference)
    requires Counted(st) && (called.shared ==> called.provider !in st.cache)
    requires Recorded(st, later, called, referred)
    ensures Counted(later)
  {
    assert later.instances[..|st.instances|] == st.instances;
    assert later.references[..|st.references|] == st.references;
    assert later.references[|st.references|] == referred;
    forall q
      ensures Calls(later.instances, q) == FreshReferences(later.references, q) + (if q in later.cache then 1 else 0)
      ensures q in later.cache ==> HasShared(later.references, q)
    {
      if q in st.cache {
        SharedStays(st.references, later.references, q);
      }
    }
  }

  /** A completed provider cannot be reached from its own dependencies. */
  lemma {:induction false} CompletedIsNotOnCycle(w: World, st: State, p: Provider)
    requires Grounded(w, st) && Completed(st.instances, p)
    ensures !ReachedFrom(w, Needs(w, w.Params(p)), p)
  {
    if ReachedFrom(w, Needs(w, w.Params(p)), p) {
      var q :| q in Needs(w, w.Params(p)) && Reaches(w, q, p);
      var path :| PathBetween(w, path, q, p);
      var cycle := [p] + path;
      assert IsPath(w, cycle) && cycle[0] == p && cycle[|path|] == p;
      CompletedIsAcyclic(w, st, cycle);
    }
  }

  /** Nothing can put p in the cache while p's own dependencies are being resolved: that would be a cycle. */
  lemma {:induction false} NotCachedMeanwhile(w: World, p: Provider, st: State, later: State)
    requires Grounded(w, later) && OneSharedCall(st) && OneSharedCall(later)
    requires st.instances <= later.instances
    requires NewCallsReached(w, Needs(w, w.Params(p)), st, later)
    requires p !in st.cache
    ensures p !in later.cache
  {
    assert forall k :: 0 <= k < |st.instances| ==> st.instances[k] == later.instances[k];
    if p in later.cache {
      assert Completed(later.instances, p);
      CompletedIsNotOnCycle(w, later, p);
    }
  }

  lemma {:induction false} ResolveKeepsLedger(w: World, dep: Dependency, chain: seq<Provider>, st: State)
    requires |chain| <= MAX_DEPTH && Grounded(w, st) && Ledger(st)
    ensures var p, s := w.Effective(dep.callable), Resolve(w, dep, chain, st);
            && Ledger(s.state) && Extends(st, s.state)
            && (s.result.Ok? ==> Reference(p, dep.useCache, s.result.value) in s.state.references)
    decreases MAX_DEPTH - |chain|, 0
  {
    var p := w.Effective(dep.callable);
    if |chain| == MAX_DEPTH {
    } else if dep.useCache && p in st.cache {
      HitKeepsLedger(p, st);
    } else {
      ParamsKeepLedger(w, w.Params(p), chain + [p], st, map[]);
      ParamsReach(w, w.Params(p), chain + [p], st, map[]);
      ParamsGround(w, w.Params(p), chain + [p], st, map[]);
      var s := ResolveParams(w, w.Params(p), chain + [p], st, map[]);
      if s.result.Ok? {
        if dep.useCache {
          NotCachedMeanwhile(w, p, st, s.state);
        }
        CallKeepsLedger(w, p, dep.useCache, s.result.value, s.state);
      }
    }
  }

  lemma {:induction false} ParamsKeepLedger(w: World, params: seq<ParamPlan>, chain: seq<Provider>, st: State,
                                            args: map<string, Ref>)
    requires |chain| <= MAX_DEPTH && Grounded(w, st) && Ledger(st)
    ensures var s := ResolveParams(w, params, chain, st, args);
            Ledger(s.state) && Extends(st, s.state)
    decreases MAX_DEPTH - |chain|, 1 + |params|
  {
    if params == [] {
    } else if !params[0].kind.Depends? {
      ParamsKeepLedger(w, params[1..], chain, st, args);
    } else if params[0].dependency.Some? {
      ResolveKeepsLedger(w, params[0].dependency.value, chain, st);
      ResolveGrounds(w, params[0].dependency.value, chain, st);
      var s := Resolve(w, params[0].dependency.value, chain, st);
      if s.result.Ok? {
        ParamsKeepLedger(w, params[1..], chain, s.state, args[params[0].name := s.result.value]);
      }
    }
  }

  lemma {:induction false} RoutesKeepLedger(w: World, routes: seq<Dependency>, st: State)
    requires Grounded(w, st) && Ledger(st)
    ensures var s := SolveRoutes(w, routes, st);
            Ledger(s.state) && Extends(st, s.state)
    decreases |routes|
  {
    if routes != [] {
      ResolveKeepsLedger(w, routes[0], [], st);
      ResolveGrounds(w, routes[0], [], st);
      RoutesKeepLedger(w, routes[1..], Resolve(w, routes[0], [], st).state);
    }
  }

  lemma {:induction false} PlanKeepsLedger(w: World, params: seq<ParamPlan>, stream: bool, st: State, call: HandlerCall)
    requires Grounded(w, st) && Ledger(st)
    ensures var s := SolvePlan(w, params, stream, st, call);
            Ledger(s.state) && Extends(st, s.state)
    decreases |params|
  {
    if params == [] {
    } else if !params[0].kind.Depends? {
      PlanKeepsLedger(w, params[1..], stream, st, FillBuiltIn(params[0], stream, call));
    } else if params[0].dependency.Some? {
      ResolveKeepsLedger(w, params[0].dependency.value, [], st);
      ResolveGrounds(w, params[0].dependency.value, [], st);
      var s := Resolve(w, params[0].dependency.value, [], st);
      if s.result.Ok? {
        PlanKeepsLedger(w, params[1..], stream, s.state, call.With(params[0].name, Resolved(s.result.value)));
      }
    }
  }

  lemma {:induction false} SolveKeepsLedger(w: World, routes: seq<Dependency>, params: seq<ParamPlan>, stream: bool)
    ensures Ledger(Solve(w, routes, params, stream).state)
  {
    RoutesKeepLedger(w, routes, EMPTY);
    RoutesGround(w, routes, EMPTY);
    PlanKeepsLedger(w, params, stream, SolveRoutes(w, routes, EMPTY).state, NO_CALL);
  }

  /**
   In one request: shared references to a provider all get the same object; an
   unshared reference gets one no other reference gets; and a provider is
   called once per unshared reference, plus once if it has shared references.
   */
  lemma {:induction false} SharingAndFreshness(w: World, routes: seq<Dependency>, params: seq<ParamPlan>,
                                               stream: bool, i: nat, j: nat, p: Provider)
    requires var refs := Solve(w, routes, params, stream).state.references; i < |refs| && j < |refs| && i != j
    ensures var s := Solve(w, routes, params, stream).state;
            var a, b := s.references[i], s.references[j];
            && (a.shared && b.shared && a.provider == b.provider ==> a.target == b.target)
            && (!a.shared ==> a.target != b.target)
            && Settled(s, a)
            && Calls(s.instances, p) ==
               FreshReferences(s.references, p) + (if HasShared(s.references, p) then 1 else 0)
  {
    SolveKeepsLedger(w, routes, params, stream);
    var s := Solve(w, routes, params, stream).state;
    assert i < j || j < i;
    assert Settled(s, s.references[i]) && Settled(s, s.references[j]);
    if HasShared(s.references, p) {
      var k :| 0 <= k < |s.references| && s.references[k].provider == p && s.references[k].shared;
      assert Settled(s, s.references[k]);
    }
  }

  // ----- What each call and the handler are given is what the ledger says

  /** Python signatures never repeat a parameter name. */
  ghost predicate WellNamed(w: World) {
    forall p :: DistinctNames(w.Params(p))
  }

  function ReferenceTo(w: World, dep: Dependency, r: Ref): Reference {
    Reference(w.Effective(dep.callable), dep.useCache, r)
  }

  /** Each `Depends` parameter was given the object its own reference resolved to. */
  predicate Supplied(w: World, params: seq<ParamPlan>, args: map<string, Ref>, references: seq<Reference>) {
    forall i :: 0 <= i < |params| && params[i].kind.Depends? && params[i].dependency.Some? ==>
                  && params[i].name in args
                  && ReferenceTo(w, params[i].dependency.value, args[params[i].name]) in references
  }

  ghost predicate AllSupplied(w: World, st: State) {
    forall k :: 0 <= k < |st.instances| ==>
                  Supplied(w, w.Params(st.instances[k].provider), st.instances[k].args, st.references)
  }

  /** Every call was supplied by recorded references, and every cached object was handed out to one. */
  ghost predicate Delivered(w: World, st: State) {
    && AllSupplied(w, st)
    && forall p :: p in st.cache ==> Reference(p, true, st.cache[p]) in st.references
  }

  lemma {:induction false} AllSuppliedStays(w: World, st: State, later: State)
    requires AllSupplied(w, st) && st.instances == later.instances && st.references <= later.references
    ensures AllSupplied(w, later)
  {
    forall k | 0 <= k < |later.instances|
      ensures Supplied(w, w.Params(later.instances[k].provider), later.instances[k].args, later.references)
    {
      assert Supplied(w, w.Params(st.instances[k].provider), st.instances[k].args, st.references);
    }
  }

  lemma {:induction false} CallDelivers(w: World, p: Provider, shared: bool, args: map<string, Ref>, st: State)
    requires Delivered(w, st) && Supplied(w, w.Params(p), args, st.references)
    ensures var s := CallAndRemember(w, p, shared, args, st);
            && Delivered(w, s.state) && st.references <= s.state.references
            && (s.result.Ok? ==> Reference(p, shared, s.result.value) in s.state.references)
  {
    match w.invoke(|st.instances|, p, st.Values(args))
    case Raised(_) =>
    case Returned(value) =>
      var created := st.Create(w, p, shared, args, value);
      forall k | 0 <= k < |created.instances|
        ensures Supplied(w, w.Params(created.instances[k].provider), created.instances[k].args, created.references)
      {
        if k < |st.instances| {
          assert created.instances[k] == st.instances[k];
        }
      }
      AllSuppliedStays(w, created, created.Remember(p, shared, |st.instances|).Refer(p, shared, |st.instances|));
  }

  lemma {:induction false} ResolveDelivers(w: World, dep: Dependency, chain: seq<Provider>, st: State)
    requires |chain| <= MAX_DEPTH && WellNamed(w) && Delivered(w, st)
    ensures var s := Resolve(w, dep, chain, st);
            && Delivered(w, s.state) && st.references <= s.state.references
            && (s.result.Ok? ==> ReferenceTo(w, dep, s.result.value) in s.state.references)
    decreases MAX_DEPTH - |chain|, 0
  {
    var p := w.Effective(dep.callable);
    if |chain| == MAX_DEPTH {
    } else if dep.useCache && p in st.cache {
      AllSuppliedStays(w, st, st.Refer(p, true, st.cache[p]));
    } else {
      ParamsDeliver(w, w.Params(p), chain + [p], st, map[]);
      var s := ResolveParams(w, w.Params(p), chain + [p], st, map[]);
      if s.result.Ok? {
        CallDelivers(w, p, dep.useCache, s.result.value, s.state);
      }
    }
  }

  lemma {:induction false} ParamsDeliver(w: World, params: seq<ParamPlan>, chain: seq<Provider>, st: State,
                                         args: map<string, Ref>)
    requires |chain| <= MAX_DEPTH && WellNamed(w) && Delivered(w, st)
    requires DistinctNames(params) && Unused(params, args.Keys)
    ensures var s := ResolveParams(w, params, chain, st, args);
            && Delivered(w, s.state) && st.references <= s.state.references
            && (s.result.Ok? ==>
                  && (forall n :: n in args ==> n in s.result.value && s.result.value[n] == args[n])
                  && Supplied(w, params, s.result.value, s.state.references))
    decreases MAX_DEPTH - |chain|, 1 + |params|
  {
    if params == [] {
    } else if !params[0].kind.Depends? {
      ParamsDeliver(w, params[1..], chain, st, args);
      SuppliedHead(w, params, ResolveParams(w, params[1..], chain, st, args));
    } else if params[0].dependency.Some? {
      ResolveDelivers(w, params[0].dependency.value, chain, st);
      var s := Resolve(w, params[0].dependency.value, chain, st);
      if s.result.Ok? {
        var args' := args[params[0].name := s.result.value];
        ParamsDeliver(w, params[1..], chain, s.state, args');
        SuppliedHead(w, params, ResolveParams(w, params[1..], chain, s.state, args'));
      }
    }
  }

  lemma {:induction false} SuppliedHead(w: World, params: seq<ParamPlan>, s: Step<map<string, Ref>>)
    requires params != []
    requires s.result.Ok? ==> Supplied(w, params[..1], s.result.value, s.state.references)
    requires s.result.Ok? ==> Supplied(w, params[1..], s.result.value, s.state.references)
    ensures s.result.Ok? ==> Supplied(w, params, s.result.value, s.state.references)
  {
    forall i | 0 <= i < |params| && s.result.Ok? && params[i].kind.Depends? && params[i].dependency.Some?
      ensures params[i].name in s.result.value
      ensures ReferenceTo(w, params[i].dependency.value, s.result.value[params[i].name]) in s.state.references
    {
      assert params[i] == if i == 0 then params[..1][0] else params[1..][i - 1];
    }
  }

  lemma {:induction false} RoutesDeliver(w: World, routes: seq<Dependency>, st: State)
    requires WellNamed(w) && Delivered(w, st)
    ensures Delivered(w, SolveRoutes(w, routes, st).state)
    decreases |routes|
  {
    if routes != [] {
      ResolveDelivers(w, routes[0], [], st);
      RoutesDeliver(w, routes[1..], Resolve(w, routes[0], [], st).state);
    }
  }

  /** The handler's `Depends` parameters, as the call carries them. */
  function Dependencies(call: HandlerCall): map<string, Ref> {
    map n | n in call.kwargs && call.kwargs[n].Resolved? :: call.kwargs[n].ref
  }

  lemma {:induction false} SuppliedFirst(w: World, params: seq<ParamPlan>, s: Step<HandlerCall>)
    requires params != []
    requires s.result.Ok? ==> Supplied(w, params[..1], Dependencies(s.result.value), s.state.references)
    requires s.result.Ok? ==> Supplied(w, params[1..], Dependencies(s.result.value), s.state.references)
    ensures s.result.Ok? ==> Supplied(w, params, Dependencies(s.result.value), s.state.references)
  {
    if s.result.Ok? {
      SuppliedHead(w, params, Step(s.state, Ok(Dependencies(s.result.value))));
    }
  }

  /** The value a reference resolved to stays in the call until the end. */
  lemma {:induction false} StaysSupplied(w: World, params: seq<ParamPlan>, r: Ref, mid: State, call: HandlerCall,
                                         s: Step<HandlerCall>)
    requires params != [] && params[0].kind.Depends? && params[0].dependency.Some?
    requires ReferenceTo(w, params[0].dependency.value, r) in mid.references && mid.references <= s.state.references
    requires s.result.Ok? ==> forall n :: n in call.With(params[0].name, Resolved(r)).kwargs ==>
               && n in s.result.value.kwargs
               && s.result.value.kwargs[n] == call.With(params[0].name, Resolved(r)).kwargs[n]
    ensures s.result.Ok? ==> Supplied(w, params[..1], Dependencies(s.result.value), s.state.references)
  {
    if s.result.Ok? {
      assert params[0].name in call.With(params[0].name, Resolved(r)).kwargs;
    }
  }

  lemma {:induction false} PlanDelivers(w: World, params: seq<ParamPlan>, stream: bool, st: State, call: HandlerCall)
    requires WellNamed(w) && Delivered(w, st)
    requires DistinctNames(params) && Unused(params, call.kwargs.Keys)
    ensures var s := SolvePlan(w, params, stream, st, call);
            && Delivered(w, s.state) && st.references <= s.state.references
            && (s.result.Ok? ==>
                  && (forall n :: n in call.kwargs ==>
                        n in s.result.value.kwargs && s.result.value.kwargs[n] == call.kwargs[n])
                  && Supplied(w, params, Dependencies(s.result.value), s.state.references))
    decreases |params|
  {
    if params == [] {
    } else if !params[0].kind.Depends? {
      var call' := FillBuiltIn(params[0], stream, call);
      FillAddsOneName(params, stream, call);
      PlanDelivers(w, params[1..], stream, st, call');
      SuppliedFirst(w, params, SolvePlan(w, params[1..], stream, st, call'));
    } else if params[0].dependency.Some? {
      ResolveDelivers(w, params[0].dependency.value, [], st);
      var s := Resolve(w, params[0].dependency.value, [], st);
      if s.result.Ok? {
        var call' := call.With(params[0].name, Resolved(s.result.value));
        PlanDelivers(w, params[1..], stream, s.state, call');
        var t := SolvePlan(w, params[1..], stream, s.state, call');
        StaysSupplied(w, params, s.result.value, s.state, call, t);
        SuppliedFirst(w, params, t);
      }
    }
  }

  /**
   What `SharingAndFreshness` says of references is what callables see: every
   `Depends` parameter of the handler, and of every provider that was called,
   received the object its own recorded reference resolved to.
   */
  lemma {:induction false} ReferencesAreDelivered(w: World, routes: seq<Dependency>, params: seq<ParamPlan>,
                                                  stream: bool)
    requires WellNamed(w) && DistinctNames(params)
    ensures var s := Solve(w, routes, params, stream);
            && AllSupplied(w, s.state)
            && (s.result.Ok? ==> Supplied(w, params, Dependencies(s.result.value), s.state.references))
  {
    RoutesDeliver(w, routes, EMPTY);
    PlanDelivers(w, params, stream, SolveRoutes(w, routes, EMPTY).state, NO_CALL);
  }
}
