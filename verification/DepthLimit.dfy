/**
 Exactly when `solve` meets the depth limit.  The limit counts the providers
 on the current chain before the cache is consulted, so it is not the height
 of the graph that decides, but its walks through references that nothing
 earlier has put in the cache.
 */
module DepthLimit {
  import opened Wrappers
  import opened Scanner
  import opened Injection
  import opened Topology

  // ----- References, in the order in which they are resolved

  function Dependencies(params: seq<ParamPlan>): seq<Dependency> {
    if params == [] then []
    else
      (if params[0].kind.Depends? && params[0].dependency.Some? then [params[0].dependency.value] else [])
      + Dependencies(params[1..])
  }

  /** The references in the signature of the provider a reference resolves to. */
  function Below(w: World, dep: Dependency): seq<Dependency> {
    Dependencies(w.Params(w.Effective(dep.callable)))
  }

  /** The references of the request itself: those of the route, then those of the handler. */
  function RootReferences(routes: seq<Dependency>, params: seq<ParamPlan>): seq<Dependency> {
    routes + Dependencies(params)
  }

  ghost predicate NeedsShared(w: World, q: Provider, p: Provider) {
    exists d :: d in Dependencies(w.Params(q)) && d.useCache && w.Effective(d.callable) == p
  }

  ghost predicate ReachesShared(w: World, from: Provider, p: Provider) {
    exists q :: Reaches(w, from, q) && NeedsShared(w, q, p)
  }

  /** Resolving `dep` leaves p in the cache: it is a shared reference to p, or can reach one. */
  ghost predicate Serves(w: World, dep: Dependency, p: Provider) {
    (dep.useCache && w.Effective(dep.callable) == p) || ReachesShared(w, w.Effective(dep.callable), p)
  }

  ghost predicate ServedBy(w: World, earlier: seq<Dependency>, p: Provider) {
    exists i :: 0 <= i < |earlier| && Serves(w, earlier[i], p)
  }

  /** The reference is shared, and some earlier reference serves its provider. */
  ghost predicate Served(w: World, earlier: seq<Dependency>, dep: Dependency) {
    dep.useCache && ServedBy(w, earlier, w.Effective(dep.callable))
  }

  /**
   `path` picks a reference from `list`, then one below it, and so on; each
   but the last is unserved by the references resolved before it, which are
   `earlier` and those listed before it and before each one above it.
   */
  ghost predicate Walk(w: World, list: seq<Dependency>, earlier: seq<Dependency>, path: seq<nat>)
    decreases |path|
  {
    path != [] ==>
      && path[0] < |list|
      && (|path| > 1 ==>
            var dep, before := list[path[0]], earlier + list[..path[0]];
            !Served(w, before, dep) && Walk(w, Below(w, dep), before, path[1..]))
  }

  /** Some reference of the list starts a walk with `n` more references below it. */
  ghost predicate DeepAmong(w: World, list: seq<Dependency>, earlier: seq<Dependency>, n: nat) {
    exists path: seq<nat> :: |path| == n + 1 && Walk(w, list, earlier, path)
  }

  ghost predicate Deep(w: World, dep: Dependency, earlier: seq<Dependency>, n: nat) {
    n == 0 || (!Served(w, earlier, dep) && DeepAmong(w, Below(w, dep), earlier, n - 1))
  }

  // ----- What serving means on the graph

  lemma {:induction false} NeedsAreDependencies(w: World, params: seq<ParamPlan>, q: Provider)
    ensures q in Needs(w, params) <==> exists d :: d in Dependencies(params) && w.Effective(d.callable) == q
    decreases |params|
  {
    if params != [] {
      NeedsAreDependencies(w, params[1..], q);
      if params[0].kind.Depends? && params[0].dependency.Some? {
        assert params[0].dependency.value in Dependencies(params);
      }
      if d :| d in Dependencies(params[1..]) && w.Effective(d.callable) == q {
        assert d in Dependencies(params);
      }
    }
  }

  lemma {:induction false} ReachesOn(w: World, p: Provider, q: Provider, r: Provider)
    requires Reaches(w, p, q) && Reaches(w, q, r)
    ensures Reaches(w, p, r)
  {
    var a :| PathBetween(w, a, p, q);
    var b :| PathBetween(w, b, q, r);
    assert PathBetween(w, a + b[1..], p, r);
  }

  lemma {:induction false} ReachesBelow(w: World, dep: Dependency, d: Dependency)
    requires d in Below(w, dep)
    ensures Reaches(w, w.Effective(dep.callable), w.Effective(d.callable))
  {
    var p, q := w.Effective(dep.callable), w.Effective(d.callable);
    NeedsAreDependencies(w, w.Params(p), q);
    assert PathBetween(w, [p, q], p, q);
  }

  lemma {:induction false} ReachesFirstStep(w: World, dep: Dependency, q: Provider)
    requires Reaches(w, w.Effective(dep.callable), q) && w.Effective(dep.callable) != q
    ensures exists d :: d in Below(w, dep) && Reaches(w, w.Effective(d.callable), q)
  {
    var p := w.Effective(dep.callable);
    var path :| PathBetween(w, path, p, q);
    assert Edge(w, path[0], path[1]);
    NeedsAreDependencies(w, w.Params(p), path[1]);
    var d :| d in Below(w, dep) && w.Effective(d.callable) == path[1];
    assert PathBetween(w, path[1..], path[1], q);
  }

  /** What a provider reaches is itself and what the references in its signature reach. */
  lemma {:induction false} ReachesByStep(w: World, dep: Dependency, q: Provider)
    ensures var p := w.Effective(dep.callable);
            Reaches(w, p, q) <==>
              p == q || exists d :: d in Below(w, dep) && Reaches(w, w.Effective(d.callable), q)
  {
    var p := w.Effective(dep.callable);
    if p == q {
      assert PathBetween(w, [p], p, p);
    } else if d :| d in Below(w, dep) && Reaches(w, w.Effective(d.callable), q) {
      ReachesBelow(w, dep, d);
      ReachesOn(w, p, w.Effective(d.callable), q);
    } else if Reaches(w, p, q) {
      ReachesFirstStep(w, dep, q);
    }
  }

  lemma {:induction false} ServesReaches(w: World, dep: Dependency, p: Provider)
    requires Serves(w, dep, p)
    ensures Reaches(w, w.Effective(dep.callable), p)
  {
    var from := w.Effective(dep.callable);
    if dep.useCache && from == p {
      assert PathBetween(w, [p], p, p);
    } else {
      var q :| Reaches(w, from, q) && NeedsShared(w, q, p);
      var d :| d in Dependencies(w.Params(q)) && d.useCache && w.Effective(d.callable) == p;
      NeedsAreDependencies(w, w.Params(q), p);
      assert PathBetween(w, [q, p], q, p);
      ReachesOn(w, from, q, p);
    }
  }

  /** What a reference serves is its own provider, if shared, and what those below it serve. */
  lemma {:induction false} ServesByStep(w: World, dep: Dependency, p: Provider)
    ensures Serves(w, dep, p) <==>
              (dep.useCache && w.Effective(dep.callable) == p) || ServedBy(w, Below(w, dep), p)
  {
    var from, list := w.Effective(dep.callable), Below(w, dep);
    if ReachesShared(w, from, p) {
      var q :| Reaches(w, from, q) && NeedsShared(w, q, p);
      ReachesByStep(w, dep, q);
      if q == from {
        var i :| 0 <= i < |list| && list[i].useCache && w.Effective(list[i].callable) == p;
        assert Serves(w, list[i], p);
      } else {
        var i :| 0 <= i < |list| && Reaches(w, w.Effective(list[i].callable), q);
        assert Serves(w, list[i], p);
      }
    }
    if i :| 0 <= i < |list| && Serves(w, list[i], p) {
      assert PathBetween(w, [from], from, from);
      if list[i].useCache && w.Effective(list[i].callable) == p {
        assert NeedsShared(w, from, p);
      } else {
        var q :| Reaches(w, w.Effective(list[i].callable), q) && NeedsShared(w, q, p);
        ReachesBelow(w, dep, list[i]);
        ReachesOn(w, from, w.Effective(list[i].callable), q);
      }
    }
  }

  /** A served reference serves nothing new. */
  lemma {:induction false} ServedServesNothingNew(w: World, earlier: seq<Dependency>, dep: Dependency, p: Provider)
    requires Served(w, earlier, dep) && Serves(w, dep, p)
    ensures ServedBy(w, earlier, p)
  {
    var q := w.Effective(dep.callable);
    var i :| 0 <= i < |earlier| && Serves(w, earlier[i], q);
    if q != p {
      var r :| Reaches(w, q, r) && NeedsShared(w, r, p);
      ServesReaches(w, earlier[i], q);
      ReachesOn(w, w.Effective(earlier[i].callable), q, r);
    }
    assert Serves(w, earlier[i], p);
  }

  lemma {:induction false} ServedByConcat(w: World, a: seq<Dependency>, b: seq<Dependency>, p: Provider)
    ensures ServedBy(w, a + b, p) <==> ServedBy(w, a, p) || ServedBy(w, b, p)
  {
    if i :| 0 <= i < |a| && Serves(w, a[i], p) {
      assert Serves(w, (a + b)[i], p);
    }
    if i :| 0 <= i < |b| && Serves(w, b[i], p) {
      assert Serves(w, (a + b)[|a| + i], p);
    }
  }

  // ----- The cache holds what has been served

  ghost predicate CacheHolds(w: World, earlier: seq<Dependency>, st: State) {
    forall p :: p in st.cache <==> ServedBy(w, earlier, p)
  }

  lemma {:induction false} HitHolds(w: World, earlier: seq<Dependency>, dep: Dependency, st: State)
    requires CacheHolds(w, earlier, st) && dep.useCache && w.Effective(dep.callable) in st.cache
    ensures var p := w.Effective(dep.callable);
            CacheHolds(w, earlier + [dep], st.Refer(p, true, st.cache[p]))
  {
    forall p ensures ServedBy(w, earlier + [dep], p) <==> ServedBy(w, earlier, p) {
      ServedByConcat(w, earlier, [dep], p);
      if ServedBy(w, [dep], p) {
        assert Serves(w, dep, p);
        ServedServesNothingNew(w, earlier, dep, p);
      }
    }
  }

  lemma {:induction false} CallHolds(w: World, earlier: seq<Dependency>, dep: Dependency, args: map<string, Ref>,
                                     st: State)
    requires CacheHolds(w, earlier + Below(w, dep), st)
    ensures var s := CallAndRemember(w, w.Effective(dep.callable), dep.useCache, args, st);
            s.result.Ok? ==> CacheHolds(w, earlier + [dep], s.state)
  {
    forall p
      ensures ServedBy(w, earlier + [dep], p) <==>
                ServedBy(w, earlier + Below(w, dep), p) || (dep.useCache && w.Effective(dep.callable) == p)
    {
      ServedByConcat(w, earlier, [dep], p);
      ServedByConcat(w, earlier, Below(w, dep), p);
      ServesByStep(w, dep, p);
      assert ServedBy(w, [dep], p) <==> Serves(w, dep, p) by {
        assert Serves(w, dep, p) ==> Serves(w, [dep][0], p);
      }
    }
  }

  // ----- Resolving a reference meets the limit exactly when a walk is that deep

  lemma {:induction false} LaterWalk(w: World, list: seq<Dependency>, earlier: seq<Dependency>, path: seq<nat>)
    requires list != [] && path != [] && path[0] > 0
    ensures Walk(w, list, earlier, path) <==> Walk(w, list[1..], earlier + [list[0]], path[0 := path[0] - 1])
  {
    if path[0] < |list| {
      assert earlier + list[..path[0]] == earlier + [list[0]] + list[1..][..path[0] - 1];
      assert path[1..] == path[0 := path[0] - 1][1..];
    }
  }

  lemma {:induction false} DeepAtHead(w: World, list: seq<Dependency>, earlier: seq<Dependency>, n: nat)
    requires list != [] && Deep(w, list[0], earlier, n)
    ensures DeepAmong(w, list, earlier, n)
  {
    assert earlier + list[..0] == earlier;
    if n == 0 {
      assert Walk(w, list, earlier, [0]);
    } else {
      var path :| |path| == n && Walk(w, Below(w, list[0]), earlier, path);
      assert ([0] + path)[1..] == path;
      assert Walk(w, list, earlier, [0] + path);
    }
  }

  lemma {:induction false} DeepAtTail(w: World, list: seq<Dependency>, earlier: seq<Dependency>, n: nat)
    requires list != [] && DeepAmong(w, list[1..], earlier + [list[0]], n)
    ensures DeepAmong(w, list, earlier, n)
  {
    var path :| |path| == n + 1 && Walk(w, list[1..], earlier + [list[0]], path);
    var path' := path[0 := path[0] + 1];
    assert path'[0 := path'[0] - 1] == path;
    LaterWalk(w, list, earlier, path');
  }

  lemma {:induction false} DeepSplits(w: World, list: seq<Dependency>, earlier: seq<Dependency>, n: nat)
    requires list != [] && DeepAmong(w, list, earlier, n)
    ensures Deep(w, list[0], earlier, n) || DeepAmong(w, list[1..], earlier + [list[0]], n)
  {
    var path :| |path| == n + 1 && Walk(w, list, earlier, path);
    if path[0] > 0 {
      LaterWalk(w, list, earlier, path);
    } else if n > 0 {
      assert earlier + list[..0] == earlier;
      assert |path[1..]| == n && Walk(w, Below(w, list[0]), earlier, path[1..]);
    }
  }

  lemma {:induction false} DeepHead(w: World, list: seq<Dependency>, earlier: seq<Dependency>, n: nat)
    requires list != []
    ensures DeepAmong(w, list, earlier, n) <==>
              Deep(w, list[0], earlier, n) || DeepAmong(w, list[1..], earlier + [list[0]], n)
  {
    if DeepAmong(w, list, earlier, n) {
      DeepSplits(w, list, earlier, n);
    } else if Deep(w, list[0], earlier, n) {
      DeepAtHead(w, list, earlier, n);
    } else if DeepAmong(w, list[1..], earlier + [list[0]], n) {
      DeepAtTail(w, list, earlier, n);
    }
  }

  /** What resolving the reference, or list of references, says about walks of `n` more below it. */
  ghost predicate Tells<T>(deep: bool, r: Result<T, SolveError>) {
    (r.Ok? ==> !deep) && (r.Err? && r.error.DepthExceeded? ==> deep)
  }

  lemma {:induction false} OneAtATime(earlier: seq<Dependency>, list: seq<Dependency>)
    requires list != []
    ensures earlier + list == earlier + [list[0]] + list[1..]
  {
  }

  lemma {:induction false} ResolveDeep(w: World, dep: Dependency, chain: seq<Provider>, st: State,
                                       earlier: seq<Dependency>)
    requires |chain| <= MAX_DEPTH && CacheHolds(w, earlier, st)
    ensures var s := Resolve(w, dep, chain, st);
            && Tells(Deep(w, dep, earlier, MAX_DEPTH - |chain|), s.result)
            && (s.result.Ok? ==> CacheHolds(w, earlier + [dep], s.state))
    decreases MAX_DEPTH - |chain|, 0
  {
    var p := w.Effective(dep.callable);
    if |chain| == MAX_DEPTH {
    } else if dep.useCache && p in st.cache {
      HitHolds(w, earlier, dep, st);
    } else {
      ParamsDeep(w, w.Params(p), chain + [p], st, map[], earlier);
      var s := ResolveParams(w, w.Params(p), chain + [p], st, map[]);
      if s.result.Ok? {
        CallHolds(w, earlier, dep, s.result.value, s.state);
      }
    }
  }

  lemma {:induction false} ParamsDeep(w: World, params: seq<ParamPlan>, chain: seq<Provider>, st: State,
                                      args: map<string, Ref>, earlier: seq<Dependency>)
    requires |chain| <= MAX_DEPTH && CacheHolds(w, earlier, st)
    ensures var s, list := ResolveParams(w, params, chain, st, args), Dependencies(params);
            && Tells(DeepAmong(w, list, earlier, MAX_DEPTH - |chain|), s.result)
            && (s.result.Ok? ==> CacheHolds(w, earlier + list, s.state))
    decreases MAX_DEPTH - |chain|, 1 + |params|
  {
    var list, n := Dependencies(params), MAX_DEPTH - |chain|;
    if params == [] {
      assert earlier + list == earlier;
    } else if !params[0].kind.Depends? {
      assert list == Dependencies(params[1..]);
      ParamsDeep(w, params[1..], chain, st, args, earlier);
    } else if params[0].dependency.Some? {
      var dep := params[0].dependency.value;
      ResolveDeep(w, dep, chain, st, earlier);
      var s := Resolve(w, dep, chain, st);
      assert list[0] == dep && list[1..] == Dependencies(params[1..]);
      DeepHead(w, list, earlier, n);
      if s.result.Ok? {
        ParamsDeep(w, params[1..], chain, s.state, args[params[0].name := s.result.value], earlier + [dep]);
        OneAtATime(earlier, list);
      }
    }
  }

  lemma {:induction false} RoutesHead(w: World, routes: seq<Dependency>, earlier: seq<Dependency>, s: Step<Ref>,
                                      t: Step<()>)
    requires routes != [] && Tells(Deep(w, routes[0], earlier, MAX_DEPTH), s.result)
    requires s.result.Ok? ==> Tells(DeepAmong(w, routes[1..], earlier + [routes[0]], MAX_DEPTH), t.result)
    requires s.result.Err? ==> t.result == Err(s.result.error)
    ensures Tells(DeepAmong(w, routes, earlier, MAX_DEPTH), t.result)
  {
    DeepHead(w, routes, earlier, MAX_DEPTH);
  }

  lemma {:induction false} RoutesDeep(w: World, routes: seq<Dependency>, st: State, earlier: seq<Dependency>)
    requires CacheHolds(w, earlier, st)
    ensures var s := SolveRoutes(w, routes, st);
            && Tells(DeepAmong(w, routes, earlier, MAX_DEPTH), s.result)
            && (s.result.Ok? ==> CacheHolds(w, earlier + routes, s.state))
    decreases |routes|
  {
    if routes == [] {
      assert earlier + routes == earlier;
    } else {
      ResolveDeep(w, routes[0], [], st, earlier);
      var s := Resolve(w, routes[0], [], st);
      if s.result.Ok? {
        RoutesDeep(w, routes[1..], s.state, earlier + [routes[0]]);
        OneAtATime(earlier, routes);
      }
      RoutesHead(w, routes, earlier, s, SolveRoutes(w, routes, st));
    }
  }

  lemma {:induction false} PlanDeep(w: World, params: seq<ParamPlan>, stream: bool, st: State, call: HandlerCall,
                                    earlier: seq<Dependency>)
    requires CacheHolds(w, earlier, st)
    ensures Tells(DeepAmong(w, Dependencies(params), earlier, MAX_DEPTH), SolvePlan(w, params, stream, st, call).result)
    decreases |params|
  {
    var list := Dependencies(params);
    if params == [] {
    } else if !params[0].kind.Depends? {
      assert list == Dependencies(params[1..]);
      PlanDeep(w, params[1..], stream, st, FillBuiltIn(params[0], stream, call), earlier);
    } else if params[0].dependency.Some? {
      var dep := params[0].dependency.value;
      ResolveDeep(w, dep, [], st, earlier);
      assert list[0] == dep && list[1..] == Dependencies(params[1..]);
      DeepHead(w, list, earlier, MAX_DEPTH);
      var s := Resolve(w, dep, [], st);
      if s.result.Ok? {
        PlanDeep(w, params[1..], stream, s.state, call.With(params[0].name, Resolved(s.result.value)), earlier + [dep]);
      }
    }
  }

  /** The walks of a concatenated list start in its first part, or in its second after all of the first. */
  lemma {:induction false} DeepConcat(w: World, a: seq<Dependency>, b: seq<Dependency>, earlier: seq<Dependency>,
                                      n: nat)
    ensures DeepAmong(w, a + b, earlier, n) <==> DeepAmong(w, a, earlier, n) || DeepAmong(w, b, earlier + a, n)
    decreases |a|
  {
    if a == [] {
      assert a + b == b && earlier + a == earlier;
    } else {
      assert (a + b)[1..] == a[1..] + b && earlier + a == earlier + [a[0]] + a[1..];
      DeepHead(w, a + b, earlier, n);
      DeepHead(w, a, earlier, n);
      DeepConcat(w, a[1..], b, earlier + [a[0]], n);
    }
  }

  /** Some root starts a walk of 33 references, each but the last unserved. */
  ghost predicate HasDeepWalk(w: World, routes: seq<Dependency>, params: seq<ParamPlan>) {
    DeepAmong(w, RootReferences(routes, params), [], 32)
  }

  /**
   Whatever the providers do: with such a walk `solve` fails, and without one
   it never raises the depth error.
   */
  lemma {:induction false} DeepWalkFails(w: World, routes: seq<Dependency>, params: seq<ParamPlan>, stream: bool)
    ensures Tells(HasDeepWalk(w, routes, params), Solve(w, routes, params, stream).result)
  {
    var s := SolveRoutes(w, routes, EMPTY);
    assert CacheHolds(w, [], EMPTY);
    RoutesDeep(w, routes, EMPTY, []);
    DeepConcat(w, routes, Dependencies(params), [], MAX_DEPTH);
    assert [] + routes == routes;
    if s.result.Ok? {
      PlanDeep(w, params, stream, s.state, NO_CALL, routes);
    }
  }

  /**
   When providers return normally, `solve` fails if and only if some root
   starts a walk of 33 references, each but the last unserved.  The last is
   not excused by the cache, because the depth is checked first.
   */
  lemma {:induction false} DepthErrorIff(w: World, routes: seq<Dependency>, params: seq<ParamPlan>, stream: bool)
    requires NeverRaises(w) && Complete(params)
    ensures var r := Solve(w, routes, params, stream).result;
            && (r.Err? <==> HasDeepWalk(w, routes, params))
            && (r.Err? ==> r.error.DepthExceeded?)
  {
    DeepWalkFails(w, routes, params, stream);
    RoutesOnlyExceedDepth(w, routes, EMPTY);
    PlanOnlyExceedsDepth(w, params, stream, SolveRoutes(w, routes, EMPTY).state, NO_CALL);
  }

  // ----- Requests in which nothing is shared

  predicate Unshared(list: seq<Dependency>) {
    forall i :: 0 <= i < |list| ==> !list[i].useCache
  }

  /** No reference that the request can reach uses the cache. */
  ghost predicate NothingShared(w: World, list: seq<Dependency>) {
    && Unshared(list)
    && forall i, q :: 0 <= i < |list| && Reaches(w, w.Effective(list[i].callable), q) ==>
         Unshared(Dependencies(w.Params(q)))
  }

  lemma {:induction false} NothingSharedBelow(w: World, list: seq<Dependency>, i: nat)
    requires NothingShared(w, list) && i < |list|
    ensures NothingShared(w, Below(w, list[i]))
  {
    var p, below := w.Effective(list[i].callable), Below(w, list[i]);
    assert PathBetween(w, [p], p, p);
    forall j, q | 0 <= j < |below| && Reaches(w, w.Effective(below[j].callable), q)
      ensures Unshared(Dependencies(w.Params(q)))
    {
      ReachesBelow(w, list[i], below[j]);
      ReachesOn(w, p, w.Effective(below[j].callable), q);
    }
  }

  /** Without sharing, every path of providers is a walk. */
  lemma {:induction false} PathIsWalk(w: World, list: seq<Dependency>, earlier: seq<Dependency>, path: seq<Provider>)
    returns (walk: seq<nat>)
    requires NothingShared(w, list) && path != [] && IsPath(w, path)
    requires exists d :: d in list && w.Effective(d.callable) == path[0]
    ensures |walk| == |path| && Walk(w, list, earlier, walk)
    decreases |path|
  {
    var i :| 0 <= i < |list| && w.Effective(list[i].callable) == path[0];
    if |path| == 1 {
      walk := [i];
    } else {
      NothingSharedBelow(w, list, i);
      assert Edge(w, path[0], path[1]);
      NeedsAreDependencies(w, w.Params(path[0]), path[1]);
      var rest := PathIsWalk(w, Below(w, list[i]), earlier + list[..i], path[1..]);
      walk := [i] + rest;
      assert walk[1..] == rest;
    }
  }

  lemma {:induction false} RootsAreReferences(w: World, routes: seq<Dependency>, params: seq<ParamPlan>, p: Provider)
    requires p in Roots(w, routes, params)
    ensures exists d :: d in RootReferences(routes, params) && w.Effective(d.callable) == p
  {
    NeedsAreDependencies(w, params, p);
    if d :| d in Dependencies(params) && w.Effective(d.callable) == p {
      assert d in RootReferences(routes, params);
    } else {
      var i :| 0 <= i < |routes| && w.Effective(routes[i].callable) == p;
      assert routes[i] in RootReferences(routes, params);
    }
  }

  ghost predicate HasDeepPath(w: World, roots: set<Provider>) {
    exists path: seq<Provider> :: |path| == 33 && IsPath(w, path) && path[0] in roots
  }

  /**
   The converse of `ShallowNeverExceedsDepth` holds without sharing: then
   `solve` fails if and only if a path of 33 providers starts at a root.
   */
  lemma {:induction false} UnsharedDepthErrorIff(w: World, routes: seq<Dependency>, params: seq<ParamPlan>,
                                                 stream: bool)
    requires NeverRaises(w) && Complete(params) && NothingShared(w, RootReferences(routes, params))
    ensures Solve(w, routes, params, stream).result.Err? <==> HasDeepPath(w, Roots(w, routes, params))
  {
    DepthErrorIff(w, routes, params, stream);
    DepthErrorShowsDeepPath(w, routes, params, stream);
    if path: seq<Provider> :| |path| == 33 && IsPath(w, path) && path[0] in Roots(w, routes, params) {
      RootsAreReferences(w, routes, params, path[0]);
      var walk := PathIsWalk(w, RootReferences(routes, params), [], path);
    }
  }
}
