/**
 Where `solve` fails, and what it has called by then, as a walk in the graph:
 for providers of which each always raises or never does, and for providers
 whose outcome depends on their arguments only.  `Schedule` has the theorem
 for all others.
 */
module Failure {
  import opened Wrappers
  import opened Scanner
  import opened Injection
  import opened Topology
  import opened Transparency
  import opened DepthLimit

  // ----- Where a request can fail

  predicate RaisesWithin(w: World, p: Provider, fuel: nat) {
    var kwargs := EvaluateParams(w, w.Params(p), fuel, map[]);
    kwargs.Done? && w.invoke(0, p, kwargs.value).Raised?
  }

  /** Whether a call raises depends on its provider only; what it returns may depend on anything. */
  ghost predicate RaisesByProvider(w: World) {
    forall n, p, kwargs :: w.invoke(n, p, kwargs).Raised? <==> w.invoke(0, p, map[]).Raised?
  }

  /** Everything the provider needs can be evaluated, and the provider itself raises. */
  ghost predicate Raises(w: World, p: Provider) {
    if RaisesByProvider(w) then w.invoke(0, p, map[]).Raised? else exists fuel: nat :: RaisesWithin(w, p, fuel)
  }

  /**
   A walk at whose end resolution fails, if it gets there: its last reference
   is one too many for the chain, or is unserved and its provider raises.
   `n` is how many more references the chain can take below the first.
   */
  ghost predicate Fails(w: World, list: seq<Dependency>, earlier: seq<Dependency>, path: seq<nat>, n: nat)
    decreases |path|, 1
  {
    path != [] && path[0] < |list| && FailsBelow(w, list[path[0]], earlier + list[..path[0]], path[1..], n)
  }

  ghost predicate FailsBelow(w: World, dep: Dependency, earlier: seq<Dependency>, rest: seq<nat>, n: nat)
    decreases |rest| + 1, 0
  {
    if n == 0 then rest == []
    else
      && !Served(w, earlier, dep)
      && if rest == [] then Raises(w, w.Effective(dep.callable)) else Fails(w, Below(w, dep), earlier, rest, n - 1)
  }

  /** The end of `a` is resolved no later than the end of `b`: from left to right, and after everything below it. */
  predicate NotAfter(a: seq<nat>, b: seq<nat>) {
    b == [] || (a != [] && (a[0] < b[0] || (a[0] == b[0] && NotAfter(a[1..], b[1..]))))
  }

  ghost predicate CanFail(w: World, list: seq<Dependency>, earlier: seq<Dependency>, n: nat) {
    exists path :: Fails(w, list, earlier, path, n)
  }

  ghost predicate FirstFailure(w: World, list: seq<Dependency>, earlier: seq<Dependency>, path: seq<nat>, n: nat) {
    && Fails(w, list, earlier, path, n)
    && forall other: seq<nat> :: Fails(w, list, earlier, other, n) ==> NotAfter(path, other)
  }

  /**
   The references resolved when the end of the path fails: those listed before
   each reference on it and, if the last provider was called, those below it.
   */
  function ResolvedBefore(w: World, list: seq<Dependency>, path: seq<nat>, n: nat): seq<Dependency>
    decreases |path|, 1
  {
    if path == [] || path[0] >= |list| then []
    else list[..path[0]] + ResolvedBelow(w, list[path[0]], path[1..], n)
  }

  function ResolvedBelow(w: World, dep: Dependency, rest: seq<nat>, n: nat): seq<Dependency>
    decreases |rest| + 1, 0
  {
    if n == 0 then []
    else if rest == [] then Below(w, dep)
    else ResolvedBefore(w, Below(w, dep), rest, n - 1)
  }

  predicate EndsAt(w: World, list: seq<Dependency>, path: seq<nat>, p: Provider)
    decreases |path|, 1
  {
    path != [] && path[0] < |list| && EndsBelow(w, list[path[0]], path[1..], p)
  }

  predicate EndsBelow(w: World, dep: Dependency, rest: seq<nat>, p: Provider)
    decreases |rest| + 1, 0
  {
    if rest == [] then w.Effective(dep.callable) == p else EndsAt(w, Below(w, dep), rest, p)
  }

  /** The error is the depth error for a walk of `n + 1`, and else the exception of the last provider. */
  predicate Blames(w: World, list: seq<Dependency>, path: seq<nat>, n: nat, error: SolveError) {
    match error
    case DepthExceeded(_) => |path| == n + 1
    case ProviderRaised(p, _) => |path| <= n && EndsAt(w, list, path, p)
    case NoCallable(_) => false
  }

  // ----- The providers called

  ghost predicate ReachedBy(w: World, refs: seq<Dependency>, q: Provider) {
    exists i :: 0 <= i < |refs| && Reaches(w, w.Effective(refs[i].callable), q)
  }

  /** The providers that have been called are those the references reach. */
  ghost predicate CallsHold(w: World, refs: seq<Dependency>, st: State) {
    forall q :: Completed(st.instances, q) <==> ReachedBy(w, refs, q)
  }

  lemma {:induction false} ReachedByConcat(w: World, a: seq<Dependency>, b: seq<Dependency>, q: Provider)
    ensures ReachedBy(w, a + b, q) <==> ReachedBy(w, a, q) || ReachedBy(w, b, q)
  {
    if i :| 0 <= i < |a| && Reaches(w, w.Effective(a[i].callable), q) {
      assert Reaches(w, w.Effective((a + b)[i].callable), q);
    }
    if i :| 0 <= i < |b| && Reaches(w, w.Effective(b[i].callable), q) {
      assert Reaches(w, w.Effective((a + b)[|a| + i].callable), q);
    }
  }

  lemma {:induction false} ServedCallsNothingNew(w: World, earlier: seq<Dependency>, dep: Dependency, st: State)
    requires Served(w, earlier, dep) && CallsHold(w, earlier, st)
    ensures CallsHold(w, earlier + [dep], st)
  {
    var p := w.Effective(dep.callable);
    forall q ensures ReachedBy(w, earlier + [dep], q) <==> ReachedBy(w, earlier, q) {
      ReachedByConcat(w, earlier, [dep], q);
      if ReachedBy(w, [dep], q) {
        var i :| 0 <= i < |earlier| && Serves(w, earlier[i], p);
        ServesReaches(w, earlier[i], p);
        ReachesOn(w, w.Effective(earlier[i].callable), p, q);
      }
    }
  }

  lemma {:induction false} CallReaches(w: World, earlier: seq<Dependency>, dep: Dependency, st: State, later: State)
    requires CallsHold(w, earlier + Below(w, dep), st)
    requires |later.instances| == |st.instances| + 1 && st.instances <= later.instances
    requires later.instances[|st.instances|].provider == w.Effective(dep.callable)
    ensures CallsHold(w, earlier + [dep], later)
  {
    var p := w.Effective(dep.callable);
    forall q ensures Completed(later.instances, q) <==> ReachedBy(w, earlier + [dep], q) {
      ReachedByConcat(w, earlier, [dep], q);
      ReachedByConcat(w, earlier, Below(w, dep), q);
      ReachesByStep(w, dep, q);
      assert ReachedBy(w, [dep], q) <==> Reaches(w, p, q) by {
        assert [dep][0] == dep;
      }
      if Completed(st.instances, q) {
        CompletedGrows(st.instances, later.instances, q);
      }
      if q == p {
        assert later.instances[|st.instances|].provider == q;
      }
    }
  }

  // ----- What a step of the resolution reports

  /**
   Success means that no walk fails and that exactly what the list reaches has
   been called; failure, that the first failing walk did, and nothing after it
   was called.
   */
  ghost predicate Reports(w: World, list: seq<Dependency>, earlier: seq<Dependency>, n: nat, st: State,
                          failure: Option<SolveError>)
  {
    match failure
    case None => CallsHold(w, earlier + list, st) && !CanFail(w, list, earlier, n)
    case Some(e) => exists path :: FailedAt(w, list, earlier, n, st, e, path)
  }

  ghost predicate FailedAt(w: World, list: seq<Dependency>, earlier: seq<Dependency>, n: nat, st: State,
                           error: SolveError, path: seq<nat>)
  {
    && FirstFailure(w, list, earlier, path, n)
    && Blames(w, list, path, n, error)
    && CallsHold(w, earlier + ResolvedBefore(w, list, path, n), st)
  }

  lemma {:induction false} FailsAtHead(w: World, list: seq<Dependency>, earlier: seq<Dependency>, path: seq<nat>,
                                       n: nat)
    requires list != [] && path != [] && path[0] == 0
    ensures Fails(w, list, earlier, path, n) <==> Fails(w, [list[0]], earlier, path, n)
    ensures ResolvedBefore(w, list, path, n) == ResolvedBefore(w, [list[0]], path, n)
    ensures forall p :: EndsAt(w, list, path, p) <==> EndsAt(w, [list[0]], path, p)
  {
    assert list[..0] == [list[0]][..0];
  }

  lemma {:induction false} FailsInTail(w: World, list: seq<Dependency>, earlier: seq<Dependency>, path: seq<nat>,
                                       n: nat)
    requires list != [] && path != [] && 0 < path[0] < |list|
    ensures Fails(w, list, earlier, path, n)
       <==> Fails(w, list[1..], earlier + [list[0]], path[0 := path[0] - 1], n)
  {
    assert earlier + list[..path[0]] == earlier + [list[0]] + list[1..][..path[0] - 1];
    assert path[1..] == path[0 := path[0] - 1][1..];
  }

  lemma {:induction false} ResolvedInTail(w: World, list: seq<Dependency>, path: seq<nat>, n: nat)
    requires list != [] && path != [] && 0 < path[0] < |list|
    ensures var path' := path[0 := path[0] - 1];
            && ResolvedBefore(w, list, path, n) == [list[0]] + ResolvedBefore(w, list[1..], path', n)
            && forall p :: EndsAt(w, list, path, p) <==> EndsAt(w, list[1..], path', p)
  {
    assert list[..path[0]] == [list[0]] + list[1..][..path[0] - 1];
    assert path[1..] == path[0 := path[0] - 1][1..];
  }

  /** A failure at the first reference of a list is the failure of the list. */
  lemma {:induction false} HeadFailed(w: World, list: seq<Dependency>, earlier: seq<Dependency>, n: nat, st: State,
                                      error: SolveError)
    requires list != [] && Reports(w, [list[0]], earlier, n, st, Some(error))
    ensures Reports(w, list, earlier, n, st, Some(error))
  {
    var path :| FailedAt(w, [list[0]], earlier, n, st, error, path);
    FailsAtHead(w, list, earlier, path, n);
    forall other | Fails(w, list, earlier, other, n) ensures NotAfter(path, other) {
      if other[0] == 0 {
        FailsAtHead(w, list, earlier, other, n);
      }
    }
    assert FailedAt(w, list, earlier, n, st, error, path);
  }

  /** After a first reference that resolved, a failing walk of the list starts further on. */
  lemma {:induction false} FailsFurtherOn(w: World, list: seq<Dependency>, earlier: seq<Dependency>, path: seq<nat>,
                                          n: nat)
    requires list != [] && Fails(w, list, earlier, path, n) && !Fails(w, [list[0]], earlier, path, n)
    ensures path[0] > 0 && Fails(w, list[1..], earlier + [list[0]], path[0 := path[0] - 1], n)
  {
    if path[0] == 0 {
      FailsAtHead(w, list, earlier, path, n);
    } else {
      FailsInTail(w, list, earlier, path, n);
    }
  }

  lemma {:induction false} ShiftedNotAfter(a: seq<nat>, b: seq<nat>)
    requires a != [] && b != [] && b[0] > 0 && NotAfter(a, b[0 := b[0] - 1])
    ensures NotAfter(a[0 := a[0] + 1], b)
  {
    assert b[0 := b[0] - 1][1..] == b[1..] && a[0 := a[0] + 1][1..] == a[1..];
  }

  lemma {:induction false} TailFailed(w: World, list: seq<Dependency>, earlier: seq<Dependency>, n: nat, st: State,
                                      error: SolveError, tail: seq<nat>)
    requires list != [] && !CanFail(w, [list[0]], earlier, n)
    requires FailedAt(w, list[1..], earlier + [list[0]], n, st, error, tail)
    ensures FailedAt(w, list, earlier, n, st, error, tail[0 := tail[0] + 1])
  {
    var path := tail[0 := tail[0] + 1];
    assert path[0 := path[0] - 1] == tail;
    FailsInTail(w, list, earlier, path, n);
    ResolvedInTail(w, list, path, n);
    assert earlier + [list[0]] + ResolvedBefore(w, list[1..], tail, n) == earlier + ResolvedBefore(w, list, path, n);
    forall other | Fails(w, list, earlier, other, n) ensures NotAfter(path, other) {
      FailsFurtherOn(w, list, earlier, other, n);
      ShiftedNotAfter(tail, other);
    }
  }

  /** After a first reference that resolved, the rest of the list decides. */
  lemma {:induction false} HeadResolved(w: World, list: seq<Dependency>, earlier: seq<Dependency>, n: nat, st: State,
                                        failure: Option<SolveError>)
    requires list != [] && !CanFail(w, [list[0]], earlier, n)
    requires Reports(w, list[1..], earlier + [list[0]], n, st, failure)
    ensures Reports(w, list, earlier, n, st, failure)
  {
    if failure.Some? {
      var tail :| FailedAt(w, list[1..], earlier + [list[0]], n, st, failure.value, tail);
      TailFailed(w, list, earlier, n, st, failure.value, tail);
    } else {
      assert earlier + [list[0]] + list[1..] == earlier + list;
      forall path ensures !Fails(w, list, earlier, path, n) {
        if Fails(w, list, earlier, path, n) {
          FailsFurtherOn(w, list, earlier, path, n);
        }
      }
    }
  }

  // ----- One reference

  lemma {:induction false} FailsAlone(w: World, dep: Dependency, earlier: seq<Dependency>, path: seq<nat>, n: nat)
    ensures Fails(w, [dep], earlier, path, n) <==>
              path != [] && path[0] == 0 && FailsBelow(w, dep, earlier, path[1..], n)
  {
    assert earlier + [dep][..0] == earlier;
  }

  /** A reference below which something fails, fails there. */
  lemma {:induction false} BelowFailed(w: World, dep: Dependency, earlier: seq<Dependency>, n: nat, st: State,
                                       error: SolveError)
    requires n > 0 && !Served(w, earlier, dep)
    requires Reports(w, Below(w, dep), earlier, n - 1, st, Some(error))
    ensures Reports(w, [dep], earlier, n, st, Some(error))
  {
    var sub :| FailedAt(w, Below(w, dep), earlier, n - 1, st, error, sub);
    var path := [0] + sub;
    assert path[1..] == sub;
    FailsAlone(w, dep, earlier, path, n);
    assert ResolvedBefore(w, [dep], path, n) == ResolvedBefore(w, Below(w, dep), sub, n - 1);
    forall other | Fails(w, [dep], earlier, other, n) ensures NotAfter(path, other) {
      FailsAlone(w, dep, earlier, other, n);
    }
    assert FailedAt(w, [dep], earlier, n, st, error, path);
  }

  /** Once everything below has resolved, only the provider's own exception is left to fail. */
  lemma {:induction false} FailsByItself(w: World, dep: Dependency, earlier: seq<Dependency>, n: nat, path: seq<nat>)
    requires n > 0 && !Served(w, earlier, dep)
    requires !CanFail(w, Below(w, dep), earlier, n - 1)
    ensures Fails(w, [dep], earlier, path, n) <==> path == [0] && Raises(w, w.Effective(dep.callable))
  {
    FailsAlone(w, dep, earlier, path, n);
  }

  lemma {:induction false} ItselfFailed(w: World, dep: Dependency, earlier: seq<Dependency>, n: nat, st: State,
                                        error: Exception)
    requires n > 0 && !Served(w, earlier, dep) && Raises(w, w.Effective(dep.callable))
    requires Reports(w, Below(w, dep), earlier, n - 1, st, None)
    ensures Reports(w, [dep], earlier, n, st, Some(ProviderRaised(w.Effective(dep.callable), error)))
  {
    forall path ensures Fails(w, [dep], earlier, path, n) <==> path == [0] {
      FailsByItself(w, dep, earlier, n, path);
    }
    assert ResolvedBefore(w, [dep], [0], n) == Below(w, dep);
    assert FailedAt(w, [dep], earlier, n, st, ProviderRaised(w.Effective(dep.callable), error), [0]);
  }

  lemma {:induction false} TooDeep(w: World, dep: Dependency, earlier: seq<Dependency>, st: State, labels: seq<string>)
    requires CallsHold(w, earlier, st)
    ensures Reports(w, [dep], earlier, 0, st, Some(DepthExceeded(labels)))
  {
    assert earlier + ResolvedBefore(w, [dep], [0], 0) == earlier;
    assert FailedAt(w, [dep], earlier, 0, st, DepthExceeded(labels), [0]);
  }

  // ----- The resolution

  /** Whether a call raises can be told without its number in the request. */
  ghost predicate Predictable(w: World) {
    RaisesByProvider(w) || Deterministic(w)
  }

  ghost predicate Known(w: World, earlier: seq<Dependency>, st: State) {
    && Predictable(w)
    && (Deterministic(w) ==> ObjectsSound(w, st))
    && CacheHolds(w, earlier, st)
    && CallsHold(w, earlier, st)
  }

  lemma {:induction false} CallRaisesIff(w: World, p: Provider, args: map<string, Ref>, st: State)
    requires Predictable(w)
    requires Deterministic(w) ==> EvaluateParams(w, w.Params(p), |st.instances|, map[]) == Done(st.Values(args))
    ensures w.invoke(|st.instances|, p, st.Values(args)).Raised? <==> Raises(w, p)
  {
    if !RaisesByProvider(w) {
      var kwargs := st.Values(args);
      assert w.invoke(|st.instances|, p, kwargs) == w.invoke(0, p, kwargs);
      if w.invoke(0, p, kwargs).Raised? {
        assert RaisesWithin(w, p, |st.instances|);
      }
      if fuel: nat :| RaisesWithin(w, p, fuel) {
        SameArguments(w, p, fuel, |st.instances|);
      }
    }
  }

  lemma {:induction false} SameArguments(w: World, p: Provider, a: nat, b: nat)
    requires EvaluateParams(w, w.Params(p), a, map[]).Done? && EvaluateParams(w, w.Params(p), b, map[]).Done?
    ensures EvaluateParams(w, w.Params(p), a, map[]) == EvaluateParams(w, w.Params(p), b, map[])
  {
    if a <= b {
      EvaluateParamsMonotone(w, w.Params(p), a, b, map[]);
    } else {
      EvaluateParamsMonotone(w, w.Params(p), b, a, map[]);
    }
  }

  /** The call, once everything below the reference has resolved. */
  lemma {:induction false} CallReports(w: World, dep: Dependency, earlier: seq<Dependency>, n: nat,
                                       args: map<string, Ref>, st: State)
    requires n > 0 && !Served(w, earlier, dep) && Predictable(w)
    requires Reports(w, Below(w, dep), earlier, n - 1, st, None)
    requires var p := w.Effective(dep.callable);
             Deterministic(w) ==> EvaluateParams(w, w.Params(p), |st.instances|, map[]) == Done(st.Values(args))
    ensures var s := CallAndRemember(w, w.Effective(dep.callable), dep.useCache, args, st);
            Reports(w, [dep], earlier, n, s.state, FailureOf(s.result))
  {
    var p := w.Effective(dep.callable);
    var s := CallAndRemember(w, p, dep.useCache, args, st);
    CallRaisesIff(w, p, args, st);
    match w.invoke(|st.instances|, p, st.Values(args))
    case Raised(e) =>
      ItselfFailed(w, dep, earlier, n, st, e);
    case Returned(_) =>
      CallReaches(w, earlier, dep, st, s.state);
      forall path ensures !Fails(w, [dep], earlier, path, n) {
        FailsByItself(w, dep, earlier, n, path);
      }
  }

  lemma {:induction false} HitReports(w: World, dep: Dependency, earlier: seq<Dependency>, n: nat, st: State)
    requires n > 0 && Served(w, earlier, dep) && CallsHold(w, earlier, st)
    ensures Reports(w, [dep], earlier, n, st, None)
  {
    ServedCallsNothingNew(w, earlier, dep, st);
    forall path ensures !Fails(w, [dep], earlier, path, n) {
      FailsAlone(w, dep, earlier, path, n);
    }
  }

  /** A reference not in the cache: what is below it, then the call. */
  lemma {:induction false} MissReports(w: World, dep: Dependency, chain: seq<Provider>, st: State,
                                       earlier: seq<Dependency>)
    requires |chain| < MAX_DEPTH && Known(w, earlier, st) && !Served(w, earlier, dep)
    requires var p := w.Effective(dep.callable);
             var t := ResolveParams(w, w.Params(p), chain + [p], st, map[]);
             Reports(w, Below(w, dep), earlier, MAX_DEPTH - |chain| - 1, t.state, FailureOf(t.result))
    ensures var s := Resolve(w, dep, chain, st);
            Reports(w, [dep], earlier, MAX_DEPTH - |chain|, s.state, FailureOf(s.result))
  {
    var p, n := w.Effective(dep.callable), MAX_DEPTH - |chain|;
    assert !(dep.useCache && p in st.cache);
    var t := ResolveParams(w, w.Params(p), chain + [p], st, map[]);
    if t.result.Err? {
      BelowFailed(w, dep, earlier, n, t.state, t.result.error);
    } else {
      if Deterministic(w) {
        ParamsTransparent(w, w.Params(p), chain + [p], st, map[]);
        assert st.Values(map[]) == map[];
      }
      CallReports(w, dep, earlier, n, t.result.value, t.state);
    }
  }

  lemma {:induction false} KnownAfter(w: World, dep: Dependency, chain: seq<Provider>, st: State,
                                      earlier: seq<Dependency>)
    requires |chain| <= MAX_DEPTH && Known(w, earlier, st)
    requires var s := Resolve(w, dep, chain, st);
             s.result.Ok? ==> CallsHold(w, earlier + [dep], s.state)
    ensures var s := Resolve(w, dep, chain, st);
            s.result.Ok? ==> Known(w, earlier + [dep], s.state)
  {
    ResolveDeep(w, dep, chain, st, earlier);
    if Deterministic(w) {
      ResolveTransparent(w, dep, chain, st);
    }
  }

  lemma {:induction false} ResolveReports(w: World, dep: Dependency, chain: seq<Provider>, st: State,
                                          earlier: seq<Dependency>)
    requires |chain| <= MAX_DEPTH && Known(w, earlier, st)
    ensures var s := Resolve(w, dep, chain, st);
            && Reports(w, [dep], earlier, MAX_DEPTH - |chain|, s.state, FailureOf(s.result))
            && (s.result.Ok? ==> Known(w, earlier + [dep], s.state))
    decreases MAX_DEPTH - |chain|, 0
  {
    var p := w.Effective(dep.callable);
    if |chain| == MAX_DEPTH {
      TooDeep(w, dep, earlier, st, w.Labels(chain + [p]));
    } else if dep.useCache && p in st.cache {
      var s := Resolve(w, dep, chain, st);
      assert CallsHold(w, earlier, s.state);
      HitReports(w, dep, earlier, MAX_DEPTH - |chain|, s.state);
    } else {
      ProvidersAreComplete(w, p);
      ParamsReport(w, w.Params(p), chain + [p], st, map[], earlier);
      MissReports(w, dep, chain, st, earlier);
    }
    KnownAfter(w, dep, chain, st, earlier);
  }

  lemma {:induction false} ParamsReport(w: World, params: seq<ParamPlan>, chain: seq<Provider>, st: State,
                                        args: map<string, Ref>, earlier: seq<Dependency>)
    requires |chain| <= MAX_DEPTH && Known(w, earlier, st) && Complete(params)
    ensures var s, list := ResolveParams(w, params, chain, st, args), Dependencies(params);
            Reports(w, list, earlier, MAX_DEPTH - |chain|, s.state, FailureOf(s.result))
    decreases MAX_DEPTH - |chain|, 1 + |params|
  {
    var list, n := Dependencies(params), MAX_DEPTH - |chain|;
    if params == [] {
      assert earlier + list == earlier;
    } else if !params[0].kind.Depends? {
      assert list == Dependencies(params[1..]);
      ParamsReport(w, params[1..], chain, st, args, earlier);
    } else {
      var dep := params[0].dependency.value;
      ResolveReports(w, dep, chain, st, earlier);
      var s := Resolve(w, dep, chain, st);
      assert list[0] == dep && list[1..] == Dependencies(params[1..]);
      if s.result.Ok? {
        var args' := args[params[0].name := s.result.value];
        ParamsReport(w, params[1..], chain, s.state, args', earlier + [dep]);
        var t := ResolveParams(w, params[1..], chain, s.state, args');
        HeadResolved(w, list, earlier, n, t.state, FailureOf(t.result));
      } else {
        HeadFailed(w, list, earlier, n, s.state, s.result.error);
      }
    }
  }

  // ----- The whole request

  lemma {:induction false} PlanReports(w: World, params: seq<ParamPlan>, stream: bool, st: State, call: HandlerCall,
                                       earlier: seq<Dependency>)
    requires Known(w, earlier, st) && Complete(params)
    ensures var s := SolvePlan(w, params, stream, st, call);
            Reports(w, Dependencies(params), earlier, MAX_DEPTH, s.state, FailureOf(s.result))
    decreases |params|
  {
    var list := Dependencies(params);
    if params == [] {
      assert earlier + list == earlier;
    } else if !params[0].kind.Depends? {
      assert list == Dependencies(params[1..]);
      PlanReports(w, params[1..], stream, st, FillBuiltIn(params[0], stream, call), earlier);
    } else {
      var dep := params[0].dependency.value;
      ResolveReports(w, dep, [], st, earlier);
      var s := Resolve(w, dep, [], st);
      assert list[0] == dep && list[1..] == Dependencies(params[1..]);
      if s.result.Ok? {
        var call' := call.With(params[0].name, Resolved(s.result.value));
        PlanReports(w, params[1..], stream, s.state, call', earlier + [dep]);
        var t := SolvePlan(w, params[1..], stream, s.state, call');
        HeadResolved(w, list, earlier, MAX_DEPTH, t.state, FailureOf(t.result));
      } else {
        HeadFailed(w, list, earlier, MAX_DEPTH, s.state, s.result.error);
      }
    }
  }

  lemma {:induction false} RequestReports(w: World, routes: seq<Dependency>, params: seq<ParamPlan>, stream: bool,
                                          st: State, earlier: seq<Dependency>)
    requires Known(w, earlier, st) && Complete(params)
    ensures var s := SolveFrom(w, routes, params, stream, st);
            Reports(w, RootReferences(routes, params), earlier, MAX_DEPTH, s.state, FailureOf(s.result))
    decreases |routes|
  {
    var list := RootReferences(routes, params);
    if routes == [] {
      assert list == Dependencies(params);
      PlanReports(w, params, stream, st, NO_CALL, earlier);
    } else {
      ResolveReports(w, routes[0], [], st, earlier);
      var s := Resolve(w, routes[0], [], st);
      assert list[0] == routes[0] && list[1..] == RootReferences(routes[1..], params);
      if s.result.Ok? {
        RequestReports(w, routes[1..], params, stream, s.state, earlier + [routes[0]]);
        var t := SolveFrom(w, routes[1..], params, stream, s.state);
        HeadResolved(w, list, earlier, MAX_DEPTH, t.state, FailureOf(t.result));
      } else {
        HeadFailed(w, list, earlier, MAX_DEPTH, s.state, s.result.error);
      }
    }
  }

  /**
   When calls raise by provider, or depend on their arguments only: `solve`
   fails if and only if some walk from a root fails; the first walk to fail
   names the error, and by then exactly the providers reached by the references
   resolved before its end have been called.
   */
  lemma {:induction false} WalkFailsIff(w: World, routes: seq<Dependency>, params: seq<ParamPlan>, stream: bool)
    requires Predictable(w) && Complete(params)
    ensures var s, roots := Solve(w, routes, params, stream), RootReferences(routes, params);
            && (s.result.Err? <==> CanFail(w, roots, [], MAX_DEPTH))
            && (s.result.Err? ==> exists path :: FailedAt(w, roots, [], MAX_DEPTH, s.state, s.result.error, path))
  {
    assert Known(w, [], EMPTY);
    RequestReports(w, routes, params, stream, EMPTY, []);
    assert SolveFrom(w, routes, params, stream, EMPTY) == Solve(w, routes, params, stream);
    var s, roots := Solve(w, routes, params, stream), RootReferences(routes, params);
    if s.result.Err? {
      var path :| FailedAt(w, roots, [], MAX_DEPTH, s.state, s.result.error, path);
      assert Fails(w, roots, [], path, MAX_DEPTH);
    } else {
      assert !CanFail(w, roots, [], MAX_DEPTH);
    }
  }

  /** There is only one first failure. */
  lemma {:induction false} FirstIsUnique(a: seq<nat>, b: seq<nat>)
    requires NotAfter(a, b) && NotAfter(b, a)
    ensures a == b
    decreases |a|
  {
    if a != [] && b != [] {
      FirstIsUnique(a[1..], b[1..]);
      assert a == [a[0]] + a[1..] && b == [b[0]] + b[1..];
    }
  }
}
