/**
 One line of 33 providers, asked for in three ways: what `DepthLimit` says of
 all requests, seen on an example.
 */
module DepthOrder {
  import opened Wrappers
  import opened Scanner
  import opened Injection
  import opened Topology

  function Rung(i: nat): Dependency {
    Dependency(Provider(i), true)
  }

  /** Provider i + 1 depends on provider i; provider 0 on nothing.  Nobody raises. */
  const LINE := World(
    (p: Provider) => if p.id == 0 then [] else [Parameter("below", OtherClass, Marker(Rung(p.id - 1)))],
    (p: Provider) => "rung",
    (p: Provider) => false,
    (n: nat, p: Provider, kwargs: map<string, Object>) => Returned(Object(p.id)),
    map[])

  lemma {:induction false} LineParams(i: nat)
    ensures i == 0 ==> LINE.Params(Provider(i)) == []
    ensures i > 0 ==> && |LINE.Params(Provider(i))| == 1
                      && LINE.Params(Provider(i))[0].kind == Depends
                      && LINE.Params(Provider(i))[0].dependency == Some(Rung(i - 1))
  {
    ScanKeepsKinds(LINE.signature(Provider(i)));
  }

  /** The cache holds the `n` lowest rungs. */
  ghost predicate CachedBelow(st: State, n: nat) {
    forall p :: p in st.cache <==> p.id < n
  }

  lemma {:induction false} OneParam(params: seq<ParamPlan>, chain: seq<Provider>, st: State, below: Step<Ref>)
    requires |params| == 1 && params[0].kind.Depends? && params[0].dependency.Some? && |chain| <= MAX_DEPTH
    requires below == Resolve(LINE, params[0].dependency.value, chain, st) && below.result.Ok?
    ensures ResolveParams(LINE, params, chain, st, map[])
         == Step(below.state, Ok(map[params[0].name := below.result.value]))
  {
    assert params[1..] == [];
  }

  /** A rung not cached yet resolves as soon as the one below it does. */
  lemma {:induction false} RungStep(i: nat, chain: seq<Provider>, st: State)
    requires |chain| < MAX_DEPTH && Provider(i) !in st.cache
    requires i > 0 ==> var below := Resolve(LINE, Rung(i - 1), chain + [Provider(i)], st);
                       below.result.Ok? && CachedBelow(below.state, i)
    requires i == 0 ==> CachedBelow(st, 0)
    ensures var s := Resolve(LINE, Rung(i), chain, st);
            s.result.Ok? && CachedBelow(s.state, i + 1)
  {
    LineParams(i);
    var params, chain' := LINE.Params(Provider(i)), chain + [Provider(i)];
    var s := ResolveParams(LINE, params, chain', st, map[]);
    if i > 0 {
      var below := Resolve(LINE, Rung(i - 1), chain', st);
      OneParam(params, chain', st, below);
    }
    assert s.result.Ok? && CachedBelow(s.state, i);
    assert Resolve(LINE, Rung(i), chain, st) == CallAndRemember(LINE, Provider(i), true, s.result.value, s.state);
  }

  lemma {:induction false} RungResolves(i: nat, chain: seq<Provider>, st: State, n: nat)
    requires n <= i && CachedBelow(st, n)
    requires |chain| + (i - n) + (if n == 0 then 1 else 2) <= MAX_DEPTH
    ensures var s := Resolve(LINE, Rung(i), chain, st);
            s.result.Ok? && CachedBelow(s.state, i + 1)
    decreases i
  {
    if n < i {
      RungResolves(i - 1, chain + [Provider(i)], st, n);
    }
    RungStep(i, chain, st);
  }

  /** The rung where the descent stops counts too, although it is cached. */
  lemma {:induction false} RungTooDeep(i: nat, chain: seq<Provider>, st: State, n: nat)
    requires n <= i && CachedBelow(st, n) && |chain| <= MAX_DEPTH
    requires |chain| + (i - n) + (if n == 0 then 1 else 2) > MAX_DEPTH
    ensures var r := Resolve(LINE, Rung(i), chain, st).result; r.Err? && r.error.DepthExceeded?
    decreases i
  {
    LineParams(i);
    var chain' := chain + [Provider(i)];
    if |chain| < MAX_DEPTH {
      if n < i {
        RungTooDeep(i - 1, chain', st, n);
      }
      var below := Resolve(LINE, Rung(i - 1), chain', st).result;
      assert below.Err? && below.error.DepthExceeded?;
    }
  }

  function Line(top: nat): seq<Provider> {
    seq(top + 1, i requires 0 <= i <= top => Provider(top - i))
  }

  lemma {:induction false} LineIsPath()
    ensures IsPath(LINE, Line(32)) && |Line(32)| == 33 && Line(32)[0] == Provider(32)
  {
    forall i | 0 <= i < 32 ensures Edge(LINE, Line(32)[i], Line(32)[i + 1]) {
      LineParams(32 - i);
    }
  }

  lemma {:induction false} BottomFirstSucceeds()
    ensures Solve(LINE, [Rung(31), Rung(32)], [], false).result.Ok?
  {
    RungResolves(31, [], EMPTY, 0);
    var s := Resolve(LINE, Rung(31), [], EMPTY);
    RungResolves(32, [], s.state, 32);
    assert [Rung(31), Rung(32)][1..] == [Rung(32)] && [Rung(32)][1..] == [];
    assert SolveRoutes(LINE, [Rung(32)], s.state).result.Ok?;
    assert SolveRoutes(LINE, [Rung(31), Rung(32)], EMPTY).result.Ok?;
  }

  lemma {:induction false} CachedLastFails()
    ensures var r := Solve(LINE, [Rung(0), Rung(32)], [], false).result; r.Err? && r.error.DepthExceeded?
  {
    RungResolves(0, [], EMPTY, 0);
    var s := Resolve(LINE, Rung(0), [], EMPTY);
    RungTooDeep(32, [], s.state, 1);
    assert [Rung(0), Rung(32)][1..] == [Rung(32)];
    assert SolveRoutes(LINE, [Rung(0), Rung(32)], EMPTY) == SolveRoutes(LINE, [Rung(32)], s.state);
  }

  /**
   All three requests reach the same path of 33 providers.  Resolved after its
   lower 32 it succeeds, and before them it fails; having only its last
   provider cached does not help, because the depth is checked before the cache.
   */
  lemma {:induction false} OrderDecidesDepth()
    ensures IsPath(LINE, Line(32)) && |Line(32)| == 33
    ensures Line(32)[0] in Roots(LINE, [Rung(31), Rung(32)], [])
    ensures Solve(LINE, [Rung(31), Rung(32)], [], false).result.Ok?
    ensures var r := Solve(LINE, [Rung(32), Rung(31)], [], false).result; r.Err? && r.error.DepthExceeded?
    ensures var r := Solve(LINE, [Rung(0), Rung(32)], [], false).result; r.Err? && r.error.DepthExceeded?
  {
    LineIsPath();
    BottomFirstSucceeds();
    RungTooDeep(32, [], EMPTY, 0);
    CachedLastFails();
    assert Provider(32) in Roots(LINE, [Rung(31), Rung(32)], []) by {
      assert [Rung(31), Rung(32)][1] == Rung(32);
    }
  }
}
