/** Generator dependencies: what is open when, and in which order it is closed. */
module Teardown {
  import opened Wrappers
  import opened Scanner
  import opened Injection
  import opened Topology
  import opened Invocation

  /** The numbers of the generator calls, oldest first. */
  function Generators(w: World, instances: seq<Instance>): (r: seq<Ref>)
    ensures forall i :: 0 <= i < |r| ==> r[i] < |instances| && w.isGenerator(instances[r[i]].provider)
    ensures forall i, j :: 0 <= i < j < |r| ==> r[i] < r[j]
    ensures forall k :: 0 <= k < |instances| && w.isGenerator(instances[k].provider) ==> k in r
  {
    if instances == [] then []
    else
      var init := instances[..|instances| - 1];
      var before := Generators(w, init);
      assert forall i :: 0 <= i < |before| ==> instances[before[i]] == init[before[i]];
      assert forall k :: 0 <= k < |init| ==> instances[k] == init[k];
      if w.isGenerator(instances[|instances| - 1].provider) then before + [|instances| - 1] else before
  }

  predicate StackMatches(w: World, st: State) {
    st.exitStack == Generators(w, st.instances)
  }

  lemma {:induction false} GeneratorsNext(w: World, instances: seq<Instance>, made: Instance)
    ensures Generators(w, instances + [made]) ==
            Generators(w, instances) + if w.isGenerator(made.provider) then [|instances|] else []
  {
    assert (instances + [made])[..|instances|] == instances;
  }

  lemma {:induction false} CallMatches(w: World, p: Provider, shared: bool, args: map<string, Ref>, st: State)
    requires StackMatches(w, st)
    ensures StackMatches(w, CallAndRemember(w, p, shared, args, st).state)
  {
    match w.invoke(|st.instances|, p, st.Values(args))
    case Raised(_) =>
    case Returned(value) => GeneratorsNext(w, st.instances, Instance(p, shared, args, value));
  }

  lemma {:induction false} ResolveMatches(w: World, dep: Dependency, chain: seq<Provider>, st: State)
    requires |chain| <= MAX_DEPTH && StackMatches(w, st)
    ensures StackMatches(w, Resolve(w, dep, chain, st).state)
    decreases MAX_DEPTH - |chain|, 0
  {
    var p := w.Effective(dep.callable);
    if |chain| < MAX_DEPTH && !(dep.useCache && p in st.cache) {
      ParamsMatch(w, w.Params(p), chain + [p], st, map[]);
      var s := ResolveParams(w, w.Params(p), chain + [p], st, map[]);
      if s.result.Ok? {
        CallMatches(w, p, dep.useCache, s.result.value, s.state);
      }
    }
  }

  lemma {:induction false} ParamsMatch(w: World, params: seq<ParamPlan>, chain: seq<Provider>, st: State,
                                       args: map<string, Ref>)
    requires |chain| <= MAX_DEPTH && StackMatches(w, st)
    ensures StackMatches(w, ResolveParams(w, params, chain, st, args).state)
    decreases MAX_DEPTH - |chain|, 1 + |params|
  {
    if params == [] {
    } else if !params[0].kind.Depends? {
      ParamsMatch(w, params[1..], chain, st, args);
    } else if params[0].dependency.Some? {
      ResolveMatches(w, params[0].dependency.value, chain, st);
      var s := Resolve(w, params[0].dependency.value, chain, st);
      if s.result.Ok? {
        ParamsMatch(w, params[1..], chain, s.state, args[params[0].name := s.result.value]);
      }
    }
  }

  lemma {:induction false} RoutesMatch(w: World, routes: seq<Dependency>, st: State)
    requires StackMatches(w, st)
    ensures StackMatches(w, SolveRoutes(w, routes, st).state)
    decreases |routes|
  {
    if routes != [] {
      ResolveMatches(w, routes[0], [], st);
      RoutesMatch(w, routes[1..], Resolve(w, routes[0], [], st).state);
    }
  }

  lemma {:induction false} PlanMatches(w: World, params: seq<ParamPlan>, stream: bool, st: State, call: HandlerCall)
    requires StackMatches(w, st)
    ensures StackMatches(w, SolvePlan(w, params, stream, st, call).state)
    decreases |params|
  {
    if params == [] {
    } else if !params[0].kind.Depends? {
      PlanMatches(w, params[1..], stream, st, FillBuiltIn(params[0], stream, call));
    } else if params[0].dependency.Some? {
      ResolveMatches(w, params[0].dependency.value, [], st);
      var s := Resolve(w, params[0].dependency.value, [], st);
      if s.result.Ok? {
        PlanMatches(w, params[1..], stream, s.state, call.With(params[0].name, Resolved(s.result.value)));
      }
    }
  }

  lemma {:induction false} SolveMatches(w: World, routes: seq<Dependency>, params: seq<ParamPlan>, stream: bool)
    ensures StackMatches(w, Solve(w, routes, params, stream).state)
  {
    RoutesMatch(w, routes, EMPTY);
    PlanMatches(w, params, stream, SolveRoutes(w, routes, EMPTY).state, NO_CALL);
  }

  // ----- What was built from what

  /** Object `user` was built from object `used`, directly or through the objects it was given. */
  ghost predicate BuiltFrom(instances: seq<Instance>, user: Ref, used: Ref)
    decreases user
  {
    user < |instances| &&
    exists n :: n in instances[user].args &&
                (instances[user].args[n] == used
                 || (instances[user].args[n] < user && BuiltFrom(instances, instances[user].args[n], used)))
  }

  lemma {:induction false} BuiltFromIsOlder(w: World, st: State, user: Ref, used: Ref)
    requires Grounded(w, st) && BuiltFrom(st.instances, user, used)
    ensures used < user
    decreases user
  {
    assert Ordered(w, st.instances, user);
    var n :| n in st.instances[user].args &&
             (st.instances[user].args[n] == used
              || (st.instances[user].args[n] < user && BuiltFrom(st.instances, st.instances[user].args[n], used)));
    if st.instances[user].args[n] != used {
      BuiltFromIsOlder(w, st, st.instances[user].args[n], used);
    }
  }

  // ----- Teardown

  lemma {:induction false} ReversedMembers(stack: seq<Ref>, k: Ref)
    ensures k in Reversed(stack) <==> k in stack
  {
    if k in stack {
      var i :| 0 <= i < |stack| && stack[i] == k;
      assert Reversed(stack)[|stack| - 1 - i] == k;
    }
  }

  lemma {:induction false} ClosingIsSafe(w: World, st: State, k: nat)
    requires StackMatches(w, st) && Grounded(w, st)
    ensures var closed := Reversed(st.exitStack);
            && (k in closed <==> k < |st.instances| && w.isGenerator(st.instances[k].provider))
            && (forall i, j :: 0 <= i < j < |closed| ==> closed[i] > closed[j])
            && (forall i, j ::
                  0 <= i < |closed| && 0 <= j < |closed| && BuiltFrom(st.instances, closed[i], closed[j]) ==> i < j)
  {
    var closed := Reversed(st.exitStack);
    ReversedMembers(st.exitStack, k);
    forall i, j | 0 <= i < |closed| && 0 <= j < |closed| && BuiltFrom(st.instances, closed[i], closed[j])
      ensures i < j
    {
      BuiltFromIsOlder(w, st, closed[i], closed[j]);
    }
  }

  /**
   After a solved request, closing the stack tears down every generator object
   exactly once and nothing else, newest first, and no object before one built
   from it.
   */
  lemma {:induction false} TeardownSafety(w: World, routes: seq<Dependency>, params: seq<ParamPlan>, stream: bool,
                                          k: nat)
    ensures var st := Solve(w, routes, params, stream).state;
            var closed := Reversed(st.exitStack);
            && (k in closed <==> k < |st.instances| && w.isGenerator(st.instances[k].provider))
            && (forall i, j :: 0 <= i < j < |closed| ==> closed[i] > closed[j])
            && (forall i, j ::
                  0 <= i < |closed| && 0 <= j < |closed| && BuiltFrom(st.instances, closed[i], closed[j]) ==> i < j)
  {
    SolveMatches(w, routes, params, stream);
    SolveGrounds(w, routes, params, stream);
    ClosingIsSafe(w, Solve(w, routes, params, stream).state, k);
  }

  // ----- The exception that is left

  /** Whether any teardown on the stack fails. */
  predicate AnyFails(close: Ref -> Option<Exception>, stack: seq<Ref>) {
    exists i :: 0 <= i < |stack| && close(stack[i]).Some?
  }

  /**
   A failing teardown hides whatever the handler produced, and of several the
   one left standing is the failure of the oldest object; without failures the
   handler's own result or exception stands.
   */
  lemma {:induction false} OldestFailureWins(close: Ref -> Option<Exception>, stack: seq<Ref>,
                                             pending: Option<Exception>)
    ensures !AnyFails(close, stack) ==> Unwound(close, stack, pending) == pending
    ensures forall i :: 0 <= i < |stack| && close(stack[i]).Some? && !AnyFails(close, stack[..i]) ==>
                          Unwound(close, stack, pending) == close(stack[i])
    decreases |stack|
  {
    if stack != [] {
      var rest, top := stack[..|stack| - 1], stack[|stack| - 1];
      OldestFailureWins(close, rest, if close(top).Some? then close(top) else pending);
      assert forall i :: 0 <= i < |rest| ==> stack[i] == rest[i] && stack[..i] == rest[..i];
      if !AnyFails(close, stack) {
        assert close(stack[|stack| - 1]).None?;
        assert !AnyFails(close, rest);
      }
    }
  }
}
