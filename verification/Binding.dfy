/** When does the call that `solve` prepares actually bind to the handler's signature? */
module Binding {
  import opened Wrappers
  import opened Scanner
  import opened Injection
  import opened Invocation

  predicate IsLegacy(p: Parameter) {
    KindOf(p).PositionalLegacy?
  }

  /** The parameters filled positionally come first. */
  predicate LegacyFirst(sig: seq<Parameter>) {
    forall i, j :: 0 <= i < j < |sig| && IsLegacy(sig[j]) ==> IsLegacy(sig[i])
  }

  predicate SignatureNamesDistinct(sig: seq<Parameter>) {
    forall i, j :: 0 <= i < j < |sig| ==> sig[i].name != sig[j].name
  }

  /** Every parameter kind can be supplied: there is a stream, or no parameter asks for one. */
  predicate Suppliable(sig: seq<Parameter>, stream: bool) {
    forall i :: 0 <= i < |sig| && KindOf(sig[i]).AgentStream? ==> stream
  }

  /** Parameters of these kinds get no keyword argument: a stream parameter does not without a stream. */
  predicate NoKeyword(kind: InjectionKind, stream: bool) {
    kind.PositionalLegacy? || (kind.AgentStream? && !stream)
  }

  /**
   The positional arguments, as many as there are legacy parameters, meet only
   parameters without a keyword argument; the others without one have a default.
   */
  predicate Bindable(sig: seq<Parameter>, stream: bool) {
    forall i :: 0 <= i < |sig| ==>
      if i < LegacyParams(sig) then NoKeyword(KindOf(sig[i]), stream)
      else NoKeyword(KindOf(sig[i]), stream) ==> !sig[i].default.NoDefault?
  }

  function LegacyCount(params: seq<ParamPlan>): nat {
    if params == [] then 0 else (if params[0].kind.PositionalLegacy? then 1 else 0) + LegacyCount(params[1..])
  }

  /** The argument is one that the parameter's kind calls for. */
  predicate Fits(kind: InjectionKind, arg: Arg) {
    match kind
    case Intent => arg.IntentArg?
    case Context => arg.ContextArg?
    case AgentTasks => arg.TasksArg?
    case UploadedFiles => arg.FilesArg?
    case HtmxHeaders => arg.HtmxArg?
    case AgentStream => arg.StreamArg?
    case Depends => arg.Resolved?
    case PositionalLegacy => false
  }

  /** Positional arguments are the intent, then the context as often as needed. */
  predicate PositionalShape(call: HandlerCall) {
    forall i :: 0 <= i < |call.positional| ==> call.positional[i] == if i == 0 then IntentArg else ContextArg
  }

  /** `after` is `before` with the given parameters filled in, each by what its kind calls for. */
  ghost predicate Filled(params: seq<ParamPlan>, stream: bool, before: HandlerCall, after: HandlerCall) {
    && |after.positional| == |before.positional| + LegacyCount(params)
    && (forall n :: n in before.kwargs ==> n in after.kwargs && after.kwargs[n] == before.kwargs[n])
    && (forall n :: n in after.kwargs && n !in before.kwargs ==> NamesKeyword(params, stream, n))
    && (forall i :: 0 <= i < |params| && !NoKeyword(params[i].kind, stream) ==>
          params[i].name in after.kwargs && Fits(params[i].kind, after.kwargs[params[i].name]))
  }

  predicate NamesKeyword(params: seq<ParamPlan>, stream: bool, name: string) {
    exists i :: 0 <= i < |params| && params[i].name == name && !NoKeyword(params[i].kind, stream)
  }

  lemma {:induction false} FilledHead(params: seq<ParamPlan>, stream: bool, before: HandlerCall, mid: HandlerCall,
                                      after: HandlerCall)
    requires params != [] && Filled(params[..1], stream, before, mid) && Filled(params[1..], stream, mid, after)
    ensures Filled(params, stream, before, after)
  {
    assert LegacyCount(params[..1]) == if params[0].kind.PositionalLegacy? then 1 else 0 by {
      assert params[..1][0] == params[0] && params[..1][1..] == [];
    }
    forall n | n in after.kwargs && n !in before.kwargs
      ensures NamesKeyword(params, stream, n)
    {
      if n in mid.kwargs {
        assert NamesKeyword(params[..1], stream, n);
        assert params[0].name == n;
      } else {
        var i :| 0 <= i < |params[1..]| && params[1..][i].name == n && !NoKeyword(params[1..][i].kind, stream);
        assert params[i + 1].name == n;
      }
    }
    forall i | 0 <= i < |params| && !NoKeyword(params[i].kind, stream)
      ensures params[i].name in after.kwargs && Fits(params[i].kind, after.kwargs[params[i].name])
    {
      assert params[i] == if i == 0 then params[..1][0] else params[1..][i - 1];
    }
  }

  lemma {:induction false} FilledByBuiltIn(params: seq<ParamPlan>, stream: bool, call: HandlerCall)
    requires params != [] && !params[0].kind.Depends?
    requires DistinctNames(params) && Unused(params, call.kwargs.Keys) && PositionalShape(call)
    ensures Filled(params[..1], stream, call, FillBuiltIn(params[0], stream, call))
    ensures PositionalShape(FillBuiltIn(params[0], stream, call))
  {
    var call' := FillBuiltIn(params[0], stream, call);
    assert params[..1][0] == params[0] && params[..1][1..] == [];
    assert NoKeyword(params[0].kind, stream) ==> call'.kwargs == call.kwargs;
  }

  lemma {:induction false} FilledByDependency(params: seq<ParamPlan>, stream: bool, r: Ref, call: HandlerCall)
    requires params != [] && params[0].kind.Depends?
    requires DistinctNames(params) && Unused(params, call.kwargs.Keys)
    ensures Filled(params[..1], stream, call, call.With(params[0].name, Resolved(r)))
    ensures Unused(params[1..], call.With(params[0].name, Resolved(r)).kwargs.Keys)
  {
    assert params[..1][0] == params[0] && params[..1][1..] == [];
  }

  lemma {:induction false} PlanCall(w: World, params: seq<ParamPlan>, stream: bool, st: State, call: HandlerCall)
    requires SolvePlan(w, params, stream, st, call).result.Ok?
    requires DistinctNames(params) && Unused(params, call.kwargs.Keys) && PositionalShape(call)
    ensures var call' := SolvePlan(w, params, stream, st, call).result.value;
            PositionalShape(call') && Filled(params, stream, call, call')
    decreases |params|
  {
    if params == [] {
    } else if !params[0].kind.Depends? {
      var mid := FillBuiltIn(params[0], stream, call);
      FillAddsOneName(params, stream, call);
      FilledByBuiltIn(params, stream, call);
      PlanCall(w, params[1..], stream, st, mid);
      FilledHead(params, stream, call, mid, SolvePlan(w, params[1..], stream, st, mid).result.value);
    } else {
      var s := Resolve(w, params[0].dependency.value, [], st);
      var mid := call.With(params[0].name, Resolved(s.result.value));
      FilledByDependency(params, stream, s.result.value, call);
      PlanCall(w, params[1..], stream, s.state, mid);
      FilledHead(params, stream, call, mid, SolvePlan(w, params[1..], stream, s.state, mid).result.value);
    }
  }

  // ----- Binding

  /** The plan of a signature has its legacy parameters. */
  lemma {:induction false} SameLegacyCount(sig: seq<Parameter>, params: seq<ParamPlan>)
    requires |params| == |sig| && forall i :: 0 <= i < |sig| ==> params[i].kind == KindOf(sig[i])
    ensures LegacyCount(params) == LegacyParams(sig) <= |sig|
    decreases |sig|
  {
    if sig != [] {
      var n := |sig| - 1;
      SameLegacyCount(sig[..n], params[..n]);
      assert params == params[..n] + [params[n]];
      LegacyCountAppend(params[..n], params[n]);
    }
  }

  lemma {:induction false} LegacyCountAppend(params: seq<ParamPlan>, last: ParamPlan)
    ensures LegacyCount(params + [last]) == LegacyCount(params) + if last.kind.PositionalLegacy? then 1 else 0
    decreases |params|
  {
    if params != [] {
      LegacyCountAppend(params[1..], last);
      assert (params + [last])[1..] == params[1..] + [last];
    }
  }

  /** What `solve` made of a signature: its legacy parameters positionally, the rest by keyword. */
  ghost predicate Prepared(sig: seq<Parameter>, stream: bool, call: HandlerCall) {
    && |call.positional| == LegacyParams(sig) <= |sig| && PositionalShape(call)
    && (forall n :: n in call.kwargs ==> exists i :: 0 <= i < |sig| && sig[i].name == n)
    && (forall i :: 0 <= i < |sig| ==> (sig[i].name in call.kwargs <==> !NoKeyword(KindOf(sig[i]), stream)))
    && (forall i :: 0 <= i < |sig| && sig[i].name in call.kwargs ==>
          Fits(KindOf(sig[i]), call.kwargs[sig[i].name]))
  }

  lemma {:induction false} FilledIsPrepared(sig: seq<Parameter>, params: seq<ParamPlan>, stream: bool,
                                            call: HandlerCall)
    requires |params| == |sig| && SignatureNamesDistinct(sig)
    requires forall i :: 0 <= i < |sig| ==> params[i].name == sig[i].name && params[i].kind == KindOf(sig[i])
    requires Filled(params, stream, NO_CALL, call) && PositionalShape(call)
    ensures Prepared(sig, stream, call)
  {
    SameLegacyCount(sig, params);
    forall n | n in call.kwargs
      ensures exists i :: 0 <= i < |sig| && sig[i].name == n
    {
      assert NamesKeyword(params, stream, n);
      var i :| 0 <= i < |params| && params[i].name == n && !NoKeyword(params[i].kind, stream);
      assert sig[i].name == n;
    }
    forall i | 0 <= i < |sig|
      ensures sig[i].name in call.kwargs <==> !NoKeyword(KindOf(sig[i]), stream)
    {
      if sig[i].name in call.kwargs {
        assert NamesKeyword(params, stream, sig[i].name);
      }
    }
  }

  lemma {:induction false} SolvedIsPrepared(w: World, routes: seq<Dependency>, sig: seq<Parameter>, stream: bool)
    requires SignatureNamesDistinct(sig) && Solve(w, routes, Scan(sig).params, stream).result.Ok?
    ensures Prepared(sig, stream, Solve(w, routes, Scan(sig).params, stream).result.value)
  {
    var params, mid := Scan(sig).params, SolveRoutes(w, routes, EMPTY).state;
    ScanKeepsKinds(sig);
    PlanCall(w, params, stream, mid, NO_CALL);
    FilledIsPrepared(sig, params, stream, SolvePlan(w, params, stream, mid, NO_CALL).result.value);
  }

  lemma {:induction false} PreparedBinds(sig: seq<Parameter>, stream: bool, call: HandlerCall)
    requires Prepared(sig, stream, call)
    ensures Binds(sig, call.positional, call.kwargs) <==> Bindable(sig, stream)
  {
  }

  /** What a parameter receives: a positional argument, what its kind calls for, or its own default. */
  ghost predicate Receives(sig: seq<Parameter>, stream: bool, call: HandlerCall, i: nat)
    requires i < |sig|
  {
    match BoundTo(sig, call.positional, call.kwargs, i)
    case Some(arg) =>
      if i < LegacyParams(sig) then arg == (if i == 0 then IntentArg else ContextArg)
      else Fits(KindOf(sig[i]), arg)
    case None => i >= LegacyParams(sig) && NoKeyword(KindOf(sig[i]), stream) && !sig[i].default.NoDefault?
  }

  lemma {:induction false} PreparedReceives(sig: seq<Parameter>, stream: bool, call: HandlerCall, i: nat)
    requires Prepared(sig, stream, call) && Bindable(sig, stream) && i < |sig|
    ensures Receives(sig, stream, call, i)
  {
  }

  /**
   The call that `solve` returns for a scanned signature binds if and only if
   the signature is bindable.  Then the first positional parameter receives
   the intent and the other positional ones the context, whatever their kinds;
   a later one receives what its kind calls for, or else its own default.
   */
  lemma {:induction false} CallBinding(w: World, routes: seq<Dependency>, sig: seq<Parameter>, stream: bool, i: nat)
    requires SignatureNamesDistinct(sig) && Solve(w, routes, Scan(sig).params, stream).result.Ok?
    ensures var call := Solve(w, routes, Scan(sig).params, stream).result.value;
            && (Binds(sig, call.positional, call.kwargs) <==> Bindable(sig, stream))
            && (Bindable(sig, stream) && i < |sig| ==> Receives(sig, stream, call, i))
  {
    var call := Solve(w, routes, Scan(sig).params, stream).result.value;
    SolvedIsPrepared(w, routes, sig, stream);
    PreparedBinds(sig, stream, call);
    if Bindable(sig, stream) && i < |sig| {
      PreparedReceives(sig, stream, call, i);
    }
  }

  // ----- Signatures whose parameters can all be supplied

  lemma {:induction false} LegacyParamsPrefix(sig: seq<Parameter>, n: nat)
    requires n <= |sig| && LegacyFirst(sig)
    ensures LegacyParams(sig[..n]) <= n
    ensures forall i :: 0 <= i < n ==> (IsLegacy(sig[i]) <==> i < LegacyParams(sig[..n]))
    decreases n
  {
    if n > 0 {
      LegacyParamsPrefix(sig, n - 1);
      assert sig[..n][..n - 1] == sig[..n - 1];
    }
  }

  lemma {:induction false} AllLegacy(sig: seq<Parameter>, n: nat)
    requires n <= |sig| && forall i :: 0 <= i < n ==> IsLegacy(sig[i])
    ensures LegacyParams(sig[..n]) == n
    decreases n
  {
    if n > 0 {
      AllLegacy(sig, n - 1);
      assert sig[..n][..n - 1] == sig[..n - 1];
    }
  }

  lemma {:induction false} LegacyParamsGrow(sig: seq<Parameter>, m: nat, n: nat)
    requires m <= n <= |sig|
    ensures LegacyParams(sig[..m]) <= LegacyParams(sig[..n]) <= LegacyParams(sig[..m]) + n - m
    ensures forall i :: m <= i < n && IsLegacy(sig[i]) ==> LegacyParams(sig[..m]) < LegacyParams(sig[..n])
    decreases n
  {
    if m < n {
      LegacyParamsGrow(sig, m, n - 1);
      assert sig[..n][..n - 1] == sig[..n - 1];
    }
  }

  /**
   When there is a stream, or no parameter asks for one, bindable means that
   the legacy parameters come first.
   */
  lemma {:induction false} BindableIffLegacyFirst(sig: seq<Parameter>, stream: bool)
    requires Suppliable(sig, stream)
    ensures Bindable(sig, stream) <==> LegacyFirst(sig)
  {
    var n := LegacyParams(sig);
    assert sig[..|sig|] == sig && sig[..0] == [];
    LegacyParamsGrow(sig, 0, |sig|);
    if LegacyFirst(sig) {
      LegacyParamsPrefix(sig, |sig|);
    }
    if Bindable(sig, stream) {
      AllLegacy(sig, n);
      LegacyParamsGrow(sig, n, |sig|);
    }
  }

  // ----- Background tasks

  predicate GotTasks(call: HandlerCall, name: string) {
    name in call.kwargs && call.kwargs[name].TasksArg?
  }

  predicate Keeps(before: HandlerCall, after: HandlerCall) {
    forall n :: n in before.kwargs ==> n in after.kwargs && after.kwargs[n] == before.kwargs[n]
  }

  predicate NoTasks(params: seq<ParamPlan>) {
    forall i :: 0 <= i < |params| ==> !params[i].kind.AgentTasks?
  }

  /** Tasks parameters get ascending objects, none of an earlier number, and the last one's is remembered. */
  predicate TasksFilled(params: seq<ParamPlan>, before: HandlerCall, after: HandlerCall) {
    && after.NextTasks() >= before.NextTasks()
    && (forall i :: 0 <= i < |params| && params[i].kind.AgentTasks? ==>
          GotTasks(after, params[i].name)
          && before.NextTasks() <= after.kwargs[params[i].name].serial < after.NextTasks())
    && (forall i, j :: 0 <= i < j < |params| && params[i].kind.AgentTasks? && params[j].kind.AgentTasks? ==>
          after.kwargs[params[i].name].serial < after.kwargs[params[j].name].serial)
    && (forall i :: 0 <= i < |params| && params[i].kind.AgentTasks? && NoTasks(params[i + 1..]) ==>
          after.tasks == Some(after.kwargs[params[i].name].serial))
    && (NoTasks(params) ==> after.tasks == before.tasks)
  }

  lemma {:induction false} LastTasksHead(params: seq<ParamPlan>, before: HandlerCall, mid: HandlerCall,
                                         after: HandlerCall, i: nat)
    requires params != [] && TasksFilled(params[1..], mid, after) && Keeps(mid, after)
    requires params[0].kind.AgentTasks? ==> mid == before.WithTasks(params[0].name)
    requires i < |params| && params[i].kind.AgentTasks? && NoTasks(params[i + 1..])
    ensures GotTasks(after, params[i].name) && after.tasks == Some(after.kwargs[params[i].name].serial)
  {
    if i > 0 {
      assert params[i + 1..] == params[1..][i..] && params[i] == params[1..][i - 1];
    }
  }

  lemma {:induction false} TasksAscend(params: seq<ParamPlan>, before: HandlerCall, mid: HandlerCall,
                                       after: HandlerCall, i: nat, j: nat)
    requires params != [] && TasksFilled(params[1..], mid, after) && Keeps(mid, after)
    requires params[0].kind.AgentTasks? ==> mid == before.WithTasks(params[0].name)
    requires i < j < |params| && params[i].kind.AgentTasks? && params[j].kind.AgentTasks?
    ensures GotTasks(after, params[i].name) && GotTasks(after, params[j].name)
    ensures after.kwargs[params[i].name].serial < after.kwargs[params[j].name].serial
  {
    assert params[j] == params[1..][j - 1];
    if i > 0 {
      assert params[i] == params[1..][i - 1];
    }
  }

  lemma {:induction false} TasksHead(params: seq<ParamPlan>, before: HandlerCall, mid: HandlerCall, after: HandlerCall)
    requires params != [] && TasksFilled(params[1..], mid, after) && Keeps(mid, after)
    requires if params[0].kind.AgentTasks? then mid == before.WithTasks(params[0].name) else mid.tasks == before.tasks
    ensures TasksFilled(params, before, after)
  {
    var rest := params[1..];
    assert forall i :: 0 < i < |params| ==> params[i] == rest[i - 1];
    assert NoTasks(params) ==> NoTasks(rest);
    forall i, j | 0 <= i < j < |params| && params[i].kind.AgentTasks? && params[j].kind.AgentTasks?
      ensures GotTasks(after, params[i].name) && GotTasks(after, params[j].name)
      ensures after.kwargs[params[i].name].serial < after.kwargs[params[j].name].serial
    {
      TasksAscend(params, before, mid, after, i, j);
    }
    forall i | 0 <= i < |params| && params[i].kind.AgentTasks? && NoTasks(params[i + 1..])
      ensures after.tasks == Some(after.kwargs[params[i].name].serial)
    {
      LastTasksHead(params, before, mid, after, i);
    }
  }

  lemma {:induction false} FilledTasks(params: seq<ParamPlan>, stream: bool, call: HandlerCall)
    requires params != [] && !params[0].kind.Depends?
    ensures var mid := FillBuiltIn(params[0], stream, call);
            if params[0].kind.AgentTasks? then mid == call.WithTasks(params[0].name) else mid.tasks == call.tasks
  {
  }

  lemma {:induction false} KeepsOn(a: HandlerCall, b: HandlerCall, c: HandlerCall)
    requires Keeps(a, b) && Keeps(b, c)
    ensures Keeps(a, c)
  {
  }

  lemma {:induction false} PlanTasks(w: World, params: seq<ParamPlan>, stream: bool, st: State, call: HandlerCall)
    requires SolvePlan(w, params, stream, st, call).result.Ok?
    requires DistinctNames(params) && Unused(params, call.kwargs.Keys)
    ensures var call' := SolvePlan(w, params, stream, st, call).result.value;
            TasksFilled(params, call, call') && Keeps(call, call')
    decreases |params|
  {
    if params == [] {
    } else if params[0].kind.Depends? {
      var s := Resolve(w, params[0].dependency.value, [], st);
      var mid := call.With(params[0].name, Resolved(s.result.value));
      PlanTasks(w, params[1..], stream, s.state, mid);
      var call' := SolvePlan(w, params[1..], stream, s.state, mid).result.value;
      TasksHead(params, call, mid, call');
      KeepsOn(call, mid, call');
    } else {
      var mid := FillBuiltIn(params[0], stream, call);
      FillAddsOneName(params, stream, call);
      FilledTasks(params, stream, call);
      PlanTasks(w, params[1..], stream, st, mid);
      var call' := SolvePlan(w, params[1..], stream, st, mid).result.value;
      TasksHead(params, call, mid, call');
      KeepsOn(call, mid, call');
    }
  }

  /**
   Every AgentTasks parameter of a solved call receives an object of its own,
   and the one whose tasks the request will run is the last parameter's; there
   is none without such a parameter.
   */
  lemma {:induction false} TasksAreTheLast(w: World, routes: seq<Dependency>, params: seq<ParamPlan>, stream: bool,
                                           i: nat, j: nat)
    requires Solve(w, routes, params, stream).result.Ok? && DistinctNames(params)
    ensures var call := Solve(w, routes, params, stream).result.value;
            && (NoTasks(params) ==> call.tasks == None)
            && (j < |params| && params[j].kind.AgentTasks? ==> GotTasks(call, params[j].name))
            && (j < |params| && params[j].kind.AgentTasks? && NoTasks(params[j + 1..]) ==>
                  call.tasks == Some(call.kwargs[params[j].name].serial))
            && (i < j < |params| && params[i].kind.AgentTasks? && params[j].kind.AgentTasks? ==>
                  GotTasks(call, params[i].name) && call.kwargs[params[i].name] != call.kwargs[params[j].name])
  {
    PlanTasks(w, params, stream, SolveRoutes(w, routes, EMPTY).state, NO_CALL);
  }

  // ----- A signature the repository's own documentation uses

  /** `async def search(intent: Intent[OrderSearch], context)`. */
  const README_SEARCH := [
    Parameter("intent", IntentOf(Some("OrderSearch")), NoDefault),
    Parameter("context", Empty, NoDefault)]

  /** Its call never binds: the intent would be given both positionally and by keyword. */
  lemma {:induction false} ReadmeSearchDoesNotBind(w: World, routes: seq<Dependency>)
    requires Solve(w, routes, Scan(README_SEARCH).params, false).result.Ok?
    ensures var call := Solve(w, routes, Scan(README_SEARCH).params, false).result.value;
            !Binds(README_SEARCH, call.positional, call.kwargs)
  {
    ScanKeepsKinds(README_SEARCH);
    CallBinding(w, routes, README_SEARCH, false, 0);
    BindableIffLegacyFirst(README_SEARCH, false);
    assert IsLegacy(README_SEARCH[1]) && !IsLegacy(README_SEARCH[0]);
  }

  // ----- A stream parameter without a stream

  /** `async def watch(stream: AgentStream, note=...)`. */
  const WATCH := [Parameter("stream", StreamClass, NoDefault), Parameter("note", Empty, Constant)]

  lemma {:induction false} WatchIsBindable()
    ensures SignatureNamesDistinct(WATCH) && LegacyParams(WATCH) == 1 && Bindable(WATCH, false)
  {
    assert KindOf(WATCH[0]) == AgentStream && KindOf(WATCH[1]) == PositionalLegacy;
    assert WATCH[..1] == [WATCH[0]] && WATCH[..1][..0] == [];
    assert LegacyParams(WATCH[..1]) == 0;
  }

  /** Its call binds even without a stream, and passes the intent as the stream. */
  lemma {:induction false} StreamMayBeTheIntent(w: World, routes: seq<Dependency>)
    requires Solve(w, routes, Scan(WATCH).params, false).result.Ok?
    ensures var call := Solve(w, routes, Scan(WATCH).params, false).result.value;
            && Binds(WATCH, call.positional, call.kwargs)
            && BoundTo(WATCH, call.positional, call.kwargs, 0) == Some(IntentArg)
  {
    var call := Solve(w, routes, Scan(WATCH).params, false).result.value;
    WatchIsBindable();
    CallBinding(w, routes, WATCH, false, 0);
    assert Receives(WATCH, false, call, 0);
  }
}
