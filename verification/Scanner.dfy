/**
 The signature scanner: how each parameter of a handler, or of a dependency
 provider, is going to be filled.  Annotations arrive already resolved; a
 `Text` annotation is one that type-hint resolution left as a string.
 */
module Scanner {
  import opened Wrappers

  /** A provider callable.  Two providers are the same when they are the same callable object. */
  datatype Provider = Provider(id: nat)

  /** What `Depends(...)` leaves as a parameter's default. */
  datatype Dependency = Dependency(callable: Provider, useCache: bool)

  datatype Annotation =
    | Empty
    | IntentClass
    | IntentOf(schema: Option<string>)
    | ContextClass
    | TasksClass
    | FilesClass
    | HtmxClass
    | StreamClass
    | Text(text: string)
    | OtherClass

  datatype Default = NoDefault | Marker(dependency: Dependency) | Constant

  datatype Parameter = Parameter(name: string, annotation: Annotation, default: Default)

  datatype InjectionKind =
    | Intent
    | Context
    | AgentTasks
    | UploadedFiles
    | HtmxHeaders
    | AgentStream
    | Depends
    | PositionalLegacy

  datatype ParamPlan = ParamPlan(name: string, kind: InjectionKind,
                                 dependency: Option<Dependency>, annotation: Option<Annotation>)

  datatype InjectionPlan = InjectionPlan(params: seq<ParamPlan>, legacyPositionalCount: nat,
                                         intentPayloadSchema: Option<string>)

  // ----- Annotation predicates

  /** Python's `needle in text`. */
  predicate Contains(text: string, needle: string) {
    needle <= text || (text != "" && Contains(text[1..], needle))
  }

  /** `text.split("[")[0]`: everything before the first bracket. */
  function BeforeBracket(text: string): string {
    if text == "" || text[0] == '[' then "" else [text[0]] + BeforeBracket(text[1..])
  }

  predicate IsIntent(a: Annotation) {
    a.IntentClass? || a.IntentOf? || (a.Text? && BeforeBracket(a.text) == "Intent")
  }

  predicate IsContext(a: Annotation) {
    a.ContextClass? || (a.Text? && Contains(a.text, "AgentContext"))
  }

  predicate IsAgentTasks(a: Annotation) {
    a.TasksClass? || (a.Text? && Contains(a.text, "AgentTasks"))
  }

  predicate IsUploadedFiles(a: Annotation) {
    a.FilesClass? || (a.Text? && Contains(a.text, "UploadedFiles"))
  }

  predicate IsHtmxHeaders(a: Annotation) {
    a.HtmxClass? || (a.Text? && Contains(a.text, "HtmxHeaders"))
  }

  predicate IsAgentStream(a: Annotation) {
    a.StreamClass? || (a.Text? && Contains(a.text, "AgentStream"))
  }

  function PayloadSchema(a: Annotation): Option<string> {
    if a.IntentOf? then a.schema else None
  }

  // ----- What one parameter becomes

  /** The built-in injector an annotation asks for, or `PositionalLegacy` when none recognises it. */
  function BuiltIn(a: Annotation): InjectionKind {
    if IsIntent(a) then Intent
    else if IsContext(a) then Context
    else if IsAgentTasks(a) then AgentTasks
    else if IsUploadedFiles(a) then UploadedFiles
    else if IsHtmxHeaders(a) then HtmxHeaders
    else if IsAgentStream(a) then AgentStream
    else PositionalLegacy
  }

  function KindOf(p: Parameter): InjectionKind {
    if p.default.Marker? then Depends else BuiltIn(p.annotation)
  }

  /** One of the first two parameters, with neither annotation nor `Depends` default. */
  predicate IsBareLeading(p: Parameter, index: nat) {
    index < 2 && !p.default.Marker? && p.annotation.Empty?
  }

  function Classify(p: Parameter, index: nat): ParamPlan {
    if p.default.Marker? then
      ParamPlan(p.name, Depends, Some(p.default.dependency), Some(p.annotation))
    else if IsBareLeading(p, index) then
      ParamPlan(p.name, PositionalLegacy, None, None)
    else
      ParamPlan(p.name, BuiltIn(p.annotation), None, Some(p.annotation))
  }

  // ----- The whole scan

  function ClassifyAll(sig: seq<Parameter>): (plans: seq<ParamPlan>)
    ensures |plans| == |sig|
    ensures forall i :: 0 <= i < |sig| ==> plans[i] == Classify(sig[i], i)
  {
    seq(|sig|, i requires 0 <= i < |sig| => Classify(sig[i], i))
  }

  function BareCount(sig: seq<Parameter>): nat {
    if sig == [] then 0
    else BareCount(sig[..|sig| - 1]) + if IsBareLeading(sig[|sig| - 1], |sig| - 1) then 1 else 0
  }

  /** The first payload model named by an `Intent[T]` parameter, in declaration order. */
  function FirstSchema(sig: seq<Parameter>): Option<string> {
    if sig == [] then None
    else
      var before := FirstSchema(sig[..|sig| - 1]);
      var last := sig[|sig| - 1];
      if before.None? && KindOf(last).Intent? then PayloadSchema(last.annotation) else before
  }

  predicate HasKind(sig: seq<Parameter>, kind: InjectionKind)
  {
    sig != [] && (KindOf(sig[|sig| - 1]) == kind || HasKind(sig[..|sig| - 1], kind))
  }

  /** Neither an annotated intent, nor an annotated context, nor a bare leading parameter. */
  predicate NeedsFallback(sig: seq<Parameter>) {
    !HasKind(sig, Intent) && !HasKind(sig, Context) && BareCount(sig) == 0
  }

  predicate Demotable(plan: ParamPlan, index: nat) {
    index < 2
    && plan.kind !in {AgentTasks, UploadedFiles, HtmxHeaders, AgentStream, Depends}
  }

  function Demote(plan: ParamPlan, index: nat): ParamPlan {
    if Demotable(plan, index) then ParamPlan(plan.name, PositionalLegacy, None, None) else plan
  }

  function DemoteAll(plans: seq<ParamPlan>): (r: seq<ParamPlan>)
    ensures |r| == |plans|
    ensures forall i :: 0 <= i < |plans| ==> r[i] == Demote(plans[i], i)
  {
    seq(|plans|, i requires 0 <= i < |plans| => Demote(plans[i], i))
  }

  function DemotedCount(plans: seq<ParamPlan>): nat {
    if plans == [] then 0
    else DemotedCount(plans[..|plans| - 1]) + if Demotable(plans[|plans| - 1], |plans| - 1) then 1 else 0
  }

  function Scan(sig: seq<Parameter>): InjectionPlan {
    var plans := ClassifyAll(sig);
    if NeedsFallback(sig) then
      InjectionPlan(DemoteAll(plans), DemotedCount(plans), FirstSchema(sig))
    else
      InjectionPlan(plans, BareCount(sig), FirstSchema(sig))
  }

  /** The fallback: the first two parameters become legacy positionals unless an injector claims them. */
  method FallbackPass(params: seq<ParamPlan>) returns (newParams: seq<ParamPlan>, count: nat)
    ensures newParams == DemoteAll(params)
    ensures count == DemotedCount(params)
  {
    newParams, count := [], 0;
    for i := 0 to |params|
      invariant newParams == DemoteAll(params[..i])
      invariant count == DemotedCount(params[..i])
    {
      assert params[..i + 1][..i] == params[..i];
      if i < 2 && params[i].kind !in {AgentTasks, UploadedFiles, HtmxHeaders, AgentStream, Depends} {
        newParams := newParams + [ParamPlan(params[i].name, PositionalLegacy, None, None)];
        count := count + 1;
      } else {
        newParams := newParams + [params[i]];
      }
    }
    assert params[..|params|] == params;
  }

  /** The scanner itself: one pass over the signature, then the fallback pass. */
  method ScanHandler(sig: seq<Parameter>) returns (plan: InjectionPlan)
    ensures plan == Scan(sig)
  {
    var params: seq<ParamPlan> := [];
    var legacyPositionalCount: nat := 0;
    var seenAnnotatedIntent, seenAnnotatedContext := false, false;
    var intentPayloadSchema: Option<string> := None;

    for index := 0 to |sig|
      invariant params == ClassifyAll(sig[..index])
      invariant legacyPositionalCount == BareCount(sig[..index])
      invariant seenAnnotatedIntent == HasKind(sig[..index], Intent)
      invariant seenAnnotatedContext == HasKind(sig[..index], Context)
      invariant intentPayloadSchema == FirstSchema(sig[..index])
    {
      var param := sig[index];
      ExtendScan(sig, index);
      if param.default.Marker? {
        params := params + [ParamPlan(param.name, Depends, Some(param.default.dependency), Some(param.annotation))];
      } else if IsIntent(param.annotation) {
        params := params + [ParamPlan(param.name, Intent, None, Some(param.annotation))];
        seenAnnotatedIntent := true;
        if intentPayloadSchema.None? {
          intentPayloadSchema := PayloadSchema(param.annotation);
        }
      } else if IsContext(param.annotation) {
        params := params + [ParamPlan(param.name, Context, None, Some(param.annotation))];
        seenAnnotatedContext := true;
      } else if IsAgentTasks(param.annotation) {
        params := params + [ParamPlan(param.name, AgentTasks, None, Some(param.annotation))];
      } else if IsUploadedFiles(param.annotation) {
        params := params + [ParamPlan(param.name, UploadedFiles, None, Some(param.annotation))];
      } else if IsHtmxHeaders(param.annotation) {
        params := params + [ParamPlan(param.name, HtmxHeaders, None, Some(param.annotation))];
      } else if IsAgentStream(param.annotation) {
        params := params + [ParamPlan(param.name, AgentStream, None, Some(param.annotation))];
      } else if index < 2 && param.annotation.Empty? {
        params := params + [ParamPlan(param.name, PositionalLegacy, None, None)];
        legacyPositionalCount := legacyPositionalCount + 1;
      } else {
        params := params + [ParamPlan(param.name, PositionalLegacy, None, Some(param.annotation))];
      }
    }
    assert sig[..|sig|] == sig;

    if !seenAnnotatedIntent && !seenAnnotatedContext && legacyPositionalCount == 0 {
      params, legacyPositionalCount := FallbackPass(params);
    }
    plan := InjectionPlan(params, legacyPositionalCount, intentPayloadSchema);
  }

  /** One more parameter extends every accumulator of the scan by that parameter's share. */
  lemma {:induction false} ExtendScan(sig: seq<Parameter>, n: nat)
    requires n < |sig|
    ensures ClassifyAll(sig[..n + 1]) == ClassifyAll(sig[..n]) + [Classify(sig[n], n)]
    ensures BareCount(sig[..n + 1]) == BareCount(sig[..n]) + if IsBareLeading(sig[n], n) then 1 else 0
    ensures HasKind(sig[..n + 1], Intent) == (HasKind(sig[..n], Intent) || KindOf(sig[n]).Intent?)
    ensures HasKind(sig[..n + 1], Context) == (HasKind(sig[..n], Context) || KindOf(sig[n]).Context?)
    ensures FirstSchema(sig[..n + 1]) ==
            if FirstSchema(sig[..n]).None? && KindOf(sig[n]).Intent?
            then PayloadSchema(sig[n].annotation) else FirstSchema(sig[..n])
  {
    assert sig[..n + 1][..n] == sig[..n];
  }

  // ----- What the scan promises

  lemma {:induction false} KindIsSeen(sig: seq<Parameter>, i: nat)
    requires i < |sig|
    ensures HasKind(sig, KindOf(sig[i]))
    decreases |sig|
  {
    if i < |sig| - 1 {
      KindIsSeen(sig[..|sig| - 1], i);
    }
  }

  /**
   The fallback pass never changes what the solver sees: every parameter keeps
   its place, its name, the kind its own default and annotation give it, and
   its dependency.
   */
  lemma {:induction false} ScanKeepsKinds(sig: seq<Parameter>)
    ensures var params := Scan(sig).params;
            && |params| == |sig|
            && forall i :: 0 <= i < |sig| ==>
                 && params[i].name == sig[i].name
                 && params[i].kind == KindOf(sig[i])
                 && params[i].dependency == (if sig[i].default.Marker? then Some(sig[i].default.dependency) else None)
  {
    forall i | 0 <= i < |sig|
      ensures NeedsFallback(sig) ==>
                var plan := Classify(sig[i], i);
                Demote(plan, i) == plan.(annotation := Demote(plan, i).annotation)
    {
      if NeedsFallback(sig) {
        KindIsSeen(sig, i);
      }
    }
  }

  /** A scanned `Depends` parameter always carries its dependency. */
  lemma {:induction false} ScannedDependsIsComplete(sig: seq<Parameter>, i: nat)
    requires i < |sig|
    ensures Scan(sig).params[i].kind.Depends? <==> Scan(sig).params[i].dependency.Some?
  {
    ScanKeepsKinds(sig);
  }

  // ----- The other two parts of a plan

  /** The parameters the solver will fill positionally. */
  function LegacyParams(sig: seq<Parameter>): nat {
    if sig == [] then 0
    else LegacyParams(sig[..|sig| - 1]) + if KindOf(sig[|sig| - 1]).PositionalLegacy? then 1 else 0
  }

  /** The parameters among them that the scanner counted. */
  predicate Counted(sig: seq<Parameter>, i: nat)
    requires i < |sig|
  {
    if NeedsFallback(sig) then i < 2 else IsBareLeading(sig[i], i)
  }

  lemma {:induction false} BareCountBound(sig: seq<Parameter>)
    ensures BareCount(sig) <= LegacyParams(sig)
    ensures BareCount(sig) == LegacyParams(sig) <==>
              forall i :: 0 <= i < |sig| && KindOf(sig[i]).PositionalLegacy? ==> IsBareLeading(sig[i], i)
    decreases |sig|
  {
    if sig != [] {
      var init := sig[..|sig| - 1];
      BareCountBound(init);
      assert forall i :: 0 <= i < |init| ==> init[i] == sig[i];
    }
  }

  lemma {:induction false} DemotedCountBound(sig: seq<Parameter>)
    requires !HasKind(sig, Intent) && !HasKind(sig, Context)
    ensures DemotedCount(ClassifyAll(sig)) <= LegacyParams(sig)
    ensures DemotedCount(ClassifyAll(sig)) == LegacyParams(sig) <==>
              forall i :: 0 <= i < |sig| && KindOf(sig[i]).PositionalLegacy? ==> i < 2
    decreases |sig|
  {
    if sig != [] {
      var init := sig[..|sig| - 1];
      assert ClassifyAll(sig)[..|sig| - 1] == ClassifyAll(init);
      DemotedCountBound(init);
      assert forall i :: 0 <= i < |init| ==> init[i] == sig[i];
    }
  }

  /**
   `legacy_positional_count` never exceeds the number of positional arguments
   the solver passes, and equals it exactly when every parameter filled
   positionally is one of the first two, and bare unless the fallback applied.
   */
  lemma {:induction false} LegacyCountMeaning(sig: seq<Parameter>)
    ensures Scan(sig).legacyPositionalCount <= LegacyParams(sig)
    ensures Scan(sig).legacyPositionalCount == LegacyParams(sig) <==>
              forall i :: 0 <= i < |sig| && KindOf(sig[i]).PositionalLegacy? ==> Counted(sig, i)
  {
    if NeedsFallback(sig) {
      DemotedCountBound(sig);
    } else {
      BareCountBound(sig);
    }
  }

  /** `async def find(intent: Intent, query: str)`: the scanner counts no legacy parameter, the solver fills one. */
  lemma {:induction false} AnnotatedLegacyIsNotCounted()
    ensures var sig := [Parameter("intent", IntentClass, NoDefault), Parameter("query", OtherClass, NoDefault)];
            Scan(sig).legacyPositionalCount == 0 && LegacyParams(sig) == 1
  {
    var p, q := Parameter("intent", IntentClass, NoDefault), Parameter("query", OtherClass, NoDefault);
    var one, sig := [p], [p, q];
    assert one[..|one| - 1] == [] && sig[..|sig| - 1] == one;
    assert KindOf(p) == Intent && KindOf(q) == PositionalLegacy && q.annotation == OtherClass;
    assert BareCount(one) == 0 && LegacyParams(one) == 0 && HasKind(one, Intent);
    assert BareCount(sig) == 0 && LegacyParams(sig) == 1 && HasKind(sig, Intent);
  }

  /** Without a payload schema, no intent parameter names one. */
  lemma {:induction false} NoSchemaNamed(sig: seq<Parameter>)
    requires FirstSchema(sig).None?
    ensures forall i :: 0 <= i < |sig| && KindOf(sig[i]).Intent? ==> PayloadSchema(sig[i].annotation).None?
    decreases |sig|
  {
    if sig != [] {
      var init := sig[..|sig| - 1];
      NoSchemaNamed(init);
      assert forall i :: 0 <= i < |init| ==> init[i] == sig[i];
    }
  }

  lemma {:induction false} SchemaWitness(sig: seq<Parameter>) returns (i: nat)
    requires FirstSchema(sig).Some?
    ensures NamesSchemaFirst(sig, i, FirstSchema(sig).value)
    decreases |sig|
  {
    var init := sig[..|sig| - 1];
    assert forall j :: 0 <= j < |init| ==> init[j] == sig[j];
    if FirstSchema(init).Some? {
      i := SchemaWitness(init);
    } else {
      NoSchemaNamed(init);
      i := |sig| - 1;
    }
  }

  /** The payload schema is the first one an intent parameter names; there is none only if none names one. */
  lemma {:induction false} SchemaIsFirst(sig: seq<Parameter>)
    ensures match Scan(sig).intentPayloadSchema
            case None => forall i :: 0 <= i < |sig| && KindOf(sig[i]).Intent? ==> PayloadSchema(sig[i].annotation).None?
            case Some(model) => exists i: nat :: NamesSchemaFirst(sig, i, model)
  {
    if FirstSchema(sig).None? {
      NoSchemaNamed(sig);
    } else {
      var i := SchemaWitness(sig);
    }
  }

  predicate NamesSchemaFirst(sig: seq<Parameter>, i: nat, model: string) {
    && i < |sig| && KindOf(sig[i]).Intent? && PayloadSchema(sig[i].annotation) == Some(model)
    && forall j :: 0 <= j < i && KindOf(sig[j]).Intent? ==> PayloadSchema(sig[j].annotation).None?
  }
}
