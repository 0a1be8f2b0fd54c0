/** What each annotation makes of a parameter, said on the annotations themselves. */
module Annotations {
  import opened Wrappers
  import opened Scanner
  import opened Injection
  import opened Invocation
  import opened Binding

  // ----- Texts

  ghost predicate OccursAt(text: string, needle: string, i: nat) {
    i + |needle| <= |text| && text[i..i + |needle|] == needle
  }

  ghost predicate Occurs(text: string, needle: string) {
    exists i: nat :: OccursAt(text, needle, i)
  }

  lemma {:induction false} OccursOneLater(text: string, needle: string, i: nat)
    requires text != ""
    ensures OccursAt(text[1..], needle, i) <==> OccursAt(text, needle, i + 1)
  {
    if i + 1 + |needle| <= |text| {
      assert text[1..][i..i + |needle|] == text[i + 1..i + 1 + |needle|];
    }
  }

  lemma {:induction false} OccursFirst(text: string, needle: string)
    ensures OccursAt(text, needle, 0) <==> needle <= text
  {
  }

  lemma {:induction false} ContainsIffOccurs(text: string, needle: string)
    ensures Contains(text, needle) <==> Occurs(text, needle)
    decreases |text|
  {
    OccursFirst(text, needle);
    if text != "" {
      ContainsIffOccurs(text[1..], needle);
      if i: nat :| OccursAt(text[1..], needle, i) {
        OccursOneLater(text, needle, i);
      }
      if i: nat :| OccursAt(text, needle, i) && i > 0 {
        OccursOneLater(text, needle, i - 1);
      }
    }
  }

  lemma {:induction false} BeforeBracketIs(text: string, head: string)
    requires '[' !in head
    ensures BeforeBracket(text) == head <==> text == head || head + "[" <= text
    decreases |text|
  {
    if text == "" {
    } else if text[0] == '[' {
      if head == "" {
        assert head + "[" == "[";
      } else {
        assert head[0] != '[';
      }
    } else if head == "" {
      assert head + "[" == "[";
    } else {
      BeforeBracketIs(text[1..], head[1..]);
      assert text == [text[0]] + text[1..] && head == [head[0]] + head[1..];
      assert head + "[" <= text <==> head[0] == text[0] && head[1..] + "[" <= text[1..] by {
        assert (head + "[")[1..] == head[1..] + "[";
      }
    }
  }

  // ----- Annotations

  /** The intent class, bare or with a payload, or a text that reads `Intent` or starts with `Intent[`. */
  predicate AsksIntent(a: Annotation) {
    match a
    case IntentClass => true
    case IntentOf(_) => true
    case Text(text) => text == "Intent" || "Intent[" <= text
    case _ => false
  }

  /** A text that names the class somewhere. */
  ghost predicate Mentions(a: Annotation, name: string) {
    a.Text? && Occurs(a.text, name)
  }

  ghost predicate AsksContext(a: Annotation) {
    a.ContextClass? || (Mentions(a, "AgentContext") && !AsksIntent(a))
  }

  ghost predicate AsksTasks(a: Annotation) {
    a.TasksClass? || (Mentions(a, "AgentTasks") && !AsksIntent(a) && !AsksContext(a))
  }

  ghost predicate AsksFiles(a: Annotation) {
    a.FilesClass? || (Mentions(a, "UploadedFiles") && !AsksIntent(a) && !AsksContext(a) && !AsksTasks(a))
  }

  ghost predicate AsksHtmx(a: Annotation) {
    a.HtmxClass?
    || (Mentions(a, "HtmxHeaders") && !AsksIntent(a) && !AsksContext(a) && !AsksTasks(a) && !AsksFiles(a))
  }

  ghost predicate AsksStream(a: Annotation) {
    a.StreamClass?
    || (Mentions(a, "AgentStream") && !AsksIntent(a) && !AsksContext(a) && !AsksTasks(a) && !AsksFiles(a)
        && !AsksHtmx(a))
  }

  lemma {:induction false} TextRecognised(a: Annotation)
    requires a.Text?
    ensures BuiltIn(a).Intent? <==> AsksIntent(a)
    ensures BuiltIn(a).Context? <==> AsksContext(a)
    ensures BuiltIn(a).AgentTasks? <==> AsksTasks(a)
    ensures BuiltIn(a).UploadedFiles? <==> AsksFiles(a)
    ensures BuiltIn(a).HtmxHeaders? <==> AsksHtmx(a)
    ensures BuiltIn(a).AgentStream? <==> AsksStream(a)
  {
    assert "Intent" + "[" == "Intent[";
    BeforeBracketIs(a.text, "Intent");
    ContainsIffOccurs(a.text, "AgentContext");
    ContainsIffOccurs(a.text, "AgentTasks");
    ContainsIffOccurs(a.text, "UploadedFiles");
    ContainsIffOccurs(a.text, "HtmxHeaders");
    ContainsIffOccurs(a.text, "AgentStream");
  }

  /**
   How the scanner takes a parameter: with a `Depends` default as a dependency,
   whatever its annotation; and without one as what its annotation asks for,
   the first that applies in the order given here, or else as a legacy
   positional.
   */
  lemma {:induction false} KindByAnnotation(sig: seq<Parameter>, i: nat)
    requires i < |sig|
    ensures var kind, a := Scan(sig).params[i].kind, sig[i].annotation;
            && (kind.Depends? <==> sig[i].default.Marker?)
            && (!sig[i].default.Marker? ==>
                  && (kind.Intent? <==> AsksIntent(a))
                  && (kind.Context? <==> AsksContext(a))
                  && (kind.AgentTasks? <==> AsksTasks(a))
                  && (kind.UploadedFiles? <==> AsksFiles(a))
                  && (kind.HtmxHeaders? <==> AsksHtmx(a))
                  && (kind.AgentStream? <==> AsksStream(a)))
  {
    ScanKeepsKinds(sig);
    if sig[i].annotation.Text? {
      TextRecognised(sig[i].annotation);
    }
  }

  // ----- The other two parts of a plan

  /** The first payload model of an `Intent[T]` annotation without a `Depends` default. */
  predicate FirstPayload(sig: seq<Parameter>, i: nat, model: string) {
    && i < |sig| && !sig[i].default.Marker? && sig[i].annotation == IntentOf(Some(model))
    && forall j :: 0 <= j < i && !sig[j].default.Marker? ==>
         !(sig[j].annotation.IntentOf? && sig[j].annotation.schema.Some?)
  }

  lemma {:induction false} PayloadIsAnnotated(p: Parameter, model: string)
    ensures KindOf(p).Intent? && PayloadSchema(p.annotation) == Some(model) <==>
              !p.default.Marker? && p.annotation == IntentOf(Some(model))
  {
  }

  lemma {:induction false} SchemaByAnnotation(sig: seq<Parameter>, model: string)
    ensures Scan(sig).intentPayloadSchema == Some(model) <==> exists i: nat :: FirstPayload(sig, i, model)
  {
    SchemaIsFirst(sig);
    forall i: nat | i < |sig|
      ensures KindOf(sig[i]).Intent? && PayloadSchema(sig[i].annotation) == Some(model) <==>
                !sig[i].default.Marker? && sig[i].annotation == IntentOf(Some(model))
    {
      PayloadIsAnnotated(sig[i], model);
    }
    if Scan(sig).intentPayloadSchema.Some? {
      var first := Scan(sig).intentPayloadSchema.value;
      var i: nat :| NamesSchemaFirst(sig, i, first);
      assert FirstPayload(sig, i, first);
      if k: nat :| FirstPayload(sig, k, model) {
        assert k == i;
      }
    }
  }

  /** A leading parameter with neither an annotation nor a `Depends` default. */
  predicate IsBare(sig: seq<Parameter>, i: nat) {
    i < |sig| && !sig[i].default.Marker? && sig[i].annotation.Empty?
  }

  function One(b: bool): nat {
    if b then 1 else 0
  }

  lemma {:induction false} BareCountIs(sig: seq<Parameter>)
    ensures BareCount(sig) == One(IsBare(sig, 0)) + One(IsBare(sig, 1))
    decreases |sig|
  {
    if sig != [] {
      BareCountIs(sig[..|sig| - 1]);
    }
  }

  predicate IsLegacyAt(sig: seq<Parameter>, i: nat) {
    i < |sig| && IsLegacy(sig[i])
  }

  lemma {:induction false} DemotedCountIs(sig: seq<Parameter>)
    requires !HasKind(sig, Intent) && !HasKind(sig, Context)
    ensures DemotedCount(ClassifyAll(sig)) == One(IsLegacyAt(sig, 0)) + One(IsLegacyAt(sig, 1))
    decreases |sig|
  {
    if sig != [] {
      var init := sig[..|sig| - 1];
      assert ClassifyAll(sig)[..|sig| - 1] == ClassifyAll(init);
      DemotedCountIs(init);
    }
  }

  lemma {:induction false} HasKindIs(sig: seq<Parameter>, kind: InjectionKind)
    ensures HasKind(sig, kind) <==> exists i :: 0 <= i < |sig| && KindOf(sig[i]) == kind
    decreases |sig|
  {
    if sig != [] {
      var init := sig[..|sig| - 1];
      HasKindIs(init, kind);
      if i :| 0 <= i < |sig| && KindOf(sig[i]) == kind {
        assert i < |init| ==> KindOf(init[i]) == kind;
      }
      if i :| 0 <= i < |init| && KindOf(init[i]) == kind {
        assert KindOf(sig[i]) == kind;
      }
    }
  }

  /**
   The recorded count: the bare ones of the first two parameters or, if there
   are none and no parameter is annotated as intent or context, the legacy
   ones of the first two.
   */
  lemma {:induction false} LegacyCountIs(sig: seq<Parameter>)
    ensures var bare := One(IsBare(sig, 0)) + One(IsBare(sig, 1));
            var claimed := exists i :: 0 <= i < |sig| && (KindOf(sig[i]).Intent? || KindOf(sig[i]).Context?);
            Scan(sig).legacyPositionalCount ==
            if bare > 0 || claimed then bare else One(IsLegacyAt(sig, 0)) + One(IsLegacyAt(sig, 1))
  {
    BareCountIs(sig);
    HasKindIs(sig, Intent);
    HasKindIs(sig, Context);
    if NeedsFallback(sig) {
      DemotedCountIs(sig);
    }
  }

  // ----- Handlers annotated with the framework's classes

  predicate IsFrameworkClass(a: Annotation) {
    a.IntentClass? || a.IntentOf? || a.ContextClass? || a.TasksClass? || a.FilesClass? || a.HtmxClass? || a.StreamClass?
  }

  /** The argument each class stands for. */
  predicate GivenFor(a: Annotation, arg: Arg) {
    match a
    case IntentClass => arg == IntentArg
    case IntentOf(_) => arg == IntentArg
    case ContextClass => arg == ContextArg
    case TasksClass => arg.TasksArg?
    case FilesClass => arg == FilesArg
    case HtmxClass => arg == HtmxArg
    case StreamClass => arg == StreamArg
    case _ => false
  }

  lemma {:induction false} NoLegacyCount(sig: seq<Parameter>)
    requires forall j :: 0 <= j < |sig| ==> !IsLegacy(sig[j])
    ensures LegacyParams(sig) == 0
    decreases |sig|
  {
    if sig != [] {
      NoLegacyCount(sig[..|sig| - 1]);
    }
  }

  lemma {:induction false} PreparedGives(sig: seq<Parameter>, stream: bool, call: HandlerCall, i: nat)
    requires Prepared(sig, stream, call) && i < |sig| && LegacyParams(sig) == 0
    requires !sig[i].default.Marker? && IsFrameworkClass(sig[i].annotation)
    requires stream || !sig[i].annotation.StreamClass?
    ensures var bound := BoundTo(sig, call.positional, call.kwargs, i);
            bound.Some? && GivenFor(sig[i].annotation, bound.value)
  {
  }

  /**
   A handler annotated throughout with the framework's classes can always be
   called, if there is a stream for it to receive, and each of its parameters
   receives what its class stands for.
   */
  lemma {:induction false} AnnotatedHandlerBinds(w: World, routes: seq<Dependency>, sig: seq<Parameter>, stream: bool,
                                                 i: nat)
    requires SignatureNamesDistinct(sig)
    requires forall j :: 0 <= j < |sig| ==> !sig[j].default.Marker? && IsFrameworkClass(sig[j].annotation)
    requires stream || forall j :: 0 <= j < |sig| ==> !sig[j].annotation.StreamClass?
    requires Solve(w, routes, Scan(sig).params, stream).result.Ok?
    ensures var call := Solve(w, routes, Scan(sig).params, stream).result.value;
            && Binds(sig, call.positional, call.kwargs)
            && (i < |sig| ==>
                  var bound := BoundTo(sig, call.positional, call.kwargs, i);
                  bound.Some? && GivenFor(sig[i].annotation, bound.value))
  {
    var call := Solve(w, routes, Scan(sig).params, stream).result.value;
    AnnotatedIsBindable(sig, stream);
    SolvedIsPrepared(w, routes, sig, stream);
    PreparedBinds(sig, stream, call);
    if i < |sig| {
      PreparedGives(sig, stream, call, i);
    }
  }

  lemma {:induction false} AnnotatedIsBindable(sig: seq<Parameter>, stream: bool)
    requires forall j :: 0 <= j < |sig| ==> !sig[j].default.Marker? && IsFrameworkClass(sig[j].annotation)
    requires stream || forall j :: 0 <= j < |sig| ==> !sig[j].annotation.StreamClass?
    ensures Bindable(sig, stream) && LegacyParams(sig) == 0
  {
    forall j | 0 <= j < |sig| ensures !NoKeyword(KindOf(sig[j]), stream) {
      assert !IsLegacy(sig[j]);
    }
    NoLegacyCount(sig);
  }
}
