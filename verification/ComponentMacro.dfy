/** The `#[component]` macro: from a function signature to a plugin. */
module ComponentMacro {
  import opened Machine
  import opened Syntax
  import opened Dealing
  import opened PluginGraph

  datatype Param = Param(pat: string, ty: Type, inject: Option<string>)

  datatype ComponentFn = ComponentFn(name: Option<string>, params: seq<Param>, output: Type)

  // ---- Dependency analysis ----

  datatype Dependency = Dependency(componentType: Type, explicitName: Option<string>, inferredName: string)

  function CreatorName(typeName: string): string {
    "__Create" + typeName + "Plugin"
  }

  lemma CreatorNameInjective(s: string, t: string)
    requires CreatorName(s) == CreatorName(t)
    ensures s == t
  {
    assert s == CreatorName(s)[8..8 + |s|];
    assert t == CreatorName(t)[8..8 + |t|];
  }

  /** The dependency one parameter declares: none unless it is a `Component<T>`. */
  function DependencyOf(p: Param): seq<Dependency> {
    match GenericType(p.ty)
    case Some(ty) =>
      if IsNamed(p.ty, "Component") then [Dependency(ty, p.inject, CreatorName(TypeName(ty)))] else []
    case None => []
  }

  function Dependencies(params: seq<Param>): seq<Dependency> {
    if params == [] then [] else DependencyOf(params[0]) + Dependencies(params[1..])
  }

  method AnalyzeDependencies(params: seq<Param>) returns (deps: seq<Dependency>)
    ensures deps == Dependencies(params)
  {
    deps := [];
    for i := 0 to |params|
      invariant deps + Dependencies(params[i..]) == Dependencies(params)
    {
      var p := params[i];
      assert params[i..][0] == p && params[i..][1..] == params[i + 1..];
      ghost var soFar := deps;
      if IsNamed(p.ty, "Component") {
        var generic := GenericType(p.ty);
        if generic.Some? {
          deps := deps + [Dependency(generic.value, p.inject, CreatorName(TypeName(generic.value)))];
        }
      }
      assert deps == soFar + DependencyOf(p);
      Assoc(soFar, DependencyOf(p), Dependencies(params[i + 1..]));
    }
  }

  // ---- Parameter extraction ----

  /** `let <pat> = ...` in the generated body: from the configuration, or from the component registry. */
  datatype Extraction = FromConfig(pat: string, ty: Type) | FromComponents(pat: string, ty: Type)

  /** What is generated for the remaining parameters when `deps` are the dependencies not used yet. */
  function Extractions(params: seq<Param>, deps: seq<Dependency>): seq<Extraction> {
    if params == [] then []
    else
      var p, rest := params[0], params[1..];
      if IsNamed(p.ty, "Config") then
        match GenericType(p.ty)
        case Some(ty) => [FromConfig(p.pat, ty)] + Extractions(rest, deps)
        case None => Extractions(rest, deps)
      else if IsNamed(p.ty, "Component") && deps != [] then
        [FromComponents(p.pat, deps[0].componentType)] + Extractions(rest, deps[1..])
      else Extractions(rest, deps)
  }

  method GenerateExtractions(params: seq<Param>, deps: seq<Dependency>) returns (xs: seq<Extraction>)
    ensures xs == Extractions(params, deps)
  {
    xs := [];
    var depIndex := 0;
    for i := 0 to |params|
      invariant depIndex <= |deps|
      invariant xs + Extractions(params[i..], deps[depIndex..]) == Extractions(params, deps)
    {
      var p := params[i];
      ghost var soFar := xs;
      assert params[i..][0] == p && params[i..][1..] == params[i + 1..];
      if IsNamed(p.ty, "Config") {
        var generic := GenericType(p.ty);
        if generic.Some? {
          xs := xs + [FromConfig(p.pat, generic.value)];
          assert soFar + ([FromConfig(p.pat, generic.value)] + Extractions(params[i + 1..], deps[depIndex..]))
              == xs + Extractions(params[i + 1..], deps[depIndex..]);
        }
      } else if IsNamed(p.ty, "Component") {
        if depIndex < |deps| {
          xs := xs + [FromComponents(p.pat, deps[depIndex].componentType)];
          assert deps[depIndex..][1..] == deps[depIndex + 1..];
          assert soFar + ([FromComponents(p.pat, deps[depIndex].componentType)]
                          + Extractions(params[i + 1..], deps[depIndex + 1..]))
              == xs + Extractions(params[i + 1..], deps[depIndex + 1..]);
          depIndex := depIndex + 1;
        }
      }
    }
  }

  /** Every parameter is a `Config` or a `Component` (`validate_parameter`). */
  predicate Accepted(params: seq<Param>) {
    forall p :: p in params ==> IsNamed(p.ty, "Config") || IsNamed(p.ty, "Component")
  }

  predicate Typed(p: Param) {
    GenericType(p.ty).Some?
  }

  /** What a parameter should be given: a value of its own type argument. */
  function OwnExtraction(p: Param): Extraction
    requires Typed(p)
  {
    if IsNamed(p.ty, "Config") then FromConfig(p.pat, GenericType(p.ty).value)
    else FromComponents(p.pat, GenericType(p.ty).value)
  }

  function TypedCount(params: seq<Param>): nat {
    if params == [] then 0 else (if Typed(params[0]) then 1 else 0) + TypedCount(params[1..])
  }

  lemma {:induction false} TypedCountFull(params: seq<Param>)
    ensures TypedCount(params) <= |params|
    ensures TypedCount(params) == |params| <==> forall p :: p in params ==> Typed(p)
  {
    if params != [] {
      TypedCountFull(params[1..]);
      assert forall p :: p in params <==> p == params[0] || p in params[1..];
    }
  }

  lemma {:induction false} ExtractionCount(params: seq<Param>, deps: seq<Dependency>)
    requires Accepted(params)
    ensures |Extractions(params, deps)| + |Dependencies(params)| <= TypedCount(params) + |deps|
  {
    if params != [] {
      ExtractionCount(params[1..], deps);
      if deps != [] {
        ExtractionCount(params[1..], deps[1..]);
      }
      assert params[0] in params;
    }
  }

  /** The generated body binds every parameter exactly when each carries a type argument, and then
      the k-th parameter gets a value of its own type: configurations in between do not shift the pairing. */
  lemma BindsEveryParameterIff(params: seq<Param>)
    requires Accepted(params)
    ensures |Extractions(params, Dependencies(params))| == |params| <==> forall p :: p in params ==> Typed(p)
    ensures (forall p :: p in params ==> Typed(p)) ==>
      forall k :: 0 <= k < |params| ==> Extractions(params, Dependencies(params))[k] == OwnExtraction(params[k])
  {
    TypedCountFull(params);
    ExtractionCount(params, Dependencies(params));
    if forall p :: p in params ==> Typed(p) {
      TypedExtractions(params);
    }
  }

  lemma {:induction false} TypedExtractions(params: seq<Param>)
    requires Accepted(params) && forall p :: p in params ==> Typed(p)
    ensures var xs := Extractions(params, Dependencies(params));
            |xs| == |params| && forall k :: 0 <= k < |params| ==> xs[k] == OwnExtraction(params[k])
  {
    if params != [] {
      var p, rest := params[0], params[1..];
      TypedExtractions(rest);
      assert p in params;
      assert Extractions(params, Dependencies(params))
          == [OwnExtraction(p)] + Extractions(rest, Dependencies(rest)) by {
        if IsNamed(p.ty, "Component") {
          assert LastIdent(p.ty) == Some("Component");
          assert Dependencies(params)[1..] == Dependencies(rest);
        } else {
          assert Dependencies(params) == Dependencies(rest);
        }
      }
    }
  }

  // ---- The generated plugin ----

  function ComponentTypes(xs: seq<Extraction>): seq<Type> {
    if xs == [] then []
    else (if xs[0].FromComponents? then [xs[0].ty] else []) + ComponentTypes(xs[1..])
  }

  /** Every dependency found by the analysis is fetched by the generated body, in the same order. */
  lemma {:induction false} FetchesEveryDependency(params: seq<Param>, deps: seq<Dependency>)
    requires Accepted(params) && |deps| <= |Dependencies(params)|
    ensures |ComponentTypes(Extractions(params, deps))| >= |deps|
    ensures forall k :: 0 <= k < |deps| ==> ComponentTypes(Extractions(params, deps))[k] == deps[k].componentType
    ensures |ComponentTypes(Extractions(params, deps))| <= |deps|
  {
    if params != [] {
      var p := params[0];
      assert p in params;
      if IsNamed(p.ty, "Component") && deps != [] {
        assert LastIdent(p.ty) == Some("Component");
        FetchesEveryDependency(params[1..], deps[1..]);
      } else {
        FetchesEveryDependency(params[1..], deps);
      }
    }
  }

  /** The type registered for the function's value: a `Result` is unwrapped first. */
  function ValueType(output: Type): Type {
    if IsNamed(output, "Result") && GenericType(output).Some? then GenericType(output).value else output
  }

  function PluginName(f: ComponentFn): string {
    match f.name
    case Some(name) => name
    case None => CreatorName(TypeName(f.output))
  }

  function DependencyName(d: Dependency): string {
    match d.explicitName
    case Some(name) => name
    case None => d.inferredName
  }

  /** What a call of a component function ends in. */
  datatype Answer = Value | Error | Panic

  /** What the macro does not see: the compiler's identity of a type, the configurations that are there, and
      what the functions do when they are called. */
  datatype Host = Host(id: Type -> TypeId, configured: Type -> bool, answer: ComponentFn -> Answer)

  /** The component type that the function's plugin adds. */
  function Gives(f: ComponentFn, host: Host): TypeId {
    host.id(ValueType(f.output))
  }

  /** The generated body expects every configuration to be there, and the value of a `Result` to be `Ok`. */
  predicate Crashes(f: ComponentFn, host: Host) {
    || (exists x :: x in Extractions(f.params, Dependencies(f.params)) && x.FromConfig? && !host.configured(x.ty))
    || host.answer(f) == Panic || (IsNamed(f.output, "Result") && host.answer(f) == Error)
  }

  ghost predicate IsConfigOf(p: Param, ty: Type) {
    IsNamed(p.ty, "Config") && GenericType(p.ty) == Some(ty)
  }

  ghost predicate AsksFor(params: seq<Param>, ty: Type) {
    exists p :: p in params && IsConfigOf(p, ty)
  }

  ghost predicate Reads(xs: seq<Extraction>, ty: Type) {
    exists x :: x in xs && x.FromConfig? && x.ty == ty
  }

  lemma ReadsFirst(x: Extraction, xs: seq<Extraction>, ty: Type)
    ensures Reads([x] + xs, ty) <==> (x.FromConfig? && x.ty == ty) || Reads(xs, ty)
  {
    assert x in [x] + xs;
    assert forall y :: y in xs ==> y in [x] + xs;
  }

  lemma AsksFirst(params: seq<Param>, ty: Type)
    requires params != []
    ensures AsksFor(params, ty) <==> IsConfigOf(params[0], ty) || AsksFor(params[1..], ty)
  {
    assert forall p :: p in params <==> p == params[0] || p in params[1..];
  }

  /** The generated body reads exactly the configurations that the `Config<T>` parameters name. */
  lemma {:induction false} ReadsEveryConfig(params: seq<Param>, deps: seq<Dependency>, ty: Type)
    ensures Reads(Extractions(params, deps), ty) <==> AsksFor(params, ty)
  {
    if params != [] {
      var p, rest := params[0], params[1..];
      AsksFirst(params, ty);
      if IsNamed(p.ty, "Config") {
        ReadsEveryConfig(rest, deps, ty);
        if GenericType(p.ty).Some? {
          ReadsFirst(FromConfig(p.pat, GenericType(p.ty).value), Extractions(rest, deps), ty);
        }
      } else if IsNamed(p.ty, "Component") && deps != [] {
        ReadsEveryConfig(rest, deps[1..], ty);
        ReadsFirst(FromComponents(p.pat, deps[0].componentType), Extractions(rest, deps[1..]), ty);
      } else {
        ReadsEveryConfig(rest, deps, ty);
      }
    }
  }

  /** When the function's own part of the build panics: some `Config<T>` parameter's configuration is missing, the
      function panics, or it answers an error and is declared to return a `Result`. */
  lemma CrashesIff(f: ComponentFn, host: Host)
    ensures Crashes(f, host) <==>
      || (exists ty :: AsksFor(f.params, ty) && !host.configured(ty))
      || host.answer(f) == Panic || (LastIdent(f.output) == Some("Result") && host.answer(f) == Error)
  {
    var xs := Extractions(f.params, Dependencies(f.params));
    if x :| x in xs && x.FromConfig? && !host.configured(x.ty) {
      ReadsEveryConfig(f.params, Dependencies(f.params), x.ty);
      assert Reads(xs, x.ty);
    }
    if ty :| AsksFor(f.params, ty) && !host.configured(ty) {
      ReadsEveryConfig(f.params, Dependencies(f.params), ty);
    }
  }

  /** The type registered: the first argument of a `Result`, else the declared return type itself. */
  lemma RegistersValueType(f: ComponentFn, host: Host, path: seq<Segment>, t: Type, rest: seq<GenericArg>)
    ensures f.output == Path(path + [Segment("Result", [TypeArg(t)] + rest)]) ==> Gives(f, host) == host.id(t)
    ensures LastIdent(f.output) != Some("Result") ==> Gives(f, host) == host.id(f.output)
  {
  }

  /** `generate_plugin_impl` */
  function Generate(f: ComponentFn, host: Host): Plugin {
    var deps := Dependencies(f.params);
    var types := ComponentTypes(Extractions(f.params, deps));
    Plugin(PluginName(f), false,
           seq(|deps|, k requires 0 <= k < |deps| => DependencyName(deps[k])),
           seq<TypeId>(|types|, k requires 0 <= k < |types| => host.id(types[k])),
           Crashes(f, host), [Gives(f, host)], [], [])
  }
  /** The whole plugin in terms of the signature: registered, not immediate; under the name given or the default one;
      its k-th dependency and k-th fetch belong together; one component and no jobs. */
  lemma GeneratedPlugin(f: ComponentFn, host: Host)
    requires Accepted(f.params)
    ensures var (p, ds) := (Generate(f, host), Dependencies(f.params));
      && !p.immediately && p.tasks == [] && p.hooks == [] && p.adds == [Gives(f, host)]
      && p.name == (if f.name.Some? then f.name.value else "__Create" + TypeName(f.output) + "Plugin")
      && |p.deps| == |p.fetches| == |ds|
      && forall k :: 0 <= k < |ds| ==>
           p.fetches[k] == host.id(ds[k].componentType)
           && p.deps[k] == if ds[k].explicitName.Some? then ds[k].explicitName.value else ds[k].inferredName
  {
    FetchesEveryDependency(f.params, Dependencies(f.params));
  }
}
