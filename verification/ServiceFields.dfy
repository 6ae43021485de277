/**
 From the declaration of a service's fields to its generated `build`: what kind of field each
 declaration is, in which order the fields are filled, and what the service then needs.
 */
module ServiceFields {
  import opened Machine
  import opened Syntax
  import opened PluginGraph
  import opened BuildHistory
  import opened ServiceGraph

  datatype InjectAttr = AsComponent | AsConfig | AsFuncCall

  /** `#[inject(..)]` on a field; `Malformed` is anything the macro does not understand. */
  datatype Annotation = Absent | Malformed | Inject(attr: InjectAttr)

  datatype FieldDecl = FieldDecl(field: string, ty: Type, annotation: Annotation)

  /** A field of the struct with what is to be injected into it. */
  datatype Injectable = Injectable(field: string, ty: Field)

  /** The compiler's identities of component and configuration types. */
  datatype Ids = Ids(component: Type -> TypeId, config: Type -> ConfigId)

  /** `get_argument_type`: the last generic argument, which must be a path. */
  function ArgumentType(segment: Segment): Option<Type> {
    var args := segment.args;
    if args != [] && args[|args| - 1].TypeArg? && args[|args| - 1].ty.Path? then Some(args[|args| - 1].ty) else None
  }

  function MakeType(attr: InjectAttr, ty: Type, ids: Ids): Option<Field> {
    match attr
    case AsComponent =>
      (match LastSegment(ty)
       case None => None
       case Some(last) =>
         if last.ident != "Option" then Some(Component(false, ids.component(ty)))
         else
           match ArgumentType(last)
           case None => None
           case Some(arg) => Some(Component(true, ids.component(arg))))
    case AsConfig => Some(Config(ids.config(ty)))
    case AsFuncCall => Some(FuncCall)
  }

  /** `compute_type`; `None` is a compile error. */
  function ComputeType(d: FieldDecl, ids: Ids): Option<Field> {
    if !d.ty.Path? || d.annotation.Malformed? then None
    else if d.annotation.Inject? then MakeType(d.annotation.attr, d.ty, ids)
    else
      match LastSegment(d.ty)
      case None => None
      case Some(last) =>
        if last.ident == "Option" then Some(AlwaysNone)
        else if last.ident !in {"LazyComponent", "ComponentRef", "ConfigRef"} then None
        else
          match ArgumentType(last)
          case None => None
          case Some(arg) =>
            if last.ident == "LazyComponent" then Some(LazyComponent(ids.component(arg)))
            else if last.ident == "ComponentRef" then Some(ComponentRef(ids.component(arg)))
            else Some(ConfigRef(ids.config(arg)))
  }

  function ComputeTypes(ds: seq<FieldDecl>, ids: Ids): Option<seq<Injectable>> {
    if ds == [] then Some([])
    else
      match ComputeType(ds[0], ids)
      case None => None
      case Some(f) =>
        match ComputeTypes(ds[1..], ids)
        case None => None
        case Some(fs) => Some([Injectable(ds[0].field, f)] + fs)
  }

  // ---- The order in which fields are filled ----

  function Order(f: Field): (k: nat)
    ensures k <= 5
  {
    match f
    case AlwaysNone => 0
    case Component(_, _) => 1
    case LazyComponent(_) => 1
    case Config(_) => 2
    case ComponentRef(_) => 3
    case ConfigRef(_) => 4
    case FuncCall => 5
  }

  /** The fields of one kind, in declaration order. */
  function Bucket(fs: seq<Injectable>, k: nat): seq<Injectable> {
    if fs == [] then []
    else
      var rest, last := fs[..|fs| - 1], fs[|fs| - 1];
      if Order(last.ty) == k then Bucket(rest, k) + [last] else Bucket(rest, k)
  }

  /** `sort_by_key`, which is stable: the first `k` buckets one after the other. */
  function Buckets(fs: seq<Injectable>, k: nat): seq<Injectable> {
    if k == 0 then [] else Buckets(fs, k - 1) + Bucket(fs, k - 1)
  }

  function SortByKind(fs: seq<Injectable>): seq<Injectable> {
    Buckets(fs, 6)
  }

  lemma {:induction false} InBucket(fs: seq<Injectable>, k: nat, f: Injectable)
    ensures f in Bucket(fs, k) <==> f in fs && Order(f.ty) == k
  {
    if fs != [] {
      var rest := fs[..|fs| - 1];
      InBucket(rest, k, f);
      assert f in fs <==> f in rest || f == fs[|fs| - 1];
    }
  }

  lemma {:induction false} InBuckets(fs: seq<Injectable>, k: nat, f: Injectable)
    ensures f in Buckets(fs, k) <==> f in fs && Order(f.ty) < k
  {
    if k != 0 {
      InBuckets(fs, k - 1, f);
      InBucket(fs, k - 1, f);
    }
  }

  lemma OrderAt(fs: seq<Injectable>, k: nat, i: nat)
    requires i < |Buckets(fs, k + 1)|
    ensures var f := Buckets(fs, k + 1)[i];
      if i < |Buckets(fs, k)| then f == Buckets(fs, k)[i] && Order(f.ty) < k else Order(f.ty) == k
  {
    var f := Buckets(fs, k + 1)[i];
    if i < |Buckets(fs, k)| {
      InBuckets(fs, k, f);
    } else {
      assert f == Bucket(fs, k)[i - |Buckets(fs, k)|];
      InBucket(fs, k, f);
    }
  }

  lemma {:induction false} BucketsAscend(fs: seq<Injectable>, k: nat, i: nat, j: nat)
    requires i < j < |Buckets(fs, k)|
    ensures Order(Buckets(fs, k)[i].ty) <= Order(Buckets(fs, k)[j].ty)
  {
    if k != 0 {
      OrderAt(fs, k - 1, i);
      OrderAt(fs, k - 1, j);
      if j < |Buckets(fs, k - 1)| {
        BucketsAscend(fs, k - 1, i, j);
      }
    }
  }

  function Copies(fs: seq<Injectable>, f: Injectable): nat {
    if fs == [] then 0 else Copies(fs[..|fs| - 1], f) + if fs[|fs| - 1] == f then 1 else 0
  }

  lemma CopiesSnoc(fs: seq<Injectable>, last: Injectable, f: Injectable)
    ensures Copies(fs + [last], f) == Copies(fs, f) + if last == f then 1 else 0
  {
    assert (fs + [last])[..|fs|] == fs;
  }

  lemma {:induction false} CopiesConcat(a: seq<Injectable>, b: seq<Injectable>, f: Injectable)
    ensures Copies(a + b, f) == Copies(a, f) + Copies(b, f)
  {
    if b == [] {
      assert a + b == a;
    } else {
      CopiesConcat(a, b[..|b| - 1], f);
      assert (a + b)[..|a + b| - 1] == a + b[..|b| - 1];
    }
  }

  lemma {:induction false} CopiesInBucket(fs: seq<Injectable>, k: nat, f: Injectable)
    ensures Copies(Bucket(fs, k), f) == if Order(f.ty) == k then Copies(fs, f) else 0
  {
    if fs != [] {
      var rest, last := fs[..|fs| - 1], fs[|fs| - 1];
      CopiesInBucket(rest, k, f);
      CopiesSnoc(Bucket(rest, k), last, f);
    }
  }

  lemma {:induction false} CopiesInBuckets(fs: seq<Injectable>, k: nat, f: Injectable)
    ensures Copies(Buckets(fs, k), f) == if Order(f.ty) < k then Copies(fs, f) else 0
  {
    if k != 0 {
      var earlier, last := Buckets(fs, k - 1), Bucket(fs, k - 1);
      CopiesInBuckets(fs, k - 1, f);
      CopiesInBucket(fs, k - 1, f);
      CopiesConcat(earlier, last, f);
      assert Copies(Buckets(fs, k), f) == Copies(earlier, f) + Copies(last, f);
    }
  }

  lemma {:induction false} BucketConcat(a: seq<Injectable>, b: seq<Injectable>, k: nat)
    ensures Bucket(a + b, k) == Bucket(a, k) + Bucket(b, k)
  {
    if b == [] {
      assert a + b == a;
    } else {
      BucketConcat(a, b[..|b| - 1], k);
      assert (a + b)[..|a + b| - 1] == a + b[..|b| - 1];
    }
  }

  lemma {:induction false} BucketOfBucket(fs: seq<Injectable>, j: nat, k: nat)
    ensures Bucket(Bucket(fs, j), k) == if j == k then Bucket(fs, k) else []
  {
    if fs != [] {
      var rest, last := fs[..|fs| - 1], fs[|fs| - 1];
      BucketOfBucket(rest, j, k);
      assert (Bucket(rest, j) + [last])[..|Bucket(rest, j)|] == Bucket(rest, j);
    }
  }

  lemma {:induction false} BucketOfBuckets(fs: seq<Injectable>, n: nat, k: nat)
    ensures Bucket(Buckets(fs, n), k) == if k < n then Bucket(fs, k) else []
  {
    if n != 0 {
      BucketOfBuckets(fs, n - 1, k);
      BucketOfBucket(fs, n - 1, k);
      BucketConcat(Buckets(fs, n - 1), Bucket(fs, n - 1), k);
    }
  }

  /** Sorting keeps every field as often as it was declared and puts the kinds in order, in particular
      expressions after all fields they may mention; it is stable: within a kind, the declared order stays. */
  lemma SortedByKind(fs: seq<Injectable>)
    ensures forall f :: Copies(SortByKind(fs), f) == Copies(fs, f)
    ensures forall i, j :: 0 <= i < j < |SortByKind(fs)| ==> Order(SortByKind(fs)[i].ty) <= Order(SortByKind(fs)[j].ty)
    ensures forall k :: 0 <= k <= 5 ==> Bucket(SortByKind(fs), k) == Bucket(fs, k)
  {
    forall f
      ensures Copies(SortByKind(fs), f) == Copies(fs, f)
    {
      CopiesInBuckets(fs, 6, f);
    }
    forall i, j | 0 <= i < j < |SortByKind(fs)|
      ensures Order(SortByKind(fs)[i].ty) <= Order(SortByKind(fs)[j].ty)
    {
      BucketsAscend(fs, 6, i, j);
    }
    forall k | 0 <= k <= 5
      ensures Bucket(SortByKind(fs), k) == Bucket(fs, k)
    {
      BucketOfBuckets(fs, 6, k);
    }
  }

  /** Which kinds may still come after a field: options first, components before configurations, plain values before
      references, and nothing but expressions after an expression. */
  lemma OrderOfKinds(fs: seq<Injectable>, i: nat, j: nat)
    requires i < j < |SortByKind(fs)|
    ensures var (a, b) := (SortByKind(fs)[i].ty, SortByKind(fs)[j].ty);
      match a
      case AlwaysNone => true
      case Component(_, _) => !b.AlwaysNone?
      case LazyComponent(_) => !b.AlwaysNone?
      case Config(_) => b.Config? || b.ComponentRef? || b.ConfigRef? || b.FuncCall?
      case ComponentRef(_) => b.ComponentRef? || b.ConfigRef? || b.FuncCall?
      case ConfigRef(_) => b.ConfigRef? || b.FuncCall?
      case FuncCall => b.FuncCall?
  {
    BucketsAscend(fs, 6, i, j);
  }

  // ---- What a declared service needs ----

  /** What a declaration asks for, read off the declaration itself. */
  predicate Satisfied(d: FieldDecl, cs: Components, configs: set<ConfigId>, ids: Ids) {
    match d.annotation
    case Inject(AsComponent) => IsNamed(d.ty, "Option") || ids.component(d.ty) in cs
    case Inject(AsConfig) => ids.config(d.ty) in configs
    case Absent =>
      && (IsNamed(d.ty, "ComponentRef") ==> RefersTo(d, ids.component, cs.Keys))
      && (IsNamed(d.ty, "ConfigRef") ==> RefersTo(d, ids.config, configs))
    case _ => true
  }

  predicate RefersTo(d: FieldDecl, id: Type -> nat, available: set<nat>) {
    var last := LastSegment(d.ty);
    last.Some? && ArgumentType(last.value).Some? && id(ArgumentType(last.value).value) in available
  }

  lemma SatisfiedIff(d: FieldDecl, cs: Components, configs: set<ConfigId>, ids: Ids)
    requires ComputeType(d, ids).Some?
    ensures InjectField(ComputeType(d, ids).value, cs, configs).Some? <==> Satisfied(d, cs, configs, ids)
  {
  }

  function Kinds(fs: seq<Injectable>): seq<Field> {
    seq(|fs|, k requires 0 <= k < |fs| => fs[k].ty)
  }

  lemma {:induction false} BuildsIffEachField(fs: seq<Injectable>, cs: Components, configs: set<ConfigId>)
    ensures BuildService(Kinds(fs), cs, configs).Some? <==> forall f :: f in fs ==> InjectField(f.ty, cs, configs).Some?
  {
    if fs != [] {
      BuildsIffEachField(fs[1..], cs, configs);
      assert Kinds(fs)[1..] == Kinds(fs[1..]);
      assert forall f :: f in fs <==> f == fs[0] || f in fs[1..];
    }
  }

  /** The fields computed are those of the declarations, one by one. */
  lemma {:induction false} ComputedAt(ds: seq<FieldDecl>, ids: Ids)
    requires ComputeTypes(ds, ids).Some?
    ensures var fs := ComputeTypes(ds, ids).value;
      && |fs| == |ds|
      && forall k :: 0 <= k < |ds| ==> ComputeType(ds[k], ids) == Some(fs[k].ty) && fs[k].field == ds[k].field
  {
    if ds != [] {
      ComputedAt(ds[1..], ids);
    }
  }

  lemma EachSatisfied(ds: seq<FieldDecl>, cs: Components, configs: set<ConfigId>, ids: Ids)
    requires ComputeTypes(ds, ids).Some?
    ensures (forall f :: f in ComputeTypes(ds, ids).value ==> InjectField(f.ty, cs, configs).Some?)
       <==> (forall d :: d in ds ==> Satisfied(d, cs, configs, ids))
  {
    var fs := ComputeTypes(ds, ids).value;
    ComputedAt(ds, ids);
    forall k | 0 <= k < |ds|
      ensures InjectField(fs[k].ty, cs, configs).Some? <==> Satisfied(ds[k], cs, configs, ids)
    {
      SatisfiedIff(ds[k], cs, configs, ids);
    }
    if forall f :: f in fs ==> InjectField(f.ty, cs, configs).Some? {
      forall d | d in ds
        ensures Satisfied(d, cs, configs, ids)
      {
        var k :| 0 <= k < |ds| && ds[k] == d;
        assert fs[k] in fs;
      }
    }
    if forall d :: d in ds ==> Satisfied(d, cs, configs, ids) {
      forall f | f in fs
        ensures InjectField(f.ty, cs, configs).Some?
      {
        var k :| 0 <= k < |fs| && fs[k] == f;
        assert ds[k] in ds;
      }
    }
  }

  /** The generated `build`, with its fields sorted. */
  function BuildDeclared(fs: seq<Injectable>, cs: Components, configs: set<ConfigId>): Option<seq<Injected>> {
    BuildService(Kinds(SortByKind(fs)), cs, configs)
  }

  /** From source text to result: the generated `build` succeeds exactly when every declared field finds what its
      declaration asks for; optional and lazy fields ask for nothing. */
  lemma DeclaredServiceBuildsIff(ds: seq<FieldDecl>, cs: Components, configs: set<ConfigId>, ids: Ids)
    requires ComputeTypes(ds, ids).Some?
    ensures BuildDeclared(ComputeTypes(ds, ids).value, cs, configs).Some?
       <==> forall d :: d in ds ==> Satisfied(d, cs, configs, ids)
  {
    var fs := ComputeTypes(ds, ids).value;
    forall f
      ensures f in SortByKind(fs) <==> f in fs
    {
      InBuckets(fs, 6, f);
    }
    BuildsIffEachField(SortByKind(fs), cs, configs);
    EachSatisfied(ds, cs, configs, ids);
  }

  /** What the field `d` must hold after the build, read off its declaration. */
  ghost predicate Holds(d: FieldDecl, v: Injected, cs: Components, configs: set<ConfigId>, ids: Ids) {
    match d.annotation
    case Malformed => false
    case Inject(AsConfig) => ids.config(d.ty) in configs && v == Configuration(ids.config(d.ty))
    case Inject(AsFuncCall) => v == Made
    case Inject(AsComponent) =>
      if !IsNamed(d.ty, "Option") then IsInstance(v, ids.component(d.ty), cs)
      else
        exists arg :: Wraps(d.ty, arg) &&
          if ids.component(arg) in cs then IsInstance(v, ids.component(arg), cs) else v == NoValue
    case Absent =>
      if IsNamed(d.ty, "Option") then v == NoValue
      else
        exists arg :: Wraps(d.ty, arg) &&
          if IsNamed(d.ty, "LazyComponent") then v == Later(ids.component(arg))
          else if IsNamed(d.ty, "ComponentRef") then IsInstance(v, ids.component(arg), cs)
          else IsNamed(d.ty, "ConfigRef") && ids.config(arg) in configs && v == Configuration(ids.config(arg))
  }

  ghost predicate IsInstance(v: Injected, ty: TypeId, cs: Components) {
    ty in cs && v == Instance(cs[ty])
  }

  /** `arg` is the last generic argument of the last segment of `ty`. */
  ghost predicate Wraps(ty: Type, arg: Type) {
    && ty.Path? && ty.segments != [] && ty.segments[|ty.segments| - 1].args != []
    && (var args := ty.segments[|ty.segments| - 1].args; args[|args| - 1] == TypeArg(arg))
  }

  /** Which declarations the macro understands; anything else is a compile error. */
  ghost predicate Understood(d: FieldDecl)
    requires d.ty.Path?
  {
    match d.annotation
    case Malformed => false
    case Inject(AsComponent) => d.ty.segments != [] && (IsNamed(d.ty, "Option") ==> HasArgument(d.ty))
    case Inject(_) => true
    case Absent =>
      IsNamed(d.ty, "Option") ||
      (HasArgument(d.ty)
       && (IsNamed(d.ty, "LazyComponent") || IsNamed(d.ty, "ComponentRef") || IsNamed(d.ty, "ConfigRef")))
  }

  ghost predicate HasArgument(ty: Type) {
    exists arg: Type :: arg.Path? && Wraps(ty, arg)
  }

  lemma UnderstoodIff(d: FieldDecl, ids: Ids)
    ensures ComputeType(d, ids).Some? <==> d.ty.Path? && Understood(d)
  {
    if LastSegment(d.ty).Some? && ArgumentType(LastSegment(d.ty).value).Some? {
      assert Wraps(d.ty, ArgumentType(LastSegment(d.ty).value).value);
    }
  }

  lemma FilledHolds(d: FieldDecl, v: Injected, cs: Components, configs: set<ConfigId>, ids: Ids)
    requires ComputeType(d, ids).Some? && Filled(ComputeType(d, ids).value, v, cs, configs)
    ensures Holds(d, v, cs, configs, ids)
  {
    if LastSegment(d.ty).Some? && ArgumentType(LastSegment(d.ty).value).Some? {
      assert Wraps(d.ty, ArgumentType(LastSegment(d.ty).value).value);
    }
  }

  /** Fields of a struct have different names. */
  ghost predicate DistinctFields(ds: seq<FieldDecl>) {
    forall i, j :: 0 <= i < j < |ds| ==> ds[i].field != ds[j].field
  }

  /** After sorting, the one field with the name of `d` is the one computed from `d`. */
  lemma SortedField(ds: seq<FieldDecl>, ids: Ids, d: FieldDecl)
    requires ComputeTypes(ds, ids).Some? && DistinctFields(ds) && d in ds
    ensures var sorted := SortByKind(ComputeTypes(ds, ids).value);
      && (exists k :: 0 <= k < |sorted| && sorted[k].field == d.field)
      && forall k :: 0 <= k < |sorted| && sorted[k].field == d.field ==> ComputeType(d, ids) == Some(sorted[k].ty)
  {
    var fs := ComputeTypes(ds, ids).value;
    var sorted := SortByKind(fs);
    ComputedAt(ds, ids);
    var n :| 0 <= n < |ds| && ds[n] == d;
    InBuckets(fs, 6, fs[n]);
    forall k | 0 <= k < |sorted| && sorted[k].field == d.field
      ensures sorted[k] == fs[n]
    {
      InBuckets(fs, 6, sorted[k]);
    }
  }

  /** Each declared field of a built service holds what its own declaration asks for, wherever sorting put it:
      a component field the registered component of its type. */
  lemma EachFieldHoldsItsOwn(ds: seq<FieldDecl>, cs: Components, configs: set<ConfigId>, ids: Ids, vs: seq<Injected>,
                             d: FieldDecl)
    requires ComputeTypes(ds, ids).Some? && DistinctFields(ds) && d in ds
    requires BuildDeclared(ComputeTypes(ds, ids).value, cs, configs) == Some(vs)
    ensures var sorted := SortByKind(ComputeTypes(ds, ids).value);
      && |vs| == |sorted| && (exists k :: 0 <= k < |vs| && sorted[k].field == d.field)
      && forall k :: 0 <= k < |vs| && sorted[k].field == d.field ==> Holds(d, vs[k], cs, configs, ids)
  {
    var sorted := SortByKind(ComputeTypes(ds, ids).value);
    SortedField(ds, ids, d);
    InjectedValues(Kinds(sorted), cs, configs, vs);
    forall k | 0 <= k < |vs| && sorted[k].field == d.field
      ensures Holds(d, vs[k], cs, configs, ids)
    {
      FilledHolds(d, vs[k], cs, configs, ids);
    }
  }

  /** A lazy field can be filled when nothing is registered yet exactly if it is not annotated: with
      `#[inject(component)]` it is an ordinary component whose type is the lazy wrapper. */
  lemma LazyUnlessAnnotated(d: FieldDecl, ids: Ids)
    requires IsNamed(d.ty, "LazyComponent") && ComputeType(d, ids).Some?
    requires d.annotation == Absent || d.annotation == Inject(AsComponent)
    ensures InjectField(ComputeType(d, ids).value, map[], {}).Some? <==> d.annotation == Absent
  {
  }
}
