/**
 Flattening of nested validation errors into a list of violations with printed field paths
 (`collect_violations`), and why the paths identify the fields.
 */
module Violations {
  import opened Dealing
  import opened Paths

  /** `ValidationErrors`: fields in the order in which the hash map yields them. */
  datatype Errors = Errors(fields: seq<(string, Kind)>)

  /** `ValidationErrorsKind`; a list's entries carry their index. `Problem` is one validation error. */
  datatype Kind = Field(problems: seq<Problem>) | Struct(nested: Errors) | List(items: seq<(nat, Errors)>)

  type Problem = nat

  datatype Violation = Violation(field: string, problem: Problem)

  // ---- Flattening ----

  /** All problems of a tree below `path`, in the order of the walk. */
  datatype Leaf = Leaf(path: seq<Step>, problem: Problem)

  function Leaves(e: Errors, path: seq<Step>): seq<Leaf>
    decreases e, |e.fields|, 2
  {
    FieldLeaves(e, |e.fields|, path)
  }

  function FieldLeaves(e: Errors, n: nat, path: seq<Step>): seq<Leaf>
    requires n <= |e.fields|
    decreases e, n, 1
  {
    if n == 0 then []
    else
      var (f, kind) := e.fields[n - 1];
      FieldLeaves(e, n - 1, path) + KindLeaves(kind, path + [Name(f)])
  }

  function KindLeaves(k: Kind, path: seq<Step>): seq<Leaf>
    decreases k, if k.List? then |k.items| + 1 else 0
  {
    match k
    case Field(ps) => seq(|ps|, i requires 0 <= i < |ps| => Leaf(path, ps[i]))
    case Struct(nested) => Leaves(nested, path)
    case List(items) => ItemLeaves(k, |items|, path)
  }

  function ItemLeaves(k: Kind, n: nat, path: seq<Step>): seq<Leaf>
    requires k.List? && n <= |k.items|
    decreases k, n
  {
    if n == 0 then [] else ItemLeaves(k, n - 1, path) + Leaves(k.items[n - 1].1, path + [Index(k.items[n - 1].0)])
  }

  function Report(ls: seq<Leaf>): seq<Violation> {
    if ls == [] then [] else Report(ls[..|ls| - 1]) + [Violation(Print(ls[|ls| - 1].path), ls[|ls| - 1].problem)]
  }

  lemma {:induction false} ReportConcat(a: seq<Leaf>, b: seq<Leaf>)
    ensures Report(a + b) == Report(a) + Report(b)
  {
    if b == [] {
      NothingAdded(a);
      NothingAdded(Report(a));
    } else {
      var rest, last := b[..|b| - 1], b[|b| - 1];
      ReportConcat(a, rest);
      ReportSnoc(a + rest, last);
      assert b == rest + [last];
      Assoc(a, rest, [last]);
      Assoc(Report(a), Report(rest), [Violation(Print(last.path), last.problem)]);
    }
  }

  lemma ReportSnoc(ls: seq<Leaf>, last: Leaf)
    ensures Report(ls + [last]) == Report(ls) + [Violation(Print(last.path), last.problem)]
  {
    assert (ls + [last])[..|ls|] == ls;
  }

  /** The `&mut Vec<Violation>` that every level of the recursion pushes to. */
  class Sink {
    var violations: seq<Violation>

    constructor ()
      ensures violations == []
    {
      violations := [];
    }
  }

  lemma FieldReported(e: Errors, n: nat, path: seq<Step>, before: seq<Violation>)
    requires n < |e.fields|
    ensures before + Report(FieldLeaves(e, n, path)) + Report(KindLeaves(e.fields[n].1, path + [Name(e.fields[n].0)]))
         == before + Report(FieldLeaves(e, n + 1, path))
  {
    ReportConcat(FieldLeaves(e, n, path), KindLeaves(e.fields[n].1, path + [Name(e.fields[n].0)]));
    Assoc(before, Report(FieldLeaves(e, n, path)), Report(KindLeaves(e.fields[n].1, path + [Name(e.fields[n].0)])));
  }

  lemma ItemReported(k: Kind, n: nat, path: seq<Step>, before: seq<Violation>)
    requires k.List? && n < |k.items|
    ensures before + Report(ItemLeaves(k, n, path)) + Report(Leaves(k.items[n].1, path + [Index(k.items[n].0)]))
         == before + Report(ItemLeaves(k, n + 1, path))
  {
    ReportConcat(ItemLeaves(k, n, path), Leaves(k.items[n].1, path + [Index(k.items[n].0)]));
    Assoc(before, Report(ItemLeaves(k, n, path)), Report(Leaves(k.items[n].1, path + [Index(k.items[n].0)])));
  }

  lemma ProblemReported(problems: seq<Problem>, n: nat, path: seq<Step>, before: seq<Violation>)
    requires n < |problems|
    ensures var ls := KindLeaves(Field(problems), path);
      before + Report(ls[..n]) + [Violation(Print(path), problems[n])] == before + Report(ls[..n + 1])
  {
    var ls := KindLeaves(Field(problems), path);
    assert ls[..n + 1][..n] == ls[..n];
    Assoc(before, Report(ls[..n]), [Violation(Print(path), problems[n])]);
  }

  /** `collect_violations` */
  method CollectViolations(errors: Errors, prefix: string, ghost path: seq<Step>, sink: Sink)
    requires prefix == Print(path)
    modifies sink
    ensures sink.violations == old(sink.violations) + Report(Leaves(errors, path))
    decreases errors, 1
  {
    NothingAdded(sink.violations);
    for n := 0 to |errors.fields|
      invariant sink.violations == old(sink.violations) + Report(FieldLeaves(errors, n, path))
    {
      var (field, kind) := errors.fields[n];
      var fullField := if prefix == "" then field else prefix + "." + field;
      PrintSnoc(path, Name(field));
      FieldReported(errors, n, path, old(sink.violations));
      CollectKind(kind, fullField, path + [Name(field)], sink);
    }
  }

  /** The body of its loop: the three kinds of errors of one field. */
  method CollectKind(kind: Kind, fullField: string, ghost path: seq<Step>, sink: Sink)
    requires fullField == Print(path)
    modifies sink
    ensures sink.violations == old(sink.violations) + Report(KindLeaves(kind, path))
    decreases kind, 0
  {
    NothingAdded(sink.violations);
    match kind
    case Field(problems) =>
      ghost var ls := KindLeaves(kind, path);
      for n := 0 to |problems|
        invariant sink.violations == old(sink.violations) + Report(ls[..n])
      {
        ProblemReported(problems, n, path, old(sink.violations));
        sink.violations := sink.violations + [Violation(fullField, problems[n])];
      }
      assert ls[..|problems|] == ls;
    case Struct(nested) =>
      CollectViolations(nested, fullField, path, sink);
    case List(items) =>
      for n := 0 to |items|
        invariant sink.violations == old(sink.violations) + Report(ItemLeaves(kind, n, path))
      {
        var (index, nested) := items[n];
        var indexed := fullField + Bracketed(index);
        PrintSnoc(path, Index(index));
        ItemReported(kind, n, path, old(sink.violations));
        CollectViolations(nested, indexed, path + [Index(index)], sink);
      }
  }

  // ---- What is reported for each field ----

  /** The problems of one field, found by walking down the tree. */
  function Lookup(e: Errors, path: seq<Step>): seq<Problem>
    decreases e, |e.fields| + 1
  {
    if path != [] && path[0].Name? then LookupField(e, |e.fields|, path) else []
  }

  function LookupField(e: Errors, n: nat, path: seq<Step>): seq<Problem>
    requires n <= |e.fields| && path != []
    decreases e, n
  {
    if n == 0 then []
    else if path[0] == Name(e.fields[n - 1].0) then LookupKind(e.fields[n - 1].1, path[1..])
    else LookupField(e, n - 1, path)
  }

  function LookupKind(k: Kind, path: seq<Step>): seq<Problem>
    decreases k, if k.List? then |k.items| + 1 else 0
  {
    match k
    case Field(problems) => if path == [] then problems else []
    case Struct(nested) => Lookup(nested, path)
    case List(items) => if path != [] && path[0].Index? then LookupItem(k, |items|, path) else []
  }

  function LookupItem(k: Kind, n: nat, path: seq<Step>): seq<Problem>
    requires k.List? && n <= |k.items| && path != []
    decreases k, n
  {
    if n == 0 then []
    else if path[0] == Index(k.items[n - 1].0) then Lookup(k.items[n - 1].1, path[1..])
    else LookupItem(k, n - 1, path)
  }

  /** Keys of maps: no node has two fields of one name, no list two entries of one index. */
  ghost predicate DistinctKeys(e: Errors)
    decreases e, 0
  {
    && (forall i, j :: 0 <= i < j < |e.fields| ==> e.fields[i].0 != e.fields[j].0)
    && forall i :: 0 <= i < |e.fields| ==> DistinctInside(e.fields[i].1)
  }

  ghost predicate DistinctInside(k: Kind)
    decreases k, 1
  {
    match k
    case Field(_) => true
    case Struct(nested) => DistinctKeys(nested)
    case List(items) =>
      && (forall i, j :: 0 <= i < j < |items| ==> items[i].0 != items[j].0)
      && forall i :: 0 <= i < |items| ==> DistinctKeys(items[i].1)
  }

  function ProblemsAt(ls: seq<Leaf>, path: seq<Step>): seq<Problem> {
    if ls == [] then []
    else
      var rest, last := ProblemsAt(ls[..|ls| - 1], path), ls[|ls| - 1];
      if last.path == path then rest + [last.problem] else rest
  }

  lemma ProblemsSnoc(ls: seq<Leaf>, last: Leaf, path: seq<Step>)
    ensures ProblemsAt(ls + [last], path) ==
            if last.path == path then ProblemsAt(ls, path) + [last.problem] else ProblemsAt(ls, path)
  {
    assert (ls + [last])[..|ls|] == ls;
  }

  lemma {:induction false} ProblemsConcat(a: seq<Leaf>, b: seq<Leaf>, path: seq<Step>)
    ensures ProblemsAt(a + b, path) == ProblemsAt(a, path) + ProblemsAt(b, path)
  {
    if b == [] {
      NothingAdded(a);
      NothingAdded(ProblemsAt(a, path));
    } else {
      var rest, last := b[..|b| - 1], b[|b| - 1];
      ProblemsConcat(a, rest, path);
      ProblemsSnoc(a + rest, last, path);
      assert b == rest + [last];
      Assoc(a, rest, [last]);
      Assoc(ProblemsAt(a, path), ProblemsAt(rest, path), [last.problem]);
    }
  }

  lemma OnlyIn(a: seq<Leaf>, b: seq<Leaf>, path: seq<Step>)
    requires ProblemsAt(a, path) == []
    ensures ProblemsAt(a + b, path) == ProblemsAt(b, path)
  {
    ProblemsConcat(a, b, path);
    NothingAdded(ProblemsAt(b, path));
  }

  lemma NotIn(a: seq<Leaf>, b: seq<Leaf>, path: seq<Step>)
    requires ProblemsAt(b, path) == []
    ensures ProblemsAt(a + b, path) == ProblemsAt(a, path)
  {
    ProblemsConcat(a, b, path);
    NothingAdded(ProblemsAt(a, path));
  }

  /** All leaves lie below `path`. */
  predicate Below(ls: seq<Leaf>, path: seq<Step>) {
    forall leaf :: leaf in ls ==> path <= leaf.path
  }

  lemma {:induction false} NothingOutside(ls: seq<Leaf>, path: seq<Step>, q: seq<Step>)
    requires Below(ls, path) && !(path <= q)
    ensures ProblemsAt(ls, q) == []
  {
    if ls != [] {
      NothingOutside(ls[..|ls| - 1], path, q);
    }
  }

  lemma OneStepBelow(base: seq<Step>, step: Step, path: seq<Step>)
    ensures base + [step] <= base + path <==> path != [] && path[0] == step
    ensures path != [] && path[0] == step ==> base + [step] + path[1..] == base + path
  {
    if base + [step] <= base + path {
      assert (base + path)[|base|] == (base + [step])[|base|];
    }
  }

  lemma {:induction false} FieldsBelow(e: Errors, n: nat, path: seq<Step>)
    requires n <= |e.fields|
    ensures Below(FieldLeaves(e, n, path), path)
    decreases e, n
  {
    if n > 0 {
      var (f, kind) := e.fields[n - 1];
      FieldsBelow(e, n - 1, path);
      KindBelow(kind, path + [Name(f)]);
    }
  }

  lemma {:induction false} KindBelow(k: Kind, path: seq<Step>)
    ensures Below(KindLeaves(k, path), path)
    decreases k, if k.List? then |k.items| + 1 else 0
  {
    match k
    case Field(_) =>
    case Struct(nested) => FieldsBelow(nested, |nested.fields|, path);
    case List(items) => ItemsBelow(k, |items|, path);
  }

  lemma {:induction false} ItemsBelow(k: Kind, n: nat, path: seq<Step>)
    requires k.List? && n <= |k.items|
    ensures Below(ItemLeaves(k, n, path), path)
    decreases k, n
  {
    if n > 0 {
      var (i, nested) := k.items[n - 1];
      ItemsBelow(k, n - 1, path);
      FieldsBelow(nested, |nested.fields|, path + [Index(i)]);
    }
  }

  lemma {:induction false} FieldsAt(e: Errors, n: nat, base: seq<Step>, path: seq<Step>, q: seq<Step>)
    requires q == base + path
    requires DistinctKeys(e) && n <= |e.fields|
    ensures ProblemsAt(FieldLeaves(e, n, base), q) ==
            if path == [] then [] else LookupField(e, n, path)
    decreases e, n, 1
  {
    if n > 0 {
      FieldsAt(e, n - 1, base, path, q);
      NotBefore(e, n - 1, path);
      FieldsStep(e, n, base, path, q);
    }
  }

  lemma FieldsStep(e: Errors, n: nat, base: seq<Step>, path: seq<Step>, q: seq<Step>)
    requires q == base + path && 0 < n <= |e.fields| && DistinctInside(e.fields[n - 1].1)
    requires ProblemsAt(FieldLeaves(e, n - 1, base), q) == if path == [] then [] else LookupField(e, n - 1, path)
    requires path != [] && path[0] == Name(e.fields[n - 1].0) ==> LookupField(e, n - 1, path) == []
    ensures ProblemsAt(FieldLeaves(e, n, base), q) == if path == [] then [] else LookupField(e, n, path)
    decreases e, n, 0
  {
    var (f, kind) := e.fields[n - 1];
    OneFieldAt(f, kind, base, path, q);
    if path != [] && path[0] == Name(f) {
      OnlyIn(FieldLeaves(e, n - 1, base), KindLeaves(kind, base + [Name(f)]), q);
    } else {
      NotIn(FieldLeaves(e, n - 1, base), KindLeaves(kind, base + [Name(f)]), q);
    }
  }

  /** One field of a node: its problems if the path goes through it, and none otherwise. */
  lemma {:induction false} OneFieldAt(f: string, kind: Kind, base: seq<Step>, path: seq<Step>, q: seq<Step>)
    requires q == base + path
    requires DistinctInside(kind)
    ensures ProblemsAt(KindLeaves(kind, base + [Name(f)]), q) ==
            if path != [] && path[0] == Name(f) then LookupKind(kind, path[1..]) else []
    decreases kind, if kind.List? then |kind.items| + 2 else 1
  {
    var below := base + [Name(f)];
    OneStepBelow(base, Name(f), path);
    if path != [] && path[0] == Name(f) {
      KindAt(kind, below, path[1..], q);
    } else {
      KindBelow(kind, below);
      NothingOutside(KindLeaves(kind, below), below, q);
    }
  }

  lemma {:induction false} NotAmongEarlier(e: Errors, n: nat, path: seq<Step>)
    requires n <= |e.fields| && path != [] && forall i :: 0 <= i < n ==> path[0] != Name(e.fields[i].0)
    ensures LookupField(e, n, path) == []
  {
    if n > 0 {
      NotAmongEarlier(e, n - 1, path);
    }
  }

  lemma NotBefore(e: Errors, n: nat, path: seq<Step>)
    requires DistinctKeys(e) && n < |e.fields|
    ensures path != [] && path[0] == Name(e.fields[n].0) ==> LookupField(e, n, path) == []
  {
    if path != [] && path[0] == Name(e.fields[n].0) {
      NotAmongEarlier(e, n, path);
    }
  }

  lemma {:induction false} KindAt(k: Kind, base: seq<Step>, path: seq<Step>, q: seq<Step>)
    requires q == base + path
    requires DistinctInside(k)
    ensures ProblemsAt(KindLeaves(k, base), q) == LookupKind(k, path)
    decreases k, if k.List? then |k.items| + 1 else 0
  {
    match k
    case Field(problems) =>
      FieldHere(problems, |problems|, base);
      assert KindLeaves(k, base)[..|problems|] == KindLeaves(k, base);
      if path == [] {
        assert q == base;
      } else {
        FieldElsewhere(problems, |problems|, base, q);
      }
    case Struct(nested) =>
      FieldsAt(nested, |nested.fields|, base, path, q);
      NoIndexAmongFields(nested, |nested.fields|, path);
    case List(items) => ItemsAt(k, |items|, base, path, q);
  }

  lemma {:induction false} NoIndexAmongFields(e: Errors, n: nat, path: seq<Step>)
    requires n <= |e.fields|
    ensures path != [] && path[0].Index? ==> LookupField(e, n, path) == []
  {
    if n > 0 {
      NoIndexAmongFields(e, n - 1, path);
    }
  }

  lemma {:induction false} FieldHere(problems: seq<Problem>, n: nat, path: seq<Step>)
    requires n <= |problems|
    ensures ProblemsAt(KindLeaves(Field(problems), path)[..n], path) == problems[..n]
  {
    if n > 0 {
      FieldHere(problems, n - 1, path);
      var ls := KindLeaves(Field(problems), path);
      assert ls[..n][..n - 1] == ls[..n - 1];
    }
  }

  lemma {:induction false} FieldElsewhere(problems: seq<Problem>, n: nat, base: seq<Step>, q: seq<Step>)
    requires n <= |problems| && q != base
    ensures ProblemsAt(KindLeaves(Field(problems), base)[..n], q) == []
  {
    if n > 0 {
      FieldElsewhere(problems, n - 1, base, q);
      var ls := KindLeaves(Field(problems), base);
      assert ls[..n][..n - 1] == ls[..n - 1];
    }
  }

  lemma {:induction false} ItemsAt(k: Kind, n: nat, base: seq<Step>, path: seq<Step>, q: seq<Step>)
    requires q == base + path
    requires k.List? && DistinctInside(k) && n <= |k.items|
    ensures ProblemsAt(ItemLeaves(k, n, base), q) ==
            if path == [] || !path[0].Index? then [] else LookupItem(k, n, path)
    decreases k, n, 1
  {
    if n > 0 {
      ItemsAt(k, n - 1, base, path, q);
      NotBeforeItem(k, n - 1, path);
      ItemsStep(k, n, base, path, q);
    }
  }

  lemma ItemsStep(k: Kind, n: nat, base: seq<Step>, path: seq<Step>, q: seq<Step>)
    requires q == base + path && k.List? && 0 < n <= |k.items| && DistinctKeys(k.items[n - 1].1)
    requires ProblemsAt(ItemLeaves(k, n - 1, base), q) ==
             if path == [] || !path[0].Index? then [] else LookupItem(k, n - 1, path)
    requires path != [] && path[0] == Index(k.items[n - 1].0) ==> LookupItem(k, n - 1, path) == []
    ensures ProblemsAt(ItemLeaves(k, n, base), q) ==
            if path == [] || !path[0].Index? then [] else LookupItem(k, n, path)
    decreases k, n, 0
  {
    var (i, nested) := k.items[n - 1];
    OneItemAt(i, nested, base, path, q);
    if path != [] && path[0] == Index(i) {
      OnlyIn(ItemLeaves(k, n - 1, base), Leaves(nested, base + [Index(i)]), q);
    } else {
      NotIn(ItemLeaves(k, n - 1, base), Leaves(nested, base + [Index(i)]), q);
    }
  }

  lemma {:induction false} OneItemAt(i: nat, nested: Errors, base: seq<Step>, path: seq<Step>, q: seq<Step>)
    requires q == base + path
    requires DistinctKeys(nested)
    ensures ProblemsAt(Leaves(nested, base + [Index(i)]), q) ==
            if path != [] && path[0] == Index(i) then Lookup(nested, path[1..]) else []
    decreases nested, |nested.fields| + 1
  {
    var below := base + [Index(i)];
    OneStepBelow(base, Index(i), path);
    if path != [] && path[0] == Index(i) {
      FieldsAt(nested, |nested.fields|, below, path[1..], q);
      NoIndexAmongFields(nested, |nested.fields|, path[1..]);
    } else {
      FieldsBelow(nested, |nested.fields|, below);
      NothingOutside(Leaves(nested, below), below, q);
    }
  }

  lemma {:induction false} NotAmongEarlierItems(k: Kind, n: nat, path: seq<Step>)
    requires k.List? && n <= |k.items| && path != [] && forall i :: 0 <= i < n ==> path[0] != Index(k.items[i].0)
    ensures LookupItem(k, n, path) == []
  {
    if n > 0 {
      NotAmongEarlierItems(k, n - 1, path);
    }
  }

  lemma NotBeforeItem(k: Kind, n: nat, path: seq<Step>)
    requires k.List? && DistinctInside(k) && n < |k.items|
    ensures path != [] && path[0] == Index(k.items[n].0) ==> LookupItem(k, n, path) == []
  {
    if path != [] && path[0] == Index(k.items[n].0) {
      NotAmongEarlierItems(k, n, path);
    }
  }

  // ---- What a client reads off the report ----

  ghost predicate CleanErrors(e: Errors)
    decreases e, 0
  {
    forall i :: 0 <= i < |e.fields| ==> CleanName(e.fields[i].0) && CleanInside(e.fields[i].1)
  }

  ghost predicate CleanInside(k: Kind)
    decreases k, 1
  {
    match k
    case Field(_) => true
    case Struct(nested) => CleanErrors(nested)
    case List(items) => forall i :: 0 <= i < |items| ==> CleanErrors(items[i].1)
  }

  predicate AllClean(ls: seq<Leaf>) {
    forall leaf :: leaf in ls ==> CleanPath(leaf.path)
  }

  lemma {:induction false} FieldsClean(e: Errors, n: nat, path: seq<Step>)
    requires CleanErrors(e) && n <= |e.fields| && (path == [] || CleanPath(path))
    ensures AllClean(FieldLeaves(e, n, path))
    decreases e, n
  {
    if n > 0 {
      var (f, kind) := e.fields[n - 1];
      FieldsClean(e, n - 1, path);
      CleanStep(path, Name(f));
      KindClean(kind, path + [Name(f)]);
    }
  }

  lemma {:induction false} KindClean(k: Kind, path: seq<Step>)
    requires CleanInside(k) && CleanPath(path)
    ensures AllClean(KindLeaves(k, path))
    decreases k, if k.List? then |k.items| + 1 else 0
  {
    match k
    case Field(_) =>
    case Struct(nested) => FieldsClean(nested, |nested.fields|, path);
    case List(items) => ItemsClean(k, |items|, path);
  }

  lemma {:induction false} ItemsClean(k: Kind, n: nat, path: seq<Step>)
    requires k.List? && CleanInside(k) && n <= |k.items| && CleanPath(path)
    ensures AllClean(ItemLeaves(k, n, path))
    decreases k, n
  {
    if n > 0 {
      var (i, nested) := k.items[n - 1];
      ItemsClean(k, n - 1, path);
      CleanStep(path, Index(i));
      FieldsClean(nested, |nested.fields|, path + [Index(i)]);
    }
  }

  /** The problems a report lists under one field string. */
  function ReportedFor(vs: seq<Violation>, field: string): seq<Problem> {
    if vs == [] then []
    else
      var rest, last := ReportedFor(vs[..|vs| - 1], field), vs[|vs| - 1];
      if last.field == field then rest + [last.problem] else rest
  }

  lemma {:induction false} PrintedPathsIdentify(ls: seq<Leaf>, path: seq<Step>)
    requires AllClean(ls) && CleanPath(path)
    ensures |Report(ls)| == |ls|
    ensures ReportedFor(Report(ls), Print(path)) == ProblemsAt(ls, path)
  {
    if ls != [] {
      var last := ls[|ls| - 1];
      PrintedPathsIdentify(ls[..|ls| - 1], path);
      assert Report(ls)[..|ls| - 1] == Report(ls[..|ls| - 1]);
      if Print(last.path) == Print(path) {
        PrintInjective(last.path, path);
      }
    }
  }

  /**
   Nothing is lost, invented or misattributed: under the printed name of any field the report lists
   exactly that field's problems, in order, whatever the iteration order of the maps.
   */
  lemma ReportIsFaithful(e: Errors, path: seq<Step>)
    requires DistinctKeys(e) && CleanErrors(e) && CleanPath(path)
    ensures |Report(Leaves(e, []))| == |Leaves(e, [])|
    ensures ReportedFor(Report(Leaves(e, [])), Print(path)) == Lookup(e, path)
  {
    FieldsClean(e, |e.fields|, []);
    PrintedPathsIdentify(Leaves(e, []), path);
    assert [] + path == path;
    FieldsAt(e, |e.fields|, [], path, path);
  }

  // ---- What unclean names do ----

  lemma TailIsPosition(path: seq<Step>)
    requires IsPosition(path) && path != []
    ensures IsPosition(path[1..])
  {
    assert forall i :: 0 <= i < |path| - 1 ==> path[1..][i] == path[i + 1];
  }

  /** The smallest tree with `problem` at `path`. */
  function Nest(path: seq<Step>, problem: Problem): Kind
    requires IsPosition(path)
  {
    if path == [] then Field([problem])
    else if path[0].Name? then Struct(Errors([(path[0].name, Nest(path[1..], problem))]))
    else List([(path[0].index, Errors([(path[1].name, Nest(path[2..], problem))]))])
  }

  lemma OneField(name: string, kind: Kind, path: seq<Step>)
    ensures Leaves(Errors([(name, kind)]), path) == KindLeaves(kind, path + [Name(name)])
  {
    var e := Errors([(name, kind)]);
    assert FieldLeaves(e, 0, path) + KindLeaves(kind, path + [Name(name)]) == KindLeaves(kind, path + [Name(name)]);
  }

  lemma OneFieldLookup(name: string, kind: Kind, path: seq<Step>)
    requires path != [] && path[0] == Name(name)
    ensures Lookup(Errors([(name, kind)]), path) == LookupKind(kind, path[1..])
  {
    var e := Errors([(name, kind)]);
    assert LookupField(e, 1, path) == LookupKind(kind, path[1..]);
  }

  lemma {:induction false} NestLeaves(path: seq<Step>, problem: Problem, base: seq<Step>)
    requires IsPosition(path)
    ensures KindLeaves(Nest(path, problem), base) == [Leaf(base + path, problem)]
    ensures DistinctInside(Nest(path, problem))
  {
    if path == [] {
      assert base + path == base;
    } else if path[0].Name? {
      var inner := Nest(path[1..], problem);
      OneField(path[0].name, inner, base);
      NestLeaves(path[1..], problem, base + [path[0]]);
      assert base + [path[0]] + path[1..] == base + path;
    } else {
      var inner := Nest(path[2..], problem);
      var k := Nest(path, problem);
      OneField(path[1].name, inner, base + [path[0]]);
      NestLeaves(path[2..], problem, base + [path[0]] + [path[1]]);
      assert base + [path[0]] + [path[1]] + path[2..] == base + path;
      assert ItemLeaves(k, 0, base) + Leaves(k.items[0].1, base + [path[0]]) == Leaves(k.items[0].1, base + [path[0]]);
    }
  }

  lemma {:induction false} NestLookup(path: seq<Step>, problem: Problem)
    requires IsPosition(path)
    ensures LookupKind(Nest(path, problem), path) == [problem]
  {
    if path != [] {
      TailIsPosition(path);
      if path[0].Name? {
        NestLookup(path[1..], problem);
        OneFieldLookup(path[0].name, Nest(path[1..], problem), path);
      } else {
        TailIsPosition(path[1..]);
        assert path[1..][1..] == path[2..];
        NestLookup(path[2..], problem);
        OneFieldLookup(path[1].name, Nest(path[2..], problem), path[1..]);
        assert LookupItem(Nest(path, problem), 1, path) == Lookup(Nest(path, problem).items[0].1, path[1..]);
      }
    }
  }

  lemma TwoFields(f: string, k1: Kind, g: string, k2: Kind)
    requires f != g && DistinctInside(k1) && DistinctInside(k2)
    ensures var e := Errors([(f, k1), (g, k2)]);
      && DistinctKeys(e)
      && Leaves(e, []) == KindLeaves(k1, [Name(f)]) + KindLeaves(k2, [Name(g)])
      && (forall p :: p != [] && p[0] == Name(f) ==> Lookup(e, p) == LookupKind(k1, p[1..]))
      && (forall p :: p != [] && p[0] == Name(g) ==> Lookup(e, p) == LookupKind(k2, p[1..]))
  {
    var e := Errors([(f, k1), (g, k2)]);
    NothingBefore(Name(f));
    NothingBefore(Name(g));
    assert FieldLeaves(e, 1, []) == FieldLeaves(e, 0, []) + KindLeaves(k1, [Name(f)]);
    NothingAdded(KindLeaves(k1, [Name(f)]));
    forall p | p != [] && p[0] == Name(f)
      ensures Lookup(e, p) == LookupKind(k1, p[1..])
    {
      assert LookupField(e, 2, p) == LookupField(e, 1, p);
    }
  }

  lemma TwoReported(p: seq<Step>, q: seq<Step>)
    requires Print(p) == Print(q)
    ensures ReportedFor(Report([Leaf(p, 0), Leaf(q, 1)]), Print(p)) == [0, 1]
  {
    var ls := [Leaf(p, 0), Leaf(q, 1)];
    assert ls[..1] == [Leaf(p, 0)] && ls[..1][..0] == [];
    assert Report(ls[..1]) == [Violation(Print(p), 0)];
    var vs := Report(ls);
    assert vs == [Violation(Print(p), 0), Violation(Print(q), 1)];
    assert vs[..1] == [Violation(Print(p), 0)] && vs[..1][..0] == [];
    assert ReportedFor(vs[..1], Print(p)) == [0];
  }

  /** Two fields below different fields of the root, with one problem each, that print alike: the report
      gives both problems to both. */
  lemma BothReported(f: string, fs: seq<Step>, g: string, gs: seq<Step>) returns (e: Errors)
    requires f != g && IsPosition(fs) && IsPosition(gs) && Print([Name(f)] + fs) == Print([Name(g)] + gs)
    ensures DistinctKeys(e) && Lookup(e, [Name(f)] + fs) == [0] && Lookup(e, [Name(g)] + gs) == [1]
    ensures ReportedFor(Report(Leaves(e, [])), Print([Name(f)] + fs)) == [0, 1]
  {
    var p, q := [Name(f)] + fs, [Name(g)] + gs;
    var k1, k2 := Nest(fs, 0), Nest(gs, 1);
    e := Errors([(f, k1), (g, k2)]);
    NestLeaves(fs, 0, [Name(f)]);
    NestLeaves(gs, 1, [Name(g)]);
    NestLookup(fs, 0);
    NestLookup(gs, 1);
    TwoFields(f, k1, g, k2);
    assert p[1..] == fs && q[1..] == gs;
    assert Leaves(e, []) == [Leaf(p, 0), Leaf(q, 1)];
    TwoReported(p, q);
  }
  // ---- Which names can mislead ----

  lemma {:induction false} LookupIsPosition(e: Errors, n: nat, path: seq<Step>)
    requires n <= |e.fields| && path != [] && LookupField(e, n, path) != []
    ensures IsPosition(path) && path[0].Name?
    decreases e, n
  {
    var (f, kind) := e.fields[n - 1];
    if path[0] == Name(f) {
      KindIsPosition(kind, path[1..]);
      PositionBelow(f, path[1..]);
      assert path == [path[0]] + path[1..];
    } else {
      LookupIsPosition(e, n - 1, path);
    }
  }

  lemma {:induction false} KindIsPosition(k: Kind, path: seq<Step>)
    requires LookupKind(k, path) != []
    ensures IsPosition(path)
    decreases k, if k.List? then |k.items| + 1 else 0
  {
    match k
    case Field(_) =>
    case Struct(nested) => LookupIsPosition(nested, |nested.fields|, path);
    case List(items) => ItemIsPosition(k, |items|, path);
  }

  lemma {:induction false} ItemIsPosition(k: Kind, n: nat, path: seq<Step>)
    requires k.List? && n <= |k.items| && path != [] && path[0].Index? && LookupItem(k, n, path) != []
    ensures IsPosition(path)
    decreases k, n
  {
    var (i, nested) := k.items[n - 1];
    if path[0] == Index(i) {
      LookupIsPosition(nested, |nested.fields|, path[1..]);
      assert forall j :: 0 < j < |path| ==> path[j] == path[1..][j - 1];
    } else {
      ItemIsPosition(k, n - 1, path);
    }
  }

  /** Two fields that print alike: what the report lists under that text is at least what both have. */
  lemma {:induction false} BothListed(ls: seq<Leaf>, p: seq<Step>, q: seq<Step>)
    requires p != q && Print(p) == Print(q)
    ensures |ReportedFor(Report(ls), Print(p))| >= |ProblemsAt(ls, p)| + |ProblemsAt(ls, q)|
  {
    if ls != [] {
      BothListed(ls[..|ls| - 1], p, q);
      assert Report(ls)[..|Report(ls)| - 1] == Report(ls[..|ls| - 1]);
    }
  }

  lemma BothGetBoth(e: Errors, p: seq<Step>, q: seq<Step>)
    requires DistinctKeys(e) && p != q && Print(p) == Print(q)
    ensures |ReportedFor(Report(Leaves(e, [])), Print(p))| >= |Lookup(e, p)| + |Lookup(e, q)|
  {
    BothListed(Leaves(e, []), p, q);
    FoundAt(e, p);
    FoundAt(e, q);
  }

  lemma FoundAt(e: Errors, path: seq<Step>)
    requires DistinctKeys(e)
    ensures ProblemsAt(Leaves(e, []), path) == Lookup(e, path)
  {
    NothingAdded(path);
    FieldsAt(e, |e.fields|, [], path, path);
    NoIndexAmongFields(e, |e.fields|, path);
  }

  /** Two fields of one tree, one at or below `f` and the other with clean names only, that print alike. */
  ghost predicate Confuses(e: Errors, f: string, before: seq<Step>, after: seq<Step>, q: seq<Step>) {
    && DistinctKeys(e) && TakenFor(f, before, after, q)
    && Lookup(e, before + [Name(f)] + after) != [] && Lookup(e, q) != []
  }

  /** The field names that can confuse a report are the names `AmbiguousField` describes. */
  lemma NameMisleadsIff(f: string)
    ensures (exists e, before, after, q :: Confuses(e, f, before, after, q)) <==> AmbiguousField(f)
  {
    if e, before, after, q :| Confuses(e, f, before, after, q) {
      LookupIsPosition(e, |e.fields|, q);
      TakenFieldIsAmbiguous(f, before, after, q);
    }
    if AmbiguousField(f) {
      var e, after, q := AmbiguousMisleads(f, "x");
    }
  }

  /** For every such name a tree in which each of two fields gets both problems. */
  lemma AmbiguousMisleads(f: string, g: string) returns (e: Errors, after: seq<Step>, q: seq<Step>)
    requires AmbiguousField(f) && CleanName(g)
    ensures Confuses(e, f, [], after, q)
    ensures Lookup(e, [Name(f)] + after) == [0] && Lookup(e, q) == [1]
    ensures ReportedFor(Report(Leaves(e, [])), Print(q)) == [0, 1]
  {
    after, q := Reading(f, g);
    NothingBefore(Name(f));
    assert q == [Name(q[0].name)] + q[1..];
    TailIsPosition(q);
    e := BothReported(f, after, q[0].name, q[1..]);
  }

  /** If other names may be unclean too, every name with a final index or a dot inside misleads. */
  lemma UncleanNameMisleads(f: string, g: string) returns (e: Errors, after: seq<Step>, q: seq<Step>)
    requires EndsInIndex(f) || (f != "" && '.' in f[1..])
    ensures DistinctKeys(e) && Lookup(e, [Name(f)] + after) == [0] && Lookup(e, q) == [1]
    ensures Print([Name(f)] + after) == Print(q) && ReportedFor(Report(Leaves(e, [])), Print(q)) == [0, 1]
  {
    after := [Name(g)];
    var x, step := TwoSteps(f);
    var rest := [step, Name(g)];
    q := [Name(x)] + rest;
    StepsPrintAlike(f, x, step, g);
    e := BothReported(f, after, x, rest);
  }

  lemma StepsPrintAlike(f: string, x: string, step: Step, g: string)
    requires x != "" && Extended(x, step) == f
    ensures Print([Name(f)] + [Name(g)]) == Print([Name(x)] + [step, Name(g)])
  {
    PrintSnoc([], Name(x));
    PrintSnoc([], Name(f));
    NothingBefore(Name(f));
    NothingBefore(Name(x));
    PrintSnoc([Name(x)], step);
    PrintSnoc([Name(f)], Name(g));
    PrintSnoc([Name(x)] + [step], Name(g));
    Assoc([Name(x)], [step], [Name(g)]);
    assert [step] + [Name(g)] == [step, Name(g)];
  }

  lemma TwoSteps(f: string) returns (x: string, step: Step)
    requires EndsInIndex(f) || (f != "" && '.' in f[1..])
    ensures x != "" && |x| < |f| && Extended(x, step) == f
  {
    if EndsInIndex(f) {
      x, step := IndexStep(f);
    } else {
      var k := LastIndex(f, '.');
      var j :| 0 <= j < |f| - 1 && f[1..][j] == '.';
      assert f[j + 1] == '.';
      x, step := f[..k], Name(f[k + 1..]);
    }
  }

  lemma IndexStep(f: string) returns (x: string, step: Step)
    requires EndsInIndex(f)
    ensures x != "" && |x| < |f| && Extended(x, step) == f
  {
    var i;
    EndsInIndexIff(f);
    x, i :| x != "" && f == x + Bracketed(i);
    step := Index(i);
    BracketedIs(i);
  }
}
