/** Printed paths of fields, such as `a.b[0].c`, how to read them back, and which names make them ambiguous. */
module Paths {
  import opened Dealing
  import opened Machine

  predicate IsDigit(c: char) {
    '0' <= c <= '9'
  }

  /** How a number is printed: digits without a leading zero. */
  predicate IsDecimal(s: string) {
    s != "" && (|s| == 1 || s[0] != '0') && forall i :: 0 <= i < |s| ==> IsDigit(s[i])
  }

  /** One step from the root to a field: a name, or the index of a list entry. */
  datatype Step = Name(name: string) | Index(index: nat)

  function Decimal(n: nat): (s: string)
    ensures s != ""
  {
    if n < 10 then [Digit(n)] else Decimal(n / 10) + [Digit(n % 10)]
  }

  function Digit(d: nat): (c: char)
    requires d < 10
    ensures '0' <= c <= '9' && c as int - '0' as int == d
  {
    ('0' as int + d) as char
  }

  function Bracketed(i: nat): string {
    "[" + Decimal(i) + "]"
  }

  /** A prefix extended by one step, as the source prints it: the first name has no dot. */
  function Extended(prefix: string, step: Step): string {
    match step
    case Name(f) => if prefix == "" then f else prefix + "." + f
    case Index(i) => prefix + Bracketed(i)
  }

  function Print(path: seq<Step>): string {
    if path == [] then "" else Extended(Print(path[..|path| - 1]), path[|path| - 1])
  }

  function Value(s: string): nat
    requires IsDecimal(s)
  {
    var digit := s[|s| - 1] as int - '0' as int;
    if |s| == 1 then digit else 10 * Value(s[..|s| - 1]) + digit
  }

  lemma {:induction false} ValueOfDecimal(n: nat)
    ensures IsDecimal(Decimal(n)) && (n > 0 ==> Decimal(n)[0] != '0')
    ensures Value(Decimal(n)) == n
  {
    if n >= 10 {
      ValueOfDecimal(n / 10);
      assert Decimal(n)[0] == Decimal(n / 10)[0];
      assert Decimal(n)[..|Decimal(n)| - 1] == Decimal(n / 10);
    }
  }

  lemma {:induction false} DecimalOfValue(s: string)
    requires IsDecimal(s)
    ensures Decimal(Value(s)) == s
    ensures s[0] != '0' ==> Value(s) > 0
  {
    var digit := s[|s| - 1] as int - '0' as int;
    assert [Digit(digit)] == s[|s| - 1..];
    if |s| > 1 {
      DecimalOfValue(s[..|s| - 1]);
      assert Value(s) / 10 == Value(s[..|s| - 1]) && Value(s) % 10 == digit;
      assert s == s[..|s| - 1] + s[|s| - 1..];
    }
  }

  // ---- Reading a path back from its printed form ----

  /** Where the last `x` is, or -1. */
  function LastIndex(s: string, x: char): (k: int)
    ensures -1 <= k < |s| && (k >= 0 ==> s[k] == x)
    ensures forall i :: k < i < |s| ==> s[i] != x
  {
    if s == "" then -1 else if s[|s| - 1] == x then |s| - 1 else LastIndex(s[..|s| - 1], x)
  }

  lemma LastIndexIs(s: string, x: char, k: int)
    requires -1 <= k < |s| && (k >= 0 ==> s[k] == x) && forall i :: k < i < |s| ==> s[i] != x
    ensures LastIndex(s, x) == k
  {
  }

  /** Ends in `[0]`, `[1]`, ..., after something else. */
  predicate EndsInIndex(s: string) {
    var k := LastIndex(s, '[');
    k > 0 && s[|s| - 1] == ']' && IsDecimal(s[k + 1..|s| - 1])
  }

  lemma BracketedIs(i: nat)
    ensures var b := Bracketed(i);
      && |b| > 2 && b[0] == '[' && b[|b| - 1] == ']' && b[1..|b| - 1] == Decimal(i) && IsDecimal(Decimal(i))
      && '.' !in b && forall m :: 0 < m < |b| ==> b[m] != '['
  {
    var b := Bracketed(i);
    ValueOfDecimal(i);
    forall m | 0 < m < |b|
      ensures b[m] != '[' && b[m] != '.'
    {
      assert m < |b| - 1 ==> b[m] == Decimal(i)[m - 1] && IsDigit(b[m]);
    }
  }

  lemma IndexPrinted(x: string, i: nat)
    ensures var s := x + Bracketed(i);
      LastIndex(s, '[') == |x| && s[|s| - 1] == ']' && s[|x| + 1..|s| - 1] == Decimal(i) && IsDecimal(Decimal(i))
  {
    var s, b := x + Bracketed(i), Bracketed(i);
    BracketedIs(i);
    assert forall m :: |x| < m < |s| ==> s[m] == b[m - |x|];
    assert s[|x| + 1..|s| - 1] == b[1..|b| - 1];
    LastIndexIs(s, '[', |x|);
  }

  lemma Enclosed(s: string, k: nat)
    requires k + 1 < |s| && s[k] == '[' && s[|s| - 1] == ']'
    ensures s == s[..k] + ("[" + s[k + 1..|s| - 1] + "]")
  {
    var b := "[" + s[k + 1..|s| - 1] + "]";
    assert |s[..k] + b| == |s|;
    forall i | 0 <= i < |s|
      ensures s[i] == (s[..k] + b)[i]
    {
      assert k < i < |s| - 1 ==> b[i - k] == s[k + 1..|s| - 1][i - k - 1];
    }
  }

  lemma BracketedValue(digits: string)
    requires IsDecimal(digits)
    ensures Bracketed(Value(digits)) == "[" + digits + "]"
  {
    DecimalOfValue(digits);
  }

  lemma IndexRead(s: string)
    requires EndsInIndex(s)
    ensures var k := LastIndex(s, '['); s == s[..k] + Bracketed(Value(s[k + 1..|s| - 1]))
  {
    var k := LastIndex(s, '[');
    Enclosed(s, k);
    BracketedValue(s[k + 1..|s| - 1]);
  }

  /** What the scan finds: a printed index after something else. */
  lemma EndsInIndexIff(s: string)
    ensures EndsInIndex(s) <==> exists x, i :: x != "" && s == x + Bracketed(i)
  {
    if EndsInIndex(s) {
      IndexRead(s);
    }
    if x, i :| x != "" && s == x + Bracketed(i) {
      IndexPrinted(x, i);
    }
  }

  /** A name that cannot be read as anything but a name. */
  predicate CleanName(s: string) {
    s != "" && '.' !in s && !EndsInIndex(s)
  }

  predicate CleanNames(path: seq<Step>) {
    forall step :: step in path && step.Name? ==> CleanName(step.name)
  }

  /** Begins with a name, and all names are clean. */
  predicate CleanPath(path: seq<Step>) {
    path != [] && path[0].Name? && CleanNames(path)
  }

  datatype Cut = Nothing | First(name: string) | After(rest: string, step: Step)

  /** What comes after the last dot, and what comes before that. */
  function LastPart(s: string): string {
    s[LastIndex(s, '.') + 1..]
  }

  function FirstPart(s: string): string {
    s[..LastIndex(s, '.') + 1]
  }

  lemma Parts(s: string)
    ensures s == FirstPart(s) + LastPart(s) && '.' !in LastPart(s)
    ensures FirstPart(s) != "" ==> FirstPart(s) == FirstPart(s)[..|FirstPart(s)| - 1] + "."
  {
  }

  /** The step that the last part is, and the path before it: an index is taken off before a name. */
  function CutParts(first: string, last: string): (r: Cut)
    ensures r.After? ==> |r.rest| < |first| + |last|
  {
    if last == "" then Nothing
    else if EndsInIndex(last) then
      var k := LastIndex(last, '[');
      After(first + last[..k], Index(Value(last[k + 1..|last| - 1])))
    else if first == "" then First(last)
    else After(first[..|first| - 1], Name(last))
  }

  /** Takes the last step off a printed path. */
  function Split(s: string): (r: Cut)
    ensures r.After? ==> |r.rest| < |s|
  {
    CutParts(FirstPart(s), LastPart(s))
  }

  /** The reader takes the text apart from its end. */
  function Decode(s: string): Option<seq<Step>>
    decreases |s|
  {
    match Split(s)
    case Nothing => None
    case First(f) => Some([Name(f)])
    case After(rest, step) =>
      match Decode(rest)
      case None => None
      case Some(path) => Some(path + [step])
  }

  lemma PrintSnoc(path: seq<Step>, step: Step)
    ensures Print(path + [step]) == Extended(Print(path), step)
  {
    assert (path + [step])[..|path|] == path;
  }

  /** What a printed path looks like: dots between names, and none before a bracket. */
  lemma PrintedForm(path: seq<Step>, step: Step)
    ensures step.Index? ==> Print(path + [step]) == Print(path) + ("[" + Decimal(step.index) + "]")
    ensures step.Name? && path == [] ==> Print(path + [step]) == step.name
    ensures step.Name? && CleanPath(path) ==> Print(path + [step]) == Print(path) + "." + step.name
  {
    PrintSnoc(path, step);
    if CleanPath(path) {
      PrintDecodes(path);
    }
  }

  lemma CleanInit(path: seq<Step>)
    requires CleanPath(path) && |path| > 1
    ensures CleanPath(path[..|path| - 1])
  {
    var init := path[..|path| - 1];
    assert init[0] == path[0];
    assert forall step :: step in init ==> step in path;
  }

  lemma CleanStep(path: seq<Step>, step: Step)
    requires path == [] || CleanPath(path)
    requires if step.Name? then CleanName(step.name) else path != []
    ensures CleanPath(path + [step])
  {
  }

  /** Reading undoes printing. */
  lemma {:induction false} PrintDecodes(path: seq<Step>)
    requires CleanPath(path)
    ensures Print(path) != "" && Decode(Print(path)) == Some(path)
  {
    var init, step := path[..|path| - 1], path[|path| - 1];
    assert path == init + [step] && step in path;
    if init != [] {
      CleanInit(path);
      PrintDecodes(init);
    }
    match step
    case Index(i) => IndexDecodes(Print(init), i);
    case Name(f) => NameDecodes(Print(init), f);
    assert init == [] ==> [] + [step] == [step];
  }

  lemma PartsAre(first: string, last: string)
    requires '.' !in last && (first == "" || first[|first| - 1] == '.')
    ensures FirstPart(first + last) == first && LastPart(first + last) == last
  {
    LastIndexIs(first + last, '.', |first| - 1);
  }

  lemma IndexCut(first: string, x: string, i: nat)
    requires x != ""
    ensures CutParts(first, x + Bracketed(i)) == After(first + x, Index(i))
  {
    var last := x + Bracketed(i);
    IndexPrinted(x, i);
    ValueOfDecimal(i);
    assert last[..|x|] == x;
  }

  lemma IndexDecodes(s: string, i: nat)
    requires Split(s) != Nothing
    ensures Split(s + Bracketed(i)) == After(s, Index(i))
  {
    var first, last := FirstPart(s), LastPart(s);
    Parts(s);
    BracketedIs(i);
    Assoc(first, last, Bracketed(i));
    PartsAre(first, last + Bracketed(i));
    IndexCut(first, last, i);
  }

  lemma NameDecodes(s: string, f: string)
    requires CleanName(f)
    ensures Split(Extended(s, Name(f))) == if s == "" then First(f) else After(s, Name(f))
  {
    if s == "" {
      PartsAre("", f);
      assert "" + f == f;
    } else {
      PartsAre(s + ".", f);
      assert (s + ".")[..|s|] == s;
    }
  }

  lemma CutIs(first: string, last: string)
    requires '.' !in last && (first == "" || first == first[..|first| - 1] + ".")
    ensures match CutParts(first, last)
      case Nothing => true
      case First(f) => f == first + last && CleanName(f)
      case After(rest, step) =>
        (rest != "" ==> Extended(rest, step) == first + last) && (step.Name? ==> CleanName(step.name))
  {
    if EndsInIndex(last) {
      var k := LastIndex(last, '[');
      var b := Bracketed(Value(last[k + 1..|last| - 1]));
      IndexRead(last);
      Assoc(first, last[..k], b);
    } else if first == "" {
      assert first + last == last;
    }
  }

  /** And printing undoes reading: only printed clean paths are read at all. */
  lemma {:induction false} DecodePrints(s: string)
    requires Decode(s).Some?
    ensures CleanPath(Decode(s).value) && Print(Decode(s).value) == s && s != ""
    decreases |s|
  {
    Parts(s);
    CutIs(FirstPart(s), LastPart(s));
    match Split(s)
    case First(f) =>
      PrintSnoc([], Name(f));
      NothingBefore(Name(f));
    case After(rest, step) =>
      DecodePrints(rest);
      PrintsBack(s, rest, step, Decode(rest).value);
  }

  lemma NothingBefore(step: Step)
    ensures [] + [step] == [step]
  {
  }

  lemma PrintsBack(s: string, rest: string, step: Step, path: seq<Step>)
    requires CleanPath(path) && Print(path) == rest && rest != ""
    requires Extended(rest, step) == s && (step.Name? ==> CleanName(step.name))
    ensures CleanPath(path + [step]) && Print(path + [step]) == s && s != ""
  {
    CleanStep(path, step);
    PrintSnoc(path, step);
  }

  /** Printed field paths identify the fields: two clean paths that print alike are the same path. */
  lemma PrintInjective(p: seq<Step>, q: seq<Step>)
    requires CleanPath(p) && CleanPath(q) && Print(p) == Print(q)
    ensures p == q
  {
    PrintDecodes(p);
    PrintDecodes(q);
  }

  // ---- Names that read as paths ----

  /** Dots only between other characters. */
  predicate WellDotted(s: string) {
    && s != "" && s[0] != '.' && s[|s| - 1] != '.'
    && forall i :: 0 <= i < |s| - 1 && s[i] == '.' ==> s[i + 1] != '.'
  }

  lemma DotsInParts(first: string, last: string)
    requires '.' !in last && last != "" && (first == "" || first[|first| - 1] == '.')
    ensures WellDotted(first + last) <==> first == "" || WellDotted(first[..|first| - 1])
  {
    var s := first + last;
    if first != "" && WellDotted(first[..|first| - 1]) {
      var init := first[..|first| - 1];
      forall i | 0 <= i < |s| - 1 && s[i] == '.'
        ensures s[i + 1] != '.'
      {
        assert i < |init| ==> init[i] == '.' && i < |init| - 1 && init[i + 1] == s[i + 1];
      }
    }
    if first != "" && WellDotted(s) {
      var init := first[..|first| - 1];
      assert forall i :: 0 <= i < |init| ==> init[i] == s[i];
      assert init != "" && s[|init|] == '.';
    }
  }

  lemma CutKeepsDots(first: string, last: string)
    requires '.' !in last && (first == "" || first[|first| - 1] == '.')
    ensures match CutParts(first, last)
      case Nothing => !WellDotted(first + last)
      case First(_) => WellDotted(first + last)
      case After(rest, _) => WellDotted(first + last) <==> WellDotted(rest)
  {
    if last != "" {
      DotsInParts(first, last);
      if EndsInIndex(last) {
        DotsInParts(first, last[..LastIndex(last, '[')]);
      }
    } else {
      assert first + last == first;
    }
  }

  lemma {:induction false} DecodesIff(s: string)
    ensures Decode(s).Some? <==> WellDotted(s)
    decreases |s|
  {
    Parts(s);
    CutKeepsDots(FirstPart(s), LastPart(s));
    if Split(s).After? {
      DecodesIff(Split(s).rest);
    }
  }

  function Decoded(s: string): seq<Step>
    requires WellDotted(s)
  {
    DecodesIff(s);
    Decode(s).value
  }

  // ---- Paths that go on below an unclean name ----

  /** What a step prints after something else. */
  function Own(step: Step): string {
    match step
    case Name(f) => "." + f
    case Index(i) => Bracketed(i)
  }

  function Rest(path: seq<Step>): string {
    if path == [] then "" else Rest(path[..|path| - 1]) + Own(path[|path| - 1])
  }

  lemma RestSnoc(path: seq<Step>, step: Step)
    ensures Rest(path + [step]) == Rest(path) + Own(step)
  {
    assert (path + [step])[..|path|] == path;
  }

  lemma {:induction false} RestSplit(step: Step, path: seq<Step>)
    ensures Rest([step] + path) == Own(step) + Rest(path)
  {
    if path == [] {
      NothingAdded([step]);
      NothingAdded(Own(step));
      RestSnoc([], step);
      assert [] + [step] == [step];
    } else {
      var init, last := path[..|path| - 1], path[|path| - 1];
      assert path == init + [last];
      RestSplit(step, init);
      RestSnoc([step] + init, last);
      Assoc([step], init, [last]);
      Assoc(Own(step), Rest(init), Own(last));
    }
  }

  lemma PrintsOwn(s: string, step: Step)
    requires s != ""
    ensures Extended(s, step) == s + Own(step)
  {
    if step.Name? {
      Assoc(s, ".", step.name);
    }
  }

  lemma PrintOn(p: seq<Step>, init: seq<Step>, step: Step)
    requires Print(p) != "" && Print(p + init) == Print(p) + Rest(init)
    ensures Print(p + (init + [step])) == Print(p) + Rest(init + [step])
  {
    PrintSnoc(p + init, step);
    PrintsOwn(Print(p + init), step);
    RestSnoc(init, step);
    Assoc(p, init, [step]);
    Assoc(Print(p), Rest(init), Own(step));
  }

  lemma {:induction false} PrintPrefix(p: seq<Step>, r: seq<Step>)
    requires Print(p) != ""
    ensures Print(p + r) == Print(p) + Rest(r)
  {
    if r == [] {
      NothingAdded(p);
      NothingAdded(Print(p));
    } else {
      PrintPrefix(p, r[..|r| - 1]);
      PrintOn(p, r[..|r| - 1], r[|r| - 1]);
      assert r == r[..|r| - 1] + [r[|r| - 1]];
    }
  }

  predicate EndsInDot(s: string) {
    |s| >= 2 && s[|s| - 1] == '.' && WellDotted(s[..|s| - 1])
  }

  /** A text without empty parts, except perhaps one after a final dot. */
  predicate ReadsOn(s: string) {
    WellDotted(s) || EndsInDot(s)
  }

  /** What stands inside a well-dotted text, at its start or after a dot. */
  lemma InfixReadsOn(a: string, f: string, t: string)
    requires WellDotted(a + f + t) && f != "" && (a == "" || a[|a| - 1] == '.')
    ensures ReadsOn(f) && (f[|f| - 1] == '.' ==> t != "" && t[0] != '.')
  {
    var s := a + f + t;
    assert forall i :: 0 <= i < |f| ==> f[i] == s[|a| + i];
    assert a != "" ==> s[|a| - 1] == '.';
    assert f[0] != '.';
    if f[|f| - 1] == '.' {
      assert s[|a| + |f| - 1] == '.';
      assert t != "" ==> s[|a| + |f|] == t[0];
      assert s[|a| + |f| - 2] == f[|f| - 2];
    }
  }

  /** Some path with `f` among clean names prints like a path of clean names alone. */
  ghost predicate TakenFor(f: string, before: seq<Step>, after: seq<Step>, q: seq<Step>) {
    && (before == [] || CleanPath(before)) && CleanNames(after) && CleanPath(q)
    && q != before + [Name(f)] + after && Print(before + [Name(f)] + after) == Print(q)
  }

  /** Empty, or with a dot or a final index and no empty part except after a final dot. */
  predicate Ambiguous(f: string) {
    f == "" || (!CleanName(f) && ReadsOn(f))
  }

  function Lead(before: seq<Step>): string {
    if before == [] then "" else Print(before) + "."
  }

  lemma PrintAround(f: string, before: seq<Step>, after: seq<Step>)
    requires f != "" && (before == [] || CleanPath(before))
    ensures Print(before + [Name(f)] + after) == Lead(before) + f + Rest(after)
  {
    PrintSnoc(before, Name(f));
    if before == [] {
      NothingAdded(f);
    } else {
      PrintDecodes(before);
    }
    PrintPrefix(before + [Name(f)], after);
  }

  lemma CleanAround(before: seq<Step>, middle: seq<Step>, after: seq<Step>)
    requires (before == [] || CleanPath(before)) && CleanPath(middle) && CleanNames(after)
    ensures CleanPath(before + middle + after)
  {
    var path := before + middle + after;
    assert path[0] == if before == [] then middle[0] else before[0];
  }

  /** A name that reads as the path `middle` can only be taken for that path. */
  lemma OnlyReading(f: string, before: seq<Step>, after: seq<Step>, q: seq<Step>, middle: seq<Step>)
    requires TakenFor(f, before, after, q) && f != "" && CleanPath(middle) && Print(middle) == f
    ensures q == before + middle + after
  {
    PrintAround(f, before, after);
    PathPrintedAs(before, middle, after, q);
  }

  lemma PathPrintedAs(before: seq<Step>, middle: seq<Step>, after: seq<Step>, q: seq<Step>)
    requires (before == [] || CleanPath(before)) && CleanPath(middle) && CleanNames(after) && CleanPath(q)
    requires Print(q) == Lead(before) + Print(middle) + Rest(after)
    ensures q == before + middle + after
  {
    CleanAround(before, middle, after);
    PrintBetween(before, middle, after);
    PrintInjective(q, before + middle + after);
  }

  lemma {:induction false} PrintBetween(before: seq<Step>, middle: seq<Step>, after: seq<Step>)
    requires (before == [] || CleanPath(before)) && CleanPath(middle)
    ensures Print(before + middle + after) == Lead(before) + Print(middle) + Rest(after)
  {
    PrintDecodes(middle);
    LeadPrint(before, middle);
    CleanAround(before, middle, []);
    NothingAdded(before + middle);
    PrintDecodes(before + middle);
    PrintPrefix(before + middle, after);
  }

  lemma {:induction false} LeadPrint(before: seq<Step>, middle: seq<Step>)
    requires (before == [] || CleanPath(before)) && CleanPath(middle)
    ensures Print(before + middle) == Lead(before) + Print(middle)
  {
    if before == [] {
      NothingAdded(middle);
      NothingAdded(Print(middle));
    } else {
      var init, step := middle[..|middle| - 1], middle[|middle| - 1];
      assert middle == init + [step];
      Assoc(before, init, [step]);
      PrintSnoc(before + init, step);
      PrintDecodes(before);
      if init == [] {
        NothingAdded(before);
      } else {
        CleanInit(middle);
        PrintDecodes(init);
        LeadPrint(before, init);
        match step
        case Name(f) =>
          Assoc(Lead(before), Print(init), ".");
          Assoc(Lead(before), Print(init) + ".", f);
        case Index(i) => Assoc(Lead(before), Print(init), Bracketed(i));
      }
    }
  }

  /** After a final dot only an index can follow. */
  lemma IndexFollowsDot(f: string, before: seq<Step>, after: seq<Step>, q: seq<Step>)
    requires TakenFor(f, before, after, q) && EndsInDot(f)
    ensures after != [] && after[0].Index?
  {
    PrintDecodes(q);
    DecodesIff(Print(q));
    PrintAround(f, before, after);
    LeadEnds(before);
    InfixReadsOn(Lead(before), f, Rest(after));
    if after != [] && after[0].Name? {
      RestBegins(after);
    }
  }

  lemma RestBegins(path: seq<Step>)
    requires path != [] && path[0].Name?
    ensures Rest(path) != "" && Rest(path)[0] == '.'
  {
    assert path == [path[0]] + path[1..];
    RestSplit(path[0], path[1..]);
  }

  /** It is taken for a name. */
  lemma DotReading(f: string, before: seq<Step>, after: seq<Step>, q: seq<Step>)
    requires TakenFor(f, before, after, q) && EndsInDot(f) && after != [] && after[0].Index?
    ensures q == before + ReadAfterDot(f, after[0].index) + after[1..]
  {
    var i := after[0].index;
    assert after == [Index(i)] + after[1..];
    PrintAround(f, before, after);
    CleanTail(after);
    DotIndex(f, i);
    TextAfterDot(Lead(before), f, i, after[1..]);
    PathPrintedAs(before, ReadAfterDot(f, i), after[1..], q);
  }

  lemma CleanTail(path: seq<Step>)
    requires CleanNames(path) && path != []
    ensures CleanNames(path[1..])
  {
    assert forall step :: step in path[1..] ==> step in path;
  }

  lemma TextAfterDot(lead: string, f: string, i: nat, rest: seq<Step>)
    ensures lead + f + Rest([Index(i)] + rest) == lead + (f + Bracketed(i)) + Rest(rest)
  {
    RestSplit(Index(i), rest);
    Assoc(lead + f, Bracketed(i), Rest(rest));
    Assoc(lead, f, Bracketed(i));
  }

  lemma LeadEnds(before: seq<Step>)
    ensures Lead(before) == "" || Lead(before)[|Lead(before)| - 1] == '.'
  {
  }

  /** A name with a final dot and the index after it: a bracketed number after a dot is a name. */
  function ReadAfterDot(f: string, i: nat): seq<Step>
    requires EndsInDot(f)
  {
    Decoded(f[..|f| - 1]) + [Name(Bracketed(i))]
  }

  lemma DotIndex(f: string, i: nat)
    requires EndsInDot(f)
    ensures CleanPath(ReadAfterDot(f, i)) && Print(ReadAfterDot(f, i)) == f + Bracketed(i)
  {
    var x := f[..|f| - 1];
    assert f == x + ".";
    BracketedIs(i);
    LastIndexIs(Bracketed(i), '[', 0);
    DecodesIff(x);
    DecodePrints(x);
    CleanStep(Decoded(x), Name(Bracketed(i)));
    PrintSnoc(Decoded(x), Name(Bracketed(i)));
  }

  // ---- Where fields can be ----

  /** No two indices in a row: the entries of a list are structures. */
  predicate Single(path: seq<Step>) {
    forall i :: 0 <= i < |path| - 1 && path[i].Index? ==> path[i + 1].Name?
  }

  /** Where a field can be: what leads to it ends in its name. */
  predicate IsPosition(path: seq<Step>) {
    Single(path) && (path != [] ==> path[|path| - 1].Name?)
  }

  /** Some part of the name ends in two indices. */
  predicate Stacked(s: string)
    decreases |s|
  {
    var cut := Split(s);
    cut.After? && (Stacked(cut.rest) || (cut.step.Index? && Split(cut.rest).After? && Split(cut.rest).step.Index?))
  }

  lemma {:induction false} StackedIff(s: string)
    requires WellDotted(s)
    ensures Stacked(s) <==> !Single(Decoded(s))
    decreases |s|
  {
    DecodesIff(s);
    match Split(s)
    case First(_) =>
    case After(rest, step) =>
      DecodesIff(rest);
      StackedIff(rest);
      SingleSnoc(Decoded(rest), step);
      LastRead(rest);
  }

  lemma LastRead(s: string)
    requires WellDotted(s)
    ensures var path := Decoded(s); path != [] && (path[|path| - 1].Index? <==> Split(s).After? && Split(s).step.Index?)
  {
    DecodesIff(s);
  }

  lemma SingleSnoc(path: seq<Step>, step: Step)
    requires path != []
    ensures Single(path + [step]) <==> Single(path) && !(path[|path| - 1].Index? && step.Index?)
  {
    var whole, n := path + [step], |path| - 1;
    assert whole[n] == path[n] && whole[n + 1] == step;
    assert forall i :: 0 <= i < |path| ==> whole[i] == path[i];
    if Single(whole) {
      forall i | 0 <= i < |path| - 1 && path[i].Index?
        ensures path[i + 1].Name?
      {
        assert whole[i] == path[i] && whole[i + 1] == path[i + 1];
      }
    }
  }

  lemma SingleInside(a: seq<Step>, m: seq<Step>, b: seq<Step>)
    requires Single(a + m + b)
    ensures Single(m)
  {
    var whole := a + m + b;
    forall i | 0 <= i < |m| - 1 && m[i].Index?
      ensures m[i + 1].Name?
    {
      assert whole[|a| + i] == m[i] && whole[|a| + i + 1] == m[i + 1];
    }
  }

  // ---- The conditions ----

  /** The same for names that can be fields of a tree. */
  predicate AmbiguousField(f: string) {
    f == "" ||
    (!CleanName(f) && ReadsOn(f) && !Stacked(if f[|f| - 1] == '.' then f[..|f| - 1] else f))
  }

  /** `q` is what `f` is taken for when `after` follows it, and if `f` can be a field then both are fields. */
  ghost predicate TakenBelow(f: string, after: seq<Step>, q: seq<Step>) {
    && TakenFor(f, [], after, q) && q[0].name != f
    && (AmbiguousField(f) ==> IsPosition(after) && IsPosition(q))
  }

  /** What an ambiguous name is taken for when a field `g` goes on below it. */
  lemma Reading(f: string, g: string) returns (after: seq<Step>, q: seq<Step>)
    requires Ambiguous(f) && CleanName(g)
    ensures TakenBelow(f, after, q)
  {
    if f == "" {
      after, q := EmptyReading(g);
    } else if f[|f| - 1] == '.' {
      after, q := ReadingAfterDot(f, g);
    } else {
      after, q := ReadingAsPath(f, g);
    }
  }

  lemma EmptyReading(g: string) returns (after: seq<Step>, q: seq<Step>)
    requires CleanName(g)
    ensures TakenBelow("", after, q)
  {
    after, q := [Name(g)], [Name(g)];
    PrintSnoc([], Name(""));
    NothingBefore(Name(""));
    PrintSnoc([Name("")], Name(g));
    PrintSnoc([], Name(g));
    NothingBefore(Name(g));
  }

  lemma ReadingAfterDot(f: string, g: string) returns (after: seq<Step>, q: seq<Step>)
    requires Ambiguous(f) && f != "" && f[|f| - 1] == '.' && CleanName(g)
    ensures TakenBelow(f, after, q)
  {
    DotReads(f);
    after, q := ReadingGoesOn(f, [Index(0)], ReadAfterDot(f, 0), g);
  }

  lemma ReadingAsPath(f: string, g: string) returns (after: seq<Step>, q: seq<Step>)
    requires Ambiguous(f) && f != "" && f[|f| - 1] != '.' && CleanName(g)
    ensures TakenBelow(f, after, q)
  {
    PlainReads(f);
    NothingAdded([] + [Name(f)]);
    after, q := ReadingGoesOn(f, [], Decoded(f), g);
  }

  lemma PlainReads(f: string)
    requires WellDotted(f)
    ensures CleanPath(Decoded(f)) && Print([] + [Name(f)]) == Print(Decoded(f))
    ensures Single(Decoded(f)) <==> !Stacked(f)
  {
    DecodesIff(f);
    DecodePrints(f);
    StackedIff(f);
    PrintSnoc([], Name(f));
  }

  lemma DotReads(f: string)
    requires EndsInDot(f)
    ensures CleanPath(ReadAfterDot(f, 0)) && Print([] + [Name(f)] + [Index(0)]) == Print(ReadAfterDot(f, 0))
    ensures Single(ReadAfterDot(f, 0)) <==> !Stacked(f[..|f| - 1])
  {
    var x := f[..|f| - 1];
    DotIndex(f, 0);
    PlainReads(x);
    SingleSnoc(Decoded(x), Name(Bracketed(0)));
    PrintSnoc([], Name(f));
    PrintSnoc([] + [Name(f)], Index(0));
  }

  lemma ReadingGoesOn(f: string, start: seq<Step>, middle: seq<Step>, g: string)
    returns (after: seq<Step>, q: seq<Step>)
    requires !CleanName(f) && f != "" && CleanPath(middle) && |start| <= 1 && CleanNames(start) && CleanName(g)
    requires Print([] + [Name(f)] + start) == Print(middle)
    ensures TakenFor(f, [], after, q) && q[0].name != f
    ensures Single(middle) ==> IsPosition(after) && IsPosition(q)
  {
    after, q := start + [Name(g)], middle + [Name(g)];
    CleanStep(middle, Name(g));
    PrintSnoc(middle, Name(g));
    PrintSnoc([] + [Name(f)] + start, Name(g));
    Assoc([] + [Name(f)], start, [Name(g)]);
    SingleSnoc(middle, Name(g));
    NotAmong(f, q, after);
  }

  lemma NotAmong(f: string, q: seq<Step>, after: seq<Step>)
    requires !CleanName(f) && CleanPath(q)
    ensures q != [] + [Name(f)] + after && q[0].name != f
  {
    assert q[0] in q;
  }

  /** A field name `f` can stand, among clean names, in a path that prints like a path of clean names alone
      exactly when it is empty, or it has a dot or a final index and no empty part except after a final dot. */
  lemma NameCollidesIff(f: string)
    ensures (exists before, after, q :: TakenFor(f, before, after, q)) <==> Ambiguous(f)
  {
    if before, after, q :| TakenFor(f, before, after, q) {
      TakenIsAmbiguous(f, before, after, q);
    }
    if Ambiguous(f) {
      var after, q := Reading(f, "x");
    }
  }

  lemma TakenIsAmbiguous(f: string, before: seq<Step>, after: seq<Step>, q: seq<Step>)
    requires TakenFor(f, before, after, q)
    ensures Ambiguous(f)
  {
    if f != "" {
      if CleanName(f) {
        PrintSnoc([], Name(f));
        assert [] + [Name(f)] == [Name(f)];
        OnlyReading(f, before, after, q, [Name(f)]);
      }
      PrintDecodes(q);
      DecodesIff(Print(q));
      PrintAround(f, before, after);
      LeadEnds(before);
      InfixReadsOn(Lead(before), f, Rest(after));
    }
  }

  /** If both paths are to lead to fields of an error tree, no part of the name may end in two indices. */
  lemma FieldCollidesIff(f: string)
    ensures (exists before, after, q ::
               TakenFor(f, before, after, q) && IsPosition(before + [Name(f)] + after) && IsPosition(q))
       <==> AmbiguousField(f)
  {
    if before, after, q :| TakenFor(f, before, after, q) && IsPosition(before + [Name(f)] + after) && IsPosition(q) {
      TakenFieldIsAmbiguous(f, before, after, q);
    }
    if AmbiguousField(f) {
      var after, q := Reading(f, "x");
      PositionBelow(f, after);
      assert [] + [Name(f)] == [Name(f)];
    }
  }

  lemma PositionBelow(f: string, after: seq<Step>)
    requires IsPosition(after)
    ensures IsPosition([Name(f)] + after)
  {
    var path := [Name(f)] + after;
    assert forall i :: 0 < i < |path| ==> path[i] == after[i - 1];
  }

  lemma TakenFieldIsAmbiguous(f: string, before: seq<Step>, after: seq<Step>, q: seq<Step>)
    requires TakenFor(f, before, after, q) && IsPosition(q)
    ensures AmbiguousField(f)
  {
    TakenIsAmbiguous(f, before, after, q);
    if f != "" {
      if f[|f| - 1] == '.' {
        NotStackedBeforeDot(f, before, after, q);
      } else {
        NotStacked(f, before, after, q);
      }
    }
  }

  lemma NotStackedBeforeDot(f: string, before: seq<Step>, after: seq<Step>, q: seq<Step>)
    requires TakenFor(f, before, after, q) && IsPosition(q) && EndsInDot(f)
    ensures !Stacked(f[..|f| - 1])
  {
    IndexFollowsDot(f, before, after, q);
    DotReading(f, before, after, q);
    var i := after[0].index;
    SingleInside(before, ReadAfterDot(f, i), after[1..]);
    PlainReads(f[..|f| - 1]);
    SingleSnoc(Decoded(f[..|f| - 1]), Name(Bracketed(i)));
  }

  lemma NotStacked(f: string, before: seq<Step>, after: seq<Step>, q: seq<Step>)
    requires TakenFor(f, before, after, q) && IsPosition(q) && WellDotted(f)
    ensures !Stacked(f)
  {
    PlainReads(f);
    DecodesIff(f);
    DecodePrints(f);
    OnlyReading(f, before, after, q, Decoded(f));
    SingleInside(before, Decoded(f), after);
  }
}
