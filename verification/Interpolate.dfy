/** Expansion of `${NAME}` and `${NAME:default}` in configuration text (`interpolate`). */
module Interpolate {
  import opened Dealing

  type Env = map<string, string>

  datatype Segment = Char(c: char) | Placeholder(text: string)

  /** The first `}` at or after `j`, or the end of the text. */
  function FindClose(s: string, j: nat): (k: nat)
    requires j <= |s|
    ensures j <= k <= |s| && (k < |s| ==> s[k] == '}')
    ensures forall m :: j <= m < k ==> s[m] != '}'
    decreases |s| - j
  {
    if j == |s| || s[j] == '}' then j else FindClose(s, j + 1)
  }

  predicate OpensAt(s: string, i: nat) {
    i + 1 < |s| && s[i] == '$' && s[i + 1] == '{'
  }

  predicate ClosedAt(s: string, i: nat) {
    OpensAt(s, i) && FindClose(s, i + 2) < |s|
  }

  /** The segment that begins at `i`, and where the next one begins. */
  function SegmentAt(s: string, i: nat): Segment
    requires i < |s|
  {
    if ClosedAt(s, i) then Placeholder(s[i + 2..FindClose(s, i + 2)]) else Char(s[i])
  }

  function NextAt(s: string, i: nat): (k: nat)
    requires i < |s|
    ensures i < k <= |s|
  {
    if ClosedAt(s, i) then FindClose(s, i + 2) + 1 else i + 1
  }

  /** The text from `i` on, cut into literal characters and closed placeholders. */
  function Parse(s: string, i: nat := 0): seq<Segment>
    requires i <= |s|
    decreases |s| - i
  {
    if i == |s| then [] else [SegmentAt(s, i)] + Parse(s, NextAt(s, i))
  }

  /** Position of the first `:`, or the length. */
  function FindColon(p: string): (k: nat)
    ensures k <= |p| && (k < |p| ==> p[k] == ':') && ':' !in p[..k]
  {
    if p == "" || p[0] == ':' then 0 else 1 + FindColon(p[1..])
  }

  function NameOf(p: string): string {
    p[..FindColon(p)]
  }

  predicate HasDefault(p: string) {
    FindColon(p) < |p|
  }

  function Render(seg: Segment, env: Env): string {
    match seg
    case Char(c) => [c]
    case Placeholder(p) =>
      if NameOf(p) in env then env[NameOf(p)]
      else if HasDefault(p) then p[FindColon(p) + 1..]
      else "${" + p + "}"
  }

  function Expand(segs: seq<Segment>, env: Env): string {
    if segs == [] then "" else Render(segs[0], env) + Expand(segs[1..], env)
  }

  /** What is pushed for one closed placeholder. */
  method Substitute(placeholder: string, env: Env) returns (text: string)
    ensures text == Render(Placeholder(placeholder), env)
  {
    var pos := FindColon(placeholder);
    if pos < |placeholder| {
      var varName := placeholder[..pos];
      if varName in env {
        text := env[varName];
      } else {
        text := placeholder[pos + 1..];
      }
    } else {
      assert NameOf(placeholder) == placeholder;
      if placeholder in env {
        text := env[placeholder];
      } else {
        text := "${" + placeholder + "}";
      }
    }
  }

  /** One turn of the outer loop: what is pushed, and where the scan goes on. */
  method ReadSegment(template: string, start: nat, env: Env) returns (text: string, i: nat)
    requires start < |template|
    ensures text == Render(SegmentAt(template, start), env) && i == NextAt(template, start)
  {
    i := start;
    if template[i] == '$' && i + 1 < |template| && template[i + 1] == '{' {
      var j := i + 2;
      while j < |template| && template[j] != '}'
        invariant i + 2 <= j <= |template| && FindClose(template, i + 2) == FindClose(template, j)
      {
        j := j + 1;
      }
      if j < |template| && template[j] == '}' {
        text := Substitute(template[i + 2..j], env);
        i := j + 1;
      } else {
        text := ['$'];
        i := i + 1;
      }
    } else {
      text := [template[i]];
      i := i + 1;
    }
  }

  lemma ExpandFirst(seg: Segment, rest: seq<Segment>, env: Env)
    ensures Expand([seg] + rest, env) == Render(seg, env) + Expand(rest, env)
  {
    assert ([seg] + rest)[1..] == rest;
  }

  lemma {:induction false} ExpandConcat(ps: seq<Segment>, qs: seq<Segment>, env: Env)
    ensures Expand(ps + qs, env) == Expand(ps, env) + Expand(qs, env)
  {
    if ps == [] {
      NothingAdded(qs);
      NothingAdded(Expand(qs, env));
    } else {
      var first, rest := ps[0], ps[1..];
      assert ps == [first] + rest;
      Assoc([first], rest, qs);
      ExpandFirst(first, rest + qs, env);
      ExpandConcat(rest, qs, env);
      Assoc(Render(first, env), Expand(rest, env), Expand(qs, env));
    }
  }

  method Interpolate(template: string, env: Env) returns (result: string)
    ensures result == Expand(Parse(template), env)
  {
    result := "";
    var i := 0;
    ghost var done := [];
    while i < |template|
      invariant i <= |template|
      invariant done + Parse(template, i) == Parse(template) && result == Expand(done, env)
    {
      ghost var segment := SegmentAt(template, i);
      Assoc(done, [segment], Parse(template, NextAt(template, i)));
      var text;
      text, i := ReadSegment(template, i, env);
      ExpandConcat(done, [segment], env);
      result := result + text;
      done := done + [segment];
    }
    assert done + [] == done;
  }

  // ---- The parse and the text determine each other ----

  function Source(seg: Segment): string {
    match seg
    case Char(c) => [c]
    case Placeholder(p) => "${" + p + "}"
  }

  function Unparse(segs: seq<Segment>): string {
    if segs == [] then "" else Source(segs[0]) + Unparse(segs[1..])
  }

  lemma SourceAt(s: string, i: nat)
    requires i < |s|
    ensures Source(SegmentAt(s, i)) == s[i..NextAt(s, i)]
  {
    if ClosedAt(s, i) {
      var j := FindClose(s, i + 2);
      assert s[i..j + 1] == s[i..i + 2] + s[i + 2..j] + s[j..j + 1];
      assert s[i..i + 2] == "${" && s[j..j + 1] == "}";
    }
  }

  lemma UnparseFirst(seg: Segment, rest: seq<Segment>)
    ensures Unparse([seg] + rest) == Source(seg) + Unparse(rest)
  {
    assert ([seg] + rest)[1..] == rest;
  }

  lemma {:induction false} UnparseParse(s: string, i: nat)
    requires i <= |s|
    ensures Unparse(Parse(s, i)) == s[i..]
    decreases |s| - i
  {
    if i < |s| {
      var k := NextAt(s, i);
      UnparseParse(s, k);
      SourceAt(s, i);
      UnparseFirst(SegmentAt(s, i), Parse(s, k));
      SplitAt(s, i, k);
    }
  }

  /** The variables an expansion may look up: the names in closed placeholders. */
  function Names(segs: seq<Segment>): set<string> {
    set seg | seg in segs && seg.Placeholder? :: NameOf(seg.text)
  }

  /** Nothing outside the closed placeholders' variables matters, and values are never rescanned: the
      result is the concatenation of what each segment gives on its own. */
  lemma {:induction false} DependsOnlyOnNames(segs: seq<Segment>, env1: Env, env2: Env)
    requires forall n :: n in Names(segs) ==> (n in env1 <==> n in env2) && (n in env1 ==> env1[n] == env2[n])
    ensures Expand(segs, env1) == Expand(segs, env2)
  {
    if segs != [] {
      assert forall n :: n in Names(segs[1..]) ==> n in Names(segs);
      assert segs[0].Placeholder? ==> NameOf(segs[0].text) in Names(segs);
      DependsOnlyOnNames(segs[1..], env1, env2);
    }
  }

  /** With no variable set and no default given, the text comes back unchanged. */
  lemma {:induction false} UnsetIsIdentity(segs: seq<Segment>, env: Env)
    requires forall seg :: seg in segs && seg.Placeholder? ==> NameOf(seg.text) !in env && !HasDefault(seg.text)
    ensures Expand(segs, env) == Unparse(segs)
  {
    if segs != [] {
      UnsetIsIdentity(segs[1..], env);
      assert segs[0] in segs;
    }
  }

  /** From a point after which no `}` comes, in particular from an unclosed `${`, the text is copied as it is. */
  lemma {:induction false} NoCloseIsVerbatim(s: string, i: nat, env: Env)
    requires i <= |s| && '}' !in s[i..]
    ensures Expand(Parse(s, i), env) == s[i..]
    decreases |s| - i
  {
    if i < |s| {
      assert forall m :: i <= m < |s| ==> s[m] == s[i..][m - i];
      assert forall m :: i <= m < |s| ==> s[m] != '}';
      assert forall c :: c in s[i + 1..] ==> c in s[i..];
      NoCloseIsVerbatim(s, i + 1, env);
    }
  }

  // ---- Where a text may be split ----

  lemma {:induction false} FindCloseLeft(a: string, b: string, j: nat)
    requires j <= |a|
    ensures FindClose(a, j) < |a| ==> FindClose(a + b, j) == FindClose(a, j)
    ensures FindClose(a, j) == |a| ==> FindClose(a + b, j) == FindClose(a + b, |a|)
    decreases |a| - j
  {
    if j < |a| && a[j] != '}' {
      FindCloseLeft(a, b, j + 1);
    }
  }

  lemma {:induction false} FindCloseRight(a: string, b: string, j: nat)
    requires j <= |b|
    ensures FindClose(a + b, |a| + j) == |a| + FindClose(b, j)
    decreases |b| - j
  {
    if j < |b| && b[j] != '}' {
      FindCloseRight(a, b, j + 1);
    }
  }

  lemma RightStep(a: string, b: string, i: nat)
    requires i < |b|
    ensures SegmentAt(a + b, |a| + i) == SegmentAt(b, i) && NextAt(a + b, |a| + i) == |a| + NextAt(b, i)
  {
    assert OpensAt(a + b, |a| + i) <==> OpensAt(b, i);
    if OpensAt(b, i) {
      FindCloseRight(a, b, i + 2);
      var j := FindClose(b, i + 2);
      assert (a + b)[|a| + i + 2..|a| + j] == b[i + 2..j];
    }
  }

  lemma {:induction false} ParseRight(a: string, b: string, i: nat)
    requires i <= |b|
    ensures Parse(a + b, |a| + i) == Parse(b, i)
    decreases |b| - i
  {
    if i < |b| {
      RightStep(a, b, i);
      ParseRight(a, b, NextAt(b, i));
    }
  }

  /** At `i` the two texts together would read a placeholder that `a` alone does not have. */
  predicate StraddlesAt(a: string, b: string, i: nat)
    requires i < |a|
  {
    OpensAt(a + b, i) && FindClose(a, if i + 2 <= |a| then i + 2 else |a|) == |a| && '}' in b
  }

  predicate StraddlesFrom(a: string, b: string, i: nat)
    requires i <= |a|
    decreases |a| - i
  {
    i < |a| && (StraddlesAt(a, b, i) || StraddlesFrom(a, b, NextAt(a, i)))
  }

  lemma {:induction false} FindCloseIff(s: string, j: nat)
    requires j <= |s|
    ensures FindClose(s, j) < |s| <==> '}' in s[j..]
  {
    if FindClose(s, j) < |s| {
      assert s[j..][FindClose(s, j) - j] == '}';
    }
  }

  lemma CloseAcross(a: string, b: string, i: nat)
    requires i < |a| && OpensAt(a + b, i)
    ensures FindClose(a, if i + 2 <= |a| then i + 2 else |a|) == |a| ==>
      (FindClose(a + b, i + 2) < |a + b| <==> '}' in b)
  {
    if i + 2 <= |a| {
      FindCloseLeft(a, b, i + 2);
      FindCloseRight(a, b, 0);
      FindCloseIff(b, 0);
    } else {
      FindCloseRight(a, b, 1);
      FindCloseIff(b, 1);
      assert b == ['{'] + b[1..];
    }
  }

  lemma LeftStep(a: string, b: string, i: nat)
    requires i < |a|
    ensures !StraddlesAt(a, b, i) ==> SegmentAt(a + b, i) == SegmentAt(a, i) && NextAt(a + b, i) == NextAt(a, i)
    ensures StraddlesAt(a, b, i) ==> SegmentAt(a + b, i).Placeholder? && SegmentAt(a, i).Char?
  {
    if OpensAt(a + b, i) {
      CloseAcross(a, b, i);
      if OpensAt(a, i) && FindClose(a, i + 2) < |a| {
        FindCloseLeft(a, b, i + 2);
        assert (a + b)[i + 2..FindClose(a, i + 2)] == a[i + 2..FindClose(a, i + 2)];
      }
    }
  }

  lemma Cancel<T>(x: T, p: seq<T>, q: seq<T>, r: seq<T>)
    ensures [x] + p == [x] + q + r <==> p == q + r
  {
    if [x] + p == [x] + q + r {
      assert p == ([x] + p)[1..] == ([x] + q + r)[1..] == q + r;
    }
  }

  /** The parse of a concatenation is the concatenation of the parses exactly when no placeholder straddles
      the point where the two texts meet. */
  lemma {:induction false} ParseSplits(a: string, b: string, i: nat)
    requires i <= |a|
    ensures Parse(a + b, i) == Parse(a, i) + Parse(b) <==> !StraddlesFrom(a, b, i)
    decreases |a| - i
  {
    if i == |a| {
      ParseRight(a, b, 0);
    } else {
      LeftStep(a, b, i);
      if !StraddlesAt(a, b, i) {
        ParseSplits(a, b, NextAt(a, i));
        Cancel(SegmentAt(a, i), Parse(a + b, NextAt(a, i)), Parse(a, NextAt(a, i)), Parse(b));
      } else {
        assert Parse(a + b, i)[0] == SegmentAt(a + b, i) && (Parse(a, i) + Parse(b))[0] == SegmentAt(a, i);
      }
    }
  }

  /** So the expansion of a text may be computed part by part wherever no placeholder straddles the split. */
  lemma ExpansionSplits(a: string, b: string, env: Env)
    requires !StraddlesFrom(a, b, 0)
    ensures Expand(Parse(a + b), env) == Expand(Parse(a), env) + Expand(Parse(b), env)
  {
    ParseSplits(a, b, 0);
    ExpandConcat(Parse(a), Parse(b), env);
  }
  // ---- What one placeholder becomes ----

  lemma FirstClose(p: string)
    requires '}' !in p
    ensures var s := "${" + p + "}"; ClosedAt(s, 0) && FindClose(s, 2) == |s| - 1
  {
    var s := "${" + p + "}";
    assert forall m :: 2 <= m < |s| - 1 ==> s[m] == p[m - 2];
    FindCloseIff(s, 2);
    assert s[2..][|p|] == '}';
  }

  lemma OnePlaceholder(p: string)
    requires '}' !in p
    ensures Parse("${" + p + "}") == [Placeholder(p)]
  {
    var s := "${" + p + "}";
    FirstClose(p);
    assert s[2..|s| - 1] == p;
    assert Parse(s, |s|) == [];
  }

  lemma FirstColon(name: string, rest: string)
    requires ':' !in name
    ensures FindColon(name + rest) == |name| <==> rest == "" || rest[0] == ':'
    ensures rest == "" || rest[0] == ':' ==> NameOf(name + rest) == name
  {
    var p := name + rest;
    assert forall i :: 0 <= i < |name| ==> p[i] == name[i];
    if FindColon(p) < |name| {
      assert p[FindColon(p)] in name;
    }
    if FindColon(p) > |name| {
      assert p[..FindColon(p)][|name|] == rest[0];
    }
  }

  /** A placeholder with a default: the variable's value if it is set, and only otherwise the default, which may
      contain anything but a closing brace. */
  lemma WithDefault(name: string, def: string, env: Env)
    requires ':' !in name && '}' !in name && '}' !in def
    ensures Expand(Parse("${" + (name + ":" + def) + "}"), env) == if name in env then env[name] else def
  {
    var p := name + ":" + def;
    Assoc(name, ":", def);
    OnePlaceholder(p);
    FirstColon(name, ":" + def);
    assert p[|name| + 1..] == def;
    ExpandOne(Placeholder(p), env);
  }

  /** Without a default: the variable's value if it is set, and otherwise the placeholder as it is. */
  lemma WithoutDefault(name: string, env: Env)
    requires ':' !in name && '}' !in name
    ensures Expand(Parse("${" + name + "}"), env) == if name in env then env[name] else "${" + name + "}"
  {
    OnePlaceholder(name);
    FirstColon(name, "");
    NothingAdded(name);
    ExpandOne(Placeholder(name), env);
  }

  lemma ExpandOne(seg: Segment, env: Env)
    ensures Expand([seg], env) == Render(seg, env)
  {
    ExpandFirst(seg, [], env);
    NothingAdded([seg]);
    NothingAdded(Render(seg, env));
  }

  lemma NothingStraddlesAfter(p: string, b: string)
    requires '}' !in p
    ensures !StraddlesFrom("${" + p + "}", b, 0)
  {
    var s := "${" + p + "}";
    FirstClose(p);
    assert !StraddlesFrom(s, b, |s|);
  }

  /** In the middle of a text, a placeholder becomes what it becomes alone, and what is around it what that becomes
      alone, unless one that begins before it swallows it. */
  lemma InsideText(a: string, p: string, b: string, env: Env)
    requires '}' !in p && !StraddlesFrom(a, "${" + p + "}" + b, 0)
    ensures Expand(Parse(a + ("${" + p + "}" + b)), env) ==
      Expand(Parse(a), env) + (Expand(Parse("${" + p + "}"), env) + Expand(Parse(b), env))
  {
    ExpansionSplits(a, "${" + p + "}" + b, env);
    NothingStraddlesAfter(p, b);
    ExpansionSplits("${" + p + "}", b, env);
  }

  /** In particular after text without a dollar sign. */
  lemma {:induction false} NothingOpens(a: string, b: string, i: nat)
    requires i <= |a| && '$' !in a[i..]
    ensures !StraddlesFrom(a, b, i)
    decreases |a| - i
  {
    if i < |a| {
      assert a[i] == a[i..][0];
      assert forall c :: c in a[i + 1..] ==> c in a[i..];
      NothingOpens(a, b, i + 1);
    }
  }
}
