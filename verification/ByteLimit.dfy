/**
 `substringByByte`: cut a UTF-16 string to a byte budget without breaking surrogate pairs or the
 sequences that a zero-width joiner (ZWJ) glues to an astral character.
 */
module ByteLimit {

  type CodeUnit = n: int | 0 <= n < 0x10000

  type Text = seq<CodeUnit>

  const ZWJ: CodeUnit := 0x200D

  // ---- Code points ----

  predicate IsHigh(u: CodeUnit) { 0xD800 <= u < 0xDC00 }

  predicate IsLow(u: CodeUnit) { 0xDC00 <= u < 0xE000 }

  predicate PairAt(s: Text, i: int) {
    0 <= i && i + 1 < |s| && IsHigh(s[i]) && IsLow(s[i + 1])
  }

  function CodePointAt(s: Text, i: nat): (c: nat)
    requires i < |s|
    ensures c >= 0x10000 <==> PairAt(s, i)
    ensures c < 0x110000
  {
    if PairAt(s, i) then 0x10000 + (s[i] as int - 0xD800) * 0x400 + (s[i + 1] as int - 0xDC00) else s[i]
  }

  /** Lengths of a number written in hexadecimal and in binary. */
  function HexLength(n: nat): nat {
    if n < 16 then 1 else 1 + HexLength(n / 16)
  }

  function BinaryLength(n: nat): nat {
    if n < 2 then 1 else 1 + BinaryLength(n / 2)
  }

  /** `getByteByHex`: the binary length in whole bytes. */
  function ByteCost(code: nat): nat {
    (BinaryLength(code) + 7) / 8
  }

  function Pow2(k: nat): nat {
    if k == 0 then 1 else 2 * Pow2(k - 1)
  }

  lemma {:induction false} BinaryLengthIff(n: nat, k: nat)
    requires k >= 1
    ensures BinaryLength(n) <= k <==> n < Pow2(k)
    ensures Pow2(k) >= 2
  {
    if k > 1 {
      BinaryLengthIff(n / 2, k - 1);
    }
  }

  lemma HexLengthIff(n: nat)
    ensures HexLength(n) > 4 <==> n >= 0x10000
  {
    var a := n / 16;
    var b := a / 16;
    var c := b / 16;
    assert HexLength(c) > 1 <==> c >= 16;
    assert HexLength(b) > 2 <==> b >= 256;
    assert HexLength(a) > 3 <==> a >= 4096;
  }

  /** The cost is one byte below 256, two below 65536 and three above. */
  lemma CostBands(code: nat)
    requires code < 0x110000
    ensures ByteCost(code) == if code < 0x100 then 1 else if code < 0x10000 then 2 else 3
  {
    PowersOfTwo();
    BinaryLengthIff(code, 8);
    BinaryLengthIff(code, 16);
    BinaryLengthIff(code, 24);
  }

  lemma PowersOfTwo()
    ensures Pow2(8) == 0x100 && Pow2(16) == 0x10000 && Pow2(24) == 0x1000000
  {
    assert Pow2(4) == 16;
    assert Pow2(8) == 0x100;
    assert Pow2(12) == 0x1000;
    assert Pow2(16) == 0x10000;
    assert Pow2(20) == 0x100000;
  }

  // ---- Where the string may be cut ----

  /** Not between the two halves of a surrogate pair. */
  predicate Boundary(s: Text, p: nat) {
    p <= |s| && !PairAt(s, p - 1)
  }

  /** Where the code point that ends at `p` begins. */
  function Previous(s: Text, p: nat): (q: nat)
    requires 0 < p && Boundary(s, p)
    ensures q < p && Boundary(s, q) && (q == p - 1 || (q == p - 2 && PairAt(s, q)))
  {
    if PairAt(s, p - 2) then p - 2 else p - 1
  }

  /** Cost of the code points before `p`. */
  function CostTo(s: Text, p: nat): nat
    requires Boundary(s, p)
  {
    if p == 0 then 0 else CostTo(s, Previous(s, p)) + ByteCost(CodePointAt(s, Previous(s, p)))
  }

  /** The joiner flag after the code point that ends at `p`: only astral code points change it. */
  predicate Joined(s: Text, p: nat)
    requires Boundary(s, p)
  {
    if p == 0 then false
    else if PairAt(s, p - 2) && p < |s| then s[p] == ZWJ
    else Joined(s, Previous(s, p))
  }

  ghost predicate CutPoint(s: Text, p: nat) {
    Boundary(s, p) && (p == 0 || p == |s| || !Joined(s, p))
  }

  /** A cut never separates an astral character from the joiner after it. */
  lemma CutKeepsJoiners(s: Text, p: nat)
    requires CutPoint(s, p) && 0 < p < |s| && PairAt(s, p - 2)
    ensures s[p] != 0x200D
  {
  }

  /** `i` is where the last astral character before `p` begins, if the text goes on after it. */
  ghost predicate LastAstral(s: Text, p: nat, i: nat) {
    && PairAt(s, i) && i + 2 <= p && i + 2 < |s|
    && forall j :: i < j && j + 2 <= p && j + 2 < |s| ==> !PairAt(s, j)
  }

  /** What the flag means: the last astral character is followed by a joiner, however long ago that was. */
  lemma {:induction false} JoinedIff(s: Text, p: nat)
    requires Boundary(s, p)
    ensures Joined(s, p) <==> exists i: nat :: LastAstral(s, p, i) && s[i + 2] == 0x200D
  {
    if p != 0 {
      if PairAt(s, p - 2) && p < |s| {
        assert LastAstral(s, p, p - 2);
        assert forall i: nat :: LastAstral(s, p, i) ==> i == p - 2;
      } else {
        JoinedIff(s, Previous(s, p));
        SameLastAstral(s, p);
      }
    }
  }

  lemma SameLastAstral(s: Text, p: nat)
    requires 0 < p && Boundary(s, p) && !(PairAt(s, p - 2) && p < |s|)
    ensures forall i: nat :: LastAstral(s, p, i) <==> LastAstral(s, Previous(s, p), i)
  {
    var q := Previous(s, p);
    forall i: nat
      ensures LastAstral(s, p, i) <==> LastAstral(s, q, i)
    {
      if LastAstral(s, p, i) {
        assert i + 2 != p;
        assert i + 2 <= q;
      }
      if LastAstral(s, q, i) {
        forall j | i < j && j + 2 <= p && j + 2 < |s|
          ensures !PairAt(s, j)
        {
          assert j + 2 <= q || j + 2 == p || (q == p - 2 && j + 2 == p - 1);
        }
      }
    }
  }

  /** A text costs what its code points cost: one, two or three each. */
  lemma CostOfEach(s: Text, i: nat)
    requires i < |s| && Boundary(s, i)
    ensures CostTo(s, 0) == 0
    ensures CostTo(s, EndOf(s, i)) == CostTo(s, i) + if PairAt(s, i) then 3 else if s[i] < 0x100 then 1 else 2
  {
    CostBands(CodePointAt(s, i));
  }

  lemma {:induction false} CostGrows(s: Text, p: nat, q: nat)
    requires Boundary(s, p) && Boundary(s, q) && p < q
    ensures CostTo(s, p) < CostTo(s, q)
  {
    var r := Previous(s, q);
    CostBands(CodePointAt(s, r));
    if p < r {
      CostGrows(s, p, r);
    }
  }

  /** Without a joiner after an astral character, every boundary is a cut point. */
  lemma {:induction false} NothingJoined(s: Text, p: nat)
    requires Boundary(s, p)
    requires forall i :: PairAt(s, i) && i + 2 < |s| ==> s[i + 2] != 0x200D
    ensures !Joined(s, p)
  {
    if p != 0 {
      NothingJoined(s, Previous(s, p));
    }
  }

  /** The result is the longest cut of `s` that fits; nothing fits a negative budget. */
  ghost predicate BestCut(s: Text, max: int, cut: nat) {
    && CutPoint(s, cut)
    && (cut == 0 || CostTo(s, cut) <= max)
    && forall q :: cut < q && CutPoint(s, q) ==> CostTo(s, q) > max
  }

  /** The code point that begins at boundary `i` ends at the next boundary. */
  function EndOf(s: Text, i: nat): (end: nat)
    requires i < |s| && Boundary(s, i)
    ensures i < end <= |s| && Boundary(s, end) && Previous(s, end) == i
    ensures end == if PairAt(s, i) then i + 2 else i + 1
    ensures CostTo(s, end) == CostTo(s, i) + ByteCost(CodePointAt(s, i))
    ensures Joined(s, end) == if PairAt(s, i) && i + 2 < |s| then s[i + 2] == ZWJ else Joined(s, i)
    ensures forall q :: i < q < end ==> !Boundary(s, q)
  {
    if PairAt(s, i) then i + 2 else i + 1
  }

  lemma TakeMore(s: Text, a: nat, b: nat)
    requires a <= b <= |s|
    ensures s[..a] + s[a..b] == s[..b]
    ensures b == a + 1 ==> s[..a] + [s[a]] == s[..b]
    ensures b == a + 2 ==> s[..a] + [s[a]] + [s[a + 1]] == s[..b]
  {
  }

  ghost predicate NoCutIn(s: Text, a: nat, b: nat) {
    forall q: nat {:trigger CutPoint(s, q)} :: a < q <= b ==> !CutPoint(s, q)
  }

  /** Once the next cut point is too expensive, so are all later ones. */
  lemma NoLaterCutFits(s: Text, max: int, cut: nat, end: nat)
    requires Boundary(s, end) && CostTo(s, end) > max
    requires 0 < end && NoCutIn(s, cut, end - 1)
    ensures forall q :: cut < q && CutPoint(s, q) ==> CostTo(s, q) > max
  {
    forall q | cut < q && CutPoint(s, q)
      ensures CostTo(s, q) > max
    {
      if q != end {
        CostGrows(s, end, q);
      }
    }
  }

  /** The loop's variables: `result` is the text before `length2`, which costs `length`; the text from there
      to the next code point is pending and costs `len`. */
  datatype Scan = Scan(flag: bool, len: int, length: int, length2: nat, result: Text)

  ghost predicate ScanOk(s: Text, max: int, i: nat, scan: Scan) {
    match scan
    case Scan(flag, len, length, length2, result) =>
      && Boundary(s, i) && flag == Joined(s, i)
      && length2 <= i && CutPoint(s, length2) && result == s[..length2]
      && length == CostTo(s, length2) && length + len == CostTo(s, i)
      && (length2 == 0 || length <= max)
      && 0 <= len && (len == 0 <==> length2 == i)
      && NoCutIn(s, length2, i)
  }

  // ---- What one code point does to the scan ----

  /** Cost of the accepted text, the pending text, and the code point at `i`. */
  function Total(s: Text, i: nat, scan: Scan): int
    requires i < |s|
  {
    scan.length + scan.len + ByteCost(CodePointAt(s, i))
  }

  ghost predicate MayRead(s: Text, max: int, i: nat, scan: Scan, end: nat) {
    i < |s| && ScanOk(s, max, i, scan) && end == EndOf(s, i)
  }

  lemma StaysPending(s: Text, max: int, i: nat, scan: Scan, end: nat) returns (next: Scan)
    requires MayRead(s, max, i, scan, end) && Joined(s, end) && end < |s|
    ensures next == scan.(flag := true, len := scan.len + ByteCost(CodePointAt(s, i))) && ScanOk(s, max, end, next)
  {
    next := scan.(flag := true, len := scan.len + ByteCost(CodePointAt(s, i)));
    CostBands(CodePointAt(s, i));
  }

  lemma IsAccepted(s: Text, max: int, i: nat, scan: Scan, end: nat) returns (next: Scan)
    requires MayRead(s, max, i, scan, end) && !Joined(s, end) && Total(s, i, scan) <= max
    ensures next == Scan(false, 0, Total(s, i, scan), end, scan.result + s[scan.length2..end])
    ensures ScanOk(s, max, end, next)
  {
    next := Scan(false, 0, Total(s, i, scan), end, scan.result + s[scan.length2..end]);
    TakeMore(s, scan.length2, end);
  }

  lemma EndsAccepted(s: Text, max: int, i: nat, scan: Scan, end: nat)
    requires MayRead(s, max, i, scan, end) && end == |s| && Total(s, i, scan) <= max
    ensures BestCut(s, max, |s|) && scan.result + s[scan.length2..end] == s[..|s|]
  {
    TakeMore(s, scan.length2, end);
  }

  lemma EndsRejected(s: Text, max: int, i: nat, scan: Scan, end: nat)
    requires MayRead(s, max, i, scan, end) && (!Joined(s, end) || end == |s|) && Total(s, i, scan) > max
    ensures BestCut(s, max, scan.length2) && scan.result == s[..scan.length2]
  {
    NoLaterCutFits(s, max, scan.length2, end);
  }

  /** The top of the loop: the code point at `start`, the index of its last unit, and the joiner flag after it. */
  method ReadCodePoint(s: Text, start: nat, joined: bool) returns (code: nat, i: nat, flag: bool)
    requires start < |s| && Boundary(s, start) && joined == Joined(s, start)
    ensures code == CodePointAt(s, start) && i + 1 == EndOf(s, start) && flag == Joined(s, i + 1)
  {
    i, flag := start, joined;
    code := CodePointAt(s, i);
    ghost var end := EndOf(s, i);
    HexLengthIff(code);
    if HexLength(code) > 4 {
      i := i + 1;
      if i + 1 < |s| {
        flag := CodePointAt(s, i + 1) == 0x200D;
      }
    }
  }

  /** What is appended for a code point that stands alone. */
  method UnitsOf(s: Text, ghost start: nat, i: nat, code: nat) returns (text: Text)
    requires start < |s| && Boundary(s, start) && code == CodePointAt(s, start) && i + 1 == EndOf(s, start)
    ensures text == s[start..i + 1]
  {
    HexLengthIff(code);
    if HexLength(code) <= 4 {
      text := [s[i]];
    } else {
      text := [s[i - 1]] + [s[i]];
    }
  }

  method SubstringByByte(s: Text, maxLength: int) returns (result: Text, ghost cut: nat)
    ensures BestCut(s, maxLength, cut) && result == s[..cut]
  {
    result := [];
    var flag, len, length := false, 0, 0;
    var length2: nat, i: nat := 0, 0;
    while i < |s|
      invariant i <= |s| && ScanOk(s, maxLength, i, Scan(flag, len, length, length2, result))
    {
      ghost var start, scan := i, Scan(flag, len, length, length2, result);
      ghost var next: Scan;
      var code;
      code, i, flag := ReadCodePoint(s, i, flag);
      if flag {
        len := len + ByteCost(code);
        if i == |s| - 1 {
          length := length + len;
          if length <= maxLength {
            EndsAccepted(s, maxLength, start, scan, i + 1);
            result := result + s[length2..i + 1];
            return result, |s|;
          } else {
            EndsRejected(s, maxLength, start, scan, i + 1);
            return result, length2;
          }
        }
        next := StaysPending(s, maxLength, start, scan, i + 1);
      } else {
        if len != 0 {
          length := length + len;
          length := length + ByteCost(code);
          if length <= maxLength {
            next := IsAccepted(s, maxLength, start, scan, i + 1);
            result := result + s[length2..i + 1];
            length2 := i + 1;
          } else {
            EndsRejected(s, maxLength, start, scan, i + 1);
            return result, length2;
          }
          len := 0;
          i := i + 1;
          assert Scan(flag, len, length, length2, result) == next;
          continue;
        }
        length := length + ByteCost(code);
        if length <= maxLength {
          next := IsAccepted(s, maxLength, start, scan, i + 1);
          var text := UnitsOf(s, start, i, code);
          result := result + text;
          length2 := i + 1;
        } else {
          EndsRejected(s, maxLength, start, scan, i + 1);
          return result, length2;
        }
      }
      i := i + 1;
      assert Scan(flag, len, length, length2, result) == next;
    }
    WholeText(s, maxLength, Scan(flag, len, length, length2, result));
    return result, length2;
  }

  lemma WholeText(s: Text, max: int, scan: Scan)
    requires ScanOk(s, max, |s|, scan)
    ensures BestCut(s, max, scan.length2) && scan.result == s[..scan.length2]
  {
    assert CutPoint(s, |s|);
  }

  /** So for text in which no joiner follows an astral character, the result is the longest prefix of whole
      code points that fits. */
  lemma LongestWholePrefix(s: Text, max: int, cut: nat, q: nat)
    requires BestCut(s, max, cut)
    requires forall i :: PairAt(s, i) && i + 2 < |s| ==> s[i + 2] != 0x200D
    requires Boundary(s, q) && (q == 0 || CostTo(s, q) <= max)
    ensures q <= cut
  {
    NothingJoined(s, q);
    assert CutPoint(s, q);
  }
}
