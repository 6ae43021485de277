/**
 The rest of `makeTeaser`: the best window of up to thirty words is chosen by a sliding sum, and its text is
 rebuilt from the body with the terms in bold.
 */
module Teaser {
  import opened Dealing
  import opened ByteLimit
  import opened WeightedWords

  const TEASER_MAX_WORDS := 30

  // ---- The best window ----

  function Sum(ws: seq<Word>): nat {
    if ws == [] then 0 else Sum(ws[..|ws| - 1]) + ws[|ws| - 1].weight
  }

  /** The weight of one window, from scratch. */
  function WindowSum(ws: seq<Word>, i: nat, size: nat): nat
    requires i + size <= |ws|
  {
    Sum(ws[i..i + size])
  }

  lemma {:induction false} SumFirst(w: Word, ws: seq<Word>)
    ensures Sum([w] + ws) == w.weight + Sum(ws)
  {
    if ws == [] {
      assert Sum([w]) == Sum([]) + w.weight;
      assert [w] + ws == [w];
    } else {
      var n := |ws| - 1;
      SumFirst(w, ws[..n]);
      assert ([w] + ws)[..n + 1] == [w] + ws[..n];
    }
  }

  /** Sliding the window by one drops its first weight and adds the next one. */
  lemma Slide(ws: seq<Word>, i: nat, size: nat)
    requires i + size < |ws|
    ensures WindowSum(ws, i + 1, size) == WindowSum(ws, i, size) - ws[i].weight + ws[i + size].weight
  {
    SumFirst(ws[i], ws[i + 1..i + 1 + size]);
    assert ws[i..i + 1 + size] == [ws[i]] + ws[i + 1..i + 1 + size];
    assert ws[i..i + 1 + size][..size] == ws[i..i + size];
  }

  method WindowWeights(weighted: seq<Word>) returns (windowSize: nat, windowWeights: seq<int>)
    ensures windowSize == if |weighted| <= TEASER_MAX_WORDS then |weighted| else TEASER_MAX_WORDS
    ensures |windowWeights| == |weighted| - windowSize + 1
    ensures forall i :: 0 <= i < |windowWeights| ==> windowWeights[i] == WindowSum(weighted, i, windowSize)
  {
    windowSize := if |weighted| < TEASER_MAX_WORDS then |weighted| else TEASER_MAX_WORDS;
    var curSum: int := 0;
    for i := 0 to windowSize
      invariant curSum == Sum(weighted[..i])
    {
      assert weighted[..i + 1][..i] == weighted[..i];
      curSum := curSum + weighted[i].weight;
    }
    windowWeights := [curSum];
    assert weighted[0..windowSize] == weighted[..windowSize];
    for i := 0 to |weighted| - windowSize
      invariant curSum == WindowSum(weighted, i, windowSize)
      invariant |windowWeights| == i + 1
      invariant forall k :: 0 <= k <= i ==> windowWeights[k] == WindowSum(weighted, k, windowSize)
    {
      Slide(weighted, i, windowSize);
      curSum := curSum - weighted[i].weight;
      curSum := curSum + weighted[i + windowSize].weight;
      windowWeights := windowWeights + [curSum];
    }
  }

  /** The last of the heaviest windows if a term was found, otherwise the first window. */
  method PickWindow(windowWeights: seq<int>, termFound: bool) returns (maxSumIndex: nat)
    requires windowWeights != []
    ensures maxSumIndex < |windowWeights|
    ensures !termFound ==> maxSumIndex == 0
    ensures termFound && (exists i :: 0 <= i < |windowWeights| && windowWeights[i] > 0) ==>
      && (forall i :: 0 <= i < |windowWeights| ==> windowWeights[i] <= windowWeights[maxSumIndex])
      && (forall i :: maxSumIndex < i < |windowWeights| ==> windowWeights[i] < windowWeights[maxSumIndex])
  {
    maxSumIndex := 0;
    if termFound {
      var maxFound := 0;
      var i := |windowWeights| - 1;
      while i >= 0
        invariant -1 <= i < |windowWeights|
        invariant maxSumIndex < |windowWeights| && 0 <= maxFound
        invariant maxFound > 0 ==> i < maxSumIndex && windowWeights[maxSumIndex] == maxFound
        invariant maxFound == 0 ==> maxSumIndex == 0
        invariant forall k :: i < k < |windowWeights| ==> windowWeights[k] <= maxFound
        invariant forall k :: i < k < |windowWeights| && maxFound > 0 && k > maxSumIndex ==> windowWeights[k] < maxFound
      {
        if windowWeights[i] > maxFound {
          maxFound := windowWeights[i];
          maxSumIndex := i;
        }
        i := i - 1;
      }
    }
  }

  // ---- The teaser's text ----

  datatype Piece = Plain(text: Text) | OpenBold | CloseBold | Ellipsis | ThreeDots

  /** `substring`, which clamps its bounds to the string. */
  function Substring(s: Text, a: nat, b: nat): Text
    requires a <= b
  {
    if b <= |s| then s[a..b] else if a <= |s| then s[a..] else []
  }

  predicate Latin1(t: Text) {
    forall u :: u in t ==> u <= 0xFF
  }

  /** Long words outside Latin-1 that are not terms are cut to twelve bytes. */
  predicate IsCut(w: Word) {
    w.weight != TERM_WEIGHT && |w.text| >= 12 && !Latin1(w.text)
  }

  /** `shown` is what the teaser shows for `w`: its text in the body, or the best twelve-byte cut of it. */
  ghost predicate Shows(body: Text, w: Word, shown: Text) {
    var whole := Substring(body, w.at, End(w));
    if IsCut(w) then exists cut: nat :: BestCut(whole, 12, cut) && shown == whole[..cut] else shown == whole
  }

  ghost predicate AllShown(body: Text, ws: seq<Word>, shown: seq<Text>) {
    && |shown| == |ws|
    && (ws == [] || (AllShown(body, ws[..|ws| - 1], shown[..|ws| - 1]) && Shows(body, ws[|ws| - 1], shown[|ws| - 1])))
  }

  /** Text skipped since the word before, then the word, in bold if it is a term. */
  function WordPieces(body: Text, from: nat, w: Word, shown: Text): seq<Piece> {
    (if from < w.at then [Plain(Substring(body, from, w.at))] else [])
    + if w.weight == TERM_WEIGHT then [OpenBold, Plain(shown), CloseBold] else [Plain(shown)]
  }

  /** The words `ws` one after the other, from the offset of the first. */
  function Pieces(body: Text, ws: seq<Word>, shown: seq<Text>): seq<Piece>
    requires |shown| == |ws|
  {
    if ws == [] then []
    else
      var n := |ws| - 1;
      Pieces(body, ws[..n], shown[..n]) + WordPieces(body, if n == 0 then ws[0].at else End(ws[n - 1]), ws[n], shown[n])
  }

  /** One turn of the rebuilding loop: what is pushed for `word`, when the text so far ends at `from`. */
  method PushWord(body: Text, word: Word, from: nat) returns (teaser: seq<Piece>, shown: Text, startIndex: nat)
    ensures Shows(body, word, shown)
    ensures teaser == WordPieces(body, from, word, shown) && startIndex == End(word)
  {
    teaser, startIndex := [], from;
    if startIndex < word.at {
      teaser := teaser + [Plain(Substring(body, startIndex, word.at))];
      startIndex := word.at;
    }
    if word.weight == TERM_WEIGHT {
      teaser := teaser + [OpenBold];
    }
    startIndex := word.at + |word.text|;
    shown := Substring(body, word.at, startIndex);
    if word.weight != TERM_WEIGHT && |word.text| >= 12 && !Latin1(word.text) {
      ghost var cut: nat;
      shown, cut := SubstringByByte(shown, 12);
    }
    teaser := teaser + [Plain(shown)];
    if word.weight == TERM_WEIGHT {
      teaser := teaser + [CloseBold];
    }
  }

  method Assemble(body: Text, weighted: seq<Word>, maxSumIndex: nat, windowSize: nat)
    returns (teaser: seq<Piece>, ghost shown: seq<Text>)
    requires 0 < windowSize && maxSumIndex + windowSize <= |weighted|
    ensures AllShown(body, weighted[maxSumIndex..maxSumIndex + windowSize], shown)
    ensures teaser == Pieces(body, weighted[maxSumIndex..maxSumIndex + windowSize], shown) + [Ellipsis]
  {
    teaser, shown := [], [];
    var startIndex := weighted[maxSumIndex].at;
    ghost var ws: seq<Word> := [];
    for i := maxSumIndex to maxSumIndex + windowSize
      invariant ws == weighted[maxSumIndex..i]
      invariant ws == [] ==> i == maxSumIndex && startIndex == weighted[i].at
      invariant ws != [] ==> startIndex == End(ws[|ws| - 1])
      invariant AllShown(body, ws, shown) && teaser == Pieces(body, ws, shown)
    {
      var pieces, text;
      pieces, text, startIndex := PushWord(body, weighted[i], startIndex);
      PiecesSnoc(body, ws, shown, weighted[i], text);
      SliceSnoc(weighted, maxSumIndex, i);
      teaser := teaser + pieces;
      ws, shown := ws + [weighted[i]], shown + [text];
    }
    teaser := teaser + [Ellipsis];
  }

  lemma PiecesSnoc(body: Text, ws: seq<Word>, shown: seq<Text>, w: Word, text: Text)
    requires AllShown(body, ws, shown) && Shows(body, w, text)
    ensures AllShown(body, ws + [w], shown + [text])
    ensures Pieces(body, ws + [w], shown + [text]) ==
      Pieces(body, ws, shown) + WordPieces(body, if ws == [] then w.at else End(ws[|ws| - 1]), w, text)
  {
    assert (ws + [w])[..|ws|] == ws && (shown + [text])[..|ws|] == shown;
  }

  /** The text of the pieces without the bold tags. */
  function Unmarked(ps: seq<Piece>): Text {
    if ps == [] then []
    else Unmarked(ps[..|ps| - 1]) + if ps[|ps| - 1].Plain? then ps[|ps| - 1].text else []
  }

  lemma {:induction false} UnmarkedConcat(ps: seq<Piece>, qs: seq<Piece>)
    ensures Unmarked(ps + qs) == Unmarked(ps) + Unmarked(qs)
  {
    if qs == [] {
      assert ps + qs == ps;
    } else {
      var n := |qs| - 1;
      assert (ps + qs)[..|ps| + n] == ps + qs[..n];
      UnmarkedConcat(ps, qs[..n]);
    }
  }

  lemma UnmarkedPlain(text: Text)
    ensures Unmarked([Plain(text)]) == text
  {
    assert [Plain(text)][..0] == [];
  }

  lemma UnmarkedBold(text: Text)
    ensures Unmarked([OpenBold, Plain(text), CloseBold]) == text
  {
    var ps := [OpenBold, Plain(text), CloseBold];
    assert ps[..2] == [OpenBold, Plain(text)] && ps[..2][..1] == [OpenBold] && [OpenBold][..0] == [];
    assert Unmarked([OpenBold]) == [];
    assert Unmarked(ps[..2]) == text;
  }

  lemma SkippedUnmarked(body: Text, from: nat, at: nat)
    requires from <= at
    ensures Unmarked(if from < at then [Plain(Substring(body, from, at))] else []) == Substring(body, from, at)
  {
    UnmarkedPlain(Substring(body, from, at));
  }

  lemma WordUnmarked(body: Text, from: nat, w: Word, shown: Text)
    requires from <= w.at
    ensures Unmarked(WordPieces(body, from, w, shown)) == Substring(body, from, w.at) + shown
  {
    SkippedUnmarked(body, from, w.at);
    UnmarkedPlain(shown);
    UnmarkedBold(shown);
    UnmarkedConcat(if from < w.at then [Plain(Substring(body, from, w.at))] else [],
                   if w.weight == TERM_WEIGHT then [OpenBold, Plain(shown), CloseBold] else [Plain(shown)]);
  }

  lemma SubstringJoins(s: Text, a: nat, b: nat, c: nat)
    requires a <= b <= c
    ensures Substring(s, a, b) + Substring(s, b, c) == Substring(s, a, c)
  {
  }

  /** If no word of the window is cut, the teaser without its tags is one contiguous stretch of the body. */
  lemma {:induction false} TeaserIsContiguous(body: Text, ws: seq<Word>, shown: seq<Text>)
    requires ws != [] && AllShown(body, ws, shown) && forall w :: w in ws ==> !IsCut(w)
    requires forall k :: 0 <= k < |ws| - 1 ==> End(ws[k]) < ws[k + 1].at
    ensures ws[0].at <= End(ws[|ws| - 1])
    ensures Unmarked(Pieces(body, ws, shown)) == Substring(body, ws[0].at, End(ws[|ws| - 1]))
  {
    var n := |ws| - 1;
    var from := if n == 0 then ws[0].at else End(ws[n - 1]);
    assert !IsCut(ws[n]) by { assert ws[n] in ws; }
    assert ws[0].at <= from && Unmarked(Pieces(body, ws[..n], shown[..n])) == Substring(body, ws[0].at, from) by {
      if n > 0 {
        TeaserIsContiguous(body, ws[..n], shown[..n]);
      }
    }
    LongerStretch(body, Pieces(body, ws[..n], shown[..n]), ws[0].at, from, ws[n], shown[n]);
  }

  lemma LongerStretch(body: Text, ps: seq<Piece>, a: nat, from: nat, w: Word, shown: Text)
    requires a <= from <= w.at && Unmarked(ps) == Substring(body, a, from) && shown == Substring(body, w.at, End(w))
    ensures Unmarked(ps + WordPieces(body, from, w, shown)) == Substring(body, a, End(w))
  {
    UnmarkedConcat(ps, WordPieces(body, from, w, shown));
    WordUnmarked(body, from, w, shown);
    SubstringJoins(body, from, w.at, End(w));
    SubstringJoins(body, a, from, End(w));
  }

  /** Cut or not, what is shown of a word is a prefix of its text in the body. */
  lemma {:induction false} ShownArePrefixes(body: Text, ws: seq<Word>, shown: seq<Text>, k: nat)
    requires AllShown(body, ws, shown) && k < |ws|
    ensures shown[k] <= Substring(body, ws[k].at, End(ws[k]))
    ensures !IsCut(ws[k]) ==> shown[k] == Substring(body, ws[k].at, End(ws[k]))
  {
    if k < |ws| - 1 {
      ShownArePrefixes(body, ws[..|ws| - 1], shown[..|ws| - 1], k);
    }
  }

  /** Each opening tag is followed by one text and its closing tag, and no other tag occurs. */
  predicate Balanced(ps: seq<Piece>) {
    var n := |ps|;
    if n == 0 then true
    else if ps[n - 1].CloseBold? then n >= 3 && ps[n - 2].Plain? && ps[n - 3].OpenBold? && Balanced(ps[..n - 3])
    else !ps[n - 1].OpenBold? && Balanced(ps[..n - 1])
  }

  lemma {:induction false} TagsAreBalanced(body: Text, ws: seq<Word>, shown: seq<Text>)
    requires |shown| == |ws|
    ensures Balanced(Pieces(body, ws, shown))
  {
    if ws != [] {
      var n := |ws| - 1;
      TagsAreBalanced(body, ws[..n], shown[..n]);
      BalancedWord(Pieces(body, ws[..n], shown[..n]), body, if n == 0 then ws[0].at else End(ws[n - 1]), ws[n],
                   shown[n]);
    }
  }

  lemma BalancedPlain(ps: seq<Piece>, text: Text)
    requires Balanced(ps)
    ensures Balanced(ps + [Plain(text)])
  {
    assert (ps + [Plain(text)])[..|ps|] == ps;
  }

  lemma BalancedBold(ps: seq<Piece>, text: Text)
    requires Balanced(ps)
    ensures Balanced(ps + [OpenBold, Plain(text), CloseBold])
  {
    assert (ps + [OpenBold, Plain(text), CloseBold])[..|ps|] == ps;
  }

  lemma BalancedWord(ps: seq<Piece>, body: Text, from: nat, w: Word, shown: Text)
    requires Balanced(ps)
    ensures Balanced(ps + WordPieces(body, from, w, shown))
  {
    var skipped := if from < w.at then [Plain(Substring(body, from, w.at))] else [];
    var word := if w.weight == TERM_WEIGHT then [OpenBold, Plain(shown), CloseBold] else [Plain(shown)];
    if from < w.at {
      BalancedPlain(ps, Substring(body, from, w.at));
    } else {
      NothingAdded(ps);
    }
    BalancedPlain(ps + skipped, shown);
    BalancedBold(ps + skipped, shown);
    Assoc(ps, skipped, word);
  }

  /** The texts in bold. */
  function Bold(ps: seq<Piece>): seq<Text> {
    if |ps| < 2 then []
    else
      var n := |ps| - 1;
      if ps[n].CloseBold? && ps[n - 1].Plain? then Bold(ps[..n - 1]) + [ps[n - 1].text] else Bold(ps[..n])
  }

  /** What is shown of the words of weight 40. */
  function Terms(ws: seq<Word>, shown: seq<Text>): seq<Text>
    requires |shown| == |ws|
  {
    if ws == [] then []
    else
      var n := |ws| - 1;
      if ws[n].weight == 40 then Terms(ws[..n], shown[..n]) + [shown[n]] else Terms(ws[..n], shown[..n])
  }

  lemma BoldPlain(ps: seq<Piece>, text: Text)
    ensures Bold(ps + [Plain(text)]) == Bold(ps)
  {
    assert (ps + [Plain(text)])[..|ps|] == ps;
  }

  lemma BoldTerm(ps: seq<Piece>, text: Text)
    ensures Bold(ps + [OpenBold, Plain(text), CloseBold]) == Bold(ps) + [text]
  {
    var whole := ps + [OpenBold, Plain(text), CloseBold];
    assert whole[..|ps| + 1] == ps + [OpenBold];
    assert (ps + [OpenBold])[..|ps|] == ps;
  }

  lemma BoldWord(ps: seq<Piece>, body: Text, from: nat, w: Word, shown: Text)
    ensures Bold(ps + WordPieces(body, from, w, shown)) == if w.weight == 40 then Bold(ps) + [shown] else Bold(ps)
  {
    var skipped := if from < w.at then [Plain(Substring(body, from, w.at))] else [];
    var word := if w.weight == TERM_WEIGHT then [OpenBold, Plain(shown), CloseBold] else [Plain(shown)];
    if from < w.at {
      BoldPlain(ps, Substring(body, from, w.at));
    } else {
      NothingAdded(ps);
    }
    BoldPlain(ps + skipped, shown);
    BoldTerm(ps + skipped, shown);
    Assoc(ps, skipped, word);
  }

  /** What is in bold are the terms of the window, all of them and nothing else, in order. */
  lemma {:induction false} BoldAreTerms(body: Text, ws: seq<Word>, shown: seq<Text>)
    requires |shown| == |ws|
    ensures Bold(Pieces(body, ws, shown)) == Terms(ws, shown)
  {
    if ws != [] {
      var n := |ws| - 1;
      BoldAreTerms(body, ws[..n], shown[..n]);
      BoldWord(Pieces(body, ws[..n], shown[..n]), body, if n == 0 then ws[0].at else End(ws[n - 1]), ws[n], shown[n]);
    }
  }

  /** A word that is no term, has twelve units or more and one of them beyond Latin-1, is shown by as much of it as
      fits twelve bytes; every other word is shown whole. */
  lemma {:induction false} LongWordsAreCut(body: Text, ws: seq<Word>, shown: seq<Text>, k: nat)
    requires AllShown(body, ws, shown) && k < |ws|
    ensures var whole := Substring(body, ws[k].at, End(ws[k]));
      if ws[k].weight != 40 && |ws[k].text| >= 12 && (exists u :: u in ws[k].text && u > 255)
      then exists cut: nat :: BestCut(whole, 12, cut) && shown[k] == whole[..cut]
      else shown[k] == whole
  {
    if k < |ws| - 1 {
      LongWordsAreCut(body, ws[..|ws| - 1], shown[..|ws| - 1], k);
    }
  }

  // ---- The whole function ----

  predicate Positive(ws: seq<Word>) {
    forall w :: w in ws ==> w.weight > 0
  }

  lemma {:induction false} WeighPositive(words: seq<Text>, at: nat, stemmed: seq<Text>, stem: Text -> Text)
    ensures Positive(Weigh(words, at, stemmed, stem))
  {
    if words != [] {
      var before, word := words[..|words| - 1], words[|words| - 1];
      var ws := Weigh(before, at, stemmed, stem);
      WeighPositive(before, at, stemmed, stem);
      assert (ws + [WordAfter(before, word, at, stemmed, stem)])[..|ws|] == ws;
    }
  }

  lemma {:induction false} WeighAllPositive(ss: seq<Text>, stemmed: seq<Text>, stem: Text -> Text)
    ensures Positive(WeighAll(ss, stemmed, stem))
  {
    if ss != [] {
      var before := ss[..|ss| - 1];
      WeighAllPositive(before, stemmed, stem);
      WeighPositive(SplitWords(ss[|ss| - 1]), Span(before, 2), stemmed, stem);
    }
  }

  lemma {:induction false} PrefixPositive(ws: seq<Word>, n: nat)
    requires Positive(ws) && 0 < n <= |ws|
    ensures Sum(ws[..n]) > 0
  {
    if n < |ws| {
      PrefixPositive(ws[..|ws| - 1], n);
      assert ws[..|ws| - 1][..n] == ws[..n];
    } else {
      assert ws[..n] == ws;
    }
  }

  /** The window of `size` words at `first` is the last one of greatest weight. */
  ghost predicate Heaviest(ws: seq<Word>, first: nat, size: nat) {
    && first + size <= |ws|
    && (forall i: nat :: i <= |ws| - size ==> WindowSum(ws, i, size) <= WindowSum(ws, first, size))
    && forall i: nat :: first < i <= |ws| - size ==> WindowSum(ws, i, size) < WindowSum(ws, first, size)
  }

  lemma LastMaximumIsHeaviest(ws: seq<Word>, windowWeights: seq<int>, first: nat, size: nat)
    requires size <= |ws| && |windowWeights| == |ws| - size + 1 && first < |windowWeights|
    requires forall i :: 0 <= i < |windowWeights| ==> windowWeights[i] == WindowSum(ws, i, size)
    requires forall i :: 0 <= i < |windowWeights| ==> windowWeights[i] <= windowWeights[first]
    requires forall i :: first < i < |windowWeights| ==> windowWeights[i] < windowWeights[first]
    ensures Heaviest(ws, first, size)
  {
    forall i: nat | i <= |ws| - size
      ensures WindowSum(ws, i, size) <= WindowSum(ws, first, size)
      ensures first < i ==> WindowSum(ws, i, size) < WindowSum(ws, first, size)
    {
      assert windowWeights[i] == WindowSum(ws, i, size);
    }
  }

  lemma FirstWindowPositive(low: Text, stemmed: seq<Text>, stem: Text -> Text, ws: seq<Word>, size: nat)
    requires ws == WeighAll(SplitSentences(low), stemmed, stem) && 0 < size <= |ws|
    ensures WindowSum(ws, 0, size) > 0
  {
    WeighAllPositive(SplitSentences(low), stemmed, stem);
    PrefixPositive(ws, size);
    assert ws[0..size] == ws[..size];
  }

  /** `low` is the body in lower case, `stemmed` the stemmed search terms. */
  method MakeTeaser(body: Text, low: Text, stemmed: seq<Text>, stem: Text -> Text)
    returns (teaser: seq<Piece>, ghost ws: seq<Word>, ghost first: nat, ghost window: seq<Word>, ghost shown: seq<Text>)
    ensures ws == WeighAll(SplitSentences(low), stemmed, stem)
    ensures ws == [] ==> teaser == if |body| > 300 then [Plain(body[..300]), ThreeDots] else [Plain(body)]
    ensures ws != [] ==>
      && |window| == (if |ws| <= 30 then |ws| else 30)
      && first + |window| <= |ws| && window == ws[first..first + |window|]
      && (if AnyTerm(ws) then Heaviest(ws, first, |window|) else first == 0)
      && AllShown(body, window, shown)
      && teaser == Pieces(body, window, shown) + [Ellipsis]
  {
    var weighted, termFound := WeighWords(low, stemmed, stem);
    ws, first, window, shown := weighted, 0, [], [];
    if weighted == [] {
      if |body| > TEASER_MAX_WORDS * 10 {
        teaser := [Plain(body[..TEASER_MAX_WORDS * 10]), ThreeDots];
      } else {
        teaser := [Plain(body)];
      }
      return;
    }
    var windowSize, windowWeights := WindowWeights(weighted);
    var maxSumIndex := PickWindow(windowWeights, termFound);
    FirstWindowPositive(low, stemmed, stem, weighted, windowSize);
    assert windowWeights[0] == WindowSum(weighted, 0, windowSize);
    first, window := maxSumIndex, weighted[maxSumIndex..maxSumIndex + windowSize];
    if termFound {
      LastMaximumIsHeaviest(weighted, windowWeights, first, windowSize);
    }
    teaser, shown := Assemble(body, weighted, maxSumIndex, windowSize);
  }

  /** Whatever window was chosen: if none of its words is cut, the teaser without its tags is one
      contiguous stretch of the body, from its first word to the end of its last. */
  lemma TeaserQuotesBody(body: Text, low: Text, stemmed: seq<Text>, stem: Text -> Text, ws: seq<Word>,
                         first: nat, window: seq<Word>, shown: seq<Text>)
    requires ws == WeighAll(SplitSentences(low), stemmed, stem)
    requires first + |window| <= |ws| && window != [] && window == ws[first..first + |window|]
    requires AllShown(body, window, shown) && forall w :: w in window ==> !IsCut(w)
    ensures window[0].at <= End(window[|window| - 1])
    ensures Unmarked(Pieces(body, window, shown)) == Substring(body, window[0].at, End(window[|window| - 1]))
  {
    WordsAreLocated(low, stemmed, stem, ws);
    forall k | 0 <= k < |window| - 1
      ensures End(window[k]) < window[k + 1].at
    {
      assert window[k] == ws[first + k] && window[k + 1] == ws[first + k + 1];
    }
    TeaserIsContiguous(body, window, shown);
  }

  // ---- In terms of the body ----

  /** Lower case, one unit at a time: the case in which offsets in the lower-cased text are offsets in the body. */
  function Lower(t: Text, lower: CodeUnit -> CodeUnit): (r: Text)
    ensures |r| == |t|
  {
    seq(|t|, i requires 0 <= i < |t| => lower(t[i]))
  }

  lemma LowerSlice(t: Text, lower: CodeUnit -> CodeUnit, a: nat, b: nat)
    requires a <= b <= |t|
    ensures Lower(t[a..b], lower) == Lower(t, lower)[a..b]
  {
  }

  /** At the offset recorded for a word, the body has that word, in some case. */
  lemma WordsAreInBody(body: Text, lower: CodeUnit -> CodeUnit, stemmed: seq<Text>, stem: Text -> Text,
                       ws: seq<Word>, k: nat)
    requires ws == WeighAll(SplitSentences(Lower(body, lower)), stemmed, stem) && k < |ws|
    ensures End(ws[k]) <= |body| && Lower(body[ws[k].at..End(ws[k])], lower) == ws[k].text
  {
    WordsAreLocated(Lower(body, lower), stemmed, stem, ws);
    LowerSlice(body, lower, ws[k].at, End(ws[k]));
  }

  /** So the teaser without its tags is the body from the first word of its window to the end of the last,
      with nothing clamped away, if no word is cut. */
  lemma TeaserIsPartOfBody(body: Text, lower: CodeUnit -> CodeUnit, stemmed: seq<Text>, stem: Text -> Text,
                           ws: seq<Word>, first: nat, window: seq<Word>, shown: seq<Text>)
    requires ws == WeighAll(SplitSentences(Lower(body, lower)), stemmed, stem)
    requires first + |window| <= |ws| && window != [] && window == ws[first..first + |window|]
    requires AllShown(body, window, shown) && forall w :: w in window ==> !IsCut(w)
    ensures window[0].at <= End(window[|window| - 1]) <= |body|
    ensures Unmarked(Pieces(body, window, shown)) == body[window[0].at..End(window[|window| - 1])]
  {
    TeaserQuotesBody(body, Lower(body, lower), stemmed, stem, ws, first, window, shown);
    LastInBody(body, lower, stemmed, stem, ws, first, window);
    SubstringInside(body, window[0].at, End(window[|window| - 1]));
  }

  lemma LastInBody(body: Text, lower: CodeUnit -> CodeUnit, stemmed: seq<Text>, stem: Text -> Text, ws: seq<Word>,
                   first: nat, window: seq<Word>)
    requires ws == WeighAll(SplitSentences(Lower(body, lower)), stemmed, stem)
    requires first + |window| <= |ws| && window != [] && window == ws[first..first + |window|]
    ensures End(window[|window| - 1]) <= |body|
  {
    WordsAreInBody(body, lower, stemmed, stem, ws, first + |window| - 1);
  }

  lemma SubstringInside(s: Text, a: nat, b: nat)
    requires a <= b <= |s|
    ensures Substring(s, a, b) == s[a..b]
  {
  }
}
