/**
 The first part of `makeTeaser`, the search page's excerpt: the text is split into sentences and words,
 and every word is given a weight and its offset in the text.
 */
module WeightedWords {
  import opened Dealing
  import opened ByteLimit

  const TERM_WEIGHT := 40
  const NORMAL_WORD_WEIGHT := 2
  const FIRST_WORD_WEIGHT := 8

  datatype Word = Word(text: Text, weight: nat, at: nat)

  // ---- Splitting ----

  /** `\s` in a regular expression. */
  predicate IsSpace(u: CodeUnit) {
    9 <= u <= 13 || u == 32 || u == 0xA0 || u == 0x1680 || 0x2000 <= u <= 0x200A
    || u == 0x2028 || u == 0x2029 || u == 0x202F || u == 0x205F || u == 0x3000 || u == 0xFEFF
  }

  /** `split(". ")` on what is left after the `n` units already looked at. */
  function SplitSentences(t: Text, n: nat := 0): (ss: seq<Text>)
    requires n <= |t|
    ensures ss != []
    decreases |t|, |t| - n
  {
    if n + 1 >= |t| then [t]
    else if t[n] == 46 && t[n + 1] == 32 then [t[..n]] + SplitSentences(t[n + 2..])
    else SplitSentences(t, n + 1)
  }

  /** `split(/[\s\n]/)` */
  function SplitWords(t: Text, n: nat := 0): (ws: seq<Text>)
    requires n <= |t|
    ensures ws != []
    decreases |t|, |t| - n
  {
    if n == |t| then [t]
    else if IsSpace(t[n]) then [t[..n]] + SplitWords(t[n + 1..])
    else SplitWords(t, n + 1)
  }

  /** Length of the pieces with `gap` units after each. */
  function Span(ps: seq<Text>, gap: nat): nat {
    if ps == [] then 0 else Span(ps[..|ps| - 1], gap) + |ps[|ps| - 1]| + gap
  }

  lemma {:induction false} SpanFirst(p: Text, ps: seq<Text>, gap: nat)
    ensures Span([p] + ps, gap) == |p| + gap + Span(ps, gap)
  {
    if ps == [] {
      assert Span([p], gap) == Span([], gap) + |p| + gap;
      assert [p] + ps == [p];
    } else {
      var n := |ps| - 1;
      SpanFirst(p, ps[..n], gap);
      assert ([p] + ps)[..n + 1] == [p] + ps[..n];
    }
  }

  lemma {:induction false} SentencesSpan(t: Text, n: nat)
    requires n <= |t|
    ensures Span(SplitSentences(t, n), 2) == |t| + 2
    decreases |t|, |t| - n
  {
    if n + 1 >= |t| {
      SpanFirst(t, [], 2);
    } else if t[n] == 46 && t[n + 1] == 32 {
      SentencesSpan(t[n + 2..], 0);
      SpanFirst(t[..n], SplitSentences(t[n + 2..]), 2);
    } else {
      SentencesSpan(t, n + 1);
    }
  }

  lemma {:induction false} WordsSpan(t: Text, n: nat)
    requires n <= |t|
    ensures Span(SplitWords(t, n), 1) == |t| + 1
    decreases |t|, |t| - n
  {
    if n == |t| {
      SpanFirst(t, [], 1);
    } else if IsSpace(t[n]) {
      WordsSpan(t[n + 1..], 0);
      SpanFirst(t[..n], SplitWords(t[n + 1..]), 1);
    } else {
      WordsSpan(t, n + 1);
    }
  }

  // ---- Weighing ----

  /** A word whose stem begins with the stem of a search term. */
  predicate Hit(word: Text, stemmed: seq<Text>, stem: Text -> Text) {
    exists k :: 0 <= k < |stemmed| && stemmed[k] <= stem(word)
  }

  predicate AllEmpty(words: seq<Text>) {
    forall word :: word in words ==> word == []
  }

  /** What is recorded for a word that comes after `before` in a sentence that starts at offset `at`: its position,
      and the weight of a term, of the first word of its sentence, or of a normal word. */
  function WordAfter(before: seq<Text>, word: Text, at: nat, stemmed: seq<Text>, stem: Text -> Text): Word {
    Word(word,
         if Hit(word, stemmed, stem) then TERM_WEIGHT
         else if AllEmpty(before) then FIRST_WORD_WEIGHT else NORMAL_WORD_WEIGHT,
         at + Span(before, 1))
  }

  function Weigh(words: seq<Text>, at: nat, stemmed: seq<Text>, stem: Text -> Text): seq<Word> {
    if words == [] then []
    else
      var before, word := words[..|words| - 1], words[|words| - 1];
      var ws := Weigh(before, at, stemmed, stem);
      if word == [] then ws else ws + [WordAfter(before, word, at, stemmed, stem)]
  }

  function WeighAll(sentences: seq<Text>, stemmed: seq<Text>, stem: Text -> Text): seq<Word> {
    if sentences == [] then []
    else
      var before := sentences[..|sentences| - 1];
      WeighAll(before, stemmed, stem) + Weigh(SplitWords(sentences[|sentences| - 1]), Span(before, 2), stemmed, stem)
  }

  /** Some word has the weight of a term. */
  predicate AnyTerm(ws: seq<Word>) {
    exists w :: w in ws && w.weight == TERM_WEIGHT
  }

  lemma AnyTermSnoc(ws: seq<Word>, w: Word)
    ensures AnyTerm(ws + [w]) <==> AnyTerm(ws) || w.weight == TERM_WEIGHT
  {
    assert w in ws + [w];
    assert forall v :: v in ws ==> v in ws + [w];
  }

  lemma AnyTermConcat(a: seq<Word>, b: seq<Word>)
    ensures AnyTerm(a + b) <==> AnyTerm(a) || AnyTerm(b)
  {
    assert forall v :: v in a || v in b ==> v in a + b;
  }

  /** The innermost loop: does the word match a term? */
  method MatchTerms(word: Text, stemmed: seq<Text>, stem: Text -> Text, value: nat) returns (weight: nat, found: bool)
    ensures found == Hit(word, stemmed, stem)
    ensures weight == if found then TERM_WEIGHT else value
  {
    weight, found := value, false;
    for k := 0 to |stemmed|
      invariant found <==> exists m :: 0 <= m < k && stemmed[m] <= stem(word)
      invariant weight == if found then TERM_WEIGHT else value
    {
      if stemmed[k] <= stem(word) {
        weight := TERM_WEIGHT;
        found := true;
      }
    }
  }

  /** The words of one sentence; `index` moves past each word and the character after it. */
  method WeighSentence(words: seq<Text>, at: nat, stemmed: seq<Text>, stem: Text -> Text)
    returns (weighted: seq<Word>, termFound: bool, index: nat)
    ensures weighted == Weigh(words, at, stemmed, stem)
    ensures termFound <==> AnyTerm(weighted)
    ensures index == at + Span(words, 1)
  {
    weighted, termFound, index := [], false, at;
    var value: nat := FIRST_WORD_WEIGHT;
    for j := 0 to |words|
      invariant value == if AllEmpty(words[..j]) then FIRST_WORD_WEIGHT else NORMAL_WORD_WEIGHT
      invariant weighted == Weigh(words[..j], at, stemmed, stem)
      invariant index == at + Span(words[..j], 1)
      invariant termFound <==> AnyTerm(weighted)
    {
      var word := words[j];
      WeighNext(words, j, at, stemmed, stem);
      if |word| > 0 {
        var weight, found := MatchTerms(word, stemmed, stem, value);
        AnyTermSnoc(weighted, Word(word, weight, index));
        weighted := weighted + [Word(word, weight, index)];
        termFound := termFound || found;
        value := NORMAL_WORD_WEIGHT;
      }
      index := index + |word|;
      index := index + 1;
    }
    assert words[..|words|] == words;
  }

  lemma WeighNext(words: seq<Text>, j: nat, at: nat, stemmed: seq<Text>, stem: Text -> Text)
    requires j < |words|
    ensures AllEmpty(words[..j + 1]) <==> AllEmpty(words[..j]) && words[j] == []
    ensures Span(words[..j + 1], 1) == Span(words[..j], 1) + |words[j]| + 1
    ensures words[j] == [] ==> Weigh(words[..j + 1], at, stemmed, stem) == Weigh(words[..j], at, stemmed, stem)
    ensures words[j] != [] ==>
      Weigh(words[..j + 1], at, stemmed, stem)
      == Weigh(words[..j], at, stemmed, stem) + [WordAfter(words[..j], words[j], at, stemmed, stem)]
  {
    assert words[..j + 1][..j] == words[..j];
    AllEmptySnoc(words[..j], words[j]);
    assert words[..j + 1] == words[..j] + [words[j]];
  }

  lemma AllEmptySnoc(words: seq<Text>, word: Text)
    ensures AllEmpty(words + [word]) <==> AllEmpty(words) && word == []
  {
    assert word in words + [word];
    assert forall w :: w in words ==> w in words + [word];
  }

  method WeighWords(low: Text, stemmed: seq<Text>, stem: Text -> Text) returns (weighted: seq<Word>, termFound: bool)
    ensures weighted == WeighAll(SplitSentences(low), stemmed, stem)
    ensures termFound <==> AnyTerm(weighted)
  {
    weighted, termFound := [], false;
    var index: nat := 0;
    var sentences := SplitSentences(low);
    for i := 0 to |sentences|
      invariant index == Span(sentences[..i], 2)
      invariant weighted == WeighAll(sentences[..i], stemmed, stem)
      invariant termFound <==> AnyTerm(weighted)
    {
      assert sentences[..i + 1][..i] == sentences[..i];
      WordsSpan(sentences[i], 0);
      var more, found;
      more, found, index := WeighSentence(SplitWords(sentences[i]), index, stemmed, stem);
      AnyTermConcat(weighted, more);
      weighted := weighted + more;
      termFound := termFound || found;
      index := index + 1;
    }
    assert sentences[..|sentences|] == sentences;
  }

  // ---- What is recorded ----

  function NonEmpty(words: seq<Text>): seq<Text> {
    if words == [] then []
    else
      var rest, last := NonEmpty(words[..|words| - 1]), words[|words| - 1];
      if last == [] then rest else rest + [last]
  }

  /** A word weighs 40 exactly if its stem begins with the stem of a search term; otherwise it weighs 8 if it is the
      first of its sentence, and 2 if it is not. */
  ghost predicate Weighed(ws: seq<Word>, stemmed: seq<Text>, stem: Text -> Text) {
    forall k :: 0 <= k < |ws| ==>
      ws[k].weight == if exists t :: t in stemmed && t <= stem(ws[k].text) then 40 else if k == 0 then 8 else 2
  }

  /** Of one sentence every word is recorded, in order, with its weight. */
  lemma {:induction false} SentenceWeights(words: seq<Text>, at: nat, stemmed: seq<Text>, stem: Text -> Text)
    ensures var ws := Weigh(words, at, stemmed, stem);
      && |ws| == |NonEmpty(words)| && (forall k :: 0 <= k < |ws| ==> ws[k].text == NonEmpty(words)[k])
      && Weighed(ws, stemmed, stem) && (ws == [] <==> AllEmpty(words))
  {
    if words != [] {
      var before, word := words[..|words| - 1], words[|words| - 1];
      SentenceWeights(before, at, stemmed, stem);
      AllEmptySnoc(before, word);
      assert words == before + [word];
      HitIff(word, stemmed, stem);
    }
  }

  lemma HitIff(word: Text, stemmed: seq<Text>, stem: Text -> Text)
    ensures Hit(word, stemmed, stem) <==> exists t :: t in stemmed && t <= stem(word)
  {
    if Hit(word, stemmed, stem) {
      var k :| 0 <= k < |stemmed| && stemmed[k] <= stem(word);
      assert stemmed[k] in stemmed;
    }
  }

  lemma {:induction false} InSentence(words: seq<Text>, i: nat, at: nat, stemmed: seq<Text>, stem: Text -> Text)
    requires i < |words| && words[i] != []
    ensures WordAfter(words[..i], words[i], at, stemmed, stem) in Weigh(words, at, stemmed, stem)
  {
    if i < |words| - 1 {
      InSentence(words[..|words| - 1], i, at, stemmed, stem);
      assert words[..|words| - 1][..i] == words[..i];
    }
  }

  /** In the whole text no word of any sentence is missed. */
  lemma {:induction false} EveryWordIsRecorded(ss: seq<Text>, j: nat, i: nat, stemmed: seq<Text>, stem: Text -> Text)
    returns (w: Word)
    requires j < |ss| && i < |SplitWords(ss[j])| && SplitWords(ss[j])[i] != []
    ensures w in WeighAll(ss, stemmed, stem)
    ensures w.text == SplitWords(ss[j])[i] && w.at == Span(ss[..j], 2) + Span(SplitWords(ss[j])[..i], 1)
  {
    var before := ss[..|ss| - 1];
    if j < |ss| - 1 {
      w := EveryWordIsRecorded(before, j, i, stemmed, stem);
      assert before[..j] == ss[..j];
    } else {
      var words := SplitWords(ss[j]);
      InSentence(words, i, Span(before, 2), stemmed, stem);
      w := WordAfter(words[..i], words[i], Span(before, 2), stemmed, stem);
    }
  }

  /** The words are what stands between white space ... */
  lemma {:induction false} NoSpaceInside(t: Text, n: nat, j: nat)
    requires n <= |t| && (forall i :: 0 <= i < n ==> !IsSpace(t[i])) && j < |SplitWords(t, n)|
    ensures forall u :: u in SplitWords(t, n)[j] ==> !IsSpace(u)
    decreases |t|, |t| - n
  {
    if n < |t| {
      if !IsSpace(t[n]) {
        NoSpaceInside(t, n + 1, j);
      } else if j > 0 {
        NoSpaceInside(t[n + 1..], 0, j - 1);
      }
    }
  }

  /** ... with one white space character after each but the last. */
  lemma {:induction false} SpaceAfter(t: Text, n: nat, j: nat)
    requires n <= |t| && j + 1 < |SplitWords(t, n)|
    ensures var end := Span(SplitWords(t, n)[..j + 1], 1); 0 < end <= |t| && IsSpace(t[end - 1])
    decreases |t|, |t| - n
  {
    var ws := SplitWords(t, n);
    if !IsSpace(t[n]) {
      SpaceAfter(t, n + 1, j);
    } else {
      var rest := SplitWords(t[n + 1..]);
      assert ws[..j + 1] == [t[..n]] + rest[..j];
      SpanFirst(t[..n], rest[..j], 1);
      if j > 0 {
        SpaceAfter(t[n + 1..], 0, j - 1);
      }
    }
  }

  predicate StopAt(t: Text, i: int) {
    0 <= i && i + 1 < |t| && t[i] == 46 && t[i + 1] == 32
  }

  /** Likewise the sentences are what stands between full stops followed by a space. */
  lemma {:induction false} NoStopInside(t: Text, n: nat, j: nat)
    requires n <= |t| && (forall i :: 0 <= i < n ==> !StopAt(t, i)) && j < |SplitSentences(t, n)|
    ensures forall i :: !StopAt(SplitSentences(t, n)[j], i)
    decreases |t|, |t| - n
  {
    if n + 1 < |t| {
      if !StopAt(t, n) {
        NoStopInside(t, n + 1, j);
      } else if j > 0 {
        NoStopInside(t[n + 2..], 0, j - 1);
      } else {
        assert forall i :: StopAt(t[..n], i) ==> StopAt(t, i);
      }
    }
  }

  lemma {:induction false} StopAfter(t: Text, n: nat, j: nat)
    requires n <= |t| && j + 1 < |SplitSentences(t, n)|
    ensures StopAt(t, Span(SplitSentences(t, n)[..j + 1], 2) - 2)
    decreases |t|, |t| - n
  {
    var ss := SplitSentences(t, n);
    if !StopAt(t, n) {
      StopAfter(t, n + 1, j);
    } else {
      var rest := SplitSentences(t[n + 2..]);
      assert ss[..j + 1] == [t[..n]] + rest[..j];
      SpanFirst(t[..n], rest[..j], 2);
      if j > 0 {
        StopAfter(t[n + 2..], 0, j - 1);
      }
    }
  }

  // ---- Every word sits where its offset says ----

  /** In place, in order, with at least one unit between neighbours, and all inside [lo, hi). */
  ghost predicate Located(low: Text, ws: seq<Word>, lo: nat, hi: nat) {
    ws == [] ||
    (var n := |ws| - 1;
     && lo <= ws[n].at && End(ws[n]) < hi && ws[n].text != [] && Occurs(low, ws[n].text, ws[n].at)
     && Located(low, ws[..n], lo, ws[n].at))
  }

  function End(w: Word): nat {
    w.at + |w.text|
  }

  predicate Occurs(low: Text, w: Text, at: nat) {
    at + |w| <= |low| && low[at..at + |w|] == w
  }

  lemma {:induction false} WordOffset(t: Text, n: nat, j: nat)
    requires n <= |t| && j < |SplitWords(t, n)|
    ensures Occurs(t, SplitWords(t, n)[j], Span(SplitWords(t, n)[..j], 1))
    decreases |t|, |t| - n
  {
    var ws := SplitWords(t, n);
    if n < |t| && !IsSpace(t[n]) {
      WordOffset(t, n + 1, j);
    } else if n < |t| && j > 0 {
      var rest := SplitWords(t[n + 1..]);
      WordOffset(t[n + 1..], 0, j - 1);
      assert ws[..j] == [t[..n]] + rest[..j - 1];
      SpanFirst(t[..n], rest[..j - 1], 1);
      Shift(t, n + 1, rest[j - 1], Span(rest[..j - 1], 1));
    }
  }

  lemma {:induction false} SentenceOffset(t: Text, n: nat, j: nat)
    requires n <= |t| && j < |SplitSentences(t, n)|
    ensures Occurs(t, SplitSentences(t, n)[j], Span(SplitSentences(t, n)[..j], 2))
    decreases |t|, |t| - n
  {
    var ss := SplitSentences(t, n);
    if n + 1 < |t| && !(t[n] == 46 && t[n + 1] == 32) {
      SentenceOffset(t, n + 1, j);
    } else if n + 1 < |t| && j > 0 {
      var rest := SplitSentences(t[n + 2..]);
      SentenceOffset(t[n + 2..], 0, j - 1);
      assert ss[..j] == [t[..n]] + rest[..j - 1];
      SpanFirst(t[..n], rest[..j - 1], 2);
      Shift(t, n + 2, rest[j - 1], Span(rest[..j - 1], 2));
    }
  }

  lemma Shift(t: Text, m: nat, w: Text, at: nat)
    requires m <= |t| && Occurs(t[m..], w, at)
    ensures Occurs(t, w, m + at)
  {
    assert t[m..][at..at + |w|] == t[m + at..m + at + |w|];
  }

  lemma OccursInside(low: Text, t: Text, at: nat, w: Text, offset: nat)
    requires Occurs(low, t, at) && Occurs(t, w, offset)
    ensures Occurs(low, w, at + offset)
  {
    forall k | 0 <= k < |w|
      ensures low[at + offset..at + offset + |w|][k] == w[k]
    {
      assert t[offset..offset + |w|][k] == t[offset + k] == low[at..at + |t|][offset + k];
    }
  }

  lemma LocatedWider(low: Text, ws: seq<Word>, lo: nat, mid: nat, hi: nat)
    requires Located(low, ws, lo, mid) && mid <= hi
    ensures Located(low, ws, lo, hi)
  {
  }

  lemma {:induction false} LocatedConcat(low: Text, a: seq<Word>, b: seq<Word>, lo: nat, mid: nat, hi: nat)
    requires Located(low, a, lo, mid) && Located(low, b, mid, hi) && lo <= mid <= hi
    ensures Located(low, a + b, lo, hi)
  {
    if b == [] {
      NothingAdded(a);
    } else {
      var n := |b| - 1;
      LocatedConcat(low, a, b[..n], lo, mid, b[n].at);
      assert (a + b)[..|a| + n] == a + b[..n];
    }
  }

  lemma {:induction false} LocatedAt(low: Text, ws: seq<Word>, lo: nat, hi: nat, k: nat)
    requires Located(low, ws, lo, hi) && k < |ws|
    ensures lo <= ws[k].at && End(ws[k]) < hi && ws[k].text != [] && Occurs(low, ws[k].text, ws[k].at)
    ensures k + 1 < |ws| ==> End(ws[k]) < ws[k + 1].at
  {
    var n := |ws| - 1;
    if k < n {
      LocatedAt(low, ws[..n], lo, ws[n].at, k);
      if k + 1 == n {
        assert ws[..n][k] == ws[k];
      }
    }
  }

  lemma LocatedSnoc(low: Text, ws: seq<Word>, w: Word, lo: nat, hi: nat)
    requires lo <= w.at && End(w) < hi && w.text != [] && Occurs(low, w.text, w.at) && Located(low, ws, lo, w.at)
    ensures Located(low, ws + [w], lo, hi)
  {
    assert (ws + [w])[..|ws|] == ws;
  }

  lemma WordInPlace(low: Text, t: Text, at: nat, j: nat)
    requires Occurs(low, t, at) && j < |SplitWords(t)|
    ensures Occurs(low, SplitWords(t)[j], at + Span(SplitWords(t)[..j], 1))
  {
    WordOffset(t, 0, j);
    OccursInside(low, t, at, SplitWords(t)[j], Span(SplitWords(t)[..j], 1));
  }

  /** Located words stay so when the next word is weighed. */
  lemma NextLocated(low: Text, words: seq<Text>, j: nat, at: nat, stemmed: seq<Text>, stem: Text -> Text)
    requires j < |words| && Occurs(low, words[j], at + Span(words[..j], 1))
    requires Located(low, Weigh(words[..j], at, stemmed, stem), at, at + Span(words[..j], 1))
    ensures Located(low, Weigh(words[..j + 1], at, stemmed, stem), at, at + Span(words[..j + 1], 1))
  {
    var ws, lo, hi := Weigh(words[..j], at, stemmed, stem), at + Span(words[..j], 1), at + Span(words[..j + 1], 1);
    WeighNext(words, j, at, stemmed, stem);
    if words[j] == [] {
      LocatedWider(low, ws, at, lo, hi);
    } else {
      LocatedSnoc(low, ws, WordAfter(words[..j], words[j], at, stemmed, stem), at, hi);
    }
  }

  lemma {:induction false} SentenceLocated(low: Text, t: Text, at: nat, j: nat, stemmed: seq<Text>, stem: Text -> Text)
    requires Occurs(low, t, at) && j <= |SplitWords(t)|
    ensures Located(low, Weigh(SplitWords(t)[..j], at, stemmed, stem), at, at + Span(SplitWords(t)[..j], 1))
  {
    if j > 0 {
      SentenceLocated(low, t, at, j - 1, stemmed, stem);
      WordInPlace(low, t, at, j - 1);
      NextLocated(low, SplitWords(t), j - 1, at, stemmed, stem);
    }
  }

  lemma {:induction false} SentencesLocated(low: Text, i: nat, stemmed: seq<Text>, stem: Text -> Text)
    requires i <= |SplitSentences(low)|
    ensures Located(low, WeighAll(SplitSentences(low)[..i], stemmed, stem), 0, Span(SplitSentences(low)[..i], 2))
  {
    if i > 0 {
      var ss := SplitSentences(low);
      var before, t := ss[..i - 1], ss[i - 1];
      assert ss[..i][..i - 1] == before;
      SentencesLocated(low, i - 1, stemmed, stem);
      SentenceOffset(low, 0, i - 1);
      WordsSpan(t, 0);
      SentenceLocated(low, t, Span(before, 2), |SplitWords(t)|, stemmed, stem);
      assert SplitWords(t)[..|SplitWords(t)|] == SplitWords(t);
      LocatedConcat(low, WeighAll(before, stemmed, stem), Weigh(SplitWords(t), Span(before, 2), stemmed, stem),
                    0, Span(before, 2), Span(ss[..i], 2));
    }
  }

  /** Every recorded word occurs at its recorded offset, and offsets strictly increase with gaps. */
  lemma WordsAreLocated(low: Text, stemmed: seq<Text>, stem: Text -> Text, ws: seq<Word>)
    requires ws == WeighAll(SplitSentences(low), stemmed, stem)
    ensures forall k :: 0 <= k < |ws| ==> ws[k].text != [] && Occurs(low, ws[k].text, ws[k].at)
    ensures forall k :: 0 <= k < |ws| - 1 ==> End(ws[k]) < ws[k + 1].at
  {
    var ss := SplitSentences(low);
    SentencesLocated(low, |ss|, stemmed, stem);
    assert ss[..|ss|] == ss;
    forall k | 0 <= k < |ws|
      ensures ws[k].text != [] && Occurs(low, ws[k].text, ws[k].at) && (k + 1 < |ws| ==> End(ws[k]) < ws[k + 1].at)
    {
      LocatedAt(low, ws, 0, Span(ss, 2), k);
    }
  }
}
