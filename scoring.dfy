/**
  The two text helpers of `KnowledgeBase` that do not touch the store:
  `similarity_score` (Jaccard similarity of the lower-cased word sets) and
  `extract_keywords` (the first five significant words).
 */
module Scoring {
  import opened PyStr

  /** The set of lower-cased, whitespace-separated words of `text`. */
  function Tokens(text: String): set<String> {
    set w | w in Split(Lower(text))
  }

  /** A text has no words exactly when it is all whitespace (or empty). */
  lemma TokensEmpty(text: String)
    ensures Tokens(text) == {} <==> forall i :: 0 <= i < |text| ==> IsSpace(text[i])
  {
    var ws := Split(Lower(text));
    SplitWords(Lower(text));
    if ws != [] {
      assert ws[0] in Tokens(text);
    }
  }

  /** Two texts that differ only in the case of their letters have the same words. */
  lemma TokensIgnoreCase(text1: String, text2: String)
    requires Lower(text1) == Lower(text2)
    ensures Tokens(text1) == Tokens(text2)
  {
  }

  /** Intersection and union of two sets: the first is no larger, and equal
      sizes mean the two sets are equal. */
  lemma InterUnionCard<T>(a: set<T>, b: set<T>)
    ensures |a * b| <= |a + b|
    ensures |a * b| == |a + b| ==> a == b
    ensures a != {} ==> |a + b| > 0
  {
    var i, u := a * b, a + b;
    assert i <= u;
    assert |u - i| == |u| - |i|;
    if |i| == |u| {
      assert u - i == {};
      forall x | x in u ensures x in i {
        assert x !in u - i;
      }
    }
    if a != {} {
      var x :| x in a;
      assert x in u;
    }
  }

  /** The exact quotient `i / u` of two counts, the first no larger than the
      second and the second positive. */
  function Ratio(i: nat, u: nat): (q: real)
    requires i <= u && u > 0
    ensures 0.0 <= q <= 1.0
    ensures q == 0.0 <==> i == 0
    ensures q == 1.0 <==> i == u
  {
    var q := i as real / u as real;
    QuotientBounds(i as real, u as real, q);
    q
  }

  /** The quotient of a non-negative number by a larger positive one lies in
      [0, 1], and hits either end exactly when the dividend does. */
  lemma QuotientBounds(x: real, y: real, q: real)
    requires 0.0 <= x <= y && y > 0.0 && q == x / y
    ensures 0.0 <= q <= 1.0
    ensures q == 0.0 <==> x == 0.0
    ensures q == 1.0 <==> x == y
  {
    assert q * y == x;
  }

  /** `similarity_score(text1, text2)`: |A ∩ B| / |A ∪ B| for the word sets A and
      B of the two texts, and 0 when either has no word. */
  function SimilarityScore(text1: String, text2: String): (r: real)
    ensures 0.0 <= r <= 1.0
  {
    var words1 := Tokens(text1);
    var words2 := Tokens(text2);
    if words1 == {} || words2 == {} then
      0.0
    else
      InterUnionCard(words1, words2);
      Ratio(|words1 * words2|, |words1 + words2|)
  }

  /** The score is 0 exactly when the texts share no word, and 1 exactly when
      they have the same words and at least one. */
  lemma SimilarityExtremes(text1: String, text2: String)
    ensures SimilarityScore(text1, text2) == 0.0 <==> Tokens(text1) * Tokens(text2) == {}
    ensures SimilarityScore(text1, text2) == 1.0 <==> Tokens(text1) == Tokens(text2) != {}
  {
    var words1 := Tokens(text1);
    var words2 := Tokens(text2);
    if words1 != {} && words2 != {} {
      InterUnionCard(words1, words2);
      var intersection := |words1 * words2|;
      var union := |words1 + words2|;
      assert intersection == 0 <==> words1 * words2 == {};
      assert words1 == words2 ==> words1 * words2 == words1 + words2;
      assert intersection == union <==> words1 == words2;
    }
  }

  /** The score does not depend on the order of its arguments. */
  lemma SimilaritySymmetric(text1: String, text2: String)
    ensures SimilarityScore(text1, text2) == SimilarityScore(text2, text1)
  {
    assert Tokens(text1) * Tokens(text2) == Tokens(text2) * Tokens(text1);
    assert Tokens(text1) + Tokens(text2) == Tokens(text2) + Tokens(text1);
  }

  /** A text with at least one word scores 1 against itself and against any copy
      of itself with its letters' case changed; a text without words scores 0. */
  lemma SimilaritySelf(text1: String, text2: String)
    requires Lower(text1) == Lower(text2)
    ensures SimilarityScore(text1, text2) == if Tokens(text1) == {} then 0.0 else 1.0
  {
    TokensIgnoreCase(text1, text2);
    SimilarityExtremes(text1, text2);
  }

  /** The words `extract_keywords` never keeps, whatever their length. */
  const StopWords: set<String> :=
    {"the", "a", "an", "is", "are", "was", "were", "what", "how", "why", "where", "when", "who", "which"}

  /** The comprehension's filter: longer than three characters and not a stop word. */
  predicate IsKeyword(w: String) {
    |w| > 3 && w !in StopWords
  }

  /** The number of keywords `extract_keywords` keeps at most. */
  const MaxKeywords: nat := 5

  /** `[w for w in words if len(w) > 3 and w not in stop_words]`. */
  function KeywordFilter(words: seq<String>): (r: seq<String>)
    ensures |r| <= |words|
    ensures forall w :: w in r ==> IsKeyword(w) && w in words
  {
    if words == [] then []
    else if IsKeyword(words[0]) then [words[0]] + KeywordFilter(words[1..])
    else KeywordFilter(words[1..])
  }

  /** `a` can be obtained from `b` by deleting elements: same relative order. */
  predicate IsSubsequence<T(==)>(a: seq<T>, b: seq<T>)
    decreases |b|
  {
    if a == [] then true
    else if b == [] then false
    else if a[0] == b[0] then IsSubsequence(a[1..], b[1..])
    else IsSubsequence(a, b[1..])
  }

  lemma {:induction false} PrefixOfSubsequence<T>(a: seq<T>, b: seq<T>, n: nat)
    requires IsSubsequence(a, b) && n <= |a|
    ensures IsSubsequence(a[..n], b)
    decreases |b|
  {
    if n == 0 || a == [] {
    } else if a[0] == b[0] {
      PrefixOfSubsequence(a[1..], b[1..], n - 1);
      assert a[..n][1..] == a[1..][..n - 1];
    } else {
      PrefixOfSubsequence(a, b[1..], n);
    }
  }

  /** The filter keeps the keywords in their order, and keeps every occurrence
      of every keyword and nothing else. */
  lemma {:induction false} KeywordFilterExact(words: seq<String>)
    ensures IsSubsequence(KeywordFilter(words), words)
    ensures forall w :: multiset(KeywordFilter(words))[w] == if IsKeyword(w) then multiset(words)[w] else 0
  {
    if words != [] {
      KeywordFilterExact(words[1..]);
      assert words == [words[0]] + words[1..];
      var r := KeywordFilter(words);
      if IsKeyword(words[0]) {
        assert r[0] == words[0] && r[1..] == KeywordFilter(words[1..]);
      }
    }
  }

  /** Every word of a lower-cased text is lower-case. */
  lemma WordsOfLowerAreLowerCase(text: String, w: String)
    requires w in Split(Lower(text))
    ensures IsLowerCase(w)
  {
    var s := Lower(text);
    SplitWords(s);
    forall i | 0 <= i < |w| ensures !IsUpper(w[i]) {
      assert w[i] in w;
      var j :| 0 <= j < |s| && s[j] == w[i];
    }
  }

  /** `extract_keywords(text)`: the first five keywords among the lower-cased
      words of `text`. */
  function ExtractKeywords(text: String): (r: seq<String>)
    ensures |r| <= MaxKeywords
    ensures forall w :: w in r ==> IsKeyword(w) && IsLowerCase(w) && w in Split(Lower(text))
  {
    var words := Split(Lower(text));
    var keywords := KeywordFilter(words);
    forall w | w in words ensures IsLowerCase(w) {
      WordsOfLowerAreLowerCase(text, w);
    }
    if |keywords| <= MaxKeywords then keywords else keywords[..MaxKeywords]
  }

  /** The keywords keep their relative order in the text; they are the first
      keywords of the text, five of them when the text has more, and when the
      text has at most five keywords all of them are kept, with their
      repetitions. */
  lemma KeywordsInOrder(text: String)
    ensures IsSubsequence(ExtractKeywords(text), Split(Lower(text)))
    ensures |ExtractKeywords(text)| ==
              if |KeywordFilter(Split(Lower(text)))| <= MaxKeywords then |KeywordFilter(Split(Lower(text)))| else MaxKeywords
    ensures ExtractKeywords(text) == KeywordFilter(Split(Lower(text)))[..|ExtractKeywords(text)|]
    ensures |KeywordFilter(Split(Lower(text)))| <= MaxKeywords ==>
              forall w :: multiset(ExtractKeywords(text))[w] == if IsKeyword(w) then multiset(Split(Lower(text)))[w] else 0
  {
    var words := Split(Lower(text));
    KeywordFilterExact(words);
    var keywords := KeywordFilter(words);
    PrefixOfSubsequence(keywords, words, |ExtractKeywords(text)|);
    assert keywords[..|keywords|] == keywords;
  }
}
