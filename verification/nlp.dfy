/** The front end's text utilities (src/utils/nlp.ts): term normalisation, variation and
    similarity tests, Levenshtein distance, tokenising and language detection. Similarity
    scores are exact rationals here. */
module Nlp {
  import opened Text
  import opened Collections

  // ---------------------------------------------------------------- normalisation

  /** Keeps the characters `keep` accepts (a global `replace` of the others by ""). */
  function KeepChars(s: String, keep: char -> bool): (r: String)
    ensures |r| <= |s|
    ensures forall i :: 0 <= i < |r| ==> keep(r[i])
    ensures forall i :: 0 <= i < |r| ==> r[i] in s
  {
    if s == [] then []
    else (if keep(s[0]) then [s[0]] else []) + KeepChars(s[1..], keep)
  }

  /** `s.replace(/\s+/g, ' ')` with `sp` as `\s`: every maximal run becomes one space. */
  function CollapseRuns(s: String, sp: char -> bool): (r: String)
    ensures forall i :: 0 <= i < |r| ==> r[i] == ' ' || (r[i] in s && !sp(r[i]))
    ensures forall i :: 0 <= i < |r| - 1 ==> !(r[i] == ' ' && r[i + 1] == ' ') || !sp(' ')
    decreases |s|
  {
    if s == [] then []
    else if sp(s[0]) then
      var rest := DropRun(s, sp);
      DropRunFacts(s, sp);
      " " + NonSpaceHead(rest, sp)
    else [s[0]] + CollapseRuns(s[1..], sp)
  }

  /** The collapse of a text that does not start with a separator. */
  function NonSpaceHead(s: String, sp: char -> bool): (r: String)
    requires s == [] || !sp(s[0])
    ensures forall i :: 0 <= i < |r| ==> r[i] == ' ' || (r[i] in s && !sp(r[i]))
    ensures forall i :: 0 <= i < |r| - 1 ==> !(r[i] == ' ' && r[i + 1] == ' ') || !sp(' ')
    ensures r == [] || r[0] != ' ' || !sp(' ')
    decreases |s|, 0
  {
    if s == [] then []
    else
      var tail := CollapseRuns(s[1..], sp);
      var r := [s[0]] + tail;
      assert r[0] == s[0];
      r
  }

  predicate NormalizedChar(c: char) { IsAsciiLower(c) || IsAsciiDigit(c) || c == '_' || c == '-' || c == ' ' }

  /** normalizeTerm: lower-case, trim, drop everything but word characters, whitespace and
      '-', then turn each whitespace run into one space. */
  function NormalizeTerm(term: String): (r: String)
    ensures forall i :: 0 <= i < |r| ==> NormalizedChar(r[i])
    ensures forall i :: 0 <= i < |r| - 1 ==> !(r[i] == ' ' && r[i + 1] == ' ')
  {
    var lowered := Lower(term);
    var kept := KeepChars(JsTrim(lowered), c => IsWordChar(c) || IsJsSpace(c) || c == '-');
    var r := CollapseRuns(kept, IsJsSpace);
    assert forall i :: 0 <= i < |kept| ==> !IsAsciiUpper(kept[i]) by {
      forall i | 0 <= i < |kept| ensures !IsAsciiUpper(kept[i]) {
        LowerHasNoUpper(term, JsTrim(lowered), kept[i]);
      }
    }
    r
  }

  /** No character of a trimmed lower-cased text is an upper-case ASCII letter. */
  lemma LowerHasNoUpper(term: String, t: String, c: char)
    requires t == JsTrim(Lower(term)) && c in t
    ensures !IsAsciiUpper(c)
  {
    TrimKeepsChars(Lower(term), c);
  }

  /** Trimming only removes characters. */
  lemma TrimKeepsChars(s: String, c: char)
    requires c in JsTrim(s)
    ensures c in s
  {
    TrimFacts(s, IsJsSpace);
  }

  // ---------------------------------------------------------------- variations

  /** singularize: "…ies" to "…y", else drop a final "es", else drop a final "s" unless the
      word ends in "ss". */
  function Singularize(word: String): (r: String)
    ensures EndsWith(word, "ies") ==> r == word[..|word| - 3] + "y"
    ensures !EndsWith(word, "ies") && EndsWith(word, "es") ==> r == word[..|word| - 2]
    ensures !EndsWith(word, "es") && EndsWith(word, "s") && !EndsWith(word, "ss") ==> r == word[..|word| - 1]
    ensures !EndsWith(word, "es") && (!EndsWith(word, "s") || EndsWith(word, "ss")) ==> r == word
    ensures |r| <= |word|
  {
    if EndsWith(word, "ies") then word[..|word| - 3] + "y"
    else if EndsWith(word, "es") then word[..|word| - 2]
    else if EndsWith(word, "s") && !EndsWith(word, "ss") then word[..|word| - 1]
    else word
  }

  /** A regular plural made with "s" singularises back. */
  lemma SingularizeRegularPlural(w: String)
    requires w != [] && w[|w| - 1] != 's' && w[|w| - 1] != 'e'
    ensures Singularize(w + "s") == w
  {
    var p := w + "s";
    assert p[|p| - 2..] == [w[|w| - 1], 's'];
    assert EndsWith(p, "s");
    assert p[..|p| - 1] == w;
  }

  /** A plural made with "ies" singularises to "y". */
  lemma SingularizeIesPlural(w: String)
    ensures Singularize(w + "ies") == w + "y"
  {
    var p := w + "ies";
    assert p[|p| - 3..] == "ies";
    assert p[..|p| - 3] == w;
  }

  function ReplaceHyphens(s: String, rep: String): String {
    if s == [] then [] else (if s[0] == '-' then rep else [s[0]]) + ReplaceHyphens(s[1..], rep)
  }

  /** areVariations: equal once hyphens are dropped, or once they become spaces, or once both
      are singularised, or once both are lower-cased. */
  predicate AreVariations(t1: String, t2: String) {
    ReplaceHyphens(t1, "") == ReplaceHyphens(t2, "")
    || ReplaceHyphens(t1, " ") == ReplaceHyphens(t2, " ")
    || Singularize(t1) == Singularize(t2)
    || Lower(t1) == Lower(t2)
  }

  // ---------------------------------------------------------------- edit distance

  function Min3(a: nat, b: nat, c: nat): nat {
    if a <= b && a <= c then a else if b <= c then b else c
  }

  /** The distance between the first `i` characters of `a` and the first `j` of `b`: the
      entry matrix[j][i] of levenshteinDistance. */
  function Dist(a: String, b: String, i: nat, j: nat): nat
    requires i <= |a| && j <= |b|
    decreases i + j
  {
    if j == 0 then i
    else if i == 0 then j
    else Min3(Dist(a, b, i - 1, j) + 1, Dist(a, b, i, j - 1) + 1,
              Dist(a, b, i - 1, j - 1) + (if a[i - 1] == b[j - 1] then 0 else 1))
  }

  lemma DistStep(a: String, b: String, i: nat, j: nat)
    requires 1 <= i <= |a| && 1 <= j <= |b|
    ensures Dist(a, b, i, j) == Min3(Dist(a, b, i - 1, j) + 1, Dist(a, b, i, j - 1) + 1,
              Dist(a, b, i - 1, j - 1) + (if a[i - 1] == b[j - 1] then 0 else 1))
  { }

  function Levenshtein(a: String, b: String): nat {
    Dist(a, b, |a|, |b|)
  }

  /** levenshteinDistance: fills the (|b|+1)×(|a|+1) matrix row by row. */
  method LevenshteinDistance(a: String, b: String) returns (d: nat)
    ensures d == Levenshtein(a, b)
  {
    var m := new nat[|b| + 1, |a| + 1];
    var i := 0;
    while i <= |a|
      invariant 0 <= i <= |a| + 1
      invariant forall x :: 0 <= x < i ==> m[0, x] == x
    {
      m[0, i] := i;
      i := i + 1;
    }
    var j := 0;
    while j <= |b|
      invariant 0 <= j <= |b| + 1
      invariant forall x :: 0 <= x <= |a| ==> m[0, x] == x
      invariant forall y :: 0 <= y < j ==> m[y, 0] == y
    {
      m[j, 0] := j;
      j := j + 1;
    }
    j := 1;
    while j <= |b|
      invariant 1 <= j <= |b| + 1
      invariant forall y, x :: 0 <= y < j && 0 <= x <= |a| ==> m[y, x] == Dist(a, b, x, y)
      invariant forall y :: j <= y <= |b| ==> m[y, 0] == y
    {
      FillRow(m, a, b, j);
      j := j + 1;
    }
    d := m[|b|, |a|];
  }

  /** One row of the matrix: row `j` from the rows above it and its first cell; the first
      cells of the rows below stay as they are. */
  method FillRow(m: array2<nat>, a: String, b: String, j: nat)
    requires m.Length0 == |b| + 1 && m.Length1 == |a| + 1 && 1 <= j <= |b|
    requires forall y, x {:trigger m[y, x]} :: 0 <= y < j && 0 <= x <= |a| ==> m[y, x] == Dist(a, b, x, y)
    requires forall y :: j <= y <= |b| ==> m[y, 0] == y
    modifies m
    ensures forall y, x {:trigger m[y, x]} :: 0 <= y <= j && 0 <= x <= |a| ==> m[y, x] == Dist(a, b, x, y)
    ensures forall y :: j < y <= |b| ==> m[y, 0] == y
  {
    var i := 1;
    while i <= |a|
      invariant 1 <= i <= |a| + 1
      invariant forall x {:trigger m[j, x]} :: 0 <= x < i ==> m[j, x] == Dist(a, b, x, j)
      invariant forall y, x :: 0 <= y < m.Length0 && y != j && 0 <= x < m.Length1 ==> m[y, x] == old(m[y, x])
    {
      var indicator := if a[i - 1] == b[j - 1] then 0 else 1;
      DistStep(a, b, i, j);
      m[j, i] := Min3(m[j, i - 1] + 1, m[j - 1, i] + 1, m[j - 1, i - 1] + indicator);
      i := i + 1;
    }
  }

  /** The distance to or from an empty prefix is the other prefix's length. */
  lemma DistFromEmpty(a: String, b: String, j: nat)
    requires j <= |b|
    ensures Dist(a, b, 0, j) == j && Dist(b, a, j, 0) == j
  {
  }

  /** The distance is symmetric. */
  lemma {:induction false} DistSymmetric(a: String, b: String, i: nat, j: nat)
    requires i <= |a| && j <= |b|
    ensures Dist(a, b, i, j) == Dist(b, a, j, i)
    decreases i + j
  {
    if i > 0 && j > 0 {
      DistSymmetric(a, b, i - 1, j);
      DistSymmetric(a, b, i, j - 1);
      DistSymmetric(a, b, i - 1, j - 1);
      DistStep(a, b, i, j);
      DistStep(b, a, j, i);
    }
  }

  /** The distance never exceeds the longer prefix. */
  lemma {:induction false} DistBound(a: String, b: String, i: nat, j: nat)
    requires i <= |a| && j <= |b|
    ensures Dist(a, b, i, j) <= if i <= j then j else i
    decreases i + j
  {
    if i > 0 && j > 0 {
      DistBound(a, b, i - 1, j - 1);
    }
  }

  /** A text is at distance zero from itself. */
  lemma {:induction false} DistSelf(s: String, i: nat)
    requires i <= |s|
    ensures Dist(s, s, i, i) == 0
  {
    if i > 0 { DistSelf(s, i - 1); }
  }

  /** The distance is at least the difference in length. */
  lemma {:induction false} DistAtLeastLengthGap(a: String, b: String, i: nat, j: nat)
    requires i <= |a| && j <= |b|
    ensures Dist(a, b, i, j) >= (if i <= j then j - i else i - j)
    decreases i + j
  {
    if i > 0 && j > 0 {
      DistAtLeastLengthGap(a, b, i - 1, j);
      DistAtLeastLengthGap(a, b, i, j - 1);
      DistAtLeastLengthGap(a, b, i - 1, j - 1);
    }
  }

  /** Distance zero means equal prefixes. */
  lemma {:induction false} DistZeroMeansEqual(a: String, b: String, i: nat, j: nat)
    requires i <= |a| && j <= |b| && Dist(a, b, i, j) == 0
    ensures i == j && a[..i] == b[..j]
    decreases i + j
  {
    if i > 0 && j > 0 {
      DistAtLeastLengthGap(a, b, i - 1, j);
      DistAtLeastLengthGap(a, b, i, j - 1);
      DistZeroMeansEqual(a, b, i - 1, j - 1);
      assert a[..i] == a[..i - 1] + [a[i - 1]];
      assert b[..j] == b[..j - 1] + [b[j - 1]];
    }
  }

  /** The properties of levenshteinDistance: zero exactly on equal texts, the length of the
      other text against an empty one, symmetric, and at most the longer length. */
  lemma LevenshteinProperties(a: String, b: String)
    ensures Levenshtein(a, b) == 0 <==> a == b
    ensures a == [] ==> Levenshtein(a, b) == |b|
    ensures Levenshtein(a, b) == Levenshtein(b, a)
    ensures Levenshtein(a, b) <= if |a| <= |b| then |b| else |a|
  {
    if Levenshtein(a, b) == 0 {
      DistZeroMeansEqual(a, b, |a|, |b|);
      assert a == a[..|a|] && b == b[..|b|];
    }
    if a == b { DistSelf(a, |a|); }
    DistSymmetric(a, b, |a|, |b|);
    DistBound(a, b, |a|, |b|);
  }

  // ---------------------------------------------------------------- similarity

  /** calculateStringSimilarity: 1 for two empty texts, else 1 − distance / longer length;
      always in [0, 1], and 1 exactly for equal texts. */
  function StringSimilarity(s1: String, s2: String): (r: real)
    ensures 0.0 <= r <= 1.0
    ensures r == 1.0 <==> s1 == s2
  {
    LevenshteinProperties(s1, s2);
    var maxLength := if |s1| <= |s2| then |s2| else |s1|;
    if maxLength == 0 then 1.0
    else
      RatioInUnit(Levenshtein(s1, s2), maxLength);
      1.0 - (Levenshtein(s1, s2) as real) / (maxLength as real)
  }

  lemma RatioInUnit(x: nat, y: nat)
    requires 0 < y && x <= y
    ensures 0.0 <= (x as real) / (y as real) <= 1.0
    ensures (x as real) / (y as real) == 0.0 <==> x == 0
  {
    var q := (x as real) / (y as real);
    assert q * (y as real) == x as real;
  }

  /** areTermsSimilar: equal normalised forms, a variation, or similarity at least the
      threshold (0.8 by default). */
  predicate AreTermsSimilar(term1: String, term2: String, threshold: real) {
    SimilarNormalized(NormalizeTerm(term1), NormalizeTerm(term2), threshold)
  }

  predicate SimilarNormalized(n1: String, n2: String, threshold: real) {
    n1 == n2 || AreVariations(n1, n2) || StringSimilarity(n1, n2) >= threshold
  }

  const DefaultThreshold: real := 0.8

  /** Similarity of terms holds for equal normalised forms and does not depend on the order
      of the two terms. */
  lemma AreTermsSimilarProperties(term1: String, term2: String, threshold: real)
    ensures NormalizeTerm(term1) == NormalizeTerm(term2) ==> AreTermsSimilar(term1, term2, threshold)
    ensures AreTermsSimilar(term1, term2, threshold) == AreTermsSimilar(term2, term1, threshold)
  {
    SimilarNormalizedSymmetric(NormalizeTerm(term1), NormalizeTerm(term2), threshold);
  }

  lemma SimilarNormalizedSymmetric(n1: String, n2: String, threshold: real)
    ensures SimilarNormalized(n1, n2, threshold) == SimilarNormalized(n2, n1, threshold)
  {
    assert AreVariations(n1, n2) == AreVariations(n2, n1);
    SimilaritySymmetric(n1, n2);
  }

  lemma SimilaritySymmetric(s1: String, s2: String)
    ensures StringSimilarity(s1, s2) == StringSimilarity(s2, s1)
  {
    DistSymmetric(s1, s2, |s1|, |s2|);
  }

  // ---------------------------------------------------------------- tokens and language

  function NonWordToSpace(c: char): char {
    if IsWordChar(c) || IsJsSpace(c) then c else ' '
  }

  function LongToken(w: String): bool { |w| > 2 }

  /** tokenize: non-word characters become spaces, the text is split on whitespace runs, and
      only tokens longer than two characters are kept. */
  function Tokenize(text: String): (r: seq<String>)
    ensures forall k :: 0 <= k < |r| ==> |r[k]| > 2
    ensures forall k, i :: 0 <= k < |r| && 0 <= i < |r[k]| ==> IsWordChar(r[k][i])
  {
    var spaced := seq(|text|, i requires 0 <= i < |text| => NonWordToSpace(text[i]));
    var pieces := SplitRuns(spaced, IsJsSpace);
    var r := Filter(pieces, LongToken);
    SplitRunsPiecesHaveNoSeparator(spaced, IsJsSpace);
    forall k, i | 0 <= k < |r| && 0 <= i < |r[k]| ensures IsWordChar(r[k][i]) {
      assert r[k] in pieces;
      PieceCharsFrom(spaced, pieces, r[k], i);
    }
    r
  }

  /** A character of a split piece is a non-separator character of the split text. */
  lemma PieceCharsFrom(spaced: String, pieces: seq<String>, w: String, i: nat)
    requires pieces == SplitRuns(spaced, IsJsSpace) && w in pieces && i < |w|
    requires forall k :: 0 <= k < |pieces| ==> forall c :: c in pieces[k] ==> !IsJsSpace(c)
    requires forall n :: 0 <= n < |spaced| ==> IsWordChar(spaced[n]) || IsJsSpace(spaced[n])
    ensures IsWordChar(w[i])
  {
    SplitRunsPiecesFromText(spaced, IsJsSpace);
    assert w[i] in w;
  }

  /** Every character of every piece of a split occurs in the split text. */
  lemma {:induction false} SplitRunsPiecesFromText(s: String, sp: char -> bool)
    ensures forall k :: 0 <= k < |SplitRuns(s, sp)| ==> forall c :: c in SplitRuns(s, sp)[k] ==> c in s
    decreases |s|
  {
    if s != [] {
      if sp(s[0]) {
        var rest := DropRun(s, sp);
        DropRunFacts(s, sp);
        SplitRunsPiecesFromText(rest, sp);
        forall c | c in rest ensures c in s {
          var i :| 0 <= i < |rest| && rest[i] == c;
          assert s[|s| - |rest| + i] == c;
        }
      } else {
        SplitRunsPiecesFromText(s[1..], sp);
        var t := SplitRuns(s[1..], sp);
        assert SplitRuns(s, sp) == [[s[0]] + t[0]] + t[1..];
        forall c | c in s[1..] ensures c in s {
          var i :| 0 <= i < |s| - 1 && s[1..][i] == c;
          assert s[i + 1] == c;
        }
      }
    }
  }

  predicate IsHan(c: char) { 0x4E00 <= c as int <= 0x9FFF }

  const EnglishWords: seq<String> := ["the", "and", "is", "in", "to", "of", "a", "that", "it", "with"]

  function IsEnglishWord(w: String): bool { w in EnglishWords }

  datatype Language = Zh | En | Unknown

  /** detectLanguage: "zh" when any character lies in U+4E00–U+9FFF; otherwise "en" when more
      than a tenth of the tokens are common English words; otherwise "unknown". */
  function DetectLanguage(text: String): (r: Language)
    ensures r == Zh <==> exists i :: 0 <= i < |text| && IsHan(text[i])
    ensures r == En <==>
              (forall i :: 0 <= i < |text| ==> !IsHan(text[i]))
              && 10 * Count(Tokenize(Lower(text)), IsEnglishWord) > |Tokenize(Lower(text))|
  {
    if exists i :: 0 <= i < |text| && IsHan(text[i]) then Zh
    else
      var words := Tokenize(Lower(text));
      if (Count(words, IsEnglishWord) as real) > (|words| as real) * 0.1 then En else Unknown
  }
}
