/** The SEO module: it scores a piece of HTML-ish content for search engines, lists what to
    improve, applies the simplest of those improvements, and reports keyword densities and
    related keywords from a small built-in keyword database.

    The regular-expression scans of the source (tags, keyword patterns, the alt-attribute
    rewrite) are parameters: `Markup` holds the counts the tag patterns report, `matches`
    the number of matches of a keyword pattern, `valid` whether a keyword compiles as a
    pattern, and `addAlt` the result of the alt-attribute rewrite. */
module Seo {
  import opened Wrappers
  import opened Text
  import opened Collections
  import opened Grouping
  import opened Sorting

  // ---------------------------------------------------------------- readability

  /** A JavaScript number that is an integer or NaN. */
  datatype Num = Num(v: int) | NaN

  predicate IsSeoStop(c: char) { c in ".!?" }

  /** The sentences of `content.split(/[.!?]+/).filter(s => s.trim().length > 0)`. */
  function SentenceCount(content: String): nat {
    Count(SplitRuns(content, IsSeoStop), NotBlank)
  }

  /** `Math.max(0, Math.min(100, Math.round(x)))`. */
  function Score(x: real): (r: int)
    ensures 0 <= r <= 100
    ensures 0.0 <= x <= 100.0 ==> x - 0.5 < r as real <= x + 0.5
    ensures x >= 100.0 ==> r == 100
    ensures x <= 0.0 ==> r == 0
  {
    var n := Round(x);
    if n < 0 then 0 else if n > 100 then 100 else n
  }

  /** The score for `words` words in `sentences` sentences: 100 less twice the excess of
      the words per sentence over 10, rounded and clamped. */
  function SentenceScore(words: nat, sentences: nat): (r: int)
    requires sentences > 0
    ensures 0 <= r <= 100
  {
    Score(100.0 - ((words as real) / (sentences as real) - 10.0) * 2.0)
  }

  lemma QuotientBounds(w: real, v: real, n: real, b: real)
    requires n > 0.0
    ensures w <= b * n ==> w / n <= b
    ensures w >= b * n ==> w / n >= b
    ensures w <= v ==> w / n <= v / n
  {
  }

  /** Sentences of at most 10 words score 100, sentences of 60 words or more score 0, and
      more words in as many sentences never score higher. */
  lemma SentenceScoreFacts(words: nat, more: nat, sentences: nat)
    requires sentences > 0 && words <= more
    ensures words <= 10 * sentences ==> SentenceScore(words, sentences) == 100
    ensures words >= 60 * sentences ==> SentenceScore(words, sentences) == 0
    ensures SentenceScore(more, sentences) <= SentenceScore(words, sentences)
  {
    var n := sentences as real;
    QuotientBounds(words as real, more as real, n, 10.0);
    QuotientBounds(words as real, more as real, n, 60.0);
    var avg := (words as real) / n;
    var avgMore := (more as real) / n;
    RoundMonotone(100.0 - (avgMore - 10.0) * 2.0, 100.0 - (avg - 10.0) * 2.0);
  }

  /** calculateReadabilityScore as written. Without a sentence the quotient is
      `words / 0`: Infinity, which the clamp turns into 0, when there are words, and NaN,
      which `Math.min` and `Math.max` pass on, when there are none. */
  function ReadabilityAsWritten(content: String): Num {
    var sentences := SentenceCount(content);
    var words := WordCount(content, IsJsSpace);
    if sentences == 0 then (if words == 0 then NaN else Num(0))
    else Num(SentenceScore(words, sentences))
  }

  /** calculateReadabilityScore as intended: a score in [0, 100], 0 for a text without
      sentences; it agrees with the code wherever the code produces a number. */
  function Readability(content: String): (r: int)
    ensures 0 <= r <= 100
    ensures ReadabilityAsWritten(content).Num? ==> r == ReadabilityAsWritten(content).v
    ensures SentenceCount(content) == 0 ==> r == 0
  {
    var sentences := SentenceCount(content);
    if sentences == 0 then 0 else SentenceScore(WordCount(content, IsJsSpace), sentences)
  }

  /** The code's score is NaN exactly for blank content (the empty text included). */
  lemma ReadabilityNaNIffBlank(content: String)
    ensures ReadabilityAsWritten(content) == NaN <==> AllChars(content, IsJsSpace)
  {
    WordCountZeroIffBlank(content, IsJsSpace);
    if AllChars(content, IsJsSpace) {
      var pieces := SplitRuns(content, IsSeoStop);
      SplitRunsKeeps(content, IsSeoStop, IsJsSpace);
      forall k | 0 <= k < |pieces| ensures !NotBlank(pieces[k]) {
        TrimAll(pieces[k], IsJsSpace);
      }
      CountNone(pieces, NotBlank);
    }
  }

  // ---------------------------------------------------------------- keyword densities

  /** `content.split(/\s+/).length`: the pieces between white-space runs, empty end
      pieces included, so at least 1. */
  function PieceCount(content: String): nat {
    |SplitRuns(content, IsJsSpace)|
  }

  /** `(matches / pieces) * 100`: the density analyzeKeywords reports. */
  function RawDensity(content: String, matches: nat): (d: real)
    ensures d >= 0.0
    ensures d * (PieceCount(content) as real) == 100.0 * (matches as real)
  {
    (matches as real) / (PieceCount(content) as real) * 100.0
  }

  /** `Math.round(density * 100) / 100`: the density analyzeContent keeps, to two
      decimals. */
  function RoundedDensity(content: String, matches: nat): (d: real)
    ensures RawDensity(content, matches) - 0.005 < d <= RawDensity(content, matches) + 0.005
  {
    (Round(RawDensity(content, matches) * 100.0) as real) / 100.0
  }

  /** The keywords a density loop records, in order. */
  function Recorded(keywords: seq<String>): (r: seq<String>)
    ensures forall k :: k in r <==> k in keywords && Recordable(k)
  {
    Filter(keywords, Recordable)
  }

  /** The density record of analyzeContent, by keyword. */
  function RoundedDensities(content: String, keywords: seq<String>, matches: String -> nat)
    : map<String, real>
  {
    map k | k in keywords && Recordable(k) :: RoundedDensity(content, matches(k))
  }

  /** The density record of analyzeKeywords, by keyword. */
  function RawDensities(content: String, keywords: seq<String>, matches: String -> nat)
    : map<String, real>
  {
    map k | k in keywords && Recordable(k) :: RawDensity(content, matches(k))
  }

  /** One keyword more: a recordable one has its density (re)assigned and is a new key
      exactly when it had no density yet; "__proto__" changes nothing. */
  lemma DensityStep(content: String, keywords: seq<String>, matches: String -> nat, i: nat)
    requires i < |keywords|
    ensures var k := keywords[i];
            var before := RoundedDensities(content, keywords[..i], matches);
            RoundedDensities(content, keywords[..i + 1], matches)
            == if Recordable(k) then before[k := RoundedDensity(content, matches(k))] else before
    ensures var k := keywords[i];
            Dedup(Recorded(keywords[..i + 1]))
            == if !Recordable(k) || k in RoundedDensities(content, keywords[..i], matches)
               then Dedup(Recorded(keywords[..i]))
               else Dedup(Recorded(keywords[..i])) + [k]
  {
    var k := keywords[i];
    var ks := keywords[..i];
    assert keywords[..i + 1] == ks + [k];
    DensitiesSnoc(content, ks, k, matches);
    var rs := Recorded(ks);
    assert Recorded(keywords[..i + 1]) == rs + (if Recordable(k) then [k] else []) by {
      FilterPrefixStep(keywords, i, Recordable);
    }
    if Recordable(k) {
      assert k in RoundedDensities(content, ks, matches) <==> k in rs;
      DedupSnoc(rs, k);
      DedupMember(rs, k);
    } else {
      assert rs + [] == rs;
    }
  }

  lemma DensitiesSnoc(content: String, ks: seq<String>, k: String, matches: String -> nat)
    ensures RoundedDensities(content, ks + [k], matches)
            == if Recordable(k) then RoundedDensities(content, ks, matches)[k := RoundedDensity(content, matches(k))]
               else RoundedDensities(content, ks, matches)
  {
  }

  /** The density loop of analyzeContent: the record's keys in insertion order and its
      values. */
  method KeywordDensity(content: String, keywords: seq<String>, matches: String -> nat)
    returns (keys: seq<String>, density: map<String, real>)
    ensures keys == Dedup(Recorded(keywords))
    ensures density == RoundedDensities(content, keywords, matches)
  {
    keys := [];
    density := map[];
    for i := 0 to |keywords|
      invariant keys == Dedup(Recorded(keywords[..i]))
      invariant density == RoundedDensities(content, keywords[..i], matches)
    {
      var k := keywords[i];
      DensityStep(content, keywords, matches, i);
      if Recordable(k) {
        if k !in density {
          keys := keys + [k];
        }
        density := density[k := RoundedDensity(content, matches(k))];
      }
    }
    assert keywords[..|keywords|] == keywords;
  }

  // ---------------------------------------------------------------- object key order

  /** A property key that is an array index (section 6.1.7 of ECMA-262): the canonical
      decimal text of an integer below 2^32 - 1. */
  predicate IsArrayIndex(k: String) {
    |k| >= 1 && AllChars(k, IsAsciiDigit) && (|k| == 1 || k[0] != '0')
    && DigitsValue(k) < 0xFFFF_FFFF
  }

  predicate IsOtherKey(k: String) {
    !IsArrayIndex(k)
  }

  predicate IndexNotAfter(a: String, b: String) {
    DigitsValue(a) <= DigitsValue(b)
  }

  /** The order in which `Object.entries` lists the keys of an ordinary object whose keys
      were added in the order `added` (OrdinaryOwnPropertyKeys, section 10.1.11.1 of
      ECMA-262): the array indices first, in ascending numeric order, then the other keys
      in the order they were added. */
  function OwnKeys(added: seq<String>): seq<String> {
    SortBy(Filter(added, IsArrayIndex), IndexNotAfter) + Filter(added, IsOtherKey)
  }

  /** Every key added is listed as often as it was added. */
  lemma OwnKeysPermutes(added: seq<String>)
    ensures multiset(OwnKeys(added)) == multiset(added)
  {
    FilterSplits(added, IsArrayIndex, IsOtherKey);
  }

  /** Exactly the keys added are listed. */
  lemma OwnKeysMembers(added: seq<String>)
    ensures forall k :: k in OwnKeys(added) <==> k in added
  {
    OwnKeysPermutes(added);
    forall k ensures k in OwnKeys(added) <==> k in added {
      assert k in OwnKeys(added) <==> k in multiset(OwnKeys(added));
      assert k in added <==> k in multiset(added);
    }
  }

  /** Keys added once are listed once. */
  lemma OwnKeysDistinct(added: seq<String>)
    requires Distinct(added)
    ensures Distinct(OwnKeys(added))
  {
    var indices := Filter(added, IsArrayIndex);
    var sorted := SortBy(indices, IndexNotAfter);
    FilterDistinct(added, IsArrayIndex);
    FilterDistinct(added, IsOtherKey);
    SortByDistinct(indices, IndexNotAfter);
    SortedAreIndices(added);
    DistinctAppend(sorted, Filter(added, IsOtherKey));
  }

  lemma SortedAreIndices(added: seq<String>)
    ensures forall x :: x in SortBy(Filter(added, IsArrayIndex), IndexNotAfter) ==> IsArrayIndex(x)
  {
    var indices := Filter(added, IsArrayIndex);
    forall x | x in SortBy(indices, IndexNotAfter) ensures IsArrayIndex(x) {
      assert x in multiset(SortBy(indices, IndexNotAfter));
    }
  }

  lemma IndexOrderTotal()
    ensures TotalPreorder(IndexNotAfter)
  {
  }

  /** The array indices come first, in ascending numeric order. */
  lemma OwnKeysIndicesFirst(added: seq<String>)
    ensures var r := OwnKeys(added);
            forall i, j :: 0 <= i < j < |r| && IsArrayIndex(r[j]) ==>
              IsArrayIndex(r[i]) && DigitsValue(r[i]) <= DigitsValue(r[j])
  {
    var sorted := SortBy(Filter(added, IsArrayIndex), IndexNotAfter);
    var others := Filter(added, IsOtherKey);
    var r := OwnKeys(added);
    SortedAreIndices(added);
    IndexOrderTotal();
    SortBySorted(Filter(added, IsArrayIndex), IndexNotAfter);
    forall i, j | 0 <= i < j < |r| && IsArrayIndex(r[j])
      ensures IsArrayIndex(r[i]) && DigitsValue(r[i]) <= DigitsValue(r[j])
    {
      assert r[i] == sorted[i] && r[j] == sorted[j];
      assert sorted[i] in sorted;
    }
  }

  /** The other keys keep the order they were added in. */
  lemma OwnKeysOthersInOrder(added: seq<String>)
    ensures Filter(OwnKeys(added), IsOtherKey) == Filter(added, IsOtherKey)
  {
    var sorted := SortBy(Filter(added, IsArrayIndex), IndexNotAfter);
    SortedAreIndices(added);
    FilterAppend(sorted, Filter(added, IsOtherKey), IsOtherKey);
    FilterRejectsAll(sorted, IsOtherKey);
    FilterIdempotent(added, IsOtherKey);
  }

  // ---------------------------------------------------------------- content analysis

  /** The counts the tag patterns of analyzeContent report: `<h1>…</h1>` elements,
      `<h1>`…`<h6>` headings, `<img>` tags and `<img>` tags mentioning `alt`. */
  datatype Markup = Markup(h1Count: nat, headingCount: nat, images: nat, imagesWithAlt: nat)

  /** What analyzeContent returns and the rest of the module reads. */
  datatype Analysis = Analysis(readability: Num, markup: Markup, keys: seq<String>,
                               density: map<String, real>)

  /** Every key of the analysis has a density. */
  predicate Keyed(a: Analysis) {
    forall i :: 0 <= i < |a.keys| ==> a.keys[i] in a.density
  }

  /** The density record lists every keyword once, except "__proto__", which it never
      holds. */
  lemma KeysOfKeywords(keywords: seq<String>)
    ensures Distinct(OwnKeys(Dedup(Recorded(keywords))))
    ensures forall k :: k in OwnKeys(Dedup(Recorded(keywords))) <==> k in keywords && k != "__proto__"
  {
    OwnKeysMembers(Dedup(Recorded(keywords)));
    OwnKeysDistinct(Dedup(Recorded(keywords)));
    DedupMembers(Recorded(keywords));
  }

  function AnalysisOf(content: String, keywords: seq<String>, tags: Markup,
                      matches: String -> nat): (a: Analysis)
    ensures Keyed(a) && Distinct(a.keys)
    ensures forall k :: k in a.keys <==> k in keywords && k != "__proto__"
  {
    var keys := OwnKeys(Dedup(Recorded(keywords)));
    KeysOfKeywords(keywords);
    Analysis(ReadabilityAsWritten(content), tags, keys, RoundedDensities(content, keywords, matches))
  }

  /** The analysis lists the keywords the way `Object.entries` lists the density record:
      each once, the array indices first in ascending numeric order, then the other keywords
      in the order they first occur. */
  lemma AnalysisKeyOrder(content: String, keywords: seq<String>, tags: Markup, matches: String -> nat)
    ensures var ks := AnalysisOf(content, keywords, tags, matches).keys;
            (forall i, j :: 0 <= i < j < |ks| && IsArrayIndex(ks[j]) ==>
               IsArrayIndex(ks[i]) && DigitsValue(ks[i]) <= DigitsValue(ks[j]))
            && Filter(ks, IsOtherKey) == Filter(Dedup(Recorded(keywords)), IsOtherKey)
  {
    var d := Dedup(Recorded(keywords));
    assert AnalysisOf(content, keywords, tags, matches).keys == OwnKeys(d);
    OwnKeysIndicesFirst(d);
    OwnKeysOthersInOrder(d);
  }

  method AnalyzeContent(content: String, keywords: seq<String>, tags: Markup,
                        matches: String -> nat) returns (a: Analysis)
    ensures a == AnalysisOf(content, keywords, tags, matches)
  {
    var added, density := KeywordDensity(content, keywords, matches);
    a := Analysis(ReadabilityAsWritten(content), tags, OwnKeys(added), density);
  }

  // ---------------------------------------------------------------- suggestions

  datatype SuggestionKind = Keyword | Structure | Meta | Content | Technical
  datatype Priority = High | Medium | Low

  /** A suggestion: its type, its priority and its title. */
  datatype SeoSuggestion = SeoSuggestion(kind: SuggestionKind, priority: Priority, title: String)

  const AddH1: String := "添加H1标题"
  const FewerH1: String := "优化H1标题数量"
  const AddAlt: String := "添加图片Alt属性"
  const Lengthen: String := "增加内容长度"
  const Restructure: String := "改善内容结构"

  function IncreaseTitle(k: String): String { "增加关键词\"" + k + "\"的使用" }
  function DecreaseTitle(k: String): String { "减少关键词\"" + k + "\"的使用" }

  /** Different keywords give different titles. */
  lemma TitlesName(k: String, j: String)
    ensures IncreaseTitle(k) == IncreaseTitle(j) ==> k == j
    ensures DecreaseTitle(k) == DecreaseTitle(j) ==> k == j
  {
    if IncreaseTitle(k) == IncreaseTitle(j) {
      assert IncreaseTitle(k)[6..6 + |k|] == k;
      assert IncreaseTitle(j)[6..6 + |j|] == j;
    }
    if DecreaseTitle(k) == DecreaseTitle(j) {
      assert DecreaseTitle(k)[6..6 + |k|] == k;
      assert DecreaseTitle(j)[6..6 + |j|] == j;
    }
  }

  function TitleSuggestions(h1Count: nat): seq<SeoSuggestion> {
    (if h1Count == 0 then [SeoSuggestion(Structure, High, AddH1)] else [])
    + (if h1Count > 1 then [SeoSuggestion(Structure, Medium, FewerH1)] else [])
  }

  /** The suggestion for one keyword of density `d`, if any. */
  function KeywordSuggestion(k: String, d: real): seq<SeoSuggestion> {
    if d < 0.5 then [SeoSuggestion(Keyword, Medium, IncreaseTitle(k))]
    else if d > 3.0 then [SeoSuggestion(Keyword, High, DecreaseTitle(k))]
    else []
  }

  function KeywordSuggestions(keys: seq<String>, density: map<String, real>): seq<SeoSuggestion>
    requires forall i :: 0 <= i < |keys| ==> keys[i] in density
  {
    if keys == [] then []
    else
      var k := keys[|keys| - 1];
      KeywordSuggestions(keys[..|keys| - 1], density) + KeywordSuggestion(k, density[k])
  }

  /** The image, length and heading suggestions, by whether each check fails. */
  function CheckSuggestions(missingAlt: bool, short: bool, flat: bool): seq<SeoSuggestion> {
    (if missingAlt then [SeoSuggestion(Technical, Medium, AddAlt)] else [])
    + (if short then [SeoSuggestion(Content, High, Lengthen)] else [])
    + (if flat then [SeoSuggestion(Structure, Medium, Restructure)] else [])
  }

  function OtherSuggestions(m: Markup, content: String): seq<SeoSuggestion> {
    CheckSuggestions(m.images > 0 && m.imagesWithAlt < m.images, PieceCount(content) < 300,
                     m.headingCount < 2)
  }

  /** generateSuggestions: the title checks, one suggestion per keyword whose density is
      off, then the image, length and heading checks, in that order. */
  function Suggestions(a: Analysis, content: String): seq<SeoSuggestion>
    requires Keyed(a)
  {
    TitleSuggestions(a.markup.h1Count) + KeywordSuggestions(a.keys, a.density)
    + OtherSuggestions(a.markup, content)
  }

  method GenerateSuggestions(a: Analysis, content: String) returns (s: seq<SeoSuggestion>)
    requires Keyed(a)
    ensures s == Suggestions(a, content)
  {
    s := TitleSuggestions(a.markup.h1Count);
    for i := 0 to |a.keys|
      invariant s == TitleSuggestions(a.markup.h1Count) + KeywordSuggestions(a.keys[..i], a.density)
    {
      var k := a.keys[i];
      assert a.keys[..i + 1][..i] == a.keys[..i];
      var d := a.density[k];
      if d < 0.5 {
        s := s + [SeoSuggestion(Keyword, Medium, IncreaseTitle(k))];
      } else if d > 3.0 {
        s := s + [SeoSuggestion(Keyword, High, DecreaseTitle(k))];
      }
    }
    assert a.keys[..|a.keys|] == a.keys;
    s := s + OtherSuggestions(a.markup, content);
  }

  /** Each key's suggestion is among the keyword suggestions, and each keyword suggestion
      is the suggestion of some key. */
  lemma {:induction false} KeywordSuggestionsMembers(keys: seq<String>, density: map<String, real>,
                                                     x: SeoSuggestion)
    requires forall i :: 0 <= i < |keys| ==> keys[i] in density
    ensures x in KeywordSuggestions(keys, density)
            <==> exists i :: 0 <= i < |keys| && x in KeywordSuggestion(keys[i], density[keys[i]])
  {
    if keys != [] {
      var n := |keys| - 1;
      var init := keys[..n];
      KeywordSuggestionsMembers(init, density, x);
      assert forall i :: 0 <= i < n ==> init[i] == keys[i];
    }
  }

  lemma {:induction false} KeywordSuggestionsAreKeywords(keys: seq<String>,
                                                         density: map<String, real>)
    requires forall i :: 0 <= i < |keys| ==> keys[i] in density
    ensures forall x :: x in KeywordSuggestions(keys, density) ==> x.kind == Keyword
  {
    if keys != [] {
      KeywordSuggestionsAreKeywords(keys[..|keys| - 1], density);
    }
  }

  /** The title suggestions hold exactly the two title notes their conditions call for. */
  lemma TitleSuggestionsMembers(h1Count: nat)
    ensures var t := TitleSuggestions(h1Count);
            (SeoSuggestion(Structure, High, AddH1) in t <==> h1Count == 0)
            && (SeoSuggestion(Structure, Medium, FewerH1) in t <==> h1Count > 1)
            && forall x :: x in t ==> (x.title == AddH1 || x.title == FewerH1) && x.kind == Structure
  {
  }

  /** The check suggestions hold exactly the three notes their conditions call for. */
  lemma CheckSuggestionsMembers(missingAlt: bool, short: bool, flat: bool)
    ensures var o := CheckSuggestions(missingAlt, short, flat);
            (SeoSuggestion(Technical, Medium, AddAlt) in o <==> missingAlt)
            && (SeoSuggestion(Content, High, Lengthen) in o <==> short)
            && (SeoSuggestion(Structure, Medium, Restructure) in o <==> flat)
            && forall x :: x in o ==>
                 (x.title == AddAlt || x.title == Lengthen || x.title == Restructure) && x.kind != Keyword
  {
  }

  /** The title, image, length and heading suggestions of generateSuggestions, each
      exactly when its condition holds. */
  lemma SuggestionsFixed(a: Analysis, content: String)
    requires Keyed(a)
    ensures var s := Suggestions(a, content);
            var m := a.markup;
            (SeoSuggestion(Structure, High, AddH1) in s <==> m.h1Count == 0)
            && (SeoSuggestion(Structure, Medium, FewerH1) in s <==> m.h1Count > 1)
            && (SeoSuggestion(Technical, Medium, AddAlt) in s
                <==> m.images > 0 && m.imagesWithAlt < m.images)
            && (SeoSuggestion(Content, High, Lengthen) in s <==> PieceCount(content) < 300)
            && (SeoSuggestion(Structure, Medium, Restructure) in s <==> m.headingCount < 2)
  {
    var m := a.markup;
    var t := TitleSuggestions(m.h1Count);
    var ks := KeywordSuggestions(a.keys, a.density);
    var o := OtherSuggestions(m, content);
    assert Suggestions(a, content) == t + ks + o;
    KeywordSuggestionsAreKeywords(a.keys, a.density);
    TitleSuggestionsMembers(m.h1Count);
    CheckSuggestionsMembers(m.images > 0 && m.imagesWithAlt < m.images, PieceCount(content) < 300,
                            m.headingCount < 2);
    assert |AddH1| != |AddAlt| && AddH1[0] != Lengthen[0] && AddH1[0] != Restructure[0];
    assert |FewerH1| != |AddAlt| && |FewerH1| != |Lengthen| && |FewerH1| != |Restructure|;
    assert |AddH1| != |FewerH1|;
  }

  /** Among the keyword suggestions, the one asking for more of `k` is there exactly when
      `k` is a key below half a per cent, the one asking for less exactly when it is a key
      above three per cent. */
  lemma KeywordSuggestionsFor(keys: seq<String>, density: map<String, real>, k: String)
    requires forall i :: 0 <= i < |keys| ==> keys[i] in density
    ensures var ks := KeywordSuggestions(keys, density);
            (SeoSuggestion(Keyword, Medium, IncreaseTitle(k)) in ks <==> k in keys && density[k] < 0.5)
            && (SeoSuggestion(Keyword, High, DecreaseTitle(k)) in ks <==> k in keys && density[k] > 3.0)
  {
    var ks := KeywordSuggestions(keys, density);
    var inc := SeoSuggestion(Keyword, Medium, IncreaseTitle(k));
    var dec := SeoSuggestion(Keyword, High, DecreaseTitle(k));
    KeywordSuggestionsMembers(keys, density, inc);
    KeywordSuggestionsMembers(keys, density, dec);
    if inc in ks {
      var i :| 0 <= i < |keys| && inc in KeywordSuggestion(keys[i], density[keys[i]]);
      TitlesName(k, keys[i]);
    }
    if dec in ks {
      var i :| 0 <= i < |keys| && dec in KeywordSuggestion(keys[i], density[keys[i]]);
      TitlesName(k, keys[i]);
    }
    if k in keys {
      var i :| 0 <= i < |keys| && keys[i] == k;
      assert density[k] < 0.5 ==> inc in KeywordSuggestion(keys[i], density[keys[i]]);
      assert density[k] > 3.0 ==> dec in KeywordSuggestion(keys[i], density[keys[i]]);
    }
  }

  /** The suggestion about a keyword: more of it exactly when it is a target below half a
      per cent, less of it exactly when it is a target above three per cent. */
  lemma SuggestionsForKeyword(a: Analysis, content: String, k: String)
    requires Keyed(a)
    ensures var s := Suggestions(a, content);
            (SeoSuggestion(Keyword, Medium, IncreaseTitle(k)) in s
             <==> k in a.keys && a.density[k] < 0.5)
            && (SeoSuggestion(Keyword, High, DecreaseTitle(k)) in s
                <==> k in a.keys && a.density[k] > 3.0)
  {
    var m := a.markup;
    var t := TitleSuggestions(m.h1Count);
    var ks := KeywordSuggestions(a.keys, a.density);
    var o := OtherSuggestions(m, content);
    assert Suggestions(a, content) == t + ks + o;
    TitleSuggestionsMembers(m.h1Count);
    CheckSuggestionsMembers(m.images > 0 && m.imagesWithAlt < m.images, PieceCount(content) < 300,
                            m.headingCount < 2);
    KeywordSuggestionsFor(a.keys, a.density, k);
  }

  /** At most four suggestions besides one per keyword. */
  lemma {:induction false} SuggestionsCount(a: Analysis, content: String)
    requires Keyed(a)
    ensures |Suggestions(a, content)| <= 4 + |a.keys|
  {
    KeywordSuggestionsCount(a.keys, a.density);
  }

  lemma {:induction false} KeywordSuggestionsCount(keys: seq<String>, density: map<String, real>)
    requires forall i :: 0 <= i < |keys| ==> keys[i] in density
    ensures |KeywordSuggestions(keys, density)| <= |keys|
  {
    if keys != [] {
      KeywordSuggestionsCount(keys[..|keys| - 1], density);
    }
  }

  // ---------------------------------------------------------------- optimisation

  /** The heading optimizeContent adds: the first target keyword, or a stock title when
      there is none or it is empty. */
  function MainKeyword(keywords: seq<String>): String {
    if keywords != [] && keywords[0] != [] then keywords[0] else "内容标题"
  }

  function Titled(heading: String, content: String): String {
    "<h1>" + heading + "</h1>\n" + content
  }

  /** One suggestion's rewrite: a missing `<h1>` is added before the content, and images get
      an alt attribute; other suggestions change nothing. */
  function OptimizeStep(content: String, s: SeoSuggestion, heading: String,
                        addAlt: String -> String): String
  {
    match s.kind
    case Structure =>
      if Contains(s.title, AddH1) && !Contains(content, "<h1>") then Titled(heading, content)
      else content
    case Technical => if Contains(s.title, "图片Alt属性") then addAlt(content) else content
    case _ => content
  }

  function Optimized(content: String, sugs: seq<SeoSuggestion>, heading: String,
                     addAlt: String -> String): String
  {
    if sugs == [] then content
    else OptimizeStep(Optimized(content, sugs[..|sugs| - 1], heading, addAlt), sugs[|sugs| - 1],
                      heading, addAlt)
  }

  /** optimizeContent. */
  method OptimizeContent(content: String, sugs: seq<SeoSuggestion>, keywords: seq<String>,
                         addAlt: String -> String) returns (r: String)
    ensures r == Optimized(content, sugs, MainKeyword(keywords), addAlt)
  {
    r := content;
    for i := 0 to |sugs|
      invariant r == Optimized(content, sugs[..i], MainKeyword(keywords), addAlt)
    {
      assert sugs[..i + 1][..i] == sugs[..i];
      var s := sugs[i];
      match s.kind {
        case Structure =>
          if Contains(s.title, AddH1) && !Contains(r, "<h1>") {
            r := Titled(MainKeyword(keywords), r);
          }
        case Technical =>
          if Contains(s.title, "图片Alt属性") {
            r := addAlt(r);
          }
        case _ =>
      }
    }
    assert sugs[..|sugs|] == sugs;
  }

  lemma {:induction false} OptimizedAppend(content: String, xs: seq<SeoSuggestion>,
                                           ys: seq<SeoSuggestion>, heading: String,
                                           addAlt: String -> String)
    ensures Optimized(content, xs + ys, heading, addAlt)
            == Optimized(Optimized(content, xs, heading, addAlt), ys, heading, addAlt)
  {
    if ys == [] {
      assert xs + ys == xs;
    } else {
      var n := |ys| - 1;
      assert (xs + ys)[..|xs + ys| - 1] == xs + ys[..n];
      OptimizedAppend(content, xs, ys[..n], heading, addAlt);
    }
  }

  /** Keyword suggestions rewrite nothing. */
  lemma {:induction false} KeywordSuggestionsKeep(content: String, keys: seq<String>,
                                                  density: map<String, real>, heading: String,
                                                  addAlt: String -> String)
    requires forall i :: 0 <= i < |keys| ==> keys[i] in density
    ensures Optimized(content, KeywordSuggestions(keys, density), heading, addAlt) == content
  {
    if keys != [] {
      var n := |keys| - 1;
      var k := keys[n];
      KeywordSuggestionsKeep(content, keys[..n], density, heading, addAlt);
      OptimizedAppend(content, KeywordSuggestions(keys[..n], density),
                      KeywordSuggestion(k, density[k]), heading, addAlt);
      assert KeywordSuggestion(k, density[k]) == []
             || Optimized(content, KeywordSuggestion(k, density[k]), heading, addAlt) == content;
    }
  }

  lemma LacksFirstChar(s: String, pat: String)
    requires pat != [] && pat[0] !in s
    ensures !Contains(s, pat)
  {
    forall j ensures !IsAt(s, pat, j) {
      if 0 <= j && j + |pat| <= |s| {
        assert s[j..j + |pat|][0] == s[j];
      }
    }
  }

  lemma OptimizedOne(content: String, x: SeoSuggestion, heading: String,
                     addAlt: String -> String)
    ensures Optimized(content, [x], heading, addAlt) == OptimizeStep(content, x, heading, addAlt)
  {
    assert [x][..0] == [];
  }

  /** The title suggestions add the title when the content has no `<h1>` element and no
      literal `<h1>`. */
  lemma OptimizeTitles(content: String, h1Count: nat, heading: String, addAlt: String -> String)
    ensures Optimized(content, TitleSuggestions(h1Count), heading, addAlt)
            == if h1Count == 0 && !Contains(content, "<h1>") then Titled(heading, content)
               else content
  {
    var t := TitleSuggestions(h1Count);
    if h1Count == 0 {
      assert t == [SeoSuggestion(Structure, High, AddH1)];
      TitleMatches();
      OptimizedOne(content, t[0], heading, addAlt);
    } else if h1Count > 1 {
      assert t == [SeoSuggestion(Structure, Medium, FewerH1)];
      TitleMatches();
      OptimizedOne(content, t[0], heading, addAlt);
    } else {
      assert t == [];
    }
  }

  /** Which titles the rewrites react to. */
  lemma TitleMatches()
    ensures Contains(AddH1, AddH1) && Contains(AddAlt, "图片Alt属性")
    ensures !Contains(FewerH1, AddH1) && !Contains(Restructure, AddH1)
  {
    assert IsAt(AddH1, AddH1, 0);
    assert IsAt(AddAlt, "图片Alt属性", 2);
    LacksFirstChar(FewerH1, AddH1);
    LacksFirstChar(Restructure, AddH1);
  }

  /** Suggestions about length and headings rewrite nothing. */
  lemma {:induction false} OptimizeKeeps(c: String, xs: seq<SeoSuggestion>, heading: String,
                                         addAlt: String -> String)
    requires forall i :: 0 <= i < |xs| ==> xs[i].kind == Content || xs[i].title == Restructure
    ensures Optimized(c, xs, heading, addAlt) == c
  {
    if xs != [] {
      OptimizeKeeps(c, xs[..|xs| - 1], heading, addAlt);
      TitleMatches();
    }
  }

  /** Of the check suggestions only the image one rewrites, with the alt-attribute pass. */
  lemma OptimizeChecks(c: String, missingAlt: bool, short: bool, flat: bool, heading: String,
                       addAlt: String -> String)
    ensures Optimized(c, CheckSuggestions(missingAlt, short, flat), heading, addAlt)
            == if missingAlt then addAlt(c) else c
  {
    var img := if missingAlt then [SeoSuggestion(Technical, Medium, AddAlt)] else [];
    var rest := (if short then [SeoSuggestion(Content, High, Lengthen)] else [])
                + (if flat then [SeoSuggestion(Structure, Medium, Restructure)] else []);
    assert CheckSuggestions(missingAlt, short, flat) == img + rest;
    var c2 := Optimized(c, img, heading, addAlt);
    assert Optimized(c, img + rest, heading, addAlt) == Optimized(c2, rest, heading, addAlt) by {
      OptimizedAppend(c, img, rest, heading, addAlt);
    }
    assert c2 == if missingAlt then addAlt(c) else c by {
      if missingAlt {
        TitleMatches();
        OptimizedOne(c, img[0], heading, addAlt);
      }
    }
    assert Optimized(c2, rest, heading, addAlt) == c2 by {
      OptimizeKeeps(c2, rest, heading, addAlt);
    }
  }

  /** Of the other suggestions only the image one rewrites, with the alt-attribute pass. */
  lemma OptimizeOthers(content: String, c: String, m: Markup, heading: String,
                       addAlt: String -> String)
    ensures Optimized(c, OtherSuggestions(m, content), heading, addAlt)
            == if m.images > 0 && m.imagesWithAlt < m.images then addAlt(c) else c
  {
    OptimizeChecks(c, m.images > 0 && m.imagesWithAlt < m.images, PieceCount(content) < 300,
                   m.headingCount < 2, heading, addAlt);
  }

  /** The rewrites that follow from the generated suggestions: a title made of the main
      keyword is put first when the content has no `<h1>` element and no literal `<h1>`,
      and the alt-attribute rewrite runs when an image lacks alt text; nothing else
      changes. */
  lemma OptimizeGenerated(a: Analysis, content: String, keywords: seq<String>,
                          addAlt: String -> String)
    requires Keyed(a)
    ensures var m := a.markup;
            var titled := if m.h1Count == 0 && !Contains(content, "<h1>")
                          then Titled(MainKeyword(keywords), content) else content;
            Optimized(content, Suggestions(a, content), MainKeyword(keywords), addAlt)
            == if m.images > 0 && m.imagesWithAlt < m.images then addAlt(titled) else titled
  {
    var m := a.markup;
    var h := MainKeyword(keywords);
    var t := TitleSuggestions(m.h1Count);
    var ks := KeywordSuggestions(a.keys, a.density);
    var o := OtherSuggestions(m, content);
    OptimizedAppend(content, t + ks, o, h, addAlt);
    OptimizedAppend(content, t, ks, h, addAlt);
    OptimizeTitles(content, m.h1Count, h, addAlt);
    var c1 := Optimized(content, t, h, addAlt);
    KeywordSuggestionsKeep(c1, a.keys, a.density, h, addAlt);
    OptimizeOthers(content, c1, m, h, addAlt);
  }

  // ---------------------------------------------------------------- keyword analysis

  datatype KeywordData = KeywordData(searchVolume: nat, difficulty: nat, related: seq<String>)

  /** The keyword database loadKeywordDatabase fills. */
  const DefaultDatabase: map<String, KeywordData> := map[
    "SEO优化" := KeywordData(5000, 65, ["搜索引擎优化", "网站优化", "SEO技巧"]),
    "内容营销" := KeywordData(3200, 58, ["内容策略", "营销内容", "内容创作"]),
    "关键词研究" := KeywordData(2800, 62, ["关键词分析", "关键词工具", "关键词策略"]),
    "网站排名" := KeywordData(4500, 70, ["搜索排名", "SERP", "排名优化"]),
    "用户体验" := KeywordData(6000, 55, ["UX设计", "用户界面", "可用性"])
  ]

  /** `slice(0, 2)`. */
  function FirstTwo(xs: seq<String>): (r: seq<String>)
    ensures |r| == if |xs| < 2 then |xs| else 2
    ensures r == xs[..|r|]
  {
    if |xs| < 2 then xs else xs[..2]
  }

  /** The related keywords analyzeKeywords suggests: the first two of each target keyword
      the database knows, a keyword that is targeted twice contributing twice. */
  function Related(db: map<String, KeywordData>, keywords: seq<String>): seq<String> {
    if keywords == [] then []
    else
      var k := keywords[|keywords| - 1];
      Related(db, keywords[..|keywords| - 1]) + (if k in db then FirstTwo(db[k].related) else [])
  }

  datatype KeywordAnalysis = KeywordAnalysis(density: map<String, real>, suggestions: seq<String>)

  /** analyzeKeywords: the unrounded densities and the related keywords. */
  method AnalyzeKeywords(content: String, keywords: seq<String>, matches: String -> nat,
                         db: map<String, KeywordData>) returns (r: KeywordAnalysis)
    ensures r == KeywordAnalysis(RawDensities(content, keywords, matches), Related(db, keywords))
  {
    var density: map<String, real> := map[];
    var related: seq<String> := [];
    for i := 0 to |keywords|
      invariant density == RawDensities(content, keywords[..i], matches)
      invariant related == Related(db, keywords[..i])
    {
      var k := keywords[i];
      assert keywords[..i + 1] == keywords[..i] + [k];
      assert keywords[..i + 1][..i] == keywords[..i];
      if Recordable(k) {
        density := density[k := RawDensity(content, matches(k))];
      }
      if k in db {
        related := related + FirstTwo(db[k].related);
      }
    }
    assert keywords[..|keywords|] == keywords;
    r := KeywordAnalysis(density, related);
  }

  /** Every related keyword comes from the entry of a target keyword, at most two per
      target. */
  lemma {:induction false} RelatedFacts(db: map<String, KeywordData>, keywords: seq<String>)
    ensures |Related(db, keywords)| <= 2 * |keywords|
    ensures forall r :: r in Related(db, keywords)
              ==> exists k :: k in keywords && k in db && r in db[k].related
  {
    if keywords != [] {
      var n := |keywords| - 1;
      var k := keywords[n];
      RelatedFacts(db, keywords[..n]);
      var extra := if k in db then FirstTwo(db[k].related) else [];
      forall r | r in Related(db, keywords)
        ensures exists j :: j in keywords && j in db && r in db[j].related
      {
        if r in Related(db, keywords[..n]) {
          var j :| j in keywords[..n] && j in db && r in db[j].related;
          assert j in keywords;
        } else {
          assert r in extra;
          assert k in keywords;
        }
      }
    }
  }

  /** With a database whose entries all list two related keywords or more, each known
      target keyword brings exactly two. */
  lemma {:induction false} RelatedTwoEach(db: map<String, KeywordData>, keywords: seq<String>)
    requires forall k :: k in db ==> |db[k].related| >= 2
    ensures |Related(db, keywords)| == 2 * Count(keywords, k => k in db)
  {
    if keywords != [] {
      var n := |keywords| - 1;
      var k := keywords[n];
      var xs := keywords[..n];
      RelatedTwoEach(db, xs);
      assert |Related(db, keywords)| == |Related(db, xs)| + (if k in db then 2 else 0) by {
        assert k in db ==> |FirstTwo(db[k].related)| == 2;
      }
      assert xs + [k] == keywords;
      CountSnoc(xs, k, k => k in db);
    }
  }

  /** With the built-in database each known target keyword brings exactly two. */
  lemma RelatedFromDefaults(keywords: seq<String>)
    ensures |Related(DefaultDatabase, keywords)| == 2 * Count(keywords, k => k in DefaultDatabase)
  {
    assert forall k :: k in DefaultDatabase ==> |DefaultDatabase[k].related| >= 2;
    RelatedTwoEach(DefaultDatabase, keywords);
  }

  lemma {:induction false} CountSnoc<T(!new)>(xs: seq<T>, x: T, p: T -> bool)
    ensures Count(xs + [x], p) == Count(xs, p) + (if p(x) then 1 else 0)
  {
    if xs != [] {
      assert (xs + [x])[1..] == xs[1..] + [x];
      CountSnoc(xs[1..], x, p);
    }
  }

  // ---------------------------------------------------------------- the SEO score

  /** The sum of the densities of `keys`. */
  function DensitySum(keys: seq<String>, density: map<String, real>): real
    requires forall i :: 0 <= i < |keys| ==> keys[i] in density
  {
    if keys == [] then 0.0
    else DensitySum(keys[..|keys| - 1], density) + density[keys[|keys| - 1]]
  }

  /** The average density calculateSEOScore works with; 0 / 0, NaN, without keywords. */
  function AverageDensity(keys: seq<String>, density: map<String, real>): Option<real>
    requires forall i :: 0 <= i < |keys| ==> keys[i] in density
  {
    if keys == [] then None else Some(DensitySum(keys, density) / (|keys| as real))
  }

  lemma {:induction false} DensitySumWithin(keys: seq<String>, density: map<String, real>,
                                            lo: real, hi: real)
    requires forall i :: 0 <= i < |keys| ==> keys[i] in density
    requires forall i :: 0 <= i < |keys| ==> lo <= density[keys[i]] <= hi
    ensures lo * (|keys| as real) <= DensitySum(keys, density) <= hi * (|keys| as real)
  {
    if keys != [] {
      var n := |keys| - 1;
      DensitySumWithin(keys[..n], density, lo, hi);
      assert lo <= density[keys[n]] <= hi;
      assert lo * (|keys| as real) == lo * (n as real) + lo;
      assert hi * (|keys| as real) == hi * (n as real) + hi;
    }
  }

  /** When every keyword's density lies in a range, so does their average. */
  lemma AverageWithin(keys: seq<String>, density: map<String, real>, lo: real, hi: real)
    requires keys != []
    requires forall i :: 0 <= i < |keys| ==> keys[i] in density
    requires forall i :: 0 <= i < |keys| ==> lo <= density[keys[i]] <= hi
    ensures lo <= AverageDensity(keys, density).value <= hi
  {
    DensitySumWithin(keys, density, lo, hi);
    var n := |keys| as real;
    var sum := DensitySum(keys, density);
    QuotientBounds(sum, sum, n, lo);
    QuotientBounds(sum, sum, n, hi);
  }

  function TitlePoints(h1Count: nat): nat {
    (if h1Count > 0 then 15 else 0) + (if h1Count == 1 then 5 else 0)
  }

  /** NaN fails every comparison and earns the last bucket's 10 points. */
  function DensityPoints(average: Option<real>): nat {
    match average
    case None => 10
    case Some(d) => if 1.0 <= d <= 2.0 then 30 else if 0.5 <= d < 3.0 then 20 else 10
  }

  /** NaN fails every comparison and earns the last bucket's 5 points. */
  function ReadabilityPoints(score: Num): nat {
    match score
    case NaN => 5
    case Num(v) => if v >= 70 then 25 else if v >= 50 then 15 else 5
  }

  function ImagePoints(images: nat, imagesWithAlt: nat): nat {
    if images == imagesWithAlt then 15 else if imagesWithAlt > 0 then 10 else 0
  }

  function HeadingPoints(headingCount: nat): nat {
    if headingCount >= 3 then 10 else if headingCount >= 2 then 5 else 0
  }

  /** calculateSEOScore: at least 15 and at most 100, the full 100 exactly when every
      criterion is met. */
  function SeoScore(a: Analysis, average: Option<real>): (r: int)
    ensures 15 <= r <= 100
    ensures r == 100 <==> a.markup.h1Count == 1 && average.Some? && 1.0 <= average.value <= 2.0
                          && a.readability.Num? && a.readability.v >= 70
                          && a.markup.images == a.markup.imagesWithAlt
                          && a.markup.headingCount >= 3
  {
    TitlePoints(a.markup.h1Count) + DensityPoints(average) + ReadabilityPoints(a.readability)
    + ImagePoints(a.markup.images, a.markup.imagesWithAlt) + HeadingPoints(a.markup.headingCount)
  }

  /** Keywords that are all "__proto__" leave the density record empty, so the average is
      0/0, NaN, which earns the last bucket's 10 points. */
  lemma ProtoKeywordsAverageNaN(content: String, keywords: seq<String>, tags: Markup,
                                matches: String -> nat, raw: map<String, real>)
    requires forall i :: 0 <= i < |keywords| ==> keywords[i] == "__proto__"
    ensures var a := AnalysisOf(content, keywords, tags, matches);
            a.keys == [] && DensityPoints(AverageDensity(a.keys, raw)) == 10
  {
    var a := AnalysisOf(content, keywords, tags, matches);
    if a.keys != [] {
      assert false;
    }
  }

  /** Scoring the corrected readability instead of the code's NaN changes no SEO score. */
  lemma ReadabilityPointsAgree(content: String)
    ensures ReadabilityPoints(ReadabilityAsWritten(content)) == ReadabilityPoints(Num(Readability(content)))
  {
  }

  // ---------------------------------------------------------------- the module

  datatype Request = Request(content: String, targetKeywords: seq<String>)

  datatype Metadata = Metadata(readabilityScore: Num, wordCount: nat, estimatedReadingTime: nat,
                               seoScore: int)

  datatype Response = Response(originalContent: String, optimizedContent: String,
                               suggestions: seq<SeoSuggestion>, keywordAnalysis: KeywordAnalysis,
                               metadata: Metadata)

  /** A response, a failure response, or an exception thrown to the caller. */
  datatype Outcome = Success(response: Response) | Failure(code: String, message: String)
                   | Thrown(error: String)

  const NotInitialized: String := "SEO模块未初始化"
  const FailureCode: String := "SEO_PROCESSING_ERROR"

  class SeoModule {
    var isInitialized: bool
    var keywordDatabase: map<String, KeywordData>

    constructor()
      ensures !isInitialized && keywordDatabase == map[]
    {
      isInitialized := false;
      keywordDatabase := map[];
    }

    /** initialize: loads the built-in keywords over whatever the database holds. */
    method Initialize()
      modifies this
      ensures isInitialized
      ensures keywordDatabase == old(keywordDatabase) + DefaultDatabase
    {
      keywordDatabase := keywordDatabase + DefaultDatabase;
      isInitialized := true;
    }

    method Cleanup()
      modifies this
      ensures !isInitialized && keywordDatabase == map[]
    {
      keywordDatabase := map[];
      isInitialized := false;
    }

    /** process. `patternError(k)` is the message of the exception compiling keyword `k`
        as a pattern raises. */
    method Process(req: Request, tags: Markup, matches: String -> nat, valid: String -> bool,
                   patternError: String -> String, addAlt: String -> String)
      returns (out: Outcome)
      ensures !isInitialized ==> out == Thrown(NotInitialized)
      ensures isInitialized && FirstIndex(req.targetKeywords, k => !valid(k)).Some? ==>
                out == Failure(FailureCode,
                               patternError(req.targetKeywords[FirstIndex(req.targetKeywords,
                                                                          k => !valid(k)).value]))
      ensures isInitialized && FirstIndex(req.targetKeywords, k => !valid(k)).None? ==>
                var content := req.content;
                var keywords := req.targetKeywords;
                var a := AnalysisOf(content, keywords, tags, matches);
                var sugs := Suggestions(a, content);
                var raw := RawDensities(content, keywords, matches);
                out == Success(Response(
                  content, Optimized(content, sugs, MainKeyword(keywords), addAlt), sugs,
                  KeywordAnalysis(raw, Related(keywordDatabase, keywords)),
                  Metadata(a.readability, |content|, ReadingMinutes(|content|),
                           SeoScore(a, AverageDensity(a.keys, raw)))))
    {
      if !isInitialized {
        return Thrown(NotInitialized);
      }
      var keywords := req.targetKeywords;
      var bad := FirstIndex(keywords, k => !valid(k));
      if bad.Some? {
        return Failure(FailureCode, patternError(keywords[bad.value]));
      }
      var content := req.content;
      var a := AnalyzeContent(content, keywords, tags, matches);
      var sugs := GenerateSuggestions(a, content);
      var optimized := OptimizeContent(content, sugs, keywords, addAlt);
      var analysis := AnalyzeKeywords(content, keywords, matches, keywordDatabase);
      assert forall i :: 0 <= i < |a.keys| ==> a.keys[i] in analysis.density;
      var score := SeoScore(a, AverageDensity(a.keys, analysis.density));
      out := Success(Response(content, optimized, sugs, analysis,
                              Metadata(a.readability, |content|, ReadingMinutes(|content|), score)));
    }
  }
}
