/** The term extractor of the front end (src/utils/termExtractor.ts): candidate terms come
    from regular-expression matches, which are supplied here as lists of matches (an index
    and the matched text). Each candidate is located by line and column, then the
    candidates are deduplicated by their lower-cased, trimmed text and filtered. */
module TermExtraction {
  import opened Text
  import opened Collections
  import opened Grouping
  import opened Types

  /** A candidate term with the positions where it occurs. */
  datatype ExtractedTerm = ExtractedTerm(term: String, positions: seq<TermPosition>)

  /** One match of a regular expression: where it starts and what it matched. */
  datatype RegexMatch = RegexMatch(index: nat, text: String)

  const StopWords: set<String> := {
    "the", "a", "an", "and", "or", "but", "in", "on", "at", "to", "for", "of", "with", "by",
    "is", "are", "was", "were", "be", "been", "being", "have", "has", "had", "do", "does", "did",
    "will", "would", "could", "should", "may", "might", "can", "this", "that", "these", "those"
  }

  const CommonWords: seq<String> :=
    ["The", "This", "That", "These", "Those", "Here", "There", "When", "Where", "How", "Why"]

  /** The lower-cased words of `term`, split on whitespace runs (never an empty list). */
  function LowerWords(term: String): seq<String> {
    SplitRuns(Lower(term), IsJsSpace)
  }

  predicate ContainsStopWords(term: String) {
    var ws := LowerWords(term);
    exists i :: 0 <= i < |ws| && ws[i] in StopWords
  }

  predicate IsOnlyStopWords(term: String) {
    var ws := LowerWords(term);
    forall i :: 0 <= i < |ws| ==> ws[i] in StopWords
  }

  /** A term made only of stop words contains a stop word, since the split is never empty. */
  lemma OnlyStopWordsContainsStopWords(term: String)
    ensures IsOnlyStopWords(term) ==> ContainsStopWords(term)
  {
    var ws := LowerWords(term);
    assert |ws| >= 1;
    if IsOnlyStopWords(term) {
      assert ws[0] in StopWords;
    }
  }

  predicate IsCommonWord(term: String) { term in CommonWords }

  /** The case-insensitive indicators of a technical term, lower-cased. */
  const TechIndicators: seq<String> :=
    ["api", "sdk", "cli", "gui", "ui", "ux", "http", "rest", "json", "xml", "html", "css",
     "script", "framework", "library", "engine", "service", "component"]

  /** Two upper-case ASCII letters in a row. */
  predicate HasAcronym(s: String) {
    exists i :: 0 <= i < |s| - 1 && IsAsciiUpper(s[i]) && IsAsciiUpper(s[i + 1])
  }

  predicate IsTechnicalTerm(term: String) {
    (exists i :: 0 <= i < |TechIndicators| && Contains(Lower(term), TechIndicators[i]))
    || HasAcronym(term)
    || Contains(term, "-")
  }

  /** Every hyphenated term counts as technical. */
  lemma HyphenatedIsTechnical(term: String)
    requires '-' in term
    ensures IsTechnicalTerm(term)
  {
    var i :| 0 <= i < |term| && term[i] == '-';
    assert term[i..i + 1] == "-";
    assert IsAt(term, "-", i);
  }

  /** The position of a match at `index`: its span, its 1-based line (one more than the
      line breaks before it) and its 1-based column (one more than the characters since the
      last line break before it). */
  function TermPositionAt(content: String, index: nat, term: String): (r: TermPosition)
    ensures r.start == index && r.end == index + |term|
    ensures var before := content[..if index <= |content| then index else |content|];
            r.line == 1 + Occurrences(before, '\n')
            && 1 <= r.column <= |before| + 1
            && '\n' !in before[|before| - (r.column - 1)..]
            && (r.column - 1 == |before| || before[|before| - r.column] == '\n')
  {
    var before := content[..if index <= |content| then index else |content|];
    var lines := SplitOn(before, "\n");
    LastLineFacts(before);
    TermPosition(index, index + |term|, |lines|, |lines[|lines| - 1]| + 1)
  }

  /** The lines of a text: one more than its line breaks, the last one the text's tail after
      its last line break. */
  lemma LastLineFacts(before: String)
    ensures var lines := SplitOn(before, "\n");
            var column := |lines[|lines| - 1]| + 1;
            |lines| == 1 + Occurrences(before, '\n')
            && 1 <= column <= |before| + 1
            && '\n' !in before[|before| - (column - 1)..]
            && (column - 1 == |before| || before[|before| - column] == '\n')
  {
    assert "\n" == ['\n'];
    SplitOnCharCount(before, '\n');
    SplitOnCharLast(before, '\n');
    SplitOnCharLastBoundary(before, '\n');
    SplitOnCharPieces(before, '\n');
  }

  function Located(content: String, m: RegexMatch): ExtractedTerm {
    ExtractedTerm(m.text, [TermPositionAt(content, m.index, m.text)])
  }

  function LocateAll(content: String, ms: seq<RegexMatch>): (r: seq<ExtractedTerm>)
    ensures |r| == |ms|
    ensures forall i :: 0 <= i < |r| ==> r[i] == Located(content, ms[i])
  {
    seq(|ms|, i requires 0 <= i < |ms| => Located(content, ms[i]))
  }

  /** The matches of the four extractors' patterns, in the order each extractor runs them. */
  datatype PatternMatches = PatternMatches(
    nounPhrases: seq<RegexMatch>,
    acronyms: seq<RegexMatch>,
    techSuffixes: seq<RegexMatch>,
    techNames: seq<RegexMatch>,
    techKinds: seq<RegexMatch>,
    properNouns: seq<RegexMatch>,
    hyphenated: seq<RegexMatch>,
    multiWord: seq<RegexMatch>)

  function NounPhrases(content: String, ms: seq<RegexMatch>): (r: seq<ExtractedTerm>)
    ensures forall i :: 0 <= i < |r| ==> !ContainsStopWords(r[i].term) && |r[i].term| > 3
  {
    LocateAll(content, Filter(ms, (m: RegexMatch) => !ContainsStopWords(m.text) && |m.text| > 3))
  }

  function TechnicalTerms(content: String, p: PatternMatches): seq<ExtractedTerm> {
    LocateAll(content, p.acronyms + p.techSuffixes + p.techNames + p.techKinds)
  }

  function ProperNouns(content: String, ms: seq<RegexMatch>): (r: seq<ExtractedTerm>)
    ensures forall i :: 0 <= i < |r| ==> |r[i].term| > 2 && !IsCommonWord(r[i].term)
  {
    LocateAll(content, Filter(ms, (m: RegexMatch) => |m.text| > 2 && !IsCommonWord(m.text)))
  }

  function CompoundTerms(content: String, p: PatternMatches): seq<ExtractedTerm> {
    LocateAll(content, Filter(p.hyphenated, (m: RegexMatch) => |m.text| > 4))
    + LocateAll(content, p.multiWord)
  }

  /** The candidates of extractTerms, before deduplication: the four extractors' outputs
      in order. */
  function Candidates(content: String, p: PatternMatches): seq<ExtractedTerm> {
    NounPhrases(content, p.nounPhrases) + TechnicalTerms(content, p)
    + ProperNouns(content, p.properNouns) + CompoundTerms(content, p)
  }

  // ---------------------------------------------------------------- deduplication

  /** The key terms are deduplicated by. */
  function TermKey(t: ExtractedTerm): String { JsTrim(Lower(t.term)) }

  /** A candidate survives the first filter when its key has at least three characters and
      is not made only of stop words. */
  predicate Admitted(t: ExtractedTerm) {
    |TermKey(t)| >= 3 && !IsOnlyStopWords(TermKey(t))
  }

  /** A merged term is kept when it occurs at least twice or looks technical. */
  predicate Kept(t: ExtractedTerm) {
    |t.positions| >= 2 || IsTechnicalTerm(t.term)
  }

  /** The positions of `ts`, concatenated in order. */
  function AllPositions(ts: seq<ExtractedTerm>): seq<TermPosition> {
    if ts == [] then [] else AllPositions(ts[..|ts| - 1]) + ts[|ts| - 1].positions
  }

  /** A group of candidates with the same key merged into one: the first spelling seen and
      every position in encounter order. */
  function Merged(ms: seq<ExtractedTerm>): ExtractedTerm {
    if ms == [] then ExtractedTerm([], []) else ExtractedTerm(ms[0].term, AllPositions(ms))
  }

  lemma MergedSnoc(ms: seq<ExtractedTerm>, t: ExtractedTerm)
    ensures ms == [] ==> Merged(ms + [t]) == ExtractedTerm(t.term, t.positions)
    ensures ms != [] ==> Merged(ms + [t]) == ExtractedTerm(Merged(ms).term, Merged(ms).positions + t.positions)
  {
    assert (ms + [t])[..|ms|] == ms;
    if ms == [] {
      assert AllPositions([t]) == AllPositions([]) + t.positions;
    }
  }

  /** One merged term per distinct key, in the order keys are first seen. */
  function Deduplicated(xs: seq<ExtractedTerm>): (r: seq<ExtractedTerm>)
    ensures |r| == |Keys(xs, TermKey)|
  {
    var ks := Keys(xs, TermKey);
    seq(|ks|, j requires 0 <= j < |ks| => Merged(Members(xs, TermKey, ks[j])))
  }

  /** The state of filterAndDeduplicate's loop after the admitted candidates `adm`: the
      keys in first-seen order and each key's candidates merged. */
  ghost predicate Collected(adm: seq<ExtractedTerm>, keys: seq<String>, termMap: map<String, ExtractedTerm>) {
    keys == Keys(adm, TermKey) && MapHolds(termMap, adm, TermKey, Merged)
  }

  /** One step of filterAndDeduplicate keeps its loop invariant: a candidate that is not
      admitted changes nothing, an admitted one is merged into the entry for its key or
      starts a new entry at the end of the key order. */
  lemma DeduplicateStep(terms: seq<ExtractedTerm>, i: nat, adm: seq<ExtractedTerm>,
                        keys: seq<String>, termMap: map<String, ExtractedTerm>)
    requires i < |terms| && adm == Filter(terms[..i], Admitted)
    requires Collected(adm, keys, termMap)
    ensures !Admitted(terms[i]) ==> Filter(terms[..i + 1], Admitted) == adm
    ensures Admitted(terms[i]) ==> Filter(terms[..i + 1], Admitted) == adm + [terms[i]]
    ensures var t := terms[i]; var k := TermKey(t);
            k in termMap ==>
              Collected(adm + [t], keys,
                        termMap[k := ExtractedTerm(termMap[k].term, termMap[k].positions + t.positions)])
    ensures var t := terms[i]; var k := TermKey(t);
            k !in termMap ==> Collected(adm + [t], keys + [k], termMap[k := ExtractedTerm(t.term, t.positions)])
  {
    var t := terms[i];
    FilterPrefixStep(terms, i, Admitted);
    MapHoldsSnoc(termMap, adm, t, TermKey, Merged);
    KeysSnoc(adm, t, TermKey);
    MergedSnoc(Members(adm, TermKey, TermKey(t)), t);
  }

  /** The map's values listed in the order of `keys`. */
  function InKeyOrder(keys: seq<String>, termMap: map<String, ExtractedTerm>): seq<ExtractedTerm>
    requires forall j :: 0 <= j < |keys| ==> keys[j] in termMap
  {
    seq(|keys|, j requires 0 <= j < |keys| && keys[j] in termMap => termMap[keys[j]])
  }

  /** Reading the map in key order gives the deduplicated terms. */
  lemma ValuesInKeyOrder(xs: seq<ExtractedTerm>, keys: seq<String>, termMap: map<String, ExtractedTerm>)
    requires keys == Keys(xs, TermKey) && MapHolds(termMap, xs, TermKey, Merged)
    ensures forall j :: 0 <= j < |keys| ==> keys[j] in termMap
    ensures InKeyOrder(keys, termMap) == Deduplicated(xs)
  {
  }

  /** The loop of filterAndDeduplicate: skips candidates that are not admitted and merges
      the rest by key into a map, remembering the order in which keys were inserted. */
  method CollectByKey(terms: seq<ExtractedTerm>)
    returns (keys: seq<String>, termMap: map<String, ExtractedTerm>)
    ensures keys == Keys(Filter(terms, Admitted), TermKey)
    ensures MapHolds(termMap, Filter(terms, Admitted), TermKey, Merged)
  {
    keys := [];
    termMap := map[];
    ghost var adm: seq<ExtractedTerm> := [];
    var i := 0;
    while i < |terms|
      invariant 0 <= i <= |terms|
      invariant adm == Filter(terms[..i], Admitted)
      invariant Collected(adm, keys, termMap)
    {
      var t := terms[i];
      DeduplicateStep(terms, i, adm, keys, termMap);
      var normalized := TermKey(t);
      if |normalized| >= 3 && !IsOnlyStopWords(normalized) {
        if normalized in termMap {
          var existing := termMap[normalized];
          termMap := termMap[normalized := ExtractedTerm(existing.term, existing.positions + t.positions)];
        } else {
          termMap := termMap[normalized := ExtractedTerm(t.term, t.positions)];
          keys := keys + [normalized];
        }
        adm := adm + [t];
      }
      i := i + 1;
      assert adm == Filter(terms[..i], Admitted);
    }
    assert terms[..|terms|] == terms;
  }

  /** filterAndDeduplicate: the merged terms in key order, keeping those that occur at least
      twice or look technical. */
  method FilterAndDeduplicate(terms: seq<ExtractedTerm>) returns (r: seq<ExtractedTerm>)
    ensures r == Filter(Deduplicated(Filter(terms, Admitted)), Kept)
  {
    var keys, termMap := CollectByKey(terms);
    ValuesInKeyOrder(Filter(terms, Admitted), keys, termMap);
    r := Filter(InKeyOrder(keys, termMap), Kept);
  }

  /** The deduplicated terms correspond one to one with the keys: each has its own key and
      is admitted, and its positions are those of the admitted candidates with its key. */
  lemma DeduplicatedByKey(xs: seq<ExtractedTerm>)
    requires forall i :: 0 <= i < |xs| ==> Admitted(xs[i])
    ensures forall j :: 0 <= j < |Deduplicated(xs)| ==>
              TermKey(Deduplicated(xs)[j]) == Keys(xs, TermKey)[j]
    ensures forall j :: 0 <= j < |Deduplicated(xs)| ==> Admitted(Deduplicated(xs)[j])
    ensures forall j :: 0 <= j < |Deduplicated(xs)| ==>
              Deduplicated(xs)[j].positions == AllPositions(Members(xs, TermKey, Keys(xs, TermKey)[j]))
  {
    var ks := Keys(xs, TermKey);
    var d := Deduplicated(xs);
    forall j | 0 <= j < |d|
      ensures TermKey(d[j]) == ks[j] && Admitted(d[j])
    {
      MembersOfKey(xs, TermKey, ks[j]);
      var ms := Members(xs, TermKey, ks[j]);
      assert ms[0] in ms;
    }
  }

  /** No two deduplicated terms share a key, and every admitted candidate's key has one. */
  lemma DeduplicatedProperties(terms: seq<ExtractedTerm>)
    ensures var d := Deduplicated(Filter(terms, Admitted));
            forall i, j :: 0 <= i < j < |d| ==> TermKey(d[i]) != TermKey(d[j])
    ensures forall i :: 0 <= i < |terms| && Admitted(terms[i]) ==>
              exists j :: 0 <= j < |Deduplicated(Filter(terms, Admitted))|
                && TermKey(Deduplicated(Filter(terms, Admitted))[j]) == TermKey(terms[i])
  {
    var adm := Filter(terms, Admitted);
    var ks := Keys(adm, TermKey);
    var d := Deduplicated(adm);
    DeduplicatedByKey(adm);
    forall i | 0 <= i < |terms| && Admitted(terms[i])
      ensures exists j :: 0 <= j < |d| && TermKey(d[j]) == TermKey(terms[i])
    {
      KeyOfKept(terms, Admitted, TermKey, terms[i]);
      var j :| 0 <= j < |ks| && ks[j] == TermKey(terms[i]);
      assert TermKey(d[j]) == TermKey(terms[i]);
    }
  }

  /** Every term the filter keeps occurs at least twice or is technical. */
  lemma FilterAndDeduplicateKeeps(terms: seq<ExtractedTerm>, r: seq<ExtractedTerm>)
    requires r == Filter(Deduplicated(Filter(terms, Admitted)), Kept)
    ensures forall i :: 0 <= i < |r| ==> |r[i].positions| >= 2 || IsTechnicalTerm(r[i].term)
    ensures forall t :: t in r ==> t in Deduplicated(Filter(terms, Admitted))
  {
  }

  /** extractTerms: the four extractors' candidates, in order, deduplicated and filtered. */
  method ExtractTerms(content: String, p: PatternMatches) returns (r: seq<ExtractedTerm>)
    ensures r == Filter(Deduplicated(Filter(Candidates(content, p), Admitted)), Kept)
    ensures forall i :: 0 <= i < |r| ==> Kept(r[i])
  {
    var terms := NounPhrases(content, p.nounPhrases);
    terms := terms + TechnicalTerms(content, p);
    terms := terms + ProperNouns(content, p.properNouns);
    terms := terms + CompoundTerms(content, p);
    r := FilterAndDeduplicate(terms);
  }
}
