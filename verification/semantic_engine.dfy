/** The semantic engine of the front end (src/services/semanticEngine.ts). It hashes a text
    to a cache key, turns extracted candidates into semantic terms, groups similar terms,
    reports terminology and list-style inconsistencies and turns issues into suggestions.
    Fresh ids (`crypto.randomUUID`) come from a parameter `uuid`: the `k`-th id one call
    draws is `uuid(k)`. */
module Semantics {
  import opened Wrappers
  import opened Text
  import opened Collections
  import opened Grouping
  import opened Types
  import opened Nlp
  import TermExtraction

  type ExtractedTerm = TermExtraction.ExtractedTerm

  // ---------------------------------------------------------------- hashing

  /** One step of hashContent: `((h << 5) - h) + c`, where `<<` works on 32 bits, then
      `h & h` turns the sum back into a signed 32-bit integer. */
  function HashStep(h: int, c: int): int {
    AsI32(AsI32(h * 32) - h + c)
  }

  /** The hash of a sequence of UTF-16 code units, folded from the left starting at 0. */
  function Hash32(units: seq<int>): int {
    if units == [] then 0 else HashStep(Hash32(units[..|units| - 1]), units[|units| - 1])
  }

  /** The polynomial the hash stands for: the sum of c_i · 31^(n-1-i). */
  function Poly(units: seq<int>): int {
    if units == [] then 0 else 31 * Poly(units[..|units| - 1]) + units[|units| - 1]
  }

  /** The cache key of a content. */
  function HashKey(content: String): String {
    IntToDecimal(Hash32(CodeUnits(content)))
  }

  lemma AsI32Periodic(y: int, k: int)
    ensures AsI32(y + k * 0x1_0000_0000) == AsI32(y)
  {
  }

  /** The fold is the multiply-by-31 polynomial hash reduced to a signed 32-bit integer:
      truncating after every step loses nothing. */
  lemma {:induction false} HashIsPolynomial(units: seq<int>)
    ensures Hash32(units) == AsI32(Poly(units))
  {
    if units != [] {
      var init := units[..|units| - 1];
      var c := units[|units| - 1];
      HashIsPolynomial(init);
      var p := Poly(init);
      var h := Hash32(init);
      var q0 := (p + 0x8000_0000) / 0x1_0000_0000;
      assert h == p - q0 * 0x1_0000_0000;
      var q1 := (h * 32 + 0x8000_0000) / 0x1_0000_0000;
      assert AsI32(h * 32) == h * 32 - q1 * 0x1_0000_0000;
      assert AsI32(h * 32) - h + c == (31 * p + c) + (-31 * q0 - q1) * 0x1_0000_0000;
      AsI32Periodic(31 * p + c, -31 * q0 - q1);
    }
  }

  /** hashContent: the decimal text of the 32-bit multiply-by-31 hash of the code units. */
  method HashContent(content: String) returns (key: String)
    ensures key == HashKey(content)
    ensures key == IntToDecimal(AsI32(Poly(CodeUnits(content))))
  {
    var units := CodeUnits(content);
    var hash := 0;
    var i := 0;
    while i < |units|
      invariant 0 <= i <= |units|
      invariant hash == Hash32(units[..i])
    {
      assert units[..i + 1][..i] == units[..i];
      hash := HashStep(hash, units[i]);
      i := i + 1;
    }
    assert units[..|units|] == units;
    HashIsPolynomial(units);
    key := IntToDecimal(hash);
  }

  /** Two different texts share a cache key: "Aa" and "BB" both hash to 2112. */
  lemma HashCollision()
    ensures "Aa" != "BB" && HashKey("Aa") == HashKey("BB")
  {
    assert "Aa"[0] != "BB"[0];
    assert CodeUnits("Aa") == [65, 97] by {
      assert CodeUnits("Aa") == [65] + CodeUnits("a");
      assert CodeUnits("a") == [97] + CodeUnits("");
    }
    assert CodeUnits("BB") == [66, 66] by {
      assert CodeUnits("BB") == [66] + CodeUnits("B");
      assert CodeUnits("B") == [66] + CodeUnits("");
    }
    assert [65, 97][..1] == [65] && [66, 66][..1] == [66];
    assert [65][..0] == [] && [66][..0] == [];
    assert Hash32([65, 97]) == 2112;
    assert Hash32([66, 66]) == 2112;
  }

  // ---------------------------------------------------------------- the term cache

  /** What extractTerms returns and the cache it leaves behind. */
  datatype Served = Served(terms: seq<SemanticTerm>, cache: map<String, seq<SemanticTerm>>)

  /** extractTerms against the term cache, given what analysing `content` gives (None when
      the analysis throws): a cache hit is returned as it is; on a miss the analysis runs and
      its result is cached under the hash of the content; a failure gives [] and caches
      nothing. */
  function Serve(cache: map<String, seq<SemanticTerm>>, content: String,
                 analysis: Option<seq<SemanticTerm>>): Served {
    var key := HashKey(content);
    if key in cache then Served(cache[key], cache)
    else match analysis
      case None => Served([], cache)
      case Some(terms) => Served(terms, cache[key := terms])
  }

  /** A hit does not depend on the analysis, a failure leaves the cache alone, no entry is
      ever overwritten, and asking again for the same content gives the same answer. */
  lemma ServeProperties(cache: map<String, seq<SemanticTerm>>, content: String,
                        analysis: Option<seq<SemanticTerm>>, again: Option<seq<SemanticTerm>>)
    ensures HashKey(content) in cache ==>
              Serve(cache, content, again) == Serve(cache, content, analysis)
    ensures analysis.None? ==> Serve(cache, content, analysis).cache == cache
    ensures forall k :: k in cache ==>
              k in Serve(cache, content, analysis).cache && Serve(cache, content, analysis).cache[k] == cache[k]
    ensures var s := Serve(cache, content, analysis);
            HashKey(content) in s.cache ==> Serve(s.cache, content, again) == s
  {
  }

  /** The cache as the code keys it serves one content's terms for another content with
      the same hash: after "Aa" is analysed, "BB" gets the terms of "Aa". */
  lemma HashKeyedCacheServesOtherContent(termsOfAa: seq<SemanticTerm>, termsOfBB: seq<SemanticTerm>)
    ensures var first := Serve(map[], "Aa", Some(termsOfAa));
            Serve(first.cache, "BB", Some(termsOfBB)).terms == termsOfAa
  {
    HashCollision();
  }

  /** The cache keyed by the content itself. */
  function ServeByContent(cache: map<String, seq<SemanticTerm>>, content: String,
                          analysis: Option<seq<SemanticTerm>>): Served {
    if content in cache then Served(cache[content], cache)
    else match analysis
      case None => Served([], cache)
      case Some(terms) => Served(terms, cache[content := terms])
  }

  /** Every cached entry is what the analysis gives for its key. */
  ghost predicate Coherent(cache: map<String, seq<SemanticTerm>>, analyze: String -> Option<seq<SemanticTerm>>) {
    forall k :: k in cache ==> analyze(k) == Some(cache[k])
  }

  /** Keyed by content, the cache is invisible: every call answers what the analysis gives,
      and the cache stays coherent. */
  lemma ServeByContentTransparent(cache: map<String, seq<SemanticTerm>>, content: String,
                                  analyze: String -> Option<seq<SemanticTerm>>)
    requires Coherent(cache, analyze)
    ensures var s := ServeByContent(cache, content, analyze(content));
            s.terms == analyze(content).GetOr([]) && Coherent(s.cache, analyze)
  {
  }

  // ---------------------------------------------------------------- categories

  /** `[A-Z][a-z]+`. */
  predicate IsCapitalisedWord(w: String) {
    |w| >= 2 && IsAsciiUpper(w[0]) && forall i :: 1 <= i < |w| ==> IsAsciiLower(w[i])
  }

  /** `/^[A-Z][a-z]+(?:\s+[A-Z][a-z]+)*$/`: capitalised words separated by whitespace runs,
      with nothing before the first or after the last. */
  predicate IsProperNounPhrase(term: String) {
    var ws := SplitRuns(term, IsJsSpace);
    forall i :: 0 <= i < |ws| ==> IsCapitalisedWord(ws[i])
  }

  const TechWords: seq<String> := ["api", "ui", "ux", "html", "css", "js", "sql"]

  /** `n` characters at `i` are a whole word: no word character touches them. */
  predicate WholeWordAt(s: String, i: nat, n: nat)
    requires i + n <= |s|
  {
    (i == 0 || !IsWordChar(s[i - 1])) && (i + n == |s| || !IsWordChar(s[i + n]))
  }

  /** `/\b(?:API|UI|UX|HTML|CSS|JS|SQL)\b/i`. */
  predicate HasTechWord(term: String) {
    var l := Lower(term);
    exists i, k :: 0 <= i < |l| && 0 <= k < |TechWords| && IsAt(l, TechWords[k], i)
                   && WholeWordAt(l, i, |TechWords[k]|)
  }

  /** categorizeterm: the first rule that applies, in this order. */
  function Categorize(term: String): (r: String)
    ensures r == "proper_noun" <==> IsProperNounPhrase(term)
    ensures r == "technical" <==> !IsProperNounPhrase(term) && HasTechWord(term)
    ensures r == "compound" <==> !IsProperNounPhrase(term) && !HasTechWord(term) && Utf16Len(term) > 15
    ensures r in {"proper_noun", "technical", "compound", "general"}
  {
    if IsProperNounPhrase(term) then "proper_noun"
    else if HasTechWord(term) then "technical"
    else if Utf16Len(term) > 15 then "compound"
    else "general"
  }

  /** The rules are ordered: "Api" is a proper noun although it is also a technical word. */
  lemma ProperNounShadowsTechnical()
    ensures HasTechWord("Api") && Categorize("Api") == "proper_noun"
  {
    assert Lower("Api") == "api";
    assert IsAt(Lower("Api"), TechWords[0], 0);
    assert !IsJsSpace('A') && !IsJsSpace('p') && !IsJsSpace('i');
    assert "Api"[1..] == "pi" && "pi"[1..] == "i" && "i"[1..] == [];
    var r0 := SplitRuns([], IsJsSpace);
    assert r0 == [[]] && r0[1..] == [] && ['i'] + r0[0] == "i";
    var r1 := SplitRuns("i", IsJsSpace);
    assert r1 == ["i"] && r1[1..] == [] && ['p'] + r1[0] == "pi";
    var r2 := SplitRuns("pi", IsJsSpace);
    assert r2 == ["pi"] && r2[1..] == [] && ['A'] + r2[0] == "Api";
  }

  // ---------------------------------------------------------------- contexts

  /** The context of one position: up to 20 characters on each side of its column on its
      line, or nothing when the line is out of range. */
  function ContextAt(p: TermPosition, lines: seq<String>): Option<String> {
    if 0 < p.line <= |lines| then
      var line := lines[p.line - 1];
      Some(Substring(line, if p.column - 20 < 0 then 0 else p.column - 20,
                     if |line| < p.column + 20 then |line| else p.column + 20))
    else None
  }

  function ContextsIn(ps: seq<TermPosition>, lines: seq<String>): seq<String> {
    if ps == [] then []
    else
      ContextsIn(ps[..|ps| - 1], lines)
      + match ContextAt(ps[|ps| - 1], lines) case None => [] case Some(c) => [c]
  }

  /** extractContext: the contexts of the positions on `content`'s lines. */
  function Contexts(ps: seq<TermPosition>, content: String): seq<String> {
    ContextsIn(ps, SplitOn(content, "\n"))
  }

  /** Where the context of a position on `line` starts. */
  function ContextStart(p: TermPosition, line: String): nat {
    if p.column - 20 < 0 then 0 else if p.column - 20 > |line| then |line| else p.column - 20
  }

  /** A context is at most 40 characters long and the piece of the position's line that
      starts 20 characters before its column. */
  lemma ContextAtBounded(p: TermPosition, lines: seq<String>)
    ensures ContextAt(p, lines).Some? ==>
              0 < p.line <= |lines|
              && |ContextAt(p, lines).value| <= 40
              && IsAt(lines[p.line - 1], ContextAt(p, lines).value, ContextStart(p, lines[p.line - 1]))
  {
    if 0 < p.line <= |lines| {
      var line := lines[p.line - 1];
      var y := if |line| < p.column + 20 then |line| else p.column + 20;
      var x' := ContextStart(p, line);
      var y' := if y < 0 then 0 else y;
      assert x' <= y' && ContextAt(p, lines).value == line[x'..y'];
    }
  }

  /** At most one context per position, each at most 40 characters long and a piece of one
      line of the content. */
  lemma {:induction false} ContextsBounded(ps: seq<TermPosition>, lines: seq<String>)
    ensures |ContextsIn(ps, lines)| <= |ps|
    ensures forall c :: c in ContextsIn(ps, lines) ==>
              |c| <= 40 && exists l, a :: 0 <= l < |lines| && IsAt(lines[l], c, a)
  {
    if ps != [] {
      ContextsBounded(ps[..|ps| - 1], lines);
      var p := ps[|ps| - 1];
      ContextAtBounded(p, lines);
    }
  }

  method ExtractContext(positions: seq<TermPosition>, content: String) returns (contexts: seq<String>)
    ensures contexts == Contexts(positions, content)
  {
    var lines := SplitOn(content, "\n");
    contexts := [];
    var i := 0;
    while i < |positions|
      invariant 0 <= i <= |positions|
      invariant contexts == ContextsIn(positions[..i], lines)
    {
      var pos := positions[i];
      assert positions[..i + 1][..i] == positions[..i];
      if pos.line > 0 && pos.line <= |lines| {
        var line := lines[pos.line - 1];
        var start := if 0 < pos.column - 20 then pos.column - 20 else 0;
        var end := if |line| < pos.column + 20 then |line| else pos.column + 20;
        contexts := contexts + [Substring(line, start, end)];
      }
      i := i + 1;
    }
    assert positions[..|positions|] == positions;
  }

  // ---------------------------------------------------------------- semantic terms

  /** The key candidates are merged by. */
  function NormKey(e: ExtractedTerm): String { NormalizeTerm(e.term) }

  function TermsOf(ms: seq<ExtractedTerm>): (r: seq<String>)
    ensures |r| == |ms| && forall i :: 0 <= i < |ms| ==> r[i] == ms[i].term
  {
    seq(|ms|, i requires 0 <= i < |ms| => ms[i].term)
  }

  /** The semantic term for the `j`-th normalised text `k` and the candidates `ms` that
      normalise to it: the distinct spellings in first-seen order, the category and the
      context of the first candidate, one count per candidate and every position in order. */
  function Built(uuid: nat -> String, lines: seq<String>, j: nat, k: String, ms: seq<ExtractedTerm>): SemanticTerm {
    if ms == [] then SemanticTerm(uuid(j), k, [], "general", [], 0, [])
    else SemanticTerm(uuid(j), k, Dedup(TermsOf(ms)), Categorize(ms[0].term),
                      ContextsIn(ms[0].positions, lines), |ms|, TermExtraction.AllPositions(ms))
  }

  function Builder(uuid: nat -> String, lines: seq<String>): (nat, String, seq<ExtractedTerm>) -> SemanticTerm {
    (j: nat, k: String, ms: seq<ExtractedTerm>) => Built(uuid, lines, j, k, ms)
  }

  /** What processExtractedTerms returns: one semantic term per distinct normalised text, in
      the order the texts are first seen. */
  function Processed(xs: seq<ExtractedTerm>, content: String, uuid: nat -> String): (r: seq<SemanticTerm>)
    ensures |r| == |Keys(xs, NormKey)|
  {
    var ks := Keys(xs, NormKey);
    var lines := SplitOn(content, "\n");
    seq(|ks|, j requires 0 <= j < |ks| => Built(uuid, lines, j, ks[j], Members(xs, NormKey, ks[j])))
  }

  /** What a built term records: its id and text, one count per candidate, every position
      in order and the distinct spellings of the candidates. */
  lemma BuiltFields(uuid: nat -> String, lines: seq<String>, j: nat, k: String, ms: seq<ExtractedTerm>)
    ensures var t := Built(uuid, lines, j, k, ms);
            t.id == uuid(j) && t.term == k && t.frequency == |ms|
            && t.positions == TermExtraction.AllPositions(ms)
            && (forall a, b :: 0 <= a < b < |t.variants| ==> t.variants[a] != t.variants[b])
            && forall v :: v in t.variants <==> exists x :: x in ms && x.term == v
  {
    var t := Built(uuid, lines, j, k, ms);
    var ts := TermsOf(ms);
    forall v ensures v in t.variants <==> exists x :: x in ms && x.term == v {
      if v in t.variants {
        assert ms != [];
        var i :| 0 <= i < |t.variants| && t.variants[i] == v;
        assert v in ts;
        var a :| 0 <= a < |ts| && ts[a] == v;
        assert ms[a] in ms && ms[a].term == v;
      }
      if exists x :: x in ms && x.term == v {
        var x :| x in ms && x.term == v;
        var a :| 0 <= a < |ms| && ms[a] == x;
        assert ts[a] == v;
      }
    }
  }

  /** A later candidate merged into an entry: one more occurrence, its positions appended
      and its spelling appended when that is new. */
  function Absorb(t: SemanticTerm, e: ExtractedTerm): SemanticTerm {
    t.(frequency := t.frequency + 1, positions := t.positions + e.positions,
       variants := if e.term in t.variants then t.variants else t.variants + [e.term])
  }

  /** A new entry is built from its first candidate. */
  lemma BuiltSingle(uuid: nat -> String, lines: seq<String>, j: nat, k: String, x: ExtractedTerm)
    ensures Built(uuid, lines, j, k, [x])
            == SemanticTerm(uuid(j), k, [x.term], Categorize(x.term), ContextsIn(x.positions, lines), 1, x.positions)
  {
    assert TermsOf([x]) == [x.term];
    assert [x.term][..0] == [];
    assert Dedup([x.term]) == [x.term];
    assert [x][..0] == [];
    assert TermExtraction.AllPositions([x]) == [] + x.positions;
  }

  /** A later candidate adds one to the frequency, appends its positions and appends its
      spelling when that is new. */
  lemma BuiltSnoc(uuid: nat -> String, lines: seq<String>, j: nat, k: String, ms: seq<ExtractedTerm>, x: ExtractedTerm)
    requires ms != []
    ensures Built(uuid, lines, j, k, ms + [x]) == Absorb(Built(uuid, lines, j, k, ms), x)
  {
    var ts := TermsOf(ms);
    var b := Built(uuid, lines, j, k, ms);
    var vs := if x.term in b.variants then b.variants else b.variants + [x.term];
    assert Dedup(TermsOf(ms + [x])) == vs by {
      assert TermsOf(ms + [x]) == ts + [x.term];
      DedupSnoc(ts, x.term);
    }
    assert TermExtraction.AllPositions(ms + [x]) == TermExtraction.AllPositions(ms) + x.positions by {
      assert (ms + [x])[..|ms|] == ms;
    }
    assert (ms + [x])[0] == ms[0];
    assert Built(uuid, lines, j, k, ms + [x])
           == SemanticTerm(b.id, b.term, vs, b.category, b.context, b.frequency + 1, b.positions + x.positions);
    assert Absorb(b, x)
           == SemanticTerm(b.id, b.term, vs, b.category, b.context, b.frequency + 1, b.positions + x.positions);
  }

  /** The entry a text's first candidate creates, with the `j`-th id. */
  function Started(uuid: nat -> String, lines: seq<String>): (nat, ExtractedTerm) -> SemanticTerm {
    (j: nat, e: ExtractedTerm) =>
      SemanticTerm(uuid(j), NormKey(e), [e.term], Categorize(e.term), ContextsIn(e.positions, lines), 1, e.positions)
  }

  /** The keys and the map the loop of processExtractedTerms has built after `xs`. */
  function TermMap(xs: seq<ExtractedTerm>, lines: seq<String>, uuid: nat -> String): (seq<String>, map<String, SemanticTerm>) {
    FoldByKey(xs, NormKey, Started(uuid, lines), Absorb)
  }

  /** One more candidate: its text's entry absorbs it, or a new entry starts at the end. */
  lemma TermMapSnoc(xs: seq<ExtractedTerm>, e: ExtractedTerm, lines: seq<String>, uuid: nat -> String)
    ensures var (keys, m) := TermMap(xs, lines, uuid);
            var k := NormalizeTerm(e.term);
            TermMap(xs + [e], lines, uuid)
            == if k in m then (keys, m[k := Absorb(m[k], e)])
               else (keys + [k], m[k := SemanticTerm(uuid(|keys|), k, [e.term], Categorize(e.term),
                                                     ContextsIn(e.positions, lines), 1, e.positions)])
  {
    assert (xs + [e])[..|xs|] == xs;
  }

  /** The loop's map holds, for every normalised text, the term built from all of its
      candidates. */
  lemma TermMapHolds(xs: seq<ExtractedTerm>, lines: seq<String>, uuid: nat -> String)
    ensures OrderedMapHolds(TermMap(xs, lines, uuid).0, TermMap(xs, lines, uuid).1, xs, NormKey, Builder(uuid, lines))
  {
    var build := Builder(uuid, lines);
    forall j: nat, x: ExtractedTerm ensures build(j, NormKey(x), [x]) == Started(uuid, lines)(j, x) {
      BuiltSingle(uuid, lines, j, NormKey(x), x);
    }
    forall j: nat, k: String, ms: seq<ExtractedTerm>, x: ExtractedTerm | ms != []
      ensures build(j, k, ms + [x]) == Absorb(build(j, k, ms), x)
    {
      BuiltSnoc(uuid, lines, j, k, ms, x);
    }
    FoldByKeyHolds(xs, NormKey, Started(uuid, lines), Absorb, build);
  }

  /** Reading the map in insertion order gives the processed terms. */
  lemma ProcessedReadout(xs: seq<ExtractedTerm>, content: String, uuid: nat -> String)
    ensures var (keys, m) := TermMap(xs, SplitOn(content, "\n"), uuid);
            (forall j :: 0 <= j < |keys| ==> keys[j] in m)
            && seq(|keys|, j requires 0 <= j < |keys| && keys[j] in m => m[keys[j]]) == Processed(xs, content, uuid)
  {
    TermMapHolds(xs, SplitOn(content, "\n"), uuid);
  }

  /** processExtractedTerms: merges the candidates by normalised text into a map, creating
      an entry (with a fresh id) for a new text and updating the entry of a known one. */
  method ProcessExtractedTerms(extracted: seq<ExtractedTerm>, content: String, uuid: nat -> String)
    returns (r: seq<SemanticTerm>)
    ensures r == Processed(extracted, content, uuid)
  {
    ghost var lines := SplitOn(content, "\n");
    var keys: seq<String> := [];
    var termMap: map<String, SemanticTerm> := map[];
    var i := 0;
    while i < |extracted|
      invariant 0 <= i <= |extracted|
      invariant (keys, termMap) == TermMap(extracted[..i], lines, uuid)
    {
      var e := extracted[i];
      assert extracted[..i + 1] == extracted[..i] + [e];
      TermMapSnoc(extracted[..i], e, lines, uuid);
      var normalizedTerm := NormalizeTerm(e.term);
      if normalizedTerm in termMap {
        // the existing entry is updated in place: one more occurrence, its positions and
        // (when new) its spelling appended
        termMap := termMap[normalizedTerm := Absorb(termMap[normalizedTerm], e)];
      } else {
        var context := ExtractContext(e.positions, content);
        termMap := termMap[normalizedTerm := SemanticTerm(uuid(|keys|), normalizedTerm, [e.term],
                                                          Categorize(e.term), context, 1, e.positions)];
        keys := keys + [normalizedTerm];
      }
      i := i + 1;
    }
    assert extracted[..|extracted|] == extracted;
    ProcessedReadout(extracted, content, uuid);
    r := seq(|keys|, j requires 0 <= j < |keys| && keys[j] in termMap => termMap[keys[j]]);
  }

  /** Some candidate spelled `v` normalises to `k`. */
  ghost predicate HasSpelling(xs: seq<ExtractedTerm>, k: String, v: String) {
    exists x :: x in xs && x.term == v && NormalizeTerm(x.term) == k
  }

  /** The `j`-th processed term: the `j`-th normalised text with the `j`-th id, one count
      per candidate of that text, their positions in order and exactly their distinct
      spellings. */
  lemma ProcessedEntry(xs: seq<ExtractedTerm>, content: String, uuid: nat -> String, j: nat)
    requires j < |Keys(xs, NormKey)|
    ensures var t := Processed(xs, content, uuid)[j];
            var ms := Members(xs, NormKey, t.term);
            t.term == Keys(xs, NormKey)[j] && t.id == uuid(j) && t.frequency == |ms| > 0
            && t.positions == TermExtraction.AllPositions(ms)
            && (forall a, b :: 0 <= a < b < |t.variants| ==> t.variants[a] != t.variants[b])
            && forall v :: v in t.variants <==> HasSpelling(xs, t.term, v)
  {
    var ks := Keys(xs, NormKey);
    var ms := Members(xs, NormKey, ks[j]);
    var t := Processed(xs, content, uuid)[j];
    BuiltFields(uuid, SplitOn(content, "\n"), j, ks[j], ms);
    MembersOfKey(xs, NormKey, ks[j]);
    forall v ensures v in t.variants <==> HasSpelling(xs, ks[j], v) {
      if HasSpelling(xs, ks[j], v) {
        var x :| x in xs && x.term == v && NormalizeTerm(x.term) == ks[j];
        assert x in ms;
      }
    }
  }

  /** The `j`-th processed term has the `j`-th normalised text. */
  lemma ProcessedTerms(xs: seq<ExtractedTerm>, content: String, uuid: nat -> String)
    ensures var r := Processed(xs, content, uuid);
            forall j :: 0 <= j < |r| ==> r[j].term == Keys(xs, NormKey)[j]
  {
    var r := Processed(xs, content, uuid);
    forall j | 0 <= j < |r| ensures r[j].term == Keys(xs, NormKey)[j] {
      ProcessedEntry(xs, content, uuid, j);
    }
  }

  /** Every candidate has the entry of its normalised text. */
  lemma ProcessedCovers(xs: seq<ExtractedTerm>, content: String, uuid: nat -> String)
    ensures var r := Processed(xs, content, uuid);
            forall i :: 0 <= i < |xs| ==> exists j :: 0 <= j < |r| && r[j].term == NormalizeTerm(xs[i].term)
  {
    var r := Processed(xs, content, uuid);
    var ks := Keys(xs, NormKey);
    ProcessedTerms(xs, content, uuid);
    forall i | 0 <= i < |xs| ensures exists j :: 0 <= j < |r| && r[j].term == NormalizeTerm(xs[i].term) {
      assert NormKey(xs[i]) in ks;
      var j :| 0 <= j < |ks| && ks[j] == NormKey(xs[i]);
      assert r[j].term == ks[j];
    }
  }

  /** The terms processExtractedTerms returns have distinct texts, every candidate has the
      entry of its normalised text, and each entry is as ProcessedEntry describes. */
  lemma ProcessedProperties(xs: seq<ExtractedTerm>, content: String, uuid: nat -> String)
    ensures var r := Processed(xs, content, uuid);
            (forall a, b :: 0 <= a < b < |r| ==> r[a].term != r[b].term)
            && (forall i :: 0 <= i < |xs| ==> exists j :: 0 <= j < |r| && r[j].term == NormalizeTerm(xs[i].term))
            && forall j :: 0 <= j < |r| ==>
                 var ms := Members(xs, NormKey, r[j].term);
                 r[j].id == uuid(j) && r[j].frequency == |ms| > 0
                 && r[j].positions == TermExtraction.AllPositions(ms)
                 && forall v :: v in r[j].variants <==> HasSpelling(xs, r[j].term, v)
  {
    var r := Processed(xs, content, uuid);
    ProcessedTerms(xs, content, uuid);
    ProcessedCovers(xs, content, uuid);
    forall j | 0 <= j < |r|
      ensures var ms := Members(xs, NormKey, r[j].term);
              r[j].id == uuid(j) && r[j].frequency == |ms| > 0
              && r[j].positions == TermExtraction.AllPositions(ms)
              && forall v :: v in r[j].variants <==> HasSpelling(xs, r[j].term, v)
    {
      ProcessedEntry(xs, content, uuid, j);
    }
  }

  /** The total of the frequencies of `ts`. */
  function FrequencySum(ts: seq<SemanticTerm>): nat {
    if ts == [] then 0 else FrequencySum(ts[..|ts| - 1]) + ts[|ts| - 1].frequency
  }

  /** Terms whose frequencies are the group sizes of `ks` have, on every prefix, the
      total of those group sizes. */
  lemma {:induction false} FrequencyPrefix(ts: seq<SemanticTerm>, xs: seq<ExtractedTerm>, ks: seq<String>, n: nat)
    requires |ts| == |ks| && n <= |ks|
    requires forall j :: 0 <= j < |ts| ==> ts[j].frequency == |Members(xs, NormKey, ks[j])|
    ensures FrequencySum(ts[..n]) == SizeSum(xs, NormKey, ks[..n])
  {
    if n > 0 {
      FrequencyPrefix(ts, xs, ks, n - 1);
      assert ts[..n][..n - 1] == ts[..n - 1];
      assert ks[..n][..n - 1] == ks[..n - 1];
    }
  }

  /** Every candidate is counted exactly once: the frequencies add up to the number of
      candidates. */
  lemma FrequenciesCountCandidates(xs: seq<ExtractedTerm>, content: String, uuid: nat -> String)
    ensures FrequencySum(Processed(xs, content, uuid)) == |xs|
  {
    var r := Processed(xs, content, uuid);
    var ks := Keys(xs, NormKey);
    forall j | 0 <= j < |r| ensures r[j].frequency == |Members(xs, NormKey, ks[j])| {
      ProcessedEntry(xs, content, uuid, j);
    }
    FrequencyPrefix(r, xs, ks, |ks|);
    assert r[..|ks|] == r && ks[..|ks|] == ks;
    MembersPartition(xs, NormKey);
  }

  // ---------------------------------------------------------------- groups of similar terms

  /** The similarity groupSimilarTerms uses: areTermsSimilar with its default threshold. */
  predicate SimilarTerms(a: SemanticTerm, b: SemanticTerm) {
    AreTermsSimilar(a.term, b.term, DefaultThreshold)
  }

  /** The inner loop of groupSimilarTerms after the first `m` terms: the terms gathered
      for `head` and the processed ids, starting from the processed ids `done`. A term is
      gathered when its id is not processed yet and it is similar to the head. */
  function Gather(head: SemanticTerm, terms: seq<SemanticTerm>, m: nat, done: set<String>,
                  similar: (SemanticTerm, SemanticTerm) -> bool): (seq<SemanticTerm>, set<String>)
    requires m <= |terms|
  {
    if m == 0 then ([], done)
    else
      var (g, d) := Gather(head, terms, m - 1, done, similar);
      var other := terms[m - 1];
      if other.id !in d && similar(head, other) then (g + [other], d + {other.id}) else (g, d)
  }

  /** The outer loop of groupSimilarTerms after the first `n` terms: the groups so far and
      the processed ids. A term whose id is processed is skipped; any other one heads a new
      group of itself and what it gathers from all the terms. */
  function GroupsUpTo(terms: seq<SemanticTerm>, n: nat, similar: (SemanticTerm, SemanticTerm) -> bool)
    : (seq<seq<SemanticTerm>>, set<String>)
    requires n <= |terms|
  {
    if n == 0 then ([], {})
    else
      var (gs, d) := GroupsUpTo(terms, n - 1, similar);
      var t := terms[n - 1];
      if t.id in d then (gs, d)
      else
        var (g, d') := Gather(t, terms, |terms|, d + {t.id}, similar);
        (gs + [[t] + g], d')
  }

  /** What groupSimilarTerms returns. */
  function SimilarGroups(terms: seq<SemanticTerm>): seq<seq<SemanticTerm>> {
    GroupsUpTo(terms, |terms|, SimilarTerms).0
  }

  /** The inner loop of groupSimilarTerms: `term` takes in every term whose id is not in
      `processed` and that is similar to it, and their ids become processed. */
  method GatherSimilar(term: SemanticTerm, terms: seq<SemanticTerm>, processed: set<String>)
    returns (gathered: seq<SemanticTerm>, processed': set<String>)
    ensures (gathered, processed') == Gather(term, terms, |terms|, processed, SimilarTerms)
  {
    gathered, processed' := [], processed;
    for j := 0 to |terms|
      invariant (gathered, processed') == Gather(term, terms, j, processed, SimilarTerms)
    {
      var otherTerm := terms[j];
      if otherTerm.id in processed' {
        continue;
      }
      if SimilarTerms(term, otherTerm) {
        gathered := gathered + [otherTerm];
        processed' := processed' + {otherTerm.id};
      }
    }
  }

  /** groupSimilarTerms: every term not yet placed starts a group and takes in every term
      not yet placed that is similar to it. */
  method GroupSimilarTerms(terms: seq<SemanticTerm>) returns (groups: seq<seq<SemanticTerm>>)
    ensures groups == SimilarGroups(terms)
  {
    groups := [];
    var processed: set<String> := {};
    for i := 0 to |terms|
      invariant (groups, processed) == GroupsUpTo(terms, i, SimilarTerms)
    {
      var term := terms[i];
      if term.id in processed {
        continue;
      }
      processed := processed + {term.id};
      var gathered;
      gathered, processed := GatherSimilar(term, terms, processed);
      var group := [term] + gathered;
      if |group| > 0 {
        groups := groups + [group];
      }
    }
  }

  /** The ids of the terms of `ts`. */
  function IdsOf(ts: seq<SemanticTerm>): set<String> {
    set t | t in ts :: t.id
  }

  /** No id occurs twice in `ts`. */
  predicate DistinctIds(ts: seq<SemanticTerm>) {
    forall a, b :: 0 <= a < b < |ts| ==> ts[a].id != ts[b].id
  }

  /** The terms of all groups, group after group. */
  function Flatten(gs: seq<seq<SemanticTerm>>): seq<SemanticTerm> {
    if gs == [] then [] else Flatten(gs[..|gs| - 1]) + gs[|gs| - 1]
  }

  lemma DistinctIdsAppend(a: seq<SemanticTerm>, b: seq<SemanticTerm>)
    requires DistinctIds(a) && DistinctIds(b) && IdsOf(a) !! IdsOf(b)
    ensures DistinctIds(a + b) && IdsOf(a + b) == IdsOf(a) + IdsOf(b)
  {
    var ab := a + b;
    forall i, j | 0 <= i < j < |ab| ensures ab[i].id != ab[j].id {
      if i < |a| && j >= |a| {
        assert ab[i] == a[i] && ab[j] == b[j - |a|];
        assert a[i].id in IdsOf(a) && b[j - |a|].id in IdsOf(b);
      } else if i >= |a| {
        assert ab[i] == b[i - |a|] && ab[j] == b[j - |a|];
      }
    }
  }

  /** The inner loop gathers distinct terms of the input that were not processed and are
      similar to the head, adds exactly their ids to the processed ones, and leaves no
      similar term it passed unprocessed. */
  lemma {:induction false} GatherProperties(head: SemanticTerm, terms: seq<SemanticTerm>, m: nat, done: set<String>,
                                            similar: (SemanticTerm, SemanticTerm) -> bool)
    requires m <= |terms|
    ensures var (g, d) := Gather(head, terms, m, done, similar);
            d == done + IdsOf(g) && DistinctIds(g)
            && (forall t :: t in g ==> t in terms && t.id !in done && similar(head, t))
            && forall i :: 0 <= i < m && similar(head, terms[i]) ==> terms[i].id in d
  {
    if m > 0 {
      GatherProperties(head, terms, m - 1, done, similar);
      var (g, d) := Gather(head, terms, m - 1, done, similar);
      var other := terms[m - 1];
      if other.id !in d && similar(head, other) {
        assert other.id !in IdsOf(g);
        DistinctIdsAppend(g, [other]);
        assert IdsOf([other]) == {other.id};
      }
    }
  }

  /** The groups built so far: the processed ids are exactly the ids placed in groups, no
      id is placed twice, every group is a head followed by terms similar to it, and all of
      them come from the input. */
  ghost predicate GroupsValid(gs: seq<seq<SemanticTerm>>, d: set<String>, terms: seq<SemanticTerm>,
                              similar: (SemanticTerm, SemanticTerm) -> bool) {
    d == IdsOf(Flatten(gs)) && DistinctIds(Flatten(gs))
    && (forall t :: t in Flatten(gs) ==> t in terms)
    && forall k :: 0 <= k < |gs| ==> |gs[k]| >= 1 && forall t :: t in gs[k][1..] ==> similar(gs[k][0], t)
  }

  /** A new group headed by an unplaced term and holding what it gathered keeps the groups
      valid. */
  lemma GroupsValidStep(gs: seq<seq<SemanticTerm>>, d: set<String>, terms: seq<SemanticTerm>,
                        similar: (SemanticTerm, SemanticTerm) -> bool, t: SemanticTerm, g: seq<SemanticTerm>)
    requires GroupsValid(gs, d, terms, similar)
    requires t in terms && t.id !in d && DistinctIds(g)
    requires forall u :: u in g ==> u in terms && u.id !in d + {t.id} && similar(t, u)
    ensures GroupsValid(gs + [[t] + g], d + {t.id} + IdsOf(g), terms, similar)
  {
    var group := [t] + g;
    var gs' := gs + [group];
    assert gs'[..|gs|] == gs;
    assert Flatten(gs') == Flatten(gs) + group;
    assert group[0] == t && group[1..] == g;
    assert IdsOf([t]) == {t.id};
    DistinctIdsAppend([t], g);
    DistinctIdsAppend(Flatten(gs), group);
    forall u | u in Flatten(gs') ensures u in terms {
      assert u in Flatten(gs) || u in group;
    }
  }

  /** Gathering only adds to the processed ids. */
  lemma {:induction false} GatherGrows(head: SemanticTerm, terms: seq<SemanticTerm>, m: nat, done: set<String>,
                                       similar: (SemanticTerm, SemanticTerm) -> bool)
    requires m <= |terms|
    ensures done <= Gather(head, terms, m, done, similar).1
  {
    if m > 0 {
      GatherGrows(head, terms, m - 1, done, similar);
    }
  }

  /** After the first `n` terms the groups are valid. */
  lemma {:induction false} GroupsUpToValid(terms: seq<SemanticTerm>, n: nat,
                                           similar: (SemanticTerm, SemanticTerm) -> bool)
    requires n <= |terms|
    ensures var (gs, d) := GroupsUpTo(terms, n, similar); GroupsValid(gs, d, terms, similar)
  {
    if n > 0 {
      GroupsUpToValid(terms, n - 1, similar);
      var (gs, d) := GroupsUpTo(terms, n - 1, similar);
      var t := terms[n - 1];
      if t.id !in d {
        GatherProperties(t, terms, |terms|, d + {t.id}, similar);
        var (g, d') := Gather(t, terms, |terms|, d + {t.id}, similar);
        GroupsValidStep(gs, d, terms, similar, t, g);
      }
    }
  }

  /** After the first `n` terms every term passed so far has its id processed. */
  lemma {:induction false} GroupsUpToPlaces(terms: seq<SemanticTerm>, n: nat,
                                            similar: (SemanticTerm, SemanticTerm) -> bool)
    requires n <= |terms|
    ensures forall i :: 0 <= i < n ==> terms[i].id in GroupsUpTo(terms, n, similar).1
  {
    if n > 0 {
      GroupsUpToPlaces(terms, n - 1, similar);
      var d := GroupsUpTo(terms, n - 1, similar).1;
      var t := terms[n - 1];
      if t.id !in d {
        GatherGrows(t, terms, |terms|, d + {t.id}, similar);
      }
    }
  }

  /** groupSimilarTerms places every term: each group is a term followed by terms similar to
      it, every grouped term comes from the input, no id is placed twice and every input
      term's id is placed. */
  lemma SimilarGroupsProperties(terms: seq<SemanticTerm>)
    ensures var gs := SimilarGroups(terms);
            DistinctIds(Flatten(gs))
            && (forall t :: t in Flatten(gs) ==> t in terms)
            && (forall k :: 0 <= k < |gs| ==>
                  |gs[k]| >= 1
                  && forall t :: t in gs[k][1..] ==> AreTermsSimilar(gs[k][0].term, t.term, DefaultThreshold))
            && forall i :: 0 <= i < |terms| ==> terms[i].id in IdsOf(Flatten(gs))
  {
    GroupsUpToValid(terms, |terms|, SimilarTerms);
    GroupsUpToPlaces(terms, |terms|, SimilarTerms);
  }

  // ---------------------------------------------------------------- terminology issues

  /** The index of the term `group.reduce((prev, current) => prev.frequency >
      current.frequency ? prev : current)` keeps. */
  function MainIndex(group: seq<SemanticTerm>): (r: nat)
    requires group != []
    ensures r < |group|
  {
    if |group| == 1 then 0
    else
      var p := MainIndex(group[..|group| - 1]);
      if group[p].frequency > group[|group| - 1].frequency then p else |group| - 1
  }

  function MainTerm(group: seq<SemanticTerm>): SemanticTerm
    requires group != []
  {
    group[MainIndex(group)]
  }

  /** The main term of a group is its most frequent term, and the last one among equally
      frequent ones: every later term is strictly less frequent. */
  lemma {:induction false} MainTermIsLastMostFrequent(group: seq<SemanticTerm>)
    requires group != []
    ensures forall j :: 0 <= j < |group| ==> group[j].frequency <= MainTerm(group).frequency
    ensures forall j :: MainIndex(group) < j < |group| ==> group[j].frequency < MainTerm(group).frequency
  {
    if |group| > 1 {
      var init := group[..|group| - 1];
      MainTermIsLastMostFrequent(init);
      assert init[MainIndex(init)] == group[MainIndex(init)];
      forall j | 0 <= j < |init| ensures group[j] == init[j] { }
    }
  }

  /** One flagged occurrence: a position of `term` in a group whose main term is `main`. */
  datatype Flag = Flag(main: SemanticTerm, term: SemanticTerm, position: TermPosition)

  /** The occurrences flagged among the terms `ts` of a group with main term `main`: every
      position of every term other than the main one (by id). */
  function FlagsIn(main: SemanticTerm, ts: seq<SemanticTerm>): seq<Flag> {
    if ts == [] then []
    else
      var t := ts[|ts| - 1];
      FlagsIn(main, ts[..|ts| - 1])
      + if t.id != main.id then seq(|t.positions|, k requires 0 <= k < |t.positions| => Flag(main, t, t.positions[k])) else []
  }

  /** The occurrences flagged in the groups: only groups of more than one term count. */
  function Flags(groups: seq<seq<SemanticTerm>>): seq<Flag> {
    if groups == [] then []
    else
      var g := groups[|groups| - 1];
      Flags(groups[..|groups| - 1]) + if |g| > 1 then FlagsIn(MainTerm(g), g) else []
  }

  /** The issue reported for one flagged occurrence. */
  function TermIssue(f: Flag, id: String): ConsistencyIssue {
    ConsistencyIssue(id, Terminology, Medium,
                     "Consider using \"" + f.main.term + "\" instead of \"" + f.term.term + "\" for consistency",
                     f.position, [f.main.term], [f.main.term, f.term.term])
  }

  /** The issues for a sequence of flags, the `k`-th with the `k`-th fresh id. */
  function IssuesFor(flags: seq<Flag>, uuid: nat -> String): (r: seq<ConsistencyIssue>)
    ensures |r| == |flags|
  {
    seq(|flags|, k requires 0 <= k < |flags| => TermIssue(flags[k], uuid(k)))
  }

  lemma IssuesForSnoc(flags: seq<Flag>, f: Flag, uuid: nat -> String)
    ensures IssuesFor(flags + [f], uuid) == IssuesFor(flags, uuid) + [TermIssue(f, uuid(|flags|))]
  {
  }

  /** What detectTerminologyInconsistencies reports for some groups. */
  function TerminologyIssues(groups: seq<seq<SemanticTerm>>, uuid: nat -> String): seq<ConsistencyIssue> {
    IssuesFor(Flags(groups), uuid)
  }

  /** The flags of the own positions of one term, unless it is the main term. */
  function OwnFlags(main: SemanticTerm, t: SemanticTerm): seq<Flag> {
    if t.id != main.id then seq(|t.positions|, k requires 0 <= k < |t.positions| => Flag(main, t, t.positions[k])) else []
  }

  lemma FlagsInStep(main: SemanticTerm, ts: seq<SemanticTerm>, i: nat)
    requires i < |ts|
    ensures FlagsIn(main, ts[..i + 1]) == FlagsIn(main, ts[..i]) + OwnFlags(main, ts[i])
  {
    assert ts[..i + 1][..i] == ts[..i];
  }

  lemma FlagsStep(groups: seq<seq<SemanticTerm>>, i: nat)
    requires i < |groups|
    ensures Flags(groups[..i + 1])
            == Flags(groups[..i]) + if |groups[i]| > 1 then FlagsIn(MainTerm(groups[i]), groups[i]) else []
  {
    assert groups[..i + 1][..i] == groups[..i];
  }

  /** The innermost loop: one issue per position of `term`. */
  method FlagPositions(mainTerm: SemanticTerm, term: SemanticTerm, issues0: seq<ConsistencyIssue>,
                       ghost flags0: seq<Flag>, uuid: nat -> String)
    returns (issues: seq<ConsistencyIssue>, ghost flags: seq<Flag>)
    requires term.id != mainTerm.id
    requires issues0 == IssuesFor(flags0, uuid)
    ensures flags == flags0 + OwnFlags(mainTerm, term)
    ensures issues == IssuesFor(flags, uuid)
  {
    issues, flags := issues0, flags0;
    for k := 0 to |term.positions|
      invariant flags == flags0 + seq(k, j requires 0 <= j < k => Flag(mainTerm, term, term.positions[j]))
      invariant issues == IssuesFor(flags, uuid)
    {
      var position := term.positions[k];
      IssuesForSnoc(flags, Flag(mainTerm, term, position), uuid);
      issues := issues + [TermIssue(Flag(mainTerm, term, position), uuid(|issues|))];
      flags := flags + [Flag(mainTerm, term, position)];
    }
  }

  /** The middle loop: the positions of every term of a group but its main term. */
  method FlagGroup(group: seq<SemanticTerm>, issues0: seq<ConsistencyIssue>,
                   ghost flags0: seq<Flag>, uuid: nat -> String)
    returns (issues: seq<ConsistencyIssue>, ghost flags: seq<Flag>)
    requires group != []
    requires issues0 == IssuesFor(flags0, uuid)
    ensures flags == flags0 + FlagsIn(MainTerm(group), group)
    ensures issues == IssuesFor(flags, uuid)
  {
    var mainTerm := MainTerm(group);
    issues, flags := issues0, flags0;
    for ti := 0 to |group|
      invariant flags == flags0 + FlagsIn(mainTerm, group[..ti])
      invariant issues == IssuesFor(flags, uuid)
    {
      var term := group[ti];
      FlagsInStep(mainTerm, group, ti);
      if term.id != mainTerm.id {
        issues, flags := FlagPositions(mainTerm, term, issues, flags, uuid);
      }
    }
    assert group[..|group|] == group;
  }

  /** detectTerminologyInconsistencies: in every group of more than one term, each position
      of each term other than the group's main term gets an issue suggesting the main term. */
  method DetectTerminologyInconsistencies(terms: seq<SemanticTerm>, uuid: nat -> String)
    returns (issues: seq<ConsistencyIssue>)
    ensures issues == TerminologyIssues(SimilarGroups(terms), uuid)
  {
    var similarGroups := GroupSimilarTerms(terms);
    issues := [];
    ghost var flags: seq<Flag> := [];
    for gi := 0 to |similarGroups|
      invariant flags == Flags(similarGroups[..gi])
      invariant issues == IssuesFor(flags, uuid)
    {
      var group := similarGroups[gi];
      FlagsStep(similarGroups, gi);
      if |group| > 1 {
        issues, flags := FlagGroup(group, issues, flags, uuid);
      }
    }
    assert similarGroups[..|similarGroups|] == similarGroups;
  }

  /** Within one group, exactly the positions of the terms other than the main one are
      flagged. */
  lemma {:induction false} FlagsInExact(main: SemanticTerm, ts: seq<SemanticTerm>)
    ensures forall f :: f in FlagsIn(main, ts) ==>
              f.main == main && f.term in ts && f.term.id != main.id && f.position in f.term.positions
    ensures forall t, p :: t in ts && t.id != main.id && p in t.positions ==> Flag(main, t, p) in FlagsIn(main, ts)
  {
    if ts != [] {
      var init := ts[..|ts| - 1];
      var t := ts[|ts| - 1];
      FlagsInExact(main, init);
      var own := if t.id != main.id then seq(|t.positions|, k requires 0 <= k < |t.positions| => Flag(main, t, t.positions[k])) else [];
      assert FlagsIn(main, ts) == FlagsIn(main, init) + own;
      forall u, p | u in ts && u.id != main.id && p in u.positions ensures Flag(main, u, p) in FlagsIn(main, ts) {
        if u in init {
          assert Flag(main, u, p) in FlagsIn(main, init);
        } else {
          assert u == t;
          var k :| 0 <= k < |t.positions| && t.positions[k] == p;
          assert own[k] == Flag(main, t, p);
        }
      }
    }
  }

  /** `f` is an occurrence the code flags in `group`: the group has more than one term,
      `f.main` is its main term, and `f.position` is a position of a term of the group whose
      id differs from the main term's. */
  predicate Flaggable(group: seq<SemanticTerm>, f: Flag) {
    |group| > 1 && f.main == MainTerm(group) && f.term in group && f.term.id != f.main.id
    && f.position in f.term.positions
  }

  /** `f` is flaggable in one of the groups. */
  ghost predicate FlaggableIn(groups: seq<seq<SemanticTerm>>, f: Flag) {
    exists gi :: 0 <= gi < |groups| && Flaggable(groups[gi], f)
  }

  /** Exactly the flaggable occurrences are flagged. */
  lemma {:induction false} FlagsExact(groups: seq<seq<SemanticTerm>>)
    ensures forall f :: f in Flags(groups) <==> FlaggableIn(groups, f)
  {
    if groups != [] {
      var init := groups[..|groups| - 1];
      var g := groups[|groups| - 1];
      FlagsExact(init);
      var own := if |g| > 1 then FlagsIn(MainTerm(g), g) else [];
      assert Flags(groups) == Flags(init) + own;
      if |g| > 1 {
        FlagsInExact(MainTerm(g), g);
      }
      forall f ensures f in Flags(groups) <==> FlaggableIn(groups, f) {
        if FlaggableIn(init, f) {
          var gi :| 0 <= gi < |init| && Flaggable(init[gi], f);
          assert groups[gi] == init[gi];
        }
        if FlaggableIn(groups, f) {
          var gi :| 0 <= gi < |groups| && Flaggable(groups[gi], f);
          if gi < |init| {
            assert init[gi] == groups[gi];
            assert FlaggableIn(init, f);
          } else {
            assert Flaggable(g, f);
          }
        }
      }
    }
  }

  /** detectTerminologyInconsistencies reports, with the `k`-th fresh id, a medium
      terminology issue suggesting the main term exactly for each flaggable occurrence. */
  lemma TerminologyIssuesExact(groups: seq<seq<SemanticTerm>>, uuid: nat -> String)
    ensures var issues := TerminologyIssues(groups, uuid);
            forall k :: 0 <= k < |issues| ==>
              issues[k].id == uuid(k) && issues[k].kind == Terminology && issues[k].severity == Medium
              && exists f :: FlaggableIn(groups, f) && issues[k].position == f.position
                             && issues[k].suggestions == [f.main.term]
                             && issues[k].relatedTerms == [f.main.term, f.term.term]
    ensures var issues := TerminologyIssues(groups, uuid);
            forall f :: FlaggableIn(groups, f) ==> exists k :: 0 <= k < |issues| && issues[k] == TermIssue(f, uuid(k))
  {
    var flags := Flags(groups);
    var issues := TerminologyIssues(groups, uuid);
    FlagsExact(groups);
    forall k | 0 <= k < |issues|
      ensures exists f :: FlaggableIn(groups, f) && issues[k].position == f.position
                          && issues[k].suggestions == [f.main.term]
                          && issues[k].relatedTerms == [f.main.term, f.term.term]
    {
      assert flags[k] in flags;
      assert issues[k] == TermIssue(flags[k], uuid(k));
    }
    forall f | FlaggableIn(groups, f) ensures exists k :: 0 <= k < |issues| && issues[k] == TermIssue(f, uuid(k)) {
      assert f in flags;
      var k :| 0 <= k < |flags| && flags[k] == f;
      assert issues[k] == TermIssue(f, uuid(k));
    }
  }

  // ---------------------------------------------------------------- list styles

  /** The sources of the two list patterns, which are what the set of styles holds. */
  const BulletSource: String := "^\\s*[-*+]\\s"
  const NumberedSource: String := "^\\s*\\d+\\.\\s"

  /** `/^\s*[-*+]\s/`: after leading whitespace, a bullet character and a whitespace. */
  predicate IsBulletLine(line: String) {
    var t := DropRun(line, IsJsSpace);
    |t| >= 2 && t[0] in "-*+" && IsJsSpace(t[1])
  }

  /** `/^\s*\d+\.\s/`: after leading whitespace, digits, a dot and a whitespace. */
  predicate IsNumberedLine(line: String) {
    var t := DropRun(line, IsJsSpace);
    var u := DropRun(t, IsAsciiDigit);
    |u| < |t| && |u| >= 2 && u[0] == '.' && IsJsSpace(u[1])
  }

  /** The style a line adds: the first pattern that matches it. */
  function ListStyle(line: String): Option<String> {
    if IsBulletLine(line) then Some(BulletSource)
    else if IsNumberedLine(line) then Some(NumberedSource)
    else None
  }

  /** The styles of the first lines, as the set `listStyles` holds them. */
  function ListStyles(lines: seq<String>): set<String> {
    if lines == [] then {}
    else
      ListStyles(lines[..|lines| - 1])
      + match ListStyle(lines[|lines| - 1]) case None => {} case Some(src) => {src}
  }

  /** The one style issue. */
  function StyleIssue(id: String): ConsistencyIssue {
    ConsistencyIssue(id, Style, Low, "Inconsistent list formatting detected", TermPosition(0, 0, 1, 1),
                     ["Use consistent bullet point style throughout the document"], [])
  }

  /** What detectStyleInconsistencies reports. */
  function StyleIssues(content: String, uuid: nat -> String): seq<ConsistencyIssue> {
    if |ListStyles(SplitOn(content, "\n"))| > 1 then [StyleIssue(uuid(0))] else []
  }

  /** detectStyleInconsistencies: collects the list style of every line and reports one
      issue when more than one style occurs. */
  method DetectStyleInconsistencies(content: String, uuid: nat -> String) returns (issues: seq<ConsistencyIssue>)
    ensures issues == StyleIssues(content, uuid)
  {
    var lines := SplitOn(content, "\n");
    var listStyles: set<String> := {};
    for i := 0 to |lines|
      invariant listStyles == ListStyles(lines[..i])
    {
      var line := lines[i];
      assert lines[..i + 1][..i] == lines[..i];
      // the first of the two patterns that matches adds its source
      if IsBulletLine(line) {
        listStyles := listStyles + {BulletSource};
      } else if IsNumberedLine(line) {
        listStyles := listStyles + {NumberedSource};
      }
    }
    assert lines[..|lines|] == lines;
    issues := [];
    if |listStyles| > 1 {
      issues := issues + [StyleIssue(uuid(0))];
    }
  }

  /** No line is both a bullet line and a numbered line. */
  lemma BulletIsNotNumbered(line: String)
    ensures !(IsBulletLine(line) && IsNumberedLine(line))
  {
    var t := DropRun(line, IsJsSpace);
    if |t| > 0 && !IsAsciiDigit(t[0]) {
      assert DropRun(t, IsAsciiDigit) == t;
    }
  }

  lemma SourcesDiffer()
    ensures BulletSource != NumberedSource
  {
    assert BulletSource[4] != NumberedSource[4];
  }

  /** Some line of `lines` is accepted by `p`. */
  predicate SomeLine(lines: seq<String>, p: String -> bool) {
    exists i :: 0 <= i < |lines| && p(lines[i])
  }

  lemma SomeLineSnoc(lines: seq<String>, p: String -> bool)
    requires lines != []
    ensures SomeLine(lines, p) <==> SomeLine(lines[..|lines| - 1], p) || p(lines[|lines| - 1])
  {
    var init := lines[..|lines| - 1];
    if SomeLine(lines, p) {
      var i :| 0 <= i < |lines| && p(lines[i]);
      if i < |init| { assert p(init[i]); }
    }
    if SomeLine(init, p) {
      var i :| 0 <= i < |init| && p(init[i]);
      assert p(lines[i]);
    }
  }

  /** The styles seen are the bullet style exactly when some line is a bullet line, and
      the numbered style exactly when some line is a numbered line. */
  lemma {:induction false} ListStylesExact(lines: seq<String>)
    ensures ListStyles(lines) <= {BulletSource, NumberedSource}
    ensures BulletSource in ListStyles(lines) <==> SomeLine(lines, IsBulletLine)
    ensures NumberedSource in ListStyles(lines) <==> SomeLine(lines, IsNumberedLine)
  {
    SourcesDiffer();
    if lines != [] {
      var init := lines[..|lines| - 1];
      var last := lines[|lines| - 1];
      ListStylesExact(init);
      BulletIsNotNumbered(last);
      SomeLineSnoc(lines, IsBulletLine);
      SomeLineSnoc(lines, IsNumberedLine);
    }
  }

  /** More than one style is seen exactly when the lines mix bullet and numbered lines. */
  lemma MixedStyles(lines: seq<String>)
    ensures |ListStyles(lines)| > 1 <==> SomeLine(lines, IsBulletLine) && SomeLine(lines, IsNumberedLine)
  {
    var styles := ListStyles(lines);
    ListStylesExact(lines);
    SourcesDiffer();
    if BulletSource in styles && NumberedSource in styles {
      assert styles == {BulletSource, NumberedSource};
      assert |{BulletSource, NumberedSource}| == 2;
    } else if BulletSource in styles {
      assert styles == {BulletSource};
    } else if NumberedSource in styles {
      assert styles == {NumberedSource};
    } else {
      assert styles == {};
    }
  }

  /** A style issue is reported exactly when the content mixes a bullet line and a numbered
      line, and then there is just one. */
  lemma StyleIssueExact(content: String, uuid: nat -> String)
    ensures var lines := SplitOn(content, "\n");
            var issues := StyleIssues(content, uuid);
            |issues| <= 1
            && (issues != [] <==> SomeLine(lines, IsBulletLine) && SomeLine(lines, IsNumberedLine))
  {
    MixedStyles(SplitOn(content, "\n"));
  }

  // ---------------------------------------------------------------- suggestions

  /** The text of an issue type. */
  function IssueTypeName(t: IssueType): String {
    match t
    case Terminology => "terminology"
    case Style => "style"
    case Structure => "structure"
    case Logic => "logic"
  }

  function SeverityRank(s: Severity): nat {
    match s
    case Low => 0
    case Medium => 1
    case High => 2
  }

  /** The confidence of a suggestion made from an issue of severity `s`. */
  function Confidence(s: Severity): real {
    if s == High then 0.9 else if s == Medium then 0.7 else 0.5
  }

  /** A more severe issue gives a strictly more confident suggestion. */
  lemma ConfidenceFollowsSeverity(a: Severity, b: Severity)
    ensures SeverityRank(a) < SeverityRank(b) <==> Confidence(a) < Confidence(b)
    ensures 0.0 < Confidence(a) < 1.0
  {
  }

  /** Whether an issue offers a suggestion. */
  predicate HasSuggestions(issue: ConsistencyIssue) {
    issue.suggestions != []
  }

  /** createSuggestionFromIssue with the fresh id `id`: nothing when the issue offers no
      suggestion; otherwise its first suggestion as a replacement (for terminology) or a
      restructuring (for the rest), titled by its message, with a confidence set by its
      severity. The original text is empty because getTextAtPosition always answers "". */
  function SuggestionFromIssue(issue: ConsistencyIssue, id: String): (r: Option<Suggestion>)
    ensures r.None? <==> !HasSuggestions(issue)
  {
    if issue.suggestions == [] then None
    else Some(Suggestion(id, if issue.kind == Terminology then Replace else Restructure, issue.message,
                         "Suggestion based on " + IssueTypeName(issue.kind) + " analysis", "",
                         issue.suggestions[0], Confidence(issue.severity), Semantic))
  }

  /** A terminology issue becomes a replacement by the main term of its group, with the
      confidence of a medium issue; the style issue becomes a restructuring with the lowest
      confidence. */
  lemma TerminologyBecomesReplacement(groups: seq<seq<SemanticTerm>>, uuid: nat -> String, k: nat, id: String)
    requires k < |TerminologyIssues(groups, uuid)|
    ensures var issue := TerminologyIssues(groups, uuid)[k];
            var r := SuggestionFromIssue(issue, id);
            r.Some? && r.value.kind == Replace && r.value.confidence == 0.7
            && exists f :: FlaggableIn(groups, f) && r.value.suggestedText == f.main.term
  {
    var flags := Flags(groups);
    assert TerminologyIssues(groups, uuid)[k] == TermIssue(flags[k], uuid(k));
    FlagsExact(groups);
    assert flags[k] in flags;
  }

  lemma StyleBecomesRestructuring(id: String, id': String)
    ensures var r := SuggestionFromIssue(StyleIssue(id), id');
            r.Some? && r.value.kind == Restructure && r.value.confidence == 0.5
            && r.value.suggestedText == "Use consistent bullet point style throughout the document"
  {
  }

  /** The suggestions of issues that all offer one, the `k`-th with the `k`-th fresh id. */
  function SuggestionsOf(offered: seq<ConsistencyIssue>, uuid: nat -> String): (r: seq<Suggestion>)
    requires forall k :: 0 <= k < |offered| ==> HasSuggestions(offered[k])
    ensures |r| == |offered|
  {
    seq(|offered|, k requires 0 <= k < |offered| => SuggestionFromIssue(offered[k], uuid(k)).value)
  }

  /** What generateSuggestions returns: the suggestion of every issue that offers one, in
      order, the `k`-th with the `k`-th fresh id. */
  function Suggestions(issues: seq<ConsistencyIssue>, uuid: nat -> String): (r: seq<Suggestion>)
    ensures |r| == |Filter(issues, HasSuggestions)|
  {
    SuggestionsOf(Filter(issues, HasSuggestions), uuid)
  }

  lemma SuggestionsOfSnoc(offered: seq<ConsistencyIssue>, x: ConsistencyIssue, uuid: nat -> String)
    requires forall k :: 0 <= k < |offered| ==> HasSuggestions(offered[k])
    requires HasSuggestions(x)
    ensures SuggestionsOf(offered + [x], uuid)
            == SuggestionsOf(offered, uuid) + [SuggestionFromIssue(x, uuid(|offered|)).value]
  {
    var a := SuggestionsOf(offered + [x], uuid);
    var b := SuggestionsOf(offered, uuid) + [SuggestionFromIssue(x, uuid(|offered|)).value];
    forall k | 0 <= k < |a| ensures a[k] == b[k] {
      assert (offered + [x])[k] == if k < |offered| then offered[k] else x;
    }
  }

  lemma SuggestionsSnoc(issues: seq<ConsistencyIssue>, issue: ConsistencyIssue, uuid: nat -> String)
    ensures var before := Suggestions(issues, uuid);
            Suggestions(issues + [issue], uuid)
            == before + match SuggestionFromIssue(issue, uuid(|before|)) case None => [] case Some(s) => [s]
  {
    var offered := Filter(issues, HasSuggestions);
    FilterAppend(issues, [issue], HasSuggestions);
    assert Filter([issue], HasSuggestions) == if HasSuggestions(issue) then [issue] else [];
    if HasSuggestions(issue) {
      SuggestionsOfSnoc(offered, issue, uuid);
    } else {
      assert offered + [] == offered;
    }
  }

  /** generateSuggestions: one suggestion for each issue that yields one; only those draw an
      id. */
  method GenerateSuggestions(issues: seq<ConsistencyIssue>, uuid: nat -> String) returns (suggestions: seq<Suggestion>)
    ensures suggestions == Suggestions(issues, uuid)
    ensures forall k :: 0 <= k < |suggestions| ==> suggestions[k].id == uuid(k)
  {
    suggestions := [];
    for i := 0 to |issues|
      invariant suggestions == Suggestions(issues[..i], uuid)
    {
      assert issues[..i + 1] == issues[..i] + [issues[i]];
      SuggestionsSnoc(issues[..i], issues[i], uuid);
      var suggestion := SuggestionFromIssue(issues[i], uuid(|suggestions|));
      if suggestion.Some? {
        suggestions := suggestions + [suggestion.value];
      }
    }
    assert issues[..|issues|] == issues;
  }

  // ---------------------------------------------------------------- paragraph positions

  /** Where findParagraphPosition places paragraph `index` of `content`: its offset among the
      pieces of a split on blank lines (the index clamped into range), the piece's length (0
      outside the range), the number of lines up to the offset, and column 1. */
  function ParagraphPosition(content: String, index: int): TermPosition {
    var paras := SplitOn(content, "\n\n");
    var n := if index < 0 then 0 else if index > |paras| then |paras| else index;
    var start := Offset(paras, n, 2);
    var len := if 0 <= index < |paras| then |paras[index]| else 0;
    TermPosition(start, start + len, |SplitOn(Substring(content, 0, start), "\n")|, 1)
  }

  /** findParagraphPosition. */
  method FindParagraphPosition(content: String, paragraphIndex: int) returns (p: TermPosition)
    ensures p == ParagraphPosition(content, paragraphIndex)
  {
    var paragraphs := SplitOn(content, "\n\n");
    var position := 0;
    var i := 0;
    while i < paragraphIndex && i < |paragraphs|
      invariant 0 <= i <= |paragraphs|
      invariant i == 0 || i <= paragraphIndex
      invariant position == Offset(paragraphs, i, 2)
    {
      position := position + |paragraphs[i]| + 2;
      i := i + 1;
    }
    var len := if 0 <= paragraphIndex < |paragraphs| then |paragraphs[paragraphIndex]| else 0;
    p := TermPosition(position, position + len, |SplitOn(Substring(content, 0, position), "\n")|, 1);
  }

  /** For an index in range the position spans exactly that paragraph of the content, and
      its line is one more than the number of line breaks before it. */
  lemma ParagraphPositionLocates(content: String, index: int)
    requires 0 <= index < |SplitOn(content, "\n\n")|
    ensures var p := ParagraphPosition(content, index);
            0 <= p.start <= p.end <= |content|
            && content[p.start..p.end] == SplitOn(content, "\n\n")[index]
            && p.line == 1 + Occurrences(content[..p.start], '\n') && p.column == 1
  {
    var paras := SplitOn(content, "\n\n");
    JoinSplitOn(content, "\n\n");
    JoinOffset(paras, "\n\n", index);
    var start := Offset(paras, index, 2);
    assert Substring(content, 0, start) == content[..start];
    SplitOnCharCount(content[..start], '\n');
    assert "\n" == ['\n'];
  }

  // ---------------------------------------------------------------- the engine

  /** A consistency rule of the engine. */
  datatype ConsistencyRule = ConsistencyRule(id: String, pattern: String, replacement: String, category: String,
                                             enabled: bool, userDefined: bool)

  /** The rules initializeDefaultRules installs. */
  const DefaultRules: seq<ConsistencyRule> := [
    ConsistencyRule("1", "frontend|front-end|front end", "frontend", "terminology", true, false),
    ConsistencyRule("2", "backend|back-end|back end", "backend", "terminology", true, false)
  ]

  /** The terms a successful analysis of `content` gives: the candidates of the term
      extractor turned into semantic terms. */
  function Analysis(content: String, p: TermExtraction.PatternMatches, uuid: nat -> String): seq<SemanticTerm> {
    Processed(Filter(TermExtraction.Deduplicated(Filter(TermExtraction.Candidates(content, p), TermExtraction.Admitted)),
                     TermExtraction.Kept),
              content, uuid)
  }

  /** The engine: a term cache keyed by content hash and the consistency rules. */
  class SemanticEngine {
    var termCache: map<String, seq<SemanticTerm>>
    var consistencyRules: seq<ConsistencyRule>

    constructor()
      ensures termCache == map[] && consistencyRules == DefaultRules
    {
      termCache := map[];
      consistencyRules := DefaultRules;
    }

    /** extractTerms: served from the cache when the hash of the content is there;
        otherwise the content is analysed and the result cached under that hash. `fails`
        stands for an exception during the analysis, which answers [] and caches nothing. */
    method ExtractTerms(content: String, p: TermExtraction.PatternMatches, fails: bool, uuid: nat -> String)
      returns (terms: seq<SemanticTerm>)
      modifies this
      ensures var s := Serve(old(termCache), content, if fails then None else Some(Analysis(content, p, uuid)));
              terms == s.terms && termCache == s.cache
      ensures consistencyRules == old(consistencyRules)
    {
      var contentHash := HashContent(content);
      if contentHash in termCache {
        return termCache[contentHash];
      }
      if fails {
        return [];
      }
      var extractedTerms := TermExtraction.ExtractTerms(content, p);
      var semanticTerms := ProcessExtractedTerms(extractedTerms, content, uuid);
      termCache := termCache[contentHash := semanticTerms];
      return semanticTerms;
    }
  }
}
