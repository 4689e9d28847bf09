/** The translation module: requests go to an external service when a key is configured and
    the text is long, unusual or complex, and are otherwise translated locally: dictionary
    words are replaced, sentence structure and style are adjusted, and spacing and
    punctuation are tidied for the target language.

    The external service's reply, the complex-structure test (seven regular expressions)
    and the regular-expression chains that adjust structure and style are parameters. */
module Translation {
  import opened Wrappers
  import opened Text
  import opened Collections
  import opened Dictionaries

  // ---------------------------------------------------------------- matching words

  /** `\b`: a word character on exactly one side of position `i`. */
  predicate IsBoundary(s: String, i: nat)
    requires i <= |s|
  {
    (i > 0 && IsWordChar(s[i - 1])) != (i < |s| && IsWordChar(s[i]))
  }

  /** Where a pattern needs `\b`: `Anywhere`, a plain literal; `Ascii`, the code's
      `\b...\b` on both sides; `NextToWordChars`, a boundary only on a side where the word
      ends in a word character. */
  datatype Boundaries = Anywhere | Ascii | NextToWordChars

  /** A literal word as a regular expression: its escaped text, the `i` flag or not, and
      the boundaries around it. */
  datatype Pattern = Pattern(word: String, caseless: bool, bounds: Boundaries)

  predicate NeedsStart(p: Pattern) {
    p.bounds == Ascii || (p.bounds == NextToWordChars && p.word != [] && IsWordChar(p.word[0]))
  }

  predicate NeedsEnd(p: Pattern) {
    p.bounds == Ascii
    || (p.bounds == NextToWordChars && p.word != [] && IsWordChar(p.word[|p.word| - 1]))
  }

  /** The pattern matches at position `i` of `s`; with the `i` flag letters are compared
      without case. */
  predicate WordAt(s: String, p: Pattern, i: nat) {
    i + |p.word| <= |s|
    && (if p.caseless then Lower(s[i..i + |p.word|]) == Lower(p.word) else s[i..i + |p.word|] == p.word)
    && (NeedsStart(p) ==> IsBoundary(s, i))
    && (NeedsEnd(p) ==> IsBoundary(s, i + |p.word|))
  }

  /** `matchAll(...)` finds something. */
  predicate HasWord(s: String, p: Pattern) {
    exists i: nat :: i <= |s| && WordAt(s, p, i)
  }

  /** The global replace from position `k` on: every match, left to right, replaced by
      `rep`; after an empty match one character is copied. The replacements used hold no
      `$`, so they are inserted as they are. */
  function ReplaceFrom(s: String, p: Pattern, rep: String, k: nat): String
    requires k <= |s|
    decreases |s| - k
  {
    if k + |p.word| > |s| then s[k..]
    else if WordAt(s, p, k) then
      if p.word != [] then rep + ReplaceFrom(s, p, rep, k + |p.word|)
      else if k < |s| then rep + [s[k]] + ReplaceFrom(s, p, rep, k + 1)
      else rep
    else if k < |s| then [s[k]] + ReplaceFrom(s, p, rep, k + 1)
    else []
  }

  /** `s.replace(regex, rep)` with a global regex. */
  function ReplaceWord(s: String, p: Pattern, rep: String): String {
    ReplaceFrom(s, p, rep, 0)
  }

  lemma {:induction false} ReplaceFromNone(s: String, p: Pattern, rep: String, k: nat)
    requires k <= |s|
    requires forall i: nat :: k <= i <= |s| ==> !WordAt(s, p, i)
    ensures ReplaceFrom(s, p, rep, k) == s[k..]
    decreases |s| - k
  {
    if k < |s| {
      ReplaceFromNone(s, p, rep, k + 1);
      assert s[k..] == [s[k]] + s[k + 1..];
    }
  }

  /** A text without the word is left as it is. */
  lemma ReplaceWordAbsent(s: String, p: Pattern, rep: String)
    requires !HasWord(s, p)
    ensures ReplaceWord(s, p, rep) == s
  {
    ReplaceFromNone(s, p, rep, 0);
  }

  /** A case-sensitive literal one-character pattern: afterwards the character is gone, if
      the replacement lacks it. */
  lemma {:induction false} ReplaceFromLacks(s: String, c: char, rep: String, k: nat)
    requires k <= |s| && c !in rep
    ensures c !in ReplaceFrom(s, Pattern([c], false, Anywhere), rep, k)
    decreases |s| - k
  {
    var p := Pattern([c], false, Anywhere);
    if k + 1 <= |s| {
      ReplaceFromLacks(s, c, rep, k + 1);
      if !WordAt(s, p, k) {
        assert s[k..k + 1] == [s[k]];
      }
    }
  }

  /** A match at `k` is replaced and the search resumes after it. */
  lemma ReplaceFromAt(s: String, p: Pattern, rep: String, k: nat)
    requires k + |p.word| <= |s| && p.word != [] && WordAt(s, p, k)
    ensures ReplaceFrom(s, p, rep, k) == rep + ReplaceFrom(s, p, rep, k + |p.word|)
  {
  }

  /** A character where no match starts is kept and the search moves one on. */
  lemma ReplaceFromPast(s: String, p: Pattern, rep: String, k: nat)
    requires k + |p.word| <= |s| && k < |s| && !WordAt(s, p, k)
    ensures ReplaceFrom(s, p, rep, k) == [s[k]] + ReplaceFrom(s, p, rep, k + 1)
  {
  }

  /** Boundaries only next to word characters are the code's `\b...\b` for every word that
      begins and ends with a word character, which is every English word. */
  lemma WordAtAgree(s: String, w: String, caseless: bool, i: nat)
    requires w != [] && IsWordChar(w[0]) && IsWordChar(w[|w| - 1])
    ensures WordAt(s, Pattern(w, caseless, Ascii), i) == WordAt(s, Pattern(w, caseless, NextToWordChars), i)
  {
    assert NeedsStart(Pattern(w, caseless, NextToWordChars)) && NeedsEnd(Pattern(w, caseless, NextToWordChars));
  }

  /** One step of SameMatchesSameReplace: patterns that agree at `k` and replace alike from
      where the search resumes replace alike from `k`. */
  lemma SameReplaceStep(s: String, p: Pattern, q: Pattern, rep: String, k: nat, next: nat)
    requires p.word != [] && |p.word| == |q.word| && k + |p.word| <= |s|
    requires WordAt(s, p, k) == WordAt(s, q, k)
    requires next == if WordAt(s, q, k) then k + |p.word| else k + 1
    requires ReplaceFrom(s, p, rep, next) == ReplaceFrom(s, q, rep, next)
    ensures ReplaceFrom(s, p, rep, k) == ReplaceFrom(s, q, rep, k)
  {
    if WordAt(s, q, k) {
      ReplaceFromAt(s, p, rep, k);
      ReplaceFromAt(s, q, rep, k);
    } else {
      ReplaceFromPast(s, p, rep, k);
      ReplaceFromPast(s, q, rep, k);
    }
  }

  /** Two patterns of the same non-empty length that match at the same places replace
      alike. */
  lemma {:induction false} SameMatchesSameReplace(s: String, p: Pattern, q: Pattern, rep: String, k: nat)
    requires p.word != [] && |p.word| == |q.word| && k <= |s|
    requires forall i: nat {:trigger WordAt(s, q, i)} :: WordAt(s, p, i) == WordAt(s, q, i)
    ensures ReplaceFrom(s, p, rep, k) == ReplaceFrom(s, q, rep, k)
    decreases |s| - k
  {
    if k + |p.word| <= |s| {
      var next := if WordAt(s, q, k) then k + |p.word| else k + 1;
      SameMatchesSameReplace(s, p, q, rep, next);
      SameReplaceStep(s, p, q, rep, k, next);
    }
  }

  lemma BoundariesAgree(s: String, w: String, caseless: bool, rep: String, k: nat)
    requires w != [] && IsWordChar(w[0]) && IsWordChar(w[|w| - 1]) && k <= |s|
    ensures ReplaceFrom(s, Pattern(w, caseless, Ascii), rep, k)
            == ReplaceFrom(s, Pattern(w, caseless, NextToWordChars), rep, k)
  {
    var p, q := Pattern(w, caseless, Ascii), Pattern(w, caseless, NextToWordChars);
    forall i: nat ensures WordAt(s, p, i) == WordAt(s, q, i) {
      WordAtAgree(s, w, caseless, i);
    }
    SameMatchesSameReplace(s, p, q, rep, k);
  }

  // ---------------------------------------------------------------- the dictionary pass

  /** The word loop of translateLocally: each entry whose word the ORIGINAL text holds is
      recorded, and its word is replaced in the text translated so far. */
  function Translated(text: String, dict: seq<Entry>, b: Boundaries): (String, seq<Entry>) {
    if dict == [] then (text, [])
    else
      var (t, pairs) := Translated(text, dict[..|dict| - 1], b);
      var e := dict[|dict| - 1];
      var p := Pattern(e.original, true, b);
      if HasWord(text, p) then (ReplaceWord(t, p, e.translated), pairs + [e]) else (t, pairs)
  }

  method TranslateWords(text: String, dict: seq<Entry>, b: Boundaries)
    returns (translated: String, pairs: seq<Entry>)
    ensures (translated, pairs) == Translated(text, dict, b)
  {
    translated, pairs := text, [];
    for i := 0 to |dict|
      invariant (translated, pairs) == Translated(text, dict[..i], b)
    {
      assert dict[..i + 1][..i] == dict[..i];
      var e := dict[i];
      var p := Pattern(e.original, true, b);
      if HasWord(text, p) {
        pairs := pairs + [e];
        translated := ReplaceWord(translated, p, e.translated);
      }
    }
    assert dict[..|dict|] == dict;
  }

  /** The recorded pairs are exactly the entries whose word the text holds, in dictionary
      order. */
  lemma {:induction false} TranslatedPairs(text: String, dict: seq<Entry>, b: Boundaries)
    ensures Translated(text, dict, b).1 == Filter(dict, (e: Entry) => HasWord(text, Pattern(e.original, true, b)))
  {
    if dict != [] {
      var n := |dict| - 1;
      TranslatedPairs(text, dict[..n], b);
      assert dict == dict[..n] + [dict[n]];
      FilterAppend(dict[..n], [dict[n]], (e: Entry) => HasWord(text, Pattern(e.original, true, b)));
    }
  }

  /** A text that holds none of the dictionary's words comes out unchanged, with no
      pairs. */
  lemma {:induction false} TranslatedUnchanged(text: String, dict: seq<Entry>, b: Boundaries)
    requires forall k :: 0 <= k < |dict| ==> !HasWord(text, Pattern(dict[k].original, true, b))
    ensures Translated(text, dict, b) == (text, [])
  {
    if dict != [] {
      var n := |dict| - 1;
      assert forall k :: 0 <= k < n ==> dict[..n][k] == dict[k];
      TranslatedUnchanged(text, dict[..n], b);
      assert !HasWord(text, Pattern(dict[n].original, true, b));
    }
  }

  /** As written, `\b` needs an ASCII letter, digit or underscore on one side, so a text
      without any such character (plain Chinese, say) never holds a dictionary word, and
      it comes out of the dictionary pass untouched. */
  lemma UnspacedTextNeverMatches(text: String, dict: seq<Entry>)
    requires AllChars(text, c => !IsWordChar(c))
    ensures Translated(text, dict, Ascii) == (text, [])
  {
    forall i: nat | i <= |text| ensures !IsBoundary(text, i) {
      if i > 0 { assert !IsWordChar(text[i - 1]); }
      if i < |text| { assert !IsWordChar(text[i]); }
    }
    forall k | 0 <= k < |dict| ensures !HasWord(text, Pattern(dict[k].original, true, Ascii)) {
      forall i: nat | i <= |text| ensures !WordAt(text, Pattern(dict[k].original, true, Ascii), i) {
        assert !IsBoundary(text, i);
      }
    }
    TranslatedUnchanged(text, dict, Ascii);
  }

  /** With boundaries only next to word characters, a word that begins and ends with other
      characters is found wherever it occurs. */
  lemma CjkWordFound(s: String, w: String, i: nat)
    requires w != [] && !IsWordChar(w[0]) && !IsWordChar(w[|w| - 1])
    requires i + |w| <= |s| && s[i..i + |w|] == w
    ensures WordAt(s, Pattern(w, true, NextToWordChars), i)
    ensures HasWord(s, Pattern(w, true, NextToWordChars))
  {
    var p := Pattern(w, true, NextToWordChars);
    assert !NeedsStart(p) && !NeedsEnd(p);
    assert Lower(s[i..i + |w|]) == Lower(w);
    assert WordAt(s, p, i);
  }

  /** "你好" and its entry, the first of the Chinese-English dictionary: the code leaves the
      text alone, the corrected boundaries translate it. */
  lemma HelloTranslated()
    ensures Translated("你好", [Entry("你好", "hello")], Ascii) == ("你好", [])
    ensures Translated("你好", [Entry("你好", "hello")], NextToWordChars) == ("hello", [Entry("你好", "hello")])
  {
    var hello := Entry("你好", "hello");
    var s: String := "你好";
    assert AllChars(s, c => !IsWordChar(c));
    UnspacedTextNeverMatches(s, [hello]);
    assert s[0..2] == s;
    CjkWordFound(s, s, 0);
    var p := Pattern(s, true, NextToWordChars);
    assert ReplaceFrom(s, p, "hello", 2) == [];
    assert ReplaceWord(s, p, "hello") == "hello";
    assert [hello][..0] == [];
    assert HasWord(s, p);
    assert Translated(s, [hello], NextToWordChars) == (ReplaceWord(s, p, "hello"), [] + [hello]);
    assert [] + [hello] == [hello];
    assert Translated(s, [hello], NextToWordChars) == ("hello", [hello]);
  }

  // ---------------------------------------------------------------- escaping

  predicate IsRegexSpecial(c: char) { c in ".*+?^${}()|[]\\" }

  /** escapeRegex: a backslash before each special character. */
  function Escape(s: String): (r: String)
    ensures |r| == |s| + Count(s, IsRegexSpecial)
  {
    if s == [] then []
    else (if IsRegexSpecial(s[0]) then ['\\', s[0]] else [s[0]]) + Escape(s[1..])
  }

  /** Reading a pattern as a literal: a backslash stands for the character after it. */
  function Unescape(s: String): String {
    if s == [] then []
    else if s[0] == '\\' && |s| >= 2 then [s[1]] + Unescape(s[2..])
    else [s[0]] + Unescape(s[1..])
  }

  /** The escaped word, read as a literal, is the word itself: the pattern matches the word
      and nothing else. */
  lemma {:induction false} EscapeRoundTrip(s: String)
    ensures Unescape(Escape(s)) == s
  {
    if s != [] {
      EscapeRoundTrip(s[1..]);
      var head: String := if IsRegexSpecial(s[0]) then ['\\', s[0]] else [s[0]];
      var e := head + Escape(s[1..]);
      assert Escape(s) == e;
      if IsRegexSpecial(s[0]) {
        assert e[2..] == Escape(s[1..]);
      } else {
        assert e[1..] == Escape(s[1..]);
      }
      assert [s[0]] + s[1..] == s;
    }
  }

  // ---------------------------------------------------------------- sentence structure and style

  /** The sentence-structure rewrites for Chinese to English and English to Chinese:
      regular expressions with capture groups, taken as given functions. */
  datatype Adjusters = Adjusters(toEnglish: String -> String, toChinese: String -> String)

  /** adjustSentenceStructure: only the two supported directions are rewritten. */
  function Adjust(text: String, from: String, to: String, adjust: Adjusters): String {
    if from == "zh" && to == "en" then adjust.toEnglish(text)
    else if from == "en" && to == "zh" then adjust.toChinese(text)
    else text
  }

  /** The styles a request may ask for. */
  datatype Style = Formal | Casual | Technical | Literary | Business | Academic

  /** A chain of global replaces, applied in order. */
  function ApplyRules(s: String, rules: seq<(Pattern, String)>): String
    decreases |rules|
  {
    if rules == [] then s
    else ApplyRules(ReplaceWord(s, rules[0].0, rules[0].1), rules[1..])
  }

  /** A case-sensitive `\b...\b` rule and a plain literal rule. */
  function WordRule(w: String, rep: String, b: Boundaries): (Pattern, String) {
    (Pattern(w, false, b), rep)
  }

  function LiteralRule(w: String, rep: String): (Pattern, String) {
    (Pattern(w, false, Anywhere), rep)
  }

  /** The rewrites of applyTranslationStyle for a style and a target language; technical
      terms are matched without case, as the `gi` flags say. */
  function StyleRules(style: Style, language: String, b: Boundaries): seq<(Pattern, String)> {
    match style
    case Formal =>
      if language == "en" then
        [WordRule("can't", "cannot", b), WordRule("won't", "will not", b), WordRule("don't", "do not", b)]
      else if language == "zh" then
        [LiteralRule("很", "非常"), LiteralRule("挺", "相当"), LiteralRule("不错", "良好")]
      else []
    case Casual =>
      if language == "en" then
        [WordRule("cannot", "can't", b), WordRule("will not", "won't", b), WordRule("do not", "don't", b)]
      else if language == "zh" then
        [LiteralRule("非常", "很"), LiteralRule("相当", "挺"), LiteralRule("良好", "不错")]
      else []
    case Technical =>
      if language == "en" then
        [(Pattern("算法", true, b), "algorithm"), (Pattern("数据结构", true, b), "data structure"),
         (Pattern("接口", true, b), "interface"), (Pattern("协议", true, b), "protocol")]
      else if language == "zh" then
        [(Pattern("algorithm", true, b), "算法"), (Pattern("data structure", true, b), "数据结构"),
         (Pattern("interface", true, b), "接口"), (Pattern("protocol", true, b), "协议")]
      else []
    case Literary =>
      if language == "zh" then
        [LiteralRule("很美", "美不胜收"), LiteralRule("很好", "极佳"), LiteralRule("很大", "硕大无比")]
      else if language == "en" then
        [WordRule("very beautiful", "breathtakingly beautiful", b), WordRule("very good", "excellent", b),
         WordRule("very big", "enormous", b)]
      else []
    case _ => []
  }

  /** applyTranslationStyle; a request without a style is left alone. */
  function Restyle(text: String, style: Option<Style>, language: String, b: Boundaries): String {
    match style
    case None => text
    case Some(st) => ApplyRules(text, StyleRules(st, language, b))
  }

  /** Formal Chinese: no 很 and no 挺 is left, whatever the text. */
  lemma FormalChineseLacks(text: String, b: Boundaries)
    ensures var r := Restyle(text, Some(Formal), "zh", b);
            '很' !in r && '挺' !in r
  {
    var s1 := ReplaceWord(text, Pattern("很", false, Anywhere), "非常");
    ReplaceFromLacks(text, '很', "非常", 0);
    var s2 := ReplaceWord(s1, Pattern("挺", false, Anywhere), "相当");
    ReplaceFromLacks(s1, '挺', "相当", 0);
    ReplaceKeepsOut(s1, Pattern("挺", false, Anywhere), "相当", '很', 0);
    var s3 := ReplaceWord(s2, Pattern("不错", false, Anywhere), "良好");
    ReplaceKeepsOut(s2, Pattern("不错", false, Anywhere), "良好", '很', 0);
    ReplaceKeepsOut(s2, Pattern("不错", false, Anywhere), "良好", '挺', 0);
    var rules := StyleRules(Formal, "zh", b);
    assert rules == [LiteralRule("很", "非常"), LiteralRule("挺", "相当"), LiteralRule("不错", "良好")];
    assert ApplyRules(text, rules) == ApplyRules(s1, rules[1..]);
    assert ApplyRules(s1, rules[1..]) == ApplyRules(s2, rules[2..]);
    assert ApplyRules(s2, rules[2..]) == ApplyRules(s3, rules[3..]);
    assert rules[3..] == [];
  }

  /** A character that neither the text nor the replacement holds is not brought in. */
  lemma {:induction false} ReplaceKeepsOut(s: String, p: Pattern, rep: String, c: char, k: nat)
    requires k <= |s| && c !in s && c !in rep
    ensures c !in ReplaceFrom(s, p, rep, k)
    decreases |s| - k
  {
    if k + |p.word| <= |s| {
      if WordAt(s, p, k) && p.word != [] {
        ReplaceKeepsOut(s, p, rep, c, k + |p.word|);
      } else if k < |s| {
        ReplaceKeepsOut(s, p, rep, c, k + 1);
      }
    } else {
      assert forall i :: k <= i < |s| ==> s[i] in s;
    }
  }

  // ---------------------------------------------------------------- spacing

  /** `replace(/\s+/g, ' ')`: each white-space run becomes one space. */
  function Collapse(s: String): String
    decreases |s|
  {
    if s == [] then []
    else if IsJsSpace(s[0]) then " " + Collapse(DropRun(s, IsJsSpace))
    else [s[0]] + Collapse(s[1..])
  }

  /** Every white-space character is a space, and no two are adjacent. */
  predicate SingleSpaced(r: String) {
    (forall i :: 0 <= i < |r| && IsJsSpace(r[i]) ==> r[i] == ' ')
    && (forall i :: 0 < i < |r| && IsJsSpace(r[i]) ==> !IsJsSpace(r[i - 1]))
  }

  predicate NotSpace(c: char) { !IsJsSpace(c) }

  lemma {:induction false} FilterNoSpace(xs: String)
    requires AllChars(xs, IsJsSpace)
    ensures Filter(xs, NotSpace) == []
  {
    if xs != [] {
      FilterNoSpace(xs[1..]);
    }
  }

  /** Collapsing leaves single spaces, and starts with a space only where the text starts
      with white space. */
  lemma {:induction false} CollapseSpacing(s: String)
    ensures var c := Collapse(s);
            SingleSpaced(c) && (c != [] ==> (IsJsSpace(c[0]) <==> IsJsSpace(s[0])))
    decreases |s|
  {
    if s != [] {
      if IsJsSpace(s[0]) {
        var t := DropRun(s, IsJsSpace);
        DropRunFacts(s, IsJsSpace);
        CollapseSpacing(t);
        var c := Collapse(t);
        assert Collapse(s) == " " + c;
        assert c != [] ==> !IsJsSpace(c[0]) by {
          if c != [] { assert t != [] && !IsJsSpace(t[0]); }
        }
      } else {
        CollapseSpacing(s[1..]);
        assert Collapse(s) == [s[0]] + Collapse(s[1..]);
      }
    }
  }

  /** The step of CollapseKeeps at a white-space character. */
  lemma CollapseKeepsAtSpace(s: String)
    requires s != [] && IsJsSpace(s[0])
    requires Filter(Collapse(DropRun(s, IsJsSpace)), NotSpace) == Filter(DropRun(s, IsJsSpace), NotSpace)
    ensures Filter(Collapse(s), NotSpace) == Filter(s, NotSpace)
  {
    var t := DropRun(s, IsJsSpace);
    assert Collapse(s) == " " + Collapse(t);
    FilterAppend(" ", Collapse(t), NotSpace);
    DropRunKeeps(s);
  }

  /** The step of CollapseKeeps at any other character. */
  lemma CollapseKeepsAtOther(s: String)
    requires s != [] && !IsJsSpace(s[0])
    requires Filter(Collapse(s[1..]), NotSpace) == Filter(s[1..], NotSpace)
    ensures Filter(Collapse(s), NotSpace) == Filter(s, NotSpace)
  {
    assert Collapse(s) == [s[0]] + Collapse(s[1..]);
    FilterAppend([s[0]], Collapse(s[1..]), NotSpace);
    assert s == [s[0]] + s[1..];
    FilterAppend([s[0]], s[1..], NotSpace);
  }

  /** Collapsing keeps every character other than white space, in order. */
  lemma {:induction false} CollapseKeeps(s: String)
    ensures Filter(Collapse(s), NotSpace) == Filter(s, NotSpace)
    decreases |s|
  {
    if s != [] {
      if IsJsSpace(s[0]) {
        DropRunFacts(s, IsJsSpace);
        CollapseKeeps(DropRun(s, IsJsSpace));
        CollapseKeepsAtSpace(s);
      } else {
        CollapseKeeps(s[1..]);
        CollapseKeepsAtOther(s);
      }
    }
  }

  /** Trimming a single-spaced text leaves single spaces strictly inside it. */
  lemma TrimSpacing(c: String)
    requires SingleSpaced(c)
    ensures var r := JsTrim(c);
            SingleSpaced(r) && (r == [] || (!IsJsSpace(r[0]) && !IsJsSpace(r[|r| - 1])))
  {
    var t := DropRun(c, IsJsSpace);
    DropRunFacts(c, IsJsSpace);
    TrimEndFacts(t, IsJsSpace);
    TrimFacts(c, IsJsSpace);
    var r := TrimEnd(t, IsJsSpace);
    var a := |c| - |t|;
    assert r == c[a..a + |r|];
    SingleSpacedSlice(c, a, a + |r|);
  }

  /** Any stretch of a single-spaced text is single-spaced. */
  lemma SingleSpacedSlice(c: String, a: nat, b: nat)
    requires SingleSpaced(c) && a <= b <= |c|
    ensures SingleSpaced(c[a..b])
  {
    var r := c[a..b];
    forall i | 0 < i < |r| && IsJsSpace(r[i]) ensures !IsJsSpace(r[i - 1]) {
      assert r[i] == c[a + i] && r[i - 1] == c[a + i - 1];
    }
  }

  /** Dropping leading white space loses no other character. */
  lemma {:induction false} DropRunKeeps(c: String)
    ensures Filter(DropRun(c, IsJsSpace), NotSpace) == Filter(c, NotSpace)
  {
    if c != [] && IsJsSpace(c[0]) {
      DropRunKeeps(c[1..]);
    }
  }

  /** Dropping trailing white space loses no other character. */
  lemma {:induction false} TrimEndKeeps(t: String)
    ensures Filter(TrimEnd(t, IsJsSpace), NotSpace) == Filter(t, NotSpace)
  {
    if t != [] && IsJsSpace(t[|t| - 1]) {
      var n := |t| - 1;
      TrimEndKeeps(t[..n]);
      assert t == t[..n] + [t[n]];
      FilterAppend(t[..n], [t[n]], NotSpace);
      assert Filter([t[n]], NotSpace) == [];
    }
  }

  /** Trimming loses no character other than white space. */
  lemma TrimKeeps(c: String)
    ensures Filter(JsTrim(c), NotSpace) == Filter(c, NotSpace)
  {
    DropRunKeeps(c);
    TrimEndKeeps(DropRun(c, IsJsSpace));
  }

  /** The cleaning step leaves single spaces strictly inside the text and loses no
      character other than white space. */
  lemma CleanedFacts(s: String)
    ensures var r := JsTrim(Collapse(s));
            SingleSpaced(r) && (r == [] || (!IsJsSpace(r[0]) && !IsJsSpace(r[|r| - 1])))
            && Filter(r, NotSpace) == Filter(s, NotSpace)
  {
    CollapseSpacing(s);
    CollapseKeeps(s);
    TrimSpacing(Collapse(s));
    TrimKeeps(Collapse(s));
  }

  /** What trimming the end drops is separators. */
  lemma {:induction false} TrimEndSpaces(s: String, sp: char -> bool, i: nat)
    requires |TrimEnd(s, sp)| <= i < |s|
    ensures sp(s[i])
  {
    if s != [] && sp(s[|s| - 1]) && i < |s| - 1 {
      TrimEndSpaces(s[..|s| - 1], sp, i);
    }
  }

  // ---------------------------------------------------------------- punctuation

  /** Each ASCII mark and the full-width mark that replaces it in Chinese text. */
  const ChineseMarks: seq<(char, char)> :=
    [(',', '，'), ('.', '。'), ('?', '？'), ('!', '！'), (':', '：'), (';', '；')]

  /** Each full-width mark and the ASCII mark and space that replace it in English text. */
  const EnglishMarks: seq<(char, String)> :=
    [('，', ", "), ('。', ". "), ('？', "? "), ('！', "! "), ('：', ": "), ('；', "; ")]

  /** `replace(/\s*M\s*` + `/g, W)`: each mark, with the white space around it, becomes the
      full-width mark. The first piece loses its trailing white space, the last its leading
      white space, the pieces between both. */
  function SwapMark(s: String, mark: char, wide: char): String {
    if mark !in s then s
    else
      SplitWhereSplits(s, c => c == mark);
      var ps := SplitWhere(s, c => c == mark);
      var inner := seq(|ps| - 2, i requires 0 <= i < |ps| - 2 => JsTrim(ps[i + 1]));
      Join([TrimEnd(ps[0], IsJsSpace)] + inner + [DropRun(ps[|ps| - 1], IsJsSpace)], [wide])
  }

  /** A text with a separator character splits into at least two pieces. */
  lemma {:induction false} SplitWhereSplits(s: String, sep: char -> bool)
    requires exists i :: 0 <= i < |s| && sep(s[i])
    ensures |SplitWhere(s, sep)| >= 2
  {
    if !sep(s[0]) {
      var i :| 0 <= i < |s| && sep(s[i]);
      assert s[1..][i - 1] == s[i];
      SplitWhereSplits(s[1..], sep);
    }
  }

  lemma {:induction false} SplitWhereKeeps(s: String, sep: char -> bool, p: char -> bool)
    requires AllChars(s, p)
    ensures forall k :: 0 <= k < |SplitWhere(s, sep)| ==> AllChars(SplitWhere(s, sep)[k], p)
  {
    if s != [] {
      SplitWhereKeeps(s[1..], sep, p);
      var rest := SplitWhere(s[1..], sep);
      if !sep(s[0]) {
        assert forall i :: 0 < i < |[s[0]] + rest[0]| ==> ([s[0]] + rest[0])[i] == rest[0][i - 1];
      }
    }
  }

  /** Trimming never brings in a character. */
  lemma TrimsLack(p: String, c: char)
    requires c !in p
    ensures c !in TrimEnd(p, IsJsSpace) && c !in DropRun(p, IsJsSpace) && c !in JsTrim(p)
  {
    TrimEndFacts(p, IsJsSpace);
    DropRunFacts(p, IsJsSpace);
    TrimFacts(p, IsJsSpace);
  }

  /** After the swap the mark is gone, and no character other than the full-width mark is
      brought in. */
  lemma SwapMarkLacks(s: String, mark: char, wide: char, c: char)
    requires c != wide
    requires c in s ==> c == mark
    ensures c !in SwapMark(s, mark, wide)
  {
    if mark in s {
      var sep := x => x == mark;
      SplitWhereSplits(s, sep);
      var ps := SplitWhere(s, sep);
      SplitWherePieces(s, sep);
      SplitWhereKeeps(s, sep, x => x == mark || x != c);
      var inner := seq(|ps| - 2, i requires 0 <= i < |ps| - 2 => JsTrim(ps[i + 1]));
      var parts := [TrimEnd(ps[0], IsJsSpace)] + inner + [DropRun(ps[|ps| - 1], IsJsSpace)];
      forall k | 0 <= k < |ps| ensures c !in ps[k] {
        forall i | 0 <= i < |ps[k]| ensures ps[k][i] != c {
          assert !sep(ps[k][i]);
        }
      }
      forall k | 0 <= k < |parts| ensures c !in parts[k] {
        if k == 0 {
          TrimsLack(ps[0], c);
        } else if k == |parts| - 1 {
          TrimsLack(ps[|ps| - 1], c);
        } else {
          assert parts[k] == inner[k - 1];
          TrimsLack(ps[k], c);
        }
      }
      JoinLacks(parts, [wide], c);
    }
  }

  /** The six Chinese swaps in order. */
  function SwapMarks(s: String, marks: seq<(char, char)>): String {
    if marks == [] then s
    else SwapMark(SwapMarks(s, marks[..|marks| - 1]), marks[|marks| - 1].0, marks[|marks| - 1].1)
  }

  /** After the swaps a mark is gone, and a character the text lacks is not brought in
      unless it is a full-width mark. */
  lemma {:induction false} SwapMarksLack(s: String, marks: seq<(char, char)>, c: char)
    requires forall i :: 0 <= i < |marks| ==> marks[i].1 != c
    requires c in s ==> exists i :: 0 <= i < |marks| && marks[i].0 == c
    ensures c !in SwapMarks(s, marks)
  {
    if marks != [] {
      var n := |marks| - 1;
      var (m, w) := marks[n];
      if c != m {
        if c in s {
          var i :| 0 <= i < |marks| && marks[i].0 == c;
          assert marks[..n][i] == marks[i];
        }
        SwapMarksLack(s, marks[..n], c);
      }
      SwapMarkLacks(SwapMarks(s, marks[..n]), m, w, c);
    }
  }

  /** The six English replacements in order. */
  function NarrowMarks(s: String, marks: seq<(char, String)>): String {
    if marks == [] then s
    else ReplaceAll(NarrowMarks(s, marks[..|marks| - 1]), [marks[|marks| - 1].0], marks[|marks| - 1].1)
  }

  /** After the replacements a mark is gone, and no character the text and the
      replacements lack is brought in. */
  lemma {:induction false} NarrowMarksLack(s: String, marks: seq<(char, String)>, c: char)
    requires forall i :: 0 <= i < |marks| ==> c !in marks[i].1
    requires c in s ==> exists i :: 0 <= i < |marks| && marks[i].0 == c
    ensures c !in NarrowMarks(s, marks)
  {
    if marks != [] {
      var n := |marks| - 1;
      var (m, rep) := marks[n];
      if c != m {
        if c in s {
          var i :| 0 <= i < |marks| && marks[i].0 == c;
          assert marks[..n][i] == marks[i];
        }
        NarrowMarksLack(s, marks[..n], c);
      }
      ReplaceAllLacks(NarrowMarks(s, marks[..n]), [m], rep, c);
    }
  }

  // ---------------------------------------------------------------- capitals

  /** `replace(/^\w/, c => c.toUpperCase())`. */
  function CapitalizeFirst(s: String): String {
    if s != [] && IsWordChar(s[0]) then [UpperChar(s[0])] + s[1..] else s
  }

  /** The end of the white-space run starting at `i`. */
  function RunEnd(s: String, i: nat): (r: nat)
    requires i <= |s|
    ensures i <= r <= |s|
    ensures forall m :: i <= m < r ==> IsJsSpace(s[m])
    ensures r < |s| ==> !IsJsSpace(s[r])
    decreases |s| - i
  {
    if i < |s| && IsJsSpace(s[i]) then RunEnd(s, i + 1) else i
  }

  /** Where `\.\s+\w` matches at `k`: the position of its word character. */
  function MatchEnd(s: String, k: nat): Option<nat>
    requires k < |s|
  {
    if s[k] != '.' then None
    else
      var e := RunEnd(s, k + 1);
      if k + 1 < e < |s| && IsWordChar(s[e]) then Some(e) else None
  }

  /** `replace(/\.\s+\w/g, ...)` from position `k` on: each match keeps its full stop and
      white space and upper-cases its word character; the search resumes after it. */
  function CapFrom(s: String, k: nat): (r: String)
    requires k <= |s|
    ensures |r| == |s| - k
    decreases |s| - k
  {
    if k == |s| then []
    else match MatchEnd(s, k)
      case Some(e) => s[k..e] + [UpperChar(s[e])] + CapFrom(s, e + 1)
      case None => [s[k]] + CapFrom(s, k + 1)
  }

  function CapitalizeSentences(s: String): String {
    CapFrom(s, 0)
  }

  /** Position `j` follows a full stop at or after `k` and a non-empty white-space run. */
  predicate AfterStop(s: String, k: nat, j: nat)
    requires j <= |s|
    decreases j
  {
    k + 2 <= j && IsJsSpace(s[j - 1]) && (s[j - 2] == '.' || AfterStop(s, k, j - 1))
  }

  /** A sentence start: a word character after a full stop and white space. */
  predicate SentenceStart(s: String, j: nat) {
    j < |s| && IsWordChar(s[j]) && AfterStop(s, 0, j)
  }

  /** What AfterStop says, with the full stop's position named. */
  lemma {:induction false} AfterStopWitness(s: String, k: nat, j: nat)
    requires j <= |s| && AfterStop(s, k, j)
    ensures exists d :: k <= d && d + 2 <= j && s[d] == '.' && AllSpace(s, d + 1, j)
    decreases j
  {
    if s[j - 2] == '.' {
      assert AllSpace(s, j - 1, j);
    } else {
      AfterStopWitness(s, k, j - 1);
      var d :| k <= d && d + 2 <= j - 1 && s[d] == '.' && AllSpace(s, d + 1, j - 1);
      assert AllSpace(s, d + 1, j);
    }
  }

  lemma {:induction false} AfterStopFrom(s: String, k: nat, d: nat, j: nat)
    requires j <= |s| && k <= d && d + 2 <= j && s[d] == '.' && AllSpace(s, d + 1, j)
    ensures AfterStop(s, k, j)
    decreases j
  {
    if d + 2 < j {
      AfterStopFrom(s, k, d, j - 1);
    }
  }

  predicate AllSpace(s: String, a: nat, b: nat)
    requires a <= b <= |s|
  {
    forall m :: a <= m < b ==> IsJsSpace(s[m])
  }

  /** Moving the start of the search past a position that begins no match changes no word
      character's status. */
  lemma StepKeeps(s: String, k: nat, j: nat)
    requires k < j < |s| && IsWordChar(s[j]) && MatchEnd(s, k).None?
    ensures AfterStop(s, k, j) <==> AfterStop(s, k + 1, j)
  {
    if AfterStop(s, k, j) {
      AfterStopWitness(s, k, j);
      var d :| k <= d && d + 2 <= j && s[d] == '.' && AllSpace(s, d + 1, j);
      if d == k {
        assert false;
      }
      AfterStopFrom(s, k + 1, d, j);
    }
    if AfterStop(s, k + 1, j) {
      AfterStopWitness(s, k + 1, j);
      var d :| k + 1 <= d && d + 2 <= j && s[d] == '.' && AllSpace(s, d + 1, j);
      AfterStopFrom(s, k, d, j);
    }
  }

  /** Past a match, only full stops after its word character count. */
  lemma JumpKeeps(s: String, k: nat, e: nat, j: nat)
    requires k < |s| && MatchEnd(s, k) == Some(e) && e < j < |s| && IsWordChar(s[j])
    ensures AfterStop(s, k, j) <==> AfterStop(s, e + 1, j)
  {
    if AfterStop(s, k, j) {
      AfterStopWitness(s, k, j);
      var d :| k <= d && d + 2 <= j && s[d] == '.' && AllSpace(s, d + 1, j);
      assert e < d;
      AfterStopFrom(s, e + 1, d, j);
    }
    if AfterStop(s, e + 1, j) {
      AfterStopWitness(s, e + 1, j);
      var d :| e + 1 <= d && d + 2 <= j && s[d] == '.' && AllSpace(s, d + 1, j);
      AfterStopFrom(s, k, d, j);
    }
  }

  /** The global search upper-cases exactly the word characters that follow a full stop
      and white space, and keeps every other character. */
  lemma CapFromPointwise(s: String, k: nat)
    requires k <= |s|
    ensures forall j :: k <= j < |s| ==>
              CapFrom(s, k)[j - k] == if IsWordChar(s[j]) && AfterStop(s, k, j) then UpperChar(s[j]) else s[j]
  {
    CapFromAgrees(s, k);
  }

  /** The characters produced by the search from `k` on, each as CapFromPointwise states. */
  predicate CapAgrees(s: String, k: nat)
    requires k <= |s|
  {
    |CapFrom(s, k)| == |s| - k
    && forall j :: k <= j < |s| ==>
         CapFrom(s, k)[j - k] == if IsWordChar(s[j]) && AfterStop(s, k, j) then UpperChar(s[j]) else s[j]
  }

  lemma {:induction false} CapFromAgrees(s: String, k: nat)
    requires k <= |s|
    ensures CapAgrees(s, k)
    decreases |s| - k
  {
    if k < |s| {
      match MatchEnd(s, k)
      case Some(e) =>
        CapFromAgrees(s, e + 1);
        CapFromAtMatch(s, k, e);
      case None =>
        CapFromAgrees(s, k + 1);
        CapFromAtOther(s, k);
    }
  }

  /** The step of CapFromPointwise where a match starts at `k` and ends at `e`. */
  lemma CapFromAtMatch(s: String, k: nat, e: nat)
    requires k < |s| && MatchEnd(s, k) == Some(e) && CapAgrees(s, e + 1)
    ensures CapAgrees(s, k)
  {
    var r := CapFrom(s, k);
    var rest := CapFrom(s, e + 1);
    assert r == s[k..e] + [UpperChar(s[e])] + rest;
    forall j | k <= j < |s|
      ensures r[j - k] == if IsWordChar(s[j]) && AfterStop(s, k, j) then UpperChar(s[j]) else s[j]
    {
      if j < e {
        assert r[j - k] == s[j];
        assert j == k || IsJsSpace(s[j]);
      } else if j == e {
        AfterStopFrom(s, k, k, e);
      } else {
        assert r[j - k] == rest[j - (e + 1)];
        if IsWordChar(s[j]) { JumpKeeps(s, k, e, j); }
      }
    }
  }

  /** The step of CapFromPointwise where no match starts at `k`. */
  lemma CapFromAtOther(s: String, k: nat)
    requires k < |s| && MatchEnd(s, k).None? && CapAgrees(s, k + 1)
    ensures CapAgrees(s, k)
  {
    var r := CapFrom(s, k);
    var rest := CapFrom(s, k + 1);
    assert r == [s[k]] + rest;
    forall j | k <= j < |s|
      ensures r[j - k] == if IsWordChar(s[j]) && AfterStop(s, k, j) then UpperChar(s[j]) else s[j]
    {
      if j > k {
        assert r[j - k] == rest[j - (k + 1)];
        if IsWordChar(s[j]) { StepKeeps(s, k, j); }
      }
    }
  }

  /** The partner of the search: the sentence starts, and only they, are upper-cased. */
  lemma CapitalizeSentencesPointwise(s: String)
    ensures var r := CapitalizeSentences(s);
            |r| == |s|
            && forall j :: 0 <= j < |s| ==> r[j] == if SentenceStart(s, j) then UpperChar(s[j]) else s[j]
  {
    CapFromPointwise(s, 0);
  }

  /** Capitalising changes only ASCII lower-case letters, to their capitals. */
  lemma CapitalizeKeeps(s: String)
    ensures var r := CapitalizeSentences(CapitalizeFirst(s));
            |r| == |s|
            && (forall j :: 0 <= j < |s| ==> r[j] == s[j] || (IsAsciiLower(s[j]) && r[j] == UpperChar(s[j])))
            && (s != [] && IsWordChar(s[0]) ==> !IsAsciiLower(r[0]))
  {
    var f := CapitalizeFirst(s);
    CapitalizeSentencesPointwise(f);
  }

  // ---------------------------------------------------------------- post-processing

  /** postProcessTranslation. */
  function PostProcess(text: String, to: String): String {
    var cleaned := JsTrim(Collapse(text));
    if to == "zh" then SwapMarks(cleaned, ChineseMarks)
    else if to == "en" then CapitalizeSentences(CapitalizeFirst(NarrowMarks(cleaned, EnglishMarks)))
    else cleaned
  }

  /** Chinese output holds none of the ASCII marks `,.?!:;`. */
  lemma ChineseOutputLacksAsciiMarks(text: String, c: char)
    requires c in ",.?!:;"
    ensures c !in PostProcess(text, "zh")
  {
    var cleaned := JsTrim(Collapse(text));
    var i := if c == ',' then 0 else if c == '.' then 1 else if c == '?' then 2
             else if c == '!' then 3 else if c == ':' then 4 else 5;
    assert ChineseMarks[i].0 == c;
    SwapMarksLack(cleaned, ChineseMarks, c);
  }

  /** English output holds none of the full-width marks `，。？！：；`, and it starts with no
      ASCII lower-case letter. */
  lemma EnglishOutputFacts(text: String, c: char)
    requires c in "，。？！：；"
    ensures var r := PostProcess(text, "en");
            c !in r && (r != [] ==> !IsAsciiLower(r[0]))
  {
    var cleaned := JsTrim(Collapse(text));
    var n := NarrowMarks(cleaned, EnglishMarks);
    var i := if c == '，' then 0 else if c == '。' then 1 else if c == '？' then 2
             else if c == '！' then 3 else if c == '：' then 4 else 5;
    assert EnglishMarks[i].0 == c;
    NarrowMarksLack(cleaned, EnglishMarks, c);
    CapitalizeKeeps(n);
    var r := PostProcess(text, "en");
    forall j | 0 <= j < |r| ensures r[j] != c {
      assert r[j] == n[j] || IsAsciiUpper(r[j]);
    }
  }

  // ---------------------------------------------------------------- routing

  /** The dictionary key of a language pair. */
  function PairKey(from: String, to: String): String {
    from + "-" + to
  }

  /** The key names a language pair unambiguously: "zh-en" comes only from Chinese to
      English, "en-zh" only from English to Chinese. */
  lemma PairKeyFacts(from: String, to: String)
    ensures PairKey(from, to) == "zh-en" <==> from == "zh" && to == "en"
    ensures PairKey(from, to) == "en-zh" <==> from == "en" && to == "zh"
  {
    var k := PairKey(from, to);
    if k == "zh-en" || k == "en-zh" {
      assert k[|from|] == '-';
      assert from == k[..2] && to == k[3..];
    }
  }

  /** The pairs the local dictionaries support. */
  predicate Supported(from: String, to: String) {
    PairKey(from, to) in ["zh-en", "en-zh"]
  }

  /** shouldUseAPI: long text (over 500 UTF-16 code units), an unsupported pair, or a
      complex structure, which the `complex` verdict of the pattern tests supplies. */
  predicate ShouldUseApi(text: String, from: String, to: String, complex: bool) {
    Utf16Len(text) > 500 || !Supported(from, to) || complex
  }

  // ---------------------------------------------------------------- confidence

  /** A character outside `[\w\s一-鿿.,!?。，！？]`. */
  predicate IsSpecial(c: char) {
    !(IsWordChar(c) || IsJsSpace(c) || ('\U{4E00}' <= c <= '\U{9FFF}') || c in ".,!?。，！？")
  }

  predicate HasSpecial(text: String) {
    exists i :: 0 <= i < |text| && IsSpecial(text[i])
  }

  /** calculateTextComplexity: length, average sentence length and special characters,
      capped at 1. */
  function Complexity(text: String): (c: real)
    ensures 0.0 <= c <= 0.6
    ensures Utf16Len(text) > 1000 ==> c >= 0.3
    ensures HasSpecial(text) ==> c >= 0.1
  {
    var len := Utf16Len(text);
    var lengthPart := if len > 1000 then 0.3 else if len > 500 then 0.2 else if len > 200 then 0.1 else 0.0;
    var average := len as real / |SplitWhere(text, IsSentenceBreak)| as real;
    var sentencePart := if average > 100.0 then 0.2 else if average > 50.0 then 0.1 else 0.0;
    var specialPart := if HasSpecial(text) then 0.1 else 0.0;
    var sum := lengthPart + sentencePart + specialPart;
    if sum < 1.0 then sum else 1.0
  }

  datatype Method = Api | Local

  /** calculateConfidence: 0.9 for the service and 0.7 locally, reduced by up to 30% for
      complexity and by 20% for an unsupported pair, kept within [0.1, 1]. */
  function Confidence(text: String, from: String, to: String, m: Method): (r: real)
    ensures 0.1 <= r <= 1.0
  {
    var base := if m == Api then 0.9 else 0.7;
    var scaled := base * (1.0 - Complexity(text) * 0.3) * (if Supported(from, to) then 1.0 else 0.8);
    if scaled < 0.1 then 0.1 else if scaled > 1.0 then 1.0 else scaled
  }

  /** The bounds never bind: confidence lies between 0.4592 and 0.9, the service is trusted
      more than the dictionaries, and an unsupported pair costs a fifth. */
  lemma ConfidenceFacts(text: String, from: String, to: String)
    ensures 0.4592 <= Confidence(text, from, to, Local) < Confidence(text, from, to, Api) <= 0.9
    ensures Confidence(text, from, to, Local) <= 0.7
    ensures !Supported(from, to) ==> Confidence(text, from, to, Api) <= 0.72
    ensures Supported(from, to) ==> Confidence(text, from, to, Local) >= 0.574
  {
    var c := Complexity(text);
    ScaleBounds(c);
  }

  lemma ScaleBounds(c: real)
    requires 0.0 <= c <= 0.6
    ensures 0.82 <= 1.0 - c * 0.3 <= 1.0
  {
  }

  // ---------------------------------------------------------------- alternatives

  predicate Applies(text: String, syn: Synonym) {
    Contains(text, syn.word) && |syn.choices| > 0
  }

  /** generateAlternatives: the first table word the translation contains has its first
      occurrence replaced by its first synonym; that text is the one alternative, if it
      differs from the translation. */
  function AlternativesFrom(primary: String, table: seq<Synonym>): seq<String> {
    match FirstIndex(table, syn => Applies(primary, syn))
    case None => []
    case Some(i) =>
      var alternative := ReplaceFirst(primary, table[i].word, table[i].choices[0]);
      if alternative != primary then [alternative] else []
  }

  function Alternatives(primary: String): seq<String> {
    AlternativesFrom(primary, Synonyms)
  }

  method GenerateAlternatives(primary: String, table: seq<Synonym>) returns (alternatives: seq<String>)
    ensures alternatives == AlternativesFrom(primary, table)
  {
    for i := 0 to |table|
      invariant forall j :: 0 <= j < i ==> !Applies(primary, table[j])
    {
      if Applies(primary, table[i]) {
        FirstIndexAt(table, syn => Applies(primary, syn), i);
        var alternative := ReplaceFirst(primary, table[i].word, table[i].choices[0]);
        alternatives := if alternative != primary then [alternative] else [];
        return;
      }
    }
    alternatives := [];
  }

  /** Every entry has three choices, the first one different from the word and free of '$'. */
  ghost predicate TableWellFormed(table: seq<Synonym>) {
    forall i :: 0 <= i < |table| ==>
      |table[i].choices| == 3 && table[i].choices[0] != table[i].word
      && forall k :: 0 <= k < |table[i].choices[0]| ==> table[i].choices[0][k] != '$'
  }

  /** The synonym table is well formed. */
  lemma SynonymsWellFormed()
    ensures TableWellFormed(Synonyms)
  {
  }

  lemma SpliceDiffers(s: String, k: nat, w: String, x: String)
    requires k + |w| <= |s| && x != w
    ensures s[..k] + x + s[k + |w|..] != s[..k] + w + s[k + |w|..]
  {
    if |x| == |w| {
      assert (s[..k] + x + s[k + |w|..])[k..k + |w|] == x;
      assert (s[..k] + w + s[k + |w|..])[k..k + |w|] == w;
    }
  }

  /** For a well-formed table there is an alternative exactly when the translation contains
      a table word; it is the translation with the first occurrence of the first such word
      replaced by that word's first synonym. */
  lemma AlternativesFromFacts(primary: String, table: seq<Synonym>)
    requires TableWellFormed(table)
    ensures var r := AlternativesFrom(primary, table);
            |r| <= 1
            && (r == [] <==> forall i :: 0 <= i < |table| ==> !Contains(primary, table[i].word))
            && (r != [] ==>
                  exists i, k :: 0 <= i < |table| && IsAt(primary, table[i].word, k)
                    && (forall j :: 0 <= j < i ==> !Contains(primary, table[j].word))
                    && (forall m :: 0 <= m < k ==> !IsAt(primary, table[i].word, m))
                    && r[0] == primary[..k] + table[i].choices[0] + primary[k + |table[i].word|..])
  {
    match FirstIndex(table, syn => Applies(primary, syn))
    case None =>
    case Some(i) =>
      var syn := table[i];
      ReplaceFirstWithoutDollar(primary, syn.word, syn.choices[0]);
      var k := IndexOf(primary, syn.word).value;
      assert primary == primary[..k] + syn.word + primary[k + |syn.word|..];
      SpliceDiffers(primary, k, syn.word, syn.choices[0]);
  }

  // ---------------------------------------------------------------- responses

  /** A translation request; `context` and `preserveFormatting` only shape the service
      prompt or are not read. */
  datatype Request = Request(text: String, fromLanguage: String, toLanguage: String, style: Option<Style>)

  datatype Response = Response(
    originalText: String,
    translatedText: String,
    fromLanguage: String,
    toLanguage: String,
    confidence: real,
    alternatives: seq<String>,
    via: Method,
    translationPairs: seq<Entry>)

  /** createTranslationResponse. */
  function CreateResponse(req: Request, translated: String, m: Method, pairs: seq<Entry>): (r: Response)
    ensures r.originalText == req.text && r.translatedText == translated && r.via == m
    ensures 0.4592 <= r.confidence <= 0.9
    ensures |r.alternatives| <= 1
  {
    ConfidenceFacts(req.text, req.fromLanguage, req.toLanguage);
    SynonymsWellFormed();
    AlternativesFromFacts(translated, Synonyms);
    Response(req.text, translated, req.fromLanguage, req.toLanguage,
             Confidence(req.text, req.fromLanguage, req.toLanguage, m), Alternatives(translated), m, pairs)
  }

  /** translateLocally with a dictionary: the word pass (with the `\b` boundaries as written),
      the sentence-structure rewrite, the style and the post-processing. */
  function LocalTranslation(req: Request, listed: seq<Entry>, adjust: Adjusters): (r: (String, seq<Entry>))
    ensures forall e :: e in r.1 ==> e in listed && HasWord(req.text, Pattern(e.original, true, Ascii))
  {
    var dict := MapOf(listed);
    MapOfFacts(listed);
    TranslatedPairs(req.text, dict, Ascii);
    var (words, pairs) := Translated(req.text, dict, Ascii);
    var adjusted := Adjust(words, req.fromLanguage, req.toLanguage, adjust);
    var styled := Restyle(adjusted, req.style, req.toLanguage, Ascii);
    (PostProcess(styled, req.toLanguage), pairs)
  }

  const FailureCode: String := "TRANSLATION_FAILED"
  const FailureMessage: String := "Failed to translate text"

  datatype Outcome = Success(response: Response) | Failure(code: String, message: String)

  /** The translation module: its status flags, the configured service key ("" when there
      is none) and the dictionaries by language pair, each kept as the pairs it was built
      from (the `Map` they build is their MapOf). */
  class TranslationModule {
    var loaded: bool
    var ready: bool
    var apiKey: String
    var dictionaryCache: map<String, seq<Entry>>

    /** A ready module has both dictionaries. */
    predicate Valid()
      reads this
    {
      ready ==> "zh-en" in dictionaryCache && "en-zh" in dictionaryCache
    }

    constructor()
      ensures Valid() && !loaded && !ready && apiKey == "" && dictionaryCache == map[]
    {
      loaded, ready, apiKey, dictionaryCache := false, false, "", map[];
    }

    /** initialize: loads both dictionaries and takes the configured key, or else the stored
        one. */
    method Initialize(configuredKey: String, storedKey: String)
      modifies this
      ensures Valid() && loaded && ready
      ensures dictionaryCache == old(dictionaryCache)["zh-en" := ChineseToEnglish]["en-zh" := EnglishToChinese]
      ensures apiKey == if configuredKey != "" then configuredKey else storedKey
    {
      dictionaryCache := dictionaryCache["zh-en" := ChineseToEnglish]["en-zh" := EnglishToChinese];
      apiKey := if configuredKey != "" then configuredKey else storedKey;
      loaded, ready := true, true;
    }

    /** cleanup: not ready, dictionaries dropped; the key is kept. */
    method Cleanup()
      modifies this
      ensures Valid() && !loaded && !ready && dictionaryCache == map[] && apiKey == old(apiKey)
    {
      loaded, ready, dictionaryCache := false, false, map[];
    }

    /** process: the service is asked when a key is configured and the request calls for it
        (`reply` is what it answered, None for a failed call); otherwise the dictionary of
        the pair translates it, and a pair without one fails. */
    method Process(req: Request, complex: bool, reply: Option<String>, adjust: Adjusters)
      returns (out: Outcome)
      ensures !ready ==> out == Failure(FailureCode, FailureMessage)
      ensures ready && apiKey != "" && ShouldUseApi(req.text, req.fromLanguage, req.toLanguage, complex) ==>
                out == (match reply
                        case None => Failure(FailureCode, FailureMessage)
                        case Some(t) => Success(CreateResponse(req, t, Api, [])))
      ensures ready && !(apiKey != "" && ShouldUseApi(req.text, req.fromLanguage, req.toLanguage, complex)) ==>
                var key := PairKey(req.fromLanguage, req.toLanguage);
                out == if key in dictionaryCache then
                         var (t, pairs) := LocalTranslation(req, dictionaryCache[key], adjust);
                         Success(CreateResponse(req, t, Local, pairs))
                       else Failure(FailureCode, FailureMessage)
      ensures Valid() && ready && Supported(req.fromLanguage, req.toLanguage) && apiKey == "" ==> out.Success?
    {
      if !ready {
        return Failure(FailureCode, FailureMessage);
      }
      if apiKey != "" && ShouldUseApi(req.text, req.fromLanguage, req.toLanguage, complex) {
        out := match reply
               case None => Failure(FailureCode, FailureMessage)
               case Some(t) => Success(CreateResponse(req, t, Api, []));
        return;
      }
      var key := PairKey(req.fromLanguage, req.toLanguage);
      if key !in dictionaryCache {
        return Failure(FailureCode, FailureMessage);
      }
      var words, pairs := TranslateWords(req.text, MapOf(dictionaryCache[key]), Ascii);
      var adjusted := Adjust(words, req.fromLanguage, req.toLanguage, adjust);
      var styled := Restyle(adjusted, req.style, req.toLanguage, Ascii);
      out := Success(CreateResponse(req, PostProcess(styled, req.toLanguage), Local, pairs));
    }
  }
}
