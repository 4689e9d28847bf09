/** The grammar-check module (src/modules/grammar-check/GrammarCheckModule.ts): a table of
    rules, each with a type, a severity and a pattern; a check runs the rules the request
    selects, reports one issue per match, splices the rules' suggestions into the text and
    scores it. The regular-expression engine is an input: for each rule id, the matches
    `matchAll` finds in the text, in order. */
module GrammarCheck {
  import opened Wrappers
  import opened Text
  import opened Collections
  import opened Sorting

  // ---------------------------------------------------------------- records

  datatype IssueType = Spelling | Grammar | Style | Clarity

  datatype Severity = Error | Warning | Suggestion

  function TypeName(t: IssueType): String {
    match t
    case Spelling => "spelling"
    case Grammar => "grammar"
    case Style => "style"
    case Clarity => "clarity"
  }

  /** A rule. Its pattern lives in the regular-expression engine; the one validator the
      table uses (`match.length > 100`) is a length the match must exceed. */
  datatype Rule = Rule(id: String, kind: IssueType, severity: Severity, message: String,
                       suggestion: String, longerThan: Option<nat>)

  /** One result of `matchAll`: where it starts and what it matched. */
  datatype Match = Match(index: nat, text: String)

  datatype Issue = Issue(kind: IssueType, severity: Severity, message: String, start: int,
                         end: int, suggestions: seq<String>, rule: String)

  datatype Request = Request(text: String, checkTypes: Option<seq<IssueType>>,
                             strictness: Option<String>)

  datatype Response = Response(originalText: String, issues: seq<Issue>, correctedText: String,
                               totalIssues: nat, issuesByType: map<String, nat>,
                               overallScore: int)

  datatype Outcome = Success(data: Response) | Failure(code: String, message: String)

  const FailureCode: String := "GRAMMAR_CHECK_FAILED"
  const FailureMessage: String := "Grammar check failed"

  /** The rule table loadGrammarRules installs, in order. */
  function DefaultRules(): seq<Rule> {
    [ Rule("punctuation_spacing", Style, Suggestion, "中文标点符号后不需要空格", "删除标点符号后的空格", None),
      Rule("english_spacing", Style, Warning, "中英文之间建议添加空格", "在中英文之间添加空格以提高可读性", None),
      Rule("redundant_words", Style, Warning, "发现重复词语", "删除重复的词语", None),
      Rule("sentence_too_long", Style, Warning, "句子过长，建议分割", "将长句分割为多个短句以提高可读性", Some(100)),
      Rule("passive_voice", Style, Suggestion, "检测到被动语态", "考虑使用主动语态以提高表达力", None),
      Rule("weak_words", Style, Suggestion, "使用了不确定词语", "考虑使用更确定的表达方式", None),
      Rule("common_typos", Spelling, Error, "关联词使用错误", "关联词不能同时使用，请选择其中一个", None),
      Rule("double_space", Style, Suggestion, "Multiple spaces found", "Use single space between words", None),
      Rule("capitalization", Grammar, Warning, "Sentence should start with capital letter", "Capitalize the first letter of the sentence", None),
      Rule("comma_splice", Grammar, Error, "Possible comma splice", "Consider using semicolon or period instead of comma", None) ]
  }

  function RuleIds(rs: seq<Rule>): (r: seq<String>)
    ensures |r| == |rs| && forall i :: 0 <= i < |rs| ==> r[i] == rs[i].id
  {
    seq(|rs|, i requires 0 <= i < |rs| => rs[i].id)
  }

  /** The table's ids are distinct, so loading it stores every rule under its own id. */
  lemma DefaultIdsDistinct()
    ensures Distinct(RuleIds(DefaultRules()))
  {
    var ids := RuleIds(DefaultRules());
    assert ids == ["punctuation_spacing", "english_spacing", "redundant_words",
                   "sentence_too_long", "passive_voice", "weak_words", "common_typos",
                   "double_space", "capitalization", "comma_splice"];
    forall i, j | 0 <= i < j < |ids| ensures ids[i] != ids[j] {
      assert |ids[i]| != |ids[j]| || ids[i][0] != ids[j][0] || ids[i][4] != ids[j][4];
    }
  }

  // ---------------------------------------------------------------- selecting rules

  /** shouldApplyRule's table, when it returns: low admits errors, medium also warnings,
      high everything, and any other level nothing. */
  predicate Admits(strictness: String, s: Severity) {
    if strictness == "low" then s == Error
    else if strictness == "medium" then s == Error || s == Warning
    else if strictness == "high" then true
    else false
  }

  /** `strictness || 'medium'`. */
  function EffectiveStrictness(o: Option<String>): (r: String)
    ensures o.Some? && o.value != [] ==> r == o.value
    ensures o.None? || o.value == [] ==> r == "medium"
  {
    if o.Some? && o.value != [] then o.value else "medium"
  }

  /** The levels are nested, and a level the table does not name admits nothing. */
  lemma StrictnessNested(level: String, s: Severity)
    ensures Admits("low", s) ==> Admits("medium", s)
    ensures Admits("medium", s) ==> Admits("high", s)
    ensures Admits("high", s)
    ensures Admits("low", s) <==> s == Error
    ensures Admits("medium", s) <==> s != Suggestion
    ensures level != "low" && level != "medium" && level != "high" ==> !Admits(level, s)
  {
  }

  /** Whether a rule's type is among the requested ones, so that the check goes on to ask
      shouldApplyRule about it. */
  predicate Requested(rule: Rule, req: Request) {
    req.checkTypes.Some? && rule.kind in req.checkTypes.value
  }

  /** Whether a check runs a rule: its type is among the requested ones and the strictness
      admits its severity. */
  predicate Applies(rule: Rule, req: Request) {
    Requested(rule, req) && Admits(EffectiveStrictness(req.strictness), rule.severity)
  }

  /** Whether the check throws: for a level Object.prototype provides, shouldApplyRule reads
      an inherited member without an `includes`, and calling it is a TypeError, raised at
      the first rule of a requested type. */
  predicate Aborts(rules: seq<Rule>, req: Request) {
    Inherited(EffectiveStrictness(req.strictness))
    && exists k :: 0 <= k < |rules| && Requested(rules[k], req)
  }

  // ---------------------------------------------------------------- issues

  /** The rule's validator accepts the match. */
  predicate Passes(rule: Rule, m: Match) {
    rule.longerThan.None? || |m.text| > rule.longerThan.value
  }

  function IssueOf(rule: Rule, m: Match): (i: Issue)
    ensures i.start == m.index && i.end == m.index + |m.text|
    ensures i.suggestions == [rule.suggestion] && i.rule == rule.id
    ensures i.kind == rule.kind && i.severity == rule.severity && i.message == rule.message
  {
    Issue(rule.kind, rule.severity, rule.message, m.index, m.index + |m.text|, [rule.suggestion],
          rule.id)
  }

  /** The issues one rule reports for its matches, in match order. */
  function RuleIssues(rule: Rule, ms: seq<Match>): seq<Issue> {
    if ms == [] then []
    else
      var m := ms[|ms| - 1];
      RuleIssues(rule, ms[..|ms| - 1]) + (if Passes(rule, m) then [IssueOf(rule, m)] else [])
  }

  /** A rule's issues are exactly its validated matches. */
  lemma {:induction false} RuleIssuesExact(rule: Rule, ms: seq<Match>)
    ensures |RuleIssues(rule, ms)| <= |ms|
    ensures forall i :: i in RuleIssues(rule, ms) <==>
              exists m :: m in ms && Passes(rule, m) && i == IssueOf(rule, m)
  {
    if ms != [] {
      var init := ms[..|ms| - 1];
      RuleIssuesExact(rule, init);
      assert ms == init + [ms[|ms| - 1]];
    }
  }

  /** What the engine found for a rule: nothing when it has no entry. */
  function MatchesOf(found: map<String, seq<Match>>, id: String): seq<Match> {
    if id in found then found[id] else []
  }

  /** checkGrammar's issues: rule by rule in table order, the rules that apply. */
  function Checked(rules: seq<Rule>, req: Request, found: map<String, seq<Match>>): seq<Issue> {
    if rules == [] then []
    else
      var r := rules[|rules| - 1];
      Checked(rules[..|rules| - 1], req, found)
      + (if Applies(r, req) then RuleIssues(r, MatchesOf(found, r.id)) else [])
  }

  /** The issues of one more rule follow those of the rules before it. */
  lemma CheckedPrefixStep(rules: seq<Rule>, req: Request, found: map<String, seq<Match>>, k: nat)
    requires k < |rules|
    ensures Checked(rules[..k + 1], req, found)
            == Checked(rules[..k], req, found)
               + (if Applies(rules[k], req) then RuleIssues(rules[k], MatchesOf(found, rules[k].id)) else [])
  {
    assert rules[..k + 1][..k] == rules[..k];
  }

  /** An issue is reported if and only if it comes from a validated match of a rule the
      request selects. */
  lemma {:induction false} CheckedExact(rules: seq<Rule>, req: Request, found: map<String, seq<Match>>)
    ensures forall i :: i in Checked(rules, req, found) <==>
              exists k :: 0 <= k < |rules| && Applies(rules[k], req)
                          && i in RuleIssues(rules[k], MatchesOf(found, rules[k].id))
  {
    if rules != [] {
      var n := |rules| - 1;
      CheckedExact(rules[..n], req, found);
      forall i ensures i in Checked(rules, req, found) <==>
                exists k :: 0 <= k < |rules| && Applies(rules[k], req)
                            && i in RuleIssues(rules[k], MatchesOf(found, rules[k].id))
      {
        if i in Checked(rules[..n], req, found) {
          var k :| 0 <= k < n && Applies(rules[..n][k], req)
                   && i in RuleIssues(rules[..n][k], MatchesOf(found, rules[..n][k].id));
          assert rules[k] == rules[..n][k];
        }
        if exists k :: 0 <= k < |rules| && Applies(rules[k], req)
                       && i in RuleIssues(rules[k], MatchesOf(found, rules[k].id)) {
          var k :| 0 <= k < |rules| && Applies(rules[k], req)
                   && i in RuleIssues(rules[k], MatchesOf(found, rules[k].id));
          if k < n {
            assert rules[..n][k] == rules[k];
          }
        }
      }
    }
  }

  /** Without checkTypes no rule runs. */
  lemma {:induction false} NoCheckTypesNoIssues(rules: seq<Rule>, req: Request,
                                                found: map<String, seq<Match>>)
    requires req.checkTypes.None?
    ensures Checked(rules, req, found) == []
  {
    if rules != [] {
      NoCheckTypesNoIssues(rules[..|rules| - 1], req, found);
    }
  }

  /** Every reported issue carries exactly one suggestion. */
  lemma {:induction false} CheckedOneSuggestion(rules: seq<Rule>, req: Request, found: map<String, seq<Match>>)
    ensures forall i :: i in Checked(rules, req, found) ==> |i.suggestions| == 1
  {
    CheckedExact(rules, req, found);
    forall i | i in Checked(rules, req, found) ensures |i.suggestions| == 1 {
      var k :| 0 <= k < |rules| && Applies(rules[k], req)
               && i in RuleIssues(rules[k], MatchesOf(found, rules[k].id));
      RuleIssuesExact(rules[k], MatchesOf(found, rules[k].id));
    }
  }

  // ---------------------------------------------------------------- counting by type

  /** The number of issues of type `t`. */
  function CountType(issues: seq<Issue>, t: IssueType): nat {
    if issues == [] then 0
    else CountType(issues[..|issues| - 1], t) + (if issues[|issues| - 1].kind == t then 1 else 0)
  }

  /** The record of four counts, by type name. */
  function CountsMap(spelling: nat, grammar: nat, style: nat, clarity: nat): map<String, nat> {
    map["spelling" := spelling, "grammar" := grammar, "style" := style, "clarity" := clarity]
  }

  /** calculateIssuesByType: the four type names, each with its number of issues. */
  function TypeCounts(issues: seq<Issue>): map<String, nat> {
    CountsMap(CountType(issues, Spelling), CountType(issues, Grammar),
              CountType(issues, Style), CountType(issues, Clarity))
  }

  /** The counts name exactly the four types, each with its number of issues. */
  lemma TypeCountsFacts(issues: seq<Issue>)
    ensures var m := TypeCounts(issues);
            m.Keys == {"spelling", "grammar", "style", "clarity"}
            && forall t :: TypeName(t) in m && m[TypeName(t)] == CountType(issues, t)
  {
  }

  /** The four counts add up to the number of issues. */
  lemma {:induction false} TypeCountsSum(issues: seq<Issue>)
    ensures CountType(issues, Spelling) + CountType(issues, Grammar) + CountType(issues, Style)
            + CountType(issues, Clarity) == |issues|
  {
    if issues != [] {
      TypeCountsSum(issues[..|issues| - 1]);
    }
  }

  /** calculateIssuesByType's loop. */
  method IssuesByType(issues: seq<Issue>) returns (counts: map<String, nat>)
    ensures counts == TypeCounts(issues)
  {
    counts := map["spelling" := 0, "grammar" := 0, "style" := 0, "clarity" := 0];
    assert issues[..0] == [];
    for k := 0 to |issues|
      invariant counts == TypeCounts(issues[..k])
    {
      var name := TypeName(issues[k].kind);
      TypeCountsStep(issues, k);
      counts := counts[name := counts[name] + 1];
    }
    assert issues[..|issues|] == issues;
  }

  /** Adding one to a type's entry of the record adds one to that count only. */
  lemma CountsMapBump(a: nat, b: nat, c: nat, d: nat, a': nat, b': nat, c': nat, d': nat,
                      t: IssueType)
    requires a' == a + (if t == Spelling then 1 else 0) && b' == b + (if t == Grammar then 1 else 0)
    requires c' == c + (if t == Style then 1 else 0) && d' == d + (if t == Clarity then 1 else 0)
    ensures var m := CountsMap(a, b, c, d);
            m[TypeName(t) := m[TypeName(t)] + 1] == CountsMap(a', b', c', d')
  {
    assert "spelling"[0] != "grammar"[0] && "spelling"[1] != "style"[1] && "spelling"[0] != "clarity"[0];
    assert "grammar"[0] != "style"[0] && "grammar"[0] != "clarity"[0] && "style"[0] != "clarity"[0];
  }

  /** One more issue adds one to its own type's entry. */
  lemma TypeCountsStep(issues: seq<Issue>, k: nat)
    requires k < |issues|
    ensures var before := TypeCounts(issues[..k]);
            var name := TypeName(issues[k].kind);
            TypeCounts(issues[..k + 1]) == before[name := before[name] + 1]
  {
    CountTypeStep(issues, k, Spelling);
    CountTypeStep(issues, k, Grammar);
    CountTypeStep(issues, k, Style);
    CountTypeStep(issues, k, Clarity);
    CountsMapBump(CountType(issues[..k], Spelling), CountType(issues[..k], Grammar),
                  CountType(issues[..k], Style), CountType(issues[..k], Clarity),
                  CountType(issues[..k + 1], Spelling), CountType(issues[..k + 1], Grammar),
                  CountType(issues[..k + 1], Style), CountType(issues[..k + 1], Clarity),
                  issues[k].kind);
  }

  /** One more issue adds one to its own type's count. */
  lemma CountTypeStep(issues: seq<Issue>, k: nat, t: IssueType)
    requires k < |issues|
    ensures CountType(issues[..k + 1], t)
            == CountType(issues[..k], t) + (if issues[k].kind == t then 1 else 0)
  {
    assert issues[..k + 1][..k] == issues[..k];
  }

  // ---------------------------------------------------------------- applying suggestions

  predicate HasSuggestion(i: Issue) { |i.suggestions| > 0 }

  /** The sort's order: a later start first. */
  predicate LaterFirst(a: Issue, b: Issue) { a.start >= b.start }

  /** `sort((a, b) => b.position.start - a.position.start)`, a stable sort. */
  function ByStartDesc(xs: seq<Issue>): (r: seq<Issue>)
    ensures multiset(r) == multiset(xs)
  {
    if xs == [] then []
    else
      assert xs == [xs[0]] + xs[1..];
      InsertBy(xs[0], ByStartDesc(xs[1..]), LaterFirst)
  }

  lemma {:induction false} ByStartDescSorted(xs: seq<Issue>)
    ensures SortedBy(ByStartDesc(xs), LaterFirst)
  {
    if xs != [] {
      ByStartDescSorted(xs[1..]);
      InsertBySorted(xs[0], ByStartDesc(xs[1..]), LaterFirst);
    }
  }

  /** One replacement: the text before the span, the first suggestion, the text after. */
  function ApplyOne(t: String, i: Issue): String
    requires HasSuggestion(i)
  {
    Substring(t, 0, i.start) + i.suggestions[0] + Substring(t, i.end, |t|)
  }

  /** The replacements in the given order. */
  function ApplyAll(t: String, es: seq<Issue>): String
    requires forall k :: 0 <= k < |es| ==> HasSuggestion(es[k])
    decreases |es|
  {
    if es == [] then t else ApplyAll(ApplyOne(t, es[0]), es[1..])
  }

  lemma {:induction false} ApplyAllSnoc(t: String, es: seq<Issue>, e: Issue)
    requires forall k :: 0 <= k < |es| ==> HasSuggestion(es[k])
    requires HasSuggestion(e)
    ensures ApplyAll(t, es + [e]) == ApplyOne(ApplyAll(t, es), e)
    decreases |es|
  {
    if es != [] {
      assert (es + [e])[1..] == es[1..] + [e];
      ApplyAllSnoc(ApplyOne(t, es[0]), es[1..], e);
    }
  }

  lemma ApplyAllStep(t: String, es: seq<Issue>, k: nat)
    requires forall j :: 0 <= j < |es| ==> HasSuggestion(es[j])
    requires k < |es|
    ensures ApplyAll(t, es[..k + 1]) == ApplyOne(ApplyAll(t, es[..k]), es[k])
  {
    assert es[..k + 1] == es[..k] + [es[k]];
    ApplyAllSnoc(t, es[..k], es[k]);
  }

  /** The issues applySuggestions applies, in the order it applies them. */
  function Edits(issues: seq<Issue>): (r: seq<Issue>)
    ensures forall k :: 0 <= k < |r| ==> HasSuggestion(r[k])
  {
    var r := ByStartDesc(Filter(issues, HasSuggestion));
    assert forall k :: 0 <= k < |r| ==> r[k] in multiset(Filter(issues, HasSuggestion));
    r
  }

  /** applySuggestions. */
  function Corrected(t: String, issues: seq<Issue>): String {
    ApplyAll(t, Edits(issues))
  }

  /** applySuggestions: its edits, applied in turn. */
  method ApplySuggestions(t: String, issues: seq<Issue>) returns (corrected: String)
    ensures corrected == Corrected(t, issues)
  {
    corrected := ApplyInTurn(t, Edits(issues));
  }

  /** applySuggestions' loop, applying each edit of `sorted` to the text so far. */
  method ApplyInTurn(t: String, sorted: seq<Issue>) returns (corrected: String)
    requires forall j :: 0 <= j < |sorted| ==> HasSuggestion(sorted[j])
    ensures corrected == ApplyAll(t, sorted)
  {
    corrected := t;
    for k := 0 to |sorted|
      invariant corrected == ApplyAll(t, sorted[..k])
    {
      ApplyAllStep(t, sorted, k);
      corrected := ApplyOne(corrected, sorted[k]);
    }
    assert sorted[..|sorted|] == sorted;
  }

  /** Spans that follow one another without overlapping, between `lo` and `hi`, each with a
      suggestion. */
  predicate Ascending(asc: seq<Issue>, lo: int, hi: int)
    decreases |asc|
  {
    lo <= hi
    && (asc != [] ==>
          lo <= asc[0].start <= asc[0].end <= hi && HasSuggestion(asc[0])
          && Ascending(asc[1..], asc[0].end, hi))
  }

  /** The reference result, built left to right: the text up to the first span, its
      suggestion, the text up to the next span, and so on to the end of the text. */
  function Splice(t: String, asc: seq<Issue>, from: int): String
    requires 0 <= from && Ascending(asc, from, |t|)
    decreases |asc|
  {
    if asc == [] then t[from..]
    else t[from..asc[0].start] + asc[0].suggestions[0] + Splice(t, asc[1..], asc[0].end)
  }

  function Reverse<T>(xs: seq<T>): (r: seq<T>)
    ensures |r| == |xs| && forall k :: 0 <= k < |xs| ==> r[k] == xs[|xs| - 1 - k]
  {
    if xs == [] then [] else Reverse(xs[1..]) + [xs[0]]
  }

  lemma {:induction false} AscendingSnoc(asc: seq<Issue>, e: Issue, lo: int, hi: int)
    ensures Ascending(asc + [e], lo, hi) <==>
            Ascending(asc, lo, e.start) && e.start <= e.end <= hi && HasSuggestion(e)
    decreases |asc|
  {
    if asc != [] {
      assert (asc + [e])[1..] == asc[1..] + [e];
      AscendingSnoc(asc[1..], e, asc[0].end, hi);
    }
  }

  lemma {:induction false} AscendingWiden(asc: seq<Issue>, lo: int, hi: int, hi': int)
    requires Ascending(asc, lo, hi) && hi <= hi'
    ensures Ascending(asc, lo, hi')
    decreases |asc|
  {
    if asc != [] {
      AscendingWiden(asc[1..], asc[0].end, hi, hi');
    }
  }

  /** Replacements inside a prefix leave what follows it alone. */
  lemma {:induction false} ApplyInPrefix(p: String, q: String, es: seq<Issue>)
    requires Ascending(Reverse(es), 0, |p|)
    requires forall k :: 0 <= k < |es| ==> HasSuggestion(es[k])
    ensures ApplyAll(p + q, es) == ApplyAll(p, es) + q
    decreases |es|
  {
    if es != [] {
      var e, rest := es[0], es[1..];
      assert Reverse(es) == Reverse(rest) + [e];
      AscendingSnoc(Reverse(rest), e, 0, |p|);
      assert (p + q)[..e.start] == p[..e.start];
      assert (p + q)[e.end..] == p[e.end..] + q;
      assert ApplyOne(p + q, e) == ApplyOne(p, e) + q;
      AscendingWiden(Reverse(rest), 0, e.start, |ApplyOne(p, e)|);
      ApplyInPrefix(ApplyOne(p, e), q, rest);
    }
  }

  lemma ConcatAssoc(a: String, b: String, c: String)
    ensures a + b + c == a + (b + c)
  {
  }

  /** Splicing a prefix and then one more span at its end is splicing the whole text. */
  lemma {:induction false} SpliceSnoc(t: String, asc: seq<Issue>, e: Issue, from: int)
    requires 0 <= from && Ascending(asc, from, e.start) && e.start <= e.end <= |t|
    requires HasSuggestion(e)
    ensures Ascending(asc + [e], from, |t|)
    ensures Splice(t[..e.start], asc, from) + (e.suggestions[0] + t[e.end..])
            == Splice(t, asc + [e], from)
    decreases |asc|
  {
    AscendingSnoc(asc, e, from, |t|);
    var head := t[..e.start];
    if asc == [] {
      assert ([e])[1..] == [];
      assert head[from..] == t[from..e.start];
    } else {
      var a := asc[0];
      var rest := asc[1..];
      assert |head| == e.start;
      assert from <= a.start <= a.end <= e.start && Ascending(rest, a.end, e.start);
      assert (asc + [e])[0] == a && (asc + [e])[1..] == rest + [e];
      SpliceSnoc(t, rest, e, a.end);
      var lead := t[from..a.start] + a.suggestions[0];
      assert head[from..a.start] == t[from..a.start];
      assert Splice(head, asc, from) == lead + Splice(head, rest, a.end);
      assert Splice(t, asc + [e], from) == lead + Splice(t, rest + [e], a.end);
      ConcatAssoc(lead, Splice(head, rest, a.end), e.suggestions[0] + t[e.end..]);
    }
  }

  /** Applied in descending start order, non-overlapping replacements give the left-to-right
      splice: each replacement finds its span where it was in the original text. */
  lemma {:induction false} DescendingOrderSplices(t: String, es: seq<Issue>)
    requires Ascending(Reverse(es), 0, |t|)
    requires forall k :: 0 <= k < |es| ==> HasSuggestion(es[k])
    ensures ApplyAll(t, es) == Splice(t, Reverse(es), 0)
    decreases |es|
  {
    if es != [] {
      var e, rest := es[0], es[1..];
      assert Reverse(es) == Reverse(rest) + [e];
      AscendingSnoc(Reverse(rest), e, 0, |t|);
      var p := t[..e.start];
      var tail := e.suggestions[0] + t[e.end..];
      assert t == p + t[e.start..];
      assert ApplyOne(t, e) == p + tail;
      assert ApplyAll(t, es) == ApplyAll(p + tail, rest);
      ApplyInPrefix(p, tail, rest);
      DescendingOrderSplices(p, rest);
      SpliceSnoc(t, Reverse(rest), e, 0);
    }
  }

  /** applySuggestions, for issues whose spans do not overlap, is the left-to-right
      splice of their first suggestions. */
  lemma CorrectedSplices(t: String, issues: seq<Issue>)
    requires Ascending(Reverse(Edits(issues)), 0, |t|)
    ensures Corrected(t, issues) == Splice(t, Reverse(Edits(issues)), 0)
  {
    DescendingOrderSplices(t, Edits(issues));
  }

  // ---------------------------------------------------------------- the score

  function SeverityPenalty(s: Severity): real {
    match s
    case Suggestion => 1.0
    case Warning => 3.0
    case Error => 5.0
  }

  function TypePenalty(t: IssueType): real {
    match t
    case Spelling => 2.0
    case Grammar => 1.5
    case Style => 1.0
    case Clarity => 1.2
  }

  function Penalty(i: Issue): (p: real)
    ensures p >= 1.0
  {
    SeverityPenalty(i.severity) * TypePenalty(i.kind)
  }

  function TotalPenalty(issues: seq<Issue>): (p: real)
    ensures p >= |issues| as real
  {
    if issues == [] then 0.0
    else TotalPenalty(issues[..|issues| - 1]) + Penalty(issues[|issues| - 1])
  }

  /** The density deduction: two points per issue per hundred characters above five. */
  function DensityDeduction(issueCount: nat, textLength: nat): (d: real)
    requires textLength > 0
    ensures d >= 0.0
  {
    var density := issueCount as real / (textLength as real / 100.0);
    if density > 5.0 then (density - 5.0) * 2.0 else 0.0
  }

  /** calculateGrammarScore. */
  function Score(t: String, issues: seq<Issue>): (r: int)
    ensures 0 <= r <= 100
    ensures |t| == 0 ==> r == 100
    ensures issues == [] ==> r == 100
  {
    if |t| == 0 then 100
    else
      var raw := 100.0 - TotalPenalty(issues) - DensityDeduction(|issues|, |t|);
      var rounded := Round(raw);
      if rounded < 0 then 0 else if rounded > 100 then 100 else rounded
  }

  /** calculateGrammarScore's loop. */
  method GrammarScore(t: String, issues: seq<Issue>) returns (score: int)
    ensures score == Score(t, issues)
  {
    if |t| == 0 {
      return 100;
    }
    var raw := 100.0;
    for k := 0 to |issues|
      invariant raw == 100.0 - TotalPenalty(issues[..k])
    {
      assert issues[..k + 1][..k] == issues[..k];
      raw := raw - Penalty(issues[k]);
    }
    assert issues[..|issues|] == issues;
    var density := |issues| as real / (|t| as real / 100.0);
    if density > 5.0 {
      raw := raw - (density - 5.0) * 2.0;
    }
    var rounded := Round(raw);
    score := if rounded < 0 then 0 else if rounded > 100 then 100 else rounded;
  }

  lemma DensityMonotone(n: nat, len: nat)
    requires len > 0
    ensures DensityDeduction(n, len) <= DensityDeduction(n + 1, len)
  {
    var q := len as real / 100.0;
    assert q > 0.0;
    assert (n + 1) as real / q == n as real / q + 1.0 / q;
  }

  /** One more issue never raises the score. */
  lemma ScoreNonIncreasing(t: String, issues: seq<Issue>, extra: Issue)
    ensures Score(t, issues + [extra]) <= Score(t, issues)
  {
    if |t| > 0 {
      var more := issues + [extra];
      assert more[..|more| - 1] == issues;
      DensityMonotone(|issues|, |t|);
      RoundMonotone(100.0 - TotalPenalty(more) - DensityDeduction(|more|, |t|),
                    100.0 - TotalPenalty(issues) - DensityDeduction(|issues|, |t|));
    }
  }

  // ---------------------------------------------------------------- the response

  /** checkGrammar's response for the rules in table order. */
  function ResponseFor(rules: seq<Rule>, req: Request, found: map<String, seq<Match>>): (r: Response)
    ensures r.originalText == req.text && r.issues == Checked(rules, req, found)
    ensures r.totalIssues == |r.issues|
    ensures r.correctedText == Corrected(req.text, r.issues)
    ensures r.issuesByType == TypeCounts(r.issues)
    ensures r.overallScore == Score(req.text, r.issues)
  {
    var issues := Checked(rules, req, found);
    Response(req.text, issues, Corrected(req.text, issues), |issues|, TypeCounts(issues),
             Score(req.text, issues))
  }

  /** checkGrammar's inner loop: one issue per validated match. */
  method CollectRuleIssues(rule: Rule, ms: seq<Match>) returns (issues: seq<Issue>)
    ensures issues == RuleIssues(rule, ms)
  {
    issues := [];
    for k := 0 to |ms|
      invariant issues == RuleIssues(rule, ms[..k])
    {
      assert ms[..k + 1][..k] == ms[..k];
      if Passes(rule, ms[k]) {
        issues := issues + [IssueOf(rule, ms[k])];
      }
    }
    assert ms[..|ms|] == ms;
  }

  // ---------------------------------------------------------------- the module

  /** The rule map after setting each rule under its id, in order. */
  function Upsert(m: map<String, Rule>, rs: seq<Rule>): map<String, Rule> {
    if rs == [] then m else Upsert(m, rs[..|rs| - 1])[rs[|rs| - 1].id := rs[|rs| - 1]]
  }

  /** Setting the rules adds exactly their ids to the keys. */
  lemma {:induction false} UpsertKeys(m: map<String, Rule>, rs: seq<Rule>)
    ensures Upsert(m, rs).Keys == m.Keys + set r | r in rs :: r.id
  {
    if rs != [] {
      var n := |rs| - 1;
      var init := rs[..n];
      UpsertKeys(m, init);
      assert rs == init + [rs[n]];
      assert (set r | r in rs :: r.id) == (set r | r in init :: r.id) + {rs[n].id};
    }
  }

  /** With distinct ids every rule ends up stored under its own id. */
  lemma {:induction false} UpsertStored(m: map<String, Rule>, rs: seq<Rule>)
    requires Distinct(RuleIds(rs))
    ensures forall k :: 0 <= k < |rs| ==> rs[k].id in Upsert(m, rs) && Upsert(m, rs)[rs[k].id] == rs[k]
  {
    if rs != [] {
      var n := |rs| - 1;
      var init := rs[..n];
      assert Distinct(RuleIds(init)) by {
        forall i, j | 0 <= i < j < |init| ensures RuleIds(init)[i] != RuleIds(init)[j] {
          assert RuleIds(rs)[i] != RuleIds(rs)[j];
        }
      }
      UpsertStored(m, init);
      forall k | 0 <= k < n ensures Upsert(m, rs)[rs[k].id] == rs[k] {
        assert RuleIds(rs)[k] != RuleIds(rs)[n];
        assert init[k] == rs[k];
      }
    }
  }

  /** With distinct ids every rule ends up stored under its own id, and nothing else is
      added. */
  lemma UpsertValues(m: map<String, Rule>, rs: seq<Rule>)
    requires Distinct(RuleIds(rs))
    ensures Upsert(m, rs).Keys == m.Keys + set r | r in rs :: r.id
    ensures forall k :: 0 <= k < |rs| ==> Upsert(m, rs)[rs[k].id] == rs[k]
  {
    UpsertKeys(m, rs);
    UpsertStored(m, rs);
  }

  class GrammarCheckModule {
    var loaded: bool
    var ready: bool
    var rules: map<String, Rule>
    /** The insertion order of `rules`. */
    var order: seq<String>

    ghost predicate Valid()
      reads this
    {
      (forall id :: id in rules <==> id in order) && Distinct(order)
      && (forall id :: id in rules ==> rules[id].id == id)
    }

    /** The rules in the order the map iterates them. */
    function RulesInOrder(): (r: seq<Rule>)
      requires Valid()
      reads this
      ensures |r| == |order| && forall k :: 0 <= k < |order| ==> r[k] == rules[order[k]]
    {
      seq(|order|, k requires 0 <= k < |order| && Valid() reads this => rules[order[k]])
    }

    constructor ()
      ensures Valid() && !loaded && !ready && rules == map[] && order == []
    {
      loaded := false;
      ready := false;
      rules := map[];
      order := [];
    }

    /** `this.rules.set(rule.id, rule)`. */
    method SetRule(r: Rule)
      requires Valid()
      modifies this
      ensures Valid() && loaded == old(loaded) && ready == old(ready)
      ensures rules == old(rules)[r.id := r]
      ensures order == if r.id in old(rules) then old(order) else old(order) + [r.id]
    {
      if r.id !in rules {
        order := order + [r.id];
      }
      rules := rules[r.id := r];
    }

    /** loadGrammarRules' loop over a table with distinct ids. */
    method LoadRules(table: seq<Rule>)
      requires Valid() && Distinct(RuleIds(table))
      modifies this
      ensures Valid() && loaded == old(loaded) && ready == old(ready)
      ensures rules == Upsert(old(rules), table)
      ensures old(order) == [] ==> RulesInOrder() == table
    {
      for k := 0 to |table|
        invariant Valid() && loaded == old(loaded) && ready == old(ready)
        invariant rules == Upsert(old(rules), table[..k])
        invariant old(order) == [] ==> order == RuleIds(table[..k])
      {
        assert table[..k + 1][..k] == table[..k];
        SetRule(table[k]);
        assert old(order) == [] ==> order == RuleIds(table[..k + 1]);
      }
      assert table[..|table|] == table;
      UpsertValues(old(rules), table);
    }

    /** initialize: the rule table is loaded, each rule under its id, and the module is
        ready. */
    method Initialize()
      requires Valid()
      modifies this
      ensures Valid() && loaded && ready
      ensures rules == Upsert(old(rules), DefaultRules())
      ensures old(order) == [] ==> RulesInOrder() == DefaultRules()
    {
      DefaultIdsDistinct();
      LoadRules(DefaultRules());
      loaded := true;
      ready := true;
    }

    /** cleanup: the rules are cleared and the module is no longer ready. */
    method Cleanup()
      modifies this
      ensures Valid() && !ready && loaded == old(loaded)
      ensures rules == map[] && order == []
    {
      rules := map[];
      order := [];
      ready := false;
    }

    /** checkGrammar; none when it throws. */
    method CheckGrammar(req: Request, found: map<String, seq<Match>>) returns (resp: Option<Response>)
      requires Valid()
      ensures resp == if Aborts(RulesInOrder(), req) then None
                      else Some(ResponseFor(RulesInOrder(), req, found))
    {
      var all := RulesInOrder();
      var level := EffectiveStrictness(req.strictness);
      var issues: seq<Issue> := [];
      for k := 0 to |all|
        invariant issues == Checked(all[..k], req, found)
        invariant Inherited(level) ==> forall j :: 0 <= j < k ==> !Requested(all[j], req)
      {
        CheckedPrefixStep(all, req, found, k);
        var rule := all[k];
        if req.checkTypes.Some? && rule.kind in req.checkTypes.value {
          if Inherited(level) {
            assert Requested(all[k], req);
            return None;
          }
          if Admits(level, rule.severity) {
            var more := CollectRuleIssues(rule, MatchesOf(found, rule.id));
            issues := issues + more;
          }
        }
      }
      assert all[..|all|] == all;
      var corrected := ApplySuggestions(req.text, issues);
      var byType := IssuesByType(issues);
      var score := GrammarScore(req.text, issues);
      resp := Some(Response(req.text, issues, corrected, |issues|, byType, score));
    }

    /** process: a failure response unless the module is ready and the check returns. */
    method Process(req: Request, found: map<String, seq<Match>>) returns (r: Outcome)
      requires Valid()
      ensures !ready ==> r == Failure(FailureCode, FailureMessage)
      ensures ready && Aborts(RulesInOrder(), req) ==> r == Failure(FailureCode, FailureMessage)
      ensures ready && !Aborts(RulesInOrder(), req) ==> r == Success(ResponseFor(RulesInOrder(), req, found))
    {
      if !ready {
        return Failure(FailureCode, FailureMessage);
      }
      var resp := CheckGrammar(req, found);
      if resp.None? {
        return Failure(FailureCode, FailureMessage);
      }
      r := Success(resp.value);
    }
  }

  /** With the built-in table, a level Object.prototype provides makes the check throw
      exactly when spelling, grammar or style was requested: no built-in rule checks
      clarity, so a clarity-only request never reaches shouldApplyRule. */
  lemma DefaultTableAborts(req: Request)
    requires Inherited(EffectiveStrictness(req.strictness)) && req.checkTypes.Some?
    ensures var ts := req.checkTypes.value;
            Aborts(DefaultRules(), req) <==> Spelling in ts || Grammar in ts || Style in ts
  {
    var rs := DefaultRules();
    var ts := req.checkTypes.value;
    if Style in ts {
      assert Requested(rs[0], req);
    } else if Spelling in ts {
      assert Requested(rs[6], req);
    } else if Grammar in ts {
      assert Requested(rs[8], req);
    } else {
      forall k | 0 <= k < |rs| ensures !Requested(rs[k], req) {
        assert rs[k].kind != Clarity;
      }
    }
  }

  /** After initialisation a request at the default strictness with every type selected
      runs exactly the error and warning rules. */
  lemma DefaultStrictnessRuns(req: Request, r: Rule)
    requires req.strictness.None? && req.checkTypes == Some([Spelling, Grammar, Style, Clarity])
    ensures Applies(r, req) <==> r.severity != Suggestion
  {
    assert r.kind in [Spelling, Grammar, Style, Clarity] by {
      match r.kind
      case Spelling => assert [Spelling, Grammar, Style, Clarity][0] == r.kind;
      case Grammar => assert [Spelling, Grammar, Style, Clarity][1] == r.kind;
      case Style => assert [Spelling, Grammar, Style, Clarity][2] == r.kind;
      case Clarity => assert [Spelling, Grammar, Style, Clarity][3] == r.kind;
    }
  }
}
