/** The text generation module: content comes from the completion service when a key is
    configured and from the built-in demo texts otherwise, and every answer is measured the
    same way (words, readability, reading time, keyword densities, writing suggestions). */
module TextGeneration {
  import opened Wrappers
  import opened Text
  import opened Collections

  // ---------------------------------------------------------------- counting words

  /** `[一-龥]`: one CJK unified ideograph of the basic block. */
  predicate IsHan(c: char) { '\U{4E00}' <= c <= '\U{9FA5}' }

  /** The number of maximal runs of ASCII letters in `s`; `afterLetter` says whether the
      character just before `s` is a letter. */
  function LetterRuns(s: String, afterLetter: bool): nat {
    if s == [] then 0
    else (if IsAsciiLetter(s[0]) && !afterLetter then 1 else 0) + LetterRuns(s[1..], IsAsciiLetter(s[0]))
  }

  /** countWords: every ideograph is a word, and so is every run of `[a-zA-Z]+`. */
  function CountWords(text: String): nat {
    Count(text, IsHan) + LetterRuns(text, false)
  }

  lemma {:induction false} LetterRunsAppend(a: String, b: String, afterLetter: bool)
    ensures LetterRuns(a + b, afterLetter)
            == LetterRuns(a, afterLetter)
               + LetterRuns(b, if a == [] then afterLetter else IsAsciiLetter(a[|a| - 1]))
  {
    if a == [] {
      assert a + b == b;
    } else {
      assert (a + b)[0] == a[0] && (a + b)[1..] == a[1..] + b;
      LetterRunsAppend(a[1..], b, IsAsciiLetter(a[0]));
    }
  }

  lemma {:induction false} CountAppend(a: String, b: String, p: char -> bool)
    ensures Count(a + b, p) == Count(a, p) + Count(b, p)
  {
    FilterAppend(a, b, p);
  }

  /** Counting a text in two parts: the counts add up, except that a run of letters cut in
      two was counted twice. */
  lemma CountWordsAppend(a: String, b: String)
    ensures CountWords(a + b)
            == CountWords(a) + CountWords(b)
               - (if a != [] && b != [] && IsAsciiLetter(a[|a| - 1]) && IsAsciiLetter(b[0]) then 1 else 0)
  {
    CountAppend(a, b, IsHan);
    LetterRunsAppend(a, b, false);
    if b != [] {
      assert LetterRuns(b, true) + (if IsAsciiLetter(b[0]) then 1 else 0) == LetterRuns(b, false);
    }
  }

  /** Every letter of `s` follows a letter (the first one, when `afterLetter`). */
  predicate NoRunStarts(s: String, afterLetter: bool) {
    (s != [] && IsAsciiLetter(s[0]) ==> afterLetter)
    && forall i :: 0 < i < |s| && IsAsciiLetter(s[i]) ==> IsAsciiLetter(s[i - 1])
  }

  lemma NoRunStartsStep(s: String, afterLetter: bool)
    requires s != []
    ensures NoRunStarts(s, afterLetter)
            <==> (IsAsciiLetter(s[0]) ==> afterLetter) && NoRunStarts(s[1..], IsAsciiLetter(s[0]))
  {
    if NoRunStarts(s, afterLetter) {
      forall i | 0 < i < |s[1..]| && IsAsciiLetter(s[1..][i]) ensures IsAsciiLetter(s[1..][i - 1]) {
        assert s[1..][i] == s[i + 1];
      }
    }
    if (IsAsciiLetter(s[0]) ==> afterLetter) && NoRunStarts(s[1..], IsAsciiLetter(s[0])) {
      forall i | 0 < i < |s| && IsAsciiLetter(s[i]) ensures IsAsciiLetter(s[i - 1]) {
        if i > 1 {
          assert s[1..][i - 1] == s[i];
        }
      }
    }
  }

  /** No run of letters is counted exactly when no run starts. */
  lemma {:induction false} LetterRunsZero(s: String, afterLetter: bool)
    ensures LetterRuns(s, afterLetter) == 0 <==> NoRunStarts(s, afterLetter)
  {
    if s != [] {
      LetterRunsZero(s[1..], IsAsciiLetter(s[0]));
      NoRunStartsStep(s, afterLetter);
    }
  }

  /** A text has no words exactly when it holds neither an ideograph nor a letter. */
  lemma CountWordsZero(text: String)
    ensures CountWords(text) == 0 <==> forall i :: 0 <= i < |text| ==> !IsHan(text[i]) && !IsAsciiLetter(text[i])
  {
    LetterRunsZero(text, false);
    if CountWords(text) == 0 {
      forall i | 0 <= i < |text| ensures !IsHan(text[i]) && !IsAsciiLetter(text[i]) {
        assert text[i] in text;
        NoRunStartNoLetter(text, i);
      }
    } else if Count(text, IsHan) > 0 {
      var h := Filter(text, IsHan)[0];
      assert h in Filter(text, IsHan);
    }
  }

  /** Where no run of letters starts, there is no letter. */
  lemma {:induction false} NoRunStartNoLetter(s: String, i: nat)
    requires i < |s|
    requires NoRunStarts(s, false)
    ensures !IsAsciiLetter(s[i])
  {
    if i > 0 {
      NoRunStartNoLetter(s, i - 1);
    }
  }

  // ---------------------------------------------------------------- measures

  /** The readability formula for `words` words in `divisor` sentences: 100 less twice the
      excess of words per sentence over 15, clamped into [0, 100] and rounded. At most 15
      words a sentence score 100, at least 65 score 0. */
  function ReadabilityOf(words: nat, divisor: nat): (r: int)
    requires divisor >= 1
    ensures 0 <= r <= 100
    ensures words <= 15 * divisor ==> r == 100
    ensures words >= 65 * divisor ==> r == 0
  {
    var avg := (words as real) / (divisor as real);
    AverageBounds(words, divisor);
    var clamped := Clamp(100.0 - (avg - 15.0) * 2.0);
    Round(clamped)
  }

  lemma AverageBounds(words: nat, divisor: nat)
    requires divisor >= 1
    ensures words <= 15 * divisor ==> (words as real) / (divisor as real) <= 15.0
    ensures words >= 65 * divisor ==> (words as real) / (divisor as real) >= 65.0
  {
    var avg := (words as real) / (divisor as real);
    assert avg * (divisor as real) == words as real;
    if words <= 15 * divisor && avg > 15.0 {
      assert avg * (divisor as real) > 15.0 * (divisor as real);
    }
    if words >= 65 * divisor && avg < 65.0 {
      assert avg * (divisor as real) < 65.0 * (divisor as real);
    }
  }

  /** calculateReadabilityScore: the sentences are the non-blank pieces between terminators,
      counted as at least 1. */
  function Readability(text: String): (r: int)
    ensures 0 <= r <= 100
  {
    var sentences := Count(SplitWhere(text, IsSentenceBreak), NotBlank);
    ReadabilityOf(CountWords(text), if sentences >= 1 then sentences else 1)
  }

  /** The density of a keyword matched `matches` times in a text of `total` words, in per
      cent; 0 for a text without words. */
  function Density(total: nat, matches: nat): (r: real)
    ensures 0.0 <= r
    ensures total == 0 ==> r == 0.0
    ensures total > 0 ==> r * (total as real) == 100.0 * (matches as real)
  {
    if total > 0 then (matches as real) / (total as real) * 100.0 else 0.0
  }

  /** calculateKeywordDensity as a record from each keyword to its density. `matches(k)` is
      how often the pattern `k`, read case-insensitively, matches the text. The record never
      holds "__proto__". */
  function DensityMap(text: String, keywords: seq<String>, matches: String -> nat): map<String, real> {
    map k | k in keywords && Recordable(k) :: Density(CountWords(text), matches(k))
  }

  /** calculateKeywordDensity's loop. */
  method KeywordDensity(text: String, keywords: seq<String>, matches: String -> nat)
    returns (density: map<String, real>)
    ensures density == DensityMap(text, keywords, matches)
  {
    var total := CountWords(text);
    density := map[];
    var i := 0;
    while i < |keywords|
      invariant 0 <= i <= |keywords|
      invariant density == DensityMap(text, keywords[..i], matches)
    {
      assert keywords[..i + 1] == keywords[..i] + [keywords[i]];
      if Recordable(keywords[i]) {
        density := density[keywords[i] := Density(total, matches(keywords[i]))];
      }
      i := i + 1;
    }
    assert keywords[..i] == keywords;
  }

  /** The keywords whose density is below 1%, in request order. Reading "__proto__" from the
      record gives Object.prototype, which is not below 1, so it is never listed. */
  function LowKeywords(text: String, keywords: seq<String>, matches: String -> nat): (r: seq<String>)
    ensures |r| <= |keywords|
    ensures forall k :: k in r <==> k in keywords && k != "__proto__" && Density(CountWords(text), matches(k)) < 1.0
  {
    Filter(keywords, k => Recordable(k) && Density(CountWords(text), matches(k)) < 1.0)
  }

  const ShortNote: String := "内容较短，建议增加更多细节和说明"
  const LongNote: String := "内容较长，建议考虑分段或精简"
  const ReadabilityNote: String := "建议使用更简洁的句式以提高可读性"

  function KeywordNote(low: seq<String>): String {
    "建议增加关键词的使用频率：" + Join(low, ", ")
  }

  lemma NotesDiffer(low: seq<String>)
    ensures ShortNote != LongNote && ShortNote != ReadabilityNote && LongNote != ReadabilityNote
    ensures KeywordNote(low) != ShortNote && KeywordNote(low) != LongNote
    ensures KeywordNote(low) != ReadabilityNote
  {
    assert ShortNote[3] == '短' && LongNote[3] == '长';
    assert KeywordNote(low)[2] == '增' && ShortNote[2] == '较' && LongNote[2] == '较';
    assert ReadabilityNote[2] == '使';
  }

  /** The suggestions for a text of `words` words, the low-density keywords `low` and the
      readability `score`: a length note, the keyword note, the readability note. */
  function Notes(words: nat, low: seq<String>, score: int): seq<String> {
    (if words < 100 then [ShortNote] else if words > 1000 then [LongNote] else [])
    + (if low != [] then [KeywordNote(low)] else [])
    + (if score < 60 then [ReadabilityNote] else [])
  }

  /** Each note is given exactly when its condition holds, so the two length notes never
      come together, and nothing else is given. */
  lemma NotesFacts(words: nat, low: seq<String>, score: int)
    ensures var r := Notes(words, low, score);
            (ShortNote in r <==> words < 100) && (LongNote in r <==> words > 1000)
            && (KeywordNote(low) in r <==> low != []) && (ReadabilityNote in r <==> score < 60)
            && (forall s :: s in r ==> s == ShortNote || s == LongNote || s == ReadabilityNote || s == KeywordNote(low))
            && |r| <= 3
  {
    NotesDiffer(low);
  }

  lemma LowNone(text: String, keywords: seq<String>, matches: String -> nat)
    requires keywords == []
    ensures LowKeywords(text, keywords, matches) == []
  {
  }

  /** generateSuggestions. */
  method GenerateSuggestions(content: String, keywords: seq<String>, matches: String -> nat)
    returns (suggestions: seq<String>)
    ensures suggestions == Notes(CountWords(content), LowKeywords(content, keywords, matches), Readability(content))
  {
    var low := LowKeywords(content, keywords, matches);
    suggestions := [];
    var words := CountWords(content);
    if words < 100 {
      suggestions := suggestions + [ShortNote];
    } else if words > 1000 {
      suggestions := suggestions + [LongNote];
    }
    ghost var lengthPart := suggestions;
    assert lengthPart == (if words < 100 then [ShortNote] else if words > 1000 then [LongNote] else []);
    if |keywords| > 0 {
      if |low| > 0 {
        suggestions := suggestions + [KeywordNote(low)];
      } else {
        assert low == [];
      }
    } else {
      LowNone(content, keywords, matches);
    }
    ghost var keywordPart := suggestions;
    assert keywordPart == lengthPart + (if low != [] then [KeywordNote(low)] else []);
    var score := Readability(content);
    if score < 60 {
      suggestions := suggestions + [ReadabilityNote];
    }
    assert suggestions == keywordPart + (if score < 60 then [ReadabilityNote] else []);
    assert suggestions == Notes(words, low, score);
  }

  // ---------------------------------------------------------------- requests and responses

  datatype Request = Request(kind: String, prompt: String, keywords: seq<String>)

  datatype Response = Response(
    content: String, wordCount: nat, readabilityScore: int, keywords: seq<String>,
    estimatedReadingTime: nat, keywordDensity: map<String, real>, suggestions: seq<String>)

  datatype Outcome = Success(response: Response) | Failure(code: String, message: String)

  const FailureCode: String := "TEXT_GENERATION_FAILED"
  const FailureMessage: String := "Failed to generate text"

  /** `prompt.replace(/\s+/g, '')`: the prompt with every white-space character removed. */
  function Unspaced(s: String): (r: String)
    ensures forall i :: 0 <= i < |r| ==> !IsJsSpace(r[i])
    ensures |r| <= |s|
  {
    if s == [] then []
    else (if IsJsSpace(s[0]) then [] else [s[0]]) + Unspaced(s[1..])
  }

  // The six built-in demo texts, each split where it first quotes the prompt.

  /** The news demo text. */
  function NewsDemo(prompt: String): String {
    "【" + prompt + NewsTail(prompt)
  }

  function NewsTail(prompt: String): String {
    "】最新消息\n\n" +
    "据最新报道，" +
    prompt +
    "相关事件引起了广泛关注。专家表示，这一发展对行业具有重要意义。\n\n" +
    "详细分析显示，该事件的影响将在未来几个月内逐步显现。相关部门正在密切关注情况发展，并将采取必要措施确保稳定。\n\n" +
    "业内人士认为，这是一个积极的信号，预示着行业将迎来新的发展机遇。"
  }

  /** The advertisement demo text. */
  function AdvertisementDemo(prompt: String): String {
    "🌟 " + prompt + AdvertisementTail(prompt)
  }

  function AdvertisementTail(prompt: String): String {
    " - 您的理想选择！\n\n" +
    "✨ 为什么选择我们？\n• 专业品质，值得信赖\n• 创新设计，引领潮流  \n• 贴心服务，超越期待\n\n" +
    "💫 立即体验，感受不同！\n现在购买还可享受特别优惠，机会难得，不容错过！\n\n" +
    "📞 联系我们，开启美好体验之旅！"
  }

  /** The product description demo text. */
  function ProductDemo(prompt: String): String {
    prompt + ProductTail(prompt)
  }

  function ProductTail(prompt: String): String {
    " - 产品详细介绍\n\n" +
    "🔹 产品特点：\n• 高品质材料，经久耐用\n• 人性化设计，使用便捷\n• 多功能集成，一机多用\n\n" +
    "🔹 技术规格：\n• 尺寸：标准规格，适合多种场景\n• 材质：优质材料，安全可靠\n• 功能：多项实用功能，满足不同需求\n\n" +
    "🔹 适用场景：\n适合家庭、办公室、学校等多种环境使用，是您生活和工作的得力助手。"
  }

  /** The blog post demo text. */
  function BlogPostDemo(prompt: String): String {
    "# " + prompt + BlogPostTail(prompt)
  }

  function BlogPostTail(prompt: String): String {
    "：深度解析与思考\n\n" +
    "在当今快速发展的时代，" +
    prompt +
    "已经成为我们不可忽视的重要话题。本文将从多个角度深入探讨这一主题，为读者提供全面的分析和见解。\n\n" +
    "## 背景分析\n\n" +
    prompt +
    "的发展历程可以追溯到...这一演变过程反映了社会的进步和人们需求的变化。\n\n" +
    "## 现状评估\n\n" +
    "目前，" +
    prompt +
    "在各个领域都有着重要的应用和影响。通过数据分析可以看出...\n\n" +
    "## 未来展望\n\n" +
    "展望未来，" +
    prompt +
    "将会朝着更加智能化、人性化的方向发展，为我们的生活带来更多便利。\n\n" +
    "## 结论\n\n" +
    "综合以上分析，我们可以得出...这些洞察对于我们理解和应对未来挑战具有重要意义。"
  }

  /** The e-mail demo text. */
  function EmailDemo(prompt: String): String {
    "主题：关于" + prompt + EmailTail(prompt)
  }

  function EmailTail(prompt: String): String {
    "的重要通知\n\n" +
    "尊敬的用户，\n\n" +
    "您好！\n\n" +
    "我们写信通知您关于" +
    prompt +
    "的最新情况。经过仔细考虑和充分准备，我们决定...\n\n" +
    "具体安排如下：\n• 时间：即日起生效\n• 范围：所有相关用户\n• 影响：预计将带来积极的改善\n\n" +
    "如果您有任何疑问或需要进一步了解，请随时联系我们。我们将竭诚为您服务。\n\n" +
    "感谢您的理解与支持！\n\n" +
    "此致\n敬礼\n\n" +
    "客服团队"
  }

  /** The social media demo text; its hashtag is the prompt without white space. */
  function SocialMediaDemo(prompt: String): String {
    "🎉 " + prompt + SocialMediaTail(prompt)
  }

  function SocialMediaTail(prompt: String): String {
    " 来啦！\n\n" +
    "这个话题真的太有意思了！大家有什么想法吗？\n\n" +
    "💭 我觉得...\n🤔 你们觉得呢？\n\n" +
    "#" +
    Unspaced(prompt) +
    " #分享 #讨论\n\n" +
    "快来评论区聊聊吧！👇"
  }

  /** The content types getDemoContent has a built-in demo text for. */
  const DemoKinds: seq<String> :=
    ["news", "advertisement", "product_description", "blog_post", "email", "social_media"]

  /** The built-in demo text of getDemoContent for a content type. */
  function DemoTemplate(kind: String, prompt: String): Option<String> {
    if kind == "news" then Some(NewsDemo(prompt))
    else if kind == "advertisement" then Some(AdvertisementDemo(prompt))
    else if kind == "product_description" then Some(ProductDemo(prompt))
    else if kind == "blog_post" then Some(BlogPostDemo(prompt))
    else if kind == "email" then Some(EmailDemo(prompt))
    else if kind == "social_media" then Some(SocialMediaDemo(prompt))
    else None
  }

  /** There is a built-in demo text exactly for the six types above. */
  lemma DemoTemplateKinds(kind: String, prompt: String)
    ensures DemoTemplate(kind, prompt).Some? <==> kind in DemoKinds
  {
  }

  /** The text getDemoContent falls back to for any other type. */
  function Placeholder(prompt: String): String {
    "关于" + prompt + "的内容正在生成中..."
  }

  /** getDemoContent: the built-in demo text for the request's type, else the placeholder. */
  function DemoContent(kind: String, prompt: String): String {
    match DemoTemplate(kind, prompt)
    case Some(t) => t
    case None => Placeholder(prompt)
  }

  // Each built-in demo text quotes the prompt and is longer than the placeholder.

  lemma NewsDemoFacts(prompt: String)
    ensures Contains(NewsDemo(prompt), prompt) && |NewsDemo(prompt)| > |Placeholder(prompt)|
  {
    ContainsMiddle("【", prompt, NewsTail(prompt));
  }

  lemma AdvertisementDemoFacts(prompt: String)
    ensures Contains(AdvertisementDemo(prompt), prompt) && |AdvertisementDemo(prompt)| > |Placeholder(prompt)|
  {
    ContainsMiddle("🌟 ", prompt, AdvertisementTail(prompt));
  }

  lemma ProductDemoFacts(prompt: String)
    ensures Contains(ProductDemo(prompt), prompt) && |ProductDemo(prompt)| > |Placeholder(prompt)|
  {
    ContainsMiddle([], prompt, ProductTail(prompt));
    assert [] + prompt + ProductTail(prompt) == ProductDemo(prompt);
  }

  lemma BlogPostDemoFacts(prompt: String)
    ensures Contains(BlogPostDemo(prompt), prompt) && |BlogPostDemo(prompt)| > |Placeholder(prompt)|
  {
    ContainsMiddle("# ", prompt, BlogPostTail(prompt));
  }

  lemma EmailDemoFacts(prompt: String)
    ensures Contains(EmailDemo(prompt), prompt) && |EmailDemo(prompt)| > |Placeholder(prompt)|
  {
    ContainsMiddle("主题：关于", prompt, EmailTail(prompt));
  }

  lemma SocialMediaDemoFacts(prompt: String)
    ensures Contains(SocialMediaDemo(prompt), prompt) && |SocialMediaDemo(prompt)| > |Placeholder(prompt)|
  {
    ContainsMiddle("🎉 ", prompt, SocialMediaTail(prompt));
  }

  /** Each built-in demo text quotes the prompt and is longer than the placeholder. */
  lemma BuiltInDemoFacts(kind: String, prompt: String)
    requires DemoTemplate(kind, prompt).Some?
    ensures var t := DemoTemplate(kind, prompt).value;
            Contains(t, prompt) && |t| > |Placeholder(prompt)|
  {
    if kind == "news" {
      NewsDemoFacts(prompt);
    } else if kind == "advertisement" {
      AdvertisementDemoFacts(prompt);
    } else if kind == "product_description" {
      ProductDemoFacts(prompt);
    } else if kind == "blog_post" {
      BlogPostDemoFacts(prompt);
    } else if kind == "email" {
      EmailDemoFacts(prompt);
    } else if kind == "social_media" {
      SocialMediaDemoFacts(prompt);
    }
  }

  /** The placeholder is answered exactly for the types without a demo text. */
  lemma PlaceholderIffUnknownKind(kind: String, prompt: String)
    ensures DemoContent(kind, prompt) == Placeholder(prompt) <==> kind !in DemoKinds
  {
    DemoTemplateKinds(kind, prompt);
    if DemoTemplate(kind, prompt).Some? {
      BuiltInDemoFacts(kind, prompt);
    }
  }

  /** Every demo answer, built-in or placeholder, quotes the prompt. */
  lemma DemoQuotesPrompt(kind: String, prompt: String)
    ensures Contains(DemoContent(kind, prompt), prompt)
  {
    if DemoTemplate(kind, prompt).Some? {
      BuiltInDemoFacts(kind, prompt);
    } else {
      ContainsMiddle("关于", prompt, "的内容正在生成中...");
    }
  }

  /** Whether every keyword compiles as a regular expression. */
  predicate AllPatternsValid(keywords: seq<String>, valid: String -> bool) {
    forall i :: 0 <= i < |keywords| ==> valid(keywords[i])
  }

  /** createResponse, with the suggestion list of generateSuggestions given as `suggestions`. */
  function ResponseFor(content: String, keywords: seq<String>, matches: String -> nat,
                       suggestions: seq<String>): (r: Response)
    ensures r.content == content && r.keywords == keywords && r.suggestions == suggestions
    ensures 0 <= r.readabilityScore <= 100
    ensures 200 * r.estimatedReadingTime >= r.wordCount
    ensures forall k :: k in r.keywordDensity <==> k in keywords && k != "__proto__"
  {
    var words := CountWords(content);
    Response(content, words, Readability(content), keywords, ReadingMinutes(words),
             DensityMap(content, keywords, matches), suggestions)
  }

  /** The text generation module's state: its status flags and the service key. */
  class TextGenerationModule {
    var loaded: bool
    var ready: bool
    /** The completion service key; empty when there is none. */
    var apiKey: String

    constructor()
      ensures !loaded && !ready && apiKey == []
    {
      loaded := false;
      ready := false;
      apiKey := [];
    }

    /** initialize: the key is the configured one, else the stored one; the module is ready
        only with a key and otherwise answers in demo mode. */
    method Initialize(configuredKey: String, storedKey: String)
      modifies this
      ensures apiKey == if configuredKey != [] then configuredKey else storedKey
      ensures loaded && (ready <==> apiKey != [])
    {
      apiKey := if configuredKey != [] then configuredKey else storedKey;
      loaded := true;
      ready := apiKey != [];
    }

    /** cleanup. */
    method Cleanup()
      modifies this
      ensures !loaded && !ready && apiKey == []
    {
      loaded := false;
      ready := false;
      apiKey := [];
    }

    /** process. With a key the content is the service's answer (`serviceReply`, None when the
        call fails); without one it is the demo content. A keyword that is not a valid pattern
        makes measuring throw. */
    method Process(req: Request, serviceReply: Option<String>,
                   matches: String -> nat, valid: String -> bool) returns (out: Outcome)
      ensures !ready && apiKey != [] ==> out == Failure(FailureCode, FailureMessage)
      ensures apiKey != [] && serviceReply.None? ==> out == Failure(FailureCode, FailureMessage)
      ensures !AllPatternsValid(req.keywords, valid) ==> out == Failure(FailureCode, FailureMessage)
      ensures out.Success? ==>
                AllPatternsValid(req.keywords, valid)
                && out.response.content
                   == (if apiKey != [] then serviceReply.value else DemoContent(req.kind, req.prompt))
      ensures (ready || apiKey == []) && (apiKey != [] ==> serviceReply.Some?) && AllPatternsValid(req.keywords, valid)
              ==> out.Success?
      ensures out.Success? ==>
                var c := out.response.content;
                out.response == ResponseFor(c, req.keywords, matches, out.response.suggestions)
                && out.response.suggestions
                   == Notes(CountWords(c), LowKeywords(c, req.keywords, matches), Readability(c))
    {
      if !ready && apiKey != [] {
        return Failure(FailureCode, FailureMessage);
      }
      var content: String;
      if apiKey != [] {
        if serviceReply.None? {
          return Failure(FailureCode, FailureMessage);
        }
        content := serviceReply.value;
      } else {
        content := DemoContent(req.kind, req.prompt);
      }
      if !AllPatternsValid(req.keywords, valid) {
        return Failure(FailureCode, FailureMessage);
      }
      var density := KeywordDensity(content, req.keywords, matches);
      var suggestions := GenerateSuggestions(content, req.keywords, matches);
      var words := CountWords(content);
      out := Success(Response(content, words, Readability(content), req.keywords,
                              ReadingMinutes(words), density, suggestions));
    }
  }
}
