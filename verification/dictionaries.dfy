/** The translation module's built-in tables: the two word dictionaries, in the order their
    entries are listed, and the synonym table that alternatives are drawn from. */
module Dictionaries {
  import opened Wrappers
  import opened Text
  import opened Collections

  // ---------------------------------------------------------------- dictionaries

  /** A dictionary entry: a word and its translation. */
  datatype Entry = Entry(original: String, translated: String)

  const ChineseToEnglish: seq<Entry> := [
    Entry("你好", "hello"), Entry("谢谢", "thank you"), Entry("再见", "goodbye"), Entry("是的", "yes"),
    Entry("不是", "no"), Entry("请", "please"), Entry("对不起", "sorry"), Entry("没关系", "no problem"),
    Entry("公司", "company"), Entry("企业", "enterprise"), Entry("业务", "business"),
    Entry("项目", "project"), Entry("管理", "management"), Entry("发展", "development"),
    Entry("市场", "market"), Entry("客户", "customer"), Entry("服务", "service"),
    Entry("产品", "product"), Entry("质量", "quality"), Entry("技术", "technology"),
    Entry("创新", "innovation"), Entry("解决方案", "solution"), Entry("合作", "cooperation"),
    Entry("团队", "team"), Entry("领导", "leadership"), Entry("策略", "strategy"),
    Entry("目标", "goal"), Entry("成功", "success"), Entry("软件", "software"),
    Entry("硬件", "hardware"), Entry("系统", "system"), Entry("网络", "network"), Entry("数据", "data"),
    Entry("信息", "information"), Entry("安全", "security"), Entry("性能", "performance"),
    Entry("效率", "efficiency"), Entry("优化", "optimization"), Entry("算法", "algorithm"),
    Entry("程序", "program"), Entry("应用", "application"), Entry("平台", "platform"),
    Entry("接口", "interface"), Entry("研究", "research"), Entry("分析", "analysis"),
    Entry("方法", "method"), Entry("理论", "theory"), Entry("实验", "experiment"),
    Entry("结果", "result"), Entry("结论", "conclusion"), Entry("证据", "evidence"),
    Entry("假设", "hypothesis"), Entry("模型", "model"), Entry("数据", "data"),
    Entry("统计", "statistics"), Entry("评估", "evaluation"), Entry("测试", "test"),
    Entry("验证", "verification"), Entry("重要", "important"), Entry("主要", "main"),
    Entry("基本", "basic"), Entry("特殊", "special"), Entry("一般", "general"),
    Entry("具体", "specific"), Entry("详细", "detailed"), Entry("简单", "simple"),
    Entry("复杂", "complex"), Entry("困难", "difficult"), Entry("容易", "easy"), Entry("快速", "fast"),
    Entry("缓慢", "slow"), Entry("大", "big"), Entry("小", "small"), Entry("高", "high"),
    Entry("低", "low"), Entry("新", "new"), Entry("旧", "old"), Entry("好", "good"),
    Entry("坏", "bad"), Entry("是", "is"), Entry("有", "have"), Entry("做", "do"),
    Entry("说", "say"), Entry("去", "go"), Entry("来", "come"), Entry("看", "see"),
    Entry("听", "hear"), Entry("想", "think"), Entry("知道", "know"), Entry("学习", "learn"),
    Entry("工作", "work"), Entry("生活", "live"), Entry("使用", "use"), Entry("创建", "create"),
    Entry("建立", "establish"), Entry("发现", "discover"), Entry("解决", "solve"),
    Entry("改进", "improve"), Entry("增加", "increase"), Entry("减少", "decrease"),
    Entry("开始", "start"), Entry("结束", "end"), Entry("继续", "continue"), Entry("停止", "stop")
  ]

  const EnglishToChinese: seq<Entry> := [
    Entry("hello", "你好"), Entry("thank you", "谢谢"), Entry("goodbye", "再见"), Entry("yes", "是的"),
    Entry("no", "不是"), Entry("please", "请"), Entry("sorry", "对不起"), Entry("company", "公司"),
    Entry("business", "业务"), Entry("project", "项目"), Entry("management", "管理"),
    Entry("development", "发展"), Entry("market", "市场"), Entry("customer", "客户"),
    Entry("service", "服务"), Entry("product", "产品"), Entry("quality", "质量"),
    Entry("technology", "技术"), Entry("innovation", "创新"), Entry("solution", "解决方案"),
    Entry("cooperation", "合作"), Entry("team", "团队"), Entry("leadership", "领导"),
    Entry("strategy", "策略"), Entry("goal", "目标"), Entry("success", "成功"),
    Entry("software", "软件"), Entry("hardware", "硬件"), Entry("system", "系统"),
    Entry("network", "网络"), Entry("data", "数据"), Entry("information", "信息"),
    Entry("security", "安全"), Entry("performance", "性能"), Entry("efficiency", "效率"),
    Entry("optimization", "优化"), Entry("algorithm", "算法"), Entry("program", "程序"),
    Entry("application", "应用"), Entry("platform", "平台"), Entry("interface", "接口"),
    Entry("research", "研究"), Entry("analysis", "分析"), Entry("method", "方法"),
    Entry("theory", "理论"), Entry("experiment", "实验"), Entry("result", "结果"),
    Entry("conclusion", "结论"), Entry("evidence", "证据"), Entry("hypothesis", "假设"),
    Entry("model", "模型"), Entry("statistics", "统计"), Entry("evaluation", "评估"),
    Entry("test", "测试"), Entry("verification", "验证"), Entry("important", "重要"),
    Entry("main", "主要"), Entry("basic", "基本"), Entry("special", "特殊"), Entry("general", "一般"),
    Entry("specific", "具体"), Entry("detailed", "详细"), Entry("simple", "简单"),
    Entry("complex", "复杂"), Entry("difficult", "困难"), Entry("easy", "容易"), Entry("fast", "快速"),
    Entry("slow", "缓慢"), Entry("big", "大"), Entry("small", "小"), Entry("high", "高"),
    Entry("low", "低"), Entry("new", "新"), Entry("old", "旧"), Entry("good", "好"),
    Entry("bad", "坏")
  ]

  /** The entries with `e`'s word given `e`'s translation, or `e` appended: `Map.set`,
      which keeps a word's first position. */
  function Put(entries: seq<Entry>, e: Entry): seq<Entry> {
    match FirstIndex(entries, (x: Entry) => x.original == e.original)
    case Some(i) => entries[i := e]
    case None => entries + [e]
  }

  /** `new Map(pairs)`: the entries in first-insertion order, each word once, with the
      translation it was given last. */
  function MapOf(pairs: seq<Entry>): seq<Entry> {
    if pairs == [] then []
    else Put(MapOf(pairs[..|pairs| - 1]), pairs[|pairs| - 1])
  }

  /** No word has two entries. */
  predicate WordsDistinct(entries: seq<Entry>) {
    forall i, j :: 0 <= i < j < |entries| ==> entries[i].original != entries[j].original
  }

  /** Some entry of `entries` is for `word`. */
  ghost predicate HasEntryFor(entries: seq<Entry>, word: String) {
    exists e :: e in entries && e.original == word
  }

  /** Setting an entry keeps the words distinct, brings in only that entry, and keeps
      every word. */
  lemma PutFacts(entries: seq<Entry>, e: Entry)
    requires WordsDistinct(entries)
    ensures var m := Put(entries, e);
            WordsDistinct(m)
            && (forall x :: x in m ==> x in entries || x == e)
            && HasEntryFor(m, e.original)
            && (forall x :: x in entries ==> HasEntryFor(m, x.original))
  {
    var m := Put(entries, e);
    match FirstIndex(entries, (x: Entry) => x.original == e.original)
    case Some(i) =>
      assert m[i] == e;
      forall x | x in m ensures x in entries || x == e {
        var j :| 0 <= j < |m| && m[j] == x;
        if j != i { assert entries[j] == x; }
      }
      forall x | x in entries ensures HasEntryFor(m, x.original) {
        var j :| 0 <= j < |entries| && entries[j] == x;
        assert m[j] in m && m[j].original == x.original;
      }
    case None =>
      assert m[|m| - 1] == e;
      assert m[|m| - 1] in m;
      forall x | x in entries ensures HasEntryFor(m, x.original) {
        assert x in m;
      }
  }

  /** A dictionary holds each word once and only entries from its pairs. */
  lemma {:induction false} MapOfDistinct(pairs: seq<Entry>)
    ensures WordsDistinct(MapOf(pairs)) && forall e :: e in MapOf(pairs) ==> e in pairs
  {
    if pairs != [] {
      var n := |pairs| - 1;
      var init := pairs[..n];
      MapOfDistinct(init);
      PutFacts(MapOf(init), pairs[n]);
      assert pairs == init + [pairs[n]];
    }
  }

  /** Every word of the pairs is in the dictionary built from them. */
  lemma {:induction false} MapOfCovers(pairs: seq<Entry>)
    ensures forall k :: 0 <= k < |pairs| ==> HasEntryFor(MapOf(pairs), pairs[k].original)
  {
    if pairs != [] {
      var n := |pairs| - 1;
      var init := pairs[..n];
      MapOfCovers(init);
      MapOfDistinct(init);
      PutFacts(MapOf(init), pairs[n]);
      var m := MapOf(pairs);
      forall k | 0 <= k < n ensures HasEntryFor(m, pairs[k].original) {
        assert init[k] == pairs[k];
        var e :| e in MapOf(init) && e.original == init[k].original;
      }
    }
  }

  /** A dictionary holds each word once, every entry comes from the pairs, and every word of
      the pairs is in it. */
  lemma MapOfFacts(pairs: seq<Entry>)
    ensures var m := MapOf(pairs);
            (forall i, j :: 0 <= i < j < |m| ==> m[i].original != m[j].original)
            && (forall e :: e in m ==> e in pairs)
            && (forall k :: 0 <= k < |pairs| ==> exists e :: e in m && e.original == pairs[k].original)
  {
    MapOfDistinct(pairs);
    MapOfCovers(pairs);
    var m := MapOf(pairs);
    forall k | 0 <= k < |pairs| ensures exists e :: e in m && e.original == pairs[k].original {
      assert HasEntryFor(m, pairs[k].original);
    }
  }

  /** A word and its synonyms. */
  datatype Synonym = Synonym(word: String, choices: seq<String>)

  /** The synonym table, in the order `Object.entries` lists it. */
  const Synonyms: seq<Synonym> := [
    Synonym("good", ["excellent", "great", "fine"]),
    Synonym("bad", ["poor", "terrible", "awful"]),
    Synonym("big", ["large", "huge", "enormous"]),
    Synonym("small", ["tiny", "little", "minor"]),
    Synonym("好", ["优秀", "不错", "良好"]),
    Synonym("坏", ["差", "糟糕", "不好"]),
    Synonym("大", ["巨大", "庞大", "宽广"]),
    Synonym("小", ["微小", "细小", "狭小"])
  ]
}
