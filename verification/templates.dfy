/** The template module (src/modules/templates/TemplateModule.ts): a store of writing
    templates with `{{name}}` placeholders, `{{#name}}…{{/name}}` and `{{^name}}…{{/name}}`
    sections, required-variable validation and the style, tone and length customisations.
    Template ids, the clock and the built-in templates' data are parameters. */
module Templates {
  import opened Wrappers
  import opened Text
  import opened Collections

  // ---------------------------------------------------------------- records (src/types/platform.ts)

  /** A variable value as the request carries it, or, for a name the request does not
      hold, the member Object.prototype provides under it, which `String()` prints as `text`. */
  datatype Value = Str(s: String) | Num(n: int) | Bool(b: bool) | Null | Builtin(text: String)

  /** JavaScript truthiness. */
  predicate Truthy(v: Value) {
    match v
    case Str(s) => s != []
    case Num(n) => n != 0
    case Bool(b) => b
    case Null => false
    case Builtin(_) => true
  }

  /** `String(value)`. */
  function Rendered(v: Value): String {
    match v
    case Str(s) => s
    case Num(n) => IntToDecimal(n)
    case Bool(b) => if b then "true" else "false"
    case Null => "null"
    case Builtin(t) => t
  }

  /** What `String()` makes of the member Object.prototype provides under `name`: a native
      function prints as its source stub, the prototype object itself as "[object Object]". */
  function BuiltinText(name: String): String {
    if name == "__proto__" then "[object Object]"
    else if name == "constructor" then "function Object() { [native code] }"
    else "function " + name + "() { [native code] }"
  }

  /** `request.variables[name]`: the request's own value, else the member Object.prototype
      provides under that name, else `undefined`. */
  function Lookup(values: map<String, Value>, name: String): (r: Option<Value>)
    ensures name in values ==> r == Some(values[name])
    ensures name !in values ==> (r.Some? <==> Inherited(name))
    ensures name !in values && r.Some? ==> Truthy(r.value) && Rendered(r.value) == BuiltinText(name)
  {
    if name in values then Some(values[name])
    else if Inherited(name) then Some(Builtin(BuiltinText(name)))
    else None
  }

  datatype VariableKind = TextField | NumberField | Select | Multiline | DateField

  datatype TemplateVariable = TemplateVariable(name: String, kind: VariableKind, caption: String,
                                               required: bool, defaultValue: Option<Value>)

  /** What a caller supplies for a new template. */
  datatype TemplateData = TemplateData(name: String, category: String, description: String,
                                       variables: seq<TemplateVariable>, content: String,
                                       tags: seq<String>)

  datatype Template = Template(id: String, name: String, category: String, description: String,
                               variables: seq<TemplateVariable>, content: String,
                               tags: seq<String>, createdAt: int, updatedAt: int, usage: int,
                               rating: real)

  /** The template after one more use. */
  function Used(t: Template): (r: Template)
    ensures r.usage == t.usage + 1 && r.category == t.category
  {
    t.(usage := t.usage + 1)
  }

  datatype Customizations = Customizations(style: Option<String>, tone: Option<String>,
                                           length: Option<String>)

  datatype TemplateRequest = TemplateRequest(templateId: String, variables: map<String, Value>,
                                             customizations: Option<Customizations>)

  datatype ResponseMetadata = ResponseMetadata(wordCount: nat, estimatedReadingTime: nat)

  datatype TemplateResponse = TemplateResponse(templateId: String, generatedContent: String,
                                               usedVariables: map<String, Value>,
                                               metadata: ResponseMetadata)

  /** What `process` does: throw, or resolve to a success or failure response. */
  datatype Outcome = Thrown(message: String)
                   | Success(data: TemplateResponse)
                   | Failure(code: String, message: String)

  const NotInitialized: String := "模板系统未初始化"
  const ErrorCode: String := "TEMPLATE_GENERATION_ERROR"

  function UnknownTemplate(id: String): (m: String)
    ensures |m| == |id| + 7 && m[3..|m| - 4] == id
  {
    assert |"模板 "| == 3 && |" 不存在"| == 4;
    "模板 " + id + " 不存在"
  }

  function MissingVariables(names: seq<String>): (m: String)
    ensures StartsWith(m, "缺少必需变量: ") && m[|"缺少必需变量: "|..] == Join(names, ", ")
  {
    "缺少必需变量: " + Join(names, ", ")
  }

  /** The template record stamped with an id, the clock, a usage count and a rating. */
  function Stamped(id: String, d: TemplateData, now: int, rating: real): (t: Template)
    ensures t.id == id && t.name == d.name && t.category == d.category
    ensures t.description == d.description && t.variables == d.variables
    ensures t.content == d.content && t.tags == d.tags
    ensures t.createdAt == now && t.updatedAt == now && t.usage == 0 && t.rating == rating
  {
    Template(id, d.name, d.category, d.description, d.variables, d.content, d.tags, now, now,
             0, rating)
  }

  // ---------------------------------------------------------------- validation

  /** Whether `request.variables[name]` is truthy. */
  predicate Supplied(values: map<String, Value>, name: String) {
    Lookup(values, name).Some? && Truthy(Lookup(values, name).value)
  }

  /** The names of the required variables the request leaves falsy, in declaration order. */
  function MissingRequired(vars: seq<TemplateVariable>, values: map<String, Value>): (r: seq<String>)
    ensures |r| <= |vars|
    ensures forall n :: n in r <==>
              exists k :: 0 <= k < |vars| && vars[k].name == n && vars[k].required
                          && !Supplied(values, n)
  {
    if vars == [] then []
    else
      var rest := MissingRequired(vars[1..], values);
      assert forall k :: 0 < k < |vars| ==> vars[k] == vars[1..][k - 1];
      (if vars[0].required && !Supplied(values, vars[0].name) then [vars[0].name] else []) + rest
  }

  // ---------------------------------------------------------------- markers and sections

  function Open(n: String): String { "{{#" + n + "}}" }
  function Inverse(n: String): String { "{{^" + n + "}}" }
  function Close(n: String): String { "{{/" + n + "}}" }
  function Tag(n: String): String { "{{" + n + "}}" }

  /** A non-empty name of decimal digits only. */
  predicate DigitName(n: String) {
    n != [] && AllChars(n, IsAsciiDigit)
  }

  /** A variable name made of word characters and not of digits alone, as in every built-in
      template: for such a name the placeholder pattern is the placeholder itself. */
  predicate WordName(n: String) {
    (forall i :: 0 <= i < |n| ==> IsWordChar(n[i])) && !DigitName(n)
  }

  /** The text `new RegExp(`{{${name}}}`, 'g')` matches, for the names this model reads
      literally. For an all-digit name N the second brace followed by `{N}` is a quantifier,
      so the pattern is N opening braces and then one closing brace. */
  function TagPattern(n: String): (r: String)
    ensures |r| > 0 && r[|r| - 1] == '}'
    ensures DigitName(n) ==> |r| == DigitsValue(n) + 1 && forall i :: 0 <= i < |r| - 1 ==> r[i] == '{'
    ensures !DigitName(n) ==> r == Tag(n)
  {
    if DigitName(n) then seq(DigitsValue(n), _ => '{') + "}" else Tag(n)
  }

  /** A text without '{': no marker of any kind can start in it. */
  predicate NoBrace(s: String) {
    forall i :: 0 <= i < |s| ==> s[i] != '{'
  }

  /** Two leading braces followed by a character that is neither a brace nor the pattern's
      third character: the pattern starts at neither brace. */
  lemma SkipBraces(t: String, pat: String)
    requires |pat| >= 3 && pat[1] == '{' && |t| >= 1 && t[0] != '{' && t[0] != pat[2]
    ensures IndexOf("{{" + t, pat)
            == (if IndexOf(t, pat).Some? then Some(2 + IndexOf(t, pat).value) else None)
  {
    var s := "{{" + t;
    forall j | 0 <= j < 2 ensures !IsAt(s, pat, j) {
      if j + |pat| <= |s| {
        if j == 0 {
          assert s[j..j + |pat|][2] == t[0];
        } else {
          assert s[j..j + |pat|][1] == t[0];
        }
      }
    }
    IndexOfSkip("{{", t, pat);
  }

  /** `s.replace(/open([\s\S]*?)close/g, keep ? '$1' : '')` for literal markers: from the
      first opening marker to the nearest closing marker after it, the section becomes its
      inner text or nothing, and the search resumes after it. An opening marker with no
      closing one after it ends the search. */
  function Sections(s: String, open: String, close: String, keep: bool): String
    requires |open| > 0 && |close| > 0
    decreases |s|
  {
    match IndexOf(s, open)
    case None => s
    case Some(i) =>
      var after := s[i + |open|..];
      match IndexOf(after, close)
      case None => s
      case Some(j) =>
        s[..i] + (if keep then after[..j] else []) + Sections(after[j + |close|..], open, close, keep)
  }

  /** A text in which the opening marker does not occur holds no section. */
  lemma SectionsAbsent(s: String, open: String, close: String, keep: bool)
    requires |open| > 0 && |close| > 0 && IndexOf(s, open).None?
    ensures Sections(s, open, close, keep) == s
  {
  }

  /** One section between brace-free texts: kept as its inner text exactly when `keep`. */
  lemma SectionOnce(a: String, x: String, b: String, open: String, close: String, keep: bool)
    requires |open| > 0 && |close| > 0 && open[0] == '{' && close[0] == '{'
    requires NoBrace(a) && NoBrace(x) && NoBrace(b)
    ensures Sections(a + open + x + close + b, open, close, keep)
            == a + (if keep then x else []) + b
  {
    var s := a + open + x + close + b;
    var after := x + (close + b);
    FoundAfterFree(a, open + after, open);
    assert s == a + (open + after);
    assert IndexOf(s, open).value == |a|;
    assert s[|a| + |open|..] == after;
    FoundAfterFree(x, close + b, close);
    assert IndexOf(after, close).value == |x|;
    assert after[..|x|] == x;
    assert after[|x| + |close|..] == b;
    assert s[..|a|] == a;
    IndexOfFree(b, open);
    SectionsAbsent(b, open, close, keep);
    SectionsFound(s, open, close, keep);
  }

  /** Where both markers are found, the section becomes its inner text or nothing and the
      search goes on after it. */
  lemma SectionsFound(s: String, open: String, close: String, keep: bool)
    requires |open| > 0 && |close| > 0
    requires IndexOf(s, open).Some?
    requires IndexOf(s[IndexOf(s, open).value + |open|..], close).Some?
    ensures var i := IndexOf(s, open).value;
            var after := s[i + |open|..];
            var j := IndexOf(after, close).value;
            Sections(s, open, close, keep)
            == s[..i] + (if keep then after[..j] else []) + Sections(after[j + |close|..], open, close, keep)
  {
  }

  /** A marker right after a text without its first character is found there. */
  lemma FoundAfterFree(a: String, t: String, pat: String)
    requires |pat| > 0 && pat[0] == '{' && NoBrace(a) && StartsWith(t, pat)
    ensures IndexOf(a + t, pat) == Some(|a|)
  {
    IndexOfAtStart(t, pat);
    IndexOfPastFree(a, t, pat);
  }

  /** Neither section marker occurs in a brace-free text around one placeholder. */
  lemma NoSectionAroundTag(a: String, n: String, b: String, marker: String)
    requires (forall i :: 0 <= i < |n| ==> IsWordChar(n[i])) && NoBrace(a) && NoBrace(b)
    requires marker == Open(n) || marker == Inverse(n)
    ensures IndexOf(a + Tag(n) + b, marker) == None
  {
    var t := n + "}}" + b;
    assert NoBrace(t);
    assert a + Tag(n) + b == a + ("{{" + t);
    IndexOfFree(t, marker);
    SkipBraces(t, marker);
    IndexOfPastFree(a, "{{" + t, marker);
  }

  /** No opening marker occurs in a brace-free text around one inverse section. */
  lemma NoOpenAroundInverse(a: String, n: String, x: String, b: String)
    requires WordName(n) && NoBrace(a) && NoBrace(x) && NoBrace(b)
    ensures IndexOf(a + Inverse(n) + x + Close(n) + b, Open(n)) == None
  {
    var o := Open(n);
    var u := "/" + n + "}}" + b;
    var v := "^" + n + "}}" + x;
    var w := v + (Close(n) + b);
    assert IndexOf(Close(n) + b, o).None? by {
      assert NoBrace(u);
      IndexOfFree(u, o);
      SkipBraces(u, o);
      assert Close(n) + b == "{{" + u;
    }
    assert IndexOf("{{" + w, o).None? by {
      assert NoBrace(v);
      IndexOfPastFree(v, Close(n) + b, o);
      SkipBraces(w, o);
    }
    assert IndexOf(a + ("{{" + w), o).None? by {
      IndexOfPastFree(a, "{{" + w, o);
    }
    assert a + Inverse(n) + x + Close(n) + b == a + ("{{" + w);
  }

  // ---------------------------------------------------------------- substitution

  /** The global replace of a placeholder: with `expand` the value is a replacement
      pattern whose `$` sequences JavaScript interprets (the source as written); without
      it the value is inserted verbatim. */
  function Substitute(s: String, pat: String, rep: String, expand: bool): String
    requires |pat| > 0
  {
    if expand then GlobalReplace([], s, pat, rep) else ReplaceAll(s, pat, rep)
  }

  /** A text without the placeholder's first character passes either substitution
      unchanged. */
  lemma SubstituteAbsent(s: String, pat: String, rep: String, expand: bool)
    requires |pat| > 0
    requires forall i :: 0 <= i < |s| ==> s[i] != pat[0]
    ensures Substitute(s, pat, rep, expand) == s
  {
    if expand { GlobalReplaceAbsent([], s, pat, rep); } else { ReplaceAllAbsent(s, pat, rep); }
  }

  /** What one variable does to the content (generateContent's forEach body). */
  function Step(c: String, v: TemplateVariable, values: map<String, Value>, expand: bool): String {
    var n := v.name;
    match Lookup(values, n)
    case Some(x) =>
      var shown := Sections(c, Open(n), Close(n), Truthy(x));
      var hidden := Sections(shown, Inverse(n), Close(n), !Truthy(x));
      Substitute(hidden, TagPattern(n), Rendered(x), expand)
    case None =>
      if v.defaultValue.Some? && Truthy(v.defaultValue.value) then
        Substitute(c, TagPattern(n), Rendered(v.defaultValue.value), expand)
      else c
  }

  /** A single occurrence between texts without the pattern's first character is replaced
      once. */
  lemma {:induction false} ReplaceAllOnce(a: String, pat: String, b: String, rep: String)
    requires |pat| > 0
    requires forall i :: 0 <= i < |a| ==> a[i] != pat[0]
    requires forall i :: 0 <= i < |b| ==> b[i] != pat[0]
    ensures ReplaceAll(a + pat + b, pat, rep) == a + rep + b
  {
    var s := a + pat + b;
    if a == [] {
      assert s == pat + b;
      assert s[..|pat|] == pat && s[|pat|..] == b;
      ReplaceAllAbsent(b, pat, rep);
    } else {
      assert s[0] == a[0];
      assert s[..|pat|] != pat by { assert s[..|pat|][0] == a[0]; }
      assert s[1..] == a[1..] + pat + b;
      ReplaceAllOnce(a[1..], pat, b, rep);
      assert [a[0]] + (a[1..] + rep + b) == a + rep + b;
    }
  }

  /** A `{{#name}}` section shows its inner text if and only if the variable's value is
      truthy. */
  lemma SectionShownIffTruthy(a: String, x: String, b: String, v: TemplateVariable,
                              values: map<String, Value>, expand: bool)
    requires WordName(v.name) && NoBrace(a) && NoBrace(x) && NoBrace(b) && Lookup(values, v.name).Some?
    ensures Step(a + Open(v.name) + x + Close(v.name) + b, v, values, expand)
            == a + (if Truthy(Lookup(values, v.name).value) then x else []) + b
  {
    var n := v.name;
    var k := Truthy(Lookup(values, n).value);
    SectionOnce(a, x, b, Open(n), Close(n), k);
    var c1 := a + (if k then x else []) + b;
    assert NoBrace(c1);
    IndexOfFree(c1, Inverse(n));
    SubstituteAbsent(c1, Tag(n), Rendered(Lookup(values, n).value), expand);
  }

  /** A `{{^name}}` section shows its inner text if and only if the variable's value is
      falsy. */
  lemma InverseShownIffFalsy(a: String, x: String, b: String, v: TemplateVariable,
                             values: map<String, Value>, expand: bool)
    requires WordName(v.name) && NoBrace(a) && NoBrace(x) && NoBrace(b) && Lookup(values, v.name).Some?
    ensures Step(a + Inverse(v.name) + x + Close(v.name) + b, v, values, expand)
            == a + (if Truthy(Lookup(values, v.name).value) then [] else x) + b
  {
    var n := v.name;
    var k := Truthy(Lookup(values, n).value);
    NoOpenAroundInverse(a, n, x, b);
    SectionOnce(a, x, b, Inverse(n), Close(n), !k);
    var c2 := a + (if !k then x else []) + b;
    assert NoBrace(c2);
    SubstituteAbsent(c2, Tag(n), Rendered(Lookup(values, n).value), expand);
  }

  /** A placeholder whose variable has a value becomes `String(value)`, verbatim. */
  lemma ValueSubstituted(a: String, b: String, v: TemplateVariable, values: map<String, Value>)
    requires WordName(v.name) && NoBrace(a) && NoBrace(b) && Lookup(values, v.name).Some?
    ensures Step(a + Tag(v.name) + b, v, values, false) == a + Rendered(Lookup(values, v.name).value) + b
  {
    var n := v.name;
    NoSectionAroundTag(a, n, b, Open(n));
    NoSectionAroundTag(a, n, b, Inverse(n));
    ReplaceAllOnce(a, Tag(n), b, Rendered(Lookup(values, n).value));
  }

  /** As written, a placeholder whose variable has a value becomes `String(value)` read as a
      replacement pattern, whose `$` sequences see the placeholder and the text around it. */
  lemma ValueExpanded(a: String, b: String, v: TemplateVariable, values: map<String, Value>)
    requires WordName(v.name) && NoBrace(a) && NoBrace(b) && Lookup(values, v.name).Some?
    ensures Step(a + Tag(v.name) + b, v, values, true)
            == a + Expand(Rendered(Lookup(values, v.name).value), Tag(v.name), a, b) + b
  {
    var n := v.name;
    NoSectionAroundTag(a, n, b, Open(n));
    NoSectionAroundTag(a, n, b, Inverse(n));
    GlobalReplaceOnce([], a, Tag(n), b, Rendered(Lookup(values, n).value));
    assert [] + a == a;
  }

  /** A placeholder whose variable has no value becomes the truthy default, and stays
      otherwise (to be removed by the clean-up). */
  lemma DefaultSubstituted(a: String, b: String, v: TemplateVariable, values: map<String, Value>)
    requires WordName(v.name) && NoBrace(a) && NoBrace(b) && Lookup(values, v.name).None?
    ensures Step(a + Tag(v.name) + b, v, values, false)
            == if v.defaultValue.Some? && Truthy(v.defaultValue.value)
               then a + Rendered(v.defaultValue.value) + b
               else a + Tag(v.name) + b
  {
    if v.defaultValue.Some? && Truthy(v.defaultValue.value) {
      ReplaceAllOnce(a, Tag(v.name), b, Rendered(v.defaultValue.value));
    }
  }

  /** Where the source hands `String(value)` to `replace` as a replacement pattern, a value
      with `$$` loses a dollar sign: "$$5" comes out as "$5". */
  lemma DollarPatternInValue(v: TemplateVariable, values: map<String, Value>)
    requires WordName(v.name) && Lookup(values, v.name) == Some(Str("$$5"))
    ensures Step(Tag(v.name), v, values, true) == "$5"
    ensures Step(Tag(v.name), v, values, false) == "$$5"
  {
    var n := v.name;
    assert Tag(n) == [] + Tag(n) + [];
    NoSectionAroundTag([], n, [], Open(n));
    NoSectionAroundTag([], n, [], Inverse(n));
    var t := Tag(n);
    assert t[..|t|] == t && t[|t|..] == [];
    assert GlobalReplace([], t, t, "$$5") == Expand("$$5", t, [], []) + GlobalReplace(t, [], t, "$$5");
    ReplaceAllOnce([], t, [], "$$5");
  }

  /** When no value or default holds a '$', the source's replacement patterns and verbatim
      insertion agree. */
  lemma StepWithoutDollar(c: String, v: TemplateVariable, values: map<String, Value>)
    requires Lookup(values, v.name).Some? ==> '$' !in Rendered(Lookup(values, v.name).value)
    requires Lookup(values, v.name).None? && v.defaultValue.Some? ==> '$' !in Rendered(v.defaultValue.value)
    ensures Step(c, v, values, true) == Step(c, v, values, false)
  {
    var n := v.name;
    if Lookup(values, n).Some? {
      var x := Lookup(values, n).value;
      var hidden := Sections(Sections(c, Open(n), Close(n), Truthy(x)), Inverse(n), Close(n), !Truthy(x));
      GlobalReplaceWithoutDollar([], hidden, TagPattern(n), Rendered(x));
    } else if v.defaultValue.Some? && Truthy(v.defaultValue.value) {
      GlobalReplaceWithoutDollar([], c, TagPattern(n), Rendered(v.defaultValue.value));
    }
  }

  /** The placeholder of an all-digit name worth at least 1 holds nowhere the N opening
      braces and the closing brace its pattern asks for. */
  lemma DigitPatternAbsent(a: String, n: String, b: String)
    requires DigitName(n) && DigitsValue(n) >= 1 && NoBrace(a) && NoBrace(b)
    ensures forall j :: !IsAt(a + Tag(n) + b, TagPattern(n), j)
  {
    var s := a + Tag(n) + b;
    var p := TagPattern(n);
    assert s == a + "{{" + n + "}}" + b;
    forall j ensures !IsAt(s, p, j) {
      if j < 0 || j + |p| > |s| {
      } else if j < |a| {
        assert s[j..j + |p|][0] == a[j] != p[0];
      } else if j == |a| && |p| == 2 {
        assert s[j..j + |p|][1] == '{' != p[1];
      } else if j == |a| {
        assert s[j..j + |p|][2] == n[0] != p[2];
      } else if j == |a| + 1 {
        assert s[j..j + |p|][1] == n[0] != p[1];
      } else if j < |a| + 2 + |n| {
        assert s[j..j + |p|][0] == n[j - |a| - 2] != p[0];
      } else if j < |a| + 4 + |n| {
        assert s[j..j + |p|][0] == '}' != p[0];
      } else {
        assert s[j..j + |p|][0] == b[j - |a| - 4 - |n|] != p[0];
      }
    }
  }

  /** As written, the placeholder of an all-digit name N of at least 1 is never replaced,
      whatever the request holds: its pattern asks for N opening braces before a closing
      one. It stays for the clean-up to remove. */
  lemma DigitPlaceholderKept(a: String, b: String, v: TemplateVariable, values: map<String, Value>,
                             expand: bool)
    requires DigitName(v.name) && DigitsValue(v.name) >= 1 && NoBrace(a) && NoBrace(b)
    ensures Step(a + Tag(v.name) + b, v, values, expand) == a + Tag(v.name) + b
  {
    var n := v.name;
    var s := a + Tag(n) + b;
    DigitPatternAbsent(a, n, b);
    match Lookup(values, n)
    case Some(x) =>
      NoSectionAroundTag(a, n, b, Open(n));
      NoSectionAroundTag(a, n, b, Inverse(n));
      SubstituteNowhere(s, TagPattern(n), Rendered(x), expand);
    case None =>
      if v.defaultValue.Some? && Truthy(v.defaultValue.value) {
        SubstituteNowhere(s, TagPattern(n), Rendered(v.defaultValue.value), expand);
      }
  }

  /** A text in which the placeholder pattern occurs nowhere passes either substitution
      unchanged. */
  lemma SubstituteNowhere(s: String, pat: String, rep: String, expand: bool)
    requires |pat| > 0 && forall j :: !IsAt(s, pat, j)
    ensures Substitute(s, pat, rep, expand) == s
  {
    if expand { GlobalReplaceNowhere([], s, pat, rep); } else { ReplaceAllNowhere(s, pat, rep); }
  }

  /** As written, the name "0" has the pattern "}", so its value replaces every closing
      brace: "{{0}}" becomes "{{0" followed by the value twice. */
  lemma ZeroNameReplacesBraces(v: TemplateVariable, values: map<String, Value>)
    requires v.name == "0" && Lookup(values, "0") == Some(Str("x"))
    ensures Step("{{0}}", v, values, true) == "{{0xx"
  {
    var s := Tag("0");
    assert s == "{{0}}";
    calc {
      Step(s, v, values, true);
      Substitute(Sections(Sections(s, Open("0"), Close("0"), true), Inverse("0"), Close("0"), false),
                 TagPattern("0"), "x", true);
      { ZeroSectionsAbsent(); ZeroPattern(); }
      Substitute(s, "}", "x", true);
      { GlobalReplaceWithoutDollar([], s, "}", "x"); }
      ReplaceAll(s, "}", "x");
      { ReplaceBraces(); }
      "{{0xx";
    }
  }

  /** No section marker of the name "0" occurs in its placeholder. */
  lemma ZeroSectionsAbsent()
    ensures Sections(Sections(Tag("0"), Open("0"), Close("0"), true), Inverse("0"), Close("0"), false)
            == Tag("0")
  {
    var s := Tag("0");
    assert s == [] + s + [];
    NoSectionAroundTag([], "0", [], Open("0"));
    NoSectionAroundTag([], "0", [], Inverse("0"));
  }

  /** The name "0" asks for no opening brace at all. */
  lemma ZeroPattern()
    ensures TagPattern("0") == "}"
  {
    assert DigitName("0") && DigitsValue("0") == 0;
  }

  /** Replacing every closing brace of "{{0}}" with "x". */
  lemma ReplaceBraces()
    ensures ReplaceAll("{{0}}", "}", "x") == "{{0xx"
  {
    assert ReplaceAll("}", "}", "x") == "x";
    assert "}}"[1..] == "}";
    assert ReplaceAll("}}", "}", "x") == "xx";
    assert "0}}"[1..] == "}}";
    assert "{0}}"[1..] == "0}}";
    assert "{{0}}"[1..] == "{0}}";
  }

  /** As written, a required variable whose name Object.prototype provides is never
      reported missing, even when the request leaves it out. */
  lemma InheritedNeverMissing(vars: seq<TemplateVariable>, values: map<String, Value>, n: String)
    requires Inherited(n) && n !in values
    ensures n !in MissingRequired(vars, values)
  {
    assert Supplied(values, n);
  }

  /** The content after the variables, in declaration order. */
  function Render(vars: seq<TemplateVariable>, values: map<String, Value>, content: String,
                  expand: bool): String
  {
    if vars == [] then content
    else Step(Render(vars[..|vars| - 1], values, content, expand), vars[|vars| - 1], values, expand)
  }

  // ---------------------------------------------------------------- clean-up

  /** Where a `{{[^}]*}}` match starting at 0 ends: after the first '}' past the two braces,
      when another '}' follows it. */
  function TagEnd(s: String): (r: Option<nat>)
    requires |s| >= 2
    ensures r.Some? ==> 4 <= r.value <= |s|
  {
    match FirstIndex(s[2..], (c: char) => c == '}')
    case None => None
    case Some(j) => if 2 + j + 1 < |s| && s[2 + j + 1] == '}' then Some(2 + j + 2) else None
  }

  /** `s.replace(/{{[^}]*}}/g, '')`. */
  function Strip(s: String): String
    decreases |s|
  {
    if |s| < 2 then s
    else if s[0] == '{' && s[1] == '{' && TagEnd(s).Some? then Strip(s[TagEnd(s).value..])
    else [s[0]] + Strip(s[1..])
  }

  /** Brace-free text passes the clean-up untouched. */
  lemma {:induction false} StripPastFree(a: String, t: String)
    requires NoBrace(a)
    ensures Strip(a + t) == a + Strip(t)
  {
    if a != [] {
      var s := a + t;
      assert s[0] == a[0] && s[1..] == a[1..] + t;
      assert NoBrace(a[1..]);
      StripHead(s);
      StripPastFree(a[1..], t);
      calc {
        Strip(a + t);
        [a[0]] + Strip(a[1..] + t);
        [a[0]] + (a[1..] + Strip(t));
        { assert [a[0]] + a[1..] == a; }
        a + Strip(t);
      }
    } else {
      assert a + t == t;
    }
  }

  /** The clean-up keeps a first character that is not a brace. */
  lemma StripHead(s: String)
    requires |s| > 0 && s[0] != '{'
    ensures Strip(s) == [s[0]] + Strip(s[1..])
  {
  }

  /** A leftover placeholder, or any `{{…}}` without '}' inside, is removed. */
  lemma StripTag(a: String, w: String, b: String)
    requires NoBrace(a)
    requires forall i :: 0 <= i < |w| ==> w[i] != '}'
    ensures Strip(a + "{{" + w + "}}" + b) == a + Strip(b)
  {
    var s := "{{" + w + "}}" + b;
    assert s[2..] == w + "}}" + b;
    assert s[2..][|w|] == '}';
    assert s[2 + |w| + 1] == '}';
    assert TagEnd(s) == Some(|w| + 4);
    assert s[|w| + 4..] == b;
    assert a + "{{" + w + "}}" + b == a + s;
    StripPastFree(a, s);
  }

  /** One more variable rendered onto the content rendered so far. */
  lemma RenderPrefixStep(vars: seq<TemplateVariable>, values: map<String, Value>, content: String,
                         expand: bool, k: nat)
    requires k < |vars|
    ensures Render(vars[..k + 1], values, content, expand)
            == Step(Render(vars[..k], values, content, expand), vars[k], values, expand)
  {
    assert vars[..k + 1][..k] == vars[..k];
  }

  /** generateContent: every variable in order, then the clean-up and the trim; the
      values are handed to `replace` as replacement patterns, as written. */
  function Generated(t: Template, values: map<String, Value>): String {
    JsTrim(Strip(Render(t.variables, values, t.content, true)))
  }

  /** generateContent's loop. */
  method GenerateContent(t: Template, values: map<String, Value>) returns (content: String)
    ensures content == Generated(t, values)
  {
    content := t.content;
    for k := 0 to |t.variables|
      invariant content == Render(t.variables[..k], values, t.content, true)
    {
      RenderPrefixStep(t.variables, values, t.content, true, k);
      content := Step(content, t.variables[k], values, true);
    }
    assert t.variables[..|t.variables|] == t.variables;
    content := JsTrim(Strip(content));
  }

  // ---------------------------------------------------------------- customisations

  /** A customisation field that is present and non-empty (`if (customizations.style)`). */
  predicate Given(o: Option<String>) {
    o.Some? && o.value != []
  }

  function Styled(c: String, style: String): String {
    if style == "formal" then
      ReplaceAll(ReplaceAll(ReplaceAll(ReplaceAll(c, "你", "您"), "很好", "优秀"), "不错", "良好"), "！", "。")
    else if style == "casual" then
      ReplaceAll(ReplaceAll(ReplaceAll(c, "您", "你"), "优秀", "很棒"), "良好", "不错")
    else if style == "professional" then
      ReplaceAll(ReplaceAll(ReplaceAll(c, "很", "非常"), "好", "优质"), "快", "高效")
    else c
  }

  function Toned(c: String, tone: String): String {
    if tone == "friendly" then
      ReplaceAll(ReplaceAll(c, "。", "～"), "！", "！😊")
    else if tone == "authoritative" then
      ReplaceAll(ReplaceAll(ReplaceAll(c, "可能", "必然"), "建议", "要求"), "希望", "需要")
    else if tone == "persuasive" then
      ReplaceAll(ReplaceAll(ReplaceAll(c, "产品", "革命性产品"), "服务", "卓越服务"), "功能", "强大功能")
    else c
  }

  /** The formal style leaves no informal 你 and no exclamation mark; the casual style
      leaves no formal 您; the friendly tone leaves no full stop. */
  lemma StyleAndToneRemove(c: String)
    ensures '你' !in Styled(c, "formal") && '！' !in Styled(c, "formal")
    ensures '您' !in Styled(c, "casual")
    ensures '。' !in Toned(c, "friendly")
  {
    var f1 := ReplaceAll(c, "你", "您");
    var f2 := ReplaceAll(f1, "很好", "优秀");
    var f3 := ReplaceAll(f2, "不错", "良好");
    ReplaceAllLacks(c, "你", "您", '你');
    ReplaceAllLacks(f1, "很好", "优秀", '你');
    ReplaceAllLacks(f2, "不错", "良好", '你');
    ReplaceAllLacks(f3, "！", "。", '你');
    ReplaceAllLacks(f3, "！", "。", '！');
    var k1 := ReplaceAll(c, "您", "你");
    var k2 := ReplaceAll(k1, "优秀", "很棒");
    ReplaceAllLacks(c, "您", "你", '您');
    ReplaceAllLacks(k1, "优秀", "很棒", '您');
    ReplaceAllLacks(k2, "良好", "不错", '您');
    var t1 := ReplaceAll(c, "。", "～");
    ReplaceAllLacks(c, "。", "～", '。');
    ReplaceAllLacks(t1, "！", "！😊", '。');
  }

  /** `Math.ceil(n * 0.7)`, taken exactly. */
  function SeventyPercent(n: nat): (k: nat)
    ensures 10 * k >= 7 * n && 10 * (k - 1) < 7 * n && k <= n
  {
    (7 * n + 9) / 10
  }

  /** shortenContent. */
  function Shortened(c: String): String {
    var ss := CjkPieces(c);
    Join(ss[..SeventyPercent(|ss|)], "。") + "。"
  }

  function Expanded(c: String): String {
    ReplaceAll(ReplaceAll(ReplaceAll(c, "。", "，这为用户带来了更好的体验。"), "！", "，这一点特别值得关注！"),
               "\n", "\n\n此外，我们还需要考虑到相关的因素。\n")
  }

  function Lengthened(c: String, length: String): String {
    if length == "short" then Shortened(c)
    else if length == "long" then Expanded(c)
    else c
  }

  /** applyCustomizations: style, then tone, then length, each only when given. */
  function Customized(c: String, cz: Option<Customizations>): (r: String)
    ensures cz.None? ==> r == c
    ensures cz.Some? && !Given(cz.value.style) && !Given(cz.value.tone) && !Given(cz.value.length)
            ==> r == c
  {
    if cz.None? then c
    else
      var s := if Given(cz.value.style) then Styled(c, cz.value.style.value) else c;
      var t := if Given(cz.value.tone) then Toned(s, cz.value.tone.value) else s;
      if Given(cz.value.length) then Lengthened(t, cz.value.length.value) else t
  }

  /** Joining terminator-free pieces with '。' and closing with '。' splits back into the
      pieces and one empty tail. */
  lemma {:induction false} JoinThenSplit(ps: seq<String>)
    requires ps != []
    requires forall k, i :: 0 <= k < |ps| && 0 <= i < |ps[k]| ==> !IsCjkStop(ps[k][i])
    ensures SplitWhere(Join(ps, "。") + "。", IsCjkStop) == ps + [[]]
  {
    if |ps| == 1 {
      SplitWhereAfter(ps[0], '。', [], IsCjkStop);
      assert Join(ps, "。") + "。" == ps[0] + ['。'] + [];
    } else {
      JoinThenSplit(ps[1..]);
      assert Join(ps, "。") + "。" == ps[0] + ['。'] + (Join(ps[1..], "。") + "。");
      SplitWhereAfter(ps[0], '。', Join(ps[1..], "。") + "。", IsCjkStop);
      assert [ps[0]] + (ps[1..] + [[]]) == ps + [[]];
    }
  }

  /** No kept sentence holds a terminator. */
  lemma SentencesLackEnds(c: String)
    ensures forall k, i :: 0 <= k < |CjkPieces(c)| && 0 <= i < |CjkPieces(c)[k]|
                           ==> !IsCjkStop(CjkPieces(c)[k][i])
  {
    var ss := CjkPieces(c);
    var pieces := SplitWhere(c, IsCjkStop);
    SplitWherePieces(c, IsCjkStop);
    forall k, i | 0 <= k < |ss| && 0 <= i < |ss[k]| ensures !IsCjkStop(ss[k][i]) {
      assert ss[k] in ss;
      var m :| 0 <= m < |pieces| && pieces[m] == ss[k];
    }
  }

  /** Reading back terminator-free, non-blank pieces joined as shortenContent joins them
      gives exactly those pieces. */
  lemma JoinedSentences(kept: seq<String>)
    requires forall k, i :: 0 <= k < |kept| && 0 <= i < |kept[k]| ==> !IsCjkStop(kept[k][i])
    requires forall k :: 0 <= k < |kept| ==> NotBlank(kept[k])
    ensures CjkPieces(Join(kept, "。") + "。") == kept
  {
    var keep := NotBlank;
    assert !keep([]) by { TrimFacts([], IsJsSpace); }
    if kept == [] {
      assert Join(kept, "。") + "。" == "。";
      assert SplitWhere("。", IsCjkStop) == [[], []] by { assert "。"[1..] == []; }
      assert Filter([[], []], keep) == [];
    } else {
      JoinThenSplit(kept);
      FilterAppend(kept, [[]], keep);
      FilterKeepsAll(kept, keep);
      assert Filter([[]], keep) == [];
    }
  }

  /** shortenContent keeps the first ceil(0.7·n) of the n non-blank sentences, and reading
      its result back gives exactly those sentences: shortening never splits or merges
      one. */
  lemma ShortenedKeepsLeadingSentences(c: String)
    ensures var ss := CjkPieces(c);
            var kept := ss[..SeventyPercent(|ss|)];
            CjkPieces(Shortened(c)) == kept
            && (|ss| > 0 ==> |kept| > 0)
            && Shortened(c)[|Shortened(c)| - 1] == '。'
  {
    var ss := CjkPieces(c);
    var kept := ss[..SeventyPercent(|ss|)];
    SentencesLackEnds(c);
    assert forall k, i :: 0 <= k < |kept| && 0 <= i < |kept[k]| ==> !IsCjkStop(kept[k][i]) by {
      forall k, i | 0 <= k < |kept| && 0 <= i < |kept[k]| ensures !IsCjkStop(kept[k][i]) {
        assert kept[k] == ss[k];
      }
    }
    assert forall k :: 0 <= k < |kept| ==> JsTrim(kept[k]) != [] by {
      forall k | 0 <= k < |kept| ensures JsTrim(kept[k]) != [] {
        assert kept[k] == ss[k];
      }
    }
    JoinedSentences(kept);
  }

  // ---------------------------------------------------------------- the response

  /** The response's metadata for the final content: the `split(/\s+/)` piece count and
      the reading time. */
  function Metadata(content: String): (m: ResponseMetadata)
    ensures m.wordCount == |SplitRuns(content, IsJsSpace)| >= 1
    ensures m.estimatedReadingTime == ReadingMinutes(m.wordCount) >= 1
  {
    var w := |SplitRuns(content, IsJsSpace)|;
    ResponseMetadata(w, ReadingMinutes(w))
  }

  // ---------------------------------------------------------------- the module

  /** `categories.add(c)` on a set that iterates in insertion order. */
  function AddCategory(cs: seq<String>, c: String): (r: seq<String>)
    ensures c in r && forall x :: x in cs ==> x in r
    ensures Distinct(cs) ==> Distinct(r)
  {
    if c in cs then cs else cs + [c]
  }


  /** searchTemplates' test, with the query already lowercased. */
  predicate MatchesQuery(t: Template, q: String) {
    Contains(Lower(t.name), q) || Contains(Lower(t.description), q)
    || exists k :: 0 <= k < |t.tags| && Contains(Lower(t.tags[k]), q)
  }

  /** Whether `ids[k]` is the last write to its id in a batch. */
  predicate LastWrite(ids: seq<String>, k: nat) {
    forall m :: k < m < |ids| ==> ids[m] != ids[k]
  }

  /** The store after the built-in templates are set one after another under their ids. */
  function Loaded(m: map<String, Template>, defaults: seq<TemplateData>, ids: seq<String>,
                  now: int): map<String, Template>
    requires |ids| == |defaults|
  {
    if ids == [] then m
    else
      var n := |ids| - 1;
      Loaded(m, defaults[..n], ids[..n], now)[ids[n] := Stamped(ids[n], defaults[n], now, 4.5)]
  }

  /** Loading adds exactly the generated ids. */
  lemma {:induction false} LoadedKeys(m: map<String, Template>, defaults: seq<TemplateData>,
                                      ids: seq<String>, now: int)
    requires |ids| == |defaults|
    ensures Loaded(m, defaults, ids, now).Keys == m.Keys + (set id | id in ids)
  {
    if ids != [] {
      var n := |ids| - 1;
      LoadedKeys(m, defaults[..n], ids[..n], now);
      assert ids == ids[..n] + [ids[n]];
      assert (set id | id in ids) == (set id | id in ids[..n]) + {ids[n]};
    }
  }

  /** Each generated id holds its built-in template unless a later one reused the id. */
  lemma {:induction false} LoadedValues(m: map<String, Template>, defaults: seq<TemplateData>,
                                        ids: seq<String>, now: int, k: nat)
    requires |ids| == |defaults| && k < |ids| && LastWrite(ids, k)
    ensures ids[k] in Loaded(m, defaults, ids, now)
    ensures Loaded(m, defaults, ids, now)[ids[k]] == Stamped(ids[k], defaults[k], now, 4.5)
  {
    var n := |ids| - 1;
    if k < n {
      assert ids[n] != ids[k];
      var ids', ds' := ids[..n], defaults[..n];
      assert ids'[k] == ids[k] && ds'[k] == defaults[k];
      assert LastWrite(ids', k);
      LoadedValues(m, ds', ids', now, k);
    }
  }

  /** Loading keeps every entry whose id it does not generate. */
  lemma {:induction false} LoadedKeeps(m: map<String, Template>, defaults: seq<TemplateData>,
                                       ids: seq<String>, now: int, id: String)
    requires |ids| == |defaults| && id in m && id !in ids
    ensures id in Loaded(m, defaults, ids, now) && Loaded(m, defaults, ids, now)[id] == m[id]
  {
    if ids != [] {
      var n := |ids| - 1;
      assert id !in ids[..n];
      LoadedKeeps(m, defaults[..n], ids[..n], now, id);
    }
  }

  class TemplateModule {
    var initialized: bool
    var templates: map<String, Template>
    /** The insertion order of `templates`. */
    var order: seq<String>
    /** The categories set, in insertion order. */
    var categories: seq<String>

    ghost predicate Valid()
      reads this
    {
      (forall k :: k in templates <==> k in order) && Distinct(order) && Distinct(categories)
      && (forall k :: k in templates ==> templates[k].category in categories)
    }

    constructor ()
      ensures Valid() && !initialized
      ensures templates == map[] && order == [] && categories == []
    {
      initialized := false;
      templates := map[];
      order := [];
      categories := [];
    }

    /** `templates.set(id, t)` followed by `categories.add(t.category)`. */
    method Store(id: String, t: Template)
      requires Valid()
      modifies this
      ensures Valid() && initialized == old(initialized)
      ensures templates == old(templates)[id := t]
      ensures order == if id in old(templates) then old(order) else old(order) + [id]
      ensures categories == AddCategory(old(categories), t.category)
    {
      if id !in templates {
        order := order + [id];
      }
      templates := templates[id := t];
      categories := AddCategory(categories, t.category);
    }

    /** initialize: the built-in templates are stored under the generated ids with usage 0
        and rating 4.5, and the module becomes ready. */
    method Initialize(defaults: seq<TemplateData>, ids: seq<String>, now: int)
      requires Valid() && |ids| == |defaults|
      modifies this
      ensures Valid() && initialized
      ensures templates == Loaded(old(templates), defaults, ids, now)
      ensures templates.Keys == old(templates.Keys) + (set id | id in ids)
    {
      for k := 0 to |ids|
        invariant Valid()
        invariant templates == Loaded(old(templates), defaults[..k], ids[..k], now)
      {
        assert ids[..k + 1][..k] == ids[..k] && defaults[..k + 1][..k] == defaults[..k];
        Store(ids[k], Stamped(ids[k], defaults[k], now, 4.5));
      }
      assert ids[..|ids|] == ids && defaults[..|defaults|] == defaults;
      LoadedKeys(old(templates), defaults, ids, now);
      initialized := true;
    }

    /** cleanup. */
    method Cleanup()
      modifies this
      ensures Valid() && !initialized
      ensures templates == map[] && order == [] && categories == []
    {
      templates := map[];
      order := [];
      categories := [];
      initialized := false;
    }

    /** createTemplate: the id is "custom_" and the clock, so a second template created in
        the same millisecond replaces the first. */
    method CreateTemplate(data: TemplateData, now: int) returns (id: String)
      requires Valid()
      modifies this
      ensures Valid() && initialized == old(initialized)
      ensures id == "custom_" + IntToDecimal(now)
      ensures templates == old(templates)[id := Stamped(id, data, now, 0.0)]
      ensures categories == AddCategory(old(categories), data.category)
    {
      id := "custom_" + IntToDecimal(now);
      Store(id, Stamped(id, data, now, 0.0));
    }

    /** getAllTemplates. */
    function AllTemplates(): (r: seq<Template>)
      requires Valid()
      reads this
      ensures |r| == |templates|
      ensures forall t :: t in r <==> t in templates.Values
    {
      var all := ValuesInOrder(order, templates);
      assert forall t :: t in templates.Values ==> t in all by {
        forall t | t in templates.Values ensures t in all {
          var k :| k in templates && templates[k] == t;
          var i :| 0 <= i < |order| && order[i] == k;
          assert all[i] == t;
        }
      }
      assert |templates| == |order| by { DistinctKeys(order, templates); }
      all
    }

    /** getTemplatesByCategory. */
    function ByCategory(category: String): (r: seq<Template>)
      requires Valid()
      reads this
      ensures forall t :: t in r <==> t in templates.Values && t.category == category
    {
      Filter(AllTemplates(), (t: Template) => t.category == category)
    }

    /** searchTemplates (lowercasing ASCII letters). */
    function Search(query: String): (r: seq<Template>)
      requires Valid()
      reads this
      ensures forall t :: t in r <==> t in templates.Values && MatchesQuery(t, Lower(query))
    {
      var q := Lower(query);
      Filter(AllTemplates(), (t: Template) => MatchesQuery(t, q))
    }

    /** getCategories: every stored template's category, each once, in the order first
        added. */
    function Categories(): (r: seq<String>)
      requires Valid()
      reads this
      ensures Distinct(r)
      ensures forall t :: t in templates.Values ==> t.category in r
    {
      categories
    }

    /** process. */
    method Process(req: TemplateRequest, now: int) returns (r: Outcome)
      requires Valid()
      modifies this
      ensures Valid() && initialized == old(initialized)
      ensures order == old(order) && categories == old(categories)
      ensures !old(initialized) ==> r == Thrown(NotInitialized) && templates == old(templates)
      ensures old(initialized) && req.templateId !in old(templates) ==>
                r == Failure(ErrorCode, UnknownTemplate(req.templateId)) && templates == old(templates)
      ensures old(initialized) && req.templateId in old(templates) ==>
                var t := old(templates)[req.templateId];
                var missing := MissingRequired(t.variables, req.variables);
                (missing != [] ==>
                   r == Failure(ErrorCode, MissingVariables(missing)) && templates == old(templates))
                && (missing == [] ==>
                   var final := Customized(Generated(t, req.variables), req.customizations);
                   r == Success(TemplateResponse(req.templateId, final, req.variables, Metadata(final)))
                   && templates == old(templates)[req.templateId := Used(t)])
    {
      if !initialized {
        return Thrown(NotInitialized);
      }
      if req.templateId !in templates {
        return Failure(ErrorCode, UnknownTemplate(req.templateId));
      }
      var t := templates[req.templateId];
      var missing := MissingRequired(t.variables, req.variables);
      if missing != [] {
        return Failure(ErrorCode, MissingVariables(missing));
      }
      var generated := GenerateContent(t, req.variables);
      var final := Customized(generated, req.customizations);
      r := Success(TemplateResponse(req.templateId, final, req.variables, Metadata(final)));
      CountUse(req.templateId);
    }

    /** `template.usage++`: one more use of a stored template, the rest as it was. */
    method CountUse(id: String)
      requires Valid() && id in templates
      modifies this
      ensures Valid() && initialized == old(initialized)
      ensures order == old(order) && categories == old(categories)
      ensures templates == old(templates)[id := Used(old(templates)[id])]
    {
      var t := templates[id];
      var bumped := templates[id := Used(t)];
      assert forall k :: k in bumped <==> k in templates;
      assert forall k :: k in bumped ==> bumped[k].category == templates[k].category;
      templates := bumped;
    }
  }

  /** A list without repeats that names exactly the members of a set is as long as it. */
  lemma {:induction false} DistinctCount(order: seq<String>, keys: set<String>)
    requires forall k :: k in keys <==> k in order
    requires Distinct(order)
    ensures |keys| == |order|
  {
    if order != [] {
      var n := |order| - 1;
      var init := order[..n];
      assert Distinct(init) by {
        forall i, j | 0 <= i < j < n ensures init[i] != init[j] {
          assert init[i] == order[i] && init[j] == order[j];
        }
      }
      forall k ensures k in keys - {order[n]} <==> k in init {
        if k in init {
          var i :| 0 <= i < n && init[i] == k;
          assert order[i] == k;
        }
        if k in order && k != order[n] {
          var i :| 0 <= i < |order| && order[i] == k;
          assert init[i] == k;
        }
      }
      DistinctCount(init, keys - {order[n]});
    }
  }

  /** A key list without repeats that names exactly the map's keys is as long as the map. */
  lemma DistinctKeys<V>(order: seq<String>, m: map<String, V>)
    requires forall k :: k in m <==> k in order
    requires Distinct(order)
    ensures |m| == |order|
  {
    DistinctCount(order, m.Keys);
  }
}
