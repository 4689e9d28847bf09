/** String operations that the Rust and TypeScript sources rely on, written out once:
    whitespace classes, splitting, trimming, searching, replacing, encoded lengths and
    decimal/hexadecimal rendering. Strings are sequences of Unicode scalar values. */
module Text {
  import opened Wrappers
  import opened Collections

  type String = seq<char>

  // ---------------------------------------------------------------- character classes

  /** Unicode White_Space: the class Rust's `char::is_whitespace`, `split_whitespace` and
      `trim` use. */
  predicate IsRustSpace(c: char) {
    var n := c as int;
    (9 <= n <= 13) || n == 32 || n == 0x85 || n == 0xA0 || n == 0x1680
    || (0x2000 <= n <= 0x200A) || n == 0x2028 || n == 0x2029 || n == 0x202F
    || n == 0x205F || n == 0x3000
  }

  /** JavaScript `\s` (WhiteSpace and LineTerminator of ECMA-262); `trim()` strips the same
      class. Unlike Unicode White_Space it contains U+FEFF and lacks U+0085. */
  predicate IsJsSpace(c: char) {
    var n := c as int;
    (9 <= n <= 13) || n == 32 || n == 0xA0 || n == 0x1680
    || (0x2000 <= n <= 0x200A) || n == 0x2028 || n == 0x2029 || n == 0x202F
    || n == 0x205F || n == 0x3000 || n == 0xFEFF
  }

  predicate IsAsciiDigit(c: char) { '0' <= c <= '9' }
  predicate IsAsciiUpper(c: char) { 'A' <= c <= 'Z' }
  predicate IsAsciiLower(c: char) { 'a' <= c <= 'z' }
  predicate IsAsciiLetter(c: char) { IsAsciiUpper(c) || IsAsciiLower(c) }

  /** JavaScript `\w` without the `u` flag: `[A-Za-z0-9_]`. */
  predicate IsWordChar(c: char) { IsAsciiLetter(c) || IsAsciiDigit(c) || c == '_' }

  function LowerChar(c: char): char {
    if IsAsciiUpper(c) then (c as int + 32) as char else c
  }

  function UpperChar(c: char): char {
    if IsAsciiLower(c) then (c as int - 32) as char else c
  }

  /** `toLowerCase()` / `to_lowercase()` on the ASCII letters. */
  function Lower(s: String): String {
    seq(|s|, i requires 0 <= i < |s| => LowerChar(s[i]))
  }

  /** `toUpperCase()` on the ASCII letters. */
  function Upper(s: String): String {
    seq(|s|, i requires 0 <= i < |s| => UpperChar(s[i]))
  }

  predicate AllChars(s: String, p: char -> bool) {
    forall i :: 0 <= i < |s| ==> p(s[i])
  }

  function DigitOf(c: char): nat {
    if IsAsciiDigit(c) then c as int - '0' as int else 0
  }

  /** The number a string of decimal digits denotes. */
  function DigitsValue(s: String): nat {
    if s == [] then 0 else DigitsValue(s[..|s| - 1]) * 10 + DigitOf(s[|s| - 1])
  }

  /** `s` does not hold `c`. */
  predicate Avoids(s: String, c: char) {
    forall i :: 0 <= i < |s| ==> s[i] != c
  }

  lemma AvoidsConcat(a: String, b: String, c: char)
    requires Avoids(a, c) && Avoids(b, c)
    ensures Avoids(a + b, c)
  {
    forall i | 0 <= i < |a + b| ensures (a + b)[i] != c {
      if i >= |a| {
        assert (a + b)[i] == b[i - |a|];
      }
    }
  }

  /** A string of digits holds no other character. */
  lemma DigitsAvoid(s: String, c: char)
    requires AllChars(s, IsAsciiDigit) && !IsAsciiDigit(c)
    ensures Avoids(s, c)
  {
  }

  // ---------------------------------------------------------------- splitting on runs

  /** `s` without its leading run of `sp` characters. */
  function DropRun(s: String, sp: char -> bool): (r: String)
    ensures |r| <= |s|
    ensures s != [] && sp(s[0]) ==> |r| < |s|
  {
    if s != [] && sp(s[0]) then DropRun(s[1..], sp) else s
  }

  /** What is dropped is a run of separators, and what is left is a suffix that does not
      start with one. */
  lemma {:induction false} DropRunFacts(s: String, sp: char -> bool)
    ensures var r := DropRun(s, sp);
            r == s[|s| - |r|..] && (r == [] || !sp(r[0]))
            && forall i :: 0 <= i < |s| - |r| ==> sp(s[i])
  {
    if s != [] && sp(s[0]) { DropRunFacts(s[1..], sp); }
  }

  /** `s.split(/\s+/)` in JavaScript, with `sp` the separator class: the pieces between
      maximal separator runs, with an empty first (last) piece when `s` starts (ends) with a
      separator; the empty string splits into one empty piece. */
  function SplitRuns(s: String, sp: char -> bool): (r: seq<String>)
    ensures |r| >= 1
    decreases |s|
  {
    if s == [] then [[]]
    else if sp(s[0]) then [[]] + SplitRuns(DropRun(s, sp), sp)
    else
      var rest := SplitRuns(s[1..], sp);
      [[s[0]] + rest[0]] + rest[1..]
  }

  function NonEmpty(parts: seq<String>): (r: seq<String>)
    ensures |r| <= |parts|
  {
    if parts == [] then []
    else (if parts[0] == [] then [] else [parts[0]]) + NonEmpty(parts[1..])
  }

  /** Rust `split_whitespace()` (with `sp` = IsRustSpace) and JavaScript
      `split(/\s+/).filter(w => w.length > 0)` (with `sp` = IsJsSpace). */
  function Words(s: String, sp: char -> bool): seq<String> {
    NonEmpty(SplitRuns(s, sp))
  }

  function WordCount(s: String, sp: char -> bool): nat {
    |Words(s, sp)|
  }

  /** No piece of a split contains a separator. */
  lemma {:induction false} SplitRunsPiecesHaveNoSeparator(s: String, sp: char -> bool)
    ensures forall k, i :: 0 <= k < |SplitRuns(s, sp)| && 0 <= i < |SplitRuns(s, sp)[k]|
              ==> !sp(SplitRuns(s, sp)[k][i])
    decreases |s|
  {
    if s == [] {
    } else if sp(s[0]) {
      SplitRunsPiecesHaveNoSeparator(DropRun(s, sp), sp);
    } else {
      SplitRunsPiecesHaveNoSeparator(s[1..], sp);
    }
  }

  /** A text of separators only trims to nothing. */
  lemma {:induction false} TrimAll(s: String, sp: char -> bool)
    requires AllChars(s, sp)
    ensures DropRun(s, sp) == [] && Trim(s, sp) == []
  {
    if s != [] {
      TrimAll(s[1..], sp);
    }
  }

  /** When every character of `s` has a property, so does every character of its pieces. */
  lemma {:induction false} SplitRunsKeeps(s: String, sp: char -> bool, p: char -> bool)
    requires AllChars(s, p)
    ensures forall k :: 0 <= k < |SplitRuns(s, sp)| ==> AllChars(SplitRuns(s, sp)[k], p)
    decreases |s|
  {
    if s == [] {
    } else if sp(s[0]) {
      var t := DropRun(s, sp);
      DropRunFacts(s, sp);
      assert forall i :: 0 <= i < |t| ==> t[i] == s[|s| - |t| + i];
      SplitRunsKeeps(t, sp, p);
    } else {
      SplitRunsKeeps(s[1..], sp, p);
      var rest := SplitRuns(s[1..], sp);
      assert forall i :: 0 < i < |[s[0]] + rest[0]| ==> ([s[0]] + rest[0])[i] == rest[0][i - 1];
    }
  }

  lemma {:induction false} NonEmptyOfAllEmpty(parts: seq<String>)
    requires forall k :: 0 <= k < |parts| ==> parts[k] == []
    ensures NonEmpty(parts) == []
  {
    if parts != [] { NonEmptyOfAllEmpty(parts[1..]); }
  }

  /** A text has no words exactly when all of its characters are separators. */
  lemma {:induction false} WordCountZeroIffBlank(s: String, sp: char -> bool)
    ensures WordCount(s, sp) == 0 <==> AllChars(s, sp)
    decreases |s|
  {
    if s == [] {
    } else if sp(s[0]) {
      var t := DropRun(s, sp);
      DropRunFacts(s, sp);
      WordCountZeroIffBlank(t, sp);
      assert SplitRuns(s, sp) == [[]] + SplitRuns(t, sp);
      assert NonEmpty(SplitRuns(s, sp)) == NonEmpty(SplitRuns(t, sp)) by {
        assert ([[]] + SplitRuns(t, sp))[1..] == SplitRuns(t, sp);
      }
      if AllChars(t, sp) {
        assert t == [];
      }
    } else {
      var rest := SplitRuns(s[1..], sp);
      assert SplitRuns(s, sp)[0] != [];
      assert WordCount(s, sp) > 0;
    }
  }

  // ---------------------------------------------------------------- trimming

  function TrimEnd(s: String, sp: char -> bool): (r: String)
    ensures |r| <= |s|
  {
    if s != [] && sp(s[|s| - 1]) then TrimEnd(s[..|s| - 1], sp) else s
  }

  /** What is left is a prefix that does not end with a separator. */
  lemma {:induction false} TrimEndFacts(s: String, sp: char -> bool)
    ensures var r := TrimEnd(s, sp);
            r == s[..|r|] && (r == [] || !sp(r[|r| - 1]))
  {
    if s != [] && sp(s[|s| - 1]) { TrimEndFacts(s[..|s| - 1], sp); }
  }

  /** `trim()`: drops the leading and the trailing run of `sp` characters. */
  function Trim(s: String, sp: char -> bool): String {
    TrimEnd(DropRun(s, sp), sp)
  }

  /** A trimmed text neither starts nor ends with a separator, and every character of it
      comes from the original. */
  lemma TrimFacts(s: String, sp: char -> bool)
    ensures var r := Trim(s, sp);
            (r == [] || (!sp(r[0]) && !sp(r[|r| - 1])))
            && forall c :: c in r ==> c in s
  {
    var t := DropRun(s, sp);
    DropRunFacts(s, sp);
    TrimEndFacts(t, sp);
    var r := TrimEnd(t, sp);
    assert r != [] ==> r[0] == t[0];
    forall c | c in r ensures c in s {
      var i :| 0 <= i < |r| && r[i] == c;
      assert r[i] == t[i];
      assert t[i] == s[|s| - |t| + i];
    }
  }

  function JsTrim(s: String): String { Trim(s, IsJsSpace) }

  /** `s.trim().length > 0`. */
  predicate NotBlank(s: String) { |JsTrim(s)| > 0 }

  /** The class `[。！？.!?]` the front-end modules split sentences at. */
  predicate IsSentenceBreak(c: char) { c in "。！？.!?" }

  /** The class `[。！？]` of full-width sentence ends. */
  predicate IsCjkStop(c: char) { c in "。！？" }

  /** `s.split(/[。！？]/).filter(p => p.trim().length > 0)`. */
  function CjkPieces(s: String): seq<String> {
    Filter(SplitWhere(s, IsCjkStop), NotBlank)
  }

  /** A text that neither starts nor ends with a separator is its own trim. */
  lemma TrimUnchanged(s: String, sp: char -> bool)
    requires s == [] || (!sp(s[0]) && !sp(s[|s| - 1]))
    ensures Trim(s, sp) == s
  {
  }

  // ---------------------------------------------------------------- encoded lengths

  /** Number of bytes the UTF-8 encoding of `c` takes. */
  function Utf8Width(c: char): nat {
    var n := c as int;
    if n < 0x80 then 1 else if n < 0x800 then 2 else if n < 0x10000 then 3 else 4
  }

  /** Rust `str::len()`: the length in UTF-8 bytes. */
  function Utf8Len(s: String): nat {
    if s == [] then 0 else Utf8Width(s[0]) + Utf8Len(s[1..])
  }

  /** The UTF-16 code units of `s`, what JavaScript's `length` and `charCodeAt` see. */
  function CodeUnits(s: String): seq<int> {
    if s == [] then []
    else
      var n := s[0] as int;
      (if n < 0x10000 then [n]
       else [0xD800 + (n - 0x10000) / 0x400, 0xDC00 + (n - 0x10000) % 0x400])
      + CodeUnits(s[1..])
  }

  /** JavaScript `string.length`. */
  function Utf16Len(s: String): nat { |CodeUnits(s)| }

  // ---------------------------------------------------------------- searching

  predicate IsAt(s: String, pat: String, i: int) {
    0 <= i && i + |pat| <= |s| && s[i..i + |pat|] == pat
  }

  function IndexFrom(s: String, pat: String, k: nat): (r: Option<nat>)
    requires k <= |s| + 1
    ensures r.Some? ==> k <= r.value && IsAt(s, pat, r.value)
    ensures r.Some? ==> forall j :: k <= j < r.value ==> !IsAt(s, pat, j)
    ensures r.None? ==> forall j :: k <= j ==> !IsAt(s, pat, j)
    decreases |s| + 1 - k
  {
    if k + |pat| > |s| then None
    else if s[k..k + |pat|] == pat then Some(k)
    else IndexFrom(s, pat, k + 1)
  }

  /** `indexOf` / `find`: the first position where `pat` occurs. */
  function IndexOf(s: String, pat: String): (r: Option<nat>)
    ensures r.Some? ==> IsAt(s, pat, r.value) && forall j :: 0 <= j < r.value ==> !IsAt(s, pat, j)
    ensures r.None? ==> forall j :: !IsAt(s, pat, j)
  {
    IndexFrom(s, pat, 0)
  }

  /** `includes` / `contains`. */
  predicate Contains(s: String, pat: String) {
    IndexOf(s, pat).Some?
  }

  predicate StartsWith(s: String, pre: String) {
    |pre| <= |s| && s[..|pre|] == pre
  }

  predicate EndsWith(s: String, suf: String) {
    |suf| <= |s| && s[|s| - |suf|..] == suf
  }

  // ---------------------------------------------------------------- replacing

  /** The replacement text JavaScript inserts for `replace` with a pattern that has no capture
      groups (GetSubstitution of ECMA-262): `$$` is `$`, `$&` the match, `` $` `` the text
      before it, `$'` the text after it; every other `$` is literal. */
  function Expand(rep: String, matched: String, before: String, after: String): String
    decreases |rep|
  {
    if rep == [] then []
    else if |rep| >= 2 && rep[0] == '$' && rep[1] == '$' then "$" + Expand(rep[2..], matched, before, after)
    else if |rep| >= 2 && rep[0] == '$' && rep[1] == '&' then matched + Expand(rep[2..], matched, before, after)
    else if |rep| >= 2 && rep[0] == '$' && rep[1] == '`' then before + Expand(rep[2..], matched, before, after)
    else if |rep| >= 2 && rep[0] == '$' && rep[1] == '\'' then after + Expand(rep[2..], matched, before, after)
    else [rep[0]] + Expand(rep[1..], matched, before, after)
  }

  /** A replacement without `$` is inserted verbatim. */
  lemma {:induction false} ExpandWithoutDollar(rep: String, matched: String, before: String, after: String)
    requires forall i :: 0 <= i < |rep| ==> rep[i] != '$'
    ensures Expand(rep, matched, before, after) == rep
    decreases |rep|
  {
    if rep != [] { ExpandWithoutDollar(rep[1..], matched, before, after); }
  }

  /** JavaScript `s.replace(pat, rep)` with a string pattern: only the first occurrence. */
  function ReplaceFirst(s: String, pat: String, rep: String): String {
    match IndexOf(s, pat)
    case None => s
    case Some(i) => s[..i] + Expand(rep, pat, s[..i], s[i + |pat|..]) + s[i + |pat|..]
  }

  /** With no '$' in the replacement, the first occurrence is replaced by the replacement
      itself, and a text without the pattern is left as it is. */
  lemma ReplaceFirstWithoutDollar(s: String, pat: String, rep: String)
    requires forall i :: 0 <= i < |rep| ==> rep[i] != '$'
    ensures IndexOf(s, pat).None? ==> ReplaceFirst(s, pat, rep) == s
    ensures IndexOf(s, pat).Some? ==>
              var i := IndexOf(s, pat).value;
              ReplaceFirst(s, pat, rep) == s[..i] + rep + s[i + |pat|..]
  {
    if IndexOf(s, pat).Some? {
      var i := IndexOf(s, pat).value;
      ExpandWithoutDollar(rep, pat, s[..i], s[i + |pat|..]);
    }
  }

  /** Rust `str::replace` (and a JavaScript global replace of a literal): every
      non-overlapping occurrence, left to right, replaced verbatim. */
  function ReplaceAll(s: String, pat: String, rep: String): String
    requires |pat| > 0
    decreases |s|
  {
    if |s| < |pat| then s
    else if s[..|pat|] == pat then rep + ReplaceAll(s[|pat|..], pat, rep)
    else [s[0]] + ReplaceAll(s[1..], pat, rep)
  }

  /** JavaScript `s.replace(re, rep)` with a global pattern matching the literal `pat` and a
      string replacement: every non-overlapping occurrence, left to right, replaced by
      `rep` with its `$` patterns expanded against the original text (`pre` is what precedes
      `s` in it). */
  function GlobalReplace(pre: String, s: String, pat: String, rep: String): String
    requires |pat| > 0
    decreases |s|
  {
    if |s| < |pat| then s
    else if s[..|pat|] == pat then
      Expand(rep, pat, pre, s[|pat|..]) + GlobalReplace(pre + pat, s[|pat|..], pat, rep)
    else [s[0]] + GlobalReplace(pre + [s[0]], s[1..], pat, rep)
  }

  /** Without a '$' in the replacement the global replace inserts it verbatim. */
  lemma {:induction false} GlobalReplaceWithoutDollar(pre: String, s: String, pat: String, rep: String)
    requires |pat| > 0
    requires forall i :: 0 <= i < |rep| ==> rep[i] != '$'
    ensures GlobalReplace(pre, s, pat, rep) == ReplaceAll(s, pat, rep)
    decreases |s|
  {
    if |s| >= |pat| {
      if s[..|pat|] == pat {
        ExpandWithoutDollar(rep, pat, pre, s[|pat|..]);
        GlobalReplaceWithoutDollar(pre + pat, s[|pat|..], pat, rep);
      } else {
        GlobalReplaceWithoutDollar(pre + [s[0]], s[1..], pat, rep);
      }
    }
  }

  /** A text in which the pattern's first character never occurs is left alone by a
      replace, whatever the replacement. */
  lemma {:induction false} ReplaceAllAbsent(s: String, pat: String, rep: String)
    requires |pat| > 0
    requires forall i :: 0 <= i < |s| ==> s[i] != pat[0]
    ensures ReplaceAll(s, pat, rep) == s
    decreases |s|
  {
    if |s| >= |pat| {
      assert s[..|pat|][0] == s[0];
      ReplaceAllAbsent(s[1..], pat, rep);
    }
  }

  /** The same for the global replace with a replacement pattern. */
  lemma {:induction false} GlobalReplaceAbsent(pre: String, s: String, pat: String, rep: String)
    requires |pat| > 0
    requires forall i :: 0 <= i < |s| ==> s[i] != pat[0]
    ensures GlobalReplace(pre, s, pat, rep) == s
    decreases |s|
  {
    if |s| >= |pat| {
      assert s[..|pat|][0] == s[0];
      GlobalReplaceAbsent(pre + [s[0]], s[1..], pat, rep);
    }
  }

  /** A text in which the pattern occurs nowhere is left alone by a replace. */
  lemma {:induction false} ReplaceAllNowhere(s: String, pat: String, rep: String)
    requires |pat| > 0
    requires forall j :: !IsAt(s, pat, j)
    ensures ReplaceAll(s, pat, rep) == s
    decreases |s|
  {
    if |s| >= |pat| {
      assert !IsAt(s, pat, 0);
      forall j ensures !IsAt(s[1..], pat, j) {
        assert !IsAt(s, pat, j + 1);
      }
      ReplaceAllNowhere(s[1..], pat, rep);
    }
  }

  /** The same for the global replace with a replacement pattern. */
  lemma {:induction false} GlobalReplaceNowhere(pre: String, s: String, pat: String, rep: String)
    requires |pat| > 0
    requires forall j :: !IsAt(s, pat, j)
    ensures GlobalReplace(pre, s, pat, rep) == s
    decreases |s|
  {
    if |s| >= |pat| {
      assert !IsAt(s, pat, 0);
      forall j ensures !IsAt(s[1..], pat, j) {
        assert !IsAt(s, pat, j + 1);
      }
      GlobalReplaceNowhere(pre + [s[0]], s[1..], pat, rep);
    }
  }

  /** A single occurrence between texts without the pattern's first character becomes the
      expanded replacement, which sees the text before and after the match. */
  lemma {:induction false} GlobalReplaceOnce(pre: String, a: String, pat: String, b: String, rep: String)
    requires |pat| > 0
    requires forall i :: 0 <= i < |a| ==> a[i] != pat[0]
    requires forall i :: 0 <= i < |b| ==> b[i] != pat[0]
    ensures GlobalReplace(pre, a + pat + b, pat, rep) == a + Expand(rep, pat, pre + a, b) + b
    decreases |a|
  {
    var s := a + pat + b;
    if a == [] {
      assert s == pat + b && pre + a == pre;
      assert s[..|pat|] == pat && s[|pat|..] == b;
      GlobalReplaceAbsent(pre + pat, b, pat, rep);
    } else {
      assert s[..|pat|] != pat by { assert s[..|pat|][0] == a[0]; }
      assert s[1..] == a[1..] + pat + b;
      GlobalReplaceOnce(pre + [a[0]], a[1..], pat, b, rep);
      assert pre + [a[0]] + a[1..] == pre + a;
      assert [a[0]] + (a[1..] + Expand(rep, pat, pre + a, b) + b) == a + Expand(rep, pat, pre + a, b) + b;
    }
  }

  /** A character the replacement lacks is gone after replacing every occurrence of it, and
      one that neither the text nor the replacement holds does not appear. */
  lemma {:induction false} ReplaceAllLacks(s: String, pat: String, rep: String, c: char)
    requires |pat| > 0 && c !in rep
    requires c in s ==> pat == [c]
    ensures c !in ReplaceAll(s, pat, rep)
    decreases |s|
  {
    if |s| >= |pat| {
      if s[..|pat|] == pat {
        assert c in s[|pat|..] ==> c in s;
        ReplaceAllLacks(s[|pat|..], pat, rep, c);
      } else {
        assert c in s[1..] ==> c in s;
        ReplaceAllLacks(s[1..], pat, rep, c);
      }
    }
  }

  /** `str::replace(char, ...)` with a one-character replacement. */
  function ReplaceChar(s: String, a: char, b: char): String {
    seq(|s|, i requires 0 <= i < |s| => if s[i] == a then b else s[i])
  }

  // ---------------------------------------------------------------- splitting and joining

  /** `join(sep)`. */
  function Join(parts: seq<String>, sep: String): String {
    if parts == [] then []
    else if |parts| == 1 then parts[0]
    else parts[0] + sep + Join(parts[1..], sep)
  }

  /** A character that is in no piece and not in the separator is not in the join. */
  lemma {:induction false} JoinLacks(parts: seq<String>, sep: String, c: char)
    requires c !in sep
    requires forall k :: 0 <= k < |parts| ==> c !in parts[k]
    ensures c !in Join(parts, sep)
  {
    if |parts| > 1 {
      JoinLacks(parts[1..], sep, c);
    }
  }

  /** Joining one more piece. */
  lemma {:induction false} JoinSnoc(parts: seq<String>, x: String, sep: String)
    ensures Join(parts + [x], sep) == if parts == [] then x else Join(parts, sep) + sep + x
  {
    if |parts| > 1 {
      assert (parts + [x])[1..] == parts[1..] + [x];
      JoinSnoc(parts[1..], x, sep);
    } else if |parts| == 1 {
      assert (parts + [x])[1..] == [x];
    }
  }

  /** JavaScript `s.split(sep)` with a non-empty string separator. */
  function SplitOn(s: String, sep: String): (r: seq<String>)
    requires |sep| > 0
    ensures |r| >= 1
    decreases |s|
  {
    match IndexOf(s, sep)
    case None => [s]
    case Some(i) => [s[..i]] + SplitOn(s[i + |sep|..], sep)
  }

  /** JavaScript `substring(a, b)`: both bounds are clamped into [0, |s|] and swapped when
      out of order. */
  function Substring(s: String, a: int, b: int): (r: String)
    ensures |r| <= |s|
  {
    var x := if a < 0 then 0 else if a > |s| then |s| else a;
    var y := if b < 0 then 0 else if b > |s| then |s| else b;
    if x <= y then s[x..y] else s[y..x]
  }

  /** JavaScript `s.split(/[...]/)` with a one-character class: the pieces between
      separator characters, empty ones included. */
  function SplitWhere(s: String, sep: char -> bool): (r: seq<String>)
    ensures |r| >= 1
  {
    if s == [] then [[]]
    else
      var rest := SplitWhere(s[1..], sep);
      if sep(s[0]) then [[]] + rest else [[s[0]] + rest[0]] + rest[1..]
  }

  /** No piece of a split holds a separator character. */
  lemma {:induction false} SplitWherePieces(s: String, sep: char -> bool)
    ensures forall k, i :: 0 <= k < |SplitWhere(s, sep)| && 0 <= i < |SplitWhere(s, sep)[k]|
                           ==> !sep(SplitWhere(s, sep)[k][i])
  {
    if s != [] {
      SplitWherePieces(s[1..], sep);
      var rest := SplitWhere(s[1..], sep);
      if !sep(s[0]) {
        assert forall i :: 0 < i < |[s[0]] + rest[0]| ==> ([s[0]] + rest[0])[i] == rest[0][i - 1];
      }
    }
  }

  /** A text without separators is one piece. */
  lemma {:induction false} SplitWhereNone(s: String, sep: char -> bool)
    requires forall i :: 0 <= i < |s| ==> !sep(s[i])
    ensures SplitWhere(s, sep) == [s]
  {
    if s != [] {
      SplitWhereNone(s[1..], sep);
      assert [s[0]] + s[1..] == s;
    }
  }

  /** A separator right after a separator-free piece ends that piece. */
  lemma {:induction false} SplitWhereAfter(p: String, c: char, rest: String, sep: char -> bool)
    requires sep(c)
    requires forall i :: 0 <= i < |p| ==> !sep(p[i])
    ensures SplitWhere(p + [c] + rest, sep) == [p] + SplitWhere(rest, sep)
  {
    var s := p + [c] + rest;
    if p == [] {
      assert s[0] == c && s[1..] == rest;
    } else {
      assert s[0] == p[0] && s[1..] == p[1..] + [c] + rest;
      SplitWhereAfter(p[1..], c, rest, sep);
      var tail := SplitWhere(s[1..], sep);
      assert tail[0] == p[1..] && tail[1..] == SplitWhere(rest, sep);
      assert [p[0]] + p[1..] == p;
    }
  }

  /** Joining separator-free pieces with a separator character and splitting again gives
      the pieces back. */
  lemma {:induction false} JoinSplitWhere(ps: seq<String>, c: char, sep: char -> bool)
    requires |ps| >= 1 && sep(c)
    requires forall k, i :: 0 <= k < |ps| && 0 <= i < |ps[k]| ==> !sep(ps[k][i])
    ensures SplitWhere(Join(ps, [c]), sep) == ps
  {
    if |ps| == 1 {
      SplitWhereNone(ps[0], sep);
    } else {
      JoinSplitWhere(ps[1..], c, sep);
      SplitWhereAfter(ps[0], c, Join(ps[1..], [c]), sep);
      assert [ps[0]] + ps[1..] == ps;
    }
  }

  /** Where a JavaScript `slice` bound lands: a negative bound counts back from the end, and
      either kind is clamped into [0, len]. */
  function SliceBound(len: nat, a: int): (r: nat)
    ensures r <= len
    ensures 0 <= a <= len ==> r == a
  {
    if a < 0 then (if len + a < 0 then 0 else len + a) else if a > len then len else a
  }

  /** JavaScript `s.slice(a, b)`: empty when the clamped start is not before the clamped end. */
  function Slice(s: String, a: int, b: int): (r: String)
    ensures |r| <= |s|
    ensures 0 <= a <= b <= |s| ==> r == s[a..b]
  {
    var x := SliceBound(|s|, a);
    var y := SliceBound(|s|, b);
    if x < y then s[x..y] else []
  }

  /** Where the `n`-th part starts in `Join(parts, sep)` for a separator of width `w`. */
  function Offset(parts: seq<String>, n: nat, w: nat): nat
    requires n <= |parts|
  {
    if n == 0 then 0 else Offset(parts, n - 1, w) + |parts[n - 1]| + w
  }

  lemma {:induction false} OffsetShift(parts: seq<String>, n: nat, w: nat)
    requires 0 < n <= |parts|
    ensures Offset(parts, n, w) == |parts[0]| + w + Offset(parts[1..], n - 1, w)
  {
    if n > 1 {
      OffsetShift(parts, n - 1, w);
    }
  }

  /** The `n`-th part of a join sits at its offset. */
  lemma {:induction false} JoinOffset(parts: seq<String>, sep: String, n: nat)
    requires n < |parts|
    ensures Offset(parts, n, |sep|) + |parts[n]| <= |Join(parts, sep)|
    ensures Join(parts, sep)[Offset(parts, n, |sep|)..Offset(parts, n, |sep|) + |parts[n]|] == parts[n]
  {
    if n == 0 {
      if |parts| > 1 {
        assert Join(parts, sep) == parts[0] + (sep + Join(parts[1..], sep));
      }
    } else {
      assert parts[1..][n - 1] == parts[n];
      OffsetShift(parts, n, |sep|);
      JoinOffset(parts[1..], sep, n - 1);
      var rest := Join(parts[1..], sep);
      assert Join(parts, sep) == (parts[0] + sep) + rest;
      SliceAfter(parts[0] + sep, rest, Offset(parts[1..], n - 1, |sep|), |parts[n]|);
    }
  }

  /** A slice of the part behind a prefix, read off the whole. */
  lemma SliceAfter(front: String, rest: String, o: nat, len: nat)
    requires o + len <= |rest|
    ensures (front + rest)[|front| + o..|front| + o + len] == rest[o..o + len]
  {
  }

  /** A piece in front of a non-empty list joins with the separator between. */
  lemma JoinCons(x: String, parts: seq<String>, sep: String)
    requires parts != []
    ensures Join([x] + parts, sep) == x + sep + Join(parts, sep)
  {
    assert ([x] + parts)[1..] == parts;
  }

  /** Where the separator is found, the split is the text before it followed by the split
      of the text after it. */
  lemma SplitOnFound(s: String, sep: String)
    requires |sep| > 0 && IndexOf(s, sep).Some?
    ensures var i := IndexOf(s, sep).value;
            SplitOn(s, sep) == [s[..i]] + SplitOn(s[i + |sep|..], sep)
  {
  }

  /** Splitting and joining with the same separator gives the text back. */
  lemma {:induction false} JoinSplitOn(s: String, sep: String)
    requires |sep| > 0
    ensures Join(SplitOn(s, sep), sep) == s
    decreases |s|
  {
    var found := IndexOf(s, sep);
    if found.Some? {
      var i := found.value;
      var rest := s[i + |sep|..];
      var parts := SplitOn(rest, sep);
      JoinSplitOn(rest, sep);
      SplitOnFound(s, sep);
      JoinCons(s[..i], parts, sep);
      assert s[i..i + |sep|] == sep;
      assert s == s[..i] + s[i..i + |sep|] + rest;
    }
  }

  /** No piece of `SplitOn(s, sep)` contains the separator. */
  lemma {:induction false} SplitOnPiecesLackSeparator(s: String, sep: String)
    requires |sep| > 0
    ensures forall k :: 0 <= k < |SplitOn(s, sep)| ==> !Contains(SplitOn(s, sep)[k], sep)
    decreases |s|
  {
    match IndexOf(s, sep)
    case None =>
    case Some(i) =>
      SplitOnPiecesLackSeparator(s[i + |sep|..], sep);
      var p := s[..i];
      if Contains(p, sep) {
        AtInPrefix(s, i, sep, IndexOf(p, sep).value);
        assert false;
      }
  }

  /** A prefix in which the pattern's first character never occurs only shifts where the
      pattern is first found. */
  lemma NotAtInFree(a: String, t: String, pat: String, j: nat)
    requires |pat| > 0 && j < |a|
    requires forall i :: 0 <= i < |a| ==> a[i] != pat[0]
    ensures !IsAt(a + t, pat, j)
  {
    if j + |pat| <= |a + t| {
      assert (a + t)[j..j + |pat|][0] == a[j];
    }
  }

  lemma AtShifted(a: String, t: String, pat: String, j: int)
    requires |a| <= j
    ensures IsAt(a + t, pat, j) <==> IsAt(t, pat, j - |a|)
  {
    if j + |pat| <= |a + t| {
      assert (a + t)[j..j + |pat|] == t[j - |a|..j - |a| + |pat|];
    }
  }

  /** An occurrence inside a prefix is an occurrence in the whole text. */
  lemma AtInPrefix(s: String, n: nat, pat: String, j: nat)
    requires n <= |s| && IsAt(s[..n], pat, j)
    ensures IsAt(s, pat, j)
  {
    assert s[j..j + |pat|] == s[..n][j..j + |pat|];
  }

  /** A prefix at none of whose positions the pattern starts only shifts where the pattern
      is first found. */
  lemma IndexOfSkip(a: String, t: String, pat: String)
    requires |pat| > 0
    requires forall j :: 0 <= j < |a| ==> !IsAt(a + t, pat, j)
    ensures IndexOf(a + t, pat) == (if IndexOf(t, pat).Some? then Some(|a| + IndexOf(t, pat).value) else None)
  {
    var r := IndexOf(a + t, pat);
    var q := IndexOf(t, pat);
    if r.Some? {
      assert |a| <= r.value;
      assert IsAt(t, pat, r.value - |a|) by { AtShifted(a, t, pat, r.value); }
      assert q.Some? && q.value <= r.value - |a|;
      assert IsAt(a + t, pat, |a| + q.value) by { AtShifted(a, t, pat, |a| + q.value); }
      assert r.value <= |a| + q.value;
    } else if q.Some? {
      AtShifted(a, t, pat, |a| + q.value);
      assert false;
    }
  }

  /** The same when the prefix lacks the pattern's first character altogether. */
  lemma IndexOfPastFree(a: String, t: String, pat: String)
    requires |pat| > 0
    requires forall i :: 0 <= i < |a| ==> a[i] != pat[0]
    ensures IndexOf(a + t, pat) == (if IndexOf(t, pat).Some? then Some(|a| + IndexOf(t, pat).value) else None)
  {
    forall j | 0 <= j < |a| ensures !IsAt(a + t, pat, j) {
      NotAtInFree(a, t, pat, j);
    }
    IndexOfSkip(a, t, pat);
  }

  /** A text lacking the pattern's first character does not contain it. */
  lemma IndexOfFree(s: String, pat: String)
    requires |pat| > 0
    requires forall i :: 0 <= i < |s| ==> s[i] != pat[0]
    ensures IndexOf(s, pat) == None
  {
    IndexOfPastFree(s, [], pat);
    assert s + [] == s;
  }

  /** A text that starts with the pattern finds it at 0. */
  lemma IndexOfAtStart(t: String, pat: String)
    requires StartsWith(t, pat)
    ensures IndexOf(t, pat) == Some(0)
  {
    assert IsAt(t, pat, 0);
  }

  /** A text contains whatever stands in its middle. */
  lemma ContainsMiddle(a: String, pat: String, b: String)
    ensures Contains(a + pat + b, pat)
  {
    assert (a + pat + b)[|a|..|a| + |pat|] == pat;
    assert IsAt(a + pat + b, pat, |a|);
  }

  /** The number of occurrences of `c` in `s`. */
  function Occurrences(s: String, c: char): nat {
    if s == [] then 0 else (if s[0] == c then 1 else 0) + Occurrences(s[1..], c)
  }

  lemma {:induction false} OccurrencesAppend(a: String, b: String, c: char)
    ensures Occurrences(a + b, c) == Occurrences(a, c) + Occurrences(b, c)
  {
    if a == [] {
      assert a + b == b;
    } else {
      assert (a + b)[0] == a[0];
      assert (a + b)[1..] == a[1..] + b;
      OccurrencesAppend(a[1..], b, c);
    }
  }

  lemma {:induction false} OccurrencesAbsent(s: String, c: char)
    requires c !in s
    ensures Occurrences(s, c) == 0
  {
    if s != [] { OccurrencesAbsent(s[1..], c); }
  }

  /** Searching for a one-character pattern finds the first occurrence of that character. */
  lemma IndexOfChar(s: String, c: char)
    ensures IndexOf(s, [c]).None? ==> c !in s
    ensures IndexOf(s, [c]).Some? ==>
              var i := IndexOf(s, [c]).value;
              i < |s| && s[i] == c && c !in s[..i]
  {
    var r := IndexOf(s, [c]);
    var bound := if r.Some? then r.value else |s|;
    forall j | 0 <= j < bound && j < |s| ensures s[j] != c {
      assert !IsAt(s, [c], j);
      assert s[j..j + 1] == [s[j]];
    }
    if r.Some? {
      assert s[r.value..r.value + 1] == [c];
    }
  }

  /** Splitting on one character gives one piece more than there are occurrences of it. */
  lemma {:induction false} SplitOnCharCount(s: String, c: char)
    ensures |SplitOn(s, [c])| == 1 + Occurrences(s, c)
    decreases |s|
  {
    IndexOfChar(s, c);
    match IndexOf(s, [c])
    case None =>
      OccurrencesAbsent(s, c);
    case Some(i) =>
      var before := s[..i];
      var rest := s[i + 1..];
      OccurrencesAbsent(before, c);
      SplitOnCharCount(rest, c);
      assert s == before + [c] + rest;
      OccurrencesAppend(before + [c], rest, c);
      OccurrencesAppend(before, [c], c);
  }

  /** The last piece of a split on one character is a suffix of the text. */
  lemma {:induction false} SplitOnCharLast(s: String, c: char)
    ensures var pieces := SplitOn(s, [c]);
            var last := pieces[|pieces| - 1];
            |last| <= |s| && last == s[|s| - |last|..]
    decreases |s|
  {
    IndexOfChar(s, c);
    var found := IndexOf(s, [c]);
    if found.None? {
      assert SplitOn(s, [c]) == [s];
      assert s[|s| - |s|..] == s;
    } else {
      var i := found.value;
      var rest := s[i + 1..];
      SplitOnCharLast(rest, c);
      var pieces := SplitOn(rest, [c]);
      var last := pieces[|pieces| - 1];
      assert SplitOn(s, [c]) == [s[..i]] + pieces;
      assert SplitOn(s, [c])[|SplitOn(s, [c])| - 1] == last;
      assert rest[|rest| - |last|..] == s[|s| - |last|..];
    }
  }

  /** That last piece is the whole text or directly follows an occurrence of the character. */
  lemma {:induction false} SplitOnCharLastBoundary(s: String, c: char)
    ensures var pieces := SplitOn(s, [c]);
            var last := pieces[|pieces| - 1];
            |last| == |s| || (|last| < |s| && s[|s| - |last| - 1] == c)
    decreases |s|
  {
    IndexOfChar(s, c);
    var found := IndexOf(s, [c]);
    if found.None? {
      assert SplitOn(s, [c]) == [s];
    } else {
      var i := found.value;
      var rest := s[i + 1..];
      SplitOnCharLastBoundary(rest, c);
      SplitOnCharLast(rest, c);
      var pieces := SplitOn(rest, [c]);
      var last := pieces[|pieces| - 1];
      assert SplitOn(s, [c]) == [s[..i]] + pieces;
      assert SplitOn(s, [c])[|SplitOn(s, [c])| - 1] == last;
      if |last| == |rest| {
        assert s[|s| - |last| - 1] == s[i];
      } else {
        assert s[|s| - |last| - 1] == rest[|rest| - |last| - 1];
      }
    }
  }

  /** No piece of a split on one character contains that character. */
  lemma SplitOnCharPieces(s: String, c: char)
    ensures forall k :: 0 <= k < |SplitOn(s, [c])| ==> c !in SplitOn(s, [c])[k]
  {
    SplitOnPiecesLackSeparator(s, [c]);
    forall k | 0 <= k < |SplitOn(s, [c])| ensures c !in SplitOn(s, [c])[k] {
      IndexOfChar(SplitOn(s, [c])[k], c);
    }
  }

  // ---------------------------------------------------------------- numbers as text

  function DigitChar(d: nat): char
    requires d < 10
  {
    ('0' as int + d) as char
  }

  function HexDigitChar(d: nat): char
    requires d < 16
  {
    if d < 10 then DigitChar(d) else ('a' as int + d - 10) as char
  }

  /** `Math.max(0, Math.min(100, x))`: a score held in [0, 100]. */
  function Clamp(x: real): (r: real)
    ensures 0.0 <= r <= 100.0
    ensures 0.0 <= x <= 100.0 ==> r == x
    ensures x >= 100.0 ==> r == 100.0
    ensures x <= 0.0 ==> r == 0.0
  {
    if x < 0.0 then 0.0 else if x > 100.0 then 100.0 else x
  }

  /** `Math.ceil(n / 200)`: the minutes `n` words take at 200 words a minute. */
  function ReadingMinutes(n: nat): (m: nat)
    ensures 200 * m >= n && 200 * (m - 1) < n
  {
    (n + 199) / 200
  }

  /** JavaScript `Math.round`: the nearest integer, halves rounded up. */
  function Round(x: real): (r: int)
    ensures x - 0.5 < r as real <= x + 0.5
  {
    (x + 0.5).Floor
  }

  lemma RoundMonotone(x: real, y: real)
    requires x <= y
    ensures Round(x) <= Round(y)
  {
  }

  /** Decimal rendering of a natural number, as `to_string` / `String(n)` write it. */
  function NatToDecimal(n: nat): (r: String)
    ensures |r| >= 1 && AllChars(r, IsAsciiDigit)
  {
    if n < 10 then [DigitChar(n)] else NatToDecimal(n / 10) + [DigitChar(n % 10)]
  }

  /** Decimal rendering of an integer with a leading '-' when negative. */
  function IntToDecimal(n: int): (r: String)
    ensures |r| >= 1 && IsAsciiDigit(r[|r| - 1])
    ensures forall i :: 0 <= i < |r| ==> IsAsciiDigit(r[i]) || (i == 0 && r[i] == '-')
  {
    if n < 0 then "-" + NatToDecimal(-n) else NatToDecimal(n)
  }

  /** Rust's `as i32` on a count: the value modulo 2^32, read as two's complement. */
  function AsI32(n: int): (r: int)
    ensures -0x8000_0000 <= r < 0x8000_0000
    ensures 0 <= n < 0x8000_0000 ==> r == n
  {
    (n + 0x8000_0000) % 0x1_0000_0000 - 0x8000_0000
  }

  /** Lower-case hexadecimal without leading zeros, as Rust's `{:x}` writes it. */
  function NatToHex(n: nat): (r: String)
    ensures |r| >= 1
  {
    if n < 16 then [HexDigitChar(n)] else NatToHex(n / 16) + [HexDigitChar(n % 16)]
  }

  predicate IsHexDigit(c: char) { IsAsciiDigit(c) || ('a' <= c <= 'f') }

  function HexValue(c: char): nat
    requires IsHexDigit(c)
  {
    if IsAsciiDigit(c) then c as int - '0' as int else c as int - 'a' as int + 10
  }

  function ParseHex(s: String): nat
    requires AllChars(s, IsHexDigit)
  {
    if s == [] then 0 else 16 * ParseHex(s[..|s| - 1]) + HexValue(s[|s| - 1])
  }

  /** `{:x}` output is lower-case hexadecimal that reads back as the same number, with no
      leading zero unless the number is zero. */
  lemma {:induction false} HexRoundTrip(n: nat)
    ensures AllChars(NatToHex(n), IsHexDigit)
    ensures ParseHex(NatToHex(n)) == n
    ensures |NatToHex(n)| > 1 ==> NatToHex(n)[0] != '0'
  {
    if n >= 16 {
      HexRoundTrip(n / 16);
      var h := NatToHex(n / 16);
      var r := h + [HexDigitChar(n % 16)];
      assert r[..|r| - 1] == h;
      assert r[0] == h[0];
    }
  }

  /** Whether `record[k] = n` on an object literal gives the record an own key `k`. For
      "__proto__" the assignment reaches the prototype accessor of Object.prototype, which
      ignores a number, so the record stays as it was. */
  predicate Recordable(k: String) {
    k != "__proto__"
  }

  /** The names Object.prototype provides: a lookup on an object literal finds them even
      when the object has no such key of its own. */
  predicate Inherited(name: String) {
    name in {"constructor", "__defineGetter__", "__defineSetter__", "hasOwnProperty",
             "__lookupGetter__", "__lookupSetter__", "isPrototypeOf", "propertyIsEnumerable",
             "toString", "valueOf", "__proto__", "toLocaleString"}
  }
}
