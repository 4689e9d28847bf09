/** The summarisation module: a local, extractive summariser (sentences split at the
    terminators, the best-scoring ones kept in their original order, then labelled, listed
    or outlined), key-point extraction by keyword, and the routing of summarisation and
    expansion requests between the local path and a remote completion service. */
module Summarization {
  import opened Wrappers
  import opened Text
  import opened Collections
  import opened Sorting

  // ---------------------------------------------------------------- sentences

  predicate IsLineBreak(c: char) { c == '\n' }

  predicate NonEmptyText(s: String) { |s| > 0 }

  /** `pieces.map(s => s.trim())`. */
  function Trimmed(pieces: seq<String>): (r: seq<String>)
    ensures |r| == |pieces|
  {
    seq(|pieces|, i requires 0 <= i < |pieces| => JsTrim(pieces[i]))
  }

  /** splitIntoSentences: split at every terminator, trim, drop the empty pieces. */
  function SplitIntoSentences(text: String): seq<String> {
    Filter(Trimmed(SplitWhere(text, IsSentenceBreak)), NonEmptyText)
  }

  /** What every sentence is: non-empty, trimmed, and free of terminators. */
  predicate IsSentence(s: String) {
    |s| > 0 && JsTrim(s) == s && forall i :: 0 <= i < |s| ==> !IsSentenceBreak(s[i])
  }

  lemma SentencesAreSentences(text: String)
    ensures forall k :: 0 <= k < |SplitIntoSentences(text)| ==> IsSentence(SplitIntoSentences(text)[k])
  {
    var pieces := SplitWhere(text, IsSentenceBreak);
    var ts := Trimmed(pieces);
    var ss := SplitIntoSentences(text);
    SplitWherePieces(text, IsSentenceBreak);
    forall k | 0 <= k < |ss| ensures IsSentence(ss[k]) {
      var s := ss[k];
      assert s in ts;
      var i :| 0 <= i < |ts| && ts[i] == s;
      TrimFacts(pieces[i], IsJsSpace);
      TrimUnchanged(s, IsJsSpace);
      forall j | 0 <= j < |s| ensures !IsSentenceBreak(s[j]) {
        assert s[j] in pieces[i];
      }
    }
  }

  // ---------------------------------------------------------------- word frequency

  /** `text.toLowerCase().split(/\s+/)`. */
  function FrequencyWords(text: String): (r: seq<String>)
    ensures |r| >= 1
  {
    SplitRuns(Lower(text), IsJsSpace)
  }

  /** calculateWordFrequency: every word of the lower-cased text is a key, mapped to the
      number of times it occurs. */
  method WordFrequency(text: String) returns (freq: map<String, nat>)
    ensures forall w :: w in freq <==> w in FrequencyWords(text)
    ensures forall w :: w in freq ==> freq[w] == multiset(FrequencyWords(text))[w]
  {
    var words := FrequencyWords(text);
    freq := map[];
    var i := 0;
    while i < |words|
      invariant 0 <= i <= |words|
      invariant forall w :: w in freq <==> w in words[..i]
      invariant forall w :: w in freq ==> freq[w] == multiset(words[..i])[w]
    {
      var w := words[i];
      assert words[..i + 1] == words[..i] + [w];
      freq := freq[w := (if w in freq then freq[w] else 0) + 1];
      forall u | u in freq ensures freq[u] == multiset(words[..i + 1])[u] {
        assert multiset(words[..i + 1]) == multiset(words[..i]) + multiset{w};
      }
      i := i + 1;
    }
    assert words[..i] == words;
  }

  // ---------------------------------------------------------------- choosing sentences

  datatype Item = Item(sentence: String, score: real, index: nat)

  predicate HigherFirst(a: Item, b: Item) { a.score >= b.score }

  predicate EarlierFirst(a: Item, b: Item) { a.index <= b.index }

  /** `sentences.map((sentence, index) => ({ sentence, score: scores[index], index }))`. */
  function Items(ss: seq<String>, scoreOf: nat -> real): (r: seq<Item>)
    ensures |r| == |ss|
  {
    seq(|ss|, i requires 0 <= i < |ss| => Item(ss[i], scoreOf(i), i))
  }

  /** `sort((a, b) => b.score - a.score)`, a stable sort: an item goes before the first one
      that does not score higher. */
  function ByScore(xs: seq<Item>): (r: seq<Item>)
    ensures |r| == |xs| && multiset(r) == multiset(xs)
  {
    if xs == [] then []
    else
      assert xs == [xs[0]] + xs[1..];
      InsertBy(xs[0], ByScore(xs[1..]), HigherFirst)
  }

  /** `sort((a, b) => a.index - b.index)`. */
  function ByIndex(xs: seq<Item>): (r: seq<Item>)
    ensures |r| == |xs| && multiset(r) == multiset(xs)
  {
    if xs == [] then []
    else
      assert xs == [xs[0]] + xs[1..];
      InsertBy(xs[0], ByIndex(xs[1..]), EarlierFirst)
  }

  /** The share of the sentences a summary length asks for, in tenths. */
  function Ratio(length: String): Option<nat> {
    if length == "short" then Some(2)
    else if length == "medium" then Some(4)
    else if length == "long" then Some(6)
    else None
  }

  /** How many items `slice(0, targetCount)` keeps, with targetCount
      `Math.max(1, Math.floor(n * ratio))`; an unknown length makes the target NaN, which
      `slice` reads as 0. */
  function TakeCount(n: nat, length: String): (m: nat)
    ensures m <= n
    ensures Ratio(length).None? ==> m == 0
    ensures Ratio(length).Some? && n > 0 ==> 1 <= m
  {
    match Ratio(length)
    case None => 0
    case Some(t) =>
      var target := if n * t / 10 >= 1 then n * t / 10 else 1;
      if target <= n then target else n
  }

  /** The chosen items in the order of the text. */
  function Picked(ss: seq<String>, scoreOf: nat -> real, length: String): seq<Item> {
    ByIndex(ByScore(Items(ss, scoreOf))[..TakeCount(|ss|, length)])
  }

  /** selectSentences. */
  function Selected(ss: seq<String>, scoreOf: nat -> real, length: String): (r: seq<String>) {
    var p := Picked(ss, scoreOf, length);
    seq(|p|, k requires 0 <= k < |p| => p[k].sentence)
  }

  predicate DistinctIndices(xs: seq<Item>) {
    forall i, j :: 0 <= i < j < |xs| ==> xs[i].index != xs[j].index
  }

  /** Every item is the one built for its index. */
  predicate FromSentences(xs: seq<Item>, ss: seq<String>, scoreOf: nat -> real) {
    forall x :: x in xs ==> x.index < |ss| && x == Item(ss[x.index], scoreOf(x.index), x.index)
  }

  lemma {:induction false} InsertByDistinct(x: Item, s: seq<Item>, le: (Item, Item) -> bool)
    requires DistinctIndices(s)
    requires forall y :: y in s ==> y.index != x.index
    ensures DistinctIndices(InsertBy(x, s, le))
  {
    if s != [] && !le(x, s[0]) {
      InsertByDistinct(x, s[1..], le);
      InsertByMembers(x, s[1..], le);
      var rest := InsertBy(x, s[1..], le);
      forall j | 0 <= j < |rest| ensures rest[j].index != s[0].index {
        assert rest[j] in rest;
      }
    }
  }

  lemma {:induction false} ByScoreDistinct(xs: seq<Item>)
    requires DistinctIndices(xs)
    ensures DistinctIndices(ByScore(xs))
  {
    if xs != [] {
      ByScoreDistinct(xs[1..]);
      forall y | y in ByScore(xs[1..]) ensures y.index != xs[0].index {
        assert y in multiset(ByScore(xs[1..]));
      }
      InsertByDistinct(xs[0], ByScore(xs[1..]), HigherFirst);
    }
  }

  lemma {:induction false} ByIndexSorted(xs: seq<Item>)
    ensures SortedBy(ByIndex(xs), EarlierFirst)
  {
    if xs != [] {
      ByIndexSorted(xs[1..]);
      InsertBySorted(xs[0], ByIndex(xs[1..]), EarlierFirst);
    }
  }

  lemma {:induction false} ByScoreSorted(xs: seq<Item>)
    ensures SortedBy(ByScore(xs), HigherFirst)
  {
    if xs != [] {
      ByScoreSorted(xs[1..]);
      InsertBySorted(xs[0], ByScore(xs[1..]), HigherFirst);
    }
  }

  lemma {:induction false} ByIndexDistinct(xs: seq<Item>)
    requires DistinctIndices(xs)
    ensures DistinctIndices(ByIndex(xs))
  {
    if xs != [] {
      ByIndexDistinct(xs[1..]);
      forall y | y in ByIndex(xs[1..]) ensures y.index != xs[0].index {
        assert y in multiset(ByIndex(xs[1..]));
      }
      InsertByDistinct(xs[0], ByIndex(xs[1..]), EarlierFirst);
    }
  }

  /** The picked items in one place: built from the sentences, strictly in text order, as
      many as the length asks for. */
  lemma PickedFacts(ss: seq<String>, scoreOf: nat -> real, length: String)
    ensures var p := Picked(ss, scoreOf, length);
            |p| == TakeCount(|ss|, length)
            && FromSentences(p, ss, scoreOf)
            && forall k, l :: 0 <= k < l < |p| ==> p[k].index < p[l].index
  {
    PickedInOrder(ss, scoreOf, length);
    PickedFromSentences(ss, scoreOf, length);
  }

  /** The picked items are strictly in text order. */
  lemma PickedInOrder(ss: seq<String>, scoreOf: nat -> real, length: String)
    ensures var p := Picked(ss, scoreOf, length);
            forall k, l :: 0 <= k < l < |p| ==> p[k].index < p[l].index
  {
    var items := Items(ss, scoreOf);
    var top := ByScore(items)[..TakeCount(|ss|, length)];
    assert DistinctIndices(top) by {
      ByScoreDistinct(items);
    }
    ByIndexDistinct(top);
    ByIndexSorted(top);
  }

  /** The picked items are built from the sentences. */
  lemma PickedFromSentences(ss: seq<String>, scoreOf: nat -> real, length: String)
    ensures FromSentences(Picked(ss, scoreOf, length), ss, scoreOf)
  {
    var items := Items(ss, scoreOf);
    var top := ByScore(items)[..TakeCount(|ss|, length)];
    FromSentencesPermuted(items, ByScore(items), ss, scoreOf);
    assert FromSentences(top, ss, scoreOf) by {
      forall x | x in top ensures x in ByScore(items) { }
    }
    FromSentencesPermuted(top, ByIndex(top), ss, scoreOf);
  }

  /** Reordering items keeps them built from the sentences. */
  lemma FromSentencesPermuted(xs: seq<Item>, ys: seq<Item>, ss: seq<String>, scoreOf: nat -> real)
    requires FromSentences(xs, ss, scoreOf) && multiset(ys) == multiset(xs)
    ensures FromSentences(ys, ss, scoreOf)
  {
    forall y | y in ys ensures y in xs {
      assert y in multiset(ys);
    }
  }

  /** Whatever is taken from the front of a sequence sorted by falling score scores at least
      as high as whatever is left behind. */
  lemma FrontBeatsRest(sorted: seq<Item>, m: nat, p: seq<Item>, y: Item, k: nat)
    requires m <= |sorted| && SortedBy(sorted, HigherFirst)
    requires multiset(p) == multiset(sorted[..m])
    requires y in sorted && y !in p && k < |p|
    ensures p[k].score >= y.score
  {
    assert sorted == sorted[..m] + sorted[m..];
    assert multiset(sorted) == multiset(p) + multiset(sorted[m..]);
    assert y !in multiset(p);
    assert y in multiset(sorted);
    assert y in multiset(sorted[m..]);
    var q' :| 0 <= q' < |sorted[m..]| && sorted[m..][q'] == y;
    var q := m + q';
    assert p[k] in multiset(sorted[..m]);
    var i :| 0 <= i < m && sorted[..m][i] == p[k];
    assert HigherFirst(sorted[i], sorted[q]);
  }

  /** No sentence left out scores higher than a chosen one. */
  lemma PickedBeatUnpicked(ss: seq<String>, scoreOf: nat -> real, length: String, k: nat, j: nat)
    requires k < |Picked(ss, scoreOf, length)| && j < |ss|
    requires forall l :: 0 <= l < |Picked(ss, scoreOf, length)| ==> Picked(ss, scoreOf, length)[l].index != j
    ensures Picked(ss, scoreOf, length)[k].score >= scoreOf(j)
  {
    var items := Items(ss, scoreOf);
    var sorted := ByScore(items);
    var m := TakeCount(|ss|, length);
    var p := Picked(ss, scoreOf, length);
    assert p == ByIndex(sorted[..m]);
    ByScoreSorted(items);
    var y := items[j];
    assert y.index == j && y.score == scoreOf(j);
    assert y in multiset(sorted);
    assert forall l :: 0 <= l < |p| ==> p[l] != y;
    FrontBeatsRest(sorted, m, p, y, k);
  }

  /** selectSentences keeps `TakeCount` sentences of the text, in their original order, and
      every sentence it drops scores no higher than every sentence it keeps. */
  lemma SelectedFacts(ss: seq<String>, scoreOf: nat -> real, length: String)
    ensures var p := Picked(ss, scoreOf, length);
            var r := Selected(ss, scoreOf, length);
            |r| == TakeCount(|ss|, length)
            && (forall k :: 0 <= k < |r| ==>
                  p[k].index < |ss| && r[k] == ss[p[k].index] && p[k].score == scoreOf(p[k].index))
            && (forall k, l :: 0 <= k < l < |r| ==> p[k].index < p[l].index)
            && (forall k, j :: 0 <= k < |r| && 0 <= j < |ss|
                               && (forall l :: 0 <= l < |p| ==> p[l].index != j)
                               ==> p[k].score >= scoreOf(j))
  {
    var p := Picked(ss, scoreOf, length);
    PickedFacts(ss, scoreOf, length);
    forall k | 0 <= k < |p| ensures p[k].index < |ss| && p[k].sentence == ss[p[k].index]
                                    && p[k].score == scoreOf(p[k].index) {
      assert p[k] in p;
    }
    forall k, j | 0 <= k < |p| && 0 <= j < |ss| && (forall l :: 0 <= l < |p| ==> p[l].index != j)
      ensures p[k].score >= scoreOf(j)
    {
      PickedBeatUnpicked(ss, scoreOf, length, k, j);
    }
  }

  /** Chosen sentences are sentences of the text. */
  lemma SelectedAreSentences(text: String, scoreOf: nat -> real, length: String)
    ensures var r := Selected(SplitIntoSentences(text), scoreOf, length);
            forall k :: 0 <= k < |r| ==> IsSentence(r[k])
  {
    var ss := SplitIntoSentences(text);
    SelectedFacts(ss, scoreOf, length);
    SentencesAreSentences(text);
  }

  // ---------------------------------------------------------------- post-processing

  function Bullet(point: String): String { "• " + JsTrim(point) }

  function BulletList(points: seq<String>): seq<String> {
    seq(|points|, i requires 0 <= i < |points| => Bullet(points[i]))
  }

  /** The outline line for the point numbered `n`. */
  function OutlineLine(n: nat, point: String): String {
    NatToDecimal(n) + ". " + JsTrim(point)
  }

  function OutlineLines(points: seq<String>): (r: seq<String>)
    ensures |r| == |points|
  {
    seq(|points|, i requires 0 <= i < |points| => OutlineLine(i + 1, points[i]))
  }

  /** The text createOutline builds for the given points: each numbered line followed by a
      line break. */
  function OutlineText(points: seq<String>): String {
    if points == [] then []
    else OutlineText(points[..|points| - 1]) + OutlineLine(|points|, points[|points| - 1]) + "\n"
  }

  /** createOutline. */
  method CreateOutline(text: String) returns (outline: String)
    ensures outline == OutlineText(CjkPieces(text))
  {
    var points := CjkPieces(text);
    outline := [];
    var i := 0;
    while i < |points|
      invariant 0 <= i <= |points|
      invariant outline == OutlineText(points[..i])
    {
      assert points[..i + 1][..i] == points[..i];
      outline := outline + OutlineLine(i + 1, points[i]) + "\n";
      i := i + 1;
    }
    assert points[..i] == points;
  }

  /** postProcessSummary; the outline is the text createOutline returns. */
  function PostProcessSummary(summary: String, summaryType: String): String {
    if summaryType == "abstract" then "摘要：" + summary
    else if summaryType == "executive" then "执行摘要：" + summary
    else if summaryType == "bullet_points" then Join(BulletList(CjkPieces(summary)), "\n")
    else if summaryType == "outline" then OutlineText(CjkPieces(summary))
    else summary
  }

  /** A line-free point gives line-free bullets and outline lines. */
  lemma LinesLackBreaks(points: seq<String>)
    requires forall k :: 0 <= k < |points| ==> '\n' !in points[k]
    ensures forall k, i :: 0 <= k < |points| && 0 <= i < |BulletList(points)[k]|
                           ==> !IsLineBreak(BulletList(points)[k][i])
    ensures forall k, i :: 0 <= k < |points| && 0 <= i < |OutlineLines(points)[k]|
                           ==> !IsLineBreak(OutlineLines(points)[k][i])
  {
    forall k | 0 <= k < |points| ensures '\n' !in JsTrim(points[k]) {
      TrimFacts(points[k], IsJsSpace);
    }
    forall k, i | 0 <= k < |points| && 0 <= i < |OutlineLines(points)[k]|
      ensures !IsLineBreak(OutlineLines(points)[k][i])
    {
      var d := NatToDecimal(k + 1);
      if i < |d| {
        assert IsAsciiDigit(d[i]);
      }
    }
  }

  /** The outline is its numbered lines, each ended by a line break. */
  lemma {:induction false} OutlineIsJoin(points: seq<String>)
    ensures OutlineText(points) == Join(OutlineLines(points) + [[]], "\n")
  {
    if points != [] {
      OutlineIsJoin(points[..|points| - 1]);
      OutlineJoinStep(points);
    }
  }

  /** The step of OutlineIsJoin: one more numbered line. */
  lemma {:induction false} OutlineJoinStep(points: seq<String>)
    requires points != []
    requires OutlineText(points[..|points| - 1]) == Join(OutlineLines(points[..|points| - 1]) + [[]], "\n")
    ensures OutlineText(points) == Join(OutlineLines(points) + [[]], "\n")
  {
    var init := points[..|points| - 1];
    var line := OutlineLine(|points|, points[|points| - 1]);
    var lines := OutlineLines(init);
    assert Join(OutlineLines(points) + [[]], "\n") == Join(lines + [line], "\n") + "\n" by {
      OutlineLinesSnoc(points);
      JoinSnoc(lines + [line], [], "\n");
    }
    assert OutlineText(points) == OutlineText(init) + line + "\n";
    if lines == [] {
      assert Join(lines + [line], "\n") == line by { JoinSnoc(lines, line, "\n"); }
      assert OutlineText(init) == [];
    } else {
      assert Join(lines + [line], "\n") == Join(lines, "\n") + "\n" + line by { JoinSnoc(lines, line, "\n"); }
      assert OutlineText(init) == Join(lines, "\n") + "\n" by { JoinSnoc(lines, [], "\n"); }
      assert OutlineText(points) == Join(lines, "\n") + "\n" + line + "\n";
    }
  }

  lemma OutlineLinesSnoc(points: seq<String>)
    requires points != []
    ensures OutlineLines(points)
            == OutlineLines(points[..|points| - 1]) + [OutlineLine(|points|, points[|points| - 1])]
  {
  }

  /** Splitting a bullet list at its line breaks gives one bullet per point, each the
      trimmed point after "• ". */
  lemma BulletsSplitIntoPoints(points: seq<String>)
    requires points != []
    requires forall k :: 0 <= k < |points| ==> '\n' !in points[k]
    ensures SplitWhere(Join(BulletList(points), "\n"), IsLineBreak) == BulletList(points)
  {
    LinesLackBreaks(points);
    JoinSplitWhere(BulletList(points), '\n', IsLineBreak);
  }

  /** Splitting an outline at its line breaks gives the line "n. point" for the n-th point,
      numbered from 1, and the empty piece after the last line break. */
  lemma OutlineSplitsIntoLines(points: seq<String>)
    requires forall k :: 0 <= k < |points| ==> '\n' !in points[k]
    ensures SplitWhere(OutlineText(points), IsLineBreak) == OutlineLines(points) + [[]]
  {
    LinesLackBreaks(points);
    OutlineIsJoin(points);
    var lines := OutlineLines(points) + [[]];
    forall k, i | 0 <= k < |lines| && 0 <= i < |lines[k]| ensures !IsLineBreak(lines[k][i]) {
      assert k < |points| && lines[k] == OutlineLines(points)[k];
    }
    JoinSplitWhere(lines, '\n', IsLineBreak);
  }

  /** What the local path post-processes: the chosen sentences joined with a space, as
      summarizeLocally does. */
  function JoinedSummary(text: String, scoreOf: nat -> real, length: String): String {
    Join(Selected(SplitIntoSentences(text), scoreOf, length), " ")
  }

  /** As written, the chosen sentences no longer hold any terminator, so the bullet and the
      outline post-processing never find more than one point in a local summary, however many
      sentences were chosen. */
  lemma LocalSummaryHasOnePoint(text: String, scoreOf: nat -> real, length: String)
    ensures |CjkPieces(JoinedSummary(text, scoreOf, length))| <= 1
    ensures |Selected(SplitIntoSentences(text), scoreOf, length)|
            == TakeCount(|SplitIntoSentences(text)|, length)
  {
    var sel := Selected(SplitIntoSentences(text), scoreOf, length);
    var summary := JoinedSummary(text, scoreOf, length);
    SelectedAreSentences(text, scoreOf, length);
    SelectedFacts(SplitIntoSentences(text), scoreOf, length);
    forall i | 0 <= i < |summary| ensures !IsCjkStop(summary[i]) {
      var c := summary[i];
      if IsCjkStop(c) {
        forall k | 0 <= k < |sel| ensures c !in sel[k] {
          assert IsSentence(sel[k]);
        }
        JoinLacks(sel, " ", c);
        assert false;
      }
    }
    SplitWhereNone(summary, IsCjkStop);
  }

  /** Listing and outlining split at the stops the sentences had. */
  predicate Listed(summaryType: String) {
    summaryType == "bullet_points" || summaryType == "outline"
  }

  /** The summary text of the local path as written: the chosen sentences joined with a
      space, then post-processed. */
  function SummaryText(selected: seq<String>, summaryType: String): String {
    PostProcessSummary(Join(selected, " "), summaryType)
  }

  /** The summary text as intended: the chosen sentences joined with "。" when they are to be
      listed or outlined, so that the post-processing finds one point per chosen sentence. */
  function ListedSummaryText(selected: seq<String>, summaryType: String): String {
    PostProcessSummary(Join(selected, if Listed(summaryType) then "。" else " "), summaryType)
  }

  /** With the sentences joined at "。", the points are exactly the chosen sentences. */
  lemma PointsOfJoinedSentences(selected: seq<String>)
    requires forall k :: 0 <= k < |selected| ==> IsSentence(selected[k])
    ensures CjkPieces(Join(selected, "。")) == selected
  {
    if selected != [] {
      forall k, i | 0 <= k < |selected| && 0 <= i < |selected[k]| ensures !IsCjkStop(selected[k][i]) {
        assert IsSentence(selected[k]);
      }
      JoinSplitWhere(selected, '。', IsCjkStop);
      forall k | 0 <= k < |selected| ensures NotBlank(selected[k]) {
        assert IsSentence(selected[k]);
      }
      FilterKeepsAll(selected, NotBlank);
    }
  }

  /** One bullet, or one numbered outline line, per chosen sentence. */
  lemma SummaryTextListsEverySentence(text: String, scoreOf: nat -> real, length: String)
    requires '\n' !in text
    ensures var sel := Selected(SplitIntoSentences(text), scoreOf, length);
            (sel != [] ==> SplitWhere(ListedSummaryText(sel, "bullet_points"), IsLineBreak) == BulletList(sel))
            && SplitWhere(ListedSummaryText(sel, "outline"), IsLineBreak) == OutlineLines(sel) + [[]]
  {
    SummaryBulletsListEverySentence(text, scoreOf, length);
    SummaryOutlineListsEverySentence(text, scoreOf, length);
  }

  lemma SummaryBulletsListEverySentence(text: String, scoreOf: nat -> real, length: String)
    requires '\n' !in text
    ensures var sel := Selected(SplitIntoSentences(text), scoreOf, length);
            sel != [] ==> SplitWhere(ListedSummaryText(sel, "bullet_points"), IsLineBreak) == BulletList(sel)
  {
    var sel := Selected(SplitIntoSentences(text), scoreOf, length);
    if sel != [] {
      SelectedAreSentences(text, scoreOf, length);
      SummaryTextIsBullets(sel);
      SelectedLack(text, scoreOf, length, '\n');
      BulletsSplitIntoPoints(sel);
    }
  }

  /** The bullet-point summary of whole sentences is their bullets, one per line. */
  lemma SummaryTextIsBullets(sel: seq<String>)
    requires forall k :: 0 <= k < |sel| ==> IsSentence(sel[k])
    ensures ListedSummaryText(sel, "bullet_points") == Join(BulletList(sel), "\n")
  {
    var joined := Join(sel, "。");
    assert ListedSummaryText(sel, "bullet_points") == Join(BulletList(CjkPieces(joined)), "\n");
    PointsOfJoinedSentences(sel);
  }

  /** The outline summary of whole sentences is their numbered lines. */
  lemma SummaryTextIsOutline(sel: seq<String>)
    requires forall k :: 0 <= k < |sel| ==> IsSentence(sel[k])
    ensures ListedSummaryText(sel, "outline") == OutlineText(sel)
  {
    var joined := Join(sel, "。");
    assert ListedSummaryText(sel, "outline") == OutlineText(CjkPieces(joined));
    PointsOfJoinedSentences(sel);
  }

  lemma SummaryOutlineListsEverySentence(text: String, scoreOf: nat -> real, length: String)
    requires '\n' !in text
    ensures var sel := Selected(SplitIntoSentences(text), scoreOf, length);
            SplitWhere(ListedSummaryText(sel, "outline"), IsLineBreak) == OutlineLines(sel) + [[]]
  {
    var sel := Selected(SplitIntoSentences(text), scoreOf, length);
    SelectedAreSentences(text, scoreOf, length);
    SummaryTextIsOutline(sel);
    SelectedLack(text, scoreOf, length, '\n');
    OutlineSplitsIntoLines(sel);
  }

  /** A character that is not in the text is in none of the chosen sentences. */
  lemma SelectedLack(text: String, scoreOf: nat -> real, length: String, c: char)
    requires c !in text
    ensures var sel := Selected(SplitIntoSentences(text), scoreOf, length);
            forall k :: 0 <= k < |sel| ==> c !in sel[k]
  {
    var ss := SplitIntoSentences(text);
    var sel := Selected(ss, scoreOf, length);
    SelectedFacts(ss, scoreOf, length);
    forall k | 0 <= k < |sel| ensures c !in sel[k] {
      var p := Picked(ss, scoreOf, length);
      assert sel[k] == ss[p[k].index];
      SentenceLacks(text, p[k].index, c);
    }
  }

  /** A character that is not in the text is in none of its sentences. */
  lemma SentenceLacks(text: String, k: nat, c: char)
    requires k < |SplitIntoSentences(text)| && c !in text
    ensures c !in SplitIntoSentences(text)[k]
  {
    var pieces := SplitWhere(text, IsSentenceBreak);
    var ts := Trimmed(pieces);
    var s := SplitIntoSentences(text)[k];
    assert s in ts;
    var i :| 0 <= i < |ts| && ts[i] == s;
    TrimFacts(pieces[i], IsJsSpace);
    SplitWhereChars(text, IsSentenceBreak, i);
  }

  /** Every character of a piece comes from the text. */
  lemma {:induction false} SplitWhereChars(s: String, sep: char -> bool, k: nat)
    requires k < |SplitWhere(s, sep)|
    ensures forall c :: c in SplitWhere(s, sep)[k] ==> c in s
  {
    if s != [] {
      var rest := SplitWhere(s[1..], sep);
      if sep(s[0]) {
        if k > 0 { SplitWhereChars(s[1..], sep, k - 1); }
      } else if k == 0 {
        SplitWhereChars(s[1..], sep, 0);
      } else {
        SplitWhereChars(s[1..], sep, k);
      }
    }
  }

  // ---------------------------------------------------------------- key points

  /** The words of the four keyword patterns; a pattern made of alternatives matches a
      sentence exactly when one of its words occurs in it. */
  function KeyWords(): seq<String> {
    ["重要", "关键", "核心", "主要", "首要",
     "因此", "所以", "总之", "综上",
     "第一", "首先", "其次", "最后", "最终",
     "需要", "必须", "应该", "建议"]
  }

  predicate IsKeySentence(s: String) {
    exists k :: 0 <= k < |KeyWords()| && Contains(s, KeyWords()[k])
  }

  function FirstFive(xs: seq<String>): (r: seq<String>)
    ensures |r| <= 5
  {
    if |xs| <= 5 then xs else xs[..5]
  }

  lemma FirstFiveStep(xs: seq<String>, x: String)
    ensures FirstFive(xs + [x]) == if |xs| < 5 then xs + [x] else FirstFive(xs)
  {
    if |xs| >= 5 {
      assert (xs + [x])[..5] == xs[..5];
    }
  }

  lemma SentenceTrimmed(text: String, k: nat)
    requires k < |SplitIntoSentences(text)|
    ensures JsTrim(SplitIntoSentences(text)[k]) == SplitIntoSentences(text)[k]
  {
    SentencesAreSentences(text);
    assert IsSentence(SplitIntoSentences(text)[k]);
  }

  /** One more sentence adds itself to the key points when it holds a keyword and fewer
      than five have been taken. */
  lemma KeyPointsStep(sentences: seq<String>, i: nat)
    requires i < |sentences|
    ensures var kp := FirstFive(Filter(sentences[..i], IsKeySentence));
            FirstFive(Filter(sentences[..i + 1], IsKeySentence))
            == if IsKeySentence(sentences[i]) && |kp| < 5 then kp + [sentences[i]] else kp
  {
    var before := Filter(sentences[..i], IsKeySentence);
    FilterPrefixStep(sentences, i, IsKeySentence);
    FirstFiveStep(before, sentences[i]);
    assert |FirstFive(before)| < 5 <==> |before| < 5;
  }

  /** extractKeyPoints: the first five sentences that hold a keyword, in text order. */
  method ExtractKeyPoints(text: String) returns (keyPoints: seq<String>)
    ensures keyPoints == FirstFive(Filter(SplitIntoSentences(text), IsKeySentence))
  {
    var sentences := SplitIntoSentences(text);
    keyPoints := [];
    var i := 0;
    while i < |sentences|
      invariant 0 <= i <= |sentences|
      invariant keyPoints == FirstFive(Filter(sentences[..i], IsKeySentence))
    {
      var sentence := sentences[i];
      KeyPointsStep(sentences, i);
      if IsKeySentence(sentence) && |keyPoints| < 5 {
        SentenceTrimmed(text, i);
        keyPoints := keyPoints + [JsTrim(sentence)];
      }
      i := i + 1;
    }
    assert sentences[..i] == sentences;
  }

  /** The key points are at most five sentences, each holding a keyword, taken in order:
      a key sentence is skipped only once five have been taken. */
  lemma KeyPointsFacts(text: String)
    ensures var kp := FirstFive(Filter(SplitIntoSentences(text), IsKeySentence));
            var all := Filter(SplitIntoSentences(text), IsKeySentence);
            |kp| <= 5
            && (forall k :: 0 <= k < |kp| ==> IsKeySentence(kp[k]) && kp[k] in SplitIntoSentences(text))
            && (|all| <= 5 ==> kp == all)
            && (|all| > 5 ==> |kp| == 5 && kp == all[..5])
  {
    var all := Filter(SplitIntoSentences(text), IsKeySentence);
    var kp := FirstFive(all);
    forall k | 0 <= k < |kp| ensures IsKeySentence(kp[k]) && kp[k] in SplitIntoSentences(text) {
      assert kp[k] == all[k];
      assert all[k] in all;
    }
  }

  // ---------------------------------------------------------------- responses

  /** calculateReadability: 100 less the words per sentence less the characters per word,
      clamped into [0, 100]. Without a sentence the quotient is infinite and the score 0. */
  function Readability(text: String): (r: real)
    ensures 0.0 <= r <= 100.0
    ensures SplitIntoSentences(text) == [] ==> r == 0.0
  {
    var sentences := SplitIntoSentences(text);
    var words := SplitRuns(text, IsJsSpace);
    if sentences == [] then 0.0
    else Clamp(100.0 - (|words| as real) / (|sentences| as real) - (|text| as real) / (|words| as real))
  }

  datatype SummaryResponse = SummaryResponse(
    originalText: String, summaryText: String, keyPoints: seq<String>,
    wordCount: nat, readabilityScore: real)

  datatype ExpansionResponse = ExpansionResponse(
    originalText: String, expandedText: String, wordCount: nat, readabilityScore: real)

  /** createSummarizationResponse. */
  function SummaryResponseFor(text: String, summaryText: String, keyPoints: seq<String>): (r: SummaryResponse)
    ensures r.originalText == text && r.summaryText == summaryText && r.keyPoints == keyPoints
    ensures r.wordCount >= 1 && 0.0 <= r.readabilityScore <= 100.0
  {
    SummaryResponse(text, summaryText, keyPoints, |SplitRuns(summaryText, IsJsSpace)|, Readability(summaryText))
  }

  /** createExpansionResponse. */
  function ExpansionResponseFor(text: String, expandedText: String): (r: ExpansionResponse)
    ensures r.originalText == text && r.expandedText == expandedText
    ensures r.wordCount >= 1 && 0.0 <= r.readabilityScore <= 100.0
  {
    ExpansionResponse(text, expandedText, |SplitRuns(expandedText, IsJsSpace)|, Readability(expandedText))
  }

  /** What summarizeLocally answers. */
  function LocalSummary(text: String, summaryType: String, length: String, includeKeyPoints: bool,
                        scoreOf: nat -> real): SummaryResponse
  {
    var selected := Selected(SplitIntoSentences(text), scoreOf, length);
    var keyPoints := if includeKeyPoints then FirstFive(Filter(SplitIntoSentences(text), IsKeySentence)) else [];
    SummaryResponseFor(text, SummaryText(selected, summaryType), keyPoints)
  }

  /** summarizeLocally. The sentence scores are given by `scoreOf`. */
  method SummarizeLocally(text: String, summaryType: String, length: String, includeKeyPoints: bool,
                          scoreOf: nat -> real) returns (resp: SummaryResponse)
    ensures resp == LocalSummary(text, summaryType, length, includeKeyPoints, scoreOf)
  {
    var sentences := SplitIntoSentences(text);
    var selected := Selected(sentences, scoreOf, length);
    var joined := Join(selected, " ");
    var summaryText: String;
    if summaryType == "outline" {
      summaryText := CreateOutline(joined);
    } else {
      summaryText := PostProcessSummary(joined, summaryType);
    }
    assert summaryText == SummaryText(selected, summaryType);
    var keyPoints: seq<String> := [];
    if includeKeyPoints {
      keyPoints := ExtractKeyPoints(text);
    }
    resp := SummaryResponseFor(text, summaryText, keyPoints);
  }

  datatype Request =
    | Summarize(text: String, summaryType: String, length: String, includeKeyPoints: bool)
    | Expand(text: String)

  datatype Reply = Summary(summary: SummaryResponse) | Expansion(expansion: ExpansionResponse)

  datatype Outcome = Success(reply: Reply) | Failure(code: String, message: String)

  const FailureCode: String := "SUMMARIZATION_FAILED"
  const FailureMessage: String := "Failed to process text"

  /** The summarisation module's state: the status flags and the service key. */
  class SummarizationModule {
    var loaded: bool
    var ready: bool
    /** The key for the completion service; empty when there is none. */
    var apiKey: String

    constructor()
      ensures !loaded && !ready && apiKey == []
    {
      loaded := false;
      ready := false;
      apiKey := [];
    }

    /** initialize: the key is the configured one, else the stored one. */
    method Initialize(configuredKey: String, storedKey: String)
      modifies this
      ensures loaded && ready
      ensures apiKey == if configuredKey != [] then configuredKey else storedKey
    {
      apiKey := if configuredKey != [] then configuredKey else storedKey;
      loaded := true;
      ready := true;
    }

    /** cleanup. */
    method Cleanup()
      modifies this
      ensures !loaded && !ready && apiKey == old(apiKey)
    {
      loaded := false;
      ready := false;
    }

    /** process. With a key the request goes to the completion service, whose answer is
        `serviceReply` (None when the call fails); without one a summary is made locally
        and an expansion is `localExpansion`. */
    method Process(req: Request, scoreOf: nat -> real, serviceReply: Option<String>,
                   localExpansion: String) returns (out: Outcome)
      ensures !ready ==> out == Failure(FailureCode, FailureMessage)
      ensures ready && apiKey != [] && serviceReply.None? ==> out == Failure(FailureCode, FailureMessage)
      ensures ready && apiKey != [] && serviceReply.Some? ==>
                out == Success(match req
                               case Summarize(t, _, _, _) => Summary(SummaryResponseFor(t, serviceReply.value, []))
                               case Expand(t) => Expansion(ExpansionResponseFor(t, serviceReply.value)))
      ensures ready && apiKey == [] ==>
                out == Success(match req
                               case Summarize(t, st, len, kp) => Summary(LocalSummary(t, st, len, kp, scoreOf))
                               case Expand(t) => Expansion(ExpansionResponseFor(t, localExpansion)))
    {
      if !ready {
        return Failure(FailureCode, FailureMessage);
      }
      if apiKey != [] {
        match serviceReply
        case None =>
          out := Failure(FailureCode, FailureMessage);
        case Some(answer) =>
          match req
          case Summarize(t, _, _, _) =>
            out := Success(Summary(SummaryResponseFor(t, answer, [])));
          case Expand(t) =>
            out := Success(Expansion(ExpansionResponseFor(t, answer)));
      } else {
        match req
        case Summarize(t, st, len, kp) =>
          var resp := SummarizeLocally(t, st, len, kp, scoreOf);
          out := Success(Summary(resp));
        case Expand(t) =>
          out := Success(Expansion(ExpansionResponseFor(t, localExpansion)));
      }
    }
  }
}
