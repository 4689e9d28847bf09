/** The SQLite store of the Tauri back end (src-tauri/src/database.rs): four tables, each
    modelled as a map from primary key to the row the table holds. Rows keep timestamps in
    the form the column holds them, so a value that does not parse as RFC 3339 is an error on
    read, never a default. SQL `ORDER BY` is realised by ordered insertion while the rows of
    a query are collected. */
module Database {
  import opened Wrappers
  import opened Text
  import opened Chrono
  import opened Sorting

  // ---------------------------------------------------------------- records

  /** struct Document. */
  datatype Document = Document(id: String, title: String, content: String,
                               filePath: Option<String>, createdAt: UtcDateTime,
                               updatedAt: UtcDateTime, wordCount: int)

  /** struct SemanticTerm; the REAL column `confidence` is kept as a real number. */
  datatype SemanticTerm = SemanticTerm(id: String, documentId: String, term: String,
                                       context: String, position: int, confidence: real,
                                       createdAt: UtcDateTime)

  /** struct ConsistencyRule. */
  datatype ConsistencyRule = ConsistencyRule(id: String, term: String, preferredForm: String,
                                             alternatives: String, isActive: bool,
                                             createdAt: UtcDateTime)

  /** struct AnalysisCache. */
  datatype AnalysisCache = AnalysisCache(id: String, documentId: String, contentHash: String,
                                         analysisResult: String, createdAt: UtcDateTime)

  /** A TEXT timestamp column: what `to_rfc3339` wrote, or text that does not parse. */
  datatype TimeCell = Rfc3339(t: UtcDateTime) | Unparsable(text: String)

  /** The BOOLEAN (numeric affinity) column `is_active`: an integer, or text that is not a
      number and therefore stays text. */
  datatype FlagCell = IntegerFlag(n: int) | TextFlag(text: String)

  datatype DbError = InvalidColumnType(column: nat, name: String) | Failed(message: String)

  datatype DocumentRow = DocumentRow(id: String, title: String, content: String,
                                     filePath: String, createdAt: TimeCell,
                                     updatedAt: TimeCell, wordCount: int)

  datatype TermRow = TermRow(id: String, documentId: String, term: String, context: String,
                             position: int, confidence: real, createdAt: TimeCell)

  datatype RuleRow = RuleRow(id: String, term: String, preferredForm: String,
                             alternatives: String, isActive: FlagCell, createdAt: TimeCell)

  datatype AnalysisRow = AnalysisRow(id: String, documentId: String, contentHash: String,
                                     analysisResult: String, createdAt: TimeCell)

  // ---------------------------------------------------------------- row encodings

  /** `parse_from_rfc3339`, with the column index and name the error reports. */
  function ReadTime(cell: TimeCell, column: nat, name: String): (r: Result<UtcDateTime, DbError>)
    ensures r.Ok? <==> cell.Rfc3339?
    ensures r.Ok? ==> r.value == cell.t
    ensures r.Err? ==> r.error == InvalidColumnType(column, name)
  {
    match cell
    case Rfc3339(t) => Ok(t)
    case Unparsable(_) => Err(InvalidColumnType(column, name))
  }

  /** The row `save_document` writes: an absent path is stored as "". */
  function EncodeDocument(d: Document): DocumentRow {
    DocumentRow(d.id, d.title, d.content, d.filePath.GetOr(""),
                Rfc3339(d.createdAt), Rfc3339(d.updatedAt), d.wordCount)
  }

  /** The document `get_document` and `list_documents` build from a row: "" reads back as no
      path, and an unparsable timestamp (created_at checked first) is an error. */
  function DecodeDocument(row: DocumentRow): (r: Result<Document, DbError>)
    ensures r.Ok? <==> row.createdAt.Rfc3339? && row.updatedAt.Rfc3339?
    ensures row.createdAt.Unparsable? ==> r == Err(InvalidColumnType(4, "created_at"))
    ensures row.createdAt.Rfc3339? && row.updatedAt.Unparsable? ==> r == Err(InvalidColumnType(5, "updated_at"))
    ensures r.Ok? ==> r.value.filePath != Some("") && EncodeDocument(r.value) == row
  {
    match ReadTime(row.createdAt, 4, "created_at")
    case Err(e) => Err(e)
    case Ok(created) =>
      match ReadTime(row.updatedAt, 5, "updated_at")
      case Err(e) => Err(e)
      case Ok(updated) =>
        Ok(Document(row.id, row.title, row.content,
                    if row.filePath == "" then None else Some(row.filePath),
                    created, updated, row.wordCount))
  }

  /** A saved document reads back unchanged, except that a path of "" reads back as none. */
  lemma DocumentRoundTrip(d: Document)
    ensures DecodeDocument(EncodeDocument(d)).Ok?
    ensures DecodeDocument(EncodeDocument(d)).value == d <==> d.filePath != Some("")
    ensures d.filePath == Some("") ==> DecodeDocument(EncodeDocument(d)).value == d.(filePath := None)
  {
  }

  function EncodeTerm(t: SemanticTerm): TermRow {
    TermRow(t.id, t.documentId, t.term, t.context, t.position, t.confidence, Rfc3339(t.createdAt))
  }

  function DecodeTerm(row: TermRow): (r: Result<SemanticTerm, DbError>)
    ensures r.Ok? <==> row.createdAt.Rfc3339?
    ensures r.Ok? ==> EncodeTerm(r.value) == row
  {
    match ReadTime(row.createdAt, 6, "created_at")
    case Err(e) => Err(e)
    case Ok(created) =>
      Ok(SemanticTerm(row.id, row.documentId, row.term, row.context, row.position,
                      row.confidence, created))
  }

  /** The row `save_consistency_rule` writes: the flag as the text `true` / `false`
      (`bool::to_string`), which a numeric-affinity column keeps as text. */
  function EncodeRule(rule: ConsistencyRule): RuleRow {
    RuleRow(rule.id, rule.term, rule.preferredForm, rule.alternatives,
            TextFlag(if rule.isActive then "true" else "false"), Rfc3339(rule.createdAt))
  }

  /** The filter of `get_consistency_rules` as written: `WHERE is_active = 1`. */
  predicate SelectedAsWritten(row: RuleRow) {
    row.isActive == IntegerFlag(1)
  }

  /** The row mapping of `get_consistency_rules` as written: `is_active` is read as a String
      (an integer there is a type error), and is true for "1" or any casing of "true". */
  function DecodeRuleAsWritten(row: RuleRow): Result<ConsistencyRule, DbError> {
    match row.isActive
    case IntegerFlag(_) => Err(InvalidColumnType(4, "is_active"))
    case TextFlag(s) =>
      match ReadTime(row.createdAt, 5, "created_at")
      case Err(e) => Err(e)
      case Ok(created) =>
        Ok(ConsistencyRule(row.id, row.term, row.preferredForm, row.alternatives,
                           s == "1" || Lower(s) == "true", created))
  }

  /** The two halves of the rule query cannot both succeed: a row the filter selects holds an
      integer, and reading an integer as text fails. So the query never yields a rule. */
  lemma SelectedRuleRowsFailToDecode(row: RuleRow)
    requires SelectedAsWritten(row)
    ensures DecodeRuleAsWritten(row).Err?
  {
  }

  /** ... and no row that `save_consistency_rule` wrote is selected, active or not. */
  lemma SavedRuleNeverSelected(rule: ConsistencyRule)
    ensures rule.isActive ==> !SelectedAsWritten(EncodeRule(rule))
  {
  }

  /** What the flag means, read the way the row mapping reads it, without a type error. */
  predicate FlagIsTrue(f: FlagCell) {
    match f
    case IntegerFlag(n) => n == 1
    case TextFlag(s) => s == "1" || Lower(s) == "true"
  }

  /** The corrected row mapping: the flag's meaning is decoded whatever its storage class. */
  function DecodeRule(row: RuleRow): (r: Result<ConsistencyRule, DbError>)
    ensures r.Ok? <==> row.createdAt.Rfc3339?
    ensures r.Ok? ==> r.value.isActive == FlagIsTrue(row.isActive)
  {
    match ReadTime(row.createdAt, 5, "created_at")
    case Err(e) => Err(e)
    case Ok(created) =>
      Ok(ConsistencyRule(row.id, row.term, row.preferredForm, row.alternatives,
                         FlagIsTrue(row.isActive), created))
  }

  /** With the corrected query a saved rule is selected exactly when it is active, and reads
      back as the rule that was saved. */
  lemma SavedRuleReadsBack(rule: ConsistencyRule)
    ensures FlagIsTrue(EncodeRule(rule).isActive) <==> rule.isActive
    ensures DecodeRule(EncodeRule(rule)) == Ok(rule)
  {
    assert Lower("true") == "true";
    assert Lower("false") == "false";
  }

  function EncodeAnalysis(c: AnalysisCache): AnalysisRow {
    AnalysisRow(c.id, c.documentId, c.contentHash, c.analysisResult, Rfc3339(c.createdAt))
  }

  function DecodeAnalysis(row: AnalysisRow): (r: Result<AnalysisCache, DbError>)
    ensures r.Ok? <==> row.createdAt.Rfc3339?
    ensures r.Ok? ==> EncodeAnalysis(r.value) == row
  {
    match ReadTime(row.createdAt, 4, "created_at")
    case Err(e) => Err(e)
    case Ok(created) => Ok(AnalysisCache(row.id, row.documentId, row.contentHash, row.analysisResult, created))
  }

  // ---------------------------------------------------------------- orders

  /** `ORDER BY updated_at DESC`: RFC 3339 text in UTC as `to_rfc3339` writes it sorts like
      the instants it denotes. */
  predicate NewerFirst(a: Document, b: Document) {
    NotAfter(b.updatedAt, a.updatedAt)
  }

  predicate ByPosition(a: SemanticTerm, b: SemanticTerm) {
    a.position <= b.position
  }

  /** SQLite's BINARY collation: code-point order, a prefix first. */
  predicate LexNotAfter(a: String, b: String) {
    a == [] || (b != [] && (a[0] < b[0] || (a[0] == b[0] && LexNotAfter(a[1..], b[1..]))))
  }

  lemma {:induction false} LexTotal(a: String, b: String)
    ensures LexNotAfter(a, b) || LexNotAfter(b, a)
  {
    if a != [] && b != [] && a[0] == b[0] { LexTotal(a[1..], b[1..]); }
  }

  lemma {:induction false} LexTransitive(a: String, b: String, c: String)
    requires LexNotAfter(a, b) && LexNotAfter(b, c)
    ensures LexNotAfter(a, c)
  {
    if a != [] && b != [] && c != [] && a[0] == b[0] && b[0] == c[0] {
      LexTransitive(a[1..], b[1..], c[1..]);
    }
  }

  predicate ByTerm(a: ConsistencyRule, b: ConsistencyRule) {
    LexNotAfter(a.term, b.term)
  }

  lemma OrdersArePreorders()
    ensures TotalPreorder(NewerFirst) && TotalPreorder(ByPosition) && TotalPreorder(ByTerm)
  {
    NotAfterIsTotalPreorder();
    forall a: ConsistencyRule, b: ConsistencyRule ensures ByTerm(a, b) || ByTerm(b, a) {
      LexTotal(a.term, b.term);
    }
    forall a: ConsistencyRule, b: ConsistencyRule, c: ConsistencyRule | ByTerm(a, b) && ByTerm(b, c)
      ensures ByTerm(a, c)
    {
      LexTransitive(a.term, b.term, c.term);
    }
  }

  // ---------------------------------------------------------------- queries

  /** The primary keys of the rows a `WHERE` clause keeps. */
  function Selected<R>(table: map<String, R>, keep: R -> bool): set<String> {
    set k | k in table && keep(table[k])
  }

  /** One more decoded row pushed into the values decoded so far keeps both directions of
      CollectSorted's invariant. */
  lemma CollectStep<R, T(!new)>(table: map<String, R>, decode: R -> Result<T, DbError>, done: set<String>,
                          acc: seq<T>, acc': seq<T>, k: String)
    requires k in table && decode(table[k]).Ok?
    requires forall y :: y in acc' <==> y == decode(table[k]).value || y in acc
    requires forall k' :: k' in done ==> k' in table && decode(table[k']).Ok? && decode(table[k']).value in acc
    requires forall x :: x in acc ==> exists k' :: k' in done && decode(table[k']) == Ok(x)
    ensures forall k' :: k' in done + {k} ==> decode(table[k']).Ok? && decode(table[k']).value in acc'
    ensures forall x :: x in acc' ==> exists k' :: k' in done + {k} && decode(table[k']) == Ok(x)
  {
    forall k' | k' in done + {k} ensures decode(table[k']).Ok? && decode(table[k']).value in acc' {
      if k' != k {
        assert decode(table[k']).value in acc;
      }
    }
    forall y | y in acc' ensures exists k' :: k' in done + {k} && decode(table[k']) == Ok(y) {
      if y !in acc {
        assert decode(table[k]) == Ok(y);
      }
    }
  }

  /** A `SELECT … WHERE keep ORDER BY le` whose rows are mapped by `decode` and pushed one by
      one; the first row that fails to map fails the query. Every kept row appears once. */
  method CollectSorted<R, T(!new)>(table: map<String, R>, keep: R -> bool,
                                   decode: R -> Result<T, DbError>, le: (T, T) -> bool)
    returns (r: Result<seq<T>, DbError>)
    requires TotalPreorder(le)
    ensures r.Ok? <==> forall k :: k in Selected(table, keep) ==> decode(table[k]).Ok?
    ensures r.Err? ==> exists k :: k in Selected(table, keep) && decode(table[k]) == Err(r.error)
    ensures r.Ok? ==> SortedBy(r.value, le) && |r.value| == |Selected(table, keep)|
    ensures r.Ok? ==> forall x :: x in r.value ==>
              exists k :: k in Selected(table, keep) && decode(table[k]) == Ok(x)
    ensures r.Ok? ==> forall k :: k in Selected(table, keep) ==> decode(table[k]).value in r.value
  {
    var rest := Selected(table, keep);
    var acc: seq<T> := [];
    ghost var done: set<String> := {};
    while rest != {}
      invariant rest <= Selected(table, keep) && done == Selected(table, keep) - rest
      invariant forall k :: k in done ==> decode(table[k]).Ok? && decode(table[k]).value in acc
      invariant forall x :: x in acc ==> exists k :: k in done && decode(table[k]) == Ok(x)
      invariant |acc| == |done|
      invariant SortedBy(acc, le)
      decreases |rest|
    {
      var k :| k in rest;
      match decode(table[k])
      case Err(e) =>
        return Err(e);
      case Ok(x) =>
        InsertBySorted(x, acc, le);
        InsertByMembers(x, acc, le);
        CollectStep(table, decode, done, acc, InsertBy(x, acc, le), k);
        acc := InsertBy(x, acc, le);
        assert k !in done && |done + {k}| == |done| + 1;
        assert Selected(table, keep) - (rest - {k}) == done + {k};
        done := done + {k};
        rest := rest - {k};
    }
    return Ok(acc);
  }

  /** The row `get_document` looks at, decoded; an absent id is `Ok(None)`, not an error. */
  function FindDocument(table: map<String, DocumentRow>, id: String): (r: Result<Option<Document>, DbError>)
    ensures id !in table ==> r == Ok(None)
    ensures id in table ==> r.Ok? == DecodeDocument(table[id]).Ok?
    ensures id in table && r.Ok? ==> r.value == Some(DecodeDocument(table[id]).value)
  {
    if id !in table then Ok(None)
    else
      match DecodeDocument(table[id])
      case Err(e) => Err(e)
      case Ok(d) => Ok(Some(d))
  }

  /** `save_document` followed by `get_document` gives the saved document back (a path of ""
      comes back as none); the other documents read as before. */
  lemma SaveThenFind(table: map<String, DocumentRow>, d: Document, other: String)
    requires other != d.id
    ensures FindDocument(table[d.id := EncodeDocument(d)], d.id)
              == Ok(Some(if d.filePath == Some("") then d.(filePath := None) else d))
    ensures FindDocument(table[d.id := EncodeDocument(d)], other) == FindDocument(table, other)
  {
  }

  /** `INSERT OR REPLACE` of each term, in order, keyed by the term's own id. */
  function UpsertTerms(table: map<String, TermRow>, ts: seq<SemanticTerm>): map<String, TermRow>
    decreases |ts|
  {
    if ts == [] then table
    else
      var last := ts[|ts| - 1];
      UpsertTerms(table, ts[..|ts| - 1])[last.id := EncodeTerm(last)]
  }

  /** A key that no saved term has keeps what it held. */
  lemma {:induction false} UpsertTermsUntouched(table: map<String, TermRow>, ts: seq<SemanticTerm>, k: String)
    requires forall j :: 0 <= j < |ts| ==> ts[j].id != k
    ensures k in UpsertTerms(table, ts) <==> k in table
    ensures k in table ==> UpsertTerms(table, ts)[k] == table[k]
    decreases |ts|
  {
    if ts != [] {
      UpsertTermsUntouched(table, ts[..|ts| - 1], k);
    }
  }

  /** The saved term that no later term overrides is what its id holds. */
  lemma {:induction false} UpsertTermsLast(table: map<String, TermRow>, ts: seq<SemanticTerm>, i: nat)
    requires i < |ts| && forall j :: i < j < |ts| ==> ts[j].id != ts[i].id
    ensures ts[i].id in UpsertTerms(table, ts) && UpsertTerms(table, ts)[ts[i].id] == EncodeTerm(ts[i])
    decreases |ts|
  {
    if i < |ts| - 1 {
      var init := ts[..|ts| - 1];
      assert init[i] == ts[i];
      UpsertTermsLast(table, init, i);
    }
  }

  /** Terms whose id is not among those saved are left in place; for each saved id the last
      term with that id is what the table holds. */
  lemma UpsertTermsContents(table: map<String, TermRow>, ts: seq<SemanticTerm>)
    ensures forall k :: (forall j :: 0 <= j < |ts| ==> ts[j].id != k) ==>
              (k in UpsertTerms(table, ts) <==> k in table)
              && (k in table ==> UpsertTerms(table, ts)[k] == table[k])
    ensures forall i :: 0 <= i < |ts| && (forall j :: i < j < |ts| ==> ts[j].id != ts[i].id) ==>
              ts[i].id in UpsertTerms(table, ts) && UpsertTerms(table, ts)[ts[i].id] == EncodeTerm(ts[i])
  {
    forall k | forall j :: 0 <= j < |ts| ==> ts[j].id != k
      ensures (k in UpsertTerms(table, ts) <==> k in table)
              && (k in table ==> UpsertTerms(table, ts)[k] == table[k])
    {
      UpsertTermsUntouched(table, ts, k);
    }
    forall i | 0 <= i < |ts| && (forall j :: i < j < |ts| ==> ts[j].id != ts[i].id)
      ensures ts[i].id in UpsertTerms(table, ts) && UpsertTerms(table, ts)[ts[i].id] == EncodeTerm(ts[i])
    {
      UpsertTermsLast(table, ts, i);
    }
  }

  /** The rows that a `DELETE … WHERE document_id = ?` for document `id` leaves, where
      `owner` reads a row's document. */
  function RowsOutside<R>(table: map<String, R>, owner: R -> String, id: String): (r: map<String, R>)
    ensures forall k :: k in r <==> k in table && owner(table[k]) != id
    ensures forall k :: k in r ==> r[k] == table[k]
  {
    map k | k in table && owner(table[k]) != id :: table[k]
  }

  function TermDocument(row: TermRow): String { row.documentId }

  function AnalysisDocument(row: AnalysisRow): String { row.documentId }

  // ---------------------------------------------------------------- the store

  class Database {
    var documents: map<String, DocumentRow>
    var terms: map<String, TermRow>
    var rules: map<String, RuleRow>
    var analyses: map<String, AnalysisRow>

    /** Every row sits under its own primary key, and `consistency_rules.term` is UNIQUE. */
    ghost predicate Valid()
      reads this
    {
      (forall k :: k in documents ==> documents[k].id == k)
      && (forall k :: k in terms ==> terms[k].id == k)
      && (forall k :: k in rules ==> rules[k].id == k)
      && (forall k :: k in analyses ==> analyses[k].id == k)
      && (forall a, b :: a in rules && b in rules && a != b ==> rules[a].term != rules[b].term)
    }

    constructor ()
      ensures Valid()
      ensures documents == map[] && terms == map[] && rules == map[] && analyses == map[]
    {
      documents, terms, rules, analyses := map[], map[], map[], map[];
    }

    /** save_document: `INSERT OR REPLACE` keyed on id; `fault` is the driver's error, if any. */
    method SaveDocument(d: Document, fault: Option<String>) returns (r: Result<(), DbError>)
      requires Valid()
      modifies this
      ensures Valid()
      ensures r.Ok? <==> fault.None?
      ensures fault.Some? ==> r == Err(Failed(fault.value)) && documents == old(documents)
      ensures fault.None? ==> documents == old(documents)[d.id := EncodeDocument(d)]
      ensures terms == old(terms) && rules == old(rules) && analyses == old(analyses)
    {
      if fault.Some? {
        return Err(Failed(fault.value));
      }
      documents := documents[d.id := EncodeDocument(d)];
      return Ok(());
    }

    /** get_document. */
    method GetDocument(id: String) returns (r: Result<Option<Document>, DbError>)
      ensures r == FindDocument(documents, id)
    {
      r := FindDocument(documents, id);
    }

    /** list_documents: every document, newest `updated_at` first; a row whose timestamps do
        not parse fails the listing. */
    method ListDocuments() returns (r: Result<seq<Document>, DbError>)
      requires Valid()
      ensures r.Ok? <==> forall k :: k in documents ==> DecodeDocument(documents[k]).Ok?
      ensures r.Ok? ==> SortedBy(r.value, NewerFirst) && |r.value| == |documents|
      ensures r.Ok? ==> forall d :: d in r.value ==> d.id in documents && DecodeDocument(documents[d.id]) == Ok(d)
      ensures r.Ok? ==> forall k :: k in documents ==> DecodeDocument(documents[k]).value in r.value
    {
      OrdersArePreorders();
      r := CollectSorted(documents, (row: DocumentRow) => true, DecodeDocument, NewerFirst);
      assert Selected(documents, (row: DocumentRow) => true) == documents.Keys;
      if r.Ok? {
        forall d | d in r.value ensures d.id in documents && DecodeDocument(documents[d.id]) == Ok(d) {
          var k :| k in documents && DecodeDocument(documents[k]) == Ok(d);
        }
      }
    }

    /** delete_document: the document's terms, then its cached analyses, then the document
        row, as three separate statements; `failAt` names the statement that fails, if any,
        and the statements before it stay done. */
    method DeleteDocument(id: String, failAt: Option<nat>) returns (r: Result<(), DbError>)
      requires Valid()
      requires failAt.None? || 1 <= failAt.value <= 3
      modifies this
      ensures Valid()
      ensures r.Ok? <==> failAt.None?
      ensures terms == if failAt == Some(1) then old(terms) else RowsOutside(old(terms), TermDocument, id)
      ensures analyses == if failAt == Some(1) || failAt == Some(2) then old(analyses)
                          else RowsOutside(old(analyses), AnalysisDocument, id)
      ensures documents == if failAt.None? then old(documents) - {id} else old(documents)
      ensures rules == old(rules)
    {
      if failAt == Some(1) { return Err(Failed("DELETE FROM semantic_terms")); }
      terms := RowsOutside(terms, TermDocument, id);
      if failAt == Some(2) { return Err(Failed("DELETE FROM analysis_cache")); }
      analyses := RowsOutside(analyses, AnalysisDocument, id);
      if failAt == Some(3) { return Err(Failed("DELETE FROM documents")); }
      documents := documents - {id};
      return Ok(());
    }

    /** save_semantic_terms: one transaction of upserts. The statements are numbered as
        they run: 0 opens the transaction, 1 to |ts| are the upserts in order and |ts| + 1
        is the commit; if statement `failAt` fails the transaction is dropped and nothing
        is written. */
    method SaveSemanticTerms(ts: seq<SemanticTerm>, failAt: Option<nat>) returns (r: Result<(), DbError>)
      requires Valid()
      requires failAt.None? || failAt.value <= |ts| + 1
      modifies this
      ensures Valid()
      ensures r.Ok? <==> failAt.None?
      ensures r.Err? ==> terms == old(terms)
      ensures r.Ok? ==> terms == UpsertTerms(old(terms), ts)
      ensures documents == old(documents) && rules == old(rules) && analyses == old(analyses)
    {
      if failAt == Some(0) {
        return Err(Failed("BEGIN"));
      }
      var staged := terms;
      var i := 0;
      while i < |ts|
        invariant 0 <= i <= |ts|
        invariant failAt.Some? ==> failAt.value > i
        invariant staged == UpsertTerms(terms, ts[..i])
        invariant forall k :: k in staged ==> staged[k].id == k
      {
        if failAt == Some(i + 1) {
          return Err(Failed("INSERT OR REPLACE INTO semantic_terms"));
        }
        assert ts[..i + 1][..i] == ts[..i];
        staged := staged[ts[i].id := EncodeTerm(ts[i])];
        i := i + 1;
      }
      assert ts[..i] == ts;
      if failAt.Some? {
        return Err(Failed("COMMIT"));
      }
      terms := staged;
      return Ok(());
    }

    /** get_semantic_terms: exactly the document's terms, by ascending position. */
    method GetSemanticTerms(documentId: String) returns (r: Result<seq<SemanticTerm>, DbError>)
      ensures r.Ok? <==> forall k :: k in terms && terms[k].documentId == documentId ==> terms[k].createdAt.Rfc3339?
      ensures r.Ok? ==> SortedBy(r.value, ByPosition)
      ensures r.Ok? ==> forall t :: t in r.value ==>
                t.documentId == documentId && exists k :: k in terms && DecodeTerm(terms[k]) == Ok(t)
      ensures r.Ok? ==> forall k :: k in terms && terms[k].documentId == documentId ==>
                DecodeTerm(terms[k]).value in r.value
      ensures r.Ok? ==> |r.value| == |set k | k in terms && terms[k].documentId == documentId|
    {
      OrdersArePreorders();
      var keep := (row: TermRow) => row.documentId == documentId;
      r := CollectSorted(terms, keep, DecodeTerm, ByPosition);
      assert Selected(terms, keep) == set k | k in terms && terms[k].documentId == documentId;
      if r.Ok? {
        forall t | t in r.value
          ensures t.documentId == documentId && exists k :: k in terms && DecodeTerm(terms[k]) == Ok(t)
        {
          var k :| k in Selected(terms, keep) && DecodeTerm(terms[k]) == Ok(t);
        }
      }
    }

    /** save_consistency_rule: `INSERT OR REPLACE`, which first removes any row with the same
        id or, through the UNIQUE constraint, the same term; `fault` is the driver's error,
        if any, and then nothing is written. */
    method SaveConsistencyRule(rule: ConsistencyRule, fault: Option<String>) returns (r: Result<(), DbError>)
      requires Valid()
      modifies this
      ensures Valid()
      ensures r.Ok? <==> fault.None?
      ensures fault.Some? ==> r == Err(Failed(fault.value)) && rules == old(rules)
      ensures fault.None? ==>
                rules == (map k | k in old(rules) && k != rule.id && old(rules)[k].term != rule.term
                            :: old(rules)[k])[rule.id := EncodeRule(rule)]
      ensures documents == old(documents) && terms == old(terms) && analyses == old(analyses)
    {
      if fault.Some? {
        return Err(Failed(fault.value));
      }
      r := Ok(());
      rules := (map k | k in rules && k != rule.id && rules[k].term != rule.term :: rules[k])[rule.id := EncodeRule(rule)];
    }

    /** get_consistency_rules as written: it can never yield a rule (see
        SelectedRuleRowsFailToDecode), only an empty list or an error. */
    method GetConsistencyRules() returns (r: Result<seq<ConsistencyRule>, DbError>)
      ensures r.Ok? ==> r.value == []
      ensures r.Ok? <==> forall k :: k in rules ==> !SelectedAsWritten(rules[k])
    {
      OrdersArePreorders();
      forall k | k in Selected(rules, SelectedAsWritten) ensures DecodeRuleAsWritten(rules[k]).Err? {
        SelectedRuleRowsFailToDecode(rules[k]);
      }
      r := CollectSorted(rules, SelectedAsWritten, DecodeRuleAsWritten, ByTerm);
      if r.Ok? {
        assert Selected(rules, SelectedAsWritten) == {};
      } else {
        var k :| k in Selected(rules, SelectedAsWritten) && DecodeRuleAsWritten(rules[k]) == Err(r.error);
      }
    }

    /** The rule query as intended: the active rules, by term, each read back as saved. */
    method GetActiveRules() returns (r: Result<seq<ConsistencyRule>, DbError>)
      ensures r.Ok? <==> forall k :: k in rules && FlagIsTrue(rules[k].isActive) ==> rules[k].createdAt.Rfc3339?
      ensures r.Ok? ==> SortedBy(r.value, ByTerm)
      ensures r.Ok? ==> forall x :: x in r.value ==> x.isActive && exists k :: k in rules && DecodeRule(rules[k]) == Ok(x)
      ensures r.Ok? ==> forall k :: k in rules && FlagIsTrue(rules[k].isActive) ==> DecodeRule(rules[k]).value in r.value
      ensures r.Ok? ==> |r.value| == |set k | k in rules && FlagIsTrue(rules[k].isActive)|
    {
      OrdersArePreorders();
      var keep := (row: RuleRow) => FlagIsTrue(row.isActive);
      r := CollectSorted(rules, keep, DecodeRule, ByTerm);
      assert Selected(rules, keep) == set k | k in rules && FlagIsTrue(rules[k].isActive);
      if r.Ok? {
        forall x | x in r.value
          ensures x.isActive && exists k :: k in rules && DecodeRule(rules[k]) == Ok(x)
        {
          var k :| k in Selected(rules, keep) && DecodeRule(rules[k]) == Ok(x);
        }
      }
    }

    /** save_analysis_cache: upsert keyed on id; `fault` is the driver's error, if any, and
        then nothing is written. */
    method SaveAnalysisCache(c: AnalysisCache, fault: Option<String>) returns (r: Result<(), DbError>)
      requires Valid()
      modifies this
      ensures Valid()
      ensures r.Ok? <==> fault.None?
      ensures fault.Some? ==> r == Err(Failed(fault.value)) && analyses == old(analyses)
      ensures fault.None? ==> analyses == old(analyses)[c.id := EncodeAnalysis(c)]
      ensures documents == old(documents) && terms == old(terms) && rules == old(rules)
    {
      if fault.Some? {
        return Err(Failed(fault.value));
      }
      r := Ok(());
      analyses := analyses[c.id := EncodeAnalysis(c)];
    }

    /** get_analysis_cache: the first row matching both the document and the content hash
        exactly, or none. */
    method GetAnalysisCache(documentId: String, contentHash: String)
      returns (r: Result<Option<AnalysisCache>, DbError>)
      ensures r == Ok(None) <==>
                forall k :: k in analyses ==> analyses[k].documentId != documentId || analyses[k].contentHash != contentHash
      ensures r.Ok? && r.value.Some? ==>
                r.value.value.documentId == documentId && r.value.value.contentHash == contentHash
                && exists k :: k in analyses && DecodeAnalysis(analyses[k]) == Ok(r.value.value)
      ensures r.Err? ==> exists k :: (k in analyses && analyses[k].documentId == documentId
                && analyses[k].contentHash == contentHash && DecodeAnalysis(analyses[k]) == Err(r.error))
    {
      if k :| k in analyses && analyses[k].documentId == documentId && analyses[k].contentHash == contentHash {
        match DecodeAnalysis(analyses[k])
        case Err(e) => r := Err(e);
        case Ok(c) => r := Ok(Some(c));
      } else {
        r := Ok(None);
      }
    }
  }
}
