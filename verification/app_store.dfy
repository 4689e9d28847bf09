/** The front end's application store (src/stores/appStore.ts). Each synchronous reducer is
    a function from the old state to the new one; the asynchronous actions that call the back
    end take the outcome of that call (and the clock) as parameters. */
module AppStore {
  import opened Wrappers
  import opened Text
  import opened Collections
  import opened Types

  /** The back end's document as it crosses the bridge (src/types/tauri.ts). */
  datatype TauriDocument = TauriDocument(id: String, title: String, content: String,
                                         filePath: Option<String>, createdAt: String,
                                         updatedAt: String, wordCount: int)

  datatype AppState = AppState(currentDocument: Option<Document>, documents: seq<Document>,
                               semanticTerms: seq<SemanticTerm>,
                               consistencyIssues: seq<ConsistencyIssue>,
                               suggestions: seq<Suggestion>, aiProviders: seq<AIProvider>,
                               activeAIProvider: Option<String>, isAnalyzing: bool,
                               settings: AppSettings)

  /** What `partialize` hands to local storage. */
  datatype PersistedState = PersistedState(aiProviders: seq<AIProvider>, settings: AppSettings)

  /** convertTauriDocument: the word count as the back end computed it, the character count
      as the UTF-16 length of the content, markdown format, no tags, language "en". */
  function ConvertTauriDocument(t: TauriDocument): (d: Document)
    ensures d.id == t.id && d.title == t.title && d.content == t.content
    ensures d.createdAt == FromText(t.createdAt) && d.updatedAt == FromText(t.updatedAt)
    ensures d.format == Markdown
    ensures d.metadata.wordCount == t.wordCount && d.metadata.characterCount == Utf16Len(t.content)
    ensures d.metadata.tags == [] && d.metadata.language == "en"
  {
    Document(t.id, t.title, t.content, FromText(t.createdAt), FromText(t.updatedAt), Markdown,
             DocumentMetadata(t.wordCount, Utf16Len(t.content), [], "en"))
  }

  /** `{ ...doc, ...updates }`. */
  function Merge(d: Document, p: DocumentPatch): (m: Document)
    ensures p.id.None? ==> m.id == d.id
    ensures p.content.Some? ==> m.content == p.content.value
    ensures p.content.None? ==> m.content == d.content
    ensures p.title.Some? ==> m.title == p.title.value
    ensures p.title.None? ==> m.title == d.title
  {
    Document(p.id.GetOr(d.id), p.title.GetOr(d.title), p.content.GetOr(d.content),
             p.createdAt.GetOr(d.createdAt), p.updatedAt.GetOr(d.updatedAt),
             p.format.GetOr(d.format), p.metadata.GetOr(d.metadata))
  }

  /** Merging the same updates twice is merging them once. */
  lemma MergeIdempotent(d: Document, p: DocumentPatch)
    ensures Merge(Merge(d, p), p) == Merge(d, p)
  {
  }

  /** addDocument: appends, leaving every existing document and the rest of the state as
      they were. */
  function AddDocument(s: AppState, d: Document): (r: AppState)
    ensures |r.documents| == |s.documents| + 1
    ensures r.documents[..|s.documents|] == s.documents && r.documents[|s.documents|] == d
    ensures r.(documents := s.documents) == s
  {
    s.(documents := s.documents + [d])
  }

  /** updateDocument: merges into every document with the id, and into the current document
      only when its id matches. */
  function UpdateDocument(s: AppState, id: String, p: DocumentPatch): (r: AppState)
    ensures |r.documents| == |s.documents|
    ensures forall i :: 0 <= i < |s.documents| ==>
              r.documents[i] == if s.documents[i].id == id then Merge(s.documents[i], p) else s.documents[i]
    ensures s.currentDocument.Some? && s.currentDocument.value.id == id ==>
              r.currentDocument == Some(Merge(s.currentDocument.value, p))
    ensures !(s.currentDocument.Some? && s.currentDocument.value.id == id) ==>
              r.currentDocument == s.currentDocument
    ensures r.(documents := s.documents, currentDocument := s.currentDocument) == s
  {
    s.(documents := seq(|s.documents|, i requires 0 <= i < |s.documents| =>
                         if s.documents[i].id == id then Merge(s.documents[i], p) else s.documents[i]),
       currentDocument := if s.currentDocument.Some? && s.currentDocument.value.id == id
                          then Some(Merge(s.currentDocument.value, p)) else s.currentDocument)
  }

  /** Applying the same updates twice has the effect of applying them once, as long as they
      keep the id. */
  lemma UpdateIdempotent(s: AppState, id: String, p: DocumentPatch)
    requires p.id.None? || p.id == Some(id)
    ensures UpdateDocument(UpdateDocument(s, id, p), id, p) == UpdateDocument(s, id, p)
  {
    var once := UpdateDocument(s, id, p);
    var twice := UpdateDocument(once, id, p);
    forall i | 0 <= i < |s.documents| ensures twice.documents[i] == once.documents[i] {
      MergeIdempotent(s.documents[i], p);
    }
    if s.currentDocument.Some? { MergeIdempotent(s.currentDocument.value, p); }
  }

  function LacksId(id: String): Document -> bool { (d: Document) => d.id != id }

  /** deleteDocument: keeps exactly the documents with another id, in order, and clears the
      current document if and only if it has the id. */
  function DeleteDocument(s: AppState, id: String): (r: AppState)
    ensures r.documents == Filter(s.documents, LacksId(id))
    ensures forall d :: d in r.documents <==> d in s.documents && d.id != id
    ensures r.currentDocument.None? <==> s.currentDocument.None? || s.currentDocument.value.id == id
    ensures r.currentDocument.Some? ==> r.currentDocument == s.currentDocument
    ensures r.(documents := s.documents, currentDocument := s.currentDocument) == s
  {
    s.(documents := Filter(s.documents, LacksId(id)),
       currentDocument := if s.currentDocument.Some? && s.currentDocument.value.id == id
                          then None else s.currentDocument)
  }

  /** Deleting what was just added leaves the list the delete alone would leave. */
  lemma DeleteAfterAdd(s: AppState, d: Document)
    ensures DeleteDocument(AddDocument(s, d), d.id).documents == DeleteDocument(s, d.id).documents
  {
    FilterAppend(s.documents, [d], LacksId(d.id));
    assert Filter([d], LacksId(d.id)) == [];
  }

  /** Deleting twice is deleting once. */
  lemma DeleteIdempotent(s: AppState, id: String)
    ensures DeleteDocument(DeleteDocument(s, id), id) == DeleteDocument(s, id)
  {
    FilterIdempotent(s.documents, LacksId(id));
  }

  /** The updates the local part of updateTauriDocument builds: a title when given; with
      content, the content, its non-empty whitespace-token count, its UTF-16 length, the
      current document's tags and language ("en" when that is empty), and a new `updatedAt`. */
  function LocalPatch(s: AppState, title: Option<String>, content: Option<String>, now: int)
    : (p: DocumentPatch)
    ensures p.id.None? && p.createdAt.None? && p.format.None?
    ensures p.title == title && p.content == content
    ensures p.updatedAt.Some? <==> content.Some?
    ensures p.metadata.Some? <==> content.Some?
    ensures content.Some? ==>
              p.updatedAt == Some(Instant(now))
              && p.metadata.value.wordCount == WordCount(content.value, IsJsSpace)
              && p.metadata.value.characterCount == Utf16Len(content.value)
              && p.metadata.value.tags == (if s.currentDocument.Some? then s.currentDocument.value.metadata.tags else [])
              && p.metadata.value.language == (if s.currentDocument.Some? && s.currentDocument.value.metadata.language != ""
                                               then s.currentDocument.value.metadata.language else "en")
  {
    match content
    case None => DocumentPatch(None, title, None, None, None, None, None)
    case Some(c) =>
      var tags := if s.currentDocument.Some? then s.currentDocument.value.metadata.tags else [];
      var language := if s.currentDocument.Some? && s.currentDocument.value.metadata.language != ""
                      then s.currentDocument.value.metadata.language else "en";
      DocumentPatch(None, title, Some(c), None, Some(Instant(now)), None,
                    Some(DocumentMetadata(WordCount(c, IsJsSpace), Utf16Len(c), tags, language)))
  }

  /** The local part of updateTauriDocument, run once the back end has accepted the update. */
  function UpdateTauriDocumentLocal(s: AppState, id: String, title: Option<String>,
                                    content: Option<String>, now: int): (r: AppState)
    ensures |r.documents| == |s.documents|
    ensures forall i :: 0 <= i < |s.documents| && s.documents[i].id == id ==>
              r.documents[i].id == id
              && r.documents[i].content == (if content.Some? then content.value else s.documents[i].content)
              && r.documents[i].title == (if title.Some? then title.value else s.documents[i].title)
              && (content.Some? ==> r.documents[i].metadata.wordCount == WordCount(content.value, IsJsSpace)
                                    && r.documents[i].updatedAt == Instant(now))
              && (content.None? ==> r.documents[i].updatedAt == s.documents[i].updatedAt
                                    && r.documents[i].metadata == s.documents[i].metadata)
    ensures forall i :: 0 <= i < |s.documents| && s.documents[i].id != id ==> r.documents[i] == s.documents[i]
  {
    UpdateDocument(s, id, LocalPatch(s, title, content, now))
  }

  /** The first suggestion with the id, if any (`suggestions.find`). */
  function FindSuggestion(ss: seq<Suggestion>, id: String): (r: Option<Suggestion>)
    ensures r.Some? ==> r.value in ss && r.value.id == id
    ensures r.Some? ==> exists i :: 0 <= i < |ss| && ss[i] == r.value
                                   && forall j :: 0 <= j < i ==> ss[j].id != id
    ensures r.None? ==> forall x :: x in ss ==> x.id != id
  {
    if ss == [] then None
    else if ss[0].id == id then Some(ss[0])
    else
      var r := FindSuggestion(ss[1..], id);
      assert r.Some? ==> exists i :: 0 < i < |ss| && ss[i] == r.value
                                     && forall j :: 0 <= j < i ==> ss[j].id != id by {
        if r.Some? {
          var i :| 0 <= i < |ss[1..]| && ss[1..][i] == r.value && forall j :: 0 <= j < i ==> ss[1..][j].id != id;
          assert ss[i + 1] == r.value;
          assert forall j :: 0 < j < i + 1 ==> ss[j] == ss[1..][j - 1];
        }
      }
      r
  }

  function OtherSuggestion(id: String): Suggestion -> bool { (x: Suggestion) => x.id != id }

  /** applySuggestion: with the suggestion found and a current document, the first
      occurrence of its original text in the current content is replaced and the update is
      sent; if the back end rejects it (`backendFails`) nothing changes and the suggestion
      stays. In every other case the suggestion is removed. */
  function ApplySuggestion(s: AppState, id: String, backendFails: bool, now: int): (r: AppState)
    ensures var found := FindSuggestion(s.suggestions, id);
            found.Some? && s.currentDocument.Some? && backendFails ==> r == s
    ensures var found := FindSuggestion(s.suggestions, id);
            !(found.Some? && s.currentDocument.Some? && backendFails) ==>
              r.suggestions == Filter(s.suggestions, OtherSuggestion(id))
              && forall x :: x in r.suggestions <==> x in s.suggestions && x.id != id
    ensures var found := FindSuggestion(s.suggestions, id);
            found.Some? && s.currentDocument.Some? && !backendFails ==>
              var cur := s.currentDocument.value;
              r.currentDocument.Some?
              && r.currentDocument.value.id == cur.id
              && r.currentDocument.value.content
                 == ReplaceFirst(cur.content, found.value.originalText, found.value.suggestedText)
    ensures FindSuggestion(s.suggestions, id).None? || s.currentDocument.None? ==>
              r.documents == s.documents && r.currentDocument == s.currentDocument
  {
    var found := FindSuggestion(s.suggestions, id);
    if found.Some? && s.currentDocument.Some? then
      var cur := s.currentDocument.value;
      var updated := ReplaceFirst(cur.content, found.value.originalText, found.value.suggestedText);
      if backendFails then s
      else
        var s1 := UpdateTauriDocumentLocal(s, cur.id, None, Some(updated), now);
        s1.(suggestions := Filter(s1.suggestions, OtherSuggestion(id)))
    else
      s.(suggestions := Filter(s.suggestions, OtherSuggestion(id)))
  }

  /** With a replacement free of '$', applying a suggestion whose original text occurs at
      index i splices the suggested text in at i. */
  lemma ApplySuggestionSplices(s: AppState, id: String, now: int)
    requires FindSuggestion(s.suggestions, id).Some? && s.currentDocument.Some?
    requires var x := FindSuggestion(s.suggestions, id).value;
             (forall i :: 0 <= i < |x.suggestedText| ==> x.suggestedText[i] != '$')
             && IndexOf(s.currentDocument.value.content, x.originalText).Some?
    ensures var x := FindSuggestion(s.suggestions, id).value;
            var c := s.currentDocument.value.content;
            var i := IndexOf(c, x.originalText).value;
            ApplySuggestion(s, id, false, now).currentDocument.value.content
              == c[..i] + x.suggestedText + c[i + |x.originalText|..]
  {
    var x := FindSuggestion(s.suggestions, id).value;
    ReplaceFirstWithoutDollar(s.currentDocument.value.content, x.originalText, x.suggestedText);
  }

  function OtherIssue(id: String): ConsistencyIssue -> bool { (x: ConsistencyIssue) => x.id != id }

  /** resolveConsistencyIssue: removes exactly the issues with the id. */
  function ResolveConsistencyIssue(s: AppState, id: String): (r: AppState)
    ensures forall x :: x in r.consistencyIssues <==> x in s.consistencyIssues && x.id != id
    ensures |r.consistencyIssues| <= |s.consistencyIssues|
    ensures r.(consistencyIssues := s.consistencyIssues) == s
  {
    s.(consistencyIssues := Filter(s.consistencyIssues, OtherIssue(id)))
  }

  /** dismissSuggestion: removes exactly the suggestions with the id. */
  function DismissSuggestion(s: AppState, id: String): (r: AppState)
    ensures forall x :: x in r.suggestions <==> x in s.suggestions && x.id != id
    ensures |r.suggestions| <= |s.suggestions|
    ensures r.(suggestions := s.suggestions) == s
  {
    s.(suggestions := Filter(s.suggestions, OtherSuggestion(id)))
  }

  /** Dismissing an unknown id changes nothing. */
  lemma DismissUnknown(s: AppState, id: String)
    requires forall x :: x in s.suggestions ==> x.id != id
    ensures DismissSuggestion(s, id) == s
  {
    FilterKeepsAll(s.suggestions, OtherSuggestion(id));
  }

  function OtherProvider(id: String): AIProvider -> bool { (x: AIProvider) => x.id != id }

  /** deleteAIProvider: removes exactly the providers with the id, and clears the active
      provider if and only if it was that id. */
  function DeleteAIProvider(s: AppState, id: String): (r: AppState)
    ensures forall x :: x in r.aiProviders <==> x in s.aiProviders && x.id != id
    ensures r.activeAIProvider.None? <==> s.activeAIProvider.None? || s.activeAIProvider == Some(id)
    ensures r.activeAIProvider.Some? ==> r.activeAIProvider == s.activeAIProvider
    ensures r.(aiProviders := s.aiProviders, activeAIProvider := s.activeAIProvider) == s
  {
    s.(aiProviders := Filter(s.aiProviders, OtherProvider(id)),
       activeAIProvider := if s.activeAIProvider == Some(id) then None else s.activeAIProvider)
  }

  /** partialize: the providers with their keys blanked, and the settings. */
  function Partialize(s: AppState): (r: PersistedState)
    ensures |r.aiProviders| == |s.aiProviders|
    ensures forall i :: 0 <= i < |r.aiProviders| ==>
              r.aiProviders[i].apiKey == "" && r.aiProviders[i].(apiKey := s.aiProviders[i].apiKey) == s.aiProviders[i]
    ensures r.settings == s.settings
  {
    PersistedState(seq(|s.aiProviders|, i requires 0 <= i < |s.aiProviders| => s.aiProviders[i].(apiKey := "")),
                   s.settings)
  }

  /** No key survives persisting: whatever state is persisted, persisting what came back
      again gives the same thing. */
  lemma PartializeStable(s: AppState)
    ensures Partialize(s.(aiProviders := Partialize(s).aiProviders)) == Partialize(s)
  {
  }
}
