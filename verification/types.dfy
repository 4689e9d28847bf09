/** The front end's shared records (src/types/index.ts). JavaScript numbers that only carry
    counts and offsets are integers here; scores are reals. */
module Types {
  import opened Wrappers
  import opened Text

  /** A `Date`: one parsed from text handed over by the back end, or an instant in
      milliseconds taken from the clock. */
  datatype Date = FromText(text: String) | Instant(ms: int)

  datatype DocumentFormat = Markdown | Txt | Docx | Html

  datatype DocumentMetadata = DocumentMetadata(wordCount: int, characterCount: nat,
                                               tags: seq<String>, language: String)

  datatype Document = Document(id: String, title: String, content: String, createdAt: Date,
                               updatedAt: Date, format: DocumentFormat,
                               metadata: DocumentMetadata)

  /** `Partial<Document>`: the fields a spread of updates overwrites. */
  datatype DocumentPatch = DocumentPatch(id: Option<String>, title: Option<String>,
                                         content: Option<String>, createdAt: Option<Date>,
                                         updatedAt: Option<Date>,
                                         format: Option<DocumentFormat>,
                                         metadata: Option<DocumentMetadata>)

  datatype TermPosition = TermPosition(start: int, end: int, line: int, column: int)

  datatype SemanticTerm = SemanticTerm(id: String, term: String, variants: seq<String>,
                                       category: String, context: seq<String>,
                                       frequency: nat, positions: seq<TermPosition>)

  datatype IssueType = Terminology | Style | Structure | Logic

  datatype Severity = Low | Medium | High

  datatype ConsistencyIssue = ConsistencyIssue(id: String, kind: IssueType, severity: Severity,
                                               message: String, position: TermPosition,
                                               suggestions: seq<String>,
                                               relatedTerms: seq<String>)

  datatype SuggestionType = Replace | Restructure | Clarify | Enhance

  datatype SuggestionSource = Semantic | Ai | User

  datatype Suggestion = Suggestion(id: String, kind: SuggestionType, title: String,
                                   description: String, originalText: String,
                                   suggestedText: String, confidence: real,
                                   source: SuggestionSource)

  datatype ProviderConfig = ProviderConfig(temperature: real, maxTokens: int,
                                           topP: Option<real>, frequencyPenalty: Option<real>,
                                           presencePenalty: Option<real>, timeout: int,
                                           retryAttempts: int)

  datatype ProviderType = OpenAi | Claude | Baidu | Alibaba | Zhipu | Custom

  datatype AIProvider = AIProvider(id: String, name: String, kind: ProviderType,
                                   apiKey: String, baseUrl: Option<String>, model: String,
                                   enabled: bool, config: ProviderConfig)

  datatype Theme = Light | Dark | Auto

  datatype AppSettings = AppSettings(theme: Theme, language: String, autoSave: bool,
                                     autoAnalysis: bool, aiEnabled: bool,
                                     notifications: bool, shortcuts: map<String, String>)
}
