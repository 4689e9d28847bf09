# A verified model of a local document editor's storage layer and text modules

The application is a desktop document editor. Its Rust back end keeps documents, extracted
semantic terms, terminology rules and cached analysis results in a SQLite database. It puts an
in-memory document cache in front of that database and writes export and backup files to disk.
Its TypeScript front end holds the editor state in a store. It runs a set of text modules over
document content: term extraction and consistency checking, collaboration sessions, templates,
grammar checking, summarisation, text generation, SEO analysis, translation, and keyboard
shortcut matching.

This project models the core of both halves in Dafny and proves what each operation promises.
Each core source file has a module of its own. The translation module's built-in tables sit in
`Dictionaries`. Helpers that several files share (`Text`, `Collections`, `Grouping`, `Sorting`,
`Chrono`, `Types`, `Wrappers`) have modules of their own.

**Back end**
- `Database` models the four tables. Each table is a map keyed by the column the SQL upserts on, and the readers' row-collecting loops and their `ORDER BY` are included. Timestamps round-trip through their RFC 3339 text (section 5.6 of RFC 3339), and a parse failure on read is an error (`Chrono`, `Sorting`).
- `FileHandling` models the file store as a path → text map. Its formats are written out: the markdown export, the backup name and body, and restore by delimiter search. It proves the backup/restore round trip.
- `Storage` models `StorageService` as a class with the database, the file handler and the document cache as fields. Every method keeps the invariant that each cached document equals the stored one, so a read through the cache returns what the database holds.

**Front end**
- `AppStore` holds the store reducers.
- `Nlp`, `TermExtraction`, `Grouping` and `Semantics` hold the text utilities and the semantic engine.
- `Collaboration`, `Templates`, `GrammarCheck`, `Summarization`, `TextGeneration`, `Seo`, `Translation` with `Dictionaries`, and `Shortcuts` hold the modules and the shortcut hook.
- `Text` and `Collections` hold the string and list helpers that those modules share. `Types` holds the shared records.

**Inputs passed in as parameters**
- Clocks (`Utc::now`, `Date.now`), UUIDs and `Math.random` become parameters.
- Regular-expression matches become inputs. Examples are the term extractor's patterns, grammar rule matches, keyword tests and the translation style chains.
- Network replies (OpenAI, the Tauri `invoke` bridge) become `Option` parameters.
- Failures of the database and file system become fault parameters.

**Numbers and strings**
- Integers are unbounded. Where the source wraps to 32 bits, as in the semantic engine's string hash, the wrap-around is written out.
- JavaScript floating-point results are modelled as exact reals or integers. Only their clamps and bucket boundaries are stated.

## Model

| member | source | states |
|---|---|---|
| Database.ReadTime | src-tauri/src/database.rs:175-180 | a timestamp column reads back as the instant written exactly when it is RFC 3339 text; otherwise the error names the column's index and name |
| Database.DecodeDocument | src-tauri/src/database.rs:162-183 | a document row decodes exactly when both timestamps parse, the first bad timestamp decides the error, an empty path reads as none, and a decoded document re-encodes to the same row |
| Database.DocumentRoundTrip | src-tauri/src/database.rs:136-183 | a saved document reads back as saved exactly when its path is not the empty string, which reads back as no path |
| Database.DecodeTerm | src-tauri/src/database.rs:264-279 | a term row decodes exactly when its creation time parses, and re-encodes to the same row |
| Database.SelectedRuleRowsFailToDecode | src-tauri/src/database.rs:305-325 | every row the `is_active = 1` filter selects holds an integer flag, which the row mapping's String read rejects |
| Database.SavedRuleNeverSelected | src-tauri/src/database.rs:288-309 | a rule saved with its flag written as the text "true" is never selected by `is_active = 1` |
| Database.DecodeRule | src-tauri/src/database.rs:311-325 | (corrected) a rule row decodes exactly when its creation time parses, with the flag meaning true for 1 or any casing of "true" |
| Database.SavedRuleReadsBack | src-tauri/src/database.rs:288-325 | (corrected) a saved rule's flag is read as true exactly when the rule is active, and the rule reads back unchanged |
| Database.DecodeAnalysis | src-tauri/src/database.rs:357-368 | an analysis row decodes exactly when its creation time parses, and re-encodes to the same row |
| Database.LexTotal | src-tauri/src/database.rs:190-191 | the text order `ORDER BY` uses is total |
| Database.LexTransitive | src-tauri/src/database.rs:190-191 | the text order `ORDER BY` uses is transitive |
| Database.OrdersArePreorders | src-tauri/src/database.rs:190-191 | newest-first, by-position and by-term orders are total preorders |
| Database.CollectSorted | src-tauri/src/database.rs:209-220 | a query that pushes each mapped row fails exactly when some selected row fails to map (with that row's error); otherwise it yields every selected row once, mapped, in the ORDER BY order |
| Database.FindDocument | src-tauri/src/database.rs:154-186 | an absent id gives no document rather than an error; a present one gives its decoded row or its decoding error |
| Database.SaveThenFind | src-tauri/src/database.rs:136-186 | after saving a document, looking it up gives it back (an empty path as none) and every other id gives what it gave before |
| Database.UpsertTermsContents | src-tauri/src/database.rs:234-256 | after the upserts every term not among those saved is unchanged, and each saved id holds the last term saved with that id |
| Database.UpsertTermsUntouched | src-tauri/src/database.rs:234-256 | an id that none of the saved terms carries keeps its row |
| Database.UpsertTermsLast | src-tauri/src/database.rs:234-256 | the id of a saved term holds the last term saved under it |
| Database.Database.constructor | src-tauri/src/database.rs:53-58 | a new database has four empty tables |
| Database.Database.SaveDocument | src-tauri/src/database.rs:136-152 | INSERT OR REPLACE of the encoded document under its id, or the driver's error with nothing changed; other tables untouched |
| Database.Database.GetDocument | src-tauri/src/database.rs:154-186 | the lookup is FindDocument on the documents table |
| Database.Database.ListDocuments | src-tauri/src/database.rs:188-221 | fails exactly when some row does not decode; otherwise every document exactly once, sorted newest `updated_at` first |
| Database.Database.DeleteDocument | src-tauri/src/database.rs:223-232 | the document's terms, then its cached analyses, then the document are removed; a failing statement stops the sequence and leaves the earlier deletions in place |
| Database.RowsOutside | src-tauri/src/database.rs:225-227 | the rows a `DELETE … WHERE document_id = ?` leaves: exactly those whose owning document is another one, each unchanged |
| Database.Database.SaveSemanticTerms | src-tauri/src/database.rs:234-256 | all upserts in one transaction: opening it, any upsert or the commit can fail, and then nothing is written; otherwise the table is the upserts applied in order |
| Database.Database.GetSemanticTerms | src-tauri/src/database.rs:258-286 | fails exactly when one of the document's rows has an unreadable creation time; otherwise lists every one of the document's terms, decoded, and nothing else, as many as the document has rows, by ascending position |
| Database.Database.SaveConsistencyRule | src-tauri/src/database.rs:288-303 | a failing statement gives its error and leaves the table as it was; otherwise INSERT OR REPLACE removes every row sharing the id or the UNIQUE term and inserts the encoded rule; the other tables are untouched |
| Database.Database.GetConsistencyRules | src-tauri/src/database.rs:305-333 | the query as written never yields a rule: it either fails or gives the empty list |
| Database.Database.GetActiveRules | src-tauri/src/database.rs:305-333 | (corrected) fails exactly when a selected row has an unreadable creation time; otherwise lists every rule whose flag reads as true, as saved and nothing else, as many as there are such rows, by term |
| Database.Database.SaveAnalysisCache | src-tauri/src/database.rs:335-349 | a failing statement gives its error and leaves the table as it was; otherwise the encoded analysis is upserted under its id; the other tables are untouched |
| Database.Database.GetAnalysisCache | src-tauri/src/database.rs:351-374 | none exactly when no row matches both the document and the content hash; otherwise a matching row decoded, or its decoding error |
| FileHandling.FileName | src-tauri/src/file_handler.rs:92-95 | a file name, when there is one, is non-empty, is neither "." nor ".." and holds no path separator |
| FileHandling.FileNameSkipsCurDir | src-tauri/src/file_handler.rs:92-95 | as with `Path::file_name`, a trailing "." component (with or without a separator after it) is skipped, so "a/." is named "a" |
| FileHandling.ImportedDocument | src-tauri/src/file_handler.rs:112-145 | an imported document keeps the file's content and path, is created and updated at the same instant, is titled by the file stem ("Untitled" without one) and counts whitespace-separated words |
| FileHandling.ExportText | src-tauri/src/file_handler.rs:164-172 | a .md or .markdown export is a level-one heading with the title, a blank line and the content; any other extension writes the content alone |
| FileHandling.BackupFileNameFacts | src-tauri/src/file_handler.rs:176-181 | a backup file name holds no '/' and ends in ".backup.md" |
| FileHandling.RestoredContent | src-tauri/src/file_handler.rs:206-212 | the content after the first "---\n\n" when that occurs past the start, otherwise the whole text |
| FileHandling.RestoredTitle | src-tauri/src/file_handler.rs:214-221 | a restored title holds no underscore |
| FileHandling.RestoredDocument | src-tauri/src/file_handler.rs:202-234 | a restored document has the restored content and title, no path, equal creation and update instants and the content's word count |
| FileHandling.HeaderHasNoDelimiter | src-tauri/src/file_handler.rs:183-189 | the backup header holds no "---\n\n" when the title holds none |
| FileHandling.HeaderValuesHaveNoDelimiter | src-tauri/src/file_handler.rs:185-189 | the two timestamps and the word count the header shows hold no "---\n\n", and the count ends in a digit |
| FileHandling.FirstDelimiterAfter | src-tauri/src/file_handler.rs:206 | the first delimiter of header + delimiter + rest is the one right after a delimiter-free header |
| FileHandling.BackupRestoreRoundTrip | src-tauri/src/file_handler.rs:176-212 | restoring a backup body gives back the document's content whenever the title holds no delimiter |
| FileHandling.DelimiterInTitleBreaksRoundTrip | src-tauri/src/file_handler.rs:176-212 | a title that is the delimiter itself makes the restored content differ from the original |
| FileHandling.FileHandler.constructor | src-tauri/src/file_handler.rs:30-39 | a handler over the given data directory and an empty file system |
| FileHandling.FileHandler.ReadFileContent | src-tauri/src/file_handler.rs:69-71 | the file's text, or "Failed to read file: " and the system's message for a missing file |
| FileHandling.FileHandler.WriteFileContent | src-tauri/src/file_handler.rs:73-80 | the file holds the content afterwards unless the system refuses, in which case nothing changes |
| FileHandling.FileHandler.ImportDocument | src-tauri/src/file_handler.rs:112-162 | a missing file is an error; otherwise the imported document is saved and the result reports success with its id, or failure with the store's message |
| FileHandling.FileHandler.ExportDocument | src-tauri/src/file_handler.rs:164-174 | the export path holds ExportText afterwards unless the write fails |
| FileHandling.FileHandler.CreateBackup | src-tauri/src/file_handler.rs:176-195 | the backup body is written under the backups directory and its path returned, unless the write fails |
| FileHandling.FileHandler.RestoreFromBackup | src-tauri/src/file_handler.rs:202-248 | a missing file is an error; otherwise the restored document is saved and the result reports success with its id, or failure with the store's message |
| FileHandling.BackupThenRestoreContent | src-tauri/src/file_handler.rs:176-248 | a backup written by CreateBackup and read back by RestoreFromBackup restores the document's content |
| Storage.DefaultConfig | src-tauri/src/storage.rs:19-28 | the default configuration: autosave every 30 seconds, 10 backups, a 100 MB cache limit, with the application directory filled in as `new` does |
| Storage.NewDocument | src-tauri/src/storage.rs:60-83 | a created document has the given id, title and content, no path, equal creation and update instants and the content's word count |
| Storage.UpdatedDocument | src-tauri/src/storage.rs:85-111 | an update keeps the id, path and creation instant, replaces the title or content only when one is given, recounts words only for new content and stamps the update instant |
| Storage.StoreView | src-tauri/src/storage.rs:113-134 | what a reader sees for an id is the store's lookup, with the driver's error as a message |
| Storage.I32AsUsize | src-tauri/src/storage.rs:265 | `word_count as usize` keeps a non-negative count and wraps a negative one modulo 2^64 |
| Storage.TotalWords | src-tauri/src/storage.rs:266 | the total word count is non-negative when every count is a non-negative 32-bit value |
| Storage.TotalBytes | src-tauri/src/storage.rs:267 | the total byte count is at least each document's UTF-8 length |
| Storage.ContentHashFaithful | src-tauri/src/storage.rs:251-258 | two contents get the same hash text exactly when the hasher gives them the same value |
| Storage.StorageService.constructor | src-tauri/src/storage.rs:39-57 | a fresh service over an empty store and file system, an empty cache and the default configuration for the data directory |
| Storage.StorageService.CreateDocument | src-tauri/src/storage.rs:60-83 | the new document is saved and cached under its id and the id returned; a store failure is an error with the store and cache unchanged |
| Storage.StorageService.UpdateDocument | src-tauri/src/storage.rs:85-111 | a missing document is "Document not found" and a store error is passed on, changing nothing; otherwise the updated record is saved and replaces the cached one |
| Storage.StorageService.GetDocument | src-tauri/src/storage.rs:113-134 | the result always equals the store's own view; a cached record is returned without a store read, a miss that finds a record caches it |
| Storage.StorageService.ListDocuments | src-tauri/src/storage.rs:136-140 | fails exactly when a stored row does not decode; otherwise lists every stored document once, decoded, and nothing else, newest first |
| Storage.StorageService.DeleteDocument | src-tauri/src/storage.rs:142-159 | a backup of the stored record is attempted and its failure ignored; the record, the document's terms and its analyses go from the store and the cache and every other row stays, or nothing is removed past the failing statement; the rules and the configuration are unchanged |
| Storage.StorageService.BackupStored | src-tauri/src/storage.rs:145-148 | the backup delete_document attempts writes the stored record's backup exactly when the record is found and the write succeeds; otherwise the files are as they were |
| Storage.StorageService.ImportDocument | src-tauri/src/storage.rs:161-164 | a missing file is an error; otherwise the imported document is stored under the fresh id, or a store fault gives success=false with "Failed to save document: " and the store's message and stores nothing; the terms, rules, analyses and cache are untouched |
| Storage.StorageService.RestoreFromBackup | src-tauri/src/storage.rs:224-228 | a missing file is an error; otherwise the restored document is stored under the fresh id, or a store fault gives success=false with "Failed to restore document: " and the store's message and stores nothing; the terms, rules, analyses and cache are untouched |
| Storage.StorageService.ExportDocument | src-tauri/src/storage.rs:166-172 | the document as the store sees it is exported; a missing document is "Document not found" and writes nothing; the lookup goes through get_document, so a record read from the store on a cache miss is cached and a hit or a failed read leaves the cache alone |
| Storage.StorageService.CreateBackup | src-tauri/src/storage.rs:213-218 | the document as the store sees it is backed up; a missing document is "Document not found" and writes nothing; the lookup goes through get_document, so a record read from the store on a cache miss is cached and a hit or a failed read leaves the cache alone |
| Storage.StorageService.ClearDocumentCache | src-tauri/src/storage.rs:239-243 | the cache is emptied and nothing else changes |
| Storage.StorageService.GetCacheSize | src-tauri/src/storage.rs:245-248 | the number of cached documents |
| Storage.StorageService.GetStorageStats | src-tauri/src/storage.rs:260-279 | fails exactly when a stored row does not decode; otherwise the document count, the cache count (never more than the document count), the word and byte totals over every stored document, decoded, and the two paths |
| Storage.CacheWithinStore | src-tauri/src/storage.rs:113-134 | a coherent cache holds no more documents than the store |
| Chrono.NotAfterIsTotalPreorder | src-tauri/src/database.rs:191 | the order of update times that listing sorts by is total and transitive |
| Chrono.Padded | src-tauri/src/file_handler.rs:180 | a padded field is all digits and at least as wide as asked |
| Chrono.HumanText | src-tauri/src/file_handler.rs:187-188 | the human-readable timestamp is non-empty and ends with the "UTC" suffix |
| Chrono.FormatsHaveNoLineBreak | src-tauri/src/file_handler.rs:180-188 | neither timestamp format writes a line break, so a backup header line stays one line |
| Chrono.StampAvoids | src-tauri/src/file_handler.rs:180 | the file-name stamp holds only digits and one "_", so no other character (a "/" say) appears in it |
| Chrono.HumanAvoids | src-tauri/src/file_handler.rs:187-188 | the header timestamp holds only digits, "-", " ", ":" and "UTC" |
| Sorting.InsertBy | src-tauri/src/database.rs:191 | placing one more row into the ordered result keeps every row and adds that one |
| Sorting.InsertByMembers | src-tauri/src/database.rs:191 | the ordered result holds exactly the earlier rows and the new one |
| Sorting.InsertBySorted | src-tauri/src/database.rs:191 | placing a row keeps the result ordered |
| AppStore.ConvertTauriDocument | src/stores/appStore.ts:83-96 | the converted document keeps id, title and content, parses both timestamps, is markdown, keeps the back end's word count, counts UTF-16 code units as characters, and has no tags and language "en" |
| AppStore.Merge | src/stores/appStore.ts:125-130 | a field given in the updates replaces the document's, any other is kept |
| AppStore.MergeIdempotent | src/stores/appStore.ts:125-130 | merging the same updates twice is merging them once |
| AppStore.AddDocument | src/stores/appStore.ts:118-121 | the document is appended after the unchanged existing ones; nothing else in the state changes |
| AppStore.UpdateDocument | src/stores/appStore.ts:123-131 | every document with the id, and the current document when it has the id, receive the updates; the others and the rest of the state are unchanged |
| AppStore.UpdateIdempotent | src/stores/appStore.ts:123-131 | updating twice with the same updates equals updating once, when the updates do not change the id |
| AppStore.DeleteDocument | src/stores/appStore.ts:133-139 | exactly the documents with another id remain, in order; the current document is cleared exactly when it had the id |
| AppStore.DeleteAfterAdd | src/stores/appStore.ts:118-139 | deleting a just-added document's id leaves the list the delete alone would leave |
| AppStore.DeleteIdempotent | src/stores/appStore.ts:133-139 | deleting twice is deleting once |
| AppStore.LocalPatch | src/stores/appStore.ts:170-181 | the updates hold the title when given; new content brings its word and UTF-16 character counts, the current document's tags and language (or none and "en") and a new update time |
| AppStore.UpdateTauriDocumentLocal | src/stores/appStore.ts:166-188 | after the back end accepts, every document with the id receives the local updates and the others are unchanged |
| AppStore.FindSuggestion | src/stores/appStore.ts:327 | the suggestion found has the id and is the first in the list that has it; none means no suggestion has it |
| AppStore.ApplySuggestion | src/stores/appStore.ts:326-348 | with the suggestion and a current document, the first occurrence of its original text is replaced in the current content and the suggestion removed; a back-end rejection changes nothing; without either, only the suggestion is removed |
| AppStore.ApplySuggestionSplices | src/stores/appStore.ts:329-332 | with a replacement free of '$', the suggested text is spliced in at the first occurrence of the original text |
| AppStore.ResolveConsistencyIssue | src/stores/appStore.ts:312-315 | exactly the issues with another id remain; nothing else changes |
| AppStore.DismissSuggestion | src/stores/appStore.ts:350-353 | exactly the suggestions with another id remain; nothing else changes |
| AppStore.DismissUnknown | src/stores/appStore.ts:350-353 | dismissing an id no suggestion has changes nothing |
| AppStore.DeleteAIProvider | src/stores/appStore.ts:371-375 | exactly the providers with another id remain; the active provider is cleared exactly when it was that id |
| AppStore.Partialize | src/stores/appStore.ts:446-452 | every persisted provider is the provider with its key blanked, and the settings are persisted as they are |
| AppStore.PartializeStable | src/stores/appStore.ts:446-452 | persisting what was persisted gives the same thing: no key survives |
| Nlp.NormalizeTerm | src/utils/nlp.ts:5-11 | a normalised term holds only lower-case word characters, hyphens and single spaces, never two spaces in a row |
| Nlp.Singularize | src/utils/nlp.ts:53-64 | "…ies" becomes "…y", otherwise a final "es" is dropped, otherwise a final "s" not part of "ss" is dropped, otherwise the word is kept |
| Nlp.SingularizeRegularPlural | src/utils/nlp.ts:53-64 | a word not ending in "s" or "e", pluralised with "s", singularises back to itself |
| Nlp.SingularizeIesPlural | src/utils/nlp.ts:53-64 | any word pluralised with "ies" singularises to the word with "y" |
| Nlp.LevenshteinDistance | src/utils/nlp.ts:81-100 | filling the matrix row by row yields the edit distance defined by recursion on prefixes |
| Nlp.FillRow | src/utils/nlp.ts:88-95 | the inner loop fills row j with the edit distances of the prefixes, leaving the rows below it untouched at their first cell |
| Nlp.DistSymmetric | src/utils/nlp.ts:81-100 | the distance between prefixes does not depend on their order |
| Nlp.DistBound | src/utils/nlp.ts:81-100 | the distance never exceeds the longer prefix |
| Nlp.DistAtLeastLengthGap | src/utils/nlp.ts:81-100 | the distance is at least the difference in length |
| Nlp.DistZeroMeansEqual | src/utils/nlp.ts:81-100 | distance zero means equal prefixes |
| Nlp.LevenshteinProperties | src/utils/nlp.ts:81-100 | the distance is zero exactly for equal texts, the other's length from an empty text, symmetric and at most the longer length |
| Nlp.StringSimilarity | src/utils/nlp.ts:69-76 | the similarity lies in [0, 1] and is 1 exactly for equal texts |
| Nlp.SimilaritySymmetric | src/utils/nlp.ts:69-76 | the similarity does not depend on the order of the texts |
| Nlp.AreTermsSimilarProperties | src/utils/nlp.ts:16-48 | terms with equal normalised forms are similar, and similarity does not depend on the order of the terms |
| Nlp.Tokenize | src/utils/nlp.ts:118-123 | every token is longer than two characters and made of word characters only |
| Nlp.DetectLanguage | src/utils/nlp.ts:179-196 | "zh" exactly when a character lies in U+4E00–U+9FFF; "en" exactly when there is none and more than a tenth of the tokens are listed English words |
| TermExtraction.OnlyStopWordsContainsStopWords | src/utils/termExtractor.ts:195-209 | a term made only of stop words contains a stop word, because splitting never gives an empty list |
| TermExtraction.HyphenatedIsTechnical | src/utils/termExtractor.ts:219-229 | every hyphenated term counts as technical |
| TermExtraction.TermPositionAt | src/utils/termExtractor.ts:178-190 | a match's span starts at its index and covers the term; its line is one more than the newlines before it and its column one more than the characters since the last of them |
| TermExtraction.LocateAll | src/utils/termExtractor.ts:29-137 | each regex match becomes one candidate with that single position, in match order |
| TermExtraction.NounPhrases | src/utils/termExtractor.ts:29-48 | every noun phrase kept is longer than three characters and contains no stop word |
| TermExtraction.ProperNouns | src/utils/termExtractor.ts:90-109 | every proper noun kept is longer than two characters and is not a listed common word |
| TermExtraction.MergedSnoc | src/utils/termExtractor.ts:158-166 | merging one more candidate into a group keeps the first spelling and appends its positions |
| TermExtraction.CollectByKey | src/utils/termExtractor.ts:146-167 | the loop's map holds, for each admitted key in first-seen order, the merge of every admitted candidate with that key |
| TermExtraction.FilterAndDeduplicate | src/utils/termExtractor.ts:146-172 | the result is the per-key merges in first-seen order, keeping those that occur at least twice or look technical |
| TermExtraction.DeduplicatedByKey | src/utils/termExtractor.ts:146-167 | the merged terms correspond one to one with the distinct keys of the admitted candidates, in first-seen order |
| TermExtraction.DeduplicatedProperties | src/utils/termExtractor.ts:146-167 | no two merged terms share a key, and every admitted candidate's key has a merged term |
| TermExtraction.FilterAndDeduplicateKeeps | src/utils/termExtractor.ts:169-172 | every term returned occurs at least twice or is technical, and is one of the merged terms |
| TermExtraction.ExtractTerms | src/utils/termExtractor.ts:13-27 | the candidates of the four extractors, in order, deduplicated and filtered; every term returned is kept by the frequency filter |
| Semantics.HashIsPolynomial | src/services/semanticEngine.ts:343-352 | the shift-and-subtract fold with 32-bit truncation equals the multiply-by-31 polynomial of the code units reduced to a signed 32-bit integer |
| Semantics.HashContent | src/services/semanticEngine.ts:343-352 | the cache key is the decimal text of the signed 32-bit multiply-by-31 hash of the content's UTF-16 code units |
| Semantics.HashCollision | src/services/semanticEngine.ts:343-352 | two different contents, "Aa" and "BB", get the same key |
| Semantics.ServeProperties | src/services/semanticEngine.ts:16-37 | a cache hit does not depend on the analysis, a failed analysis leaves the cache alone, no entry is overwritten, and asking again for the same content gives the same answer |
| Semantics.HashKeyedCacheServesOtherContent | src/services/semanticEngine.ts:16-37 | (as written) after "Aa" is analysed, asking for "BB" returns the terms of "Aa" |
| Semantics.ServeByContentTransparent | src/services/semanticEngine.ts:16-37 | (corrected) a cache keyed by the content itself always answers what the analysis gives, and stays coherent |
| Semantics.Categorize | src/services/semanticEngine.ts:283-297 | "proper_noun" exactly for capitalised words separated by whitespace; otherwise "technical" exactly with a whole listed technical word; otherwise "compound" exactly above 15 code units; otherwise "general" |
| Semantics.ProperNounShadowsTechnical | src/services/semanticEngine.ts:283-297 | the rules are ordered: "Api" is a proper noun although it is also a technical word |
| Semantics.ContextsBounded | src/services/semanticEngine.ts:300-316 | at most one context per position, each at most 40 characters and a piece of one line of the content |
| Semantics.ExtractContext | src/services/semanticEngine.ts:300-316 | the loop collects, for each position whose line exists, the up to 20 characters on each side of its column |
| Semantics.Processed | src/services/semanticEngine.ts:85-117 | one semantic term per distinct normalised text of the candidates |
| Semantics.ProcessExtractedTerms | src/services/semanticEngine.ts:85-117 | the loop over the candidates with its map yields the processed terms in insertion order |
| Semantics.ProcessedEntry | src/services/semanticEngine.ts:85-117 | the j-th term is the j-th normalised text with the j-th fresh id, counts its candidates, concatenates their positions and holds exactly their distinct spellings |
| Semantics.ProcessedProperties | src/services/semanticEngine.ts:85-117 | the processed terms have distinct texts and every candidate's normalised text has its term |
| Semantics.ProcessedTerms | src/services/semanticEngine.ts:85-117 | the j-th processed term carries the j-th distinct normalised text, in first-seen order |
| Semantics.ProcessedCovers | src/services/semanticEngine.ts:85-117 | every candidate's normalised text has a processed term |
| Semantics.FrequenciesCountCandidates | src/services/semanticEngine.ts:85-117 | the frequencies add up to the number of candidates: each is counted exactly once |
| Semantics.GatherSimilar | src/services/semanticEngine.ts:264-273 | the inner loop takes in every unplaced term similar to the head and marks it placed |
| Semantics.GatherGrows | src/services/semanticEngine.ts:264-273 | the inner loop only adds to the set of placed ids |
| Semantics.GroupsUpToValid | src/services/semanticEngine.ts:257-278 | after any number of outer iterations the groups built so far are valid: disjoint, made of input terms, each headed by an unplaced term |
| Semantics.GroupsUpToPlaces | src/services/semanticEngine.ts:257-278 | after the first n outer iterations every one of the first n terms has been placed |
| Semantics.GroupSimilarTerms | src/services/semanticEngine.ts:253-281 | the two loops build exactly the specified groups |
| Semantics.SimilarGroupsProperties | src/services/semanticEngine.ts:253-281 | every input term is placed in exactly one group, every group member comes from the input, and each group is a head followed by terms similar to it |
| Semantics.MainTermIsLastMostFrequent | src/services/semanticEngine.ts:129-131 | the `reduce` picks a term of highest frequency, the last one among equals |
| Semantics.FlagPositions | src/services/semanticEngine.ts:136-146 | the innermost loop adds one issue per position of the term, with consecutive fresh ids |
| Semantics.DetectTerminologyInconsistencies | src/services/semanticEngine.ts:120-154 | the nested loops report exactly the specified issues for the similar groups |
| Semantics.FlagsExact | src/services/semanticEngine.ts:126-150 | exactly the positions of the non-main terms of groups with more than one term are flagged |
| Semantics.TerminologyIssuesExact | src/services/semanticEngine.ts:120-154 | each flaggable occurrence gets a medium terminology issue suggesting the group's main term, and every issue is such a one |
| Semantics.DetectStyleInconsistencies | src/services/semanticEngine.ts:157-201 | the loop over the lines collects the list styles and reports the specified issues |
| Semantics.BulletIsNotNumbered | src/services/semanticEngine.ts:173 | no line is both a bullet line and a numbered line |
| Semantics.ListStylesExact | src/services/semanticEngine.ts:173-184 | the styles seen are at most the two sources, the bullet source exactly when some line is a bullet line and the numbered one exactly when some line is numbered |
| Semantics.MixedStyles | src/services/semanticEngine.ts:186 | more than one style exactly when the lines mix bullet and numbered lines |
| Semantics.StyleIssueExact | src/services/semanticEngine.ts:157-201 | at most one style issue, reported exactly when the content mixes bullet and numbered lines |
| Semantics.ConfidenceFollowsSeverity | src/services/semanticEngine.ts:246 | a more severe issue gives a strictly more confident suggestion, always strictly between 0 and 1 |
| Semantics.SuggestionFromIssue | src/services/semanticEngine.ts:235-250 | no suggestion exactly when the issue offers none |
| Semantics.TerminologyBecomesReplacement | src/services/semanticEngine.ts:235-250 | a terminology issue becomes a replacement by its group's main term with confidence 0.7 |
| Semantics.StyleBecomesRestructuring | src/services/semanticEngine.ts:235-250 | the style issue becomes a restructuring with confidence 0.5 and its advice as the suggested text |
| Semantics.Suggestions | src/services/semanticEngine.ts:66-82 | one suggestion per issue that offers one |
| Semantics.GenerateSuggestions | src/services/semanticEngine.ts:66-82 | the loop yields the specified suggestions in order, the k-th with the k-th fresh id |
| Semantics.FindParagraphPosition | src/services/semanticEngine.ts:357-373 | the loop's offset is the sum of the earlier paragraphs' lengths plus two each |
| Semantics.ParagraphPositionLocates | src/services/semanticEngine.ts:357-373 | for an index in range the span is exactly that paragraph of the content, on the line one more than the line breaks before it, column 1 |
| Semantics.SemanticEngine.constructor | src/services/semanticEngine.ts:9-11 | an empty term cache and the two default rules |
| Semantics.SemanticEngine.ExtractTerms | src/services/semanticEngine.ts:16-37 | the terms and cache are as Serve gives them for the hash-keyed cache and the term extractor's analysis; the rules are untouched |
| Collaboration.UnknownAction | src/modules/collaboration/CollaborationModule.ts:69-70 | the message for an unknown action is the fixed prefix followed by the action's name |
| Collaboration.ById | src/modules/collaboration/CollaborationModule.ts:350-351 | the position of the first participant with the id, or none when no participant has it |
| Collaboration.OwnerOf | src/modules/collaboration/CollaborationModule.ts:132-143 | the creator joins as an online owner named by their id, holding every permission |
| Collaboration.NewSession | src/modules/collaboration/CollaborationModule.ts:122-164 | the session has the given id, name, creator and document, the owner first and then the listed participants, and is active, created and last active now |
| Collaboration.JoinedProperties | src/modules/collaboration/CollaborationModule.ts:166-191 | joining keeps everyone present in place, adds an entry exactly when the id is new, and leaves the joiner online |
| Collaboration.LeftProperties | src/modules/collaboration/CollaborationModule.ts:193-211 | leaving never changes who takes part or their roles; a present leaver goes offline, an absent id changes nothing |
| Collaboration.AutoApprovesIff | src/modules/collaboration/CollaborationModule.ts:350-356 | a change is approved exactly when the author's first entry on the session is an owner's or an editor's |
| Collaboration.EditedInRange | src/modules/collaboration/CollaborationModule.ts:359-380 | within the document an insert puts the text at the start, a delete removes the span and a modify replaces it, changing the length accordingly |
| Collaboration.InsertThenDelete | src/modules/collaboration/CollaborationModule.ts:364-372 | deleting what was just inserted restores the content |
| Collaboration.ModifyIsDeleteThenInsert | src/modules/collaboration/CollaborationModule.ts:364-377 | a modify is a delete followed by an insert at the same place |
| Collaboration.Applied | src/modules/collaboration/CollaborationModule.ts:359-385 | the document gets the edited content, its character count and whitespace-split word count (never below one) and a new update time; identity, tags and language are kept |
| Collections.ValuesInOrder | src/modules/collaboration/CollaborationModule.ts:394-405 | the values of a map listed in its keys' insertion order: one value per key, the i-th being the value of the i-th key |
| Collaboration.CollaborationModule.constructor | src/modules/collaboration/CollaborationModule.ts:16-21 | an uninitialised module with empty maps |
| Collaboration.CollaborationModule.Initialize | src/modules/collaboration/CollaborationModule.ts:23-33 | the module becomes ready and no map changes |
| Collaboration.CollaborationModule.Cleanup | src/modules/collaboration/CollaborationModule.ts:99-106 | every map is emptied and the module is no longer ready |
| Collaboration.CollaborationModule.CreateSession | src/modules/collaboration/CollaborationModule.ts:122-164 | the new session is stored under the generated id with empty change, comment and suggestion lists |
| Collaboration.CollaborationModule.JoinSession | src/modules/collaboration/CollaborationModule.ts:166-191 | a missing session is an error with nothing changed; otherwise the participant list is the joined list and the session is active now |
| Collaboration.CollaborationModule.LeaveSession | src/modules/collaboration/CollaborationModule.ts:193-211 | a missing session is an error with nothing changed; otherwise the participant list is the left list and the session is active now |
| Collaboration.CollaborationModule.AddChange | src/modules/collaboration/CollaborationModule.ts:213-242 | a missing session is an error; otherwise the change is appended, approved and applied to the document exactly when its author may edit |
| Collaboration.CollaborationModule.AddComment | src/modules/collaboration/CollaborationModule.ts:244-268 | a missing session is an error; otherwise the comment is appended unresolved with no replies |
| Collaboration.CollaborationModule.AddSuggestion | src/modules/collaboration/CollaborationModule.ts:270-292 | a missing session is an error; otherwise the suggestion is appended as pending |
| Collaboration.CollaborationModule.GetSessionData | src/modules/collaboration/CollaborationModule.ts:294-314 | a missing session is an error; otherwise the session with its changes, comments and suggestions |
| Collaboration.CollaborationModule.SyncChanges | src/modules/collaboration/CollaborationModule.ts:316-348 | a missing session is an error; otherwise exactly the changes and comments after the last sync (the epoch when none is given), the suggestions whose span starts past 0, and the document |
| Collaboration.CollaborationModule.ActiveSessions | src/modules/collaboration/CollaborationModule.ts:394-398 | exactly the active sessions |
| Collaboration.CollaborationModule.UserSessions | src/modules/collaboration/CollaborationModule.ts:400-405 | exactly the sessions the user takes part in |
| Collaboration.CollaborationModule.ApproveSuggestion | src/modules/collaboration/CollaborationModule.ts:408-438 | succeeds exactly when the suggestion is listed, the session exists and the approver holds the approve permission; then the suggestion is accepted and applied as a modify, otherwise nothing changes |
| Collaboration.CollaborationModule.RejectSuggestion | src/modules/collaboration/CollaborationModule.ts:440-448 | succeeds exactly when the suggestion is listed, and then only its status becomes rejected |
| Collaboration.CollaborationModule.Process | src/modules/collaboration/CollaborationModule.ts:35-97 | throws before initialise; afterwards fails exactly on an unknown action or a missing session, with the module's code, the right message and no change; a created session is returned as built |
| Templates.UnknownTemplate | src/modules/templates/TemplateModule.ts:33-35 | the unknown-template message embeds the requested id between the fixed prefix and suffix |
| Templates.MissingVariables | src/modules/templates/TemplateModule.ts:42-44 | the missing-variables message is the fixed prefix followed by the names joined with ", " |
| Templates.Stamped | src/modules/templates/TemplateModule.ts:140-149 | a stored template keeps every field the caller supplied and carries the id, the creation time as both timestamps, zero uses and the given rating |
| Templates.Lookup | src/modules/templates/TemplateModule.ts:388 | a name the request holds gives its own value; a name it lacks gives a value exactly when Object.prototype provides that name, and that value is truthy and prints as the member's `String()` text |
| Templates.MissingRequired | src/modules/templates/TemplateModule.ts:37-40 | a name is reported exactly when some declared variable with that name is required and its lookup (own value or inherited member) is falsy, and never more names than variables |
| Templates.InheritedNeverMissing | src/modules/templates/TemplateModule.ts:37-40 | a required variable named after an Object.prototype member (`constructor`, `toString`, …) that the request leaves out is never reported missing |
| Templates.SkipBraces | src/modules/templates/TemplateModule.ts:391-400 | two leading braces not followed by the marker's third character cannot start a marker, so the search result only shifts by two |
| Templates.SectionsAbsent | src/modules/templates/TemplateModule.ts:391-396 | a content without the opening marker passes the section replacement unchanged |
| Templates.SectionOnce | src/modules/templates/TemplateModule.ts:391-396 | one section between brace-free texts becomes its inner text when kept and disappears otherwise |
| Templates.FoundAfterFree | src/modules/templates/TemplateModule.ts:391-400 | a marker placed right after a text lacking its first character is found exactly there |
| Templates.NoSectionAroundTag | src/modules/templates/TemplateModule.ts:391-396 | no section marker is found in brace-free text around a plain placeholder |
| Templates.NoOpenAroundInverse | src/modules/templates/TemplateModule.ts:391-396 | no opening marker is found in brace-free text around an inverse section |
| Templates.ReplaceAllOnce | src/modules/templates/TemplateModule.ts:399-400 | a global replace over a single occurrence changes that occurrence and nothing else |
| Templates.SectionShownIffTruthy | src/modules/templates/TemplateModule.ts:391-392 | a `{{#name}}` section shows its inner text if and only if the variable's value, own or inherited, is truthy, whichever way values are substituted |
| Templates.InverseShownIffFalsy | src/modules/templates/TemplateModule.ts:395-396 | a `{{^name}}` section shows its inner text if and only if the variable's value, own or inherited, is falsy, whichever way values are substituted |
| Templates.ValueSubstituted | src/modules/templates/TemplateModule.ts:398-400 | a placeholder whose variable has a value, own or inherited, becomes that value's text, verbatim |
| Templates.ValueExpanded | src/modules/templates/TemplateModule.ts:398-400 | as written, a placeholder whose variable has a value, own or inherited, becomes the value's text with its `$` sequences expanded against the placeholder and the text around it, and nothing else changes |
| Templates.DefaultSubstituted | src/modules/templates/TemplateModule.ts:401-405 | a placeholder whose variable has no value, neither in the request nor on Object.prototype, becomes its truthy default, and stays when the default is falsy |
| Templates.TagPattern | src/modules/templates/TemplateModule.ts:399 | the placeholder pattern is the placeholder itself, except for an all-digit name N, where it is N opening braces and then one closing brace |
| Templates.DigitPatternAbsent | src/modules/templates/TemplateModule.ts:399 | for an all-digit name of at least 1, the pattern occurs nowhere in brace-free text around the placeholder |
| Templates.DigitPlaceholderKept | src/modules/templates/TemplateModule.ts:387-405 | the placeholder of an all-digit name of at least 1 is left as it is, whatever the request holds and whatever the default |
| Templates.ZeroNameReplacesBraces | src/modules/templates/TemplateModule.ts:399-400 | for the name "0" the value replaces every closing brace, so "{{0}}" with the value "x" becomes "{{0xx" |
| Templates.DollarPatternInValue | src/modules/templates/TemplateModule.ts:400 | with the value used as a replacement pattern, "$$5" renders as "$5", unlike the verbatim substitution |
| Templates.StepWithoutDollar | src/modules/templates/TemplateModule.ts:387-406 | when no value or default holds a '$', pattern and verbatim substitution agree |
| Templates.TagEnd | src/modules/templates/TemplateModule.ts:409 | a leftover `{{…}}` match ends within the text, at least four characters in |
| Templates.StripPastFree | src/modules/templates/TemplateModule.ts:409 | the clean-up leaves brace-free text in front untouched |
| Templates.StripHead | src/modules/templates/TemplateModule.ts:409 | the clean-up keeps a first character that is not a brace |
| Templates.StripTag | src/modules/templates/TemplateModule.ts:409 | any leftover `{{…}}` without a '}' inside is removed and nothing around it |
| Templates.GenerateContent | src/modules/templates/TemplateModule.ts:383-412 | the loop over the variables yields the content after every variable in declaration order, each value handed to `replace` as a replacement pattern, then the clean-up and the trim |
| Templates.StyleAndToneRemove | src/modules/templates/TemplateModule.ts:467-492 | the formal style leaves no informal 你 and no '！', the casual style no 您, the friendly tone no '。' |
| Templates.SeventyPercent | src/modules/templates/TemplateModule.ts:511 | the kept count is the least whole number not below 70% of the sentence count, and never more than all of them |
| Templates.Customized | src/modules/templates/TemplateModule.ts:414-465 | absent customisations, or ones whose style, tone and length are all empty, leave the content as it is |
| Templates.JoinThenSplit | src/modules/templates/TemplateModule.ts:510-511 | terminator-free sentences joined with '。' and closed with '。' split back into the same sentences and an empty tail |
| Templates.SentencesLackEnds | src/modules/templates/TemplateModule.ts:510 | no sentence that shortening keeps holds a sentence terminator |
| Templates.JoinedSentences | src/modules/templates/TemplateModule.ts:510-511 | reading back non-blank terminator-free sentences joined as shortening joins them gives exactly those sentences |
| Templates.ShortenedKeepsLeadingSentences | src/modules/templates/TemplateModule.ts:509-512 | shortening keeps the leading ceil(0.7·n) of the n non-blank sentences, keeps at least one when there is one, never splits or merges one, and ends with '。' |
| Templates.Metadata | src/modules/templates/TemplateModule.ts:56-59 | the word count is the number of whitespace-separated pieces, at least one, and the reading time is that count over 200 rounded up, at least one minute |
| Templates.AddCategory | src/modules/templates/TemplateModule.ts:152 | adding a category keeps every earlier one, includes the new one and keeps the list free of repeats |
| Templates.LoadedKeys | src/modules/templates/TemplateModule.ts:367-380 | loading the built-in templates adds exactly the generated ids to the store |
| Templates.LoadedValues | src/modules/templates/TemplateModule.ts:367-380 | each generated id holds its built-in template with zero uses and rating 4.5, unless a later template reused the id |
| Templates.LoadedKeeps | src/modules/templates/TemplateModule.ts:367-380 | loading keeps every stored entry whose id it does not generate |
| Templates.TemplateModule.constructor | src/modules/templates/TemplateModule.ts:7-10 | a new module is uninitialised with no templates and no categories |
| Templates.TemplateModule.Store | src/modules/templates/TemplateModule.ts:378-379 | storing sets the template under its id, records a new id at the end of the insertion order and adds the category |
| Templates.TemplateModule.Initialize | src/modules/templates/TemplateModule.ts:12-22 | initialising loads the built-in templates under the generated ids and marks the module ready |
| Templates.TemplateModule.Cleanup | src/modules/templates/TemplateModule.ts:92-97 | cleanup empties the store and the categories and marks the module not ready |
| Templates.TemplateModule.CreateTemplate | src/modules/templates/TemplateModule.ts:140-154 | the new id is "custom_" and the clock, the template is stored under it with rating 0 and its category added, replacing an entry created at the same instant |
| Templates.TemplateModule.AllTemplates | src/modules/templates/TemplateModule.ts:113-115 | every stored template is listed, and the list is as long as the store |
| Templates.TemplateModule.ByCategory | src/modules/templates/TemplateModule.ts:118-121 | a template is listed exactly when it is stored and has the category |
| Templates.TemplateModule.Search | src/modules/templates/TemplateModule.ts:124-132 | a template is listed exactly when it is stored and its lowercased name, description or one of its tags contains the lowercased query |
| Templates.TemplateModule.Categories | src/modules/templates/TemplateModule.ts:135-137 | the categories are free of repeats and include the category of every stored template |
| Templates.TemplateModule.Process | src/modules/templates/TemplateModule.ts:24-90 | an uninitialised module throws; an unknown id or missing required variables give a failure with the message and nothing changes; otherwise the response carries the content generated as written (values read as replacement patterns) and customised, with its metadata, and the template's use count goes up by one |
| Templates.TemplateModule.CountUse | src/modules/templates/TemplateModule.ts:64 | a use adds one to the template's usage count and changes nothing else in the store |
| Templates.DistinctKeys | src/modules/templates/TemplateModule.ts:113-115 | a repeat-free list naming exactly a map's keys is as long as the map |
| Grouping.Keys | src/utils/termExtractor.ts:147-166 | the map's keys, in first-seen order, hold no repeats and include the key of every element |
| Grouping.KeyHasWitness | src/utils/termExtractor.ts:147-166 | every key of the map is the key of some element |
| Grouping.KeysSnoc | src/utils/termExtractor.ts:157-166 | one more element adds its key at the end exactly when the key is new |
| Grouping.MembersSnoc | src/utils/termExtractor.ts:157-162 | one more element joins the group of its own key and no other |
| Grouping.MembersOfKey | src/utils/termExtractor.ts:157-166 | a key has an entry if and only if its group is non-empty |
| Grouping.KeyOfKept | src/utils/termExtractor.ts:150-166 | an element that passes the admission filter has its key in the map |
| Grouping.MapHoldsSnoc | src/utils/termExtractor.ts:157-166 | the loop's step keeps the map equal to a function of each key's group: the new element's group gains it, the others are unchanged |
| Grouping.OrderedMapHoldsJoin | src/services/semanticEngine.ts:91-99 | an element whose key already has an entry is absorbed by that entry and the key order is unchanged |
| Grouping.OrderedMapHoldsAppend | src/services/semanticEngine.ts:100-111 | an element with a new key creates an entry, numbered by its position, at the end of the key order |
| Grouping.FoldByKeyHolds | src/services/semanticEngine.ts:86-111 | the create-or-absorb loop yields, for every key in first-seen order, the entry built from that key's whole group |
| Grouping.SizeSumSnoc | src/services/semanticEngine.ts:91-111 | one more element adds one to the total size of the groups exactly when its key is among them |
| Grouping.MembersPartition | src/services/semanticEngine.ts:86-111 | the groups partition the input: their sizes add up to its length, so every extracted term is counted once |
| Grouping.Dedup | src/services/semanticEngine.ts:96-98 | the variants list holds every spelling seen, each once, and nothing else |
| GrammarCheck.RuleIds | src/modules/grammar-check/GrammarCheckModule.ts:184-186 | the ids of a rule table, position by position |
| GrammarCheck.DefaultIdsDistinct | src/modules/grammar-check/GrammarCheckModule.ts:99-187 | the built-in rule table has distinct ids, so loading it stores every rule under its own id |
| GrammarCheck.EffectiveStrictness | src/modules/grammar-check/GrammarCheckModule.ts:196 | a given non-empty strictness is used as it is; an absent or empty one becomes "medium" |
| GrammarCheck.StrictnessNested | src/modules/grammar-check/GrammarCheckModule.ts:231-239 | low admits only errors, medium everything but suggestions, high everything; each level admits what the level below it admits, and an unnamed level admits nothing when the lookup returns (for a name Object.prototype provides it throws instead, see `GrammarCheck.DefaultTableAborts`) |
| GrammarCheck.DefaultTableAborts | src/modules/grammar-check/GrammarCheckModule.ts:194-196 | with the built-in rules and a level Object.prototype provides (`constructor`, `toString`, …), the check throws exactly when spelling, grammar or style was requested, since no built-in rule checks clarity |
| GrammarCheck.IssueOf | src/modules/grammar-check/GrammarCheckModule.ts:202-213 | an issue spans exactly the matched text, carries the rule's one suggestion, id, type, severity and message |
| GrammarCheck.RuleIssuesExact | src/modules/grammar-check/GrammarCheckModule.ts:200-216 | a rule reports an issue exactly for each match its validator accepts, and never more issues than matches |
| GrammarCheck.CheckedExact | src/modules/grammar-check/GrammarCheckModule.ts:194-217 | an issue is reported if and only if it comes from an accepted match of a rule whose type was requested and whose severity the strictness admits |
| GrammarCheck.NoCheckTypesNoIssues | src/modules/grammar-check/GrammarCheckModule.ts:195 | a request without check types reports no issue |
| GrammarCheck.CheckedOneSuggestion | src/modules/grammar-check/GrammarCheckModule.ts:211 | every reported issue carries exactly one suggestion |
| GrammarCheck.TypeCountsFacts | src/modules/grammar-check/GrammarCheckModule.ts:241-254 | the counts name exactly the four issue types, each with the number of issues of that type |
| GrammarCheck.TypeCountsSum | src/modules/grammar-check/GrammarCheckModule.ts:241-254 | the four counts add up to the number of issues |
| GrammarCheck.IssuesByType | src/modules/grammar-check/GrammarCheckModule.ts:241-254 | the counting loop yields each type's number of issues |
| GrammarCheck.TypeCountsStep | src/modules/grammar-check/GrammarCheckModule.ts:248-250 | one more issue adds one to its own type's entry and changes no other |
| GrammarCheck.CountTypeStep | src/modules/grammar-check/GrammarCheckModule.ts:248-250 | one more issue adds one to the count of its own type and leaves the other counts alone |
| GrammarCheck.ByStartDesc | src/modules/grammar-check/GrammarCheckModule.ts:262 | the sorted issues are a permutation of the given ones |
| GrammarCheck.ByStartDescSorted | src/modules/grammar-check/GrammarCheckModule.ts:262 | the issues come out in descending order of their start |
| GrammarCheck.ApplyAllSnoc | src/modules/grammar-check/GrammarCheckModule.ts:264-268 | applying one more replacement acts on the text the earlier ones produced |
| GrammarCheck.Edits | src/modules/grammar-check/GrammarCheckModule.ts:259-262 | every issue applied has a suggestion |
| GrammarCheck.ApplySuggestions | src/modules/grammar-check/GrammarCheckModule.ts:256-271 | the loop replaces each span with its first suggestion, latest start first |
| GrammarCheck.ApplyInTurn | src/modules/grammar-check/GrammarCheckModule.ts:264-268 | the loop applies each suggestion in turn to the text the earlier ones produced |
| GrammarCheck.Reverse | src/modules/grammar-check/GrammarCheckModule.ts:262 | the reversed list holds the same issues back to front |
| GrammarCheck.AscendingSnoc | src/modules/grammar-check/GrammarCheckModule.ts:256-271 | a list of spans is ordered and non-overlapping with one more span at its end exactly when the shorter list ends before it and the span fits |
| GrammarCheck.AscendingWiden | src/modules/grammar-check/GrammarCheckModule.ts:256-271 | spans that fit below a bound fit below any larger bound |
| GrammarCheck.ApplyInPrefix | src/modules/grammar-check/GrammarCheckModule.ts:264-268 | replacements inside a prefix leave what follows it untouched |
| GrammarCheck.SpliceSnoc | src/modules/grammar-check/GrammarCheckModule.ts:264-268 | splicing up to one more span and then that span is splicing the whole text |
| GrammarCheck.DescendingOrderSplices | src/modules/grammar-check/GrammarCheckModule.ts:258-270 | replacing non-overlapping spans latest first gives the same text as splicing them left to right, so no replacement shifts another |
| GrammarCheck.CorrectedSplices | src/modules/grammar-check/GrammarCheckModule.ts:256-271 | the corrected text, for issues whose spans do not overlap, is the left-to-right splice of their first suggestions |
| GrammarCheck.Penalty | src/modules/grammar-check/GrammarCheckModule.ts:280-296 | every issue costs at least one point |
| GrammarCheck.TotalPenalty | src/modules/grammar-check/GrammarCheckModule.ts:280-297 | the issues together cost at least one point each |
| GrammarCheck.DensityDeduction | src/modules/grammar-check/GrammarCheckModule.ts:299-303 | the density deduction is never negative |
| GrammarCheck.Score | src/modules/grammar-check/GrammarCheckModule.ts:273-306 | the score lies between 0 and 100, and is 100 for an empty text or no issues |
| GrammarCheck.GrammarScore | src/modules/grammar-check/GrammarCheckModule.ts:273-306 | the scoring loop yields the score |
| GrammarCheck.DensityMonotone | src/modules/grammar-check/GrammarCheckModule.ts:299-303 | one more issue never lowers the density deduction |
| GrammarCheck.ScoreNonIncreasing | src/modules/grammar-check/GrammarCheckModule.ts:273-306 | one more issue never raises the score |
| GrammarCheck.ResponseFor | src/modules/grammar-check/GrammarCheckModule.ts:219-228 | the response keeps the original text and carries the issues found, their count, the corrected text, the counts by type and the score |
| GrammarCheck.CollectRuleIssues | src/modules/grammar-check/GrammarCheckModule.ts:198-216 | the inner loop yields one issue per accepted match, in match order |
| GrammarCheck.UpsertValues | src/modules/grammar-check/GrammarCheckModule.ts:184-186 | setting rules with distinct ids adds exactly their ids and stores every rule under its own id |
| GrammarCheck.GrammarCheckModule.RulesInOrder | src/modules/grammar-check/GrammarCheckModule.ts:194 | the rules in the order the map iterates them, one per stored id |
| GrammarCheck.GrammarCheckModule.constructor | src/modules/grammar-check/GrammarCheckModule.ts:21-35 | a new module is neither loaded nor ready and has no rules |
| GrammarCheck.GrammarCheckModule.SetRule | src/modules/grammar-check/GrammarCheckModule.ts:185 | setting a rule stores it under its id and records a new id at the end of the iteration order |
| GrammarCheck.GrammarCheckModule.LoadRules | src/modules/grammar-check/GrammarCheckModule.ts:184-186 | loading a table stores every rule under its id, and on an empty map iterates in table order |
| GrammarCheck.GrammarCheckModule.Initialize | src/modules/grammar-check/GrammarCheckModule.ts:37-47 | initialising loads the built-in table and marks the module loaded and ready |
| GrammarCheck.GrammarCheckModule.Cleanup | src/modules/grammar-check/GrammarCheckModule.ts:90-93 | cleanup clears the rules and marks the module not ready |
| GrammarCheck.GrammarCheckModule.CheckGrammar | src/modules/grammar-check/GrammarCheckModule.ts:189-229 | checking yields the response for the stored rules in iteration order, or none (where the source throws) when a rule of a requested type meets a level Object.prototype provides, whose inherited member has no `includes` |
| GrammarCheck.GrammarCheckModule.Process | src/modules/grammar-check/GrammarCheckModule.ts:49-88 | a module that is not ready, or whose check throws, answers with the fixed failure; otherwise it answers with the check's response |
| GrammarCheck.DefaultStrictnessRuns | src/modules/grammar-check/GrammarCheckModule.ts:194-197 | with every type requested and no strictness, a rule runs exactly when its severity is not a suggestion |
| Summarization.Trimmed | src/modules/summarization/SummarizationModule.ts:250 | trimming keeps one piece per piece |
| Summarization.SentencesAreSentences | src/modules/summarization/SummarizationModule.ts:248-252 | every sentence is non-empty, trimmed and free of the six terminators |
| Summarization.FrequencyWords | src/modules/summarization/SummarizationModule.ts:278 | splitting the lower-cased text at whitespace gives at least one piece |
| Summarization.WordFrequency | src/modules/summarization/SummarizationModule.ts:277-286 | the map's keys are exactly the words of the lower-cased text, each mapped to the number of times it occurs |
| Summarization.Items | src/modules/summarization/SummarizationModule.ts:302-306 | one scored item per sentence |
| Summarization.ByScore | src/modules/summarization/SummarizationModule.ts:308 | sorting by score is a permutation of the items |
| Summarization.ByIndex | src/modules/summarization/SummarizationModule.ts:310-312 | sorting by position is a permutation of the items |
| Summarization.TakeCount | src/modules/summarization/SummarizationModule.ts:294-300 | the kept count is never more than the sentences; at least one for a known length and a non-empty text; none for an unknown length |
| Summarization.InsertByDistinct | src/modules/summarization/SummarizationModule.ts:308-312 | inserting an item with a new position into a list of distinct positions keeps them distinct |
| Summarization.ByScoreDistinct | src/modules/summarization/SummarizationModule.ts:308 | sorting by score keeps positions distinct |
| Summarization.ByIndexSorted | src/modules/summarization/SummarizationModule.ts:310-312 | sorting by position puts the items in text order |
| Summarization.ByScoreSorted | src/modules/summarization/SummarizationModule.ts:308 | sorting by score puts higher scores first |
| Summarization.ByIndexDistinct | src/modules/summarization/SummarizationModule.ts:310-312 | sorting by position keeps positions distinct |
| Summarization.PickedFacts | src/modules/summarization/SummarizationModule.ts:288-317 | the kept count of items are picked, each built from its own sentence and score, strictly in text order |
| Summarization.PickedInOrder | src/modules/summarization/SummarizationModule.ts:309-314 | the picked items are strictly in text order |
| Summarization.PickedFromSentences | src/modules/summarization/SummarizationModule.ts:288-313 | each picked item is the one built from its own sentence and score |
| Summarization.FrontBeatsRest | src/modules/summarization/SummarizationModule.ts:308-311 | whatever is taken from the front of a list sorted by falling score scores at least as high as what is left behind |
| Summarization.PickedBeatUnpicked | src/modules/summarization/SummarizationModule.ts:288-317 | no sentence left out scores higher than a chosen one |
| Summarization.SelectedFacts | src/modules/summarization/SummarizationModule.ts:288-317 | the chosen sentences are the kept count of sentences of the text, in their original order, and none left out scores higher than a chosen one |
| Summarization.SelectedAreSentences | src/modules/summarization/SummarizationModule.ts:155-165 | every chosen sentence is a sentence of the text |
| Summarization.OutlineLines | src/modules/summarization/SummarizationModule.ts:338-341 | one numbered outline line per point |
| Summarization.CreateOutline | src/modules/summarization/SummarizationModule.ts:335-344 | the loop yields each non-blank segment, numbered from 1 and trimmed, on a line of its own |
| Summarization.LinesLackBreaks | src/modules/summarization/SummarizationModule.ts:326-341 | points without line breaks give bullets and outline lines without line breaks |
| Summarization.OutlineIsJoin | src/modules/summarization/SummarizationModule.ts:335-344 | the outline is its numbered lines joined with line breaks, ending with one |
| Summarization.BulletsSplitIntoPoints | src/modules/summarization/SummarizationModule.ts:325-327 | splitting the bullet list at line breaks gives back one bullet per point |
| Summarization.OutlineSplitsIntoLines | src/modules/summarization/SummarizationModule.ts:335-344 | splitting the outline at line breaks gives the line "n. point" for the n-th point, then an empty tail |
| Summarization.LocalSummaryHasOnePoint | src/modules/summarization/SummarizationModule.ts:161-170 | as written, the chosen sentences joined with a space hold no terminator, so the bullet list and the outline have at most one point whatever the number chosen |
| Summarization.PointsOfJoinedSentences | src/modules/summarization/SummarizationModule.ts:319-344 | sentences joined at "。" read back as exactly those sentences |
| Summarization.SummaryTextListsEverySentence | src/modules/summarization/SummarizationModule.ts:319-344 | with the sentences kept apart, the bullet list has one bullet and the outline one numbered line per chosen sentence |
| Summarization.SummaryBulletsListEverySentence | src/modules/summarization/SummarizationModule.ts:319-327 | split at line breaks, the bullet-point summary gives one bullet per chosen sentence |
| Summarization.SummaryOutlineListsEverySentence | src/modules/summarization/SummarizationModule.ts:335-344 | split at line breaks, the outline summary gives one numbered line per chosen sentence and a final empty line |
| Summarization.SelectedLack | src/modules/summarization/SummarizationModule.ts:161-165 | a character absent from the text is in none of the chosen sentences |
| Summarization.SentenceLacks | src/modules/summarization/SummarizationModule.ts:248-252 | a character absent from the text is in none of its sentences |
| Summarization.SplitWhereChars | src/modules/summarization/SummarizationModule.ts:249 | every character of a piece comes from the text |
| Summarization.FirstFive | src/modules/summarization/SummarizationModule.ts:358-364 | at most five points are kept |
| Summarization.FirstFiveStep | src/modules/summarization/SummarizationModule.ts:358-364 | one more candidate is kept exactly while fewer than five are |
| Summarization.SentenceTrimmed | src/modules/summarization/SummarizationModule.ts:361 | trimming a sentence changes nothing |
| Summarization.ExtractKeyPoints | src/modules/summarization/SummarizationModule.ts:346-368 | the loop keeps the first five sentences that hold a keyword, in text order |
| Summarization.KeyPointsFacts | src/modules/summarization/SummarizationModule.ts:346-368 | at most five points, each a sentence of the text holding a keyword, and exactly the first five such sentences, or all of them when there are fewer |
| Summarization.Readability | src/modules/summarization/SummarizationModule.ts:667-677 | the score lies between 0 and 100, and is 0 for a text without a sentence |
| Summarization.SummaryResponseFor | src/modules/summarization/SummarizationModule.ts:627-646 | the response keeps the original text, the summary and the key points, with at least one word and a score between 0 and 100 |
| Summarization.ExpansionResponseFor | src/modules/summarization/SummarizationModule.ts:648-665 | the response keeps the original and the expanded text, with at least one word and a score between 0 and 100 |
| Summarization.SummarizeLocally | src/modules/summarization/SummarizationModule.ts:155-177 | the local summary is the chosen sentences joined with a space, as written, then post-processed by type, with key points only when asked for |
| Summarization.SummarizationModule.constructor | src/modules/summarization/SummarizationModule.ts:15-26 | a new module is neither loaded nor ready and has no key |
| Summarization.SummarizationModule.Initialize | src/modules/summarization/SummarizationModule.ts:28-38 | initialising takes the configured key, else the stored one, and marks the module loaded and ready |
| Summarization.SummarizationModule.Cleanup | src/modules/summarization/SummarizationModule.ts:90-93 | cleanup marks the module neither loaded nor ready and keeps the key |
| Summarization.SummarizationModule.Process | src/modules/summarization/SummarizationModule.ts:40-88 | a module that is not ready fails; with a key the service's answer is the response and a failed call is a failure; without one a summary request is summarised locally (sentences joined with a space) and an expansion expanded locally |
| TextGeneration.LetterRunsAppend | src/modules/text-generation/TextGenerationModule.ts:324 | counting letter runs over two parts adds the parts' counts, carrying whether the first part ended in a letter |
| TextGeneration.CountAppend | src/modules/text-generation/TextGenerationModule.ts:323 | counting ideographs over two parts adds the parts' counts |
| TextGeneration.CountWordsAppend | src/modules/text-generation/TextGenerationModule.ts:321-326 | the word counts of two parts add up, less one when a run of letters is cut in two |
| TextGeneration.NoRunStartsStep | src/modules/text-generation/TextGenerationModule.ts:324 | no run of letters starts in a text exactly when none starts at its head and none in its rest |
| TextGeneration.LetterRunsZero | src/modules/text-generation/TextGenerationModule.ts:324 | no run of letters is counted exactly when no run starts |
| TextGeneration.CountWordsZero | src/modules/text-generation/TextGenerationModule.ts:321-326 | a text has no words exactly when it holds neither an ideograph nor an ASCII letter |
| TextGeneration.NoRunStartNoLetter | src/modules/text-generation/TextGenerationModule.ts:324 | where no run of letters starts there is no letter |
| TextGeneration.ReadabilityOf | src/modules/text-generation/TextGenerationModule.ts:331-336 | the score lies between 0 and 100; it is 100 at fifteen words a sentence or fewer and 0 at sixty-five or more |
| TextGeneration.AverageBounds | src/modules/text-generation/TextGenerationModule.ts:331 | the average sentence length is within the bounds its word and sentence counts give |
| TextGeneration.Readability | src/modules/text-generation/TextGenerationModule.ts:328-337 | the readability score is a whole number between 0 and 100, the sentence divisor being at least one |
| TextGeneration.Density | src/modules/text-generation/TextGenerationModule.ts:345-347 | a keyword's density is never negative, is 0 for a text without words, and otherwise is its matches per hundred words |
| TextGeneration.KeywordDensity | src/modules/text-generation/TextGenerationModule.ts:339-350 | the loop gives every keyword its density, except "__proto__", whose assignment the record ignores |
| TextGeneration.LowKeywords | src/modules/text-generation/TextGenerationModule.ts:365-366 | a keyword is listed exactly when it was requested, is not "__proto__" (whose lookup gives Object.prototype, never below 1) and its density is below one per cent |
| TextGeneration.NotesDiffer | src/modules/text-generation/TextGenerationModule.ts:356-376 | the four suggestion texts are pairwise different |
| TextGeneration.NotesFacts | src/modules/text-generation/TextGenerationModule.ts:352-379 | the short note is given exactly under 100 words, the long note exactly over 1000 (so never both), the keyword note exactly when some keyword is sparse, the readability note exactly under a score of 60, and nothing else |
| TextGeneration.GenerateSuggestions | src/modules/text-generation/TextGenerationModule.ts:352-379 | the suggestions are the notes for the text's word count, its sparse keywords and its readability |
| TextGeneration.ResponseFor | src/modules/text-generation/TextGenerationModule.ts:186-203 | the response keeps the content, the keywords and the suggestions, has a score between 0 and 100, a reading time of at least the word count over 200 minutes, and a density for exactly the requested keywords other than "__proto__" |
| TextGeneration.Unspaced | src/modules/text-generation/TextGenerationModule.ts:296 | the hashtag text holds no white space and is no longer than the prompt |
| TextGeneration.PlaceholderIffUnknownKind | src/modules/text-generation/TextGenerationModule.ts:205-297 | the placeholder "关于…的内容正在生成中..." is answered exactly for a content type other than the six with a built-in demo text |
| TextGeneration.DemoQuotesPrompt | src/modules/text-generation/TextGenerationModule.ts:205-297 | every demo answer, built-in or placeholder, quotes the prompt |
| TextGeneration.TextGenerationModule.constructor | src/modules/text-generation/TextGenerationModule.ts:14-25 | a new module is neither loaded nor ready and has no key |
| TextGeneration.TextGenerationModule.Initialize | src/modules/text-generation/TextGenerationModule.ts:27-42 | initialising takes the configured key, else the stored one, marks the module loaded, and ready exactly when there is a key |
| TextGeneration.TextGenerationModule.Cleanup | src/modules/text-generation/TextGenerationModule.ts:92-96 | cleanup marks the module neither loaded nor ready and drops the key |
| TextGeneration.TextGenerationModule.Process | src/modules/text-generation/TextGenerationModule.ts:44-90 | a not-ready module with a key, a failed service call or an invalid keyword pattern gives a failure; otherwise the content is the service's answer with a key and, without one, the built-in demo text for the request's content type or the placeholder, measured by the response, whose densities and low-density note skip "__proto__" |
| Seo.Score | src/modules/seo/SEOModule.ts:350-351 | the rounded and clamped score lies between 0 and 100, within half a point of a value already in range, 100 above the range and 0 below it |
| Seo.SentenceScore | src/modules/seo/SEOModule.ts:349-351 | a sentence-length score lies between 0 and 100 |
| Seo.QuotientBounds | src/modules/seo/SEOModule.ts:348 | a quotient respects the bounds its numerator and denominator give |
| Seo.SentenceScoreFacts | src/modules/seo/SEOModule.ts:343-352 | up to ten words a sentence score 100, sixty or more score 0, and more words never score higher |
| Seo.Readability | src/modules/seo/SEOModule.ts:343-352 | the intended score lies between 0 and 100, agrees with the code wherever the code gives a number, and is 0 without a sentence |
| Seo.ReadabilityNaNIffBlank | src/modules/seo/SEOModule.ts:343-352 | as written, the score is NaN exactly for blank content, the empty text included |
| Seo.RawDensity | src/modules/seo/SEOModule.ts:329-332 | a keyword's reported density is never negative and is its matches per hundred whitespace-separated pieces |
| Seo.RoundedDensity | src/modules/seo/SEOModule.ts:156-159 | the kept density is within half a hundredth of the reported one |
| Seo.KeywordDensity | src/modules/seo/SEOModule.ts:154-160 | the loop adds each distinct keyword to the record once, in first-seen order, with its rounded density; "__proto__" is never recorded, since that assignment is ignored |
| Seo.AnalysisOf | src/modules/seo/SEOModule.ts:124-188 | the analysis lists every target keyword except "__proto__", and nothing else, exactly once, each with one density |
| Seo.OwnKeysPermutes | src/modules/seo/SEOModule.ts:154-160 | `Object.entries` lists every key of the density record as often as it was added |
| Seo.OwnKeysMembers | src/modules/seo/SEOModule.ts:154-160 | `Object.entries` lists exactly the keys added to the record |
| Seo.OwnKeysDistinct | src/modules/seo/SEOModule.ts:154-160 | keys added once are listed once |
| Seo.OwnKeysIndicesFirst | src/modules/seo/SEOModule.ts:220 | keys that are array indices are listed before all others, in ascending numeric order |
| Seo.OwnKeysOthersInOrder | src/modules/seo/SEOModule.ts:220 | keys that are not array indices keep the order they were added in |
| Seo.KeysOfKeywords | src/modules/seo/SEOModule.ts:154-160 | the record built from the keywords lists each keyword except "__proto__" once, and nothing else |
| Seo.AnalysisKeyOrder | src/modules/seo/SEOModule.ts:154-160 | the analysis lists the keywords as `Object.entries` lists the record: numeric keywords first in ascending order, then the rest in first-seen order |
| Seo.AnalyzeContent | src/modules/seo/SEOModule.ts:124-188 | the method yields the analysis of the content, the keywords and the tag counts |
| Seo.TitlesName | src/modules/seo/SEOModule.ts:216-234 | different keywords give different suggestion titles |
| Seo.GenerateSuggestions | src/modules/seo/SEOModule.ts:190-281 | the loop yields the title checks, the keyword suggestions in the record's `Object.entries` order, then the image, length and heading checks |
| Seo.KeywordSuggestionsMembers | src/modules/seo/SEOModule.ts:216-236 | each keyword's suggestion is among the keyword suggestions, and each keyword suggestion is some keyword's |
| Seo.KeywordSuggestionsFor | src/modules/seo/SEOModule.ts:220-240 | the "increase" suggestion for a keyword is there exactly when its density is below 0.5, the "decrease" one exactly when it is above 3 |
| Seo.KeywordSuggestionsAreKeywords | src/modules/seo/SEOModule.ts:216-236 | every keyword suggestion has the keyword type |
| Seo.SuggestionsFixed | src/modules/seo/SEOModule.ts:196-278 | the add-title suggestion is given exactly without an h1, the fewer-titles one exactly with more than one, the alt one exactly when some image lacks alt text, the lengthen one exactly under 300 pieces, the restructure one exactly under two headings |
| Seo.SuggestionsForKeyword | src/modules/seo/SEOModule.ts:216-236 | a keyword gets the more-of-it suggestion exactly when it is a target below half a per cent and the less-of-it one exactly when above three per cent |
| Seo.SuggestionsCount | src/modules/seo/SEOModule.ts:190-281 | there are at most four suggestions besides one per keyword |
| Seo.KeywordSuggestionsCount | src/modules/seo/SEOModule.ts:216-236 | there is at most one keyword suggestion per keyword |
| Seo.OptimizeContent | src/modules/seo/SEOModule.ts:283-312 | the loop applies each suggestion's rewrite in order |
| Seo.OptimizedAppend | src/modules/seo/SEOModule.ts:291-309 | rewriting by two lists of suggestions is rewriting by the first and then the second |
| Seo.KeywordSuggestionsKeep | src/modules/seo/SEOModule.ts:291-309 | keyword suggestions rewrite nothing |
| Seo.LacksFirstChar | src/modules/seo/SEOModule.ts:293 | a text without the pattern's first character does not contain the pattern |
| Seo.OptimizedOne | src/modules/seo/SEOModule.ts:291-309 | rewriting by one suggestion is that suggestion's rewrite |
| Seo.OptimizeTitles | src/modules/seo/SEOModule.ts:292-298 | the title suggestions add the heading when the content has no h1 and no "<h1>" text, and otherwise change nothing |
| Seo.TitleMatches | src/modules/seo/SEOModule.ts:293-302 | the rewrites react to the add-title and alt titles only |
| Seo.OptimizeKeeps | src/modules/seo/SEOModule.ts:291-309 | suggestions about length and headings rewrite nothing |
| Seo.OptimizeOthers | src/modules/seo/SEOModule.ts:300-306 | of the other suggestions only the image one rewrites, by the alt pass |
| Seo.OptimizeGenerated | src/modules/seo/SEOModule.ts:283-312 | the optimised content is the content with the main keyword's title added when it has no h1, then passed through the alt pass when some image lacks alt text |
| Seo.FirstTwo | src/modules/seo/SEOModule.ts:336 | the first two related keywords, or all of them when there are fewer |
| Seo.AnalyzeKeywords | src/modules/seo/SEOModule.ts:314-341 | the loop yields the unrounded densities of the keywords other than "__proto__", and the related keywords |
| Seo.RelatedFacts | src/modules/seo/SEOModule.ts:334-337 | every related keyword comes from a target keyword's entry, at most two per target keyword |
| Seo.RelatedFromDefaults | src/modules/seo/SEOModule.ts:105-122 | with the built-in database each known target keyword brings exactly two related keywords |
| Seo.CountSnoc | src/modules/seo/SEOModule.ts:334-337 | one more keyword adds one to the count exactly when it is known |
| Seo.DensitySumWithin | src/modules/seo/SEOModule.ts:362 | when every density lies in a range, their sum lies within the count times its ends |
| Seo.AverageWithin | src/modules/seo/SEOModule.ts:362 | when every density lies in a range, so does their average |
| Seo.SeoScore | src/modules/seo/SEOModule.ts:354-381 | the score lies between 15 and 100, and is 100 exactly with one h1, an average density between 1 and 2, a readability that is a number of at least 70, alt text on every image and at least three headings |
| Seo.ReadabilityPointsAgree | src/modules/seo/SEOModule.ts:368-370 | scoring the corrected readability instead of the code's NaN changes no SEO score |
| Seo.SeoModule.constructor | src/modules/seo/SEOModule.ts:7-13 | a new module is uninitialised with an empty keyword database |
| Seo.SeoModule.Initialize | src/modules/seo/SEOModule.ts:14-24 | initialising loads the built-in keywords over the database and marks the module ready |
| Seo.SeoModule.Cleanup | src/modules/seo/SEOModule.ts:86-90 | cleanup empties the database and marks the module not ready |
| Seo.SeoModule.Process | src/modules/seo/SEOModule.ts:26-84 | an uninitialised module throws; a keyword that is not a valid pattern gives a failure with the compiler's message; otherwise the response carries the content, its optimised form, the suggestions, the keyword analysis in `Object.entries` order (without "__proto__"), and the readability as written (NaN for blank content), length, reading time and SEO score |
| Seo.ProtoKeywordsAverageNaN | src/modules/seo/SEOModule.ts:362-365 | keywords that are all "__proto__" leave the analysis without keys, and the average density (0/0, NaN in the source) earns 10 points |
| Dictionaries.PutFacts | src/modules/translation/TranslationModule.ts:100-299 | setting an entry keeps each word once, brings in only that entry, and keeps every word already present |
| Dictionaries.MapOfFacts | src/modules/translation/TranslationModule.ts:100-299 | a dictionary built from its pairs holds each word once, only entries from the pairs, and every word of the pairs |
| Dictionaries.MapOfDistinct | src/modules/translation/TranslationModule.ts:100-299 | a dictionary built from pairs holds each word once and only entries from the pairs |
| Dictionaries.MapOfCovers | src/modules/translation/TranslationModule.ts:100-299 | every word of the pairs has an entry in the dictionary built from them |
| Translation.ReplaceFromNone | src/modules/translation/TranslationModule.ts:386-391 | a global replace past the last match leaves the rest of the text as it is |
| Translation.ReplaceWordAbsent | src/modules/translation/TranslationModule.ts:386-391 | a text without the word is left as it is |
| Translation.ReplaceFromLacks | src/modules/translation/TranslationModule.ts:473-540 | after a global replace of one character by a text without it, the character is gone |
| Translation.WordAtAgree | src/modules/translation/TranslationModule.ts:386 | boundaries taken next to word characters match exactly where the code's boundaries do for every word that starts and ends with an ASCII word character |
| Translation.BoundariesAgree | src/modules/translation/TranslationModule.ts:386-391 | for such words the corrected and the as-written replaces give the same text |
| Translation.SameMatchesSameReplace | src/modules/translation/TranslationModule.ts:386-391 | two patterns of the same length that match at the same places give the same global replace |
| Translation.TranslateWords | src/modules/translation/TranslationModule.ts:383-392 | the word loop yields the text with every entry found in the original text replaced, and those entries, in dictionary order |
| Translation.TranslatedPairs | src/modules/translation/TranslationModule.ts:383-392 | the recorded pairs are exactly the entries whose word the original text holds, in dictionary order |
| Translation.TranslatedUnchanged | src/modules/translation/TranslationModule.ts:383-392 | a text that holds none of the dictionary's words comes out unchanged with no pairs |
| Translation.UnspacedTextNeverMatches | src/modules/translation/TranslationModule.ts:386 | as written, a text without ASCII word characters matches no dictionary word, so it comes out unchanged with no pairs |
| Translation.CjkWordFound | src/modules/translation/TranslationModule.ts:386-388 | with boundaries next to word characters, a Chinese word present in the text is found |
| Translation.HelloTranslated | src/modules/translation/TranslationModule.ts:100-101 | "你好" from Chinese to English: the code leaves it as it is, the corrected boundaries give "hello" and record the pair |
| Translation.Escape | src/modules/translation/TranslationModule.ts:711-713 | escaping adds exactly one backslash per special character |
| Translation.EscapeRoundTrip | src/modules/translation/TranslationModule.ts:711-713 | the escaped word, read as a pattern, stands for the word itself |
| Translation.FormalChineseLacks | src/modules/translation/TranslationModule.ts:473-484 | the formal Chinese style leaves no 很 and no 挺 in any text |
| Translation.ReplaceKeepsOut | src/modules/translation/TranslationModule.ts:458-540 | a character that neither the text nor the replacement holds is not brought in by a replace |
| Translation.FilterNoSpace | src/modules/translation/TranslationModule.ts:544 | a text of white space alone holds no other character |
| Translation.CollapseSpacing | src/modules/translation/TranslationModule.ts:544 | collapsing leaves only single spaces and starts with a space only where the text did |
| Translation.CollapseKeeps | src/modules/translation/TranslationModule.ts:544 | collapsing keeps every character other than white space, in order |
| Translation.TrimSpacing | src/modules/translation/TranslationModule.ts:544 | trimming a single-spaced text leaves single spaces strictly inside it |
| Translation.TrimKeeps | src/modules/translation/TranslationModule.ts:544 | trimming loses no character other than white space |
| Translation.CleanedFacts | src/modules/translation/TranslationModule.ts:544 | the cleaned text has single spaces strictly inside and keeps every other character of the input in order |
| Translation.TrimEndSpaces | src/modules/translation/TranslationModule.ts:544 | what trimming the end drops is white space |
| Translation.SplitWhereSplits | src/modules/translation/TranslationModule.ts:548-553 | a text holding a mark splits into at least two pieces there |
| Translation.SplitWhereKeeps | src/modules/translation/TranslationModule.ts:548-553 | pieces of a text whose characters all have a property have it too |
| Translation.TrimsLack | src/modules/translation/TranslationModule.ts:548-553 | trimming never brings in a character |
| Translation.SwapMarkLacks | src/modules/translation/TranslationModule.ts:548-553 | after a mark and the white space around it become the full-width mark, the mark is gone and nothing else is brought in |
| Translation.SwapMarksLack | src/modules/translation/TranslationModule.ts:547-553 | after the six Chinese swaps each swapped mark is gone and no character the text lacks is brought in besides the full-width marks |
| Translation.NarrowMarksLack | src/modules/translation/TranslationModule.ts:554-561 | after the six English replacements each full-width mark is gone and nothing but their replacements is brought in |
| Translation.RunEnd | src/modules/translation/TranslationModule.ts:566-568 | the run of white space starting at a position ends at the first character that is not white space |
| Translation.CapFrom | src/modules/translation/TranslationModule.ts:566-568 | the sentence-capitalising replace keeps the text's length |
| Translation.AfterStopWitness | src/modules/translation/TranslationModule.ts:566-568 | a position after a full stop and white space has that full stop |
| Translation.AfterStopFrom | src/modules/translation/TranslationModule.ts:566-568 | a full stop followed by white space up to a position puts that position after a stop |
| Translation.StepKeeps | src/modules/translation/TranslationModule.ts:566-568 | moving the search past a position that begins no match changes no capitalisation |
| Translation.JumpKeeps | src/modules/translation/TranslationModule.ts:566-568 | past a match only full stops after its word character count |
| Translation.CapFromPointwise | src/modules/translation/TranslationModule.ts:566-568 | the global search upper-cases exactly the word characters that follow a full stop and white space |
| Translation.CapitalizeSentencesPointwise | src/modules/translation/TranslationModule.ts:566-568 | the sentence starts, and only they, are upper-cased, and the length is kept |
| Translation.CapitalizeKeeps | src/modules/translation/TranslationModule.ts:564-569 | capitalising changes only ASCII lower-case letters, to their capitals, and leaves no lower-case letter at the head |
| Translation.ChineseOutputLacksAsciiMarks | src/modules/translation/TranslationModule.ts:541-573 | Chinese output holds none of the ASCII marks ,.?!:; |
| Translation.EnglishOutputFacts | src/modules/translation/TranslationModule.ts:541-573 | English output holds none of the full-width marks and starts with no ASCII lower-case letter |
| Translation.PairKeyFacts | src/modules/translation/TranslationModule.ts:310 | the pair key "zh-en" comes only from Chinese to English and "en-zh" only from English to Chinese |
| Translation.Complexity | src/modules/translation/TranslationModule.ts:660-678 | the complexity lies between 0 and 0.6; it is at least 0.3 above 1000 code units and at least 0.1 with a special character |
| Translation.Confidence | src/modules/translation/TranslationModule.ts:643-658 | the confidence lies between the clamp's 0.1 and 1.0 |
| Translation.ConfidenceFacts | src/modules/translation/TranslationModule.ts:643-658 | the clamp never binds: the local confidence lies between 0.4592 and 0.7 and below the service's, which is at most 0.9, at most 0.72 for an unsupported pair, and a supported pair keeps the local one at 0.574 or more |
| Translation.ScaleBounds | src/modules/translation/TranslationModule.ts:648 | the complexity factor lies between 0.82 and 1 |
| Translation.GenerateAlternatives | src/modules/translation/TranslationModule.ts:680-709 | the loop yields the alternatives for the translation and the synonym table |
| Translation.SynonymsWellFormed | src/modules/translation/TranslationModule.ts:685-694 | every synonym entry has three choices, the first different from the word and free of '$' |
| Translation.SpliceDiffers | src/modules/translation/TranslationModule.ts:699-704 | replacing a word by a different text changes the translation |
| Translation.AlternativesFromFacts | src/modules/translation/TranslationModule.ts:680-709 | for any well-formed synonym table there is at most one alternative, and one exactly when the translation holds a table word; it replaces the first occurrence of the first such word with its first synonym |
| Translation.CreateResponse | src/modules/translation/TranslationModule.ts:619-641 | the response keeps the original and the translated text and the method, with a confidence between 0.4592 and 0.9 and at most one alternative |
| Translation.LocalTranslation | src/modules/translation/TranslationModule.ts:371-407 | every recorded pair is a listed entry whose word the original text holds between `\b` boundaries as written, that is next to ASCII word characters only |
| Translation.TranslationModule.constructor | src/modules/translation/TranslationModule.ts:14-25 | a new module is neither loaded nor ready, with no key and no dictionaries |
| Translation.TranslationModule.Initialize | src/modules/translation/TranslationModule.ts:27-38 | initialising installs both dictionaries under their pair keys, takes the configured key or else the stored one, and marks the module loaded and ready |
| Translation.TranslationModule.Cleanup | src/modules/translation/TranslationModule.ts:88-92 | cleanup marks the module neither loaded nor ready, drops the dictionaries and keeps the key |
| Translation.TranslationModule.Process | src/modules/translation/TranslationModule.ts:40-86 | a module that is not ready fails; with a key and a request that calls for it the service's answer is the response and a failed call a failure; otherwise the pair's dictionary translates locally with the `\b` boundaries as written, a pair without one fails, and a ready module without a key always answers a supported pair |
| Shortcuts.GetKeyString | src/hooks/useShortcuts.ts:60-85 | the key string is Cmd (for Ctrl or Meta), Alt and Shift as pressed, then the key's special name or its upper-cased text, joined with '+' |
| Shortcuts.UpperKeeps | src/hooks/useShortcuts.ts:81 | upper-casing neither brings in nor removes a character that is not a letter |
| Shortcuts.KeyNamePlus | src/hooks/useShortcuts.ts:68-81 | the key's name holds '+' exactly when the key does |
| Shortcuts.KeyStringParts | src/hooks/useShortcuts.ts:60-85 | for a key without '+', splitting the key string at '+' gives back the modifiers and the key's name |
| Shortcuts.KeyStringInjective | src/hooks/useShortcuts.ts:60-85 | for keys without '+', two presses give the same key string if and only if they have the same modifiers and the same key name |
| Shortcuts.PlusKeyAmbiguous | src/hooks/useShortcuts.ts:81-84 | Shift with the '+' key gives "Shift++", which splits into three parts, so the string no longer reads back |
| Shortcuts.HandleKeyDown | src/hooks/useShortcuts.ts:20-47 | the handler's outcome is the handling of the press, and a triggered shortcut matches the pressed key string |
| Shortcuts.HandleFacts | src/hooks/useShortcuts.ts:20-47 | a press is ignored exactly when the hook is disabled or the target is editable; otherwise the first shortcut whose key matches ignoring case is triggered, and none is exactly when no key matches |
| Shortcuts.CtrlIsMeta | src/hooks/useShortcuts.ts:63 | Ctrl and Meta give the same key string |
| Shortcuts.LowerUpper | src/hooks/useShortcuts.ts:36-38 | lower-casing an upper-cased key is lower-casing the key, so the match ignores case |
| Shortcuts.CtrlPressString | src/hooks/useShortcuts.ts:60-85 | Ctrl with a character, with or without Shift, gives "Cmd+" or "Cmd+Shift+" and the character upper-cased |
| Shortcuts.DefaultShortcutsReachable | src/hooks/useShortcuts.ts:103-114 | every default shortcut is the key string of some key press |
| Shortcuts.SavePressed | src/hooks/useShortcuts.ts:20-47 | Ctrl+S gives "Cmd+S" and triggers the save shortcut, except while typing in a text area |

## Left out
- src-tauri/src/main.rs is not part of this model. It is command glue around a shared `Arc<Mutex<StorageService>>`, and its locking is concurrency, so locks are treated as always acquired.
- Real SQL text, `init_tables`, `create_dir_all` bootstrapping, and real file reads and writes are not modelled. Tables are maps, files are a path → text map, and I/O failures are fault parameters.
- `FileHandler::list_directory`, `delete_file` and `get_file_info` are left out. They only report file-system metadata or remove a file, with no logic over text.
- The `StorageService` pass-throughs for semantic terms, consistency rules and the analysis cache, and `get_config`/`update_config`, are left out. They only forward to `Database`, which is modelled.
- `Utc::now`, `Uuid::new_v4`, `crypto.randomUUID`, `Date.now` and `Math.random` are parameters. `DefaultHasher` is an uninterpreted hash parameter.
- Network clients are replaced by `Option` reply parameters. These are the OpenAI `fetch` calls in the modules, src/services/aiService.ts, the `invoke` wrappers of src/services/tauriService.ts, and dialogs. API keys from `localStorage` and `import.meta.env` are parameters too.
- src/modules/rewriting/RewritingModule.ts is not part of this model, because its output is driven by `Math.random`.
- The summarisation expansion helpers are also random, so the local expansion text is a parameter.
- Floating-point metrics are not modelled. These include `updatePerformanceMetrics`, `getStatus` figures, request ids, processing times, and the compression and expansion ratios.
- Sentence scores in summarisation are an input function. Keyword densities and similarity scores are exact reals, so float rounding is not modelled.
- Regular-expression engines are replaced by their matches as inputs. This covers:
  - the term extractor's four patterns;
  - grammar rule patterns and validators;
  - summarisation keyword tests;
  - the translation style and sentence-structure chains, and `hasComplexStructure`;
  - SEO tag counts and the SEO alt-text rewrite.
- Lower- and upper-casing are ASCII-only. Non-ASCII letters keep their case.
- String indices count characters. Where the source measures UTF-16 length or char codes (`content.length`, `charCodeAt`), characters are taken to be in the Basic Multilingual Plane. The emoji of the text generation demo texts lie outside it, so each counts as one character here and as two in the source.
- `Semantics`: `detectStructureInconsistencies` and `calculateSimilarity` are left out, because they rest on floating-point similarity. `getTextAtPosition` always returns "" in the source and is modelled as that constant.
- `Seo`: the keyword-distribution figures and the prose of the suggestion descriptions are left out. Suggestion kinds, priorities, titles and conditions are modelled.
- `Shortcuts`: the hook's listener wiring (`useEffect`, `useGlobalShortcuts`' `registerShortcut`), `preventDefault`/`stopPropagation` and the action call are left out. The matched shortcut's index stands for the action that runs.
- `Templates`: apart from the all-digit names (`TagPattern`), a variable's name is matched as literal text. The source builds its patterns with `new RegExp` from the unescaped name (src/modules/templates/TemplateModule.ts:391-403), so a name holding `.`, `+`, `(` or `,` also matches other text there and a name holding `[` throws. The rendering lemmas are stated for names of word characters that are not all digits (`WordName`), for which the two agree.
- DefaultSubstituted: stated only for `WordName` names. For an all-digit name the placeholder is not replaced at all (`Templates.DigitPlaceholderKept`) or, for a name worth 0, every closing brace is (`Templates.ZeroNameReplacesBraces`).
- `TextGeneration`: a content type that names an `Object.prototype` member (`constructor`, `toString`) is treated as one without a demo text. In the source `demoContents[type]` then yields that inherited function, which is not text.
- `Templates`: ids come from a parameter. Two `createTemplate` calls given the same id overwrite each other, as `Date.now` colliding would in the source.
- React components, the timer hooks, the platform service, the worker manager and type-only files are not part of this model. The records of src/types/index.ts are mirrored as datatypes in `Types`.
- Summarization.KeyPointsFacts does not promise distinct key points. The source does not deduplicate either, so a text that repeats a keyword sentence repeats the point.

## Findings

| source | as written | input that shows it | evidently intended | confidence | as-written member | corrected member |
|---|---|---|---|---|---|---|
| src-tauri/src/database.rs:298-309 | `is_active` is bound as the text "true"/"false" into a BOOLEAN column, and the reader selects `is_active = 1` | any rule saved with `is_active = true` is stored as TEXT 'true', so it never equals 1 and is never returned | active rules are returned by `get_consistency_rules` | not executed | Database.SavedRuleNeverSelected | Database.SavedRuleReadsBack |
| src/modules/seo/SEOModule.ts:343-352 | readability divides words by sentences without a floor on the divisor | content "" or "   " gives 0/0 = NaN, which passes through `Math.max`/`Math.min` unclamped | a score in [0,100] that is 0 for a text without a sentence, which scores the same SEO points as the NaN | not executed | Seo.ReadabilityNaNIffBlank | Seo.ReadabilityPointsAgree |
| src/services/semanticEngine.ts:16-37 | the term cache is keyed by the 32-bit `hashContent` of the content | "Aa" and "BB" both hash to "2112", so extracting "BB" after "Aa" returns the terms of "Aa" | cached terms are returned only for the same content | not executed | Semantics.HashKeyedCacheServesOtherContent | Semantics.ServeByContentTransparent |
| src/modules/templates/TemplateModule.ts:400 | `String(value)` is passed as the replacement string of `String.replace` | the value "$$5" renders as "$5" | the value is inserted verbatim | not executed | Templates.DollarPatternInValue | Templates.StepWithoutDollar |
| src/modules/summarization/SummarizationModule.ts:161-170 | the local summary joins sentences whose 。！？ were stripped by the split, and bullet points and outlines re-split on those marks | any text of two or more sentences summarised as bullet_points yields a single bullet | one bullet or outline line per selected sentence | not executed | Summarization.LocalSummaryHasOnePoint | Summarization.SummaryTextListsEverySentence |
| src/modules/translation/TranslationModule.ts:386 | dictionary words are matched inside `\b…\b` | "你好" from zh to en stays "你好", since `\b` needs an ASCII word character beside it | "你好" becomes "hello" | not executed | Translation.UnspacedTextNeverMatches | Translation.CjkWordFound |
