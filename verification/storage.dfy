/** The storage service of the Tauri back end (src-tauri/src/storage.rs): a write-through
    document cache in front of the store, plus the file operations routed through the file
    handler. Locks are taken to be always acquired; the clock, fresh ids and driver or file
    system failures are parameters. */
module Storage {
  import opened Wrappers
  import opened Text
  import opened Chrono
  import opened Sorting
  import opened Database
  import opened FileHandling

  /** struct StorageConfig. */
  datatype StorageConfig = StorageConfig(appDataDir: String, autoSaveInterval: nat,
                                         maxBackups: nat, cacheSizeLimit: nat)

  /** StorageConfig::default, with the application directory filled in as `new` does. */
  function DefaultConfig(appDataDir: String): (c: StorageConfig)
    ensures c.appDataDir == appDataDir
    ensures c.autoSaveInterval == 30 && c.maxBackups == 10 && c.cacheSizeLimit == 100
  {
    StorageConfig(appDataDir, 30, 10, 100)
  }

  /** struct StorageStats. */
  datatype StorageStats = StorageStats(totalDocuments: nat, totalWords: int,
                                       totalCharacters: nat, cachedDocuments: nat,
                                       databasePath: String, appDataDir: String)

  /** How the driver's error reads once formatted into a message. */
  function ErrorText(e: DbError): String {
    match e
    case InvalidColumnType(column, name) =>
      "Invalid column type Text at index: " + NatToDecimal(column) + ", name: " + name
    case Failed(message) => message
  }

  /** The record create_document builds. */
  function NewDocument(id: String, title: String, content: String, now: UtcDateTime): (d: Document)
    ensures d.id == id && d.title == title && d.content == content
    ensures d.filePath == None && d.createdAt == now && d.updatedAt == now
    ensures d.wordCount == AsI32(WordCount(content, IsRustSpace))
  {
    Document(id, title, content, None, now, now, AsI32(WordCount(content, IsRustSpace)))
  }

  /** The record update_document saves: a new title or content only when given, the word
      count recomputed only with new content, and a new `updated_at` in every case. */
  function UpdatedDocument(d: Document, title: Option<String>, content: Option<String>,
                           now: UtcDateTime): (u: Document)
    ensures u.id == d.id && u.filePath == d.filePath && u.createdAt == d.createdAt
    ensures u.updatedAt == now
    ensures u.title == (if title.Some? then title.value else d.title)
    ensures u.content == (if content.Some? then content.value else d.content)
    ensures u.wordCount == (if content.Some? then AsI32(WordCount(content.value, IsRustSpace))
                            else d.wordCount)
  {
    var u := d.(title := title.GetOr(d.title), updatedAt := now);
    if content.Some? then
      u.(content := content.value, wordCount := AsI32(WordCount(content.value, IsRustSpace)))
    else u
  }

  /** What a reader of the store sees for `id`, with the driver's error as a message. */
  function StoreView(table: map<String, DocumentRow>, id: String): (r: Result<Option<Document>, String>)
    ensures r.Ok? <==> FindDocument(table, id).Ok?
    ensures r.Ok? ==> r.value == FindDocument(table, id).value
  {
    match FindDocument(table, id)
    case Ok(o) => Ok(o)
    case Err(e) => Err("Failed to get document: " + ErrorText(e))
  }

  /** `d.word_count as usize` on a 64-bit target: a negative count wraps. */
  function I32AsUsize(n: int): (r: nat)
    requires -0x8000_0000 <= n < 0x8000_0000
    ensures 0 <= n ==> r == n
    ensures n < 0 ==> r == n + 0x1_0000_0000_0000_0000
  {
    if n < 0 then n + 0x1_0000_0000_0000_0000 else n
  }

  /** The sum of the word counts of a listing, each cast as above. */
  function TotalWords(ds: seq<Document>): (r: int)
    ensures (forall i :: 0 <= i < |ds| ==> 0 <= ds[i].wordCount < 0x8000_0000) ==> 0 <= r
  {
    if ds == [] then 0
    else (if -0x8000_0000 <= ds[0].wordCount < 0x8000_0000 then I32AsUsize(ds[0].wordCount)
          else ds[0].wordCount) + TotalWords(ds[1..])
  }

  /** The sum of the UTF-8 byte lengths of the contents of a listing. */
  function TotalBytes(ds: seq<Document>): (r: nat)
    ensures forall i :: 0 <= i < |ds| ==> Utf8Len(ds[i].content) <= r
  {
    if ds == [] then 0 else Utf8Len(ds[0].content) + TotalBytes(ds[1..])
  }

  /** calculate_content_hash: the 64-bit hasher output (a parameter) in lower-case hex. */
  function ContentHash(content: String, hasher: String -> nat): String {
    NatToHex(hasher(content) % 0x1_0000_0000_0000_0000)
  }

  /** Equal hash texts mean equal hasher outputs and conversely: the hex rendering loses
      nothing. */
  lemma ContentHashFaithful(a: String, b: String, hasher: String -> nat)
    ensures ContentHash(a, hasher) == ContentHash(b, hasher)
            <==> hasher(a) % 0x1_0000_0000_0000_0000 == hasher(b) % 0x1_0000_0000_0000_0000
  {
    HexRoundTrip(hasher(a) % 0x1_0000_0000_0000_0000);
    HexRoundTrip(hasher(b) % 0x1_0000_0000_0000_0000);
  }

  /** Every cached document is exactly what the store would give for its id. */
  ghost predicate CacheCoherent(cache: map<String, Document>, table: map<String, DocumentRow>) {
    forall k :: k in cache ==> k in table && DecodeDocument(table[k]) == Ok(cache[k])
  }

  class StorageService {
    const db: Database
    const files: FileHandler
    var config: StorageConfig
    var cache: map<String, Document>

    ghost predicate Valid()
      reads this, db
    {
      db.Valid() && CacheCoherent(cache, db.documents)
    }

    /** StorageService::new over a fresh store; `config.app_data_dir` is the handler's. */
    constructor (appDataDir: String)
      ensures Valid() && fresh(db) && fresh(files)
      ensures cache == map[] && db.documents == map[] && files.files == map[]
      ensures config == DefaultConfig(appDataDir) && files.appDataDir == appDataDir
    {
      db := new Database();
      files := new FileHandler(appDataDir);
      config := DefaultConfig(appDataDir);
      cache := map[];
    }

    /** create_document: saves a new record, then caches it under its id. */
    method CreateDocument(title: String, content: String, id: String, now: UtcDateTime,
                          fault: Option<String>)
      returns (r: Result<String, String>)
      requires Valid()
      modifies this, db
      ensures Valid()
      ensures fault.None? ==>
                r == Ok(id)
                && db.documents == old(db.documents)[id := EncodeDocument(NewDocument(id, title, content, now))]
                && cache == old(cache)[id := NewDocument(id, title, content, now)]
      ensures fault.Some? ==>
                r == Err("Failed to save document: " + fault.value)
                && db.documents == old(db.documents) && cache == old(cache)
      ensures db.terms == old(db.terms) && db.rules == old(db.rules) && db.analyses == old(db.analyses)
      ensures config == old(config)
    {
      var d := NewDocument(id, title, content, now);
      var saved := db.SaveDocument(d, fault);
      if saved.Err? {
        return Err("Failed to save document: " + ErrorText(saved.error));
      }
      DocumentRoundTrip(d);
      cache := cache[id := d];
      return Ok(id);
    }

    /** update_document: reads the record from the store (never the cache), applies the
        given fields, saves it and overwrites the cache entry. */
    method UpdateDocument(id: String, title: Option<String>, content: Option<String>,
                          now: UtcDateTime, fault: Option<String>)
      returns (r: Result<(), String>)
      requires Valid()
      modifies this, db
      ensures Valid()
      ensures old(StoreView(db.documents, id)).Err? ==> r == Err(old(StoreView(db.documents, id)).error)
      ensures old(StoreView(db.documents, id)) == Ok(None) ==> r == Err("Document not found")
      ensures r.Ok? <==> old(StoreView(db.documents, id)).Ok? && old(StoreView(db.documents, id)).value.Some?
                         && fault.None?
      ensures r.Ok? ==>
                var u := UpdatedDocument(old(StoreView(db.documents, id)).value.value, title, content, now);
                db.documents == old(db.documents)[id := EncodeDocument(u)] && cache == old(cache)[id := u]
      ensures r.Err? ==> db.documents == old(db.documents) && cache == old(cache)
      ensures db.terms == old(db.terms) && db.rules == old(db.rules) && db.analyses == old(db.analyses)
      ensures config == old(config)
    {
      var found := db.GetDocument(id);
      if found.Err? {
        return Err("Failed to get document: " + ErrorText(found.error));
      }
      if found.value.None? {
        return Err("Document not found");
      }
      var u := UpdatedDocument(found.value.value, title, content, now);
      var saved := db.SaveDocument(u, fault);
      if saved.Err? {
        return Err("Failed to update document: " + ErrorText(saved.error));
      }
      DocumentRoundTrip(u);
      cache := cache[id := u];
      return Ok(());
    }

    /** get_document: a cached record is returned as is; on a miss the store is read and a
        found record is cached. Whichever path is taken, the caller sees what the store
        holds: the cache is invisible to readers. */
    method GetDocument(id: String) returns (r: Result<Option<Document>, String>)
      requires Valid()
      modifies this
      ensures Valid() && config == old(config)
      ensures r == StoreView(db.documents, id)
      ensures id in old(cache) ==> r == Ok(Some(old(cache)[id])) && cache == old(cache)
      ensures id !in old(cache) && r.Ok? && r.value.Some? ==> cache == old(cache)[id := r.value.value]
      ensures id !in old(cache) && !(r.Ok? && r.value.Some?) ==> cache == old(cache)
    {
      if id in cache {
        return Ok(Some(cache[id]));
      }
      var found := db.GetDocument(id);
      if found.Err? {
        return Err("Failed to get document: " + ErrorText(found.error));
      }
      if found.value.Some? {
        cache := cache[id := found.value.value];
      }
      return Ok(found.value);
    }

    /** list_documents: the store's listing, newest first. */
    method ListDocuments() returns (r: Result<seq<Document>, String>)
      requires Valid()
      ensures r.Ok? <==> forall k :: k in db.documents ==> DecodeDocument(db.documents[k]).Ok?
      ensures r.Ok? ==> SortedBy(r.value, NewerFirst) && |r.value| == |db.documents|
      ensures r.Ok? ==> forall d :: d in r.value ==> d.id in db.documents && DecodeDocument(db.documents[d.id]) == Ok(d)
      ensures r.Ok? ==> forall k :: k in db.documents ==> DecodeDocument(db.documents[k]).value in r.value
    {
      var listed := db.ListDocuments();
      if listed.Err? {
        return Err("Failed to list documents: " + ErrorText(listed.error));
      }
      return Ok(listed.value);
    }

    /** The backup delete_document attempts: of the stored record, when there is one; a
        failed write is ignored. */
    method BackupStored(id: String, now: UtcDateTime, backupFault: Option<String>)
      modifies files
      ensures var found := FindDocument(db.documents, id);
              files.files == if found.Ok? && found.value.Some? && backupFault.None?
                             then old(files.files)[JoinPath(files.BackupsDir(), BackupFileName(found.value.value.title, now))
                                                   := BackupBody(found.value.value)]
                             else old(files.files)
    {
      var found := db.GetDocument(id);
      if found.Ok? && found.value.Some? {
        var _ := files.CreateBackup(found.value.value, now, backupFault);
      }
    }

    /** delete_document: a backup of the stored record is attempted first and its failure
        ignored; then the store deletes, and only a successful delete uncaches the id. */
    method DeleteDocument(id: String, now: UtcDateTime, backupFault: Option<String>,
                          failAt: Option<nat>)
      returns (r: Result<(), String>)
      requires Valid()
      requires failAt.None? || 1 <= failAt.value <= 3
      modifies this, db, files
      ensures Valid()
      ensures r.Ok? <==> failAt.None?
      ensures r.Ok? ==> db.documents == old(db.documents) - {id} && cache == old(cache) - {id}
      ensures r.Err? ==> db.documents == old(db.documents) && cache == old(cache)
      ensures db.terms == if failAt == Some(1) then old(db.terms) else RowsOutside(old(db.terms), TermDocument, id)
      ensures db.analyses == if failAt == Some(1) || failAt == Some(2) then old(db.analyses)
                             else RowsOutside(old(db.analyses), AnalysisDocument, id)
      ensures config == old(config)
      ensures var found := FindDocument(old(db.documents), id);
              files.files == if found.Ok? && found.value.Some? && backupFault.None?
                             then old(files.files)[JoinPath(files.BackupsDir(), BackupFileName(found.value.value.title, now))
                                                   := BackupBody(found.value.value)]
                             else old(files.files)
      ensures db.rules == old(db.rules)
    {
      BackupStored(id, now, backupFault);
      ghost var written := files.files;
      var deleted := db.DeleteDocument(id, failAt);
      assert files.files == written;
      if deleted.Err? {
        return Err("Failed to delete document: " + ErrorText(deleted.error));
      }
      cache := cache - {id};
      return Ok(());
    }

    /** import_document, routed to the file handler; `id` is the fresh id it draws. */
    method ImportDocument(path: String, id: String, now: UtcDateTime, dbFault: Option<String>)
      returns (r: Result<ImportResult, String>)
      requires Valid() && id !in db.documents
      modifies db
      ensures Valid() && cache == old(cache)
      ensures path !in files.files ==> r.Err?
      ensures path in files.files && dbFault.None? ==>
                r == Ok(ImportResult(true, Some(id), "Document imported successfully"))
                && db.documents == old(db.documents)[id := EncodeDocument(ImportedDocument(path, files.files[path], id, now))]
      ensures path in files.files && dbFault.Some? ==>
                r == Ok(ImportResult(false, None, "Failed to save document: " + dbFault.value))
      ensures !(path in files.files && dbFault.None?) ==> db.documents == old(db.documents)
      ensures db.terms == old(db.terms) && db.rules == old(db.rules) && db.analyses == old(db.analyses)
    {
      r := files.ImportDocument(path, db, id, now, dbFault);
    }

    /** restore_from_backup, routed to the file handler; `id` is the fresh id it draws. */
    method RestoreFromBackup(path: String, id: String, now: UtcDateTime, dbFault: Option<String>)
      returns (r: Result<ImportResult, String>)
      requires Valid() && id !in db.documents
      modifies db
      ensures Valid() && cache == old(cache)
      ensures path !in files.files ==> r.Err?
      ensures path in files.files && dbFault.None? ==>
                r == Ok(ImportResult(true, Some(id), "Document restored successfully"))
                && db.documents == old(db.documents)[id := EncodeDocument(RestoredDocument(path, files.files[path], id, now))]
      ensures path in files.files && dbFault.Some? ==>
                r == Ok(ImportResult(false, None, "Failed to restore document: " + dbFault.value))
      ensures !(path in files.files && dbFault.None?) ==> db.documents == old(db.documents)
      ensures db.terms == old(db.terms) && db.rules == old(db.rules) && db.analyses == old(db.analyses)
    {
      r := files.RestoreFromBackup(path, db, id, now, dbFault);
    }

    /** export_document: resolves the record through the cache-aware read. */
    method ExportDocument(id: String, exportPath: String, fault: Option<String>)
      returns (r: Result<(), String>)
      requires Valid()
      modifies this, files
      ensures Valid() && db.documents == old(db.documents) && config == old(config)
      ensures id in old(cache) ==> cache == old(cache)
      ensures id !in old(cache) && StoreView(db.documents, id).Ok? && StoreView(db.documents, id).value.Some? ==>
                cache == old(cache)[id := StoreView(db.documents, id).value.value]
      ensures id !in old(cache) && !(StoreView(db.documents, id).Ok? && StoreView(db.documents, id).value.Some?) ==>
                cache == old(cache)
      ensures var seen := StoreView(db.documents, id);
              && (seen.Err? ==> r == Err(seen.error) && files.files == old(files.files))
              && (seen.Ok? && seen.value.None? ==> r == Err("Document not found") && files.files == old(files.files))
              && (seen.Ok? && seen.value.Some? ==>
                    (r.Ok? <==> fault.None?)
                    && files.files == if fault.None? then old(files.files)[exportPath := ExportText(seen.value.value, exportPath)]
                                      else old(files.files))
    {
      var found := GetDocument(id);
      if found.Err? {
        return Err(found.error);
      }
      if found.value.None? {
        return Err("Document not found");
      }
      r := files.ExportDocument(found.value.value, exportPath, fault);
    }

    /** create_backup: resolves the record through the cache-aware read and writes its
        backup, returning the backup's path. */
    method CreateBackup(id: String, now: UtcDateTime, fault: Option<String>)
      returns (r: Result<String, String>)
      requires Valid()
      modifies this, files
      ensures Valid() && db.documents == old(db.documents) && config == old(config)
      ensures id in old(cache) ==> cache == old(cache)
      ensures id !in old(cache) && StoreView(db.documents, id).Ok? && StoreView(db.documents, id).value.Some? ==>
                cache == old(cache)[id := StoreView(db.documents, id).value.value]
      ensures id !in old(cache) && !(StoreView(db.documents, id).Ok? && StoreView(db.documents, id).value.Some?) ==>
                cache == old(cache)
      ensures StoreView(db.documents, id).Err? ==>
                r == Err(StoreView(db.documents, id).error) && files.files == old(files.files)
      ensures StoreView(db.documents, id).Ok? && StoreView(db.documents, id).value.None? ==>
                r == Err("Document not found") && files.files == old(files.files)
      ensures StoreView(db.documents, id).Ok? && StoreView(db.documents, id).value.Some? ==>
                var d := StoreView(db.documents, id).value.value;
                var path := JoinPath(files.BackupsDir(), BackupFileName(d.title, now));
                (r.Ok? <==> fault.None?)
                && (r.Ok? ==> r.value == path)
                && files.files == if fault.None? then old(files.files)[path := BackupBody(d)]
                                  else old(files.files)
    {
      var found := GetDocument(id);
      r := BackupFound(found, now, fault);
    }

    /** The rest of create_backup, once the record has been looked up. */
    method BackupFound(found: Result<Option<Document>, String>, now: UtcDateTime, fault: Option<String>)
      returns (r: Result<String, String>)
      modifies files
      ensures found.Err? ==> r == Err(found.error) && files.files == old(files.files)
      ensures found.Ok? && found.value.None? ==> r == Err("Document not found") && files.files == old(files.files)
      ensures found.Ok? && found.value.Some? ==>
                var path := JoinPath(files.BackupsDir(), BackupFileName(found.value.value.title, now));
                (r.Ok? <==> fault.None?)
                && (r.Ok? ==> r.value == path)
                && files.files == if fault.None? then old(files.files)[path := BackupBody(found.value.value)]
                                  else old(files.files)
    {
      if found.Err? {
        return Err(found.error);
      }
      if found.value.None? {
        return Err("Document not found");
      }
      r := files.CreateBackup(found.value.value, now, fault);
    }

    /** clear_document_cache: empties the cache and nothing else. */
    method ClearDocumentCache()
      requires Valid()
      modifies this
      ensures Valid() && cache == map[] && config == old(config)
    {
      cache := map[];
    }

    /** get_cache_size. */
    method GetCacheSize() returns (n: nat)
      ensures n == |cache|
    {
      n := |cache|;
    }

    /** get_storage_stats: reads the listing and the cache, changes nothing. */
    method GetStorageStats() returns (r: Result<StorageStats, String>)
      requires Valid()
      ensures r.Ok? <==> forall k :: k in db.documents ==> DecodeDocument(db.documents[k]).Ok?
      ensures r.Ok? ==> r.value.totalDocuments == |db.documents| && r.value.cachedDocuments == |cache|
      ensures r.Ok? ==> r.value.cachedDocuments <= r.value.totalDocuments
      ensures r.Ok? ==> r.value.databasePath == files.DatabasePath() && r.value.appDataDir == config.appDataDir
      ensures r.Ok? ==> exists ds: seq<Document> ::
                |ds| == |db.documents| && r.value.totalWords == TotalWords(ds)
                && r.value.totalCharacters == TotalBytes(ds)
                && (forall d :: d in ds ==> d.id in db.documents && DecodeDocument(db.documents[d.id]) == Ok(d))
                && forall k :: k in db.documents ==> DecodeDocument(db.documents[k]).value in ds
    {
      var listed := db.ListDocuments();
      if listed.Err? {
        return Err("Failed to get documents: " + ErrorText(listed.error));
      }
      var ds := listed.value;
      CacheWithinStore(cache, db.documents);
      return Ok(StorageStats(|ds|, TotalWords(ds), TotalBytes(ds), |cache|,
                             files.DatabasePath(), config.appDataDir));
    }
  }

  /** A coherent cache holds no more entries than the store. */
  lemma CacheWithinStore(cache: map<String, Document>, table: map<String, DocumentRow>)
    requires CacheCoherent(cache, table)
    ensures |cache| <= |table|
  {
    assert cache.Keys <= table.Keys;
    SubsetCardinality(cache.Keys, table.Keys);
  }

  lemma {:induction false} SubsetCardinality<K>(a: set<K>, b: set<K>)
    requires a <= b
    ensures |a| <= |b|
  {
    if a != {} {
      var x :| x in a;
      SubsetCardinality(a - {x}, b - {x});
    }
  }
}
