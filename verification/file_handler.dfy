/** The file side of the Tauri back end (src-tauri/src/file_handler.rs): import, export,
    backup and restore. The file system is a map from path to text; the text formats and the
    path arithmetic are pure functions, the operations that read, write and save are methods. */
module FileHandling {
  import opened Wrappers
  import opened Text
  import opened Chrono
  import opened Database

  datatype ImportResult = ImportResult(success: bool, documentId: Option<String>, message: String)

  // ---------------------------------------------------------------- paths

  function LastIndexOfChar(s: String, c: char): (r: Option<nat>)
    ensures r.Some? ==> r.value < |s| && s[r.value] == c
    ensures r.Some? ==> forall j :: r.value < j < |s| ==> s[j] != c
    ensures r.None? ==> forall j :: 0 <= j < |s| ==> s[j] != c
  {
    if s == [] then None
    else if s[|s| - 1] == c then Some(|s| - 1)
    else LastIndexOfChar(s[..|s| - 1], c)
  }

  /** `Path::file_name`: the last component once trailing separators and trailing "."
      components are ignored; none for an empty path, a root, a leading "." or "..". */
  function FileName(path: String): (r: Option<String>)
    decreases |path|
    ensures r.Some? ==> r.value != [] && r.value != "." && r.value != ".."
    ensures r.Some? ==> forall j :: 0 <= j < |r.value| ==> r.value[j] != '/'
  {
    var trimmed := TrimEnd(path, c => c == '/');
    if trimmed == "." then None
    else if |trimmed| >= 2 && trimmed[|trimmed| - 2..] == "/." then FileName(trimmed[..|trimmed| - 2])
    else
      var name := match LastIndexOfChar(trimmed, '/')
                  case None => trimmed
                  case Some(i) => trimmed[i + 1..];
      if name == [] || name == ".." then None else Some(name)
  }

  /** A "." component at the end names no file of its own: the name is that of the path
      before it. */
  lemma FileNameSkipsCurDir(path: String)
    ensures FileName(path + "/.") == FileName(path)
    ensures FileName(path + "/./") == FileName(path)
  {
    var p := path + "/.";
    assert TrimEnd(p, c => c == '/') == p;
    assert p[|p| - 2..] == "/.";
    assert p[..|p| - 2] == path;
    var q := path + "/./";
    assert q[..|q| - 1] == p;
    assert TrimEnd(q, c => c == '/') == p;
  }

  /** The split `file_stem` / `extension` make: at the last '.', unless that dot starts the
      name. */
  function StemAndExtension(name: String): (String, Option<String>) {
    match LastIndexOfChar(name, '.')
    case None => (name, None)
    case Some(i) => if i == 0 then (name, None) else (name[..i], Some(name[i + 1..]))
  }

  /** `Path::file_stem`. */
  function FileStem(path: String): Option<String> {
    match FileName(path)
    case None => None
    case Some(name) => Some(StemAndExtension(name).0)
  }

  /** `Path::extension`. */
  function Extension(path: String): Option<String> {
    match FileName(path)
    case None => None
    case Some(name) => StemAndExtension(name).1
  }

  /** `PathBuf::join` with a relative name. */
  function JoinPath(dir: String, name: String): String {
    if dir == [] then name else if dir[|dir| - 1] == '/' then dir + name else dir + "/" + name
  }

  // ---------------------------------------------------------------- formats

  /** The document import_document builds: the stem as title ("Untitled" without one), the
      content unchanged whatever the extension, the whitespace token count, the path, and one
      instant for both timestamps. */
  function ImportedDocument(path: String, content: String, id: String, now: UtcDateTime): (d: Document)
    ensures d.content == content && d.filePath == Some(path) && d.createdAt == d.updatedAt == now
    ensures d.title == (if FileStem(path).Some? then FileStem(path).value else "Untitled")
    ensures d.wordCount == AsI32(WordCount(content, IsRustSpace))
  {
    Document(id, FileStem(path).GetOr("Untitled"), content, Some(path), now, now,
             AsI32(WordCount(content, IsRustSpace)))
  }

  /** What export_document writes: a markdown heading for the extensions "md" and "markdown"
      (matched with their case), the bare content for any other. */
  function ExportText(d: Document, exportPath: String): (r: String)
    ensures Extension(exportPath) in {Some("md"), Some("markdown")} ==> r == "# " + d.title + "\n\n" + d.content
    ensures Extension(exportPath) !in {Some("md"), Some("markdown")} ==> r == d.content
  {
    var ext := Extension(exportPath);
    if ext == Some("md") || ext == Some("markdown") then "# " + d.title + "\n\n" + d.content
    else d.content
  }

  /** The backup file name: the title with ' ' and '/' turned into '_', an underscore, the
      YYYYMMDD_HHMMSS stamp of `now`, and ".backup.md". */
  function BackupFileName(title: String, now: UtcDateTime): String {
    ReplaceChar(ReplaceChar(title, ' ', '_'), '/', '_') + "_" + StampText(now) + ".backup.md"
  }

  /** A backup file name holds no '/' and ends in ".backup.md". */
  lemma BackupFileNameFacts(title: String, now: UtcDateTime)
    ensures var r := BackupFileName(title, now);
            (forall j :: 0 <= j < |r| ==> r[j] != '/') && EndsWith(r, ".backup.md")
  {
    var safe := ReplaceChar(ReplaceChar(title, ' ', '_'), '/', '_');
    var stamp := StampText(now);
    var r := BackupFileName(title, now);
    assert Avoids(safe, '/');
    StampAvoids(now, '/');
    assert Avoids("_", '/') && Avoids(".backup.md", '/');
    AvoidsConcat(safe, "_", '/');
    AvoidsConcat(safe + "_", stamp, '/');
    AvoidsConcat(safe + "_" + stamp, ".backup.md", '/');
    assert r[|r| - |".backup.md"|..] == ".backup.md";
  }

  const Delimiter: String := "---\n\n"

  /** The operating system's message for a missing file. */
  const NotFound: String := "No such file or directory (os error 2)"

  /** Everything of a backup that precedes the delimiter. */
  function BackupHeader(d: Document): String {
    "# " + d.title + " (Backup)\n\nCreated: " + HumanText(d.createdAt)
    + "\nLast Modified: " + HumanText(d.updatedAt)
    + "\nWord Count: " + IntToDecimal(d.wordCount) + "\n\n"
  }

  /** The text create_backup writes. */
  function BackupBody(d: Document): String {
    BackupHeader(d) + Delimiter + d.content
  }

  /** What restore_from_backup takes as content: the text after the first delimiter when it
      occurs past the start, otherwise (absent, or at index 0) the whole file. */
  function RestoredContent(text: String): (r: String)
    ensures IndexOf(text, Delimiter).Some? && IndexOf(text, Delimiter).value > 0
            ==> r == text[IndexOf(text, Delimiter).value + 5..]
    ensures (IndexOf(text, Delimiter).None? || IndexOf(text, Delimiter).value == 0) ==> r == text
  {
    var start := IndexOf(text, Delimiter).GetOr(0);
    if start > 0 then text[start + 5..] else text
  }

  /** The title restore_from_backup gives: the stem ("Restored Document" without one) with
      every ".backup" removed and '_' turned into ' '. */
  function RestoredTitle(path: String): (r: String)
    ensures forall j :: 0 <= j < |r| ==> r[j] != '_'
  {
    ReplaceChar(ReplaceAll(FileStem(path).GetOr("Restored Document"), ".backup", ""), '_', ' ')
  }

  /** The document restore_from_backup saves. */
  function RestoredDocument(path: String, text: String, id: String, now: UtcDateTime): (d: Document)
    ensures d.content == RestoredContent(text) && d.title == RestoredTitle(path)
    ensures d.filePath == None && d.createdAt == d.updatedAt == now
    ensures d.wordCount == AsI32(WordCount(RestoredContent(text), IsRustSpace))
  {
    var content := RestoredContent(text);
    Document(id, RestoredTitle(path), content, None, now, now, AsI32(WordCount(content, IsRustSpace)))
  }

  // ---------------------------------------------------------------- the round trip

  /** No occurrence of the delimiter lies wholly inside `s`. */
  predicate NoDelimiter(s: String) {
    forall j :: 0 <= j && j + 5 <= |s| ==> !IsAt(s, Delimiter, j)
  }

  predicate Guard(c: char) { c != '-' && c != '\n' }

  /** A text lacking '-' or lacking '\n' cannot hold the delimiter. */
  lemma NoDelimiterWithout(s: String, c: char)
    requires c == '-' || c == '\n'
    requires forall i :: 0 <= i < |s| ==> s[i] != c
    ensures NoDelimiter(s)
  {
    forall j | 0 <= j && j + 5 <= |s| ensures !IsAt(s, Delimiter, j) {
      if c == '-' { assert s[j] != Delimiter[0]; } else { assert s[j + 3] != Delimiter[3]; }
    }
  }

  /** Every character of the delimiter is '-' or '\n'. */
  lemma DelimiterUnguarded(k: int)
    requires 0 <= k < |Delimiter|
    ensures !Guard(Delimiter[k])
  {
    assert Delimiter == ['-', '-', '-', '\n', '\n'];
  }

  /** Gluing two delimiter-free texts creates no delimiter when the join has a guard: the
      last character before it or the first after it is neither '-' nor '\n', and every
      character of the delimiter is one of those. */
  lemma NoDelimiterConcat(x: String, y: String)
    requires NoDelimiter(x) && NoDelimiter(y)
    requires x == [] || y == [] || Guard(x[|x| - 1]) || Guard(y[0])
    ensures NoDelimiter(x + y)
  {
    var s := x + y;
    forall j | 0 <= j && j + 5 <= |s| ensures !IsAt(s, Delimiter, j) {
      if j + 5 <= |x| {
        assert s[j..j + 5] == x[j..j + 5];
        assert !IsAt(x, Delimiter, j);
      } else if j >= |x| {
        assert s[j..j + 5] == y[j - |x|..j - |x| + 5];
        assert !IsAt(y, Delimiter, j - |x|);
      } else if IsAt(s, Delimiter, j) {
        var w := s[j..j + 5];
        assert w == Delimiter;
        assert w[|x| - 1 - j] == x[|x| - 1] && w[|x| - j] == y[0];
        DelimiterUnguarded(|x| - 1 - j);
        DelimiterUnguarded(|x| - j);
        assert false;
      }
    }
  }

  /** NoDelimiterConcat for a non-empty right part, keeping track of the last character. */
  lemma NoDelimiterGlue(x: String, y: String)
    requires NoDelimiter(x) && NoDelimiter(y) && |y| > 0
    requires x == [] || Guard(x[|x| - 1]) || Guard(y[0])
    ensures NoDelimiter(x + y) && (x + y)[|x + y| - 1] == y[|y| - 1]
  {
    NoDelimiterConcat(x, y);
  }

  /** The fixed parts of the header hold no delimiter. */
  lemma HeaderLiteralsHaveNoDelimiter()
    ensures NoDelimiter("# ") && NoDelimiter(" (Backup)\n\nCreated: ")
    ensures NoDelimiter("\nLast Modified: ") && NoDelimiter("\nWord Count: ") && NoDelimiter("\n\n")
  {
    NoDelimiterWithout("# ", '-');
    NoDelimiterWithout(" (Backup)\n\nCreated: ", '-');
    NoDelimiterWithout("\nLast Modified: ", '-');
    NoDelimiterWithout("\nWord Count: ", '-');
    NoDelimiterWithout("\n\n", '-');
  }

  /** A labelled value glued after a text that ends in a guard keeps the header free of
      delimiters, and ends in a guard itself. */
  lemma NoDelimiterField(x: String, caption: String, v: String)
    requires NoDelimiter(x) && NoDelimiter(caption) && NoDelimiter(v)
    requires |x| > 0 && Guard(x[|x| - 1]) && |caption| > 0 && Guard(caption[|caption| - 1])
    requires |v| > 0 && Guard(v[|v| - 1])
    ensures NoDelimiter(x + caption + v) && Guard((x + caption + v)[|x + caption + v| - 1])
  {
    NoDelimiterGlue(x, caption);
    NoDelimiterGlue(x + caption, v);
  }

  /** The values the header shows hold no delimiter and end in a guard. */
  lemma HeaderValuesHaveNoDelimiter(d: Document)
    ensures NoDelimiter(HumanText(d.createdAt)) && NoDelimiter(HumanText(d.updatedAt))
    ensures NoDelimiter(IntToDecimal(d.wordCount))
    ensures Guard(IntToDecimal(d.wordCount)[|IntToDecimal(d.wordCount)| - 1])
  {
    FormatsHaveNoLineBreak(d.createdAt);
    FormatsHaveNoLineBreak(d.updatedAt);
    NoDelimiterWithout(HumanText(d.createdAt), '\n');
    NoDelimiterWithout(HumanText(d.updatedAt), '\n');
    NoDelimiterWithout(IntToDecimal(d.wordCount), '\n');
  }

  /** When the title holds no delimiter, neither does the header of a backup. */
  lemma {:induction false} HeaderHasNoDelimiter(d: Document)
    requires !Contains(d.title, Delimiter)
    ensures NoDelimiter(BackupHeader(d))
  {
    var a := HumanText(d.createdAt);
    var b := HumanText(d.updatedAt);
    var n := IntToDecimal(d.wordCount);
    HeaderValuesHaveNoDelimiter(d);
    HeaderLiteralsHaveNoDelimiter();
    var s1 := "# " + d.title;
    NoDelimiterConcat("# ", d.title);
    var s2 := s1 + " (Backup)\n\nCreated: ";
    NoDelimiterGlue(s1, " (Backup)\n\nCreated: ");
    var s3 := s2 + a;
    NoDelimiterGlue(s2, a);
    var s5 := s3 + "\nLast Modified: " + b;
    NoDelimiterField(s3, "\nLast Modified: ", b);
    var s7 := s5 + "\nWord Count: " + n;
    NoDelimiterField(s5, "\nWord Count: ", n);
    NoDelimiterGlue(s7, "\n\n");
    assert BackupHeader(d) == s7 + "\n\n";
  }

  /** In `h + delimiter + rest`, the first delimiter is the one after `h` when `h` holds none
      and ends in a line break. */
  lemma FirstDelimiterAfter(h: String, rest: String)
    requires NoDelimiter(h) && |h| >= 1 && h[|h| - 1] == '\n'
    ensures IndexOf(h + Delimiter + rest, Delimiter) == Some(|h|)
  {
    var body := h + Delimiter + rest;
    assert body[|h|..|h| + 5] == Delimiter;
    assert IsAt(body, Delimiter, |h|);
    forall j | 0 <= j < |h| ensures !IsAt(body, Delimiter, j) {
      if j + 5 <= |h| {
        assert body[j..j + 5] == h[j..j + 5];
        assert !IsAt(h, Delimiter, j);
      } else {
        // the delimiter has a '\n' only at offsets 3 and 4, and a '-' right after each
        // '\n' is impossible, so a match ending past the last '\n' of `h` cannot start here
        var w := body[j..j + 5];
        assert w[|h| - 1 - j] == '\n' && w[|h| - j] == '-';
        assert Delimiter == ['-', '-', '-', '\n', '\n'];
        assert forall k :: 1 <= k <= 4 ==> !(Delimiter[k - 1] == '\n' && Delimiter[k] == '-');
        assert w != Delimiter;
      }
    }
  }

  /** Restoring a backup gives back the document's content, provided its title holds no
      "---\n\n" (the restore takes the text after the FIRST delimiter). */
  lemma {:induction false} BackupRestoreRoundTrip(d: Document)
    requires !Contains(d.title, Delimiter)
    ensures RestoredContent(BackupBody(d)) == d.content
  {
    var h := BackupHeader(d);
    HeaderHasNoDelimiter(d);
    assert h[|h| - 1] == '\n';
    FirstDelimiterAfter(h, d.content);
    var body := h + Delimiter + d.content;
    assert BackupBody(d) == body;
    assert body[|h| + 5..] == d.content;
  }

  /** The converse limit: a title that is the delimiter makes the restore keep part of the
      header, so the restored content is longer than the original. */
  lemma DelimiterInTitleBreaksRoundTrip(d: Document)
    requires d.title == Delimiter
    ensures RestoredContent(BackupBody(d)) != d.content
  {
    var h := BackupHeader(d);
    var body := h + Delimiter + d.content;
    assert BackupBody(d) == body;
    assert IsAt(body, Delimiter, 2) by {
      assert h[2..7] == Delimiter;
      assert body[2..7] == h[2..7];
    }
    var i := IndexOf(body, Delimiter).value;
    assert i <= 2;
    assert |h| > 7;
    var r := RestoredContent(body);
    assert |r| >= |body| - 7;
  }

  // ---------------------------------------------------------------- the handler

  class FileHandler {
    const appDataDir: String
    var files: map<String, String>

    constructor (appDataDir: String)
      ensures this.appDataDir == appDataDir && files == map[]
    {
      this.appDataDir := appDataDir;
      files := map[];
    }

    function DatabasePath(): String { JoinPath(appDataDir, "semantic_assistant.db") }

    function BackupsDir(): String { JoinPath(appDataDir, "backups") }

    /** read_file_content: fails, with the operating system's message, for a path that holds
        no file. */
    method ReadFileContent(path: String) returns (r: Result<String, String>)
      ensures path in files ==> r == Ok(files[path])
      ensures path !in files ==> r == Err("Failed to read file: " + NotFound)
    {
      if path in files {
        r := Ok(files[path]);
      } else {
        r := Err("Failed to read file: " + NotFound);
      }
    }

    /** write_file_content: `fault` is the operating system's refusal, if any. */
    method WriteFileContent(path: String, content: String, fault: Option<String>)
      returns (r: Result<(), String>)
      modifies this
      ensures r.Ok? <==> fault.None?
      ensures files == if fault.None? then old(files)[path := content] else old(files)
    {
      if fault.Some? {
        return Err("Failed to write file: " + fault.value);
      }
      files := files[path := content];
      return Ok(());
    }

    /** import_document: a read failure is an error; a store failure is a result with
        success=false and no id. */
    method ImportDocument(path: String, db: Database, id: String, now: UtcDateTime,
                          dbFault: Option<String>)
      returns (r: Result<ImportResult, String>)
      requires db.Valid()
      modifies db
      ensures db.Valid()
      ensures path !in files ==> r.Err? && db.documents == old(db.documents)
      ensures path in files ==> r.Ok? && (r.value.success <==> dbFault.None?)
      ensures path in files && dbFault.None? ==>
                r.value == ImportResult(true, Some(id), "Document imported successfully")
                && db.documents == old(db.documents)[id := EncodeDocument(ImportedDocument(path, files[path], id, now))]
      ensures path in files && dbFault.Some? ==>
                r.value == ImportResult(false, None, "Failed to save document: " + dbFault.value)
                && db.documents == old(db.documents)
      ensures db.terms == old(db.terms) && db.rules == old(db.rules) && db.analyses == old(db.analyses)
    {
      var read := ReadFileContent(path);
      if read.Err? {
        return Err(read.error);
      }
      var d := ImportedDocument(path, read.value, id, now);
      var saved := db.SaveDocument(d, dbFault);
      if saved.Ok? {
        r := Ok(ImportResult(true, Some(id), "Document imported successfully"));
      } else {
        r := Ok(ImportResult(false, None, "Failed to save document: " + dbFault.value));
      }
    }

    /** export_document. */
    method ExportDocument(d: Document, exportPath: String, fault: Option<String>)
      returns (r: Result<(), String>)
      modifies this
      ensures r.Ok? <==> fault.None?
      ensures files == if fault.None? then old(files)[exportPath := ExportText(d, exportPath)] else old(files)
    {
      r := WriteFileContent(exportPath, ExportText(d, exportPath), fault);
    }

    /** create_backup: writes the backup body under the backups directory and returns the
        path it wrote. */
    method CreateBackup(d: Document, now: UtcDateTime, fault: Option<String>)
      returns (r: Result<String, String>)
      modifies this
      ensures r.Ok? <==> fault.None?
      ensures r.Ok? ==> r.value == JoinPath(BackupsDir(), BackupFileName(d.title, now))
      ensures files == if fault.None? then old(files)[JoinPath(BackupsDir(), BackupFileName(d.title, now)) := BackupBody(d)]
                       else old(files)
    {
      var path := JoinPath(BackupsDir(), BackupFileName(d.title, now));
      var written := WriteFileContent(path, BackupBody(d), fault);
      if written.Err? {
        return Err(written.error);
      }
      return Ok(path);
    }

    /** restore_from_backup: a read failure is an error; otherwise the restored document is
        saved under the fresh id. */
    method RestoreFromBackup(path: String, db: Database, id: String, now: UtcDateTime,
                             dbFault: Option<String>)
      returns (r: Result<ImportResult, String>)
      requires db.Valid()
      modifies db
      ensures db.Valid()
      ensures path !in files ==> r.Err? && db.documents == old(db.documents)
      ensures path in files ==> r.Ok? && (r.value.success <==> dbFault.None?)
      ensures path in files && dbFault.None? ==>
                r.value == ImportResult(true, Some(id), "Document restored successfully")
                && db.documents == old(db.documents)[id := EncodeDocument(RestoredDocument(path, files[path], id, now))]
      ensures path in files && dbFault.Some? ==>
                r.value == ImportResult(false, None, "Failed to restore document: " + dbFault.value)
                && db.documents == old(db.documents)
      ensures db.terms == old(db.terms) && db.rules == old(db.rules) && db.analyses == old(db.analyses)
    {
      var read := ReadFileContent(path);
      if read.Err? {
        return Err(read.error);
      }
      var d := RestoredDocument(path, read.value, id, now);
      var saved := db.SaveDocument(d, dbFault);
      if saved.Ok? {
        r := Ok(ImportResult(true, Some(id), "Document restored successfully"));
      } else {
        r := Ok(ImportResult(false, None, "Failed to restore document: " + dbFault.value));
      }
    }
  }

  /** A backup written by CreateBackup and read back by RestoreFromBackup yields a document
      with the original content. */
  lemma BackupThenRestoreContent(d: Document, path: String, text: String, id: String, now: UtcDateTime)
    requires !Contains(d.title, Delimiter) && text == BackupBody(d)
    ensures RestoredDocument(path, text, id, now).content == d.content
  {
    BackupRestoreRoundTrip(d);
  }
}
