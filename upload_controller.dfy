/** The upload handlers: multer's file filter, stored-name rule and size limit;
    uploadExcel, which splits the parsed sheet into a header row and data rows
    and records the upload in the user's history; and getParsedFile, which
    finds a recorded upload and turns its rows into records. The spreadsheet
    parser's output is given as a sequence of rows; the disk is a map from
    stored name to that output. */
module UploadController {
  import opened Js
  import opened Http
  import opened UserDocument
  import opened Rows

  /** The size limit used when MAX_FILE_SIZE is unset, unparseable or 0. */
  const DefaultMaxFileSize: int := 10485760
  /** How many data rows the upload reply previews. */
  const PreviewLength: nat := 10

  // ---------------------------------------------------------------------------
  // multer configuration

  /** The file filter `/\.(xls|xlsx)$/i` on the original name. */
  predicate AcceptsFileName(name: string)
  {
    EndsWith(Lower(name), ".xls") || EndsWith(Lower(name), ".xlsx")
  }

  /** The name a stored upload gets: `<timestamp>-<fieldname><extension>`. */
  function StoredName(now: int, fieldname: string, originalName: string): (r: string)
    ensures EndsWith(r, Extname(originalName))
    ensures StartsWith(r, IntToString(now) + "-")
  {
    var prefix := IntToString(now) + "-";
    var ext := Extname(originalName);
    assert (prefix + fieldname + ext)[..|prefix|] == prefix;
    assert (prefix + fieldname + ext)[|prefix + fieldname|..] == ext;
    prefix + fieldname + ext
  }

  /** `parseInt(process.env.MAX_FILE_SIZE) || 10485760`: an unset, unparseable
      or zero setting falls back to the default. */
  function MaxFileSize(setting: Option<string>): (limit: int)
    ensures limit != 0
    ensures setting.None? ==> limit == DefaultMaxFileSize
    ensures setting.Some? && ParseInt(setting.value).Some? && ParseInt(setting.value).value != 0
            ==> limit == ParseInt(setting.value).value
    ensures setting.Some? && (ParseInt(setting.value).None? || ParseInt(setting.value) == Some(0))
            ==> limit == DefaultMaxFileSize
  {
    var parsed := if setting.Some? then ParseInt(setting.value) else None;
    if parsed.Some? && parsed.value != 0 then parsed.value else DefaultMaxFileSize
  }

  /** A setting written in plain decimal digits is the limit, unless it is 0. */
  lemma MaxFileSizeDecimal(setting: string)
    requires IsDecimal(setting)
    ensures DigitsValue(setting, 10) != 0 ==> MaxFileSize(Some(setting)) == DigitsValue(setting, 10)
    ensures DigitsValue(setting, 10) == 0 ==> MaxFileSize(Some(setting)) == DefaultMaxFileSize
  {
    ParseIntDecimal(setting);
  }

  /** A file multer has stored: the form field, the client's name, the stored
      name and the size in bytes. */
  datatype UploadedFile = UploadedFile(fieldname: string, originalname: string, filename: string, size: nat)

  datatype Admission = Stored(file: UploadedFile) | Rejected(reason: string)

  /** What multer does with an incoming file: the filter runs first, on the
      name; a file within the size limit is stored under its new name. */
  function Admit(fieldname: string, originalName: string, size: nat, now: int, limit: int): (r: Admission)
    ensures r.Stored? <==> AcceptsFileName(originalName) && size <= limit
    ensures !AcceptsFileName(originalName) ==> r == Rejected("Only .xls and .xlsx files are allowed")
    ensures AcceptsFileName(originalName) && size > limit ==> r == Rejected("File too large")
    ensures r.Stored? ==> r.file.originalname == originalName && r.file.size == size
                          && r.file.filename == StoredName(now, fieldname, originalName)
  {
    if !AcceptsFileName(originalName) then Rejected("Only .xls and .xlsx files are allowed")
    else if size > limit then Rejected("File too large")
    else Stored(UploadedFile(fieldname, originalName, StoredName(now, fieldname, originalName), size))
  }

  /** An accepted name ends in ".xls" or ".xlsx" in some letter case, so its
      extension is one of those, or empty when the name is only that suffix
      (".xlsx" has no extension). */
  lemma AcceptedExtension(name: string)
    requires AcceptsFileName(name)
    ensures Extname(name) == "" || Lower(Extname(name)) == ".xls" || Lower(Extname(name)) == ".xlsx"
  {
    if EndsWith(Lower(name), ".xls") {
      SuffixExtension(name, ".xls");
    } else {
      SuffixExtension(name, ".xlsx");
    }
  }

  /** Lower-casing maps no other character to '.' or '/'. */
  lemma LowerCharKeeps(c: char)
    ensures LowerChar(c) == '.' <==> c == '.'
    ensures LowerChar(c) == '/' <==> c == '/'
  {
  }

  /** Where the lower-cased name ends in `suffix`, the name's own last
      characters hold no '/' and just one '.', opening the suffix. */
  lemma SuffixChars(name: string, suffix: string, i: nat)
    requires |suffix| > 0 && suffix[0] == '.' && '.' !in suffix[1..] && '/' !in suffix
    requires EndsWith(Lower(name), suffix)
    requires |name| - |suffix| <= i < |name|
    ensures name[i] != '/'
    ensures name[i] == '.' <==> i == |name| - |suffix|
  {
    var j := i - (|name| - |suffix|);
    assert Lower(name)[i] == suffix[j];
    LowerCharKeeps(name[i]);
    if j > 0 {
      assert suffix[j] == suffix[1..][j - 1];
    }
  }

  lemma SuffixExtension(name: string, suffix: string)
    requires |suffix| > 0 && suffix[0] == '.' && '.' !in suffix[1..] && '/' !in suffix
    requires EndsWith(Lower(name), suffix)
    ensures Extname(name) == "" || Lower(Extname(name)) == suffix
  {
    var n, l := |name|, |suffix|;
    forall i | n - l <= i < n
      ensures name[i] != '/' && (name[i] == '.' <==> i == n - l)
    {
      SuffixChars(name, suffix, i);
    }
    ExtnameOfTail(name, l);
    LowerTail(name, suffix);
  }

  /** The last characters of a name whose lower-cased form ends in `suffix`
      lower-case to `suffix`. */
  lemma LowerTail(name: string, suffix: string)
    requires EndsWith(Lower(name), suffix)
    ensures Lower(name[|name| - |suffix|..]) == suffix
  {
    LowerSuffix(name, |name| - |suffix|);
  }

  /** A stored name keeps the accepted suffix, so the stored file passes the
      same filter, whenever the original name has an extension. */
  lemma StoredNameAccepted(now: int, fieldname: string, originalName: string)
    requires AcceptsFileName(originalName) && Extname(originalName) != ""
    ensures AcceptsFileName(StoredName(now, fieldname, originalName))
  {
    AcceptedExtension(originalName);
    AcceptedBySuffix(StoredName(now, fieldname, originalName), Extname(originalName));
  }

  /** A name ending in a text that lower-cases to ".xls" or ".xlsx" passes
      the filter. */
  lemma AcceptedBySuffix(name: string, e: string)
    requires EndsWith(name, e) && (Lower(e) == ".xls" || Lower(e) == ".xlsx")
    ensures AcceptsFileName(name)
  {
    LowerSuffix(name, |name| - |e|);
  }

  /** A file called just ".xlsx" passes the filter, yet its stored name has
      no extension at all. */
  lemma BareSuffixLosesExtension(now: int, fieldname: string)
    ensures AcceptsFileName(".xlsx")
    ensures StoredName(now, fieldname, ".xlsx") == IntToString(now) + "-" + fieldname
  {
    var s := ".xlsx";
    assert s[0] == '.' && s[1] == 'x' && s[2] == 'l' && s[3] == 's' && s[4] == 'x';
    assert Lower(s) == s;
    assert TrimTrailingSlashes(s) == s;
    assert LastIndexOf(s, '/') == None;
    assert LastIndexOf(s, '.') == Some(0);
  }

  // ---------------------------------------------------------------------------
  // uploadExcel

  /** The parsed sheet split into the header row (`json[0] || []`) and the
      data rows (`json.slice(1)`). */
  datatype SplitRows = SplitRows(headers: seq<Value>, rows: seq<seq<Value>>)

  function SplitSheet(sheet: seq<seq<Value>>): (s: SplitRows)
    ensures |sheet| == 0 ==> s.headers == [] && s.rows == []
    ensures |sheet| > 0 ==> [s.headers] + s.rows == sheet
  {
    if |sheet| == 0 then SplitRows([], []) else SplitRows(sheet[0], sheet[1..])
  }

  /** `rows.slice(0, 10)`. */
  function Preview(rows: seq<seq<Value>>): (p: seq<seq<Value>>)
    ensures |p| == if |rows| < PreviewLength then |rows| else PreviewLength
    ensures p == rows[..|p|]
  {
    if |rows| < PreviewLength then rows else rows[..PreviewLength]
  }

  datatype UploadSummary = UploadSummary(
    headers: seq<Value>, preview: seq<seq<Value>>, rowCount: nat, fileName: string, originalName: string)

  /** The reply data of a successful upload. */
  function Summarize(file: UploadedFile, sheet: seq<seq<Value>>): (s: UploadSummary)
    ensures s.rowCount == if |sheet| == 0 then 0 else |sheet| - 1
    ensures |s.preview| <= PreviewLength && |s.preview| <= s.rowCount
    ensures |s.preview| == PreviewLength || |s.preview| == s.rowCount
    ensures forall i | 0 <= i < |s.preview| :: s.preview[i] == sheet[i + 1]
    ensures |sheet| > 0 ==> s.headers == sheet[0]
    ensures s.fileName == file.filename && s.originalName == file.originalname
  {
    var split := SplitSheet(sheet);
    UploadSummary(split.headers, Preview(split.rows), |split.rows|, file.filename, file.originalname)
  }

  /** The history entry an upload records; the parsed content is not kept. */
  function NewEntry(entryId: string, file: UploadedFile, now: int): (e: UploadEntry)
    ensures e.fileName == file.filename && e.originalName == file.originalname
    ensures e.fileSize == file.size && e.chartConfigs == []
  {
    UploadEntry(entryId, file.filename, file.originalname, file.size, [], Num(now))
  }

  /** uploadExcel. `sheet` is the parser's output for the stored file (None
      when the file cannot be parsed); `signedIn` says whether the request
      carries a user id, and `u` is the document that id names, if any. */
  method UploadExcel(
    u: UserDoc?, signedIn: bool, file: Option<UploadedFile>, sheet: Option<seq<seq<Value>>>,
    entryId: string, now: int)
    returns (r: Reply<UploadSummary>)
    requires u != null ==> u.Valid()
    modifies u
    ensures u != null ==> u.Valid()
    ensures file.None? ==> r == Err(400, "No file uploaded")
    ensures file.Some? && sheet.None? ==> r == Err(500, "Failed to process file")
    ensures file.Some? && sheet.Some? ==>
            r == Ok(200, "File uploaded and parsed", Summarize(file.value, sheet.value))
    ensures u != null ==>
            if r.Ok? && signedIn then
              u.uploadHistory == old(u.uploadHistory) + [NewEntry(entryId, file.value, now)]
              && u.updatedAt == now
            else
              u.uploadHistory == old(u.uploadHistory) && u.updatedAt == old(u.updatedAt)
    ensures u != null ==> u.sharedItems == old(u.sharedItems) && u.shareLinks == old(u.shareLinks)
                          && u.teams == old(u.teams)
  {
    if file.None? {
      return Err(400, "No file uploaded");
    }
    if sheet.None? {
      return Err(500, "Failed to process file");
    }
    if signedIn && u != null {
      AppendKeepsUploads(u.uploadHistory, NewEntry(entryId, file.value, now));
      u.uploadHistory := u.uploadHistory + [NewEntry(entryId, file.value, now)];
      u.updatedAt := now;
    }
    r := Ok(200, "File uploaded and parsed", Summarize(file.value, sheet.value));
  }

  /** Appending to the history keeps every earlier upload findable. */
  lemma AppendKeepsUploads(history: seq<UploadEntry>, e: UploadEntry)
    ensures forall name | HasUpload(history, name) :: HasUpload(history + [e], name)
  {
    forall name | HasUpload(history, name) ensures HasUpload(history + [e], name) {
      var i :| 0 <= i < |history| && history[i].fileName == name;
      assert (history + [e])[i] == history[i];
    }
  }

  /** After a recorded upload the file is in the history under its stored
      name. */
  lemma UploadedIsFindable(history: seq<UploadEntry>, entryId: string, file: UploadedFile, now: int)
    ensures FindUpload(history + [NewEntry(entryId, file, now)], file.filename).Some?
  {
    assert (history + [NewEntry(entryId, file, now)])[|history|].fileName == file.filename;
  }

  // ---------------------------------------------------------------------------
  // getParsedFile

  /** `uploadHistory.id(fileId) || uploadHistory.find(f => f.fileName === fileId)`:
      the first entry with that sub-document id, otherwise the first entry
      stored under that name. */
  function LookupEntry(history: seq<UploadEntry>, fileId: string): (r: Option<UploadEntry>)
    ensures (exists i | 0 <= i < |history| :: history[i].id == fileId) ==> r.Some? && r.value.id == fileId
    ensures (forall i | 0 <= i < |history| :: history[i].id != fileId) ==> r == FindUpload(history, fileId)
    ensures r.Some? ==> r.value in history
  {
    match FindIndex(history, (e: UploadEntry) => e.id == fileId)
    case Some(k) => Some(history[k])
    case None => FindUpload(history, fileId)
  }

  datatype ParsedFile = ParsedFile(columns: seq<Value>, data: seq<Row>)

  /** The records a parsed sheet becomes: one per data row. */
  function ZipSheet(sheet: seq<seq<Value>>): (p: ParsedFile)
    ensures p.columns == SplitSheet(sheet).headers
    ensures |p.data| == |SplitSheet(sheet).rows|
    ensures forall i | 0 <= i < |p.data| :: p.data[i] == RowObject(p.columns, sheet[i + 1])
  {
    var split := SplitSheet(sheet);
    ParsedFile(split.headers, seq(|split.rows|, i requires 0 <= i < |split.rows| => RowObject(split.headers, split.rows[i])))
  }

  /** getParsedFile. `disk` maps each stored name present on disk to the
      parser's output for it (None when it cannot be parsed). */
  method GetParsedFile(u: UserDoc?, fileId: string, disk: map<string, Option<seq<seq<Value>>>>)
    returns (r: Reply<ParsedFile>)
    ensures u == null ==> r == Err(404, "User not found")
    ensures u != null ==>
            match LookupEntry(u.uploadHistory, fileId)
            case None => r == Err(404, "File not found in your uploads")
            case Some(e) =>
              if e.fileName !in disk then r == Err(404, "File not found on server")
              else if disk[e.fileName].None? then r == Err(500, "Failed to parse file")
              else r == Ok(200, "", ZipSheet(disk[e.fileName].value))
  {
    if u == null {
      return Err(404, "User not found");
    }
    var entry := LookupEntry(u.uploadHistory, fileId);
    if entry.None? {
      return Err(404, "File not found in your uploads");
    }
    var name := entry.value.fileName;
    if name !in disk {
      return Err(404, "File not found on server");
    }
    if disk[name].None? {
      return Err(500, "Failed to parse file");
    }
    var split := SplitSheet(disk[name].value);
    var data := ZipRows(split.headers, split.rows);
    assert data == ZipSheet(disk[name].value).data;
    r := Ok(200, "", ParsedFile(split.headers, data));
  }

  /** The upload reply and a later parse of the same sheet agree: the same
      header row, one record per counted row, and the previewed rows are the
      first records. */
  lemma UploadAndParseAgree(file: UploadedFile, sheet: seq<seq<Value>>)
    ensures Summarize(file, sheet).headers == ZipSheet(sheet).columns
    ensures Summarize(file, sheet).rowCount == |ZipSheet(sheet).data|
    ensures forall i | 0 <= i < |Summarize(file, sheet).preview| ::
              RowObject(ZipSheet(sheet).columns, Summarize(file, sheet).preview[i]) == ZipSheet(sheet).data[i]
  {
  }
}
