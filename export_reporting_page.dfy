/** The export page of the client (client/src/pages/ExportReporting.jsx): it
    builds a CSV text from the upload history in the browser and saves it as
    `.csv` or, with the same text, as `.xlsx`; and it lays out a one-page PDF
    report whose file list stops before the bottom margin. */
module ExportReportingPage {
  import opened Js
  import ExportReportingController

  /** A notification shown to the user. */
  datatype Toast = Toast(message: string, success: bool)

  /** A file handed to the browser for download. */
  datatype SavedFile = SavedFile(content: string, filename: string, mimeType: string)

  datatype ExportOutcome = ExportOutcome(saved: Option<SavedFile>, toast: Toast)

  // ---------------------------------------------------------------------------
  // CSV text

  /** The header row: the property names of the first record, none when there
      is no first record or it is falsy. */
  function CsvHeaders(data: seq<Value>): (headers: seq<string>)
    ensures |data| == 0 || !Truthy(data[0]) ==> headers == []
    ensures |data| > 0 && data[0].Obj? ==> headers == Keys(data[0])
  {
    if |data| > 0 && Truthy(data[0]) then Keys(data[0]) else []
  }

  /** One cell: the value's text between double quotes, with nothing inside
      for a falsy value; no quote or comma inside is escaped. */
  function CsvField(v: Value): (f: string)
    ensures |f| >= 2 && f[0] == '"' && f[|f| - 1] == '"'
  {
    "\"" + (if Truthy(v) then ToStr(v) else "") + "\""
  }

  function CsvFields(headers: seq<string>, row: Value): (fields: seq<string>)
    ensures |fields| == |headers|
  {
    seq(|headers|, j requires 0 <= j < |headers| => CsvField(Prop(row, headers[j])))
  }

  /** A record's line: its quoted cells joined by commas; a one-column line
      is just its field. */
  function CsvLine(headers: seq<string>, row: Value): (line: string)
    ensures |headers| == 0 ==> line == ""
    ensures |headers| == 1 ==> line == CsvField(Prop(row, headers[0]))
  {
    Join(CsvFields(headers, row), ",")
  }

  function CsvLines(headers: seq<string>, data: seq<Value>): (lines: seq<string>)
    ensures |lines| == |data|
  {
    seq(|data|, i requires 0 <= i < |data| => CsvLine(headers, data[i]))
  }

  /** The whole text: the header line, a newline, then one line per record. */
  function CsvContent(data: seq<Value>): (text: string)
    ensures |data| == 0 ==> text == "\n"
    ensures '\n' in text
  {
    var headers := CsvHeaders(data);
    Join(headers, ",") + "\n" + Join(CsvLines(headers, data), "\n")
  }

  /** Reading `row[header]` throws when the record itself is null or
      undefined; with no headers nothing is read. */
  predicate ReadsMissingRecord(data: seq<Value>)
  {
    |CsvHeaders(data)| > 0 && exists i | 0 <= i < |data| :: Nullish(data[i])
  }

  /** `exportDataAsFile(data, format)`: csv and excel both write the CSV text
      (excel only renames it `.xlsx`); any other format saves an empty file
      with no extension and no type. */
  function ExportDataAsFile(data: seq<Value>, format: string, now: int): (r: ExportOutcome)
    ensures r.saved.None? <==> (format == "csv" || format == "excel") && ReadsMissingRecord(data)
    ensures r.toast.success <==> r.saved.Some?
    ensures r.saved.None? ==> r.toast.message == "Failed to export " + Upper(format) + " file"
    ensures r.saved.Some? ==> r.toast.message == Upper(format) + " file exported successfully!"
                              && StartsWith(r.saved.value.filename, "data-" + IntToString(now))
  {
    var base := "data-" + IntToString(now);
    var failed := ExportOutcome(None, Toast("Failed to export " + Upper(format) + " file", false));
    var done := Toast(Upper(format) + " file exported successfully!", true);
    if format == "csv" then
      if ReadsMissingRecord(data) then failed
      else ExportOutcome(Some(SavedFile(CsvContent(data), base + ".csv", "text/csv")), done)
    else if format == "excel" then
      if ReadsMissingRecord(data) then failed
      else ExportOutcome(Some(SavedFile(CsvContent(data), base + ".xlsx",
                                        ExportReportingController.SpreadsheetMime)), done)
    else
      ExportOutcome(Some(SavedFile("", base, "")), done)
  }

  /** The "Excel" export is the CSV text under another name and type. */
  lemma ExcelIsCsvText(data: seq<Value>, now: int)
    requires !ReadsMissingRecord(data)
    ensures var csv := ExportDataAsFile(data, "csv", now).saved;
            var xlsx := ExportDataAsFile(data, "excel", now).saved;
            && csv.Some? && xlsx.Some?
            && csv.value.content == xlsx.value.content
            && EndsWith(csv.value.filename, ".csv") && EndsWith(xlsx.value.filename, ".xlsx")
            && xlsx.value.mimeType != "text/csv"
  {
  }

  /** With no records the file holds one empty header line. */
  lemma EmptyExport(now: int)
    ensures ExportDataAsFile([], "csv", now).saved == Some(SavedFile("\n", "data-" + IntToString(now) + ".csv", "text/csv"))
  {
    assert CsvHeaders([]) == [] && CsvLines([], []) == [];
    assert CsvContent([]) == "" + "\n" + "";
    assert "" + "\n" + "" == "\n";
    assert !ReadsMissingRecord([]);
  }

  /** Text that can sit in a CSV cell without being split by the reader. */
  predicate Plain(s: string)
  {
    ',' !in s && '\n' !in s
  }

  /** The cells a record writes contain no separator. */
  predicate PlainRecord(headers: seq<string>, row: Value)
  {
    forall j | 0 <= j < |headers| :: Plain(ToStr(Prop(row, headers[j])))
  }

  lemma FieldPlain(v: Value)
    requires Plain(ToStr(v))
    ensures Plain(CsvField(v))
  {
  }

  /** A quoted field gives back its text: the value's text when it is
      truthy, nothing otherwise. */
  lemma FieldText(v: Value)
    ensures var f := CsvField(v);
            && |f| >= 2 && f[0] == '"' && f[|f| - 1] == '"'
            && f[1..|f| - 1] == (if Truthy(v) then ToStr(v) else "")
  {
  }

  /** A line splits on ',' into its quoted fields, one per header, when no
      cell text holds a comma. */
  lemma {:induction false} LineRoundTrip(headers: seq<string>, row: Value)
    requires |headers| >= 1 && PlainRecord(headers, row)
    ensures Split(CsvLine(headers, row), ',') == CsvFields(headers, row)
    ensures '\n' !in CsvLine(headers, row)
  {
    var fields := CsvFields(headers, row);
    forall j | 0 <= j < |fields| ensures Plain(fields[j]) {
      FieldPlain(Prop(row, headers[j]));
    }
    SplitJoin(fields, ',');
    JoinExcludes(fields, ",", '\n');
  }

  /** Reading the exported text back: split on newlines it gives the header
      line and then one line per record; the header line splits on commas
      into the property names, and each record line into that record's
      quoted cells. This holds when the names and cell texts contain neither
      a comma nor a newline and the first record has at least one property. */
  lemma {:induction false} CsvRoundTrip(data: seq<Value>)
    requires |data| >= 1 && |CsvHeaders(data)| >= 1
    requires forall j | 0 <= j < |CsvHeaders(data)| :: Plain(CsvHeaders(data)[j])
    requires forall i | 0 <= i < |data| :: PlainRecord(CsvHeaders(data), data[i])
    ensures var headers := CsvHeaders(data);
            var lines := Split(CsvContent(data), '\n');
            && |lines| == 1 + |data|
            && Split(lines[0], ',') == headers
            && forall i | 0 <= i < |data| :: Split(lines[i + 1], ',') == CsvFields(headers, data[i])
  {
    var headers := CsvHeaders(data);
    var head := Join(headers, ",");
    var body := CsvLines(headers, data);
    forall i | 0 <= i < |data|
      ensures Split(body[i], ',') == CsvFields(headers, data[i]) && '\n' !in body[i]
    {
      LineRoundTrip(headers, data[i]);
    }
    JoinExcludes(headers, ",", '\n');
    SplitJoin(headers, ',');
    SplitJoin([head] + body, '\n');
    assert Join([head] + body, "\n") == head + "\n" + Join(body, "\n") by {
      assert ([head] + body)[1..] == body;
    }
    assert CsvContent(data) == Join([head] + body, "\n");
  }

  /** Nothing is escaped: a comma inside a cell adds a field when the text
      is read back. */
  lemma CommaSplitsCell()
    ensures var row := Obj([("name", Str("a,b"))]);
            |Split(CsvLine(["name"], row), ',')| == 2
  {
    var row := Obj([("name", Str("a,b"))]);
    var line := CsvLine(["name"], row);
    assert Prop(row, "name") == Str("a,b");
    assert line == ['"', 'a', ',', 'b', '"'];
    assert ['"', 'a', ',', 'b', '"'] == ['"', 'a'] + [','] + ['b', '"'];
    SplitPrefix(['"', 'a'], ',', [','] + ['b', '"']);
    SplitPrefix(['b', '"'], ',', "");
    assert ['b', '"'] + "" == ['b', '"'];
    assert ([','] + ['b', '"'])[1..] == ['b', '"'];
  }

  // ---------------------------------------------------------------------------
  // PDF report

  /** One `pdf.text(text, x, y)` call at the current font size. */
  datatype PdfText = PdfText(text: string, x: int, y: int, fontSize: nat)

  datatype PdfDocument = PdfDocument(lines: seq<PdfText>, filename: string)

  datatype PdfOutcome = PdfOutcome(saved: Option<PdfDocument>, toast: Toast)

  /** Entries at or below this height would run off the page. */
  const PageBottom := 280

  function EntryY(index: nat): int
  {
    100 + index * 10
  }

  /** How many of `n` files get a line: those whose line starts above the
      bottom margin. */
  function ListedCount(n: nat): (k: nat)
    ensures k <= n && k <= 18
    ensures forall i: nat | i < n :: i < k <==> EntryY(i) < PageBottom
  {
    if n < 18 then n else 18
  }

  function FileEntry(file: Value, index: nat): PdfText
  {
    PdfText(IntToString(index + 1) + ". " + ToStr(Prop(file, "originalName")), 20, EntryY(index), 10)
  }

  function FileEntries(files: seq<Value>, n: nat): (entries: seq<PdfText>)
    requires n <= |files|
    ensures |entries| == ListedCount(n)
  {
    seq(ListedCount(n), i requires 0 <= i < ListedCount(n) => FileEntry(files[i], i))
  }

  /** One more file adds its numbered line exactly when that line fits. */
  lemma FileEntriesStep(files: seq<Value>, index: nat)
    requires index < |files|
    ensures FileEntries(files, index + 1)
            == if EntryY(index) < PageBottom then FileEntries(files, index) + [FileEntry(files[index], index)]
               else FileEntries(files, index)
  {
    if EntryY(index) < PageBottom {
      assert ListedCount(index + 1) == ListedCount(index) + 1;
    } else {
      assert ListedCount(index + 1) == ListedCount(index);
    }
  }

  /** Title, time stamp and summary, at their fixed places. */
  function ReportHeader(fileCount: nat, reportType: string, generatedOn: string): (header: seq<PdfText>)
    ensures |header| == 5 && forall i | 0 <= i < 5 :: header[i].x == 20 && header[i].y < 90
  {
    [ PdfText("Excel Analytics Report", 20, 20, 20),
      PdfText("Generated on: " + generatedOn, 20, 30, 12),
      PdfText("Summary", 20, 50, 14),
      PdfText("Total files uploaded: " + IntToString(fileCount), 20, 60, 12),
      PdfText("Report type: " + reportType, 20, 70, 12) ]
  }

  /** The page: the header, then, when there are files, the list heading and
      the listed files. */
  function ReportLines(files: seq<Value>, reportType: string, generatedOn: string): (lines: seq<PdfText>)
    ensures |lines| == 5 + (if |files| > 0 then 1 + ListedCount(|files|) else 0)
  {
    ReportHeader(|files|, reportType, generatedOn)
    + (if |files| > 0 then [PdfText("Uploaded Files:", 20, 90, 14)] + FileEntries(files, |files|) else [])
  }

  /** Reading `file.originalName` throws for a listed file that is null or
      undefined. */
  predicate ListsMissingFile(files: seq<Value>)
  {
    exists i | 0 <= i < ListedCount(|files|) :: Nullish(files[i])
  }

  /** What generatePDFReport ends with: a saved document and a success toast,
      or, when a listed file is null or undefined, no document and the
      failure toast. */
  function PdfReport(files: seq<Value>, reportType: string, generatedOn: string, now: int): (o: PdfOutcome)
    ensures o.saved.None? <==> ListsMissingFile(files)
    ensures o.toast.success <==> o.saved.Some?
  {
    if ListsMissingFile(files) then PdfOutcome(None, Toast("Failed to generate PDF report", false))
    else PdfOutcome(Some(PdfDocument(ReportLines(files, reportType, generatedOn),
                                     "analytics-report-" + IntToString(now) + ".pdf")),
                    Toast("PDF report generated successfully!", true))
  }

  /** The `files.forEach` that lists the files: one numbered line per file
      while the line still fits above the bottom margin; `None` when a listed
      file is null or undefined. */
  method ListFiles(files: seq<Value>) returns (entries: Option<seq<PdfText>>)
    ensures entries.None? <==> ListsMissingFile(files)
    ensures entries.Some? ==> entries.value == FileEntries(files, |files|)
  {
    var listed := [];
    var index := 0;
    while index < |files|
      invariant 0 <= index <= |files|
      invariant listed == FileEntries(files, index)
      invariant forall i | 0 <= i < ListedCount(index) :: !Nullish(files[i])
    {
      if EntryY(index) < PageBottom {
        if Nullish(files[index]) {
          assert index < ListedCount(|files|);
          return None;
        }
        listed := listed + [FileEntry(files[index], index)];
      }
      FileEntriesStep(files, index);
      index := index + 1;
    }
    return Some(listed);
  }

  /** `generatePDFReport`: the fixed header, then the file list, then the
      saved document and its toast. */
  method GeneratePdfReport(files: seq<Value>, reportType: string, generatedOn: string, now: int)
    returns (r: PdfOutcome)
    ensures r == PdfReport(files, reportType, generatedOn, now)
  {
    var lines := ReportHeader(|files|, reportType, generatedOn);
    if |files| > 0 {
      var entries := ListFiles(files);
      if entries.None? {
        return PdfOutcome(None, Toast("Failed to generate PDF report", false));
      }
      lines := lines + ([PdfText("Uploaded Files:", 20, 90, 14)] + entries.value);
    } else {
      assert !ListsMissingFile(files);
      assert lines + [] == lines;
    }
    r := PdfOutcome(Some(PdfDocument(lines, "analytics-report-" + IntToString(now) + ".pdf")),
                    Toast("PDF report generated successfully!", true));
  }

  /** The list never runs past the margin: at most eighteen files are listed,
      numbered from 1, each line above the bottom, while the summary still
      counts every file. */
  lemma {:induction false} ReportFitsPage(files: seq<Value>, reportType: string, generatedOn: string)
    ensures var lines := ReportLines(files, reportType, generatedOn);
            && |lines| == 5 + (if |files| > 0 then 1 + ListedCount(|files|) else 0)
            && (forall i | 0 <= i < |lines| :: lines[i].y < PageBottom)
            && lines[3].text == "Total files uploaded: " + IntToString(|files|)
            && (forall i | 6 <= i < 6 + ListedCount(|files|) ::
                  StartsWith(lines[i].text, IntToString(i - 5) + ". "))
  {
    var lines := ReportLines(files, reportType, generatedOn);
    var header := ReportHeader(|files|, reportType, generatedOn);
    var entries := FileEntries(files, |files|);
    if |files| > 0 {
      var tail := [PdfText("Uploaded Files:", 20, 90, 14)] + entries;
      assert lines == header + tail;
      forall i | 0 <= i < |lines| ensures lines[i].y < PageBottom {
        if i < 5 {
          assert lines[i] == header[i];
        } else {
          assert lines[i] == tail[i - 5];
        }
      }
      forall i | 6 <= i < 6 + ListedCount(|files|)
        ensures StartsWith(lines[i].text, IntToString(i - 5) + ". ")
      {
        assert lines[i] == entries[i - 6];
      }
    } else {
      assert lines == header;
    }
  }
}
