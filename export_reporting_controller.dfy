/** The export and report handlers: exporting posted rows as a CSV or Excel
    file, serving an exported file back with its content type, and the report
    built from a user's upload history, with its per-report-type analysis and
    the histogram of saved chart types. File contents, disk writes and
    streaming are not modelled; the clock is a parameter. */
module ExportReportingController {
  import opened Js
  import opened Http
  import opened UserDocument

  const SpreadsheetMime: string := "application/vnd.openxmlformats-officedocument.spreadsheetml.sheet"
  const DownloadRoute: string := "/api/export-reporting/download/"

  // ---------------------------------------------------------------------------
  // exportDataAsFile

  /** The file extension and content type an export format selects. */
  datatype ExportKind = ExportKind(extension: string, mimeType: string)

  /** Only the exact string 'excel' selects a workbook; every other format,
      including the default 'csv', selects CSV. */
  function ExportKindOf(format: Value): (k: ExportKind)
    ensures k.extension == "xlsx" <==> StrictEq(format, Str("excel"))
    ensures k.extension == "xlsx" ==> k.mimeType == SpreadsheetMime
    ensures k.extension != "xlsx" ==> k == ExportKind("csv", "text/csv")
  {
    if format == Str("excel") then ExportKind("xlsx", SpreadsheetMime) else ExportKind("csv", "text/csv")
  }

  /** `${filename}-${Date.now()}.${ext}`. */
  function ExportFileName(filename: Value, now: int, extension: string): (r: string)
    ensures EndsWith(r, "." + extension)
    ensures StartsWith(r, ToStr(filename) + "-")
  {
    var head := ToStr(filename) + "-";
    var tail := "." + extension;
    var r := head + IntToString(now) + tail;
    assert r[..|head|] == head;
    assert r[|r| - |tail|..] == tail;
    r
  }

  datatype ExportReceipt = ExportReceipt(filename: string, format: string, downloadUrl: string)

  /** The reply once the export file has been written. The `format` and
      `filename` defaults apply only when the field is absent; a format that
      is not a string cannot be upper-cased for the message and fails. */
  function ExportReply(format: Value, filename: Value, now: int): (r: Reply<ExportReceipt>)
    ensures !format.Undefined? && !format.Str? ==> r == Err(500, "Failed to export data")
    ensures format.Undefined? || format.Str? ==>
              var f := if format.Undefined? then "csv" else format.s;
              var name := ExportFileName(if filename.Undefined? then Str("export") else filename, now,
                                         ExportKindOf(format).extension);
              r == Ok(200, "Data exported as " + Upper(f), ExportReceipt(name, f, DownloadRoute + name))
  {
    if !format.Undefined? && !format.Str? then Err(500, "Failed to export data")
    else
      var f := if format.Undefined? then "csv" else format.s;
      var name := ExportFileName(if filename.Undefined? then Str("export") else filename, now,
                                 ExportKindOf(format).extension);
      Ok(200, "Data exported as " + Upper(f), ExportReceipt(name, f, DownloadRoute + name))
  }

  /** exportDataAsFile as written: the CSV branch calls a `json_to_csv`
      utility the spreadsheet library does not have, so it throws, and only
      the 'excel' format gets past it. */
  function ExportDataAsFileAsWritten(data: Value, format: Value, filename: Value, now: int)
    : (r: Reply<ExportReceipt>)
    ensures !data.Arr? ==> r == Err(400, "Invalid data format")
    ensures data.Arr? && !StrictEq(format, Str("excel")) ==> r == Err(500, "Failed to export data")
  {
    if !data.Arr? then Err(400, "Invalid data format")
    else if format != Str("excel") then Err(500, "Failed to export data")
    else ExportReply(format, filename, now)
  }

  /** The default request, rows with no format, fails as written. */
  lemma DefaultCsvExportFails(rows: seq<Value>, filename: Value, now: int)
    ensures ExportDataAsFileAsWritten(Arr(rows), Undefined, filename, now) == Err(500, "Failed to export data")
    ensures ExportDataAsFileAsWritten(Arr(rows), Str("csv"), filename, now) == Err(500, "Failed to export data")
  {
  }

  /** exportDataAsFile with the CSV branch writing the rows as CSV: anything
      but an array is refused, and the reply names a file whose extension the
      format selects and a download URL for it. */
  function ExportDataAsFile(data: Value, format: Value, filename: Value, now: int): (r: Reply<ExportReceipt>)
    ensures !data.Arr? ==> r == Err(400, "Invalid data format")
    ensures data.Arr? ==> r == ExportReply(format, filename, now)
    ensures r.Ok? ==> r.data.downloadUrl == DownloadRoute + r.data.filename
                      && EndsWith(r.data.filename, "." + ExportKindOf(format).extension)
  {
    if !data.Arr? then Err(400, "Invalid data format") else ExportReply(format, filename, now)
  }

  // ---------------------------------------------------------------------------
  // downloadExportedFile

  /** The content type for a file name, chosen by its lower-cased extension. */
  function DownloadMimeType(filename: string): (mime: string)
    ensures Lower(Extname(filename)) == ".csv" ==> mime == "text/csv"
    ensures Lower(Extname(filename)) == ".xlsx" ==> mime == SpreadsheetMime
    ensures Lower(Extname(filename)) != ".csv" && Lower(Extname(filename)) != ".xlsx"
            ==> mime == "application/octet-stream"
  {
    MimeForExtension(Lower(Extname(filename)))
  }

  function MimeForExtension(ext: string): string
  {
    if ext == ".csv" then "text/csv"
    else if ext == ".xlsx" then SpreadsheetMime
    else "application/octet-stream"
  }

  datatype DownloadHeaders = DownloadHeaders(contentType: string, contentDisposition: string)

  /** downloadExportedFile; `stored` is the set of names in the upload
      directory. */
  function DownloadExportedFile(stored: set<string>, filename: string): (r: Reply<DownloadHeaders>)
    ensures filename !in stored ==> r == Err(404, "File not found")
    ensures filename in stored ==> r.Ok? && r.data.contentType == DownloadMimeType(filename)
    ensures r.Ok? ==> StartsWith(r.data.contentDisposition, "attachment; filename=\"" + filename)
  {
    if filename !in stored then Err(404, "File not found")
    else
      var head := "attachment; filename=\"" + filename;
      assert (head + "\"")[..|head|] == head;
      Ok(200, "", DownloadHeaders(DownloadMimeType(filename), head + "\""))
  }

  /** A file an export names is served back with the content type the export
      chose for it, whatever the requested base name and clock. */
  lemma ExportedFileDownloadsAsExported(format: Value, filename: Value, now: int)
    ensures var kind := ExportKindOf(format);
            DownloadMimeType(ExportFileName(filename, now, kind.extension)) == kind.mimeType
  {
    DottedExtensions();
    if format == Str("excel") {
      ExportedExtension(filename, now, "xlsx");
      XlsxMime(ExportFileName(filename, now, "xlsx"));
    } else {
      ExportedExtension(filename, now, "csv");
      CsvMime(ExportFileName(filename, now, "csv"));
    }
  }

  lemma XlsxMime(name: string)
    requires Extname(name) == ".xlsx"
    ensures DownloadMimeType(name) == SpreadsheetMime
  {
    MimeOfLowered(Extname(name));
  }

  lemma CsvMime(name: string)
    requires Extname(name) == ".csv"
    ensures DownloadMimeType(name) == "text/csv"
  {
    MimeOfLowered(Extname(name));
  }

  lemma DottedExtensions()
    ensures "." + "xlsx" == ".xlsx" && "." + "csv" == ".csv"
  {
  }

  /** The content type for an extension, in whatever letter case. */
  lemma MimeOfLowered(e: string)
    ensures e == ".xlsx" ==> MimeForExtension(Lower(e)) == SpreadsheetMime
    ensures e == ".csv" ==> MimeForExtension(Lower(e)) == "text/csv"
  {
    assert Lower(".xlsx") == ".xlsx";
    assert Lower(".csv") == ".csv";
  }

  /** Lower-casing leaves a text without capitals as it is. */
  lemma LowerLiteral(s: string)
    requires forall i | 0 <= i < |s| :: !('A' <= s[i] <= 'Z')
    ensures Lower(s) == s
  {
  }

  lemma ExportedExtension(filename: Value, now: int, ext: string)
    requires ext == "xlsx" || ext == "csv"
    ensures Extname(ExportFileName(filename, now, ext)) == "." + ext
  {
    var digits := IntToString(now);
    var head := ToStr(filename) + "-" + digits;
    assert head[|head| - 1] == digits[|digits| - 1];
    assert ExportFileName(filename, now, ext) == head + ['.'] + ext;
    ExtnameOfDottedTail(head, ext);
  }

  // ---------------------------------------------------------------------------
  // generateReportContent

  /** The number of saved charts across the history (the `reduce`). */
  function TotalCharts(history: seq<UploadEntry>): nat
  {
    if |history| == 0 then 0
    else TotalCharts(history[..|history| - 1]) + |history[|history| - 1].chartConfigs|
  }

  /** The property name a chart type counts under: `String(chartType)`. */
  function ChartTypeKey(c: ChartConfig): string
  {
    ToStr(c.chartType)
  }

  /** `chartTypes[key] = (chartTypes[key] || 0) + 1`. */
  function Bump(counts: map<string, nat>, key: string): (r: map<string, nat>)
    ensures r.Keys == counts.Keys + {key}
    ensures r[key] == (if key in counts then counts[key] else 0) + 1
    ensures forall k | k in counts && k != key :: r[k] == counts[k]
  {
    counts[key := (if key in counts then counts[key] else 0) + 1]
  }

  /** The counts after the inner loop over one file's charts. */
  function CountCharts(counts: map<string, nat>, charts: seq<ChartConfig>): (r: map<string, nat>)
    ensures counts.Keys <= r.Keys
    ensures (forall k | k in counts :: counts[k] > 0) ==> forall k | k in r :: r[k] > 0
  {
    if |charts| == 0 then counts
    else Bump(CountCharts(counts, charts[..|charts| - 1]), ChartTypeKey(charts[|charts| - 1]))
  }

  /** The chart-type histogram of a history: the counts after the outer loop. */
  function Distribution(history: seq<UploadEntry>): (r: map<string, nat>)
    ensures forall k | k in r :: r[k] > 0
  {
    if |history| == 0 then map[]
    else CountCharts(Distribution(history[..|history| - 1]), history[|history| - 1].chartConfigs)
  }

  /** getChartTypeDistribution: nested loops over the files and their charts,
      bumping one count per chart. */
  method ChartTypeDistribution(history: seq<UploadEntry>) returns (counts: map<string, nat>)
    ensures counts == Distribution(history)
  {
    counts := map[];
    var i := 0;
    while i < |history|
      invariant 0 <= i <= |history|
      invariant counts == Distribution(history[..i])
    {
      var charts := history[i].chartConfigs;
      var j := 0;
      while j < |charts|
        invariant 0 <= j <= |charts|
        invariant counts == CountCharts(Distribution(history[..i]), charts[..j])
      {
        assert charts[..j + 1][..j] == charts[..j];
        counts := Bump(counts, ChartTypeKey(charts[j]));
        j := j + 1;
      }
      assert charts[..j] == charts;
      assert history[..i + 1][..i] == history[..i];
      i := i + 1;
    }
    assert history[..i] == history;
  }

  /** The sum of a map's values. */
  ghost function SumValues(m: map<string, nat>): nat
    decreases |m.Keys|
  {
    if m == map[] then 0
    else
      var k :| k in m;
      m[k] + SumValues(m - {k})
  }

  lemma {:induction false} SumValuesRemove(m: map<string, nat>, k: string)
    requires k in m
    ensures SumValues(m) == m[k] + SumValues(m - {k})
    decreases |m.Keys|
  {
    var j :| j in m && SumValues(m) == m[j] + SumValues(m - {j});
    if j != k {
      assert |(m - {j}).Keys| < |m.Keys| by {
        assert (m - {j}).Keys < m.Keys;
      }
      assert |(m - {k}).Keys| < |m.Keys| by {
        assert (m - {k}).Keys < m.Keys;
      }
      SumValuesRemove(m - {j}, k);
      SumValuesRemove(m - {k}, j);
      assert m - {j} - {k} == m - {k} - {j};
    }
  }

  lemma SumValuesBump(counts: map<string, nat>, key: string)
    ensures SumValues(Bump(counts, key)) == SumValues(counts) + 1
  {
    var r := Bump(counts, key);
    SumValuesRemove(r, key);
    if key in counts {
      assert r - {key} == counts - {key};
      SumValuesRemove(counts, key);
    } else {
      assert r - {key} == counts;
    }
  }

  lemma {:induction false} CountChartsSum(counts: map<string, nat>, charts: seq<ChartConfig>)
    ensures SumValues(CountCharts(counts, charts)) == SumValues(counts) + |charts|
  {
    if |charts| > 0 {
      CountChartsSum(counts, charts[..|charts| - 1]);
      SumValuesBump(CountCharts(counts, charts[..|charts| - 1]), ChartTypeKey(charts[|charts| - 1]));
    }
  }

  /** The histogram's counts add up to the number of saved charts. */
  lemma {:induction false} DistributionTotal(history: seq<UploadEntry>)
    ensures SumValues(Distribution(history)) == TotalCharts(history)
  {
    if |history| > 0 {
      DistributionTotal(history[..|history| - 1]);
      CountChartsSum(Distribution(history[..|history| - 1]), history[|history| - 1].chartConfigs);
    }
  }

  /** How many of `charts` count under `key`. */
  function Occurrences(charts: seq<ChartConfig>, key: string): nat
  {
    if |charts| == 0 then 0
    else Occurrences(charts[..|charts| - 1], key) + (if ChartTypeKey(charts[|charts| - 1]) == key then 1 else 0)
  }

  function Count(counts: map<string, nat>, key: string): nat
  {
    if key in counts then counts[key] else 0
  }

  lemma {:induction false} CountChartsCounts(counts: map<string, nat>, charts: seq<ChartConfig>, key: string)
    ensures Count(CountCharts(counts, charts), key) == Count(counts, key) + Occurrences(charts, key)
    ensures key in CountCharts(counts, charts) <==> key in counts || Occurrences(charts, key) > 0
  {
    if |charts| > 0 {
      CountChartsCounts(counts, charts[..|charts| - 1], key);
    }
  }

  /** Each count is the number of saved charts of that type over all files,
      and a type has a count exactly when some chart has it. */
  lemma {:induction false} DistributionCounts(history: seq<UploadEntry>, key: string)
    ensures Count(Distribution(history), key)
            == SumOccurrences(history, key)
    ensures key in Distribution(history) <==> SumOccurrences(history, key) > 0
  {
    if |history| > 0 {
      DistributionCounts(history[..|history| - 1], key);
      CountChartsCounts(Distribution(history[..|history| - 1]), history[|history| - 1].chartConfigs, key);
    }
  }

  function SumOccurrences(history: seq<UploadEntry>, key: string): nat
  {
    if |history| == 0 then 0
    else SumOccurrences(history[..|history| - 1], key) + Occurrences(history[|history| - 1].chartConfigs, key)
  }

  datatype Summary = Summary(totalFiles: nat, totalCharts: nat, reportType: Value)

  datatype FileDetail = FileDetail(name: string, size: int, uploadDate: Value, charts: nat)

  /** The `analysis` member a report type selects; `{}` for any other type. */
  datatype Analysis =
    | NoAnalysis
    | SummaryAnalysis(highlights: seq<string>)
    | DetailedAnalysis(fileDetails: seq<FileDetail>)
    | ComprehensiveAnalysis(chartTypes: map<string, nat>)
    | ExecutiveAnalysis(totalDataProcessed: nat)

  /** The `type` and `description` of an analysis; the empty `{}` has
      neither. */
  function Heading(a: Analysis): (h: Option<(string, string)>)
    ensures h.None? <==> a.NoAnalysis?
    ensures h.Some? ==> h.value.0 != "" && h.value.1 != ""
  {
    match a
    case NoAnalysis => None
    case SummaryAnalysis(_) => Some(("Summary Report", "Overview of uploaded files and basic analytics"))
    case DetailedAnalysis(_) => Some(("Detailed Analysis", "Comprehensive analysis of all uploaded data"))
    case ComprehensiveAnalysis(_) => Some(("Comprehensive Report", "Complete analysis with statistical insights"))
    case ExecutiveAnalysis(_) => Some(("Executive Summary", "High-level overview for executive review"))
  }

  datatype Report = Report(
    title: string, username: string, email: string, summary: Summary,
    files: seq<UploadEntry>, charts: Value, analysis: Analysis)

  function Detail(file: UploadEntry): (d: FileDetail)
    ensures d.name == file.originalName && d.size == file.fileSize && d.charts == |file.chartConfigs|
  {
    FileDetail(file.originalName, file.fileSize, file.uploadDate, |file.chartConfigs|)
  }

  /** The four report type names differ from each other. */
  lemma ReportTypesDistinct()
    ensures "summary" != "detailed" && "summary" != "comprehensive" && "summary" != "executive"
    ensures "detailed" != "comprehensive" && "detailed" != "executive" && "comprehensive" != "executive"
  {
    assert "summary"[0] != "detailed"[0] && "summary"[0] != "comprehensive"[0] && "summary"[0] != "executive"[0];
    assert "detailed"[0] != "comprehensive"[0] && "detailed"[0] != "executive"[0];
    assert "comprehensive"[0] != "executive"[0];
  }

  /** A report type with a `case` of its own. */
  predicate KnownReportType(reportType: Value)
  {
    reportType == Str("summary") || reportType == Str("detailed")
    || reportType == Str("comprehensive") || reportType == Str("executive")
  }

  /** The analysis the `switch (reportType)` selects: each of the four
      report types gets its own heading and content, any other value `{}`. */
  function AnalysisFor(history: seq<UploadEntry>, reportType: Value, userSince: string): (a: Analysis)
    ensures a.NoAnalysis? <==> !KnownReportType(reportType)
    ensures reportType == Str("summary") ==>
              a.SummaryAnalysis?
              && Heading(a) == Some(("Summary Report", "Overview of uploaded files and basic analytics"))
              && a.highlights == [
                   "Total files uploaded: " + NatToString(|history|),
                   "Total charts created: " + NatToString(TotalCharts(history)),
                   "User since: " + userSince]
    ensures reportType == Str("detailed") ==>
              a.DetailedAnalysis?
              && Heading(a) == Some(("Detailed Analysis", "Comprehensive analysis of all uploaded data"))
              && |a.fileDetails| == |history|
              && forall i | 0 <= i < |history| :: a.fileDetails[i] == Detail(history[i])
    ensures reportType == Str("comprehensive") ==>
              a.ComprehensiveAnalysis?
              && Heading(a) == Some(("Comprehensive Report", "Complete analysis with statistical insights"))
              && a.chartTypes == Distribution(history)
    ensures reportType == Str("executive") ==>
              a.ExecutiveAnalysis?
              && Heading(a) == Some(("Executive Summary", "High-level overview for executive review"))
              && a.totalDataProcessed == |history|
  {
    ReportTypesDistinct();
    if reportType == Str("summary") then
      SummaryAnalysis([
        "Total files uploaded: " + NatToString(|history|),
        "Total charts created: " + NatToString(TotalCharts(history)),
        "User since: " + userSince])
    else if reportType == Str("detailed") then
      DetailedAnalysis(seq(|history|, i requires 0 <= i < |history| => Detail(history[i])))
    else if reportType == Str("comprehensive") then ComprehensiveAnalysis(Distribution(history))
    else if reportType == Str("executive") then ExecutiveAnalysis(|history|)
    else NoAnalysis
  }

  /** The report generateReportContent builds for an account's name, e-mail
      and upload history: the fixed title, the account, the totals, every
      upload, the selected charts (`[]` when none) and the analysis. */
  function ReportOf(username: string, email: string, history: seq<UploadEntry>,
                    reportType: Value, selectedCharts: Value, userSince: string): (report: Report)
    ensures report.title == "Excel Analytics Platform Report"
    ensures report.username == username && report.email == email && report.files == history
    ensures report.summary == Summary(|history|, TotalCharts(history), reportType)
    ensures report.charts == if Truthy(selectedCharts) then selectedCharts else Arr([])
    ensures report.analysis == AnalysisFor(history, reportType, userSince)
  {
    Report("Excel Analytics Platform Report", username, email,
           Summary(|history|, TotalCharts(history), reportType), history,
           if Truthy(selectedCharts) then selectedCharts else Arr([]),
           AnalysisFor(history, reportType, userSince))
  }

  /** The `switch (reportType)` of generateReportContent; the comprehensive
      case runs getChartTypeDistribution's loops. */
  method Analyze(history: seq<UploadEntry>, reportType: Value, userSince: string) returns (analysis: Analysis)
    ensures analysis == AnalysisFor(history, reportType, userSince)
  {
    if reportType == Str("comprehensive") {
      var chartTypes := ChartTypeDistribution(history);
      analysis := ComprehensiveAnalysis(chartTypes);
    } else {
      analysis := AnalysisFor(history, reportType, userSince);
    }
  }

  /** generateReportContent. `userSince` is the locale date text of the
      account's creation. */
  method GenerateReportContent(u: UserDoc, reportType: Value, selectedCharts: Value, userSince: string)
    returns (report: Report)
    ensures report == ReportOf(u.username, u.email, u.uploadHistory, reportType, selectedCharts, userSince)
  {
    var history := u.uploadHistory;
    var summary := Summary(|history|, TotalCharts(history), reportType);
    var charts := if Truthy(selectedCharts) then selectedCharts else Arr([]);
    var analysis := Analyze(history, reportType, userSince);
    report := Report("Excel Analytics Platform Report", u.username, u.email, summary, history, charts, analysis);
  }

  datatype ReportReply =
    | PdfReport(reportType: Value, content: Report, filename: string)
    | PlainReport(content: Report)

  /** generateComprehensiveReport: a missing user is 404; a 'pdf' request
      wraps the report with a file name, any other returns it as is; either
      way the report is the one generateReportContent builds. */
  method GenerateComprehensiveReport(
    u: UserDoc?, reportType: Value, selectedCharts: Value, format: Value, userSince: string, now: int)
    returns (r: Reply<ReportReply>)
    ensures u == null ==> r == Err(404, "User not found")
    ensures u != null ==> r.Ok? && r.status == 200
    ensures u != null && format == Str("pdf") ==>
              r.message == "Comprehensive report generated" && r.data.PdfReport?
              && r.data.reportType == reportType
              && r.data.filename == "comprehensive-report-" + IntToString(now) + ".pdf"
    ensures u != null && format != Str("pdf") ==> r.message == "Report generated" && r.data.PlainReport?
    ensures r.Ok? ==> r.data.content
                      == ReportOf(u.username, u.email, u.uploadHistory, reportType, selectedCharts, userSince)
    ensures r.Ok? ==> r.data.content.summary.totalFiles == |u.uploadHistory|
                      && r.data.content.summary.totalCharts == TotalCharts(u.uploadHistory)
  {
    if u == null {
      return Err(404, "User not found");
    }
    var content := GenerateReportContent(u, reportType, selectedCharts, userSince);
    if format == Str("pdf") {
      r := Ok(200, "Comprehensive report generated",
              PdfReport(reportType, content, "comprehensive-report-" + IntToString(now) + ".pdf"));
    } else {
      r := Ok(200, "Report generated", PlainReport(content));
    }
  }

  /** The report's chart total is the sum of the histogram of chart types. */
  lemma ReportTotalsAgree(history: seq<UploadEntry>)
    ensures TotalCharts(history) == SumValues(Distribution(history))
    ensures |history| == 0 ==> Distribution(history) == map[] && TotalCharts(history) == 0
  {
    DistributionTotal(history);
  }
}
