/** The upload page of the client (client/src/pages/UploadFile.jsx): it posts
    the chosen file, turns the header row and preview rows of the reply into
    records, picks the first two headers as default axes and draws the chosen
    chart over the preview. */
module UploadFilePage {
  import opened Js
  import opened Rows
  import UploadController

  datatype ChartKind = BarChart | PieChart | LineChart | DonutChart

  /** The chart-type choices: label and value. */
  const ChartTypes: seq<(string, string)> := [
    ("Bar Chart", "bar"), ("Pie Chart", "pie"), ("Line Chart", "line"), ("Donut Chart", "donut")
  ]

  /** The chart drawn for a chart-type value; any other value draws nothing. */
  function Drawn(chartType: string): (kind: Option<ChartKind>)
    ensures kind.Some? <==> chartType in {"bar", "pie", "line", "donut"}
  {
    if chartType == "bar" then Some(BarChart)
    else if chartType == "pie" then Some(PieChart)
    else if chartType == "line" then Some(LineChart)
    else if chartType == "donut" then Some(DonutChart)
    else None
  }

  /** Every offered choice draws a chart, and no two choices draw the same
      kind. */
  lemma ChoicesDraw()
    ensures forall i | 0 <= i < |ChartTypes| :: Drawn(ChartTypes[i].1).Some?
    ensures forall i, j | 0 <= i < j < |ChartTypes| :: Drawn(ChartTypes[i].1) != Drawn(ChartTypes[j].1)
  {
  }

  /** An array as it arrives through JSON: a hole or an `undefined` element
      becomes `null`. */
  function ThroughJson(row: seq<Value>): (r: seq<Value>)
    ensures |r| == |row|
    ensures forall i | 0 <= i < |row| :: r[i] == if row[i].Undefined? then Null else row[i]
  {
    seq(|row|, i requires 0 <= i < |row| => if row[i].Undefined? then Null else row[i])
  }

  /** How the upload request ends for the page: the reply's summary, or the
      message of the error it threw. */
  datatype UploadResult = Parsed(summary: UploadController.UploadSummary) | Failed(message: string)

  class UploadPage {
    var selectedFile: Value
    var showPreview: bool
    var columns: seq<Value>
    var previewData: seq<Row>
    var xAxis: Value
    var yAxis: Value
    var chartType: string
    var loading: bool
    var error: string

    constructor ()
      ensures selectedFile == Null && !showPreview && columns == [] && previewData == []
      ensures xAxis == Str("") && yAxis == Str("") && chartType == "bar" && !loading && error == ""
    {
      selectedFile := Null;
      showPreview := false;
      columns := [];
      previewData := [];
      xAxis := Str("");
      yAxis := Str("");
      chartType := "bar";
      loading := false;
      error := "";
    }

    /** `handleFileChange`: with no file chosen nothing happens; otherwise
        the file is posted, and on success the headers become the columns,
        each preview row a record keyed by them, and the first two headers
        the axes; on failure the message is shown and the previous preview
        stays. Loading ends either way. */
    method HandleFileChange(file: Option<Value>, result: UploadResult)
      modifies this
      ensures file.None? ==> && selectedFile == old(selectedFile) && columns == old(columns)
                             && previewData == old(previewData) && error == old(error)
                             && loading == old(loading) && showPreview == old(showPreview)
                             && xAxis == old(xAxis) && yAxis == old(yAxis)
      ensures file.Some? ==> selectedFile == file.value && !loading
      ensures file.Some? && result.Parsed? ==>
                && columns == ThroughJson(result.summary.headers)
                && |previewData| == |result.summary.preview|
                && (forall i | 0 <= i < |previewData| ::
                      previewData[i] == RowObject(columns, ThroughJson(result.summary.preview[i])))
                && xAxis == DefaultAxis(columns, 0) && yAxis == DefaultAxis(columns, 1)
                && showPreview && error == ""
      ensures file.Some? && result.Failed? ==>
                && error == (if result.message != "" then result.message else "Failed to upload and parse file")
                && columns == old(columns) && previewData == old(previewData)
                && xAxis == old(xAxis) && yAxis == old(yAxis) && showPreview == old(showPreview)
      ensures chartType == old(chartType)
    {
      if file.None? {
        return;
      }
      loading := true;
      error := "";
      selectedFile := file.value;
      match result {
        case Parsed(summary) =>
          var headers := ThroughJson(summary.headers);
          var preview := seq(|summary.preview|, i requires 0 <= i < |summary.preview| => ThroughJson(summary.preview[i]));
          columns := headers;
          previewData := ZipRows(headers, preview);
          xAxis := DefaultAxis(headers, 0);
          yAxis := DefaultAxis(headers, 1);
          showPreview := true;
        case Failed(message) =>
          error := if message != "" then message else "Failed to upload and parse file";
      }
      loading := false;
    }

    /** `chartData`: labels from the x-axis property and values from the
        y-axis property of every preview record. */
    function Chart(): (c: ChartData)
      reads this
      ensures |c.labels| == |previewData| && c.seriesLabel == yAxis
    {
      Project(previewData, xAxis, yAxis)
    }
  }

  /** A header row without holes is unchanged by JSON. */
  lemma ThroughJsonKeeps(row: seq<Value>)
    requires forall i | 0 <= i < |row| :: !row[i].Undefined?
    ensures ThroughJson(row) == row
  {
  }

  /** The page's default chart of a freshly uploaded sheet plots the first
      column of the sheet against the second, for the first rows up to the
      preview length: the labels are the sheet's cells in column 0 and the
      values those in column 1, as they arrive through JSON. This holds when
      the header row has no holes, distinct names and two truthy first
      headers. */
  lemma {:induction false} DefaultChartPlotsFirstColumns(file: UploadController.UploadedFile, sheet: seq<seq<Value>>)
    requires |sheet| > 0 && |sheet[0]| >= 2 && DistinctKeys(sheet[0])
    requires Truthy(sheet[0][0]) && Truthy(sheet[0][1])
    ensures var s := UploadController.Summarize(file, sheet);
            var columns := ThroughJson(s.headers);
            var records := seq(|s.preview|, i requires 0 <= i < |s.preview| => RowObject(columns, ThroughJson(s.preview[i])));
            var c := Project(records, DefaultAxis(columns, 0), DefaultAxis(columns, 1));
            && |c.labels| == |s.preview| && |s.preview| == (if |sheet| - 1 < 10 then |sheet| - 1 else 10)
            && (forall i | 0 <= i < |s.preview| :: c.labels[i] == CellAt(ThroughJson(sheet[i + 1]), 0))
            && (forall i | 0 <= i < |s.preview| :: c.data[i] == CellAt(ThroughJson(sheet[i + 1]), 1))
            && c.seriesLabel == sheet[0][1]
  {
    var s := UploadController.Summarize(file, sheet);
    var columns := ThroughJson(s.headers);
    assert s.headers == sheet[0];
    ThroughJsonKeeps(sheet[0]);
    assert columns == sheet[0];
    var rows := seq(|s.preview|, i requires 0 <= i < |s.preview| => ThroughJson(s.preview[i]));
    assert DefaultAxis(columns, 0) == columns[0] && DefaultAxis(columns, 1) == columns[1];
    ProjectZippedColumns(columns, rows, 0, 1);
    assert seq(|s.preview|, i requires 0 <= i < |s.preview| => RowObject(columns, ThroughJson(s.preview[i])))
        == seq(|rows|, i requires 0 <= i < |rows| => RowObject(columns, rows[i]));
  }

  /** A hole in the header row is skipped by the server, which parses the
      stored file with the hole still in place, but arrives at the page as
      `null`, so the page's records gain a property named "null" that the
      server's records of the same row lack. */
  lemma HoleHeaderDiffers(headers: seq<Value>, row: seq<Value>, i: nat)
    requires i < |headers| && headers[i].Undefined?
    requires forall j | 0 <= j < |headers| :: !Names(headers[j], "null")
    ensures "null" in RowObject(ThroughJson(headers), row)
    ensures "null" !in RowObject(headers, row)
  {
    assert Names(ThroughJson(headers)[i], "null");
    RowObjectKeys(ThroughJson(headers), row, "null");
    RowObjectKeys(headers, row, "null");
  }
}
