/** The chart builder component (client/src/components/ChartViewer.jsx): given
    header columns and row records, the user picks a chart type and two axes
    and presses "Show Analysis" to draw the chart. */
module ChartViewer {
  import opened Js
  import opened Rows

  datatype ViewerChart = Bar | Line | Pie | Scatter

  /** The chart-type choices: label and value. */
  const ChartTypes: seq<(string, string)> := [
    ("Bar Chart", "bar"), ("Line Chart", "line"), ("Pie Chart", "pie"), ("Scatter Plot", "scatter")
  ]

  /** What the display area shows. */
  datatype Display =
    | NoChartsYet
    | Drawn(kind: ViewerChart, chart: ChartData)
    | Unsupported

  /** The display for a chart type once the chart is shown. */
  function ChartFor(chartType: string, chart: ChartData): (d: Display)
    ensures d != NoChartsYet
    ensures d.Drawn? ==> d.chart == chart
  {
    if chartType == "bar" then Drawn(Bar, chart)
    else if chartType == "line" then Drawn(Line, chart)
    else if chartType == "pie" then Drawn(Pie, chart)
    else if chartType == "scatter" then Drawn(Scatter, chart)
    else Unsupported
  }

  /** Every offered choice draws its own kind of chart; any other value
      shows "Chart type not supported yet." */
  lemma ChoicesDrawn(chart: ChartData)
    ensures forall i | 0 <= i < |ChartTypes| :: ChartFor(ChartTypes[i].1, chart).Drawn?
    ensures forall i, j | 0 <= i < j < |ChartTypes| ::
              ChartFor(ChartTypes[i].1, chart).kind != ChartFor(ChartTypes[j].1, chart).kind
    ensures forall t :: (forall i | 0 <= i < |ChartTypes| :: t != ChartTypes[i].1) ==> ChartFor(t, chart) == Unsupported
  {
    forall t | forall i | 0 <= i < |ChartTypes| :: t != ChartTypes[i].1
      ensures ChartFor(t, chart) == Unsupported
    {
      assert t != ChartTypes[0].1 && t != ChartTypes[1].1 && t != ChartTypes[2].1 && t != ChartTypes[3].1;
    }
  }

  /** A select's value is text: picking header `col` sets the axis to
      `String(col)`, which reads the same property as `col` itself, so the
      chart is the same as with the header cell. */
  lemma SelectedAxisReadsColumn(records: seq<Row>, x: Value, y: Value)
    ensures Project(records, Str(KeyOf(x)), Str(KeyOf(y))).labels == Project(records, x, y).labels
    ensures Project(records, Str(KeyOf(x)), Str(KeyOf(y))).data == Project(records, x, y).data
  {
  }

  /** Nothing stops both axes from naming the same column: the chart then
      plots a column against itself. */
  lemma SameAxisPlotsItself(records: seq<Row>, axis: Value)
    ensures Project(records, axis, axis).labels == Project(records, axis, axis).data
  {
  }

  class Viewer {
    var columns: seq<Value>
    var data: seq<Row>
    var chartType: string
    var xAxis: Value
    var yAxis: Value
    var showChart: bool

    /** The first render: bar chart, the first two headers (or '') as axes,
        nothing shown yet. */
    constructor (columns: seq<Value>, data: seq<Row>)
      ensures this.columns == columns && this.data == data && chartType == "bar"
      ensures xAxis == DefaultAxis(columns, 0) && yAxis == DefaultAxis(columns, 1) && !showChart
    {
      this.columns := columns;
      this.data := data;
      chartType := "bar";
      xAxis := DefaultAxis(columns, 0);
      yAxis := DefaultAxis(columns, 1);
      showChart := false;
    }

    /** New props: the component keeps its state, so the axes still come from
        the first columns it was given. */
    method Rerender(columns: seq<Value>, data: seq<Row>)
      modifies this
      ensures this.columns == columns && this.data == data
      ensures chartType == old(chartType) && xAxis == old(xAxis) && yAxis == old(yAxis)
      ensures showChart == old(showChart)
    {
      this.columns := columns;
      this.data := data;
    }

    method SelectChartType(value: string)
      modifies this
      ensures chartType == value
      ensures columns == old(columns) && data == old(data) && xAxis == old(xAxis) && yAxis == old(yAxis)
      ensures showChart == old(showChart)
    {
      chartType := value;
    }

    /** Picking the header at `index` in the x-axis list. */
    method SelectXAxis(index: nat)
      requires index < |columns|
      modifies this
      ensures xAxis == Str(KeyOf(old(columns)[index]))
      ensures columns == old(columns) && data == old(data) && chartType == old(chartType)
      ensures yAxis == old(yAxis) && showChart == old(showChart)
    {
      xAxis := Str(KeyOf(columns[index]));
    }

    /** Picking the header at `index` in the y-axis list. */
    method SelectYAxis(index: nat)
      requires index < |columns|
      modifies this
      ensures yAxis == Str(KeyOf(old(columns)[index]))
      ensures columns == old(columns) && data == old(data) && chartType == old(chartType)
      ensures xAxis == old(xAxis) && showChart == old(showChart)
    {
      yAxis := Str(KeyOf(columns[index]));
    }

    /** "Show Analysis". */
    method ShowAnalysis()
      modifies this
      ensures showChart
      ensures columns == old(columns) && data == old(data) && chartType == old(chartType)
      ensures xAxis == old(xAxis) && yAxis == old(yAxis)
    {
      showChart := true;
    }

    /** The display area: "No Charts Yet" until the chart is shown, then the
        chart for the chosen type over the records. */
    function Shown(): (d: Display)
      reads this
      ensures d == NoChartsYet <==> !showChart
      ensures d.Drawn? ==> d.chart == Project(data, xAxis, yAxis)
    {
      if showChart then ChartFor(chartType, Project(data, xAxis, yAxis)) else NoChartsYet
    }
  }

  /** Records zipped from rows under distinct headers, charted by the axes
      picked from the lists, plot exactly the picked spreadsheet columns. */
  lemma {:induction false} PickedColumnsPlotted(columns: seq<Value>, rows: seq<seq<Value>>, x: nat, y: nat)
    requires DistinctKeys(columns) && x < |columns| && y < |columns|
    ensures var records := seq(|rows|, i requires 0 <= i < |rows| => RowObject(columns, rows[i]));
            var c := Project(records, Str(KeyOf(columns[x])), Str(KeyOf(columns[y])));
            && (forall i | 0 <= i < |rows| :: c.labels[i] == CellAt(rows[i], x))
            && (forall i | 0 <= i < |rows| :: c.data[i] == CellAt(rows[i], y))
  {
    var records := seq(|rows|, i requires 0 <= i < |rows| => RowObject(columns, rows[i]));
    SelectedAxisReadsColumn(records, columns[x], columns[y]);
    ProjectZippedColumns(columns, rows, x, y);
  }
}
