/** The whole judgement pipeline of one uploaded table: the column check,
    the Result, Z-score and Outlier columns, and the text of the report. */
module QcTool {
  import opened Schema
  import opened Stats
  import opened Judgement
  import opened Report

  /** What the script ends with: the annotated columns and the report
      lines, or the error message it stops on. */
  datatype Outcome =
    | Analyzed(results: seq<Verdict>, zscores: seq<ZScore>, marks: seq<string>, lines: seq<string>)
    | Rejected(message: string)

  /** Runs the pipeline on a table with header `columns` and rows `rows`.
      `sd` is the population standard deviation of the measured values
      (the square root the model does not compute) and `fmt` renders the
      numbers of each column as text. */
  method Analyze(columns: seq<string>, rows: seq<Row>, sd: real, fmt: Formats)
    returns (out: Outcome)
    requires sd >= 0.0 && sd * sd == PopVariance(Values(rows))
    ensures out.Rejected? <==> !HasExpectedColumns(columns)
    ensures out.Rejected? ==> out.message == ColumnError
    ensures out.Analyzed? ==>
      && |out.results| == |rows| && |out.zscores| == |rows| && |out.marks| == |rows|
      && (forall i :: 0 <= i < |rows| ==> out.results[i] == AssessRow(rows[i]))
      && (forall i :: 0 <= i < |rows| ==>
            out.zscores[i] == ZScoreOf(rows[i].value, Mean(Values(rows)), sd))
      && (forall i :: 0 <= i < |rows| ==> out.marks[i] == OutlierText(Outlier(Values(rows), i)))
      && |out.lines| == |rows| + 1
      && out.lines[0] == Title
      && (forall i :: 0 <= i < |rows| ==>
            out.lines[i + 1] == ReportLine(rows[i], out.results[i], out.marks[i], fmt))
    ensures out.Analyzed? && |rows| > 0 ==> 4 * CountYes(out.marks) < |rows|
  {
    if !HasExpectedColumns(columns) {
      return Rejected(ColumnError);
    }
    var results := ResultColumn(rows);
    var xs := Values(rows);
    var zscores := ZScoreColumn(xs, sd);
    var marks := OutlierColumn(zscores);
    forall i | 0 <= i < |rows|
      ensures marks[i] == OutlierText(Outlier(xs, i))
    {
      OutlierIsZScoreFlag(xs, i, sd);
    }
    FewerThanAQuarterMarked(xs, marks);
    var lines := ReportLines(rows, results, marks, fmt);
    return Analyzed(results, zscores, marks, lines);
  }
}
