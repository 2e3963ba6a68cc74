/**
 * The monitoring helpers: the constant table of normal ranges, the CSV text
 * built for an export, and the summary statistics of a series.
 */
module MonitoringUtils {
  import opened Wrappers
  import opened Text
  import opened Json

  // ---------------------------------------------------------------------
  // the threshold table

  /** A normal range, both ends inclusive, in tenths of the signal's unit. */
  datatype Range = Range(min: int, max: int) {
    predicate Contains(v: int) { min <= v <= max }
  }

  datatype Thresholds = Thresholds(
    heartRate: Range,
    oxygenLevel: Range,
    systolic: Range,
    diastolic: Range,
    temperature: Range,
    respiratoryRate: Range)

  /** Heart rate 60-100, oxygen 95-100, systolic 90-120, diastolic 60-80, temperature 36-37.5, respiration 12-20. */
  const AlertThresholds: Thresholds := Thresholds(
    Range(600, 1000),
    Range(950, 1000),
    Range(900, 1200),
    Range(600, 800),
    Range(360, 375),
    Range(120, 200))

  /** The six entries of the table, in declaration order. */
  function ThresholdEntries(t: Thresholds): (entries: seq<Range>)
    ensures |entries| == 6
  {
    [t.heartRate, t.oxygenLevel, t.systolic, t.diastolic, t.temperature, t.respiratoryRate]
  }

  /** Every range of the table is non-empty: its minimum does not exceed its maximum. */
  lemma ThresholdsWellFormed()
    ensures forall i :: 0 <= i < 6 ==> ThresholdEntries(AlertThresholds)[i].min <= ThresholdEntries(AlertThresholds)[i].max
  {}

  // ---------------------------------------------------------------------
  // CSV text

  /**
   * The seven properties the exporter reads from a record; `None` is a
   * property the record does not have. The time is rendered by the locale
   * formatter handed to `CsvText`.
   */
  datatype CsvRecord<T> = CsvRecord(
    time: T,
    heartRate: Option<Json>,
    oxygenLevel: Option<Json>,
    systolic: Option<Json>,
    diastolic: Option<Json>,
    temperature: Option<Json>,
    respiratoryRate: Option<Json>)

  /** Time, pulse, oxygen, systolic pressure, diastolic pressure, temperature, respiratory rate. */
  const Headers: seq<string> := ["זמן", "דופק", "חמצן", "לחץ דם סיסטולי", "לחץ דם דיאסטולי", "טמפרטורה", "קצב נשימה"]

  /** The cells of one row, in column order, each rendered as `join` renders it. */
  function RowCells<T>(r: CsvRecord<T>, showTime: T -> string): (cells: seq<string>)
    ensures |cells| == |Headers|
  {
    [showTime(r.time), CellText(r.heartRate), CellText(r.oxygenLevel), CellText(r.systolic),
     CellText(r.diastolic), CellText(r.temperature), CellText(r.respiratoryRate)]
  }

  function RowLine<T>(r: CsvRecord<T>, showTime: T -> string): string
  {
    Join(RowCells(r, showTime), ',')
  }

  /** The header line followed by one line per record. */
  function CsvLines<T>(records: seq<CsvRecord<T>>, showTime: T -> string): (lines: seq<string>)
    ensures |lines| == |records| + 1
    ensures lines[0] == Join(Headers, ',')
    ensures forall i :: 0 <= i < |records| ==> lines[i + 1] == RowLine(records[i], showTime)
  {
    var rows := seq(|records|, i requires 0 <= i < |records| => RowLine(records[i], showTime));
    [Join(Headers, ',')] + rows
  }

  /** The exported text: the lines joined by newlines, no quoting, no trailing newline. */
  function CsvText<T>(records: seq<CsvRecord<T>>, showTime: T -> string): string
  {
    Join(CsvLines(records, showTime), '\n')
  }

  predicate NoCellHas<T>(records: seq<CsvRecord<T>>, showTime: T -> string, c: char)
  {
    forall i, k :: 0 <= i < |records| && 0 <= k < |Headers| ==> c !in RowCells(records[i], showTime)[k]
  }

  lemma HeadersArePlain()
    ensures forall k :: 0 <= k < |Headers| ==> '\n' !in Headers[k] && ',' !in Headers[k]
  {}

  /**
   * When no cell contains a newline, the text reads back as exactly the
   * header line and one line per record: `|records| + 1` lines.
   */
  lemma {:induction false} CsvTextLines<T>(records: seq<CsvRecord<T>>, showTime: T -> string)
    requires NoCellHas(records, showTime, '\n')
    ensures Split(CsvText(records, showTime), '\n') == CsvLines(records, showTime)
    ensures |Split(CsvText(records, showTime), '\n')| == |records| + 1
  {
    var lines := CsvLines(records, showTime);
    HeadersArePlain();
    forall j | 0 <= j < |lines| ensures '\n' !in lines[j] {
      if j == 0 {
        JoinKeepsAbsent(Headers, ',', '\n');
      } else {
        JoinKeepsAbsent(RowCells(records[j - 1], showTime), ',', '\n');
      }
    }
    JoinThenSplit(lines, '\n');
  }

  /**
   * A row line splits back into its seven cells in column order when no
   * cell contains a comma; every comma inside a cell adds one more piece.
   */
  lemma RowLineCells<T>(r: CsvRecord<T>, showTime: T -> string)
    ensures |Split(RowLine(r, showTime), ',')| == |Headers| + Occurrences(RowCells(r, showTime), ',')
    ensures (forall k :: 0 <= k < |Headers| ==> ',' !in RowCells(r, showTime)[k]) ==>
              Split(RowLine(r, showTime), ',') == RowCells(r, showTime)
  {
    var cells := RowCells(r, showTime);
    JoinThenSplitLength(cells, ',');
    if forall k :: 0 <= k < |Headers| ==> ',' !in cells[k] {
      JoinThenSplit(cells, ',');
    }
  }

  // ---------------------------------------------------------------------
  // statistics

  datatype Point = Point(value: real)

  datatype Stats = Stats(min: real, max: real, avg: real, trend: real)

  /** `Math.min(...values)`. */
  function SeqMin(values: seq<real>): (m: real)
    requires |values| > 0
    ensures m in values
    ensures forall i :: 0 <= i < |values| ==> m <= values[i]
  {
    if |values| == 1 then values[0]
    else
      var rest := SeqMin(values[1..]);
      if values[0] <= rest then values[0] else rest
  }

  /** `Math.max(...values)`. */
  function SeqMax(values: seq<real>): (m: real)
    requires |values| > 0
    ensures m in values
    ensures forall i :: 0 <= i < |values| ==> values[i] <= m
  {
    if |values| == 1 then values[0]
    else
      var rest := SeqMax(values[1..]);
      if values[0] >= rest then values[0] else rest
  }

  /** `values.reduce((a, b) => a + b, 0)`, added left to right. */
  function Sum(values: seq<real>): real
  {
    if |values| == 0 then 0.0 else Sum(values[..|values| - 1]) + values[|values| - 1]
  }

  lemma {:induction false} SumBounds(values: seq<real>, lo: real, hi: real)
    requires forall i :: 0 <= i < |values| ==> lo <= values[i] <= hi
    ensures |values| as real * lo <= Sum(values) <= |values| as real * hi
  {
    if |values| > 0 {
      var init := values[..|values| - 1];
      assert forall i :: 0 <= i < |init| ==> init[i] == values[i];
      SumBounds(init, lo, hi);
      assert |values| as real * lo == |init| as real * lo + lo;
      assert |values| as real * hi == |init| as real * hi + hi;
    }
  }

  lemma MeanBetween(total: real, n: real, lo: real, hi: real)
    requires n > 0.0 && n * lo <= total <= n * hi
    ensures lo <= total / n <= hi
  {
    assert total / n * n == total;
  }

  /** The mean of a non-empty series lies within any bounds of its values. */
  lemma MeanWithinRange(values: seq<real>, lo: real, hi: real)
    requires |values| > 0
    requires forall i :: 0 <= i < |values| ==> lo <= values[i] <= hi
    ensures lo <= Sum(values) / |values| as real <= hi
  {
    SumBounds(values, lo, hi);
    MeanBetween(Sum(values), |values| as real, lo, hi);
  }

  function Values(data: seq<Point>): (values: seq<real>)
    ensures |values| == |data| && forall i :: 0 <= i < |data| ==> values[i] == data[i].value
  {
    seq(|data|, i requires 0 <= i < |data| => data[i].value)
  }

  /**
   * `calculateStats`: nothing for an empty series; otherwise its least and
   * greatest values, their mean, and the change from the first to the last.
   */
  function CalculateStats(data: seq<Point>): (r: Option<Stats>)
    ensures r.None? <==> |data| == 0
    ensures r.Some? ==> Values(data)[0] + r.value.trend == Values(data)[|data| - 1]
    ensures r.Some? ==> r.value.min in Values(data) && r.value.max in Values(data)
    ensures r.Some? ==> forall i :: 0 <= i < |data| ==> r.value.min <= data[i].value <= r.value.max
    ensures r.Some? ==> r.value.avg == Sum(Values(data)) / |data| as real
    ensures r.Some? ==> r.value.min <= r.value.avg <= r.value.max
  {
    if |data| == 0 then None
    else
      var values := Values(data);
      var lo := SeqMin(values);
      var hi := SeqMax(values);
      var avg := Sum(values) / |values| as real;
      MeanWithinRange(values, lo, hi);
      Some(Stats(lo, hi, avg, values[|values| - 1] - values[0]))
  }
}
