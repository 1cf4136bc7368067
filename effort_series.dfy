/**
 * The bar chart's data: for every record of the current app, its flow name,
 * its after-automation effort and the effort saved (before minus after), and
 * the tooltip that shows the before-effort again.
 */
module EffortSeries {
  import opened Wrappers
  import opened JsText
  import opened Records

  const FLOW_NAME_FIELD := "業務名"
  const BEFORE_FIELD := "手動工数_ビフォー"
  const AFTER_FIELD := "手動工数_アフター"
  /** Label of a flow whose name is blank. */
  const UNNAMED := "(無名)"
  /** Dataset labels of the two stacked series. */
  const AFTER_DATASET := "アフター工数"
  const REDUCED_DATASET := "削減工数（ビフォーとの差）"

  /** The three parallel arrays handed to the chart. */
  datatype Series = Series(labels: seq<string>, afterData: seq<int>, reducedData: seq<int>)

  /** `name.trim() || '(無名)'`. */
  function FlowLabel(name: string): (shown: string)
    ensures AllWhitespace(name) ==> shown == UNNAMED
    ensures !AllWhitespace(name) ==> shown == Trim(name) && shown != []
  {
    TrimEmptyIffBlank(name);
    var trimmed := Trim(name);
    if trimmed == "" then UNNAMED else trimmed
  }

  /**
   * The handler reads `record[code].value` for the three fields; it throws
   * when a field object is absent, and also when the name's value is missing
   * (`undefined.trim()`).
   */
  predicate Readable(rec: Record) {
    FLOW_NAME_FIELD in rec && rec[FLOW_NAME_FIELD].Some? && BEFORE_FIELD in rec && AFTER_FIELD in rec
  }

  function FlowName(rec: Record): string
    requires Readable(rec)
  {
    rec[FLOW_NAME_FIELD].value
  }

  function BeforeMinutes(rec: Record): int
    requires Readable(rec)
  {
    NumberOrZero(rec[BEFORE_FIELD])
  }

  function AfterMinutes(rec: Record): int
    requires Readable(rec)
  {
    NumberOrZero(rec[AFTER_FIELD])
  }

  /**
   * `series` is the chart data of `records`: one entry per record, in record
   * order, with the saved effort kept as is (negative when after exceeds before).
   */
  ghost predicate IsSeriesOf(records: seq<Record>, series: Series) {
    |series.labels| == |records| && |series.afterData| == |records| && |series.reducedData| == |records| &&
    forall i :: 0 <= i < |records| ==>
      IsEntryOf(records[i], series.labels[i], series.afterData[i], series.reducedData[i])
  }

  /** One entry of the three arrays is the one a record produces. */
  ghost predicate IsEntryOf(rec: Record, flowLabel: string, after: int, reduced: int) {
    Readable(rec) &&
    flowLabel == FlowLabel(FlowName(rec)) &&
    after == AfterMinutes(rec) &&
    reduced == BeforeMinutes(rec) - AfterMinutes(rec)
  }

  /**
   * The response handler of the bar-chart fetch: pushes one entry per record.
   * `None` is the handler throwing on an unreadable record (nothing is drawn).
   */
  method Build(records: seq<Record>) returns (series: Option<Series>)
    ensures series.Some? <==> forall i :: 0 <= i < |records| ==> Readable(records[i])
    ensures series.Some? ==> IsSeriesOf(records, series.value)
  {
    var labels: seq<string> := [];
    var afterData: seq<int> := [];
    var reducedData: seq<int> := [];
    for i := 0 to |records|
      invariant |labels| == i && |afterData| == i && |reducedData| == i
      invariant forall j :: 0 <= j < i ==> IsEntryOf(records[j], labels[j], afterData[j], reducedData[j])
    {
      var rec := records[i];
      if !Readable(rec) {
        return None;
      }
      var flowName := FlowLabel(rec[FLOW_NAME_FIELD].value);
      var manualBefore := NumberOrZero(rec[BEFORE_FIELD]);
      var manualAfter := NumberOrZero(rec[AFTER_FIELD]);
      assert IsEntryOf(rec, flowName, manualAfter, manualBefore - manualAfter);
      labels := labels + [flowName];
      afterData := afterData + [manualAfter];
      reducedData := reducedData + [manualBefore - manualAfter];
    }
    series := Some(Series(labels, afterData, reducedData));
  }

  /** The number the tooltip of entry `index` shows for the hovered dataset. */
  function TooltipValue(series: Series, index: nat, dataset: string): int
    requires index < |series.afterData| && index < |series.reducedData|
  {
    var after := series.afterData[index];
    var reduced := series.reducedData[index];
    if dataset == REDUCED_DATASET then after + reduced else after
  }

  /**
   * The tooltip lines of entry `index`. The saved-effort callback returns a
   * one-element array and the after callback a plain string; Chart.js draws
   * both as a single line, so both are one-element sequences here.
   */
  function TooltipLines(series: Series, index: nat, dataset: string): seq<string>
    requires index < |series.afterData| && index < |series.reducedData|
  {
    var value := IntegerText(TooltipValue(series, index, dataset));
    if dataset == REDUCED_DATASET then ["ビフォー: " + value + " 分"] else ["アフター: " + value + " 分"]
  }

  /**
   * The saved-effort tooltip shows the record's before-effort (after + reduced
   * is the stacked bar's height), the after tooltip its after-effort, and the
   * number in either text reads back as that value.
   */
  lemma TooltipReconstructsEfforts(records: seq<Record>, series: Series, i: nat)
    requires IsSeriesOf(records, series) && i < |records|
    ensures series.afterData[i] + series.reducedData[i] == BeforeMinutes(records[i])
    ensures TooltipLines(series, i, REDUCED_DATASET) == ["ビフォー: " + IntegerText(BeforeMinutes(records[i])) + " 分"]
    ensures TooltipLines(series, i, AFTER_DATASET) == ["アフター: " + IntegerText(AfterMinutes(records[i])) + " 分"]
    ensures NumberOrZero(Some(IntegerText(TooltipValue(series, i, REDUCED_DATASET)))) == BeforeMinutes(records[i])
  {
    var rec := records[i];
    assert IsEntryOf(rec, series.labels[i], series.afterData[i], series.reducedData[i]);
    var before := TooltipValue(series, i, REDUCED_DATASET);
    assert before == BeforeMinutes(rec);
    assert AFTER_DATASET != REDUCED_DATASET by {
      assert AFTER_DATASET[0] != REDUCED_DATASET[0];
    }
    assert TooltipValue(series, i, AFTER_DATASET) == AfterMinutes(rec);
    IntegerTextRoundTrip(before);
  }

  /** Records that share a name still get one bar each: names are never merged. */
  lemma DuplicateNamesKept(records: seq<Record>, series: Series, i: nat, j: nat)
    requires IsSeriesOf(records, series) && i < j < |records|
    requires FlowName(records[i]) == FlowName(records[j])
    ensures series.labels[i] == series.labels[j] && |series.labels| == |records|
  {
    assert IsEntryOf(records[i], series.labels[i], series.afterData[i], series.reducedData[i]);
    assert IsEntryOf(records[j], series.labels[j], series.afterData[j], series.reducedData[j]);
  }
}
