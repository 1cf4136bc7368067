/**
 * The two status tallies: the donut datum built from the secondary app's
 * records, and the running/stopped counts of the current app shown on the
 * status tiles.
 */
module StatusTally {
  import opened Wrappers
  import opened Records

  /** One slice of the donut: `{label, value}` (`label` is a Dafny keyword, hence `name`). */
  datatype ChartDatum = ChartDatum(name: string, value: nat)

  /** The tile counts of the current app: `{running, stopped}`. */
  datatype StatusCounts = StatusCounts(running: nat, stopped: nat)

  const SUCCESS_LABEL := "成功"
  const FAILURE_LABEL := "失敗"

  /** Field code of the status in the secondary app (app 147). */
  const SECONDARY_STATUS_FIELD := "color"
  /** Statuses of the secondary app counted as success, and as failure. */
  const AFFIRMATIVE: set<string> := {"成功", "実行中"}
  const NEGATIVE: set<string> := {"失敗", "停止中"}

  /** Field code of the status in the current app. */
  const CURRENT_STATUS_FIELD := "ステータス"
  const RUNNING := "実行中"
  const STOPPED := "停止中"

  /**
   * The response handler of the secondary-app fetch: walks the records once,
   * skips those without a status, and returns the two slices.
   */
  method TallySecondary(records: seq<Record>) returns (data: seq<ChartDatum>)
    ensures |data| == 2
    ensures data[0] == ChartDatum(SUCCESS_LABEL, Count(records, SECONDARY_STATUS_FIELD, AFFIRMATIVE))
    ensures data[1] == ChartDatum(FAILURE_LABEL, Count(records, SECONDARY_STATUS_FIELD, NEGATIVE))
    ensures data[0].value + data[1].value <= |records|
  {
    var countRunning: nat := 0;
    var countStopped: nat := 0;
    for i := 0 to |records|
      invariant countRunning == Count(records[..i], SECONDARY_STATUS_FIELD, AFFIRMATIVE)
      invariant countStopped == Count(records[..i], SECONDARY_STATUS_FIELD, NEGATIVE)
    {
      CountStep(records, i, SECONDARY_STATUS_FIELD, AFFIRMATIVE);
      CountStep(records, i, SECONDARY_STATUS_FIELD, NEGATIVE);
      var statusField := StatusOf(records[i], SECONDARY_STATUS_FIELD);
      if statusField.Some? {
        var status := statusField.value;
        if status == "成功" || status == "実行中" {
          countRunning := countRunning + 1;
        } else if status == "失敗" || status == "停止中" {
          countStopped := countStopped + 1;
        }
      }
    }
    assert records[..|records|] == records;
    CountDisjointBound(records, SECONDARY_STATUS_FIELD, AFFIRMATIVE, NEGATIVE);
    data := [ChartDatum(SUCCESS_LABEL, countRunning), ChartDatum(FAILURE_LABEL, countStopped)];
  }

  /**
   * The response handler of the current-app fetch: counts "実行中" as running
   * and "停止中" as stopped, skipping records without a status.
   */
  method CountCurrent(records: seq<Record>) returns (counts: StatusCounts)
    ensures counts.running == Count(records, CURRENT_STATUS_FIELD, {RUNNING})
    ensures counts.stopped == Count(records, CURRENT_STATUS_FIELD, {STOPPED})
    ensures counts.running + counts.stopped <= |records|
  {
    var countRunning: nat := 0;
    var countStopped: nat := 0;
    for i := 0 to |records|
      invariant countRunning == Count(records[..i], CURRENT_STATUS_FIELD, {RUNNING})
      invariant countStopped == Count(records[..i], CURRENT_STATUS_FIELD, {STOPPED})
    {
      CountStep(records, i, CURRENT_STATUS_FIELD, {RUNNING});
      CountStep(records, i, CURRENT_STATUS_FIELD, {STOPPED});
      var statusField := StatusOf(records[i], CURRENT_STATUS_FIELD);
      if statusField.Some? {
        var status := statusField.value;
        if status == RUNNING {
          countRunning := countRunning + 1;
        } else if status == STOPPED {
          countStopped := countStopped + 1;
        }
      }
    }
    assert records[..|records|] == records;
    CountDisjointBound(records, CURRENT_STATUS_FIELD, {RUNNING}, {STOPPED});
    counts := StatusCounts(countRunning, countStopped);
  }

  /** The number on the "clear" tile. */
  function ClearTileCount(counts: StatusCounts): nat {
    counts.running + counts.stopped
  }

  /**
   * The clear tile shows the number of current-app records that are running or
   * stopped, which never exceeds the number of records fetched.
   */
  lemma ClearTileCountsListedRecords(records: seq<Record>)
    ensures ClearTileCount(StatusCounts(Count(records, CURRENT_STATUS_FIELD, {RUNNING}),
                                        Count(records, CURRENT_STATUS_FIELD, {STOPPED})))
            == Count(records, CURRENT_STATUS_FIELD, {RUNNING} + {STOPPED}) <= |records|
  {
    CurrentClassesDisjoint();
    TileSum(records, {RUNNING}, {STOPPED});
  }

  lemma TileSum(records: seq<Record>, running: set<string>, stopped: set<string>)
    requires running !! stopped
    ensures ClearTileCount(StatusCounts(Count(records, CURRENT_STATUS_FIELD, running),
                                        Count(records, CURRENT_STATUS_FIELD, stopped)))
            == Count(records, CURRENT_STATUS_FIELD, running + stopped) <= |records|
  {
    CountDisjointUnion(records, CURRENT_STATUS_FIELD, running, stopped);
  }

  /** A record of the current app counts as running or as stopped, never both. */
  lemma CurrentClassesDisjoint()
    ensures {RUNNING} !! {STOPPED}
  {
    assert RUNNING[0] != STOPPED[0];
  }

  /** A record of the secondary app counts as success or as failure, never both. */
  lemma SecondaryClassesDisjoint()
    ensures AFFIRMATIVE !! NEGATIVE
  {
  }

  function StatusRecord(code: string, status: string): Record {
    map[code := Some(status)]
  }

  /** Three records "成功", "失敗", "実行中" give the slices 2 and 1. */
  lemma ThreeRecordScenario()
    ensures var records := [StatusRecord(SECONDARY_STATUS_FIELD, "成功"),
                            StatusRecord(SECONDARY_STATUS_FIELD, "失敗"),
                            StatusRecord(SECONDARY_STATUS_FIELD, "実行中")];
      Count(records, SECONDARY_STATUS_FIELD, AFFIRMATIVE) == 2 &&
      Count(records, SECONDARY_STATUS_FIELD, NEGATIVE) == 1
  {
    var r0 := StatusRecord(SECONDARY_STATUS_FIELD, "成功");
    var r1 := StatusRecord(SECONDARY_STATUS_FIELD, "失敗");
    var r2 := StatusRecord(SECONDARY_STATUS_FIELD, "実行中");
    var records := [r0, r1, r2];
    assert StatusOf(r0, SECONDARY_STATUS_FIELD) == Some("成功");
    assert StatusOf(r1, SECONDARY_STATUS_FIELD) == Some("失敗");
    assert StatusOf(r2, SECONDARY_STATUS_FIELD) == Some("実行中");
    assert HasStatusIn(r0, SECONDARY_STATUS_FIELD, AFFIRMATIVE) && !HasStatusIn(r0, SECONDARY_STATUS_FIELD, NEGATIVE);
    assert !HasStatusIn(r1, SECONDARY_STATUS_FIELD, AFFIRMATIVE) && HasStatusIn(r1, SECONDARY_STATUS_FIELD, NEGATIVE);
    assert HasStatusIn(r2, SECONDARY_STATUS_FIELD, AFFIRMATIVE) && !HasStatusIn(r2, SECONDARY_STATUS_FIELD, NEGATIVE);
    assert [r0][..0] == [];
    assert Count([r0], SECONDARY_STATUS_FIELD, AFFIRMATIVE) == 1;
    assert Count([r0], SECONDARY_STATUS_FIELD, NEGATIVE) == 0;
    assert [r0, r1][..1] == [r0];
    assert Count([r0, r1], SECONDARY_STATUS_FIELD, AFFIRMATIVE) == 1;
    assert Count([r0, r1], SECONDARY_STATUS_FIELD, NEGATIVE) == 1;
    assert records[..2] == [r0, r1];
  }
}
