/** `get_latest_metrics`: the snapshot of the last row of a twin's processed table. */
module Metrics {
  import opened Wrappers
  import opened Records
  import opened Spo2
  import opened Normalize

  /** The snapshot's entries; `lastSync` is the day of the row. */
  datatype Snapshot = Snapshot(spo2: Option<Cell>, rhr: Option<real>, hrv: Option<real>,
                               respiratoryRate: Option<real>, sleepScore: Option<real>,
                               skinTemp: Option<real>, lastSync: Option<int>)

  const EmptySnapshot := Snapshot(None, None, None, None, None, None, None)

  /** `safe_get` of a cell: None for a null value, the value itself otherwise. */
  function SafeCell(c: Cell): (r: Option<Cell>)
    ensures r.None? <==> IsNull(c)
    ensures r.Some? ==> r.value == c
  {
    if IsNull(c) then None else Some(c)
  }

  /** The snapshot of the last row; every entry None for an empty table. The SpO2 entry reads
      column `spo2`, which a table split by the sleep fallback does not have. */
  function LatestMetrics(t: Table): (s: Snapshot)
    ensures t.rows == [] ==> s == EmptySnapshot
    ensures t.rows != [] ==> s.lastSync == Some(t.rows[|t.rows| - 1].day)
    ensures s.spo2.Some? ==> !t.spo2Split && !IsNull(s.spo2.value)
  {
    if t.rows == [] then EmptySnapshot
    else
      var f := t.rows[|t.rows| - 1].fields;
      Snapshot(
        spo2 := if t.spo2Split then None else SafeCell(f.spo2),
        rhr := f.lowestHeartRate,
        hrv := f.averageHrv,
        respiratoryRate := f.averageBreath,
        sleepScore := f.sleepScore,
        skinTemp := f.temperatureDeviation,
        lastSync := Some(t.rows[|t.rows| - 1].day))
  }

  /** The last row of a table ordered by day, whose days are those of `u`, has the largest
      day of `u`. */
  lemma {:induction false} LastRowHasLatestDay(rows: seq<Row>, u: set<int>)
    requires rows != [] && NonDecreasing(Days(rows))
    requires forall d :: d in Days(rows) <==> d in u
    ensures rows[|rows| - 1].day in u
    ensures forall d :: d in u ==> d <= rows[|rows| - 1].day
  {
    var m := rows[|rows| - 1].day;
    assert Days(rows)[|rows| - 1] == m;
    forall d | d in u ensures d <= m {
      var k :| 0 <= k < |rows| && Days(rows)[k] == d;
      assert Days(rows)[k] <= Days(rows)[|rows| - 1];
    }
  }

  /** The last sync of a twin with data is the latest day of any record, and a twin without
      data has an empty snapshot. */
  lemma LastSyncIsLatestDay(raw: RawData)
    ensures raw.NoData? || UnionDays(raw) == {} ==> LatestMetrics(ProcessedTable(raw)) == EmptySnapshot
    ensures raw.Raw? && UnionDays(raw) != {} ==>
              LatestMetrics(ProcessedTable(raw)).lastSync.Some? &&
              var m := LatestMetrics(ProcessedTable(raw)).lastSync.value;
              m in UnionDays(raw) && forall d :: d in UnionDays(raw) ==> d <= m
  {
    ProcessedDays(raw);
    if raw.Raw? && UnionDays(raw) != {} {
      LastRowHasLatestDay(ProcessedTable(raw).rows, UnionDays(raw));
    }
  }

  /** The snapshot of day `d`'s metrics, `split` saying whether column `spo2` is gone. */
  function DaySnapshot(raw: RawData, d: int, split: bool): Snapshot
    requires raw.Raw?
    requires split ==> raw.sleep.Some? && SleepSpo2Columns(raw.sleep.value) != []
  {
    var f := DayFields(raw, d, split);
    Snapshot(if split then None else SafeCell(f.spo2), f.lowestHeartRate, f.averageHrv,
             f.averageBreath, f.sleepScore, f.temperatureDeviation, Some(d))
  }

  /** The snapshot of a day-by-day table holds the metrics of its last day. */
  lemma LatestOfAxisRows(t: Table, raw: RawData, axis: seq<int>)
    requires raw.Raw? && |axis| > 0
    requires t.spo2Split ==> raw.sleep.Some? && SleepSpo2Columns(raw.sleep.value) != []
    requires t.rows == AxisRows(axis, raw, t.spo2Split)
    ensures LatestMetrics(t) == DaySnapshot(raw, axis[|axis| - 1], t.spo2Split)
  {
    assert t.rows[|axis| - 1] == Row(axis[|axis| - 1], DayFields(raw, axis[|axis| - 1], t.spo2Split));
  }

  /** When each daily source has at most one record per day, the snapshot holds the metrics
      of the latest day of any record. */
  lemma LatestIsLastDay(raw: RawData)
    requires raw.Raw? && DailySourcesOnePerDay(raw) && UnionDays(raw) != {}
    ensures ProcessedTable(raw).spo2Split ==> raw.sleep.Some? && SleepSpo2Columns(raw.sleep.value) != []
    ensures |SortedDays(UnionDays(raw))| > 0
    ensures LatestMetrics(ProcessedTable(raw)) ==
              DaySnapshot(raw, SortedDays(UnionDays(raw))[|UnionDays(raw)| - 1], ProcessedTable(raw).spo2Split)
  {
    ProcessedRows(raw);
    LatestOfAxisRows(ProcessedTable(raw), raw, SortedDays(UnionDays(raw)));
  }

  /** When the SpO2 endpoint yields nothing and the sleep records carry an SpO2-marked
      column, the fallback meant to supply SpO2 leaves the snapshot without it. */
  lemma FallbackHidesSpo2(raw: RawData)
    requires raw.Raw? && !Present(raw.dailySpo2) && Present(raw.sleep) && SleepSpo2Columns(raw.sleep.value) != []
    ensures LatestMetrics(ProcessedTable(raw)).spo2 == None
  {
    FallbackSplitsSpo2(raw);
  }
}
