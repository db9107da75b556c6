/** `process_twin_data`: the five endpoints' records turned into one table with a row per day. */
module Normalize {
  import opened Wrappers
  import opened Text
  import opened Records
  import opened Spo2

  /** The metric columns of a row. `spo2Sleep` is the second SpO2 column that the sleep
      fallback merges in; it is NaN in a table without that column. */
  datatype Fields = Fields(spo2: Cell, spo2Sleep: Cell, lowestHeartRate: Option<real>,
                           averageHrv: Option<real>, averageBreath: Option<real>,
                           sleepScore: Option<real>, cardiovascularAge: Option<real>,
                           temperatureDeviation: Option<real>)

  datatype Row = Row(day: int, fields: Fields)

  /** The processed table. `spo2Split` records that the sleep fallback merged a second column
      named `spo2` onto the existing one, which leaves the table with `spo2_x` and `spo2_y`
      and no column `spo2`. */
  datatype Table = Table(rows: seq<Row>, spo2Split: bool)

  const EmptyTable := Table([], false)

  /** A row of the day axis before any merge: `spo2` is None when no SpO2 record arrives, and
      every other column is missing or None. */
  const NullFields := Fields(Plain(Null), NaN, None, None, None, None, None, None)

  function Days(rows: seq<Row>): (ds: seq<int>)
    ensures |ds| == |rows|
  {
    seq(|rows|, i requires 0 <= i < |rows| => rows[i].day)
  }

  predicate NonDecreasing(s: seq<int>) {
    forall i, j :: 0 <= i <= j < |s| ==> s[i] <= s[j]
  }

  predicate StrictlyIncreasing(s: seq<int>) {
    forall i, j :: 0 <= i < j < |s| ==> s[i] < s[j]
  }

  /** A numeric cell as a float column value; null, NaN and objects are None. */
  function AsNumber(c: Cell): (r: Option<real>)
    ensures r.Some? <==> c.Plain? && c.s.Number?
    ensures r.Some? ==> c == Plain(Number(r.value))
  {
    if c.Plain? && c.s.Number? then Some(c.s.x) else None
  }

  // ---------------------------------------------------------------- left joins on `day`

  /** The columns filled by a left merge on `day`. */
  datatype Column = Spo2Column | SleepScoreColumn | CardiovascularAgeColumn | TemperatureDeviationColumn

  /** The fields of a row with column `col` set to `v`. */
  function Put(f: Fields, col: Column, v: Cell): Fields {
    match col
    case Spo2Column => f.(spo2 := v)
    case SleepScoreColumn => f.(sleepScore := AsNumber(v))
    case CardiovascularAgeColumn => f.(cardiovascularAge := AsNumber(v))
    case TemperatureDeviationColumn => f.(temperatureDeviation := AsNumber(v))
  }

  /** The right-hand values whose day is `d`, in order. */
  function MatchesOf(right: seq<(int, Cell)>, d: int): (r: seq<Cell>)
    ensures |r| <= |right|
  {
    if right == [] then []
    else (if right[0].0 == d then [right[0].1] else []) + MatchesOf(right[1..], d)
  }

  /** The rows a left merge emits for one left row: one per match, or one holding NaN. */
  function Expand(row: Row, col: Column, vals: seq<Cell>): (r: seq<Row>)
    ensures |r| == if vals == [] then 1 else |vals|
    ensures forall k :: 0 <= k < |r| ==> r[k].day == row.day
  {
    if vals == [] then [Row(row.day, Put(row.fields, col, NaN))]
    else seq(|vals|, k requires 0 <= k < |vals| => Row(row.day, Put(row.fields, col, vals[k])))
  }

  /** `df.merge(right, on='day', how='left')` filling column `col`: the left rows in order,
      each repeated once per right-hand record of its day. */
  function LeftJoin(rows: seq<Row>, right: seq<(int, Cell)>, col: Column): seq<Row> {
    if rows == [] then []
    else Expand(rows[0], col, MatchesOf(right, rows[0].day)) + LeftJoin(rows[1..], right, col)
  }

  /** The first right-hand value of day `d`, NaN when the right side has none. */
  function ValueOf(right: seq<(int, Cell)>, d: int): Cell {
    var m := MatchesOf(right, d);
    if m == [] then NaN else m[0]
  }

  /** No two right-hand entries share a day. */
  predicate UniqueDays(right: seq<(int, Cell)>) {
    forall i, j :: 0 <= i < j < |right| ==> right[i].0 != right[j].0
  }

  lemma {:induction false} DaysAppend(a: seq<Row>, b: seq<Row>)
    ensures Days(a + b) == Days(a) + Days(b)
  {
  }

  /** The tail of rows ordered by day is ordered, and no day in it precedes the head's. */
  lemma NonDecreasingTail(rows: seq<Row>)
    requires rows != [] && NonDecreasing(Days(rows))
    ensures NonDecreasing(Days(rows[1..]))
    ensures forall d :: d in Days(rows[1..]) ==> rows[0].day <= d
  {
    assert forall i :: 0 <= i < |rows| - 1 ==> Days(rows[1..])[i] == Days(rows)[i + 1];
    assert Days(rows)[0] == rows[0].day;
  }

  /** Rows all of one day, followed by ordered rows of no earlier day, are ordered. */
  lemma ConcatOrdered(e: seq<Row>, rest: seq<Row>, d0: int)
    requires forall k :: 0 <= k < |e| ==> e[k].day == d0
    requires NonDecreasing(Days(rest)) && forall d :: d in Days(rest) ==> d0 <= d
    ensures NonDecreasing(Days(e + rest))
  {
    var out := e + rest;
    forall i, j | 0 <= i <= j < |out| ensures Days(out)[i] <= Days(out)[j] {
      if i >= |e| {
        assert Days(out)[i] == Days(rest)[i - |e|];
        assert Days(out)[j] == Days(rest)[j - |e|];
      } else if j >= |e| {
        assert Days(out)[j] == Days(rest)[j - |e|];
        assert Days(rest)[j - |e|] in Days(rest);
      }
    }
  }

  /** A left merge never loses a row and keeps exactly the set of days. */
  lemma {:induction false} LeftJoinDays(rows: seq<Row>, right: seq<(int, Cell)>, col: Column)
    ensures |LeftJoin(rows, right, col)| >= |rows|
    ensures forall d :: d in Days(LeftJoin(rows, right, col)) <==> d in Days(rows)
  {
    if rows != [] {
      var e := Expand(rows[0], col, MatchesOf(right, rows[0].day));
      LeftJoinDays(rows[1..], right, col);
      DaysAppend(e, LeftJoin(rows[1..], right, col));
      assert Days(rows) == [rows[0].day] + Days(rows[1..]);
      assert Days(e)[0] == rows[0].day;
      assert forall d :: d in Days(e) <==> d == rows[0].day;
    }
  }

  /** A left merge keeps rows that are ordered by day ordered. */
  lemma {:induction false} LeftJoinOrdered(rows: seq<Row>, right: seq<(int, Cell)>, col: Column)
    requires NonDecreasing(Days(rows))
    ensures NonDecreasing(Days(LeftJoin(rows, right, col)))
  {
    if rows != [] {
      NonDecreasingTail(rows);
      LeftJoinOrdered(rows[1..], right, col);
      LeftJoinDays(rows[1..], right, col);
      ConcatOrdered(Expand(rows[0], col, MatchesOf(right, rows[0].day)), LeftJoin(rows[1..], right, col), rows[0].day);
    }
  }

  /** A left merge keeps every day and introduces none, never loses a row, and keeps the
      rows ordered by day. */
  lemma LeftJoinKeepsDays(rows: seq<Row>, right: seq<(int, Cell)>, col: Column)
    ensures |LeftJoin(rows, right, col)| >= |rows|
    ensures forall d :: d in Days(LeftJoin(rows, right, col)) <==> d in Days(rows)
    ensures NonDecreasing(Days(rows)) ==> NonDecreasing(Days(LeftJoin(rows, right, col)))
  {
    LeftJoinDays(rows, right, col);
    if NonDecreasing(Days(rows)) {
      LeftJoinOrdered(rows, right, col);
    }
  }

  /** Every right-hand value of day `d` is among its matches. */
  lemma {:induction false} MatchesOfHas(right: seq<(int, Cell)>, d: int, m: nat)
    requires m < |right| && right[m].0 == d
    ensures right[m].1 in MatchesOf(right, d)
  {
    if m > 0 {
      assert right[1..][m - 1] == right[m];
      MatchesOfHas(right[1..], d, m - 1);
    }
  }

  /** Every match of day `d` is the value of some right-hand entry of that day. */
  lemma {:induction false} MatchesOfOnly(right: seq<(int, Cell)>, d: int, k: nat)
    requires k < |MatchesOf(right, d)|
    ensures exists i :: 0 <= i < |right| && right[i].0 == d && right[i].1 == MatchesOf(right, d)[k]
  {
    var head: seq<Cell> := if right[0].0 == d then [right[0].1] else [];
    assert MatchesOf(right, d) == head + MatchesOf(right[1..], d);
    if k >= |head| {
      MatchesOfOnly(right[1..], d, k - |head|);
      var i :| 0 <= i < |right[1..]| && right[1..][i].0 == d && right[1..][i].1 == MatchesOf(right[1..], d)[k - |head|];
      assert right[i + 1] == right[1..][i];
    }
  }

  /** Whatever repeats a left merge introduces, every left row meets every right-hand value
      of its day in some output row. */
  lemma {:induction false} LeftJoinHas(rows: seq<Row>, right: seq<(int, Cell)>, col: Column, k: nat, m: nat)
    requires k < |rows| && m < |right| && right[m].0 == rows[k].day
    ensures exists o :: 0 <= o < |LeftJoin(rows, right, col)| &&
                        LeftJoin(rows, right, col)[o] == Row(rows[k].day, Put(rows[k].fields, col, right[m].1))
  {
    var e := Expand(rows[0], col, MatchesOf(right, rows[0].day));
    var rest := LeftJoin(rows[1..], right, col);
    assert LeftJoin(rows, right, col) == e + rest;
    if k == 0 {
      var vals := MatchesOf(right, rows[0].day);
      MatchesOfHas(right, rows[0].day, m);
      var q :| 0 <= q < |vals| && vals[q] == right[m].1;
      assert e[q] == Row(rows[k].day, Put(rows[k].fields, col, right[m].1));
      assert (e + rest)[q] == e[q];
    } else {
      assert rows[1..][k - 1] == rows[k];
      LeftJoinHas(rows[1..], right, col, k - 1, m);
      var o :| 0 <= o < |rest| && rest[o] == Row(rows[k].day, Put(rows[k].fields, col, right[m].1));
      assert (e + rest)[|e| + o] == rest[o];
    }
  }

  /** The matches of a day on a right side without repeated days: the one entry of that day,
      or none. */
  lemma {:induction false} MatchesOfUnique(right: seq<(int, Cell)>, d: int)
    requires UniqueDays(right)
    ensures (forall i :: 0 <= i < |right| ==> right[i].0 != d) ==> MatchesOf(right, d) == []
    ensures forall i :: 0 <= i < |right| && right[i].0 == d ==> MatchesOf(right, d) == [right[i].1]
  {
    if right != [] {
      assert UniqueDays(right[1..]) by {
        forall i, j | 0 <= i < j < |right| - 1 ensures right[1..][i].0 != right[1..][j].0 {
          assert right[1..][i] == right[i + 1] && right[1..][j] == right[j + 1];
        }
      }
      MatchesOfUnique(right[1..], d);
      forall i | 0 <= i < |right| && right[i].0 == d ensures MatchesOf(right, d) == [right[i].1] {
        if i == 0 {
          assert forall k :: 0 <= k < |right[1..]| ==> right[1..][k].0 != d by {
            forall k | 0 <= k < |right[1..]| ensures right[1..][k].0 != d {
              assert right[1..][k] == right[k + 1];
            }
          }
        } else {
          assert right[1..][i - 1] == right[i];
        }
      }
      if forall i :: 0 <= i < |right| ==> right[i].0 != d {
        assert forall k :: 0 <= k < |right[1..]| ==> right[1..][k].0 != d by {
          forall k | 0 <= k < |right[1..]| ensures right[1..][k].0 != d {
            assert right[1..][k] == right[k + 1];
          }
        }
      }
    }
  }

  /** The value a day takes from a right side without repeated days: that day's entry, or
      NaN when it has none. */
  lemma ValueOfUnique(right: seq<(int, Cell)>, d: int)
    requires UniqueDays(right)
    ensures (forall i :: 0 <= i < |right| ==> right[i].0 != d) ==> ValueOf(right, d) == NaN
    ensures forall i :: 0 <= i < |right| && right[i].0 == d ==> ValueOf(right, d) == right[i].1
  {
    MatchesOfUnique(right, d);
  }

  /** On a right side without repeated days a day has at most one match. */
  lemma AtMostOneMatch(right: seq<(int, Cell)>, d: int)
    requires UniqueDays(right)
    ensures |MatchesOf(right, d)| <= 1
  {
    MatchesOfUnique(right, d);
    if exists i :: 0 <= i < |right| && right[i].0 == d {
      var i :| 0 <= i < |right| && right[i].0 == d;
      assert MatchesOf(right, d) == [right[i].1];
    }
  }

  /** A left row with at most one match becomes one row holding the match, or NaN. */
  lemma ExpandSingle(row: Row, col: Column, m: seq<Cell>)
    requires |m| <= 1
    ensures Expand(row, col, m) == [Row(row.day, Put(row.fields, col, if m == [] then NaN else m[0]))]
  {
  }

  /** The row-wise update a left merge performs when each left day has at most one match. */
  function JoinedRows(rows: seq<Row>, right: seq<(int, Cell)>, col: Column): seq<Row> {
    seq(|rows|, i requires 0 <= i < |rows| => Row(rows[i].day, Put(rows[i].fields, col, ValueOf(right, rows[i].day))))
  }

  /** With no repeated day on the right, a left merge is a row-wise update: row `i` keeps its
      day and gets its day's value, or NaN. */
  lemma {:induction false} LeftJoinUnique(rows: seq<Row>, right: seq<(int, Cell)>, col: Column)
    requires UniqueDays(right)
    ensures LeftJoin(rows, right, col) == JoinedRows(rows, right, col)
  {
    if rows != [] {
      var m := MatchesOf(right, rows[0].day);
      assert LeftJoin(rows, right, col) == Expand(rows[0], col, m) + LeftJoin(rows[1..], right, col);
      LeftJoinUnique(rows[1..], right, col);
      AtMostOneMatch(right, rows[0].day);
      ExpandSingle(rows[0], col, m);
      JoinedRowsCons(rows, right, col);
    }
  }

  /** The row-wise update of a non-empty table: its first row's update, then the rest's. */
  lemma JoinedRowsCons(rows: seq<Row>, right: seq<(int, Cell)>, col: Column)
    requires rows != []
    ensures JoinedRows(rows, right, col) ==
      [Row(rows[0].day, Put(rows[0].fields, col, ValueOf(right, rows[0].day)))] + JoinedRows(rows[1..], right, col)
  {
    var out := JoinedRows(rows, right, col);
    assert JoinedRows(rows[1..], right, col) == out[1..];
  }

  // ---------------------------------------------------------------- sleep aggregation

  /** `sleep_df.groupby('day')[key].first()` for a numeric column: the first number among
      the records of day `d`, skipping records where it is null or missing. */
  function FirstNumber(recs: seq<Record>, d: int, key: string): (r: Option<real>)
    ensures r.None? <==> forall i :: 0 <= i < |recs| && recs[i].day == d ==> AsNumber(FieldOf(recs[i], key)).None?
  {
    if recs == [] then None
    else if recs[0].day == d && AsNumber(FieldOf(recs[0], key)).Some? then AsNumber(FieldOf(recs[0], key))
    else
      assert forall i :: 1 <= i < |recs| ==> recs[i] == recs[1..][i - 1];
      FirstNumber(recs[1..], d, key)
  }

  /** Record `rec` is of day `d` and has a number in field `key`. */
  predicate HasNumber(rec: Record, d: int, key: string) {
    rec.day == d && AsNumber(FieldOf(rec, key)).Some?
  }

  /** The aggregated value of a day is the value of the first record of that day that has a
      number there: every earlier record of the day has none. */
  lemma {:induction false} FirstNumberIsFirst(recs: seq<Record>, d: int, key: string)
    requires FirstNumber(recs, d, key).Some?
    ensures exists i :: 0 <= i < |recs| && HasNumber(recs[i], d, key) &&
                        AsNumber(FieldOf(recs[i], key)) == FirstNumber(recs, d, key) &&
                        forall j :: 0 <= j < i ==> !HasNumber(recs[j], d, key)
  {
    if HasNumber(recs[0], d, key) {
      assert HasNumber(recs[0], d, key) && AsNumber(FieldOf(recs[0], key)) == FirstNumber(recs, d, key);
    } else {
      var tail := recs[1..];
      assert FirstNumber(recs, d, key) == FirstNumber(tail, d, key);
      FirstNumberIsFirst(tail, d, key);
      var i :| 0 <= i < |tail| && HasNumber(tail[i], d, key) &&
               AsNumber(FieldOf(tail[i], key)) == FirstNumber(tail, d, key) &&
               forall j :: 0 <= j < i ==> !HasNumber(tail[j], d, key);
      assert recs[i + 1] == tail[i];
      forall j | 0 <= j < i + 1 ensures !HasNumber(recs[j], d, key) {
        if j > 0 {
          assert recs[j] == tail[j - 1];
        }
      }
    }
  }

  /** The largest present value, as `Series.max()` skipping NaN; None when nothing is present. */
  function MaxPresent(vals: seq<Option<real>>): (m: Option<real>)
    ensures m.None? <==> forall i :: 0 <= i < |vals| ==> vals[i].None?
    ensures m.Some? ==> forall i :: 0 <= i < |vals| && vals[i].Some? ==> vals[i].value <= m.value
    ensures m.Some? ==> exists i :: 0 <= i < |vals| && vals[i] == m
  {
    if vals == [] then None
    else
      var rest := MaxPresent(vals[1..]);
      assert forall i :: 1 <= i < |vals| ==> vals[i] == vals[1..][i - 1];
      if vals[0].None? then rest
      else if rest.None? || rest.value <= vals[0].value then vals[0]
      else rest
  }

  /** The per-day `average_breath` of each sleep record's day (the aggregated column, one
      entry per record rather than per day, which has the same maximum). */
  function DayBreaths(recs: seq<Record>): (b: seq<Option<real>>)
    ensures |b| == |recs|
  {
    seq(|recs|, i requires 0 <= i < |recs| => FirstNumber(recs, recs[i].day, "average_breath"))
  }

  /** The unit heuristic: breath values are taken to be per second, and are multiplied by 60,
      when the largest aggregated value is below 1. */
  predicate BreathScaled(recs: seq<Record>) {
    var m := MaxPresent(DayBreaths(recs));
    m.Some? && m.value < 1.0
  }

  /** The heuristic scales exactly when some day has a breath value and every day's value is
      below 1; a single day at 1 or above, or no value at all, leaves every day unscaled. */
  lemma BreathScaledIff(recs: seq<Record>)
    ensures BreathScaled(recs) <==>
              (exists i :: 0 <= i < |recs| && DayBreaths(recs)[i].Some?) &&
              (forall i :: 0 <= i < |recs| && DayBreaths(recs)[i].Some? ==> DayBreaths(recs)[i].value < 1.0)
  {
    var b := DayBreaths(recs);
    var m := MaxPresent(b);
    if m.Some? {
      var k :| 0 <= k < |b| && b[k] == m;
    }
  }

  function Scale(v: Option<real>, scaled: bool): (r: Option<real>)
    ensures v.None? ==> r.None?
    ensures v.Some? ==> r == Some(if scaled then v.value * 60.0 else v.value)
  {
    if scaled && v.Some? then Some(v.value * 60.0) else v
  }

  /** The merge of the per-day sleep aggregate: the sleep aggregate has one row per day, so
      it updates each row in place; days without sleep records get None. */
  function SleepJoin(rows: seq<Row>, recs: seq<Record>): seq<Row> {
    var scaled := BreathScaled(recs);
    seq(|rows|, i requires 0 <= i < |rows| =>
      Row(rows[i].day, rows[i].fields.(
        lowestHeartRate := FirstNumber(recs, rows[i].day, "lowest_heart_rate"),
        averageHrv := FirstNumber(recs, rows[i].day, "average_hrv"),
        averageBreath := Scale(FirstNumber(recs, rows[i].day, "average_breath"), scaled))))
  }

  // ---------------------------------------------------------------- SpO2 from sleep records

  /** The SpO2-marked names among `cols`, in order. */
  function MarkedOf(cols: seq<string>): (r: seq<string>)
    ensures forall c :: c in r <==> c in cols && Spo2Marked(c)
  {
    if cols == [] then []
    else (if Spo2Marked(cols[0]) then [cols[0]] else []) + MarkedOf(cols[1..])
  }

  /** `spo2_columns` of the sleep records. */
  function SleepSpo2Columns(recs: seq<Record>): seq<string> {
    MarkedOf(Columns(recs))
  }

  /** `x.get('average') if isinstance(x, dict) else x`. */
  function SleepSpo2Value(c: Cell): (r: Cell)
    ensures !r.Object?
  {
    if c.Object? then Plain(if "average" in c.members then c.members["average"] else Null) else c
  }

  /** `groupby('day')['spo2_from_sleep'].first()`: the first non-null converted value of
      column `col` among the records of day `d`, NaN when there is none. */
  function FirstSleepSpo2(recs: seq<Record>, d: int, col: string): (r: Cell)
    ensures IsNull(r) <==> forall i :: 0 <= i < |recs| && recs[i].day == d ==> IsNull(SleepSpo2Value(FieldOf(recs[i], col)))
    ensures !IsNull(r) ==> exists i :: 0 <= i < |recs| && recs[i].day == d && SleepSpo2Value(FieldOf(recs[i], col)) == r
  {
    if recs == [] then NaN
    else if recs[0].day == d && !IsNull(SleepSpo2Value(FieldOf(recs[0], col))) then SleepSpo2Value(FieldOf(recs[0], col))
    else
      var r := FirstSleepSpo2(recs[1..], d, col);
      assert forall i :: 1 <= i < |recs| ==> recs[i] == recs[1..][i - 1];
      r
  }

  /** Record `rec` is of day `d` and has a non-null converted value in `col`. */
  predicate HasSleepSpo2(rec: Record, d: int, col: string) {
    rec.day == d && !IsNull(SleepSpo2Value(FieldOf(rec, col)))
  }

  /** A day's fallback value is the converted value of the first record of that day whose
      converted value is not null: every earlier record of the day has none. */
  lemma {:induction false} FirstSleepSpo2IsFirst(recs: seq<Record>, d: int, col: string)
    requires !IsNull(FirstSleepSpo2(recs, d, col))
    ensures exists i :: 0 <= i < |recs| && HasSleepSpo2(recs[i], d, col) &&
                        SleepSpo2Value(FieldOf(recs[i], col)) == FirstSleepSpo2(recs, d, col) &&
                        forall j :: 0 <= j < i ==> !HasSleepSpo2(recs[j], d, col)
  {
    if HasSleepSpo2(recs[0], d, col) {
      assert HasSleepSpo2(recs[0], d, col) && SleepSpo2Value(FieldOf(recs[0], col)) == FirstSleepSpo2(recs, d, col);
    } else {
      var tail := recs[1..];
      assert FirstSleepSpo2(recs, d, col) == FirstSleepSpo2(tail, d, col);
      FirstSleepSpo2IsFirst(tail, d, col);
      var i :| 0 <= i < |tail| && HasSleepSpo2(tail[i], d, col) &&
               SleepSpo2Value(FieldOf(tail[i], col)) == FirstSleepSpo2(tail, d, col) &&
               forall j :: 0 <= j < i ==> !HasSleepSpo2(tail[j], d, col);
      assert recs[i + 1] == tail[i];
      forall j | 0 <= j < i + 1 ensures !HasSleepSpo2(recs[j], d, col) {
        if j > 0 {
          assert recs[j] == tail[j - 1];
        }
      }
    }
  }

  /** The fallback condition: the sleep records have an SpO2-marked column and the `spo2`
      column is null on every day. */
  predicate FallbackApplies(rows: seq<Row>, recs: seq<Record>) {
    SleepSpo2Columns(recs) != [] && forall i :: 0 <= i < |rows| ==> IsNull(rows[i].fields.spo2)
  }

  /** The fallback merge of the first SpO2-marked sleep column, grouped by day. */
  function FillSpo2Sleep(rows: seq<Row>, recs: seq<Record>): seq<Row>
    requires SleepSpo2Columns(recs) != []
  {
    var col := SleepSpo2Columns(recs)[0];
    seq(|rows|, i requires 0 <= i < |rows| => Row(rows[i].day, rows[i].fields.(spo2Sleep := FirstSleepSpo2(recs, rows[i].day, col))))
  }

  // ---------------------------------------------------------------- the whole table

  /** `spo2_df[['day', 'spo2']]`: each SpO2 record's day and `extract_spo2` of its row. */
  function Spo2Pairs(recs: seq<Record>): (p: seq<(int, Cell)>)
    ensures |p| == |recs|
  {
    seq(|recs|, i requires 0 <= i < |recs| => (recs[i].day, ExtractSpo2(FrameRow(recs, recs[i]))))
  }

  /** `df[['day', key]]` of a daily source. */
  function FieldPairs(recs: seq<Record>, key: string): (p: seq<(int, Cell)>)
    ensures |p| == |recs|
  {
    seq(|recs|, i requires 0 <= i < |recs| => (recs[i].day, FieldOf(recs[i], key)))
  }

  /** The table after the SpO2 merge: the day axis with `spo2` filled in. */
  function Spo2Stage(raw: RawData, axis: seq<int>): seq<Row>
    requires raw.Raw?
  {
    var base := seq(|axis|, i requires 0 <= i < |axis| => Row(axis[i], NullFields));
    if Present(raw.dailySpo2) then LeftJoin(base, Spo2Pairs(raw.dailySpo2.value), Spo2Column) else base
  }

  /** Whether the sleep fallback runs on this data and day axis. */
  predicate Split(raw: RawData, axis: seq<int>)
    requires raw.Raw?
  {
    Present(raw.sleep) && FallbackApplies(Spo2Stage(raw, axis), raw.sleep.value)
  }

  /** The fallback merge, when it runs, and the merge of the sleep aggregate. */
  function SleepStages(raw: RawData, rows: seq<Row>, split: bool): seq<Row>
    requires raw.Raw?
    requires split ==> raw.sleep.Some? && SleepSpo2Columns(raw.sleep.value) != []
  {
    var t2 := if split then FillSpo2Sleep(rows, raw.sleep.value) else rows;
    if Present(raw.sleep) then SleepJoin(t2, raw.sleep.value) else t2
  }

  /** The left merge of field `key` of a daily source into column `col`; a source that is
      empty or failed merges nothing. */
  function JoinSource(rows: seq<Row>, o: Option<seq<Record>>, key: string, col: Column): seq<Row> {
    if Present(o) then LeftJoin(rows, FieldPairs(o.value, key), col) else rows
  }

  /** The left merges of the daily sleep score, the cardiovascular age and the readiness
      temperature deviation, in that order. */
  function DailyJoins(raw: RawData, rows: seq<Row>): seq<Row>
    requires raw.Raw?
  {
    var t4 := JoinSource(rows, raw.dailySleep, "score", SleepScoreColumn);
    var t5 := JoinSource(t4, raw.cardiovascularAge, "vascular_age", CardiovascularAgeColumn);
    JoinSource(t5, raw.dailyReadiness, "temperature_deviation", TemperatureDeviationColumn)
  }

  /** The merges of `process_twin_data` in their order, on the given day axis. */
  function Build(raw: RawData, axis: seq<int>): Table
    requires raw.Raw?
  {
    var split := Split(raw, axis);
    Table(DailyJoins(raw, SleepStages(raw, Spo2Stage(raw, axis), split)), split)
  }

  // ---------------------------------------------------------------- the day axis

  /** The days of a source's records. */
  function DaysOf(recs: seq<Record>): (ds: set<int>)
    ensures forall d :: d in ds <==> exists i :: 0 <= i < |recs| && recs[i].day == d
  {
    if recs == [] then {}
    else
      var front := DaysOf(recs[..|recs| - 1]);
      assert forall i :: 0 <= i < |recs| - 1 ==> recs[i] == recs[..|recs| - 1][i];
      front + {recs[|recs| - 1].day}
  }

  function SourceDays(o: Option<seq<Record>>): set<int> {
    if o.Some? then DaysOf(o.value) else {}
  }

  /** The days of the first sources of a list, as collected source by source. */
  function DaysIn(sources: seq<Option<seq<Record>>>): set<int> {
    if sources == [] then {} else DaysIn(sources[..|sources| - 1]) + SourceDays(sources[|sources| - 1])
  }

  /** The five sources in the order `process_twin_data` scans them. */
  function Sources(raw: RawData): seq<Option<seq<Record>>>
    requires raw.Raw?
  {
    [raw.dailySpo2, raw.sleep, raw.dailySleep, raw.cardiovascularAge, raw.dailyReadiness]
  }

  /** `all_dates`: every day of every record of every source. */
  function UnionDays(raw: RawData): (u: set<int>)
    requires raw.Raw?
    ensures forall e :: e in Endpoints ==> SourceDays(raw.Source(e)) <= u
  {
    SourceDays(raw.dailySpo2) + SourceDays(raw.sleep) + SourceDays(raw.dailySleep) +
    SourceDays(raw.cardiovascularAge) + SourceDays(raw.dailyReadiness)
  }

  /** Collecting the days source by source gives the union of all sources' days. */
  lemma CollectedDays(raw: RawData)
    requires raw.Raw?
    ensures DaysIn(Sources(raw)) == UnionDays(raw)
  {
    var s := Sources(raw);
    assert s[..4][..3] == s[..3] && s[..3][..2] == s[..2] && s[..2][..1] == s[..1] && s[..1][..0] == [];
    assert DaysIn(s[..1]) == SourceDays(s[0]);
    assert DaysIn(s[..2]) == DaysIn(s[..1]) + SourceDays(s[1]);
    assert DaysIn(s[..3]) == DaysIn(s[..2]) + SourceDays(s[2]);
    assert DaysIn(s[..4]) == DaysIn(s[..3]) + SourceDays(s[3]);
    assert DaysIn(s) == DaysIn(s[..4]) + SourceDays(s[4]);
  }

  predicate IsMinOf(m: int, s: set<int>) {
    m in s && forall y :: y in s ==> m <= y
  }

  lemma {:induction false} MinExists(days: set<int>)
    requires days != {}
    ensures exists m :: IsMinOf(m, days)
    decreases |days|
  {
    assert (forall y :: y !in days) ==> days == {};
    var x :| x in days;
    if days != {x} {
      MinExists(days - {x});
      var m :| IsMinOf(m, days - {x});
      var least := if x < m then x else m;
      forall y | y in days ensures least <= y {
        if y != x {
          assert y in days - {x};
        }
      }
      assert IsMinOf(least, days);
    } else {
      assert IsMinOf(x, days);
    }
  }

  /** `sorted(list(all_dates))`: the days in strictly increasing order, each once. */
  function SortedDays(s: set<int>): (axis: seq<int>)
    ensures StrictlyIncreasing(axis)
    ensures forall d :: d in axis <==> d in s
    ensures |axis| == |s|
    decreases |s|
  {
    if s == {} then []
    else
      MinExists(s);
      var m :| IsMinOf(m, s);
      var rest := SortedDays(s - {m});
      assert forall d :: d in rest ==> m < d;
      [m] + rest
  }

  /** The result of `process_twin_data`: an empty table when the twin has no token or no
      record has a day, otherwise the merges on the sorted day axis. */
  function ProcessedTable(raw: RawData): Table {
    if raw.NoData? || UnionDays(raw) == {} then EmptyTable else Build(raw, SortedDays(UnionDays(raw)))
  }

  /** The day collection of `process_twin_data`: every day of every record of every source
      that is present, source by source. */
  method CollectDays(sources: seq<Option<seq<Record>>>) returns (allDates: set<int>)
    ensures allDates == DaysIn(sources)
  {
    allDates := {};
    for k := 0 to |sources|
      invariant allDates == DaysIn(sources[..k])
    {
      assert sources[..k + 1][..k] == sources[..k];
      assert DaysIn(sources[..k + 1]) == DaysIn(sources[..k]) + SourceDays(sources[k]);
      if Present(sources[k]) {
        var recs := sources[k].value;
        for j := 0 to |recs|
          invariant allDates == DaysIn(sources[..k]) + DaysOf(recs[..j])
        {
          assert recs[..j + 1][..j] == recs[..j];
          assert DaysOf(recs[..j + 1]) == DaysOf(recs[..j]) + {recs[j].day};
          allDates := allDates + {recs[j].day};
        }
        assert recs[..|recs|] == recs;
      } else {
        assert SourceDays(sources[k]) == {};
      }
    }
    assert sources[..|sources|] == sources;
  }

  /** `process_twin_data`: collects the days source by source, sorts them and merges the
      endpoints' columns onto them. The closing `sort_values('day')` leaves the rows as they
      are: they are already ordered by day (`ProcessedDays`). */
  method ProcessTwinData(raw: RawData) returns (table: Table)
    ensures table == ProcessedTable(raw)
  {
    if raw.NoData? {
      return EmptyTable;
    }
    var allDates := CollectDays(Sources(raw));
    CollectedDays(raw);
    if allDates == {} {
      return EmptyTable;
    }
    var axis := SortedDays(allDates);
    table := Build(raw, axis);
  }

  // ---------------------------------------------------------------- properties of the table

  /** A row-wise update keeps the day sequence. */
  lemma RowwiseKeepsDays(rows: seq<Row>, recs: seq<Record>)
    ensures Days(SleepJoin(rows, recs)) == Days(rows)
    ensures SleepSpo2Columns(recs) != [] ==> Days(FillSpo2Sleep(rows, recs)) == Days(rows)
  {
  }

  /** The day axis of the SpO2 stage on a strictly increasing axis: its days are the axis
      days, in order. */
  lemma {:induction false} Spo2StageDays(raw: RawData, axis: seq<int>)
    requires raw.Raw?
    ensures |Spo2Stage(raw, axis)| >= |axis|
    ensures forall d :: d in Days(Spo2Stage(raw, axis)) <==> d in axis
    ensures NonDecreasing(axis) ==> NonDecreasing(Days(Spo2Stage(raw, axis)))
  {
    var base := seq(|axis|, i requires 0 <= i < |axis| => Row(axis[i], NullFields));
    assert Days(base) == axis;
    if Present(raw.dailySpo2) {
      LeftJoinKeepsDays(base, Spo2Pairs(raw.dailySpo2.value), Spo2Column);
    }
  }

  /** The sleep stages update each row in place. */
  lemma SleepStagesKeepDays(raw: RawData, rows: seq<Row>, split: bool)
    requires raw.Raw?
    requires split ==> raw.sleep.Some? && SleepSpo2Columns(raw.sleep.value) != []
    ensures Days(SleepStages(raw, rows, split)) == Days(rows)
  {
    var t2 := if split then FillSpo2Sleep(rows, raw.sleep.value) else rows;
    if split { RowwiseKeepsDays(rows, raw.sleep.value); }
    if Present(raw.sleep) { RowwiseKeepsDays(t2, raw.sleep.value); }
  }

  /** One daily merge keeps the days, loses no row and keeps the rows ordered by day. */
  lemma JoinSourceKeepsDays(rows: seq<Row>, o: Option<seq<Record>>, key: string, col: Column)
    ensures |JoinSource(rows, o, key, col)| >= |rows|
    ensures forall d :: d in Days(JoinSource(rows, o, key, col)) <==> d in Days(rows)
    ensures NonDecreasing(Days(rows)) ==> NonDecreasing(Days(JoinSource(rows, o, key, col)))
  {
    if Present(o) {
      LeftJoinKeepsDays(rows, FieldPairs(o.value, key), col);
    }
  }

  /** The daily merges keep the days, lose no row and keep the rows ordered by day. */
  lemma DailyJoinsKeepDays(raw: RawData, rows: seq<Row>)
    requires raw.Raw?
    ensures |DailyJoins(raw, rows)| >= |rows|
    ensures forall d :: d in Days(DailyJoins(raw, rows)) <==> d in Days(rows)
    ensures NonDecreasing(Days(rows)) ==> NonDecreasing(Days(DailyJoins(raw, rows)))
  {
    var t4 := JoinSource(rows, raw.dailySleep, "score", SleepScoreColumn);
    var t5 := JoinSource(t4, raw.cardiovascularAge, "vascular_age", CardiovascularAgeColumn);
    JoinSourceKeepsDays(rows, raw.dailySleep, "score", SleepScoreColumn);
    JoinSourceKeepsDays(t4, raw.cardiovascularAge, "vascular_age", CardiovascularAgeColumn);
    JoinSourceKeepsDays(t5, raw.dailyReadiness, "temperature_deviation", TemperatureDeviationColumn);
  }

  /** On any axis, the merges keep the axis days and no other, lose no row, and keep an
      ordered axis ordered. */
  lemma BuildDays(raw: RawData, axis: seq<int>)
    requires raw.Raw?
    ensures |Build(raw, axis).rows| >= |axis|
    ensures forall d :: d in Days(Build(raw, axis).rows) <==> d in axis
    ensures NonDecreasing(axis) ==> NonDecreasing(Days(Build(raw, axis).rows))
  {
    var split := Split(raw, axis);
    var t1 := Spo2Stage(raw, axis);
    Spo2StageDays(raw, axis);
    SleepStagesKeepDays(raw, t1, split);
    DailyJoinsKeepDays(raw, SleepStages(raw, t1, split));
  }

  /** The table `process_twin_data` returns is empty exactly when the twin has no token or
      no record has a day; its days are exactly the days of the records, and its rows are
      ordered by day, so the final `sort_values('day')` has nothing to reorder. */
  lemma ProcessedDays(raw: RawData)
    ensures ProcessedTable(raw).rows == [] <==> raw.NoData? || UnionDays(raw) == {}
    ensures forall d :: d in Days(ProcessedTable(raw).rows) <==> raw.Raw? && d in UnionDays(raw)
    ensures NonDecreasing(Days(ProcessedTable(raw).rows))
  {
    if raw.Raw? && UnionDays(raw) != {} {
      var axis := SortedDays(UnionDays(raw));
      BuildDays(raw, axis);
      assert |axis| > 0;
    }
  }

  /** No two records of a source share a day. */
  predicate OnePerDay(recs: seq<Record>) {
    forall i, j :: 0 <= i < j < |recs| ==> recs[i].day != recs[j].day
  }

  /** The four sources merged without grouping hold at most one record per day. */
  predicate DailySourcesOnePerDay(raw: RawData)
    requires raw.Raw?
  {
    (raw.dailySpo2.Some? ==> OnePerDay(raw.dailySpo2.value)) &&
    (raw.dailySleep.Some? ==> OnePerDay(raw.dailySleep.value)) &&
    (raw.cardiovascularAge.Some? ==> OnePerDay(raw.cardiovascularAge.value)) &&
    (raw.dailyReadiness.Some? ==> OnePerDay(raw.dailyReadiness.value))
  }

  /** The value a daily source gives day `d`: that of its record of day `d`, or NaN. */
  function DailyValue(o: Option<seq<Record>>, d: int, key: string): Cell
    requires o.Some?
  {
    ValueOf(FieldPairs(o.value, key), d)
  }

  /** The value a daily source gives column `key` on day `d`: None when the source is
      empty or failed. */
  function DailyNumber(o: Option<seq<Record>>, d: int, key: string): Option<real> {
    if Present(o) then AsNumber(DailyValue(o, d, key)) else None
  }

  /** The SpO2 of day `d`: that of its SpO2 record, NaN when it has none, and None when no
      SpO2 record arrived at all. */
  function Spo2OfDay(raw: RawData, d: int): Cell
    requires raw.Raw?
  {
    if Present(raw.dailySpo2) then ValueOf(Spo2Pairs(raw.dailySpo2.value), d) else Plain(Null)
  }

  /** The sleep records that are merged, none when the sleep source is empty or failed. */
  function SleepRecords(raw: RawData): seq<Record>
    requires raw.Raw?
  {
    if Present(raw.sleep) then raw.sleep.value else []
  }

  /** The metrics of day `d`, column by column, when each daily source has at most one
      record per day; `split` says whether the sleep fallback ran. */
  function DayFields(raw: RawData, d: int, split: bool): Fields
    requires raw.Raw?
    requires split ==> raw.sleep.Some? && SleepSpo2Columns(raw.sleep.value) != []
  {
    var sleep := SleepRecords(raw);
    Fields(
      spo2 := Spo2OfDay(raw, d),
      spo2Sleep := if split then FirstSleepSpo2(raw.sleep.value, d, SleepSpo2Columns(raw.sleep.value)[0]) else NaN,
      lowestHeartRate := FirstNumber(sleep, d, "lowest_heart_rate"),
      averageHrv := FirstNumber(sleep, d, "average_hrv"),
      averageBreath := Scale(FirstNumber(sleep, d, "average_breath"), BreathScaled(sleep)),
      sleepScore := DailyNumber(raw.dailySleep, d, "score"),
      cardiovascularAge := DailyNumber(raw.cardiovascularAge, d, "vascular_age"),
      temperatureDeviation := DailyNumber(raw.dailyReadiness, d, "temperature_deviation"))
  }

  /** A source with one record per day gives a right side without repeated days. */
  lemma FieldPairsOnePerDay(recs: seq<Record>, key: string)
    requires OnePerDay(recs)
    ensures UniqueDays(FieldPairs(recs, key))
  {
  }

  /** An SpO2 source with one record per day gives a right side without repeated days. */
  lemma Spo2PairsOnePerDay(recs: seq<Record>)
    requires OnePerDay(recs)
    ensures UniqueDays(Spo2Pairs(recs))
  {
  }

  /** The day-by-day table on an axis of days. */
  function AxisRows(axis: seq<int>, raw: RawData, split: bool): seq<Row>
    requires raw.Raw?
    requires split ==> raw.sleep.Some? && SleepSpo2Columns(raw.sleep.value) != []
  {
    seq(|axis|, i requires 0 <= i < |axis| => Row(axis[i], DayFields(raw, axis[i], split)))
  }

  /** One left merge with no repeated day on the right, row by row. */
  lemma JoinStep(rows: seq<Row>, right: seq<(int, Cell)>, col: Column)
    requires UniqueDays(right)
    ensures |LeftJoin(rows, right, col)| == |rows|
    ensures forall i :: 0 <= i < |rows| ==>
              LeftJoin(rows, right, col)[i] == Row(rows[i].day, Put(rows[i].fields, col, ValueOf(right, rows[i].day)))
  {
    LeftJoinUnique(rows, right, col);
  }

  /** With at most one SpO2 record per day, the SpO2 merge fills each day of the axis with
      the SpO2 of that day's record. */
  lemma Spo2StageRows(raw: RawData, axis: seq<int>)
    requires raw.Raw? && (raw.dailySpo2.Some? ==> OnePerDay(raw.dailySpo2.value))
    ensures |Spo2Stage(raw, axis)| == |axis|
    ensures forall i :: 0 <= i < |axis| ==> Spo2Stage(raw, axis)[i] == Row(axis[i], NullFields.(spo2 := Spo2OfDay(raw, axis[i])))
  {
    var base := seq(|axis|, i requires 0 <= i < |axis| => Row(axis[i], NullFields));
    if Present(raw.dailySpo2) {
      Spo2PairsOnePerDay(raw.dailySpo2.value);
      JoinStep(base, Spo2Pairs(raw.dailySpo2.value), Spo2Column);
    }
  }

  /** The sleep stages set the fallback column (when it runs) and the three sleep metrics of
      each row to those of its day. */
  lemma SleepStagesRows(raw: RawData, rows: seq<Row>, split: bool)
    requires raw.Raw?
    requires split ==> raw.sleep.Some? && SleepSpo2Columns(raw.sleep.value) != []
    requires forall i :: 0 <= i < |rows| ==>
               rows[i].fields.lowestHeartRate.None? && rows[i].fields.averageHrv.None? &&
               rows[i].fields.averageBreath.None? && rows[i].fields.spo2Sleep == NaN
    ensures |SleepStages(raw, rows, split)| == |rows|
    ensures forall i :: 0 <= i < |rows| ==>
              var f := DayFields(raw, rows[i].day, split);
              SleepStages(raw, rows, split)[i] == Row(rows[i].day, rows[i].fields.(
                spo2Sleep := f.spo2Sleep, lowestHeartRate := f.lowestHeartRate,
                averageHrv := f.averageHrv, averageBreath := f.averageBreath))
  {
  }

  /** One daily merge of a source with at most one record per day updates each row in place
      with its day's value. */
  lemma JoinSourceRows(rows: seq<Row>, o: Option<seq<Record>>, key: string, col: Column)
    requires o.Some? ==> OnePerDay(o.value)
    ensures |JoinSource(rows, o, key, col)| == |rows|
    ensures forall i :: 0 <= i < |rows| ==>
              JoinSource(rows, o, key, col)[i] ==
              Row(rows[i].day, if Present(o) then Put(rows[i].fields, col, DailyValue(o, rows[i].day, key)) else rows[i].fields)
  {
    if Present(o) {
      FieldPairsOnePerDay(o.value, key);
      JoinStep(rows, FieldPairs(o.value, key), col);
    }
  }

  /** With at most one record per day in each daily source, the daily merges update each
      row in place with the values of its day. */
  lemma DailyJoinsRows(raw: RawData, rows: seq<Row>)
    requires raw.Raw?
    requires raw.dailySleep.Some? ==> OnePerDay(raw.dailySleep.value)
    requires raw.cardiovascularAge.Some? ==> OnePerDay(raw.cardiovascularAge.value)
    requires raw.dailyReadiness.Some? ==> OnePerDay(raw.dailyReadiness.value)
    requires forall i :: 0 <= i < |rows| ==>
               rows[i].fields.sleepScore.None? && rows[i].fields.cardiovascularAge.None? &&
               rows[i].fields.temperatureDeviation.None?
    ensures |DailyJoins(raw, rows)| == |rows|
    ensures forall i :: 0 <= i < |rows| ==>
              DailyJoins(raw, rows)[i] == Row(rows[i].day, rows[i].fields.(
                sleepScore := DailyNumber(raw.dailySleep, rows[i].day, "score"),
                cardiovascularAge := DailyNumber(raw.cardiovascularAge, rows[i].day, "vascular_age"),
                temperatureDeviation := DailyNumber(raw.dailyReadiness, rows[i].day, "temperature_deviation")))
  {
    var t4 := JoinSource(rows, raw.dailySleep, "score", SleepScoreColumn);
    var t5 := JoinSource(t4, raw.cardiovascularAge, "vascular_age", CardiovascularAgeColumn);
    var t6 := JoinSource(t5, raw.dailyReadiness, "temperature_deviation", TemperatureDeviationColumn);
    JoinSourceRows(rows, raw.dailySleep, "score", SleepScoreColumn);
    JoinSourceRows(t4, raw.cardiovascularAge, "vascular_age", CardiovascularAgeColumn);
    JoinSourceRows(t5, raw.dailyReadiness, "temperature_deviation", TemperatureDeviationColumn);
    forall i | 0 <= i < |rows|
      ensures t6[i] == Row(rows[i].day, rows[i].fields.(
                sleepScore := DailyNumber(raw.dailySleep, rows[i].day, "score"),
                cardiovascularAge := DailyNumber(raw.cardiovascularAge, rows[i].day, "vascular_age"),
                temperatureDeviation := DailyNumber(raw.dailyReadiness, rows[i].day, "temperature_deviation")))
    {
      var f := rows[i].fields;
      var d := rows[i].day;
      assert t4[i] == Row(d, f.(sleepScore := DailyNumber(raw.dailySleep, d, "score")));
      assert t5[i] == Row(d, t4[i].fields.(cardiovascularAge := DailyNumber(raw.cardiovascularAge, d, "vascular_age")));
    }
  }

  /** On an axis, with at most one record per day in each daily source, the merges give the
      day-by-day table. */
  lemma {:induction false} BuildRows(raw: RawData, axis: seq<int>)
    requires raw.Raw? && DailySourcesOnePerDay(raw)
    ensures Split(raw, axis) ==> raw.sleep.Some? && SleepSpo2Columns(raw.sleep.value) != []
    ensures Build(raw, axis).rows == AxisRows(axis, raw, Split(raw, axis))
  {
    var split := Split(raw, axis);
    var t1 := Spo2Stage(raw, axis);
    Spo2StageRows(raw, axis);
    SleepStagesRows(raw, t1, split);
    var t3 := SleepStages(raw, t1, split);
    DailyJoinsRows(raw, t3);
    var rows := AxisRows(axis, raw, split);
    forall i | 0 <= i < |axis| ensures DailyJoins(raw, t3)[i] == rows[i] {
      var f := DayFields(raw, axis[i], split);
      assert t1[i] == Row(axis[i], NullFields.(spo2 := f.spo2));
      assert t3[i] == Row(axis[i], NullFields.(spo2 := f.spo2, spo2Sleep := f.spo2Sleep, lowestHeartRate := f.lowestHeartRate,
                                               averageHrv := f.averageHrv, averageBreath := f.averageBreath));
    }
  }

  /** When each daily source holds at most one record per day, the table has exactly one row
      per day of the records, in increasing order of day, and each row holds that day's
      metrics as `DayFields` gives them. */
  lemma ProcessedRows(raw: RawData)
    requires raw.Raw? && DailySourcesOnePerDay(raw)
    ensures ProcessedTable(raw).spo2Split ==> raw.sleep.Some? && SleepSpo2Columns(raw.sleep.value) != []
    ensures ProcessedTable(raw).rows == AxisRows(SortedDays(UnionDays(raw)), raw, ProcessedTable(raw).spo2Split)
  {
    if UnionDays(raw) != {} {
      BuildRows(raw, SortedDays(UnionDays(raw)));
    }
  }

  /** The SpO2 of a day with one SpO2 record is `extract_spo2` of that record's row; a day
      without one gets NaN. */
  lemma Spo2OfDayIs(raw: RawData, d: int)
    requires raw.Raw? && Present(raw.dailySpo2) && OnePerDay(raw.dailySpo2.value)
    ensures forall i :: 0 <= i < |raw.dailySpo2.value| && raw.dailySpo2.value[i].day == d ==>
              Spo2OfDay(raw, d) == ExtractSpo2(FrameRow(raw.dailySpo2.value, raw.dailySpo2.value[i]))
    ensures d !in DaysOf(raw.dailySpo2.value) ==> Spo2OfDay(raw, d) == NaN
  {
    var recs := raw.dailySpo2.value;
    var pairs := Spo2Pairs(recs);
    Spo2PairsOnePerDay(recs);
    ValueOfUnique(pairs, d);
    forall i | 0 <= i < |recs| && recs[i].day == d
      ensures Spo2OfDay(raw, d) == ExtractSpo2(FrameRow(recs, recs[i]))
    {
      assert pairs[i].0 == d;
    }
    if d !in DaysOf(recs) {
      assert forall i :: 0 <= i < |pairs| ==> pairs[i].0 == recs[i].day;
    }
  }

  /** When the SpO2 endpoint fails or returns nothing and the sleep records carry an
      SpO2-marked column, the fallback runs: it merges a second `spo2` column, so the table
      ends up with `spo2_x` and `spo2_y` instead of a `spo2` column. */
  lemma FallbackSplitsSpo2(raw: RawData)
    requires raw.Raw? && !Present(raw.dailySpo2) && Present(raw.sleep) && SleepSpo2Columns(raw.sleep.value) != []
    ensures ProcessedTable(raw).spo2Split
  {
    assert raw.sleep.value[0].day in SourceDays(raw.sleep);
    assert Endpoints[1] == Sleep;
    var axis := SortedDays(UnionDays(raw));
    FallbackOnAxis(raw, axis);
    assert ProcessedTable(raw).spo2Split == Split(raw, axis);
  }

  /** Without SpO2 data the `spo2` column is null on every day of any axis, so an
      SpO2-marked sleep column makes the fallback run. */
  lemma FallbackOnAxis(raw: RawData, axis: seq<int>)
    requires raw.Raw? && !Present(raw.dailySpo2) && Present(raw.sleep) && SleepSpo2Columns(raw.sleep.value) != []
    ensures Split(raw, axis)
  {
    assert forall i :: 0 <= i < |Spo2Stage(raw, axis)| ==> Spo2Stage(raw, axis)[i].fields.spo2 == Plain(Null);
  }

  /** On an axis that includes the day of an SpO2 record whose SpO2 is not null, some row of
      the `spo2` column holds that value, so the column is not all null and the fallback
      does not run. */
  lemma NoFallbackOnAxis(raw: RawData, axis: seq<int>, i: nat)
    requires raw.Raw? && Present(raw.dailySpo2) && i < |raw.dailySpo2.value|
    requires !IsNull(ExtractSpo2(FrameRow(raw.dailySpo2.value, raw.dailySpo2.value[i])))
    requires raw.dailySpo2.value[i].day in axis
    ensures !Split(raw, axis)
  {
    var recs := raw.dailySpo2.value;
    var k :| 0 <= k < |axis| && axis[k] == recs[i].day;
    var base := seq(|axis|, n requires 0 <= n < |axis| => Row(axis[n], NullFields));
    var pairs := Spo2Pairs(recs);
    assert base[k].day == pairs[i].0;
    LeftJoinHas(base, pairs, Spo2Column, k, i);
    var o :| 0 <= o < |LeftJoin(base, pairs, Spo2Column)| &&
             LeftJoin(base, pairs, Spo2Column)[o] == Row(base[k].day, Put(base[k].fields, Spo2Column, pairs[i].1));
    assert Spo2Stage(raw, axis)[o].fields.spo2 == pairs[i].1;
  }

  /** An SpO2 record whose SpO2 is not null keeps the fallback from running, whatever the
      other records hold. */
  lemma NumericSpo2PreventsFallback(raw: RawData, i: nat)
    requires raw.Raw? && Present(raw.dailySpo2) && i < |raw.dailySpo2.value|
    requires !IsNull(ExtractSpo2(FrameRow(raw.dailySpo2.value, raw.dailySpo2.value[i])))
    ensures !ProcessedTable(raw).spo2Split
  {
    assert raw.dailySpo2.value[i].day in SourceDays(raw.dailySpo2);
    assert Endpoints[0] == DailySpo2;
    var axis := SortedDays(UnionDays(raw));
    NoFallbackOnAxis(raw, axis, i);
    assert ProcessedTable(raw).spo2Split == Split(raw, axis);
  }
}
