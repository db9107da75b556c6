/** Data-frame rows of one endpoint's records and the SpO2 field resolver `extract_spo2`. */
module Spo2 {
  import opened Wrappers
  import opened Text
  import opened Records

  /** The value of field `key` in a record, or NaN when the record lacks it (what its data-frame
      row holds under a column that another record introduced). */
  function FieldOf(rec: Record, key: string): (c: Cell)
    ensures (forall j :: 0 <= j < |rec.fields| ==> rec.fields[j].0 != key) ==> c == NaN
    ensures c != NaN ==> exists j :: 0 <= j < |rec.fields| && rec.fields[j] == (key, c)
  {
    FirstField(rec.fields, key)
  }

  function FirstField(fields: seq<(string, Cell)>, key: string): (c: Cell)
    ensures (forall j :: 0 <= j < |fields| ==> fields[j].0 != key) ==> c == NaN
    ensures c != NaN ==> exists j :: 0 <= j < |fields| && fields[j] == (key, c)
  {
    if fields == [] then NaN
    else if fields[0].0 == key then fields[0].1
    else FirstField(fields[1..], key)
  }

  /** No name occurs twice. */
  predicate Distinct(s: seq<string>) {
    forall i, j :: 0 <= i < j < |s| ==> s[i] != s[j]
  }

  /** `cols` with the names of `fields` appended in order, each name once. */
  function AddNames(cols: seq<string>, fields: seq<(string, Cell)>): (r: seq<string>)
    ensures forall c :: c in cols ==> c in r
    ensures forall j :: 0 <= j < |fields| ==> fields[j].0 in r
    ensures forall c :: c in r ==> c in cols || exists j :: 0 <= j < |fields| && fields[j].0 == c
    ensures Distinct(cols) ==> Distinct(r)
    decreases |fields|
  {
    if fields == [] then cols
    else
      var next := if fields[0].0 in cols then cols else cols + [fields[0].0];
      var r := AddNames(next, fields[1..]);
      assert forall j :: 1 <= j < |fields| ==> fields[j] == fields[1..][j - 1];
      assert forall c :: c in r ==> c in cols || exists j :: 0 <= j < |fields| && fields[j].0 == c by {
        forall c | c in r && c !in cols
          ensures exists j :: 0 <= j < |fields| && fields[j].0 == c
        {
          if c !in next {
            var j :| 0 <= j < |fields[1..]| && fields[1..][j].0 == c;
            assert fields[j + 1].0 == c;
          } else {
            assert fields[0].0 == c;
          }
        }
      }
      r
  }

  /** The columns of `pd.DataFrame(records)`: every field name of every record and no other
      name, each once, in order of first appearance. */
  function Columns(recs: seq<Record>): (cols: seq<string>)
    ensures forall i, j :: 0 <= i < |recs| && 0 <= j < |recs[i].fields| ==> recs[i].fields[j].0 in cols
    ensures forall c :: c in cols ==> exists i, j :: 0 <= i < |recs| && 0 <= j < |recs[i].fields| && recs[i].fields[j].0 == c
    ensures Distinct(cols)
  {
    if recs == [] then []
    else
      var init := recs[..|recs| - 1];
      var last := recs[|recs| - 1];
      var front := Columns(init);
      var cols := AddNames(front, last.fields);
      assert forall i :: 0 <= i < |recs| - 1 ==> recs[i] == init[i];
      assert forall c :: c in cols ==> exists i, j :: 0 <= i < |recs| && 0 <= j < |recs[i].fields| && recs[i].fields[j].0 == c by {
        forall c | c in cols
          ensures exists i, j :: 0 <= i < |recs| && 0 <= j < |recs[i].fields| && recs[i].fields[j].0 == c
        {
          if c in front {
            var i, j :| 0 <= i < |init| && 0 <= j < |init[i].fields| && init[i].fields[j].0 == c;
            assert recs[i] == init[i];
          } else {
            var j :| 0 <= j < |last.fields| && last.fields[j].0 == c;
            assert recs[|recs| - 1].fields[j].0 == c;
          }
        }
      }
      cols
  }

  /** A column of the batch that pandas stores as floats: every record holds a number, NaN
      (the field is missing) or null there, and some record holds a number. Such a column
      keeps a JSON null as NaN. */
  predicate NumericColumn(recs: seq<Record>, key: string) {
    (forall i :: 0 <= i < |recs| ==> IsNumber(FieldOf(recs[i], key)) || FieldOf(recs[i], key) == Plain(Null)) &&
    (exists i :: 0 <= i < |recs| && FieldOf(recs[i], key).Plain? && FieldOf(recs[i], key).s.Number?)
  }

  /** The data-frame cell of record `rec` in column `key` of the batch `recs`: the record's
      value, NaN when it lacks the field, and NaN for a null in a float column. */
  function FrameCell(recs: seq<Record>, key: string, rec: Record): (c: Cell)
    ensures FieldOf(rec, key) != Plain(Null) ==> c == FieldOf(rec, key)
    ensures FieldOf(rec, key) == Plain(Null) ==> (c == NaN <==> NumericColumn(recs, key))
    ensures FieldOf(rec, key) == Plain(Null) ==> IsNull(c)
  {
    var v := FieldOf(rec, key);
    if v == Plain(Null) && NumericColumn(recs, key) then NaN else v
  }

  /** The data-frame row of `rec` in `pd.DataFrame(recs)`: one (column, cell) pair per column. */
  function FrameRow(recs: seq<Record>, rec: Record): seq<(string, Cell)> {
    var cols := Columns(recs);
    seq(|cols|, i requires 0 <= i < |cols| => (cols[i], FrameCell(recs, cols[i], rec)))
  }

  /** `key in row.index` and `row[key]`: the value of the first column named `key`. */
  function Lookup(row: seq<(string, Cell)>, key: string): (r: Option<Cell>)
    ensures r.None? <==> forall i :: 0 <= i < |row| ==> row[i].0 != key
    ensures r.Some? ==> exists i :: 0 <= i < |row| && row[i] == (key, r.value)
  {
    if row == [] then None
    else if row[0].0 == key then Some(row[0].1)
    else Lookup(row[1..], key)
  }

  /** Looking a column up in a data-frame row gives the frame's cell for it; a name that no
      record of the batch has is not a column. */
  lemma {:induction false} LookupFrameRow(recs: seq<Record>, rec: Record, key: string)
    ensures Lookup(FrameRow(recs, rec), key) == if key in Columns(recs) then Some(FrameCell(recs, key, rec)) else None
  {
    var cols := Columns(recs);
    var row := FrameRow(recs, rec);
    if key in cols {
      var r := Lookup(row, key);
      var i :| 0 <= i < |cols| && cols[i] == key;
      assert row[i].0 == key;
      var k :| 0 <= k < |row| && row[k] == (key, r.value);
      assert r.value == FrameCell(recs, key, rec);
    }
  }

  /** `isinstance(v, (int, float))`: a number, NaN included. */
  predicate IsNumber(c: Cell) {
    c.NaN? || (c.Plain? && c.s.Number?)
  }

  /** `pd.isna(v)`: NaN or None. */
  predicate IsNull(c: Cell) {
    c.NaN? || c == Plain(Null)
  }

  /** A column whose lower-cased name contains "oxygen" or "spo2". */
  predicate Spo2Marked(col: string) {
    Contains(Lower(col), "oxygen") || Contains(Lower(col), "spo2")
  }

  /** `val.get('average', val.get('value'))` on a nested object. */
  function NestedAverageOrValue(m: map<string, Scalar>): Scalar {
    if "average" in m then m["average"] else if "value" in m then m["value"] else Null
  }

  /** A cell step 3 of the chain accepts: an SpO2-marked column holding an object or a
      number. */
  predicate Candidate(p: (string, Cell)) {
    Spo2Marked(p.0) && (p.1.Object? || IsNumber(p.1))
  }

  /** What step 3 returns for an accepted cell: an object's `average`, else its `value`, else
      None; a number as it is. */
  function Resolve(c: Cell): Cell {
    if c.Object? then Plain(NestedAverageOrValue(c.members)) else c
  }

  /** Position `i` holds the first accepted cell of the row. */
  predicate FirstCandidate(row: seq<(string, Cell)>, i: int) {
    0 <= i < |row| && Candidate(row[i]) && forall j :: 0 <= j < i ==> !Candidate(row[j])
  }

  /** Step 3 of the chain: scanning the columns in order, the first SpO2-marked one holding an
      object or a number wins. Something is found exactly when the row has such a column. */
  function ScanMarked(row: seq<(string, Cell)>): (r: Option<Cell>)
    ensures r.Some? <==> exists i :: 0 <= i < |row| && Candidate(row[i])
    ensures r.Some? ==> exists i :: FirstCandidate(row, i) && r.value == Resolve(row[i].1)
  {
    if row == [] then None
    else if Candidate(row[0]) then
      assert FirstCandidate(row, 0);
      Some(Resolve(row[0].1))
    else
      var r := ScanMarked(row[1..]);
      assert forall i :: 1 <= i < |row| ==> row[i] == row[1..][i - 1];
      assert r.Some? ==> exists i :: FirstCandidate(row, i) && r.value == Resolve(row[i].1) by {
        if r.Some? {
          var i :| FirstCandidate(row[1..], i) && r.value == Resolve(row[1..][i].1);
          assert FirstCandidate(row, i + 1);
        }
      }
      r
  }

  /** The first accepted cell of a row is unique. */
  lemma FirstCandidateUnique(row: seq<(string, Cell)>, i: int, k: int)
    requires FirstCandidate(row, i) && FirstCandidate(row, k)
    ensures i == k
  {
  }

  /** `s` contains `sub` when `sub` starts at position `i` of `s`. */
  lemma {:induction false} ContainsAt(s: string, sub: string, i: nat)
    requires i <= |s| && StartsWith(s[i..], sub)
    ensures Contains(s, sub)
    decreases i
  {
    if i > 0 {
      assert s[1..][i - 1..] == s[i..];
      ContainsAt(s[1..], sub, i - 1);
    }
  }

  /** The two field names the chain tries first are themselves SpO2-marked, so step 3 covers
      no field name that steps 1 and 2 could have missed. */
  lemma NamedFieldsAreMarked()
    ensures Spo2Marked("spo2_percentage") && Spo2Marked("average_blood_oxygen")
  {
    var a := "spo2_percentage";
    assert Lower(a) == a;
    assert Lower(a)[..4] == "spo2";
    var b := "average_blood_oxygen";
    assert Lower(b) == b;
    assert Lower(b)[14..] == "oxygen";
    ContainsAt(Lower(b), "oxygen", 14);
  }

  /** Step 1 of the chain applies: `spo2_percentage` is an object with `average`, or a
      number. */
  predicate PrimaryApplies(row: seq<(string, Cell)>) {
    var p := Lookup(row, "spo2_percentage");
    p.Some? && ((p.value.Object? && "average" in p.value.members) || IsNumber(p.value))
  }

  /** `extract_spo2`: the SpO2 of one data-frame row by a fixed chain of candidates, first
      match wins: (1) `spo2_percentage` as an object with `average`, or as a number; (2)
      `average_blood_oxygen`, whatever it holds; (3) the first column whose name contains
      "oxygen" or "spo2" holding an object (its `average`, else its `value`) or a number;
      otherwise None. */
  function ExtractSpo2(row: seq<(string, Cell)>): (r: Cell)
    ensures Lookup(row, "spo2_percentage").Some? && Lookup(row, "spo2_percentage").value.Object? &&
            "average" in Lookup(row, "spo2_percentage").value.members ==>
              r == Plain(Lookup(row, "spo2_percentage").value.members["average"])
    ensures Lookup(row, "spo2_percentage").Some? && IsNumber(Lookup(row, "spo2_percentage").value) ==>
              r == Lookup(row, "spo2_percentage").value
    ensures !PrimaryApplies(row) && Lookup(row, "average_blood_oxygen").Some? ==>
              r == Lookup(row, "average_blood_oxygen").value
    ensures !PrimaryApplies(row) && Lookup(row, "average_blood_oxygen").None? ==>
              forall i :: FirstCandidate(row, i) ==> r == Resolve(row[i].1)
    ensures (!PrimaryApplies(row) && Lookup(row, "average_blood_oxygen").None? &&
             forall i :: 0 <= i < |row| ==> !Candidate(row[i])) ==> r == Plain(Null)
    ensures (forall i :: 0 <= i < |row| ==> !Spo2Marked(row[i].0)) ==> r == Plain(Null)
  {
    NamedFieldsAreMarked();
    var primary := Lookup(row, "spo2_percentage");
    if primary.Some? && primary.value.Object? && "average" in primary.value.members then
      Plain(primary.value.members["average"])
    else if primary.Some? && IsNumber(primary.value) then
      primary.value
    else if Lookup(row, "average_blood_oxygen").Some? then
      Lookup(row, "average_blood_oxygen").value
    else
      var found := ScanMarked(row);
      assert found.Some? ==> forall i :: FirstCandidate(row, i) ==> found.value == Resolve(row[i].1) by {
        if found.Some? {
          var k :| FirstCandidate(row, k) && found.value == Resolve(row[k].1);
          forall i | FirstCandidate(row, i) ensures found.value == Resolve(row[i].1) {
            FirstCandidateUnique(row, i, k);
          }
        }
      }
      found.GetOr(Plain(Null))
  }

  /** In a batch where some record carries `spo2_percentage`, every record's row has that
      column; a record without it holds NaN there, a number, so the chain stops at step 1 and
      its SpO2 is NaN even when the record has `average_blood_oxygen`. */
  lemma {:induction false} PrimaryColumnShadowsFallbacks(recs: seq<Record>, i: nat, j: nat, k: nat)
    requires i < |recs| && j < |recs| && k < |recs[j].fields| && recs[j].fields[k].0 == "spo2_percentage"
    requires forall f :: 0 <= f < |recs[i].fields| ==> recs[i].fields[f].0 != "spo2_percentage"
    ensures ExtractSpo2(FrameRow(recs, recs[i])) == NaN
  {
    LookupFrameRow(recs, recs[i], "spo2_percentage");
  }

  /** In a float column, a record whose field is null reads NaN in its data-frame row. */
  lemma NullInNumericColumn(recs: seq<Record>, i: nat, key: string)
    requires i < |recs| && FieldOf(recs[i], key) == Plain(Null) && NumericColumn(recs, key)
    ensures Lookup(FrameRow(recs, recs[i]), key) == Some(NaN)
  {
    var j :| 0 <= j < |recs| && FieldOf(recs[j], key).Plain? && FieldOf(recs[j], key).s.Number?;
    var f :| 0 <= f < |recs[j].fields| && recs[j].fields[f] == (key, FieldOf(recs[j], key));
    assert recs[j].fields[f].0 == key;
    LookupFrameRow(recs, recs[i], key);
  }

  /** In a batch where `spo2_percentage` holds numbers, a record whose `spo2_percentage` is
      null reads NaN there, a number, so the chain stops at step 1 with NaN even when the
      record has `average_blood_oxygen`. */
  lemma NullInNumericPrimaryIsNaN(recs: seq<Record>, i: nat)
    requires i < |recs| && FieldOf(recs[i], "spo2_percentage") == Plain(Null)
    requires NumericColumn(recs, "spo2_percentage")
    ensures ExtractSpo2(FrameRow(recs, recs[i])) == NaN
  {
    NullInNumericColumn(recs, i, "spo2_percentage");
  }

  /** A batch in which no record has an SpO2-marked field gives every record no SpO2. */
  lemma NoMarkedFieldNoSpo2(recs: seq<Record>, i: nat)
    requires i < |recs|
    requires forall k, f :: 0 <= k < |recs| && 0 <= f < |recs[k].fields| ==> !Spo2Marked(recs[k].fields[f].0)
    ensures ExtractSpo2(FrameRow(recs, recs[i])) == Plain(Null)
  {
    var row := FrameRow(recs, recs[i]);
    forall c | 0 <= c < |row| ensures !Spo2Marked(row[c].0) {
      assert row[c].0 in Columns(recs);
    }
  }
}
