/**
 * The row-group interpreter: walks the rows of the plate table in order,
 * carrying the prefecture of the most recent header row forward, and emits
 * at most one plate record per row.
 */
module Extract {
  import opened Text
  import opened Reading

  datatype Option<T> = None | Some(value: T)

  /** One output record: 地名, 都道府県, 運輸支局, 自動車検査登録事務所名, 読み仮名. */
  datatype Record = Record(name: string, prefecture: string, bureau: string, office: string, reading: string)

  /** The fixed tables: PREFECTURES, KATAKANA_TO_HIRAGANA and PLATE_NAME_READINGS. */
  datatype Tables = Tables(prefectures: set<string>, kana: char -> char, readings: map<string, string>)

  /** A table row, its cells already converted to strings (missing cells as ""). */
  type Row = seq<string>

  /** Cell `i` with surrounding whitespace removed, or "" past the end of the row. */
  function Cell(row: Row, i: nat): string {
    if i < |row| then Trim(row[i]) else ""
  }

  /** The test applied to bureau and office cells: non-empty, not "nan", not all digits. */
  predicate Accepted(v: string) {
    v != "" && v != "nan" && !IsDigitString(v)
  }

  /**
   * What `_extract_transport_info(row, start)` returns: the bureau is the
   * accepted cells `start` and `start + 1` joined by a space when both are
   * accepted and differ, otherwise whichever is accepted; the office is cell
   * `start + 2` when it is accepted.
   */
  function TransportInfo(row: Row, start: nat): (string, string) {
    var first, second, third := Cell(row, start), Cell(row, start + 1), Cell(row, start + 2);
    var bureau :=
      if Accepted(first) && Accepted(second) && first != second then first + " " + second
      else if Accepted(first) then first
      else if Accepted(second) then second
      else "";
    (bureau, if Accepted(third) then third else "")
  }

  /**
   * The rules `_extract_transport_info` follows: the bureau is "", cell
   * `start`, cell `start + 1` or the two joined by a space; the joined form
   * occurs exactly when both are accepted and differ; equal accepted cells
   * give the cell once; the office is cell `start + 2` when the row has it
   * and it is accepted, and "" otherwise; a row too short for `start` gives
   * two empty strings.
   */
  lemma TransportInfoRules(row: Row, start: nat)
    ensures var r := TransportInfo(row, start);
      var a, b := Cell(row, start), Cell(row, start + 1);
      && r.0 in {"", a, b, a + " " + b}
      && (r.0 == a + " " + b <==> Accepted(a) && Accepted(b) && a != b)
      && (Accepted(a) && a == b ==> r.0 == a)
      && (r.0 == "" <==> !Accepted(a) && !Accepted(b))
      && (Accepted(a) && !Accepted(b) ==> r.0 == a)
      && (!Accepted(a) && Accepted(b) ==> r.0 == b)
      && (r.1 != "" <==> |row| > start + 2 && Accepted(Trim(row[start + 2])))
      && (r.1 != "" ==> r.1 == Trim(row[start + 2]))
      && (|row| <= start ==> r == ("", ""))
  {
    var a, b := Cell(row, start), Cell(row, start + 1);
    assert |a + " " + b| > |a| && |a + " " + b| > |b|;
  }

  /** `_extract_transport_info`, assigning the two results step by step as the source does. */
  method ExtractTransportInfo(rowValues: Row, startIndex: nat) returns (transportBureau: string, officeName: string)
    ensures (transportBureau, officeName) == TransportInfo(rowValues, startIndex)
  {
    transportBureau := "";
    officeName := "";
    if |rowValues| > startIndex {
      var bureauValue := Trim(rowValues[startIndex]);
      if bureauValue != "" && bureauValue != "nan" && !IsDigitString(bureauValue) {
        transportBureau := bureauValue;
      }
    }
    if |rowValues| > startIndex + 1 {
      var bureauValue := Trim(rowValues[startIndex + 1]);
      if bureauValue != "" && bureauValue != "nan" && !IsDigitString(bureauValue) {
        if transportBureau != "" && transportBureau != bureauValue {
          transportBureau := transportBureau + " " + bureauValue;
        } else if transportBureau == "" {
          transportBureau := bureauValue;
        }
      }
    }
    if |rowValues| > startIndex + 2 {
      var officeValue := Trim(rowValues[startIndex + 2]);
      if officeValue != "" && officeValue != "nan" && !IsDigitString(officeValue) {
        officeName := officeValue;
      }
    }
  }

  /** A header row: its cell 1 is a prefecture. */
  predicate IsHeader(row: Row, t: Tables) {
    |row| > 1 && IsPrefecture(row[1], t.prefectures)
  }

  /** The record built from a raw name cell, if the cleaned name is a valid plate name. */
  function MakeRecord(rawName: string, prefecture: string, row: Row, start: nat, t: Tables): Option<Record> {
    var plateName := Clean(rawName);
    if plateName != "" && IsValidPlateName(plateName) then
      var info := TransportInfo(row, start);
      Some(Record(plateName, prefecture, info.0, info.1, GenerateReading(plateName, t.kana, t.readings)))
    else None
  }

  /**
   * One row of the state machine: the new `current_prefecture` and the record
   * the row emits, if any.
   */
  function Step(current: string, row: Row, t: Tables): (string, Option<Record>) {
    if IsHeader(row, t) then
      (row[1], if |row| > 3 then MakeRecord(row[3], row[1], row, 4, t) else None)
    else if current != "" && |row| > 1 then
      (current, MakeRecord(if |row| > 3 then row[3] else row[1], current, row, if |row| > 4 then 4 else 2, t))
    else
      (current, None)
  }

  function Emitted(o: Option<Record>): seq<Record> {
    if o.Some? then [o.value] else []
  }

  /** The records emitted by `rows` when the carried prefecture starts as `current`. */
  function Run(rows: seq<Row>, current: string, t: Tables): seq<Record> {
    if rows == [] then []
    else
      var step := Step(current, rows[0], t);
      Emitted(step.1) + Run(rows[1..], step.0, t)
  }

  /** The carried prefecture after `rows`, starting from `current`. */
  function StateAfter(rows: seq<Row>, current: string, t: Tables): string {
    if rows == [] then current else StateAfter(rows[1..], Step(current, rows[0], t).0, t)
  }

  /** `_extract_from_dataframe` on a whole table: the pass starts with no prefecture. */
  function Extract(rows: seq<Row>, t: Tables): seq<Record> {
    Run(rows, "", t)
  }

  /** The carried prefecture after the rows of a table; `_extract_from_dataframe` starts from "". */
  function State(rows: seq<Row>, t: Tables): string {
    StateAfter(rows, "", t)
  }

  /**
   * Cell 1 of the most recent header row of `rows`, or "" when there is
   * none: the reference definition of the carried prefecture.
   */
  function LastHeader(rows: seq<Row>, t: Tables): (p: string)
    ensures (forall j :: 0 <= j < |rows| ==> !IsHeader(rows[j], t)) ==> p == ""
    ensures forall j :: (0 <= j < |rows| && IsHeader(rows[j], t) && forall k :: j < k < |rows| ==> !IsHeader(rows[k], t))
                        ==> p == rows[j][1]
    ensures p == "" || p in t.prefectures
  {
    if rows == [] then ""
    else if IsHeader(rows[|rows| - 1], t) then rows[|rows| - 1][1]
    else
      var p := LastHeader(rows[..|rows| - 1], t);
      assert forall j :: 0 <= j < |rows| - 1 ==> rows[..|rows| - 1][j] == rows[j];
      p
  }

  /**
   * The body of the row loop of `_extract_from_dataframe`: given the carried
   * prefecture and one row, the new carried prefecture and the record the
   * row appends, if any.
   */
  method ProcessRow(currentPrefecture: string, rowValues: Row, t: Tables) returns (nextPrefecture: string, plateInfo: Option<Record>)
    ensures (nextPrefecture, plateInfo) == Step(currentPrefecture, rowValues, t)
  {
    nextPrefecture, plateInfo := currentPrefecture, None;
    if |rowValues| > 1 && IsPrefecture(rowValues[1], t.prefectures) {
      nextPrefecture := rowValues[1];
      if |rowValues| > 3 {
        var plateName := Clean(rowValues[3]);
        if plateName != "" && IsValidPlateName(plateName) {
          var transportBureau, officeName := ExtractTransportInfo(rowValues, 4);
          plateInfo := Some(Record(plateName, nextPrefecture, transportBureau, officeName,
                                   GenerateReading(plateName, t.kana, t.readings)));
        }
      }
    } else if currentPrefecture != "" && |rowValues| > 1 {
      var plateName := Clean(if |rowValues| > 3 then rowValues[3] else rowValues[1]);
      if plateName != "" && IsValidPlateName(plateName) {
        var transportBureau, officeName := ExtractTransportInfo(rowValues, if |rowValues| > 4 then 4 else 2);
        plateInfo := Some(Record(plateName, currentPrefecture, transportBureau, officeName,
                                 GenerateReading(plateName, t.kana, t.readings)));
      }
    }
  }

  /**
   * `_extract_from_dataframe`: the loop over the rows, carrying
   * `current_prefecture` and appending each emitted record.
   */
  method ExtractFromRows(rows: seq<Row>, t: Tables) returns (plateData: seq<Record>)
    ensures plateData == Extract(rows, t)
  {
    plateData := [];
    var currentPrefecture := "";
    var i := 0;
    RunSuffix(rows, 0, currentPrefecture, plateData, t);
    while i < |rows|
      invariant 0 <= i <= |rows|
      invariant Resumes(rows, i, currentPrefecture, plateData, t)
    {
      var nextPrefecture, plateInfo := ProcessRow(currentPrefecture, rows[i], t);
      ghost var done := plateData;
      if plateInfo.Some? {
        plateData := plateData + [plateInfo.value];
      }
      LoopStep(rows, i, currentPrefecture, done, nextPrefecture, plateInfo, t);
      currentPrefecture := nextPrefecture;
      i := i + 1;
    }
    RunSuffix(rows, |rows|, currentPrefecture, plateData, t);
  }

  /** Having emitted `done` before row `i` with `current` carried, the rest of the pass completes `Extract(rows)`. */
  ghost predicate Resumes(rows: seq<Row>, i: nat, current: string, done: seq<Record>, t: Tables)
    requires i <= |rows|
  {
    done + Run(rows[i..], current, t) == Extract(rows, t)
  }

  lemma RunSuffix(rows: seq<Row>, i: nat, current: string, done: seq<Record>, t: Tables)
    requires i <= |rows|
    ensures i == 0 && done == [] && current == "" ==> Resumes(rows, i, current, done, t)
    ensures i == |rows| && Resumes(rows, i, current, done, t) ==> done == Extract(rows, t)
  {
    assert rows[0..] == rows;
    assert rows[|rows|..] == [];
  }

  lemma LoopStep(rows: seq<Row>, i: nat, current: string, done: seq<Record>,
                 next: string, info: Option<Record>, t: Tables)
    requires i < |rows| && Resumes(rows, i, current, done, t)
    requires (next, info) == Step(current, rows[i], t)
    ensures Resumes(rows, i + 1, next, done + Emitted(info), t)
  {
    RunCons(rows, i, current, t);
  }

  lemma RunCons(rows: seq<Row>, i: nat, current: string, t: Tables)
    requires i < |rows|
    ensures Run(rows[i..], current, t)
      == Emitted(Step(current, rows[i], t).1) + Run(rows[i + 1..], Step(current, rows[i], t).0, t)
  {
    assert rows[i..][1..] == rows[i + 1..];
  }

  // ---------------------------------------------------------------------------
  // Properties of the interpretation pass

  /** The invariants every extracted record satisfies. */
  predicate WellFormed(x: Record, t: Tables) {
    && x.prefecture in t.prefectures
    && IsValidPlateName(x.name)
    && x.reading == GenerateReading(x.name, t.kana, t.readings)
  }

  /**
   * One step keeps the carried prefecture empty or in PREFECTURES, and the
   * record it emits satisfies the record invariants.
   */
  lemma StepWellFormed(current: string, row: Row, t: Tables)
    requires current == "" || current in t.prefectures
    ensures Step(current, row, t).0 == "" || Step(current, row, t).0 in t.prefectures
    ensures Step(current, row, t).1.Some? ==> WellFormed(Step(current, row, t).1.value, t)
  {
  }

  /** Only a header row changes the carried prefecture, and it sets it to its cell 1. */
  lemma OnlyHeadersChangeState(current: string, row: Row, t: Tables)
    ensures Step(current, row, t).0 == if IsHeader(row, t) then row[1] else current
  {
  }

  /** A header row with at most 3 cells sets the prefecture but emits nothing. */
  lemma ShortHeaderEmitsNothing(current: string, row: Row, t: Tables)
    requires IsHeader(row, t) && |row| <= 3
    ensures Step(current, row, t) == (row[1], None)
  {
  }

  /** Processing `a + b` is processing `a`, then `b` from the state `a` left behind. */
  lemma {:induction false} RunAppend(a: seq<Row>, b: seq<Row>, current: string, t: Tables)
    ensures Run(a + b, current, t) == Run(a, current, t) + Run(b, StateAfter(a, current, t), t)
    ensures StateAfter(a + b, current, t) == StateAfter(b, StateAfter(a, current, t), t)
  {
    if a == [] {
      assert a + b == b;
    } else {
      assert (a + b)[0] == a[0];
      assert (a + b)[1..] == a[1..] + b;
      RunAppend(a[1..], b, Step(current, a[0], t).0, t);
    }
  }

  /**
   * Appending a row appends exactly what that row emits in the state the
   * earlier rows left behind: records keep input-row order.
   */
  lemma ExtractSnoc(rows: seq<Row>, row: Row, t: Tables)
    ensures Extract(rows + [row], t) == Extract(rows, t) + Emitted(Step(State(rows, t), row, t).1)
    ensures State(rows + [row], t) == Step(State(rows, t), row, t).0
  {
    RunAppend(rows, [row], "", t);
    var s := State(rows, t);
    assert Run([row], s, t) == Emitted(Step(s, row, t).1) + Run([], Step(s, row, t).0, t);
    assert StateAfter([row], s, t) == StateAfter([], Step(s, row, t).0, t);
  }

  /** The carried prefecture after any prefix of the table is cell 1 of its last header row. */
  lemma {:induction false} StateIsLastHeader(rows: seq<Row>, t: Tables)
    ensures State(rows, t) == LastHeader(rows, t)
    decreases |rows|
  {
    if rows != [] {
      var prev := rows[..|rows| - 1];
      assert prev + [rows[|rows| - 1]] == rows;
      StateIsLastHeader(prev, t);
      ExtractSnoc(prev, rows[|rows| - 1], t);
    }
  }

  /** The records emitted by row `i` of `rows`. */
  function RowRecords(rows: seq<Row>, i: nat, t: Tables): seq<Record>
    requires i < |rows|
  {
    Emitted(Step(LastHeader(rows[..i], t), rows[i], t).1)
  }

  /**
   * Row `i` adds at most one record after those of the rows before it; a
   * record it emits comes from a row of more than one cell, carries the
   * prefecture of the most recent header row at or before row `i` (a member
   * of PREFECTURES), has a valid name and the reading generated from it.
   */
  lemma RowContribution(rows: seq<Row>, i: nat, t: Tables)
    requires i < |rows|
    ensures Extract(rows[..i + 1], t) == Extract(rows[..i], t) + RowRecords(rows, i, t)
    ensures |RowRecords(rows, i, t)| <= 1
    ensures forall x :: x in RowRecords(rows, i, t) ==>
      && |rows[i]| > 1
      && x.prefecture == LastHeader(rows[..i + 1], t)
      && x.prefecture in t.prefectures
      && IsValidPlateName(x.name)
      && x.reading == GenerateReading(x.name, t.kana, t.readings)
  {
    assert rows[..i + 1] == rows[..i] + [rows[i]];
    ExtractSnoc(rows[..i], rows[i], t);
    StateIsLastHeader(rows[..i], t);
    StateIsLastHeader(rows[..i + 1], t);
  }

  /** Rows before the first header row emit nothing: a table without header rows yields no records. */
  lemma {:induction false} NoHeaderNoRecords(rows: seq<Row>, t: Tables)
    requires forall j :: 0 <= j < |rows| ==> !IsHeader(rows[j], t)
    ensures Extract(rows, t) == []
    ensures State(rows, t) == ""
  {
    StateIsLastHeader(rows, t);
    if rows != [] {
      var prev := rows[..|rows| - 1];
      assert prev + [rows[|rows| - 1]] == rows;
      NoHeaderNoRecords(prev, t);
      ExtractSnoc(prev, rows[|rows| - 1], t);
    }
  }

  /** The number of rows with more than one cell. */
  function MultiCellRows(rows: seq<Row>): nat {
    if rows == [] then 0 else (if |rows[0]| > 1 then 1 else 0) + MultiCellRows(rows[1..])
  }

  lemma {:induction false} RunAtMostOnePerRow(rows: seq<Row>, current: string, t: Tables)
    ensures |Run(rows, current, t)| <= MultiCellRows(rows)
  {
    if rows != [] {
      RunAtMostOnePerRow(rows[1..], Step(current, rows[0], t).0, t);
    }
  }

  /**
   * The whole pass emits no more records than there are rows of more than
   * one cell; the per-row statement is `RowContribution`.
   */
  lemma AtMostOnePerRow(rows: seq<Row>, t: Tables)
    ensures |Extract(rows, t)| <= MultiCellRows(rows)
  {
    RunAtMostOnePerRow(rows, "", t);
  }

  lemma {:induction false} RunRecordsWellFormed(rows: seq<Row>, current: string, t: Tables)
    requires current == "" || current in t.prefectures
    ensures forall x :: x in Run(rows, current, t) ==> WellFormed(x, t)
  {
    if rows != [] {
      var step := Step(current, rows[0], t);
      StepWellFormed(current, rows[0], t);
      RunRecordsWellFormed(rows[1..], step.0, t);
      assert Run(rows, current, t) == Emitted(step.1) + Run(rows[1..], step.0, t);
    }
  }

  /**
   * Every extracted record has a prefecture from PREFECTURES, a valid plate
   * name and the reading generated from that name.
   */
  lemma RecordsWellFormed(rows: seq<Row>, t: Tables)
    ensures forall x :: x in Extract(rows, t) ==>
      && x.prefecture in t.prefectures
      && IsValidPlateName(x.name)
      && x.reading == GenerateReading(x.name, t.kana, t.readings)
  {
    RunRecordsWellFormed(rows, "", t);
  }

  /** What a header row does does not depend on the prefecture carried into it. */
  lemma HeaderIgnoresCarriedState(current: string, other: string, row: Row, t: Tables)
    requires IsHeader(row, t)
    ensures Step(current, row, t) == Step(other, row, t)
  {
  }

  /** No deduplication: a header row that emits a record emits it again when repeated. */
  lemma DuplicatesKept(current: string, row: Row, t: Tables, x: Record)
    requires IsHeader(row, t) && Step(current, row, t).1 == Some(x)
    ensures Run([row, row], current, t) == [x, x]
  {
    var rows := [row, row];
    var s := Step(current, row, t).0;
    HeaderIgnoresCarriedState(current, s, row, t);
    RunCons(rows, 0, current, t);
    RunCons(rows, 1, s, t);
    assert rows[0..] == rows && rows[2..] == [];
  }

  // ---------------------------------------------------------------------------
  // The record a row emits, by row shape

  lemma MakeRecordEmits(rawName: string, prefecture: string, row: Row, start: nat, t: Tables, name: string)
    requires Clean(rawName) == name && name != "" && IsValidPlateName(name)
    ensures MakeRecord(rawName, prefecture, row, start, t)
      == Some(Record(name, prefecture, TransportInfo(row, start).0, TransportInfo(row, start).1,
                     GenerateReading(name, t.kana, t.readings)))
  {
  }

  /**
   * A header row with a name cell that cleans to a valid name emits that
   * name under the row's own prefecture, with bureau and office read from
   * cells 4 to 6, whatever prefecture was carried in.
   */
  lemma HeaderRowEmits(current: string, row: Row, t: Tables, name: string)
    requires IsHeader(row, t) && |row| > 3
    requires Clean(row[3]) == name && name != "" && IsValidPlateName(name)
    ensures Step(current, row, t)
      == (row[1], Some(Record(name, row[1], TransportInfo(row, 4).0, TransportInfo(row, 4).1,
                              GenerateReading(name, t.kana, t.readings))))
  {
    MakeRecordEmits(row[3], row[1], row, 4, t, name);
  }

  /**
   * A non-header row of five or more cells, met while a prefecture is
   * carried, emits its cell-3 name under the carried prefecture with bureau
   * and office read from cells 4 to 6.
   */
  lemma ContinuationRowEmits(current: string, row: Row, t: Tables, name: string)
    requires !IsHeader(row, t) && current != "" && |row| > 4
    requires Clean(row[3]) == name && name != "" && IsValidPlateName(name)
    ensures Step(current, row, t)
      == (current, Some(Record(name, current, TransportInfo(row, 4).0, TransportInfo(row, 4).1,
                               GenerateReading(name, t.kana, t.readings))))
  {
    MakeRecordEmits(row[3], current, row, 4, t, name);
  }

  /**
   * A non-header row of two to four cells, met while a prefecture is
   * carried, takes its name from cell 3 when it has one and otherwise from
   * cell 1, and reads bureau and office from cells 2 to 4.
   */
  lemma ShortContinuationRowEmits(current: string, row: Row, t: Tables, name: string)
    requires !IsHeader(row, t) && current != "" && 1 < |row| <= 4
    requires Clean(if |row| > 3 then row[3] else row[1]) == name && name != "" && IsValidPlateName(name)
    ensures Step(current, row, t)
      == (current, Some(Record(name, current, TransportInfo(row, 2).0, TransportInfo(row, 2).1,
                               GenerateReading(name, t.kana, t.readings))))
  {
    if |row| > 3 {
      MakeRecordEmits(row[3], current, row, 2, t, name);
    } else {
      MakeRecordEmits(row[1], current, row, 2, t, name);
    }
  }
}
