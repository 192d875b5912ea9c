/**
 * The name filter (unplanner.py): keeps the rows of an interpreter sheet in
 * which one of the given names appears in an interpreter column, cut down
 * to that stage's columns, and formats kept rows as one line each.
 */
module NameFilter {
  import opened Common
  import opened Text

  /** One CSV line as `csv.reader` yields it. */
  type Row = seq<string>

  /** The exceptions that end the script. */
  datatype Error =
    | EmptyFile // `next(reader)` on a file without lines raises StopIteration
    | NoRows    // only the first line: the header loop never binds `i`
    | EmptyRow  // `row[0]` on a line without cells raises IndexError
    | ShortRow  // `row[j]` past the last cell raises IndexError
    | NoStage   // a match in a column no stage covers: `stage_ranges[None]` raises KeyError

  /** A stage and the half-open range of columns `[start, end)` it owns. */
  datatype Range = Range(stage: string, start: nat, end: nat)

  /** `stage_ranges`, in insertion order. */
  const StageRanges: seq<Range> := [Range("Stage 1", 1, 11), Range("Stage 2", 11, 21), Range("Standby", 31, 33)]

  /** The interpreter columns are 9 to 31. */
  const FirstColumn: nat := 9
  const EndColumn: nat := 32

  // ---------------------------------------------------------------- determine_stage

  /** The first range of `ranges` that contains `col`. */
  function RangeOf(ranges: seq<Range>, col: int): (r: Option<Range>)
    ensures r.Some? ==> r.value in ranges && r.value.start <= col < r.value.end
    ensures r.None? ==> forall k :: 0 <= k < |ranges| ==> !(ranges[k].start <= col < ranges[k].end)
  {
    if ranges == [] then None
    else if ranges[0].start <= col < ranges[0].end then Some(ranges[0])
    else
      var r := RangeOf(ranges[1..], col);
      assert forall k :: 1 <= k < |ranges| ==> ranges[k] == ranges[1..][k - 1];
      r
  }

  /** The stage `determine_stage` returns for column `col`. */
  function StageOf(col: int): (stage: Option<string>)
    ensures stage == if 1 <= col < 11 then Some("Stage 1")
      else if 11 <= col < 21 then Some("Stage 2")
      else if 31 <= col < 33 then Some("Standby")
      else None
  {
    RangeOfStages(col);
    match RangeOf(StageRanges, col)
    case None => None
    case Some(r) => Some(r.stage)
  }

  lemma RangeOfStages(col: int)
    ensures RangeOf(StageRanges, col) ==
      if 1 <= col < 11 then Some(StageRanges[0])
      else if 11 <= col < 21 then Some(StageRanges[1])
      else if 31 <= col < 33 then Some(StageRanges[2])
      else None
  {
    var rest := StageRanges[1..];
    assert rest == [StageRanges[1], StageRanges[2]];
    assert rest[1..] == [StageRanges[2]];
    assert rest[1..][1..] == [];
  }

  /** `determine_stage(col_idx, stage_ranges)`: the loop over the ranges with its early return. */
  method DetermineStage(col: int) returns (stage: Option<string>)
    ensures stage == StageOf(col)
  {
    for k := 0 to |StageRanges|
      invariant RangeOf(StageRanges, col) == RangeOf(StageRanges[k..], col)
    {
      var range := StageRanges[k];
      if range.start <= col < range.end {
        return Some(range.stage);
      }
      assert StageRanges[k..][1..] == StageRanges[k + 1..];
    }
    return None;
  }

  /** `stage_ranges[stage]`: the range listed under a stage name. */
  function RangeNamed(ranges: seq<Range>, stage: string): (r: Option<Range>)
    ensures r.Some? ==> r.value in ranges && r.value.stage == stage
  {
    if ranges == [] then None
    else if ranges[0].stage == stage then Some(ranges[0])
    else RangeNamed(ranges[1..], stage)
  }

  /** Looking a stage up by the name `determine_stage` returned finds the range that contains the column. */
  lemma RangeNamedOf(col: int)
    requires StageOf(col).Some?
    ensures RangeNamed(StageRanges, StageOf(col).value) == RangeOf(StageRanges, col)
  {
    assert StageRanges[1..] == [Range("Stage 2", 11, 21), Range("Standby", 31, 33)];
    assert StageRanges[1..][1..] == [Range("Standby", 31, 33)];
  }

  // ---------------------------------------------------------------- one row

  /** `any(name.lower() in cell.lower() for name in names)`. */
  function Mentions(cell: string, names: seq<string>): (b: bool)
    ensures b <==> exists name :: name in names && Contains(Lower(cell), Lower(name))
  {
    if names == [] then false
    else
      var b := Contains(Lower(cell), Lower(names[0])) || Mentions(cell, names[1..]);
      assert names == [names[0]] + names[1..];
      b
  }

  /** Python's `s[a:b]` for `0 <= a <= b`: the cells that exist in that range. */
  function Slice(s: Row, a: nat, b: nat): (r: Row)
    requires a <= b
    ensures |r| == if |s| <= a then 0 else if |s| <= b then |s| - a else b - a
    ensures forall k :: 0 <= k < |r| ==> r[k] == s[a + k]
  {
    if |s| <= a then [] else if |s| <= b then s[a..] else s[a..b]
  }

  /**
   * The first column from `j` on, below 32, whose cell mentions a name; a
   * row that ends before such a column and before 32 raises IndexError.
   */
  function FirstMention(row: Row, names: seq<string>, j: nat): (r: Result<Option<nat>, Error>)
    ensures r.Success? && r.value.Some? ==> j <= r.value.value < EndColumn && r.value.value < |row|
    decreases EndColumn - j
  {
    if j >= EndColumn then Success(None)
    else if j >= |row| then Failure(ShortRow)
    else if Mentions(row[j], names) then Success(Some(j))
    else FirstMention(row, names, j + 1)
  }

  /** What the loop body of lines 31-45 does with one row: the kept row, nothing, or an exception. */
  function Kept(row: Row, names: seq<string>): Result<Option<Row>, Error>
  {
    match FirstMention(row, names, FirstColumn)
    case Failure(e) => Failure(e)
    case Success(None) => Success(None)
    case Success(Some(j)) =>
      match StageOf(j)
      case None => Failure(NoStage)
      case Some(stage) =>
        RangeNamedOf(j);
        var range := RangeNamed(StageRanges, stage).value;
        Success(Some([row[0], stage] + Slice(row, range.start, range.end)))
  }

  /** Lines 32-45 for one row: scan the interpreter columns, stop at the first mention. */
  method FilterRow(row: Row, names: seq<string>) returns (r: Result<Option<Row>, Error>)
    ensures r == Kept(row, names)
  {
    for j := FirstColumn to EndColumn
      invariant FirstMention(row, names, FirstColumn) == FirstMention(row, names, j)
    {
      if j >= |row| {
        return Failure(ShortRow);
      }
      var cell := row[j];
      if Mentions(cell, names) {
        var stage := DetermineStage(j);
        if stage.None? {
          return Failure(NoStage);
        }
        RangeNamedOf(j);
        var range := RangeNamed(StageRanges, stage.value).value;
        var columns := Slice(row, range.start, range.end);
        return Success(Some([row[0], stage.value] + columns));
      }
    }
    return Success(None);
  }

  /**
   * The scan finds the first interpreter column that mentions a name; a row
   * is passed over exactly when it has all 32 cells and none of columns
   * 9-31 mentions a name, and it raises IndexError exactly when it is shorter
   * and none of its interpreter cells mentions a name.
   */
  lemma {:induction false} FirstMentionSpec(row: Row, names: seq<string>, j: nat)
    requires FirstColumn <= j <= EndColumn && (j == FirstColumn || j <= |row|)
    ensures FirstMention(row, names, j).Success? && FirstMention(row, names, j).value.Some? ==>
      var m := FirstMention(row, names, j).value.value;
      Mentions(row[m], names) && forall k :: j <= k < m ==> !Mentions(row[k], names)
    ensures FirstMention(row, names, j) == Success(None) <==>
      |row| >= EndColumn && forall k :: j <= k < EndColumn ==> !Mentions(row[k], names)
    ensures FirstMention(row, names, j).Failure? <==>
      |row| < EndColumn && forall k :: j <= k < |row| ==> !Mentions(row[k], names)
    ensures FirstMention(row, names, j).Failure? ==> FirstMention(row, names, j).error == ShortRow
    decreases EndColumn - j
  {
    if j < EndColumn && j < |row| && !Mentions(row[j], names) {
      FirstMentionSpec(row, names, j + 1);
    }
  }

  /** The kept row starts with the row's date and the stage, and holds the cell that mentions the name. */
  lemma KeptHoldsMention(row: Row, names: seq<string>)
    requires Kept(row, names).Success? && Kept(row, names).value.Some?
    ensures var kept, m := Kept(row, names).value.value, FirstMention(row, names, FirstColumn).value.value;
      var start := RangeOf(StageRanges, m).value.start;
      kept[0] == row[0] && Some(kept[1]) == StageOf(m) && 2 + m - start < |kept| && kept[2 + m - start] == row[m] &&
      Mentions(kept[2 + m - start], names)
  {
    var m := FirstMention(row, names, FirstColumn).value.value;
    FirstMentionSpec(row, names, FirstColumn);
    RangeNamedOf(m);
    var r := RangeOf(StageRanges, m).value;
    var columns := Slice(row, r.start, r.end);
    assert Kept(row, names).value.value == [row[0], r.stage] + columns;
    assert columns[m - r.start] == row[m];
  }

  // ---------------------------------------------------------------- filter_csv

  /**
   * The header loop (lines 23-28) from row `k` on: the index of the first
   * row whose first cell is not "date", or the number of rows; a row
   * without cells before that raises IndexError.
   */
  function HeaderScan(rows: seq<Row>, k: nat): (r: Result<nat, Error>)
    ensures r.Success? ==> k <= r.value <= |rows| || (k > |rows| && r.value == k)
    decreases |rows| - k
  {
    if k >= |rows| then Success(k)
    else if rows[k] == [] then Failure(EmptyRow)
    else if rows[k][0] != "date" then Success(k)
    else HeaderScan(rows, k + 1)
  }

  predicate IsHeader(row: Row)
  {
    row != [] && row[0] == "date"
  }

  /** The header loop stops at the first row that is not a header row, or fails on an empty one before it. */
  lemma {:induction false} HeaderScanSpec(rows: seq<Row>, k: nat)
    requires k <= |rows|
    ensures HeaderScan(rows, k).Success? ==>
      var n := HeaderScan(rows, k).value;
      (forall m :: k <= m < n ==> IsHeader(rows[m])) && (n < |rows| ==> rows[n] != [] && !IsHeader(rows[n]))
    ensures HeaderScan(rows, k).Failure? <==> exists n :: k <= n < |rows| && rows[n] == [] && forall m :: k <= m < n ==> IsHeader(rows[m])
    ensures HeaderScan(rows, k).Failure? ==> HeaderScan(rows, k).error == EmptyRow
    decreases |rows| - k
  {
    if k < |rows| && IsHeader(rows[k]) {
      HeaderScanSpec(rows, k + 1);
      if exists n :: k + 1 <= n < |rows| && rows[n] == [] && forall m :: k + 1 <= m < n ==> IsHeader(rows[m]) {
        var n :| k + 1 <= n < |rows| && rows[n] == [] && forall m :: k + 1 <= m < n ==> IsHeader(rows[m]);
        assert forall m :: k <= m < n ==> IsHeader(rows[m]);
      }
    }
  }

  /** The data loop (lines 31-45) over `rows`, stopping at the first exception. */
  function KeptRows(rows: seq<Row>, names: seq<string>): Result<seq<Row>, Error>
  {
    if rows == [] then Success([]) else Append(KeptRows(rows[..|rows| - 1], names), Kept(rows[|rows| - 1], names))
  }

  /** One more iteration of the data loop, after the rows so far gave `acc`. */
  function Append(acc: Result<seq<Row>, Error>, r: Result<Option<Row>, Error>): Result<seq<Row>, Error>
  {
    match acc
    case Failure(e) => Failure(e)
    case Success(kept) =>
      match r
      case Failure(e) => Failure(e)
      case Success(None) => Success(kept)
      case Success(Some(row)) => Success(kept + [row])
  }

  /** Once a row raises, the rows after it are never looked at. */
  lemma {:induction false} KeptRowsFailurePersists(rows: seq<Row>, names: seq<string>, m: nat)
    requires m <= |rows| && KeptRows(rows[..m], names).Failure?
    ensures KeptRows(rows, names) == KeptRows(rows[..m], names)
    decreases |rows|
  {
    if m < |rows| {
      var init := rows[..|rows| - 1];
      assert init[..m] == rows[..m];
      KeptRowsFailurePersists(init, names, m);
    } else {
      assert rows[..m] == rows;
    }
  }

  /** `filter_csv` on the lines of the file. */
  function Filtered(lines: seq<Row>, names: seq<string>): Result<seq<Row>, Error>
  {
    if lines == [] then Failure(EmptyFile)
    else
      var rows := lines[1..];
      match HeaderScan(rows, 0)
      case Failure(e) => Failure(e)
      case Success(n) =>
        match LastLooked(rows, n)
        case None => Failure(NoRows)
        case Some(i) =>
          match KeptRows(rows[i..], names)
          case Failure(e) => Failure(e)
          case Success(kept) => Success(rows[..n] + kept)
  }

  /** The index of the last row the header loop looked at, if it looked at any. */
  function LastLooked(rows: seq<Row>, n: nat): Option<nat>
  {
    if rows == [] then None else if n == |rows| then Some(n - 1) else Some(n)
  }

  /** Lines 7-50: drops the first line, collects the header rows, filters the rest. */
  method FilterCsv(lines: seq<Row>, names: seq<string>) returns (result: Result<seq<Row>, Error>)
    ensures result == Filtered(lines, names)
  {
    if lines == [] {
      return Failure(EmptyFile);
    }
    var rows := lines[1..];
    var scan, headerRows, i := ScanHeaders(rows);
    if scan.Failure? {
      return Failure(scan.error);
    }
    if i.None? {
      return Failure(NoRows);
    }
    var kept := KeepRows(rows[i.value..], names);
    if kept.Failure? {
      return Failure(kept.error);
    }
    return Success(headerRows + kept.value);
  }

  /** Lines 23-28: the leading rows whose first cell is "date", and the last index the loop bound to `i`. */
  method ScanHeaders(rows: seq<Row>) returns (r: Result<nat, Error>, headerRows: seq<Row>, i: Option<nat>)
    ensures r == HeaderScan(rows, 0)
    ensures r.Success? ==> headerRows == rows[..r.value] && i == LastLooked(rows, r.value)
  {
    headerRows := [];
    i := None;
    var k := 0;
    while k < |rows|
      invariant k <= |rows| && headerRows == rows[..k]
      invariant HeaderScan(rows, 0) == HeaderScan(rows, k)
      invariant i == if k == 0 then None else Some(k - 1)
    {
      i := Some(k);
      if rows[k] == [] {
        return Failure(EmptyRow), headerRows, i;
      }
      if rows[k][0] != "date" {
        return Success(k), headerRows, i;
      }
      headerRows := headerRows + [rows[k]];
      assert rows[..k + 1] == rows[..k] + [rows[k]];
      k := k + 1;
    }
    r := Success(k);
  }

  /** Lines 31-45: the kept rows of `data`, in order, unless a row raises. */
  method KeepRows(data: seq<Row>, names: seq<string>) returns (r: Result<seq<Row>, Error>)
    ensures r == KeptRows(data, names)
  {
    var filteredRows: seq<Row> := [];
    for m := 0 to |data|
      invariant KeptRows(data[..m], names) == Success(filteredRows)
    {
      var kept := FilterRow(data[m], names);
      assert data[..m + 1][..m] == data[..m];
      match kept {
        case Failure(e) =>
          KeptRowsFailurePersists(data, names, m + 1);
          return Failure(e);
        case Success(None) =>
        case Success(Some(row)) =>
          filteredRows := filteredRows + [row];
      }
    }
    assert data[..|data|] == data;
    return Success(filteredRows);
  }

  /** Rows with no mention are dropped and kept rows stay in input order: the data loop distributes over concatenation. */
  lemma {:induction false} KeptRowsConcat(a: seq<Row>, b: seq<Row>, names: seq<string>)
    ensures KeptRows(a + b, names) == Concat(KeptRows(a, names), KeptRows(b, names))
    decreases |b|
  {
    if b == [] {
      assert a + b == a;
      assert KeptRows(a, names).Success? ==> KeptRows(a, names).value + [] == KeptRows(a, names).value;
    } else {
      var init, last := b[..|b| - 1], b[|b| - 1];
      assert (a + b)[..|a + b| - 1] == a + init;
      assert (a + b)[|a + b| - 1] == last;
      KeptRowsConcat(a, init, names);
      AppendConcat(KeptRows(a, names), KeptRows(init, names), Kept(last, names));
    }
  }

  /** The kept rows of two runs of rows, one after the other, unless one of them raised. */
  function Concat(p: Result<seq<Row>, Error>, q: Result<seq<Row>, Error>): Result<seq<Row>, Error>
  {
    match p
    case Failure(e) => Failure(e)
    case Success(kp) =>
      match q
      case Failure(e) => Failure(e)
      case Success(kq) => Success(kp + kq)
  }

  lemma AppendConcat(p: Result<seq<Row>, Error>, q: Result<seq<Row>, Error>, r: Result<Option<Row>, Error>)
    ensures Append(Concat(p, q), r) == Concat(p, Append(q, r))
  {
    if p.Success? && q.Success? && r.Success? && r.value.Some? {
      assert (p.value + q.value) + [r.value.value] == p.value + (q.value + [r.value.value]);
    }
  }

  /** The data loop raises exactly when one of its rows does. */
  lemma {:induction false} KeptRowsFailure(rows: seq<Row>, names: seq<string>)
    ensures KeptRows(rows, names).Failure? <==> exists m :: 0 <= m < |rows| && Kept(rows[m], names).Failure?
    decreases |rows|
  {
    if rows != [] {
      var init := rows[..|rows| - 1];
      KeptRowsFailure(init, names);
      if exists m :: 0 <= m < |init| && Kept(init[m], names).Failure? {
        var m :| 0 <= m < |init| && Kept(init[m], names).Failure?;
        assert rows[m] == init[m];
      }
      if exists m :: 0 <= m < |rows| && Kept(rows[m], names).Failure? {
        var m :| 0 <= m < |rows| && Kept(rows[m], names).Failure?;
        if m < |init| {
          assert init[m] == rows[m];
        }
      }
    }
  }

  /**
   * The output starts with the header rows, those leading rows whose first
   * cell is "date", and continues with the kept rows of the data loop.
   */
  lemma FilteredHeaders(lines: seq<Row>, names: seq<string>)
    requires Filtered(lines, names).Success?
    ensures var rows, out := lines[1..], Filtered(lines, names).value;
      var n := HeaderScan(rows, 0).value;
      n <= |out| && out[..n] == rows[..n] && (forall k :: 0 <= k < n ==> IsHeader(out[k])) &&
      (n < |rows| ==> !IsHeader(rows[n]) && Success(out[n..]) == KeptRows(rows[n..], names))
  {
    var rows := lines[1..];
    HeaderScanSpec(rows, 0);
    var n := HeaderScan(rows, 0).value;
    var out := Filtered(lines, names).value;
    assert out[..n] == rows[..n];
    if n < |rows| {
      assert out == rows[..n] + out[n..];
    }
  }

  /**
   * When every line after the first is a header row, `i` is left at the
   * last of them, and that row is scanned for names as well: it can be
   * written a second time, cut down to a stage's columns.
   */
  lemma LastHeaderRescanned(lines: seq<Row>, names: seq<string>)
    requires |lines| >= 2 && forall k :: 1 <= k < |lines| ==> IsHeader(lines[k])
    ensures Filtered(lines, names) ==
      match Kept(lines[|lines| - 1], names)
      case Failure(e) => Failure(e)
      case Success(None) => Success(lines[1..])
      case Success(Some(row)) => Success(lines[1..] + [row])
  {
    var rows := lines[1..];
    HeaderScanSpec(rows, 0);
    assert forall k :: 0 <= k < |rows| ==> IsHeader(rows[k]) by {
      forall k | 0 <= k < |rows| ensures IsHeader(rows[k]) {
        assert rows[k] == lines[k + 1];
      }
    }
    assert HeaderScan(rows, 0) == Success(|rows|) by {
      HeaderScanAllHeaders(rows, 0);
    }
    var last := rows[|rows| - 1..];
    assert last == [lines[|lines| - 1]] && last[..0] == [];
    assert KeptRows(last, names) == Append(Success([]), Kept(lines[|lines| - 1], names));
    assert rows[..|rows|] == rows && rows + [] == rows;
    assert rows[|rows| - 1..] == last;
    assert Filtered(lines, names) == Concat(Success(rows), KeptRows(last, names));
    var kept := Kept(lines[|lines| - 1], names);
    assert kept.Success? && kept.value.Some? ==> [] + [kept.value.value] == [kept.value.value];
  }

  lemma {:induction false} HeaderScanAllHeaders(rows: seq<Row>, k: nat)
    requires k <= |rows| && forall m :: k <= m < |rows| ==> IsHeader(rows[m])
    ensures HeaderScan(rows, k) == Success(|rows|)
    decreases |rows| - k
  {
    if k < |rows| {
      HeaderScanAllHeaders(rows, k + 1);
    }
  }

  // ---------------------------------------------------------------- output_list

  /** The line `output_list` prints for a row (lines 68-75); a row of fewer than 8 cells raises IndexError. */
  function FormatLine(row: Row): (r: Result<string, Error>)
    ensures r.Success? <==> |row| >= 8
  {
    if |row| < 8 then Failure(ShortRow)
    else Success(row[0] + " - " + row[1] + " - " + row[3] + " (" + row[4] + ") - [" + row[7] + "] " + row[5] + " - " + row[6])
  }

  /**
   * A kept row prints as date, stage, start time, duration, language, title
   * and speakers, taken from the stage's columns 1-5 of the original row; a
   * Standby row, which keeps only two columns, and a row that ends within
   * the first six columns of its stage raise IndexError instead.
   */
  lemma KeptLine(row: Row, names: seq<string>)
    requires Kept(row, names).Success? && Kept(row, names).value.Some?
    ensures var kept, m := Kept(row, names).value.value, FirstMention(row, names, FirstColumn).value.value;
      var s := RangeOf(StageRanges, m).value.start;
      (FormatLine(kept).Failure? <==> kept[1] == "Standby" || |row| < s + 6) &&
      (FormatLine(kept).Success? ==>
        FormatLine(kept).value == row[0] + " - " + kept[1] + " - " + row[s + 1] + " (" + row[s + 2] + ") - [" +
          row[s + 5] + "] " + row[s + 3] + " - " + row[s + 4])
  {
    var m := FirstMention(row, names, FirstColumn).value.value;
    RangeNamedOf(m);
    var r := RangeOf(StageRanges, m).value;
    var kept := [row[0], r.stage] + Slice(row, r.start, r.end);
    assert Kept(row, names).value.value == kept;
    assert |kept| >= 8 <==> r.stage != "Standby" && |row| >= r.start + 6;
  }

  /** The number of leading rows `output_list` prints before one raises IndexError. */
  function Printable(rows: seq<Row>): (n: nat)
    ensures n <= |rows| && (forall k :: 0 <= k < n ==> |rows[k]| >= 8) && (n < |rows| ==> |rows[n]| < 8)
  {
    if rows == [] || |rows[0]| < 8 then 0
    else
      var n := 1 + Printable(rows[1..]);
      assert forall k :: 1 <= k < n ==> rows[k] == rows[1..][k - 1];
      n
  }

  /** The lines printed for rows that all have at least 8 cells. */
  function Lines(rows: seq<Row>): seq<string>
    requires forall k :: 0 <= k < |rows| ==> |rows[k]| >= 8
  {
    if rows == [] then [] else Lines(rows[..|rows| - 1]) + [FormatLine(rows[|rows| - 1]).value]
  }

  /** Lines 66-76: prints one line per row until a row is too short. */
  method OutputList(rows: seq<Row>) returns (lines: seq<string>, complete: bool)
    ensures var n := Printable(rows); lines == Lines(rows[..n]) && (complete <==> n == |rows|)
  {
    lines := [];
    var k := 0;
    while k < |rows|
      invariant k <= Printable(rows)
      invariant lines == Lines(rows[..k])
    {
      var line := FormatLine(rows[k]);
      if line.Failure? {
        return lines, false;
      }
      assert rows[..k + 1][..k] == rows[..k];
      lines := lines + [line.value];
      k := k + 1;
    }
    complete := true;
  }
}
