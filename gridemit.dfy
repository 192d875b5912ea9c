/**
 * The rows the grid builder writes (planner.py lines 47-86): a header, then
 * per date a summary row, the time rows with blank spacer rows where the
 * hour changes, and a blank row after the date.
 */
module GridEmit {
  import opened Common
  import opened Dicts
  import opened Text
  import opened StringOrder
  import opened GridInput
  import opened GridGroup

  type Row = seq<string>

  const PerRoomHeader: seq<string> :=
    ["url", "start_time", "duration", "title", "speakers", "language", "type", "INT_1", "INT_2"]

  /** Number of cells each room contributes to a row. */
  const Width: nat := 9

  function Blanks(n: nat): (r: seq<string>)
  {
    seq(n, _ => "")
  }

  /**
   * Cells `Width * i + c` of a row built from a prefix and one block of
   * `Width` cells per room: earlier rooms' cells are the prefix's, the last
   * room's are its block's.
   */
  lemma BlockAt(front: Row, block: seq<string>, i: nat, c: nat, n: nat)
    requires |front| == 1 + Width * (n - 1) && |block| == Width && 0 < n && i < n && c < Width
    ensures 1 + Width * i + c < |front + block|
    ensures (front + block)[1 + Width * i + c] == if i < n - 1 then front[1 + Width * i + c] else block[c]
  {
  }

  // ---------------------------------------------------------------- header

  function HeaderBlock(room: string): (r: seq<string>)
  {
    seq(Width, c requires 0 <= c < Width => room + "_" + PerRoomHeader[c])
  }

  /** `["date"] + room_header`: "{room}_{col}" for each room, then each per-room column. */
  function HeaderCells(rooms: seq<string>): Row
  {
    if rooms == [] then ["date"] else HeaderCells(rooms[..|rooms| - 1]) + HeaderBlock(rooms[|rooms| - 1])
  }

  function Header(rooms: seq<string>): Row
  {
    HeaderCells(rooms) + ["bereitschaft_INT_1", "bereitschaft_INT_2"]
  }

  lemma {:induction false} HeaderCellsLength(rooms: seq<string>)
    ensures |HeaderCells(rooms)| == 1 + Width * |rooms| && HeaderCells(rooms)[0] == "date"
  {
    if rooms != [] {
      HeaderCellsLength(rooms[..|rooms| - 1]);
    }
  }

  /** The header has 1 + 9 R + 2 cells: "date", the room columns and the two standby columns. */
  lemma HeaderShape(rooms: seq<string>)
    ensures var h := Header(rooms);
      |h| == 1 + Width * |rooms| + 2 && h[0] == "date"
      && h[|h| - 2] == "bereitschaft_INT_1" && h[|h| - 1] == "bereitschaft_INT_2"
  {
    HeaderCellsLength(rooms);
  }

  /** Cell `c` of room `i`'s group in the header is "{room}_{col}" for the `c`-th per-room column. */
  lemma {:induction false} HeaderAt(rooms: seq<string>, i: nat, c: nat)
    requires i < |rooms| && c < Width
    ensures 1 + Width * i + c < |Header(rooms)|
    ensures Header(rooms)[1 + Width * i + c] == rooms[i] + "_" + PerRoomHeader[c]
  {
    var n := |rooms|;
    var init := rooms[..n - 1];
    HeaderCellsLength(init);
    BlockAt(HeaderCells(init), HeaderBlock(rooms[n - 1]), i, c, n);
    if i < n - 1 {
      HeaderAt(init, i, c);
    }
  }

  // ---------------------------------------------------------------- summary rows

  /** The sessions of `room` on a day, in the order of the day's start times. */
  function SessionsOf(day: Day, room: string): seq<Record>
  {
    if day == [] then []
    else
      var slots := day[|day| - 1].1;
      SessionsOf(day[..|day| - 1], room) + (if room in Keys(slots) then [Get(slots, room).value] else [])
  }

  lemma {:induction false} SessionsOfMember(day: Day, room: string, x: Record)
    ensures x in SessionsOf(day, room) <==> exists j :: 0 <= j < |day| && Get(day[j].1, room) == Some(x)
  {
    if x in SessionsOf(day, room) {
      SessionsOfFrom(day, room, x);
    }
    if exists j :: 0 <= j < |day| && Get(day[j].1, room) == Some(x) {
      var j :| 0 <= j < |day| && Get(day[j].1, room) == Some(x);
      SessionsOfHas(day, room, j);
    }
  }

  lemma {:induction false} SessionsOfHas(day: Day, room: string, j: nat)
    requires j < |day| && Get(day[j].1, room).Some?
    ensures Get(day[j].1, room).value in SessionsOf(day, room)
  {
    var init := day[..|day| - 1];
    assert SessionsOf(day, room) == SessionsOf(init, room) +
      (if room in Keys(day[|day| - 1].1) then [Get(day[|day| - 1].1, room).value] else []);
    if j < |init| {
      assert init[j] == day[j];
      SessionsOfHas(init, room, j);
    }
  }

  lemma {:induction false} SessionsOfFrom(day: Day, room: string, x: Record)
    requires x in SessionsOf(day, room)
    ensures exists j :: 0 <= j < |day| && Get(day[j].1, room) == Some(x)
  {
    var init := day[..|day| - 1];
    var own := if room in Keys(day[|day| - 1].1) then [Get(day[|day| - 1].1, room).value] else [];
    assert SessionsOf(day, room) == SessionsOf(init, room) + own;
    if x in SessionsOf(init, room) {
      SessionsOfFrom(init, room, x);
      var j :| 0 <= j < |init| && Get(init[j].1, room) == Some(x);
      assert day[j] == init[j];
    } else {
      assert x in own;
      assert Get(day[|day| - 1].1, room) == Some(x);
    }
  }

  function StartTimes(sessions: seq<Record>): (r: seq<string>)
  {
    seq(|sessions|, i requires 0 <= i < |sessions| => Column(sessions[i], "start_time"))
  }

  function EndTimes(sessions: seq<Record>): (r: seq<string>)
  {
    seq(|sessions|, i requires 0 <= i < |sessions| => Column(sessions[i], "end_time"))
  }

  /** Every room has a session on the day, so `min` and `max` get non-empty lists. */
  predicate RoomsOnDay(rooms: seq<string>, day: Day)
  {
    forall k :: 0 <= k < |rooms| ==> SessionsOf(day, rooms[k]) != []
  }

  /** `f"{room} first session starts {day_start_time}, last session ends {day_end_time}"`. */
  function SummaryCell(room: string, day: Day): string
    requires SessionsOf(day, room) != []
  {
    var sessions := SessionsOf(day, room);
    room + " first session starts " + Min(StartTimes(sessions)) + ", last session ends " + Max(EndTimes(sessions))
  }

  /**
   * The summary cell reports a start time of one of the room's sessions that
   * no other session of the room that day precedes, and an end time that no
   * other session's end time follows.
   */
  lemma SummaryCellTimes(room: string, day: Day)
    requires SessionsOf(day, room) != []
    ensures var sessions := SessionsOf(day, room);
      var first, last := Min(StartTimes(sessions)), Max(EndTimes(sessions));
      SummaryCell(room, day) == room + " first session starts " + first + ", last session ends " + last
      && (exists k :: 0 <= k < |sessions| && first == Column(sessions[k], "start_time"))
      && (exists k :: 0 <= k < |sessions| && last == Column(sessions[k], "end_time"))
      && (forall k :: 0 <= k < |sessions| ==>
            first == Column(sessions[k], "start_time") || Less(first, Column(sessions[k], "start_time")))
      && (forall k :: 0 <= k < |sessions| ==>
            last == Column(sessions[k], "end_time") || Less(Column(sessions[k], "end_time"), last))
  {
    var sessions := SessionsOf(day, room);
    var starts, ends := StartTimes(sessions), EndTimes(sessions);
    MinIsLeast(starts);
    MaxIsGreatest(ends);
    var a :| 0 <= a < |starts| && starts[a] == Min(starts);
    var b :| 0 <= b < |ends| && ends[b] == Max(ends);
    forall k | 0 <= k < |sessions|
      ensures Min(starts) == Column(sessions[k], "start_time") || Less(Min(starts), Column(sessions[k], "start_time"))
    {
      assert starts[k] == Column(sessions[k], "start_time");
    }
    forall k | 0 <= k < |sessions|
      ensures Max(ends) == Column(sessions[k], "end_time") || Less(Column(sessions[k], "end_time"), Max(ends))
    {
      assert ends[k] == Column(sessions[k], "end_time");
    }
  }

  lemma RoomsOnDayPrefix(rooms: seq<string>, day: Day, k: nat)
    requires RoomsOnDay(rooms, day) && k <= |rooms|
    ensures RoomsOnDay(rooms[..k], day)
  {
    forall j | 0 <= j < k ensures SessionsOf(day, rooms[..k][j]) != [] {
      assert rooms[..k][j] == rooms[j];
    }
  }

  /** The summary row: the date, then per room its summary cell and eight blanks. */
  function SummaryRowOf(date: string, rooms: seq<string>, day: Day): Row
    requires RoomsOnDay(rooms, day)
  {
    if rooms == [] then [date]
    else
      RoomsOnDayPrefix(rooms, day, |rooms| - 1);
      SummaryRowOf(date, rooms[..|rooms| - 1], day) + [SummaryCell(rooms[|rooms| - 1], day)] + Blanks(Width - 1)
  }

  /** Lines 63-68: the summary row of a date. */
  method SummaryRow(date: string, rooms: seq<string>, day: Day) returns (row: Row)
    requires RoomsOnDay(rooms, day)
    ensures row == SummaryRowOf(date, rooms, day)
  {
    row := [date];
    for k := 0 to |rooms|
      invariant RoomsOnDay(rooms[..k], day)
      invariant row == SummaryRowOf(date, rooms[..k], day)
    {
      var room := rooms[k];
      row := row + [SummaryCell(room, day)];
      row := row + Blanks(Width - 1);
      RoomsOnDayPrefix(rooms, day, k + 1);
      assert rooms[..k + 1][..k] == rooms[..k];
    }
    assert rooms[..|rooms|] == rooms;
  }

  /** A summary row has 1 + 9 R cells, no standby cells, and starts with the date. */
  lemma {:induction false} SummaryRowShape(date: string, rooms: seq<string>, day: Day)
    requires RoomsOnDay(rooms, day)
    ensures |SummaryRowOf(date, rooms, day)| == 1 + Width * |rooms| && SummaryRowOf(date, rooms, day)[0] == date
  {
    if rooms != [] {
      RoomsOnDayPrefix(rooms, day, |rooms| - 1);
      SummaryRowShape(date, rooms[..|rooms| - 1], day);
    }
  }

  /** Room `i`'s group in a summary row is its summary cell followed by blanks. */
  lemma {:induction false} SummaryRowAt(date: string, rooms: seq<string>, day: Day, i: nat, c: nat)
    requires RoomsOnDay(rooms, day) && i < |rooms| && c < Width
    ensures 1 + Width * i + c < |SummaryRowOf(date, rooms, day)|
    ensures SummaryRowOf(date, rooms, day)[1 + Width * i + c] == if c == 0 then SummaryCell(rooms[i], day) else ""
  {
    var n := |rooms|;
    var init := rooms[..n - 1];
    RoomsOnDayPrefix(rooms, day, n - 1);
    SummaryRowShape(date, init, day);
    BlockAt(SummaryRowOf(date, init, day), [SummaryCell(rooms[n - 1], day)] + Blanks(Width - 1), i, c, n);
    if i < n - 1 {
      SummaryRowAt(date, init, day, i, c);
    }
  }

  // ---------------------------------------------------------------- time rows

  /** `[record.get(col, "") for col in per_room_header]` or nine blanks. */
  function TimeBlock(room: string, slots: Slots): seq<string>
  {
    if room in Keys(slots) then
      var record := Get(slots, room).value;
      seq(Width, c requires 0 <= c < Width => Column(record, PerRoomHeader[c]))
    else Blanks(Width)
  }

  function TimeCells(date: string, rooms: seq<string>, slots: Slots): Row
  {
    if rooms == [] then [date] else TimeCells(date, rooms[..|rooms| - 1], slots) + TimeBlock(rooms[|rooms| - 1], slots)
  }

  function TimeRowOf(date: string, rooms: seq<string>, slots: Slots): Row
  {
    TimeCells(date, rooms, slots) + ["", ""]
  }

  /** Lines 76-82: the row of one start time. */
  method TimeRow(date: string, rooms: seq<string>, slots: Slots) returns (row: Row)
    ensures row == TimeRowOf(date, rooms, slots)
  {
    row := [date];
    for k := 0 to |rooms|
      invariant row == TimeCells(date, rooms[..k], slots)
    {
      var room := rooms[k];
      if room in Keys(slots) {
        var record := Get(slots, room).value;
        row := row + seq(Width, c requires 0 <= c < Width => Column(record, PerRoomHeader[c]));
      } else {
        row := row + Blanks(Width);
      }
      assert rooms[..k + 1][..k] == rooms[..k];
    }
    assert rooms[..|rooms|] == rooms;
    row := row + ["", ""];
  }

  lemma {:induction false} TimeCellsLength(date: string, rooms: seq<string>, slots: Slots)
    ensures |TimeCells(date, rooms, slots)| == 1 + Width * |rooms| && TimeCells(date, rooms, slots)[0] == date
  {
    if rooms != [] {
      TimeCellsLength(date, rooms[..|rooms| - 1], slots);
    }
  }

  /** A time row has 1 + 9 R + 2 cells: the date, the room groups and two blank standby cells. */
  lemma TimeRowShape(date: string, rooms: seq<string>, slots: Slots)
    ensures var row := TimeRowOf(date, rooms, slots);
      |row| == 1 + Width * |rooms| + 2 && row[0] == date && row[|row| - 2] == "" && row[|row| - 1] == ""
  {
    TimeCellsLength(date, rooms, slots);
  }

  /**
   * Room `i`'s group in a time row holds the per-room columns of the session
   * in that room (a column the session lacks as ""), or blanks when the room
   * has no session at that time.
   */
  lemma {:induction false} TimeRowAt(date: string, rooms: seq<string>, slots: Slots, i: nat, c: nat)
    requires i < |rooms| && c < Width
    ensures 1 + Width * i + c < |TimeRowOf(date, rooms, slots)|
    ensures TimeRowOf(date, rooms, slots)[1 + Width * i + c] ==
      if rooms[i] in Keys(slots) then Column(Get(slots, rooms[i]).value, PerRoomHeader[c]) else ""
  {
    var n := |rooms|;
    var init := rooms[..n - 1];
    TimeCellsLength(date, init, slots);
    BlockAt(TimeCells(date, init, slots), TimeBlock(rooms[n - 1], slots), i, c, n);
    if i < n - 1 {
      TimeRowAt(date, init, slots, i, c);
    }
  }

  // ---------------------------------------------------------------- whole output

  /** `start_time.split(':')[0]`. */
  function Hour(time: string): string
  {
    Split(time, ':')[0]
  }

  /** The blank row written before a time row when its hour differs from `last_seen_hour`. */
  function Spacer(last: Option<string>, time: string): seq<Row>
  {
    if Some(Hour(time)) != last then [[]] else []
  }

  /** `last_seen_hour` after the time rows of `day`, starting from `last`. */
  function LastHour(day: Day, last: Option<string>): Option<string>
  {
    if day == [] then last else Some(Hour(day[|day| - 1].0))
  }

  /** The time rows of one date, each preceded by its spacer, starting from `last_seen_hour` `last`. */
  function TimesOutput(rooms: seq<string>, date: string, day: Day, last: Option<string>): seq<Row>
  {
    if day == [] then []
    else
      var init := day[..|day| - 1];
      TimesOutput(rooms, date, init, last) + Spacer(LastHour(init, last), day[|day| - 1].0)
        + [TimeRowOf(date, rooms, day[|day| - 1].1)]
  }

  /** Lines 71-84: the time rows of one date, updating `last_seen_hour`. */
  method EmitTimes(rooms: seq<string>, date: string, day: Day, last: Option<string>)
    returns (rows: seq<Row>, lastSeenHour: Option<string>)
    ensures rows == TimesOutput(rooms, date, day, last)
    ensures lastSeenHour == LastHour(day, last)
  {
    rows := [];
    lastSeenHour := last;
    for j := 0 to |day|
      invariant lastSeenHour == LastHour(day[..j], last)
      invariant rows == TimesOutput(rooms, date, day[..j], last)
    {
      var startTime := day[j].0;
      var currentHour := Hour(startTime);
      if Some(currentHour) != lastSeenHour {
        rows := rows + [[]];
      }
      var row := TimeRow(date, rooms, day[j].1);
      rows := rows + [row];
      lastSeenHour := Some(currentHour);
      assert day[..j + 1][..j] == day[..j];
    }
    assert day[..|day|] == day;
  }

  predicate EveryRoomEachDay(rooms: seq<string>, g: Grouped)
  {
    forall i :: 0 <= i < |g| ==> RoomsOnDay(rooms, g[i].1)
  }

  lemma EveryRoomEachDayPrefix(rooms: seq<string>, g: Grouped, k: nat)
    requires EveryRoomEachDay(rooms, g) && k <= |g|
    ensures EveryRoomEachDay(rooms, g[..k])
  {
    forall i | 0 <= i < k ensures RoomsOnDay(rooms, g[..k][i].1) {
      assert g[..k][i] == g[i];
    }
  }

  /** `last_seen_hour` after the dates of `g`; it is not reset between dates. */
  function HourAfter(g: Grouped, last: Option<string>): Option<string>
  {
    if g == [] then last else LastHour(g[|g| - 1].1, HourAfter(g[..|g| - 1], last))
  }

  /** Everything the script writes for the dates of `g`: the header, then per date its block and a blank row. */
  function Grid(rooms: seq<string>, g: Grouped): seq<Row>
    requires EveryRoomEachDay(rooms, g)
  {
    if g == [] then [Header(rooms)]
    else
      var init, date, day := g[..|g| - 1], g[|g| - 1].0, g[|g| - 1].1;
      EveryRoomEachDayPrefix(rooms, g, |g| - 1);
      Grid(rooms, init) + [SummaryRowOf(date, rooms, day)] + TimesOutput(rooms, date, day, HourAfter(init, None)) + [[]]
  }

  /**
   * The number of leading dates on which every room has a session. At the
   * first date where a room has none, `min` of an empty list raises
   * ValueError and the script stops.
   */
  function CoveredPrefix(rooms: seq<string>, g: Grouped): (n: nat)
    ensures n <= |g| && EveryRoomEachDay(rooms, g[..n])
    ensures n < |g| ==> !RoomsOnDay(rooms, g[n].1)
  {
    if g == [] || !RoomsOnDay(rooms, g[0].1) then 0
    else
      var n := 1 + CoveredPrefix(rooms, g[1..]);
      assert forall i :: 1 <= i < n ==> g[..n][i] == g[1..][..n - 1][i - 1];
      n
  }

  /** The script runs to its end exactly when every room has a session on every date. */
  lemma CoveredPrefixComplete(rooms: seq<string>, g: Grouped)
    ensures CoveredPrefix(rooms, g) == |g| <==> EveryRoomEachDay(rooms, g)
  {
    var n := CoveredPrefix(rooms, g);
    if n == |g| {
      assert g[..n] == g;
    }
  }

  /** A date within the covered prefix, or the one just after it, is covered exactly when it is within. */
  lemma CoveredPrefixAt(rooms: seq<string>, g: Grouped, i: nat)
    requires i <= CoveredPrefix(rooms, g) && i < |g|
    ensures RoomsOnDay(rooms, g[i].1) <==> i < CoveredPrefix(rooms, g)
  {
    var n := CoveredPrefix(rooms, g);
    assert i < n ==> g[..n][i] == g[i];
  }

  /** One more covered date appends its block to the grid. */
  lemma GridStep(rooms: seq<string>, g: Grouped, i: nat)
    requires i < CoveredPrefix(rooms, g)
    ensures RoomsOnDay(rooms, g[i].1) && EveryRoomEachDay(rooms, g[..i]) && EveryRoomEachDay(rooms, g[..i + 1])
    ensures Grid(rooms, g[..i + 1]) == Grid(rooms, g[..i]) + [SummaryRowOf(g[i].0, rooms, g[i].1)] +
      TimesOutput(rooms, g[i].0, g[i].1, HourAfter(g[..i], None)) + [[]]
    ensures HourAfter(g[..i + 1], None) == LastHour(g[i].1, HourAfter(g[..i], None))
  {
    var n := CoveredPrefix(rooms, g);
    CoveredPrefixAt(rooms, g, i);
    EveryRoomEachDayPrefix(rooms, g[..n], i + 1);
    assert g[..n][..i + 1] == g[..i + 1];
    GridSnoc(rooms, g, i);
  }

  /** One more date adds its block to the grid and moves `last_seen_hour` on. */
  lemma GridSnoc(rooms: seq<string>, g: Grouped, i: nat)
    requires i < |g| && EveryRoomEachDay(rooms, g[..i + 1])
    ensures EveryRoomEachDay(rooms, g[..i])
    ensures Grid(rooms, g[..i + 1]) == Grid(rooms, g[..i]) + [SummaryRowOf(g[i].0, rooms, g[i].1)] +
      TimesOutput(rooms, g[i].0, g[i].1, HourAfter(g[..i], None)) + [[]]
    ensures HourAfter(g[..i + 1], None) == LastHour(g[i].1, HourAfter(g[..i], None))
  {
    var h := g[..i + 1];
    assert h[..i] == g[..i] && h[i] == g[i];
    EveryRoomEachDayPrefix(rooms, h, i);
  }

  /**
   * Lines 47-86: the header, then the rows of each date, until a date on
   * which some room has no session; `complete` is false when the script
   * stops there with ValueError.
   */
  method Emit(rooms: seq<string>, grouped: Grouped) returns (out: seq<Row>, complete: bool)
    ensures var n := CoveredPrefix(rooms, grouped);
      out == Grid(rooms, grouped[..n]) && (complete <==> n == |grouped|)
  {
    out := [Header(rooms)];
    var lastSeenHour: Option<string> := None;
    var i := 0;
    while i < |grouped|
      invariant i <= CoveredPrefix(rooms, grouped)
      invariant EveryRoomEachDay(rooms, grouped[..i])
      invariant lastSeenHour == HourAfter(grouped[..i], None)
      invariant out == Grid(rooms, grouped[..i])
    {
      var startDate := grouped[i].0;
      var day := grouped[i].1;
      CoveredPrefixAt(rooms, grouped, i);
      if !RoomsOnDay(rooms, day) {
        return out, false;
      }
      GridStep(rooms, grouped, i);
      var summary := SummaryRow(startDate, rooms, day);
      out := out + [summary];
      var rows;
      rows, lastSeenHour := EmitTimes(rooms, startDate, day, lastSeenHour);
      out := out + rows;
      out := out + [[]];
      i := i + 1;
    }
    complete := true;
  }

  // ---------------------------------------------------------------- properties of the output

  /** The rows that are not blank, in order. */
  function NonBlank(rows: seq<Row>): seq<Row>
  {
    if rows == [] then []
    else NonBlank(rows[..|rows| - 1]) + (if rows[|rows| - 1] == [] then [] else [rows[|rows| - 1]])
  }

  lemma {:induction false} NonBlankConcat(a: seq<Row>, b: seq<Row>)
    ensures NonBlank(a + b) == NonBlank(a) + NonBlank(b)
  {
    if b != [] {
      var init := b[..|b| - 1];
      assert (a + b)[..|a + b| - 1] == a + init;
      NonBlankConcat(a, init);
    } else {
      assert a + b == a;
    }
  }

  /** One time row per start time of the date, in the date's order. */
  function TimeRows(date: string, rooms: seq<string>, day: Day): seq<Row>
  {
    if day == [] then []
    else TimeRows(date, rooms, day[..|day| - 1]) + [TimeRowOf(date, rooms, day[|day| - 1].1)]
  }

  /** Leaving out the spacer rows leaves exactly the time rows of the date, in order. */
  lemma {:induction false} TimeRowsInOrder(rooms: seq<string>, date: string, day: Day, last: Option<string>)
    ensures NonBlank(TimesOutput(rooms, date, day, last)) == TimeRows(date, rooms, day)
  {
    if day != [] {
      var init := day[..|day| - 1];
      var row := TimeRowOf(date, rooms, day[|day| - 1].1);
      var spacer := Spacer(LastHour(init, last), day[|day| - 1].0);
      TimeRowsInOrder(rooms, date, init, last);
      assert TimesOutput(rooms, date, day, last) == TimesOutput(rooms, date, init, last) + spacer + [row];
      assert TimeRows(date, rooms, day) == TimeRows(date, rooms, init) + [row];
      NonBlankConcat(TimesOutput(rooms, date, init, last) + spacer, [row]);
      NonBlankConcat(TimesOutput(rooms, date, init, last), spacer);
      NonBlankSpacer(LastHour(init, last), day[|day| - 1].0);
      NonBlankRow(row);
    }
  }

  lemma NonBlankSpacer(last: Option<string>, time: string)
    ensures NonBlank(Spacer(last, time)) == []
  {
    var spacer := Spacer(last, time);
    if spacer != [] {
      assert spacer[..0] == [];
    }
  }

  lemma NonBlankRow(row: Row)
    requires row != []
    ensures NonBlank([row]) == [row]
  {
    assert [row][..0] == [];
  }

  /**
   * A date's first time row is preceded by a blank row exactly when its
   * hour differs from `last_seen_hour`.
   */
  lemma {:induction false} TimesOutputHead(rooms: seq<string>, date: string, day: Day, last: Option<string>)
    requires day != []
    ensures Some(Hour(day[0].0)) != last ==>
      |TimesOutput(rooms, date, day, last)| > 1 && TimesOutput(rooms, date, day, last)[0] == []
        && TimesOutput(rooms, date, day, last)[1] == TimeRowOf(date, rooms, day[0].1)
    ensures Some(Hour(day[0].0)) == last ==>
      |TimesOutput(rooms, date, day, last)| > 0 && TimesOutput(rooms, date, day, last)[0] == TimeRowOf(date, rooms, day[0].1)
  {
    var init := day[..|day| - 1];
    if |day| > 1 {
      TimesOutputHead(rooms, date, init, last);
    } else {
      assert init == [];
    }
  }

  /** The first time row of all is preceded by a blank row, since `last_seen_hour` starts as None. */
  lemma {:induction false} FirstTimeRowSpaced(rooms: seq<string>, g: Grouped)
    requires EveryRoomEachDay(rooms, g) && g != [] && g[0].1 != []
    ensures |Grid(rooms, g)| > 2 && Grid(rooms, g)[2] == []
  {
    var init := g[..|g| - 1];
    EveryRoomEachDayPrefix(rooms, g, |g| - 1);
    if |g| > 1 {
      FirstTimeRowSpaced(rooms, init);
    } else {
      TimesOutputHead(rooms, g[0].0, g[0].1, None);
    }
  }

  /**
   * `last_seen_hour` carries over from one date to the next: when a date's
   * first start time is in the hour of the previous date's last one, its
   * first time row follows the summary row with no blank row between.
   */
  lemma HourCarriesOver(rooms: seq<string>, g: Grouped, date: string, day: Day)
    requires EveryRoomEachDay(rooms, g + [(date, day)])
    requires g != [] && g[|g| - 1].1 != [] && day != []
    requires var prev := g[|g| - 1].1; Hour(day[0].0) == Hour(prev[|prev| - 1].0)
    ensures EveryRoomEachDay(rooms, g)
    ensures |Grid(rooms, g)| + 1 < |Grid(rooms, g + [(date, day)])|
    ensures Grid(rooms, g + [(date, day)])[|Grid(rooms, g)| + 1] == TimeRowOf(date, rooms, day[0].1)
  {
    var all := g + [(date, day)];
    EveryRoomEachDayPrefix(rooms, all, |g|);
    assert all[..|all| - 1] == g && all[|all| - 1] == (date, day);
    var last := HourAfter(g, None);
    assert last == Some(Hour(day[0].0));
    var times := TimesOutput(rooms, date, day, last);
    TimesOutputHead(rooms, date, day, last);
    assert Grid(rooms, all) == Grid(rooms, g) + [SummaryRowOf(date, rooms, day)] + times + [[]];
  }
}
