/**
 * The nested grouping of the grid builder (planner.py lines 28-45): date to
 * start time to room to the session placed in that slot. The first session
 * seen for a slot keeps it; a later one for the same slot is a collision,
 * which the script reports and otherwise ignores.
 */
module GridGroup {
  import opened Common
  import opened Dicts
  import opened GridInput

  /** Room to session, for one start time. */
  type Slots = Dict<string, Record>
  /** Start time to its rooms, for one date, in insertion order. */
  type Day = Dict<string, Slots>
  /** Date to its start times, in insertion order. */
  type Grouped = Dict<string, Day>

  function Date(r: Record): string
  {
    Column(r, "start_date")
  }

  function Time(r: Record): string
  {
    Column(r, "start_time")
  }

  function Slot(r: Record): (string, string, string)
  {
    (Date(r), Time(r), Room(r))
  }

  /** `grouped[date][time][room]` when all three keys are present. */
  function Lookup(g: Grouped, date: string, time: string, room: string): Option<Record>
  {
    Get(GetOr(GetOr(g, date, []), time, []), room)
  }

  /** The effect of one iteration of the grouping loop on `grouped_records`. */
  function Place(g: Grouped, r: Record): Grouped
  {
    var day := GetOr(g, Date(r), []);
    var slots := GetOr(day, Time(r), []);
    if Room(r) in Keys(slots) then g
    else Put(g, Date(r), Put(day, Time(r), Put(slots, Room(r), r)))
  }

  /** `grouped_records` after the loop has run over `records`. */
  function Group(records: seq<Record>): Grouped
  {
    if records == [] then []
    else Place(Group(records[..|records| - 1]), records[|records| - 1])
  }

  /**
   * The grouping loop: creates the date and time levels when they are
   * missing, stores the session unless the slot is already taken.
   */
  method GroupBySlot(sorted: seq<Record>) returns (grouped: Grouped)
    ensures grouped == Group(sorted)
  {
    grouped := [];
    for i := 0 to |sorted|
      invariant grouped == Group(sorted[..i])
    {
      grouped := PlaceRecord(grouped, sorted[i]);
      GroupPrefix(sorted, i);
    }
    assert sorted[..|sorted|] == sorted;
  }

  lemma GroupPrefix(records: seq<Record>, i: nat)
    requires i < |records|
    ensures Group(records[..i + 1]) == Place(Group(records[..i]), records[i])
  {
    assert records[..i + 1][..i] == records[..i];
  }

  /** One iteration of the grouping loop, updating the nested dicts level by level. */
  method PlaceRecord(g: Grouped, record: Record) returns (grouped: Grouped)
    ensures grouped == Place(g, record)
  {
    grouped := g;
    var startDate := Date(record);
    if startDate !in Keys(grouped) {
      grouped := Put(grouped, startDate, []);
    }
    var day := Get(grouped, startDate).value;
    var startTime := Time(record);
    if startTime !in Keys(day) {
      day := Put(day, startTime, []);
      grouped := Put(grouped, startDate, day);
    }
    var slots := Get(day, startTime).value;
    var room := Room(record);
    if room !in Keys(slots) {
      slots := Put(slots, room, record);
      day := Put(day, startTime, slots);
      grouped := Put(grouped, startDate, day);
    }
    // otherwise the slot is taken: the collision is only reported
    PlaceSteps(g, record);
  }

  /** The loop body, with its intermediate empty dicts, has the effect of `Place`. */
  lemma PlaceSteps(g: Grouped, r: Record)
    ensures var d, t, room := Date(r), Time(r), Room(r);
      var g1 := if d !in Keys(g) then Put(g, d, []) else g;
      var day1 := Get(g1, d).value;
      var day2 := if t !in Keys(day1) then Put(day1, t, []) else day1;
      var g2 := if t !in Keys(day1) then Put(g1, d, day2) else g1;
      var slots := Get(day2, t).value;
      (if room !in Keys(slots) then Put(g2, d, Put(day2, t, Put(slots, room, r))) else g2) == Place(g, r)
  {
    var d, t, room := Date(r), Time(r), Room(r);
    var g1 := if d !in Keys(g) then Put(g, d, []) else g;
    GetPut(g, d, [], d);
    var day1 := Get(g1, d).value;
    assert day1 == GetOr(g, d, []);
    var day2 := if t !in Keys(day1) then Put(day1, t, []) else day1;
    GetPut(day1, t, [], t);
    var g2 := if t !in Keys(day1) then Put(g1, d, day2) else g1;
    var slots := Get(day2, t).value;
    assert slots == GetOr(day1, t, []);
    PutPut(g, d, [], day2);
    if t !in Keys(day1) {
      PutExisting(g1, d, day1);
      PutPut(day1, t, [], Put(slots, room, r));
      PutPut(g1, d, day2, Put(day2, t, Put(slots, room, r)));
      PutPut(g, d, [], Put(day2, t, Put(slots, room, r)));
    } else {
      PutExisting(g, d, day1);
    }
  }

  function Dates(records: seq<Record>): seq<string>
  {
    if records == [] then [] else Dates(records[..|records| - 1]) + [Date(records[|records| - 1])]
  }

  /** The start times of the records on `date`, in order. */
  function TimesOn(records: seq<Record>, date: string): seq<string>
  {
    if records == [] then []
    else
      var last := records[|records| - 1];
      TimesOn(records[..|records| - 1], date) + (if Date(last) == date then [Time(last)] else [])
  }

  /** Placing a session only ever adds its date, time and room; a taken slot changes nothing. */
  lemma PlaceShape(g: Grouped, r: Record, date: string)
    ensures Keys(Place(g, r)) == if Date(r) in Keys(g) then Keys(g) else Keys(g) + [Date(r)]
    ensures var day := GetOr(g, date, []);
      Keys(GetOr(Place(g, r), date, [])) ==
        if date == Date(r) && Time(r) !in Keys(day) then Keys(day) + [Time(r)] else Keys(day)
  {
    var d, t := Date(r), Time(r);
    var day := GetOr(g, d, []);
    var slots := GetOr(day, t, []);
    if Room(r) !in Keys(slots) {
      GetOrPut(g, d, Put(day, t, Put(slots, Room(r), r)), date, []);
    }
  }

  /** The dates are listed in order of first occurrence. */
  lemma {:induction false} GroupDates(records: seq<Record>)
    ensures Keys(Group(records)) == Dedup(Dates(records))
  {
    if records != [] {
      var init, r := records[..|records| - 1], records[|records| - 1];
      GroupDates(init);
      PlaceShape(Group(init), r, Date(r));
      DedupSnoc(Dates(init), Date(r));
    }
  }

  /** The start times of each date are listed in order of first occurrence on that date. */
  lemma {:induction false} GroupTimes(records: seq<Record>, date: string)
    ensures Keys(GetOr(Group(records), date, [])) == Dedup(TimesOn(records, date))
  {
    if records != [] {
      var init, r := records[..|records| - 1], records[|records| - 1];
      GroupTimes(init, date);
      assert Group(records) == Place(Group(init), r);
      PlaceShape(Group(init), r, date);
      if Date(r) == date {
        assert TimesOn(records, date) == TimesOn(init, date) + [Time(r)];
        DedupSnoc(TimesOn(init, date), Time(r));
        DedupMember(TimesOn(init, date), Time(r));
      } else {
        assert TimesOn(records, date) == TimesOn(init, date);
      }
    }
  }

  /** The position of the first record that falls in the given slot, if any. */
  function FirstInSlot(records: seq<Record>, slot: (string, string, string)): (k: Option<nat>)
    ensures k.Some? ==> k.value < |records| && Slot(records[k.value]) == slot
    ensures k.Some? ==> forall j :: 0 <= j < k.value ==> Slot(records[j]) != slot
    ensures k.None? ==> forall j :: 0 <= j < |records| ==> Slot(records[j]) != slot
  {
    if records == [] then None
    else
      var first := FirstInSlot(records[..|records| - 1], slot);
      if first.Some? then first
      else if Slot(records[|records| - 1]) == slot then Some(|records| - 1)
      else None
  }

  lemma PlaceLookup(g: Grouped, r: Record, date: string, time: string, room: string)
    ensures Lookup(Place(g, r), date, time, room) ==
      if Lookup(g, date, time, room).None? && Slot(r) == (date, time, room) then Some(r)
      else Lookup(g, date, time, room)
  {
    var d, t := Date(r), Time(r);
    var day := GetOr(g, d, []);
    var slots := GetOr(day, t, []);
    if Room(r) !in Keys(slots) {
      var slots' := Put(slots, Room(r), r);
      var day' := Put(day, t, slots');
      GetOrPut(g, d, day', date, []);
      if date == d {
        GetOrPut(day, t, slots', time, []);
        if time == t {
          GetPut(slots, Room(r), r, room);
        }
      }
    }
  }

  /**
   * Every slot that some session falls in is filled, and it holds the first
   * session in `records` that falls in it; no other slot is filled.
   */
  lemma {:induction false} GroupLookup(records: seq<Record>, date: string, time: string, room: string)
    ensures Lookup(Group(records), date, time, room) ==
      match FirstInSlot(records, (date, time, room))
      case Some(k) => Some(records[k])
      case None => None
  {
    if records != [] {
      var init, r := records[..|records| - 1], records[|records| - 1];
      GroupLookup(init, date, time, room);
      PlaceLookup(Group(init), r, date, time, room);
    }
  }

  /** A later session for a slot that is already taken leaves the grouping unchanged. */
  lemma Collision(records: seq<Record>, earlier: Record, r: Record)
    requires earlier in records && Slot(earlier) == Slot(r)
    ensures Group(records + [r]) == Group(records)
  {
    GroupLookup(records, Date(r), Time(r), Room(r));
    assert (records + [r])[..|records|] == records;
  }
}
