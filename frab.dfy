/**
 * The frab-style schedule that `save_json_frab` writes (scrape.py:135-190):
 * the sessions cut into days by start date, each day's sessions grouped by
 * room in order of first appearance, and every session reshaped into an
 * event dict.
 */
module Frab {
  import opened Common
  import opened Dicts
  import opened Text
  import Sessions
  import Grouping
  import Export

  type Session = Sessions.Session
  type Record = Export.Record

  /** One entry of `conference.days`; `day_end` is not modelled. */
  datatype Day = Day(index: int, date: string, dayStart: string, rooms: Dict<string, seq<Record>>)

  datatype Conference = Conference(
    acronym: string, title: string, start: string, end: string, daysCount: int,
    timeslotDuration: string, timeZoneName: string, days: seq<Day>)

  datatype Schedule = Schedule(version: string, baseUrl: string, conference: Conference)

  // ----- the version: output_file.split('/')[1].split('.')[0] -------------

  /** The schedule's `version`; a path without '/' has no second piece. */
  function Version(outputFile: string): (r: Result<string, string>)
    ensures r.Failure? <==> '/' !in outputFile
    ensures r.Success? ==> '.' !in r.value
  {
    var parts := Split(outputFile, '/');
    if |parts| < 2 then Failure("IndexError: list index out of range")
    else Success(Split(parts[1], '.')[0])
  }

  /** For a path `dir/name.ext` the version is `name`. */
  lemma VersionOfPath(dir: string, name: string, ext: string)
    requires '/' !in dir && '/' !in name && '/' !in ext && '.' !in name
    requires ext == [] || ext[0] == '.'
    ensures Version(dir + "/" + name + ext) == Success(name)
  {
    assert dir + "/" + name + ext == dir + ['/'] + (name + ext);
    SplitTwo(dir, name + ext, '/');
    SplitHead(name, ext, '.');
  }

  // ----- one day --------------------------------------------------------------

  /**
   * The position of `min(session["start_datetime"] ...)`: the earliest start,
   * and of several equal ones the first, as `min` keeps the first minimum.
   */
  function EarliestIndex(group: seq<Session>): (i: nat)
    requires group != []
    ensures i < |group|
    ensures forall j :: 0 <= j < |group| ==> group[i].start.instant <= group[j].start.instant
    ensures forall j :: 0 <= j < i ==> group[j].start.instant > group[i].start.instant
  {
    if |group| == 1 then 0
    else
      var k := 1 + EarliestIndex(group[1..]);
      if group[k].start.instant < group[0].start.instant then k else 0
  }

  /**
   * The event dict of one session (scrape.py:163-177), in the closed form
   * that `EventIsReshaped` shows the reshaping of its session dict to have.
   */
  function Event(s: Session): Record
  {
    Export.Of(s, Export.EventKeys)
  }

  /** The event is the session dict after the steps of scrape.py:163-176. */
  lemma EventIsReshaped(s: Session)
    ensures Export.Reshape(Export.Fields(s)) == Event(s)
  {
    Export.ReshapeIs(s);
  }

  /** `room_sessions`: the events of one room's sessions, in order. */
  function Events(room: seq<Session>): (events: seq<Record>)
    ensures |events| == |room|
  {
    if room == [] then [] else Events(room[..|room| - 1]) + [Event(room[|room| - 1])]
  }

  /** The `rooms` dict of a day: each room's session list replaced by its events. */
  function FrabRooms(groups: Dict<string, seq<Session>>): Dict<string, seq<Record>>
  {
    seq(|groups|, i requires 0 <= i < |groups| => (groups[i].0, Events(groups[i].1)))
  }

  /** The rooms keep their order. */
  lemma FrabRoomsKeys(groups: Dict<string, seq<Session>>)
    ensures Keys(FrabRooms(groups)) == Keys(groups)
  {
  }

  /** The `index`, `date` and `day_start` of the day numbered `index` (scrape.py:152-153, 179-182). */
  predicate DayHeaderOf(day: Day, index: int, group: seq<Session>)
    requires group != []
  {
    var first := group[EarliestIndex(group)];
    day.index == index && day.date == first.start.date && day.dayStart == first.start.time
  }

  /** The `rooms` of a day (scrape.py:154-178): each room of the group in order of first appearance, with its events. */
  function DayRoomsOf(group: seq<Session>): Dict<string, seq<Record>>
  {
    FrabRooms(Grouping.RoomLists(group))
  }

  /** The schedule dict of scrape.py:137-151 around the list of days. */
  function ScheduleWith(version: string, data: seq<Session>, days: seq<Day>): Schedule
    requires data != []
  {
    Schedule(version, Sessions.BaseUrl + "/", Conference(
      "rp23", "re:publica 2023", data[0].start.date, data[|data| - 1].end.date, |days|,
      "00:15", "Europe/Berlin", days))
  }

  /**
   * `schedule` is the schedule dict of scrape.py:137-186 for `data`: one
   * day per day group, numbered from 1.
   */
  predicate IsFrabSchedule(version: string, data: seq<Session>, schedule: Schedule)
  {
    Grouping.DayGroupsPartition(data);
    var groups := Grouping.DayGroups(data);
    var days := schedule.conference.days;
    && data != []
    && schedule == ScheduleWith(version, data, days)
    && DaysFor(days, groups)
  }

  lemma GetFrabRooms(groups: Dict<string, seq<Session>>, room: string)
    ensures Get(FrabRooms(groups), room) == if room in Keys(groups) then Some(Events(Get(groups, room).value)) else None
  {
    FrabRoomsKeys(groups);
    if room in Keys(groups) {
      var i := FirstIndex(Keys(groups), room);
      assert FirstIndex(Keys(FrabRooms(groups)), room) == i;
    }
  }

  lemma FrabRoomsSnoc(groups: Dict<string, seq<Session>>, j: nat)
    requires j < |groups|
    ensures FrabRooms(groups[..j + 1]) == FrabRooms(groups[..j]) + [(groups[j].0, Events(groups[j].1))]
  {
  }

  /** A room that comes after the first `j` rooms is not among them. */
  lemma NextRoomIsNew(groups: Dict<string, seq<Session>>, j: nat)
    requires Distinct(Keys(groups)) && j < |groups|
    ensures groups[j].0 !in Keys(FrabRooms(groups[..j]))
  {
    FrabRoomsKeys(groups[..j]);
    forall p | 0 <= p < j ensures Keys(groups[..j])[p] != groups[j].0 {
      assert Keys(groups)[p] == groups[p].0;
    }
  }

  /** `rooms[room] = room_sessions` for a room not yet stored appends it. */
  lemma PutFrabRoomsNext(groups: Dict<string, seq<Session>>, j: nat)
    requires Distinct(Keys(groups)) && j < |groups|
    ensures Put(FrabRooms(groups[..j]), groups[j].0, Events(groups[j].1)) == FrabRooms(groups[..j + 1])
  {
    NextRoomIsNew(groups, j);
    FrabRoomsSnoc(groups, j);
  }

  /** The inner loop of scrape.py:157-177: one room's events. */
  method RoomSessions(roomData: seq<Session>) returns (roomSessions: seq<Record>)
    ensures roomSessions == Events(roomData)
  {
    roomSessions := [];
    for m := 0 to |roomData|
      invariant roomSessions == Events(roomData[..m])
    {
      assert roomData[..m + 1][..m] == roomData[..m];
      var row := Export.Reshape(Export.Fields(roomData[m]));
      EventIsReshaped(roomData[m]);
      roomSessions := roomSessions + [row];
    }
    assert roomData[..|roomData|] == roomData;
  }

  /** The loop of scrape.py:155-178 over the room groups of one day, which come with distinct rooms. */
  method DayRooms(roomsData: Dict<string, seq<Session>>) returns (rooms: Dict<string, seq<Record>>)
    requires Distinct(Keys(roomsData))
    ensures rooms == FrabRooms(roomsData)
  {
    rooms := [];
    for j := 0 to |roomsData|
      invariant rooms == FrabRooms(roomsData[..j])
    {
      var room := roomsData[j].0;
      var roomSessions := RoomSessions(roomsData[j].1);
      PutFrabRoomsNext(roomsData, j);
      rooms := Put(rooms, room, roomSessions);
    }
    assert roomsData[..|roomsData|] == roomsData;
  }

  /** The body of the loop of scrape.py:152-186 for the day numbered `index`. */
  method DayData(index: int, dayGroup: seq<Session>) returns (day: Day)
    requires dayGroup != []
    ensures DayHeaderOf(day, index, dayGroup) && day.rooms == DayRoomsOf(dayGroup)
  {
    var first := dayGroup[EarliestIndex(dayGroup)];
    var roomsData := Grouping.GroupDataByRoom(dayGroup);
    Grouping.RoomGroupsKeys(dayGroup);
    Grouping.RoomGroupsIsRoomLists(dayGroup);
    var rooms := DayRooms(roomsData);
    day := Day(index, first.start.date, first.start.time, rooms);
  }

  /** `days` holds the days built from the day groups `groups`, numbered from 1. */
  predicate DaysFor(days: seq<Day>, groups: seq<seq<Session>>)
    requires forall k :: 0 <= k < |groups| ==> groups[k] != []
  {
    && |days| == |groups|
    && (forall i {:trigger days[i]} :: 0 <= i < |groups| ==> DayHeaderOf(days[i], i + 1, groups[i]))
    && (forall i {:trigger days[i].rooms} :: 0 <= i < |groups| ==> days[i].rooms == DayRoomsOf(groups[i]))
  }

  lemma DaysForSnoc(days: seq<Day>, groups: seq<seq<Session>>, day: Day, k: nat)
    requires k < |groups| && forall g :: 0 <= g < |groups| ==> groups[g] != []
    requires DaysFor(days, groups[..k])
    requires DayHeaderOf(day, k + 1, groups[k]) && day.rooms == DayRoomsOf(groups[k])
    ensures DaysFor(days + [day], groups[..k + 1])
  {
    var next, gs := days + [day], groups[..k + 1];
    forall i | 0 <= i < k + 1 ensures DayHeaderOf(next[i], i + 1, gs[i]) && next[i].rooms == DayRoomsOf(gs[i]) {
      if i < k {
        assert next[i] == days[i] && gs[i] == groups[..k][i];
      } else {
        assert next[i] == day && gs[i] == groups[k];
      }
    }
  }

  /** The loop of scrape.py:152-186 over the day groups, numbered from 1 as `enumerate(..., start=1)` does. */
  method DaysData(dayGroups: seq<seq<Session>>) returns (days: seq<Day>)
    requires forall k :: 0 <= k < |dayGroups| ==> dayGroups[k] != []
    ensures DaysFor(days, dayGroups)
  {
    days := [];
    for k := 0 to |dayGroups|
      invariant DaysFor(days, dayGroups[..k])
    {
      var day := DayData(k + 1, dayGroups[k]);
      DaysForSnoc(days, dayGroups, day, k);
      days := days + [day];
    }
    assert dayGroups[..|dayGroups|] == dayGroups;
  }

  /**
   * `save_json_frab` up to the JSON writer. The version is read from the
   * output path before `data[0]` is, so both a path without '/' and an empty
   * session list fail.
   */
  method SaveJsonFrab(outputFile: string, data: seq<Session>) returns (r: Result<Schedule, string>)
    ensures r.Failure? <==> '/' !in outputFile || data == []
    ensures r.Success? ==> IsFrabSchedule(Version(outputFile).value, data, r.value)
  {
    var version := Version(outputFile);
    if version.Failure? {
      return Failure(version.error);
    }
    if |data| == 0 {
      return Failure("IndexError: list index out of range");
    }
    var dayGroups := Grouping.GroupDataByDay(data);
    Grouping.DayGroupsPartition(data);
    var days := DaysData(dayGroups);
    return Success(ScheduleWith(version.value, data, days));
  }

  // ----- what the schedule holds ----------------------------------------------

  /**
   * `daysCount` is the number of days listed, one per run of sessions with
   * the same start date, and the days are numbered 1, 2, ... in order.
   */
  lemma DaysCountAndIndex(version: string, data: seq<Session>, schedule: Schedule)
    requires IsFrabSchedule(version, data, schedule)
    ensures var c := schedule.conference;
      && c.daysCount == |c.days| == |Grouping.DayGroups(data)|
      && forall i :: 0 <= i < |c.days| ==> c.days[i].index == i + 1
  {
  }

  /**
   * A day's `date` is the start date of every session of its group, and its
   * `day_start` is the start time of a session of the group that starts no
   * later than any other.
   */
  lemma DayDateAndStart(version: string, data: seq<Session>, schedule: Schedule, i: nat)
    requires IsFrabSchedule(version, data, schedule) && i < |Grouping.DayGroups(data)|
    ensures var day := schedule.conference.days[i];
      var group := Grouping.DayGroups(data)[i];
      && (forall j :: 0 <= j < |group| ==> Grouping.Date(group[j]) == day.date)
      && exists j :: 0 <= j < |group| && group[j].start.time == day.dayStart
           && forall k :: 0 <= k < |group| ==> group[j].start.instant <= group[k].start.instant
  {
    Grouping.DayGroupsPartition(data);
    var group := Grouping.DayGroups(data)[i];
    var e := EarliestIndex(group);
    assert Grouping.Date(group[e]) == Grouping.Date(group[0]);
  }

  /** Neighbouring days have different dates. */
  lemma NeighbourDaysDiffer(version: string, data: seq<Session>, schedule: Schedule, i: nat)
    requires IsFrabSchedule(version, data, schedule) && i + 1 < |Grouping.DayGroups(data)|
    ensures schedule.conference.days[i].date != schedule.conference.days[i + 1].date
  {
    DayDateAndStart(version, data, schedule, i);
    DayDateAndStart(version, data, schedule, i + 1);
    Grouping.DayGroupsPartition(data);
    var groups := Grouping.DayGroups(data);
    assert Grouping.Date(groups[i][0]) != Grouping.Date(groups[i + 1][0]);
  }

  /** Each event is the reshaped dict of the session in the same position. */
  lemma {:induction false} EventsAt(room: seq<Session>, j: nat)
    requires j < |room|
    ensures Events(room)[j] == Event(room[j])
    decreases |room|
  {
    var init := room[..|room| - 1];
    if j < |init| {
      EventsAt(init, j);
      assert room[j] == init[j];
    }
  }

  /** The rooms of a day are listed in order of their first session in the day. */
  lemma DayRoomsKeys(group: seq<Session>)
    ensures Keys(DayRoomsOf(group)) == Dedup(Grouping.Rooms(group))
  {
    FrabRoomsKeys(Grouping.RoomLists(group));
    Grouping.RoomGroupsIsRoomLists(group);
    Grouping.RoomGroupsKeys(group);
  }

  /** A room of the day holds the events of exactly the day's sessions in that room, in input order. */
  lemma DayRoomsGet(group: seq<Session>, room: string)
    ensures Get(DayRoomsOf(group), room) ==
      if room in Grouping.Rooms(group) then Some(Events(Grouping.InRoom(group, room))) else None
  {
    var lists := Grouping.RoomLists(group);
    GetFrabRooms(lists, room);
    Grouping.RoomGroupsIsRoomLists(group);
    Grouping.RoomGroupsKeys(group);
    Grouping.RoomGroupsAt(group, room);
    var rooms := Grouping.Rooms(group);
    assert room in Dedup(rooms) <==> room in rooms by {
      if room in rooms {
        var k :| 0 <= k < |rooms| && rooms[k] == room;
      }
    }
  }

  /** The events of a room are as many as its sessions, so a day's rooms hold one event per session of the day. */
  lemma {:induction false} FrabRoomsSize(groups: Dict<string, seq<Session>>)
    ensures Grouping.TotalSize(FrabRooms(groups)) == Grouping.TotalSize(groups)
  {
    if groups != [] {
      FrabRoomsSize(groups[1..]);
      assert FrabRooms(groups)[1..] == FrabRooms(groups[1..]);
    }
  }

  lemma DayRoomsSize(group: seq<Session>)
    ensures Grouping.TotalSize(DayRoomsOf(group)) == |group|
  {
    FrabRoomsSize(Grouping.RoomLists(group));
    Grouping.RoomGroupsIsRoomLists(group);
    Grouping.RoomGroupsSize(group);
  }

  /**
   * In the schedule, day `i` lists the rooms of its sessions in order of
   * first appearance, each with the events of its sessions, and holds one
   * event per session of the day.
   */
  lemma ScheduleDayRooms(version: string, data: seq<Session>, schedule: Schedule, i: nat, room: string)
    requires IsFrabSchedule(version, data, schedule) && i < |Grouping.DayGroups(data)|
    ensures var rooms := schedule.conference.days[i].rooms;
      var group := Grouping.DayGroups(data)[i];
      && Keys(rooms) == Dedup(Grouping.Rooms(group))
      && Get(rooms, room) == (if room in Grouping.Rooms(group) then Some(Events(Grouping.InRoom(group, room))) else None)
      && Grouping.TotalSize(rooms) == |group|
  {
    var group := Grouping.DayGroups(data)[i];
    DayRoomsKeys(group);
    DayRoomsGet(group, room);
    DayRoomsSize(group);
  }
}
