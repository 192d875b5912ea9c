/**
 * `group_data_by_day` and `group_data_by_room` of scrape.py, which the frab
 * export uses to nest sessions into days and rooms.
 */
module Grouping {
  import opened Common
  import opened Dicts
  import opened Sessions

  function Date(s: Session): string
  {
    s.start.date
  }

  /** `groups[-1].append(x)`. */
  function AppendToLast<T>(groups: seq<seq<T>>, x: T): (r: seq<seq<T>>)
    requires groups != []
    ensures |r| == |groups| && r[..|r| - 1] == groups[..|groups| - 1]
    ensures r[|r| - 1] == groups[|groups| - 1] + [x]
  {
    groups[..|groups| - 1] + [groups[|groups| - 1] + [x]]
  }

  lemma AppendToEmptyLast<T>(groups: seq<seq<T>>, x: T)
    ensures AppendToLast(groups + [[]], x) == groups + [[x]]
  {
    var g := groups + [[]];
    assert g[..|g| - 1] == groups;
    assert g[|g| - 1] + [x] == [x];
  }

  /**
   * The day groups, one session at a time: a session opens a new group
   * unless its date equals that of the session before it.
   */
  function DayGroups(data: seq<Session>): (groups: seq<seq<Session>>)
    ensures data != [] <==> groups != []
  {
    if data == [] then []
    else
      var init, x := data[..|data| - 1], data[|data| - 1];
      var groups := DayGroups(init);
      if init != [] && Date(init[|init| - 1]) == Date(x) then AppendToLast(groups, x)
      else groups + [[x]]
  }

  /**
   * `groups` cuts `data` into runs: read in order the groups give back
   * `data`, each group is non-empty and has a single date, and neighbouring
   * groups have different dates.
   */
  predicate IsDayPartition(data: seq<Session>, groups: seq<seq<Session>>)
  {
    && Flatten(groups) == data
    && (forall k :: 0 <= k < |groups| ==> groups[k] != [])
    && (forall k, j :: 0 <= k < |groups| && 0 <= j < |groups[k]| ==> Date(groups[k][j]) == Date(groups[k][0]))
    && (forall k :: 0 <= k < |groups| - 1 ==> Date(groups[k][0]) != Date(groups[k + 1][0]))
  }

  lemma FlattenAppendToLast<T>(groups: seq<seq<T>>, x: T)
    requires groups != []
    ensures Flatten(AppendToLast(groups, x)) == Flatten(groups) + [x]
  {
    var n := |groups|;
    var front, last := groups[..n - 1], groups[n - 1];
    assert groups == front + [last];
    assert AppendToLast(groups, x) == front + [last + [x]];
    FlattenSnoc(front, last);
    FlattenSnoc(front, last + [x]);
  }

  /** The last group of a partition ends with the last session. */
  lemma LastOfPartition(data: seq<Session>, groups: seq<seq<Session>>)
    requires IsDayPartition(data, groups) && groups != []
    ensures data != [] && Date(data[|data| - 1]) == Date(groups[|groups| - 1][0])
  {
    var n := |groups|;
    assert groups == groups[..n - 1] + [groups[n - 1]];
    FlattenSnoc(groups[..n - 1], groups[n - 1]);
    var last := groups[n - 1];
    assert data[|data| - 1] == last[|last| - 1];
  }

  /** A session with the date of the last one extends the last group. */
  lemma PartitionExtendLast(data: seq<Session>, groups: seq<seq<Session>>, x: Session)
    requires IsDayPartition(data, groups) && groups != []
    requires Date(x) == Date(groups[|groups| - 1][0])
    ensures IsDayPartition(data + [x], AppendToLast(groups, x))
  {
    var r := AppendToLast(groups, x);
    FlattenAppendToLast(groups, x);
    forall k, j | 0 <= k < |r| && 0 <= j < |r[k]| ensures Date(r[k][j]) == Date(r[k][0]) {
      if k < |r| - 1 {
        assert r[k] == groups[k];
      }
    }
    forall k | 0 <= k < |r| - 1 ensures Date(r[k][0]) != Date(r[k + 1][0]) {
      assert r[k] == groups[k];
      assert r[k + 1][0] == groups[k + 1][0];
    }
  }

  /** A session with another date than the last one starts a new group. */
  lemma PartitionNewGroup(data: seq<Session>, groups: seq<seq<Session>>, x: Session)
    requires IsDayPartition(data, groups)
    requires groups != [] ==> Date(x) != Date(groups[|groups| - 1][0])
    ensures IsDayPartition(data + [x], groups + [[x]])
  {
    var r := groups + [[x]];
    FlattenSnoc(groups, [x]);
    forall k, j | 0 <= k < |r| && 0 <= j < |r[k]| ensures Date(r[k][j]) == Date(r[k][0]) {
      if k < |r| - 1 {
        assert r[k] == groups[k];
      }
    }
    forall k | 0 <= k < |r| - 1 ensures Date(r[k][0]) != Date(r[k + 1][0]) {
      assert r[k] == groups[k];
    }
  }

  /** `DayGroups` is such a partition. */
  lemma {:induction false} DayGroupsPartition(data: seq<Session>)
    ensures IsDayPartition(data, DayGroups(data))
  {
    if data != [] {
      var init, x := data[..|data| - 1], data[|data| - 1];
      assert data == init + [x];
      DayGroupsPartition(init);
      var groups := DayGroups(init);
      if groups != [] {
        LastOfPartition(init, groups);
      }
      if init != [] && Date(init[|init| - 1]) == Date(x) {
        PartitionExtendLast(init, groups, x);
      } else {
        PartitionNewGroup(init, groups, x);
      }
    }
  }

  /** Dropping a one-session last group leaves a partition of the rest. */
  lemma PartitionDropGroup(data: seq<Session>, front: seq<seq<Session>>, x: Session)
    requires IsDayPartition(data + [x], front + [[x]])
    ensures IsDayPartition(data, front)
    ensures front != [] ==> Date(front[|front| - 1][0]) != Date(x)
  {
    var groups := front + [[x]];
    FlattenSnoc(front, [x]);
    assert Flatten(front) + [x] == data + [x];
    assert Flatten(front) == (data + [x])[..|data|];
    forall k | 0 <= k < |front| ensures front[k] == groups[k] && front[k] != [] {
      assert front[k] == groups[k];
    }
    forall k | 0 <= k < |front| - 1 ensures Date(front[k][0]) != Date(front[k + 1][0]) {
      assert front[k] == groups[k] && front[k + 1] == groups[k + 1];
    }
    if front != [] {
      assert groups[|front| - 1] == front[|front| - 1] && groups[|front|] == [x];
    }
  }

  /** Dropping the last session of a longer last group leaves a partition of the rest. */
  lemma PartitionDropLast(data: seq<Session>, front: seq<seq<Session>>, last: seq<Session>, x: Session)
    requires IsDayPartition(data + [x], front + [last + [x]]) && last != []
    ensures IsDayPartition(data, front + [last])
    ensures Date(last[0]) == Date(x)
  {
    DropLastFlatten(data, front, last, x);
    DropLastGroups(data, front, last, x);
  }

  lemma DropLastFlatten(data: seq<Session>, front: seq<seq<Session>>, last: seq<Session>, x: Session)
    requires Flatten(front + [last + [x]]) == data + [x]
    ensures Flatten(front + [last]) == data
  {
    FlattenSnoc(front, last + [x]);
    FlattenSnoc(front, last);
    assert Flatten(front) + last + [x] == data + [x];
    assert Flatten(front + [last]) == (data + [x])[..|data|];
  }

  lemma DropLastGroups(data: seq<Session>, front: seq<seq<Session>>, last: seq<Session>, x: Session)
    requires IsDayPartition(data + [x], front + [last + [x]]) && last != []
    ensures forall k :: 0 <= k < |front + [last]| ==> (front + [last])[k] != []
    ensures var shorter := front + [last];
      forall k, j :: 0 <= k < |shorter| && 0 <= j < |shorter[k]| ==> Date(shorter[k][j]) == Date(shorter[k][0])
    ensures var shorter := front + [last];
      forall k :: 0 <= k < |shorter| - 1 ==> Date(shorter[k][0]) != Date(shorter[k + 1][0])
    ensures Date(last[0]) == Date(x)
  {
    var groups := front + [last + [x]];
    var shorter := front + [last];
    forall k | 0 <= k < |shorter| ensures shorter[k] != [] {
      if k < |front| {
        assert shorter[k] == groups[k];
      }
    }
    forall k, j | 0 <= k < |shorter| && 0 <= j < |shorter[k]| ensures Date(shorter[k][j]) == Date(shorter[k][0]) {
      if k < |front| {
        assert shorter[k] == groups[k];
      } else {
        assert shorter[k][j] == groups[k][j] && shorter[k][0] == groups[k][0];
      }
    }
    forall k | 0 <= k < |shorter| - 1 ensures Date(shorter[k][0]) != Date(shorter[k + 1][0]) {
      assert shorter[k] == groups[k];
      assert shorter[k + 1][0] == groups[k + 1][0];
    }
    assert groups[|front|] == last + [x];
    assert Date(groups[|front|][|last|]) == Date(groups[|front|][0]);
  }

  /** The last group of a partition ends with the last session. */
  lemma SplitLastGroup(data: seq<Session>, groups: seq<seq<Session>>)
    requires IsDayPartition(data, groups) && groups != []
    ensures var last := groups[|groups| - 1];
      && data != [] && last != []
      && groups == groups[..|groups| - 1] + [last]
      && data == data[..|data| - 1] + [data[|data| - 1]]
      && last == last[..|last| - 1] + [data[|data| - 1]]
      && Flatten(groups[..|groups| - 1]) + last == data
  {
    var n := |groups|;
    var front, last := groups[..n - 1], groups[n - 1];
    assert groups == front + [last];
    FlattenSnoc(front, last);
    assert last != [];
    assert data[|data| - 1] == last[|last| - 1];
  }

  /** One more session either extends the last day group or opens a new one. */
  lemma DayGroupsSnoc(init: seq<Session>, x: Session)
    ensures DayGroups(init + [x]) ==
      if init != [] && Date(init[|init| - 1]) == Date(x) then AppendToLast(DayGroups(init), x)
      else DayGroups(init) + [[x]]
  {
    assert (init + [x])[..|init|] == init;
  }

  /** The step of `DayPartitionUnique` where the last session is a day of its own. */
  lemma UniqueNewGroup(init: seq<Session>, front: seq<seq<Session>>, x: Session)
    requires front == DayGroups(init)
    requires front != [] ==> Date(front[|front| - 1][0]) != Date(x)
    requires init != [] ==> front != [] && Date(init[|init| - 1]) == Date(front[|front| - 1][0])
    ensures DayGroups(init + [x]) == front + [[x]]
  {
    DayGroupsSnoc(init, x);
  }

  /** The step of `DayPartitionUnique` where the last session joins the last day. */
  lemma UniqueExtendGroup(init: seq<Session>, front: seq<seq<Session>>, lastInit: seq<Session>, x: Session)
    requires front + [lastInit] == DayGroups(init) && lastInit != []
    requires init != [] && Date(init[|init| - 1]) == Date(lastInit[0]) == Date(x)
    ensures DayGroups(init + [x]) == front + [lastInit + [x]]
  {
    DayGroupsSnoc(init, x);
    var shorter := front + [lastInit];
    assert shorter[..|shorter| - 1] == front;
  }

  /** The groups are the only such partition: the conditions pin the grouping down. */
  lemma {:induction false} DayPartitionUnique(data: seq<Session>, groups: seq<seq<Session>>)
    requires IsDayPartition(data, groups)
    ensures groups == DayGroups(data)
    decreases |data|
  {
    if groups == [] {
      assert data == [];
    } else {
      SplitLastGroup(data, groups);
      var n := |groups|;
      var front, last := groups[..n - 1], groups[n - 1];
      var init, x := data[..|data| - 1], data[|data| - 1];
      var lastInit := last[..|last| - 1];
      if lastInit == [] {
        assert last == [x];
        PartitionDropGroup(init, front, x);
        DayPartitionUnique(init, front);
        if init != [] {
          LastOfPartition(init, front);
        }
        UniqueNewGroup(init, front, x);
      } else {
        PartitionDropLast(init, front, lastInit, x);
        DayPartitionUnique(init, front + [lastInit]);
        LastOfPartition(init, front + [lastInit]);
        UniqueExtendGroup(init, front, lastInit, x);
      }
    }
  }

  /** `group_data_by_day(data)` (scrape.py:193-202). */
  method GroupDataByDay(data: seq<Session>) returns (dayGroups: seq<seq<Session>>)
    ensures dayGroups == DayGroups(data)
  {
    dayGroups := [];
    var currentDay: Option<string> := None;
    for i := 0 to |data|
      invariant dayGroups == DayGroups(data[..i])
      invariant currentDay == if i == 0 then None else Some(Date(data[i - 1]))
    {
      var session := data[i];
      ghost var before := dayGroups;
      assert data[..i + 1][..i] == data[..i] && data[..i + 1][i] == session;
      if Some(Date(session)) != currentDay {
        currentDay := Some(Date(session));
        dayGroups := dayGroups + [[]];
        AppendToEmptyLast(before, session);
      }
      dayGroups := AppendToLast(dayGroups, session);
    }
    assert data[..|data|] == data;
  }

  function Rooms(data: seq<Session>): (rooms: seq<string>)
    ensures |rooms| == |data| && forall i :: 0 <= i < |data| ==> rooms[i] == data[i].room
  {
    seq(|data|, i requires 0 <= i < |data| => data[i].room)
  }

  /** The sessions in `room`, in input order. */
  function InRoom(data: seq<Session>, room: string): (r: seq<Session>)
    ensures forall i :: 0 <= i < |r| ==> r[i].room == room && r[i] in data
  {
    if data == [] then []
    else
      var init, x := data[..|data| - 1], data[|data| - 1];
      InRoom(init, room) + if x.room == room then [x] else []
  }

  /** One step of the room grouping: a new room gets an empty list, then the session is appended to its room's list. */
  function AddToRoom(groups: Dict<string, seq<Session>>, x: Session): Dict<string, seq<Session>>
  {
    var ready := if x.room in Keys(groups) then groups else Put(groups, x.room, []);
    Put(ready, x.room, Get(ready, x.room).value + [x])
  }

  lemma AddToRoomGet(groups: Dict<string, seq<Session>>, x: Session, room: string)
    ensures Get(AddToRoom(groups, x), room) == if room == x.room then Some(GetOr(groups, x.room, []) + [x]) else Get(groups, room)
  {
    var ready := if x.room in Keys(groups) then groups else Put(groups, x.room, []);
    if x.room !in Keys(groups) {
      GetPut(groups, x.room, [], room);
      GetPut(groups, x.room, [], x.room);
    }
    GetPut(ready, x.room, Get(ready, x.room).value + [x], room);
  }

  /** The room groups, one session at a time. */
  function RoomGroups(data: seq<Session>): Dict<string, seq<Session>>
  {
    if data == [] then [] else AddToRoom(RoomGroups(data[..|data| - 1]), data[|data| - 1])
  }

  lemma {:induction false} InRoomAbsent(data: seq<Session>, room: string)
    requires room !in Rooms(data)
    ensures InRoom(data, room) == []
  {
    if data != [] {
      var init := data[..|data| - 1];
      assert Rooms(init) == Rooms(data)[..|init|];
      InRoomAbsent(init, room);
    }
  }

  /** The rooms are listed in order of first occurrence. */
  lemma {:induction false} RoomGroupsKeys(data: seq<Session>)
    ensures Keys(RoomGroups(data)) == Dedup(Rooms(data))
  {
    if data != [] {
      var init, x := data[..|data| - 1], data[|data| - 1];
      RoomGroupsKeys(init);
      RoomsSnoc(data);
      DedupSnoc(Rooms(init), x.room);
      KeysAddToRoom(RoomGroups(init), x);
    }
  }

  lemma KeysAddToRoom(groups: Dict<string, seq<Session>>, x: Session)
    ensures Keys(AddToRoom(groups, x)) == if x.room in Keys(groups) then Keys(groups) else Keys(groups) + [x.room]
  {
  }

  lemma RoomsSnoc(data: seq<Session>)
    requires data != []
    ensures Rooms(data) == Rooms(data[..|data| - 1]) + [data[|data| - 1].room]
  {
  }

  /** What `RoomGroupsAt` states, for one prefix and one room. */
  predicate RoomListIsFilter(data: seq<Session>, room: string)
  {
    Get(RoomGroups(data), room) == if room in Rooms(data) then Some(InRoom(data, room)) else None
  }

  lemma AddOtherRoom(data: seq<Session>, room: string)
    requires data != [] && room != data[|data| - 1].room
    requires RoomListIsFilter(data[..|data| - 1], room)
    ensures RoomListIsFilter(data, room)
  {
    var init, x := data[..|data| - 1], data[|data| - 1];
    RoomsSnoc(data);
    assert RoomGroups(data) == AddToRoom(RoomGroups(init), x);
    assert InRoom(data, room) == InRoom(init, room);
    AddToRoomGet(RoomGroups(init), x, room);
  }

  lemma AddSameRoom(data: seq<Session>)
    requires data != []
    requires RoomListIsFilter(data[..|data| - 1], data[|data| - 1].room)
    ensures RoomListIsFilter(data, data[|data| - 1].room)
  {
    var init, x := data[..|data| - 1], data[|data| - 1];
    RoomsSnoc(data);
    assert RoomGroups(data) == AddToRoom(RoomGroups(init), x);
    assert InRoom(data, x.room) == InRoom(init, x.room) + [x];
    AddToRoomGet(RoomGroups(init), x, x.room);
    if x.room !in Rooms(init) {
      InRoomAbsent(init, x.room);
    }
  }

  /** Each room's list is exactly the input restricted to that room, in input order; other rooms are absent. */
  lemma {:induction false} RoomGroupsAt(data: seq<Session>, room: string)
    ensures Get(RoomGroups(data), room) == if room in Rooms(data) then Some(InRoom(data, room)) else None
  {
    if data != [] {
      RoomGroupsAt(data[..|data| - 1], room);
      if room == data[|data| - 1].room {
        AddSameRoom(data);
      } else {
        AddOtherRoom(data, room);
      }
    }
  }

  /** The room lists in closed form: each room in order of first appearance, with its sessions in input order. */
  function RoomLists(data: seq<Session>): Dict<string, seq<Session>>
  {
    var rs := Dedup(Rooms(data));
    seq(|rs|, j requires 0 <= j < |rs| => (rs[j], InRoom(data, rs[j])))
  }

  /** The grouping built one session at a time is the closed form. */
  lemma RoomGroupsIsRoomLists(data: seq<Session>)
    ensures RoomGroups(data) == RoomLists(data)
  {
    var d, lists := RoomGroups(data), RoomLists(data);
    RoomGroupsKeys(data);
    assert |lists| == |Dedup(Rooms(data))|;
    forall j | 0 <= j < |d| ensures d[j] == lists[j] {
      var room := d[j].0;
      FirstIndexIs(Keys(d), room, j);
      RoomGroupsAt(data, room);
    }
  }

  /** Every session lands in exactly one list, so the list lengths add up to the input length. */
  function TotalSize<K, T>(d: Dict<K, seq<T>>): nat
  {
    if d == [] then 0 else |d[0].1| + TotalSize(d[1..])
  }

  lemma {:induction false} TotalSizeUpdate<K, T>(d: Dict<K, seq<T>>, i: nat, k: K, v: seq<T>)
    requires i < |d|
    ensures TotalSize(d[i := (k, v)]) + |d[i].1| == TotalSize(d) + |v|
  {
    if i > 0 {
      TotalSizeUpdate(d[1..], i - 1, k, v);
      assert d[i := (k, v)][1..] == d[1..][i - 1 := (k, v)];
    }
  }

  lemma {:induction false} TotalSizeSnoc<K, T>(d: Dict<K, seq<T>>, k: K, v: seq<T>)
    ensures TotalSize(d + [(k, v)]) == TotalSize(d) + |v|
  {
    if d != [] {
      assert (d + [(k, v)])[1..] == d[1..] + [(k, v)];
      TotalSizeSnoc(d[1..], k, v);
    }
  }

  lemma TotalSizePut<K, T>(d: Dict<K, seq<T>>, k: K, v: seq<T>)
    ensures TotalSize(Put(d, k, v)) == TotalSize(d) + |v| - if k in Keys(d) then |Get(d, k).value| else 0
  {
    if k in Keys(d) {
      TotalSizeUpdate(d, FirstIndex(Keys(d), k), k, v);
    } else {
      TotalSizeSnoc(d, k, v);
    }
  }

  lemma {:induction false} RoomGroupsSize(data: seq<Session>)
    ensures TotalSize(RoomGroups(data)) == |data|
  {
    if data != [] {
      var init, x := data[..|data| - 1], data[|data| - 1];
      RoomGroupsSize(init);
      var groups := RoomGroups(init);
      var ready := if x.room in Keys(groups) then groups else Put(groups, x.room, []);
      if x.room !in Keys(groups) {
        TotalSizePut(groups, x.room, []);
        GetPut(groups, x.room, [], x.room);
      }
      TotalSizePut(ready, x.room, Get(ready, x.room).value + [x]);
      assert RoomGroups(data) == Put(ready, x.room, Get(ready, x.room).value + [x]);
    }
  }

  /** `group_data_by_room(data)` (scrape.py:205-212). */
  method GroupDataByRoom(data: seq<Session>) returns (roomGroups: Dict<string, seq<Session>>)
    ensures roomGroups == RoomGroups(data)
  {
    roomGroups := [];
    for i := 0 to |data|
      invariant roomGroups == RoomGroups(data[..i])
    {
      var session := data[i];
      assert data[..i + 1][..i] == data[..i];
      var room := session.room;
      if room !in Keys(roomGroups) {
        roomGroups := Put(roomGroups, room, []);
      }
      roomGroups := Put(roomGroups, room, Get(roomGroups, room).value + [session]);
    }
    assert data[..|data|] == data;
  }
}
