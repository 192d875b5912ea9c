/**
 * The grid builder as a whole (planner.py lines 19-86): filter, collect the
 * rooms, sort, group, and write the rows. The script stops with ValueError
 * at the first date on which one of the rooms has no session.
 */
module GridPlan {
  import opened Common
  import opened Dicts
  import opened StringOrder
  import opened GridInput
  import opened GridGroup
  import opened GridEmit

  /** Every stage with a kept session has a kept session on every date that has one. */
  predicate AllStagesEveryDay(filtered: seq<Record>)
  {
    forall r, s :: r in filtered && s in filtered ==> HasSession(filtered, Date(r), Room(s))
  }

  /** Some session of `records` is on `date` in `room`. */
  predicate HasSession(records: seq<Record>, date: string, room: string)
  {
    exists q :: q in records && Date(q) == date && Room(q) == room
  }

  /** The script from the parsed CSV rows to the rows it writes. */
  method Plan(records: seq<Record>) returns (out: seq<Row>, complete: bool)
    ensures var filtered := FilterRecords(records);
      var rooms, grouped := SortedRooms(filtered), Group(SortByStart(filtered));
      var n := CoveredPrefix(rooms, grouped);
      out == Grid(rooms, grouped[..n]) && (complete <==> n == |grouped|)
  {
    var filtered := FilterRecords(records);
    var rooms := SortedRooms(filtered);
    var sorted := SortByStart(filtered);
    var grouped := GroupBySlot(sorted);
    out, complete := Emit(rooms, grouped);
  }

  /**
   * The script writes every date exactly when each stage that has an
   * interpreted session at all has one on each date that has any.
   */
  lemma PlanCompletes(records: seq<Record>)
    ensures var filtered := FilterRecords(records);
      var rooms, grouped := SortedRooms(filtered), Group(SortByStart(filtered));
      CoveredPrefix(rooms, grouped) == |grouped| <==> AllStagesEveryDay(filtered)
  {
    var filtered := FilterRecords(records);
    var sorted := SortByStart(filtered);
    CoveredPrefixComplete(SortedRooms(filtered), Group(sorted));
    SortByStartSpec(filtered);
    if AllStagesEveryDay(filtered) {
      CoveredWhenAllStages(filtered, sorted);
    }
    if EveryRoomEachDay(SortedRooms(filtered), Group(sorted)) {
      AllStagesWhenCovered(filtered, sorted);
    }
  }

  lemma CoveredWhenAllStages(filtered: seq<Record>, sorted: seq<Record>)
    requires multiset(sorted) == multiset(filtered) && AllStagesEveryDay(filtered)
    ensures EveryRoomEachDay(SortedRooms(filtered), Group(sorted))
  {
    var g, rooms := Group(sorted), SortedRooms(filtered);
    forall i, k | 0 <= i < |g| && 0 <= k < |rooms| ensures SessionsOf(g[i].1, rooms[k]) != [] {
      RoomCoveredAt(filtered, sorted, i, k);
    }
  }

  /** A kept room's session on the `i`-th date, for the sessions in `sorted`. */
  lemma RoomCoveredAt(filtered: seq<Record>, sorted: seq<Record>, i: nat, k: nat)
    requires multiset(sorted) == multiset(filtered) && AllStagesEveryDay(filtered)
    requires i < |Group(sorted)| && k < |SortedRooms(filtered)|
    ensures SessionsOf(Group(sorted)[i].1, SortedRooms(filtered)[k]) != []
  {
    var g, room := Group(sorted), SortedRooms(filtered)[k];
    DateAt(sorted, i);
    var r :| r in sorted && Date(r) == g[i].0;
    assert r in multiset(filtered);
    assert r in filtered;
    var s := RoomSource(filtered, k);
    var q := SameDateAs(filtered, r, s);
    assert q in multiset(sorted);
    RoomOnDateHas(sorted, q);
  }

  lemma SameDateAs(filtered: seq<Record>, r: Record, s: Record) returns (q: Record)
    requires AllStagesEveryDay(filtered) && r in filtered && s in filtered
    ensures q in filtered && Date(q) == Date(r) && Room(q) == Room(s)
  {
    assert HasSession(filtered, Date(r), Room(s));
    q :| q in filtered && Date(q) == Date(r) && Room(q) == Room(s);
  }

  /** Every kept room is the room of some kept session. */
  lemma RoomSource(filtered: seq<Record>, k: nat) returns (s: Record)
    requires k < |SortedRooms(filtered)|
    ensures s in filtered && Room(s) == SortedRooms(filtered)[k]
  {
    SortedSetSpec(RoomsOf(filtered));
    RoomsOfMembers(filtered, SortedRooms(filtered)[k]);
    s :| s in filtered && Room(s) == SortedRooms(filtered)[k];
  }

  lemma AllStagesWhenCovered(filtered: seq<Record>, sorted: seq<Record>)
    requires multiset(sorted) == multiset(filtered)
    requires EveryRoomEachDay(SortedRooms(filtered), Group(sorted))
    ensures AllStagesEveryDay(filtered)
  {
    forall r, s | r in filtered && s in filtered ensures HasSession(filtered, Date(r), Room(s)) {
      SameDateAndRoom(filtered, sorted, r, s);
    }
  }

  /** On the date of a kept session, every kept session's room has a session too. */
  lemma SameDateAndRoom(filtered: seq<Record>, sorted: seq<Record>, r: Record, s: Record)
    requires multiset(sorted) == multiset(filtered)
    requires EveryRoomEachDay(SortedRooms(filtered), Group(sorted))
    requires r in filtered && s in filtered
    ensures HasSession(filtered, Date(r), Room(s))
  {
    var g, rooms := Group(sorted), SortedRooms(filtered);
    assert r in multiset(sorted);
    DateIndex(sorted, r);
    var i :| 0 <= i < |g| && g[i].0 == Date(r);
    DateAt(sorted, i);
    SortedSetSpec(RoomsOf(filtered));
    RoomsOfMembers(filtered, Room(s));
    var k :| 0 <= k < |rooms| && rooms[k] == Room(s);
    assert RoomsOnDay(rooms, g[i].1);
    RoomOnDateFrom(sorted, Date(r), Room(s));
    var q :| q in sorted && Date(q) == Date(r) && Room(q) == Room(s);
    assert q in multiset(filtered);
  }

  lemma {:induction false} DatesMember(records: seq<Record>, date: string)
    ensures date in Dates(records) <==> exists r :: r in records && Date(r) == date
  {
    if records != [] {
      var init := records[..|records| - 1];
      DatesMember(init, date);
      assert records == init + [records[|records| - 1]];
    }
  }

  /** Each date of the grouping comes from a session, and looking it up finds its own times. */
  lemma DateAt(sorted: seq<Record>, i: nat)
    requires i < |Group(sorted)|
    ensures exists r :: r in sorted && Date(r) == Group(sorted)[i].0
    ensures GetOr(Group(sorted), Group(sorted)[i].0, []) == Group(sorted)[i].1
  {
    var g := Group(sorted);
    GroupDates(sorted);
    assert Keys(g)[i] == g[i].0;
    DedupMember(Dates(sorted), g[i].0);
    DatesMember(sorted, g[i].0);
    GetAt(g, i, []);
  }

  /** The date of every session is one of the grouping's dates. */
  lemma DateIndex(sorted: seq<Record>, r: Record)
    requires r in sorted
    ensures exists i :: 0 <= i < |Group(sorted)| && Group(sorted)[i].0 == Date(r)
  {
    var g := Group(sorted);
    GroupDates(sorted);
    DatesMember(sorted, Date(r));
    DedupMember(Dates(sorted), Date(r));
    var i := FirstIndex(Keys(g), Date(r));
    assert g[i].0 == Date(r);
  }

  /** A room has a session on a date of the grouping exactly when some session is in that room on that date. */
  lemma RoomOnDate(sorted: seq<Record>, date: string, room: string)
    ensures SessionsOf(GetOr(Group(sorted), date, []), room) != [] <==> HasSession(sorted, date, room)
  {
    if SessionsOf(GetOr(Group(sorted), date, []), room) != [] {
      RoomOnDateFrom(sorted, date, room);
    }
    if HasSession(sorted, date, room) {
      var q :| q in sorted && Date(q) == date && Room(q) == room;
      RoomOnDateHas(sorted, q);
    }
  }

  lemma RoomOnDateFrom(sorted: seq<Record>, date: string, room: string)
    requires SessionsOf(GetOr(Group(sorted), date, []), room) != []
    ensures HasSession(sorted, date, room)
  {
    var g := Group(sorted);
    var day := GetOr(g, date, []);
    GroupTimes(sorted, date);
    var x := SessionsOf(day, room)[0];
    SessionsOfFrom(day, room, x);
    var j :| 0 <= j < |day| && Get(day[j].1, room) == Some(x);
    var time := day[j].0;
    GetAt(day, j, []);
    assert Lookup(g, date, time, room) == Some(x);
    GroupLookup(sorted, date, time, room);
    var k := FirstInSlot(sorted, (date, time, room)).value;
    assert Slot(sorted[k]) == (date, time, room);
    assert sorted[k] in sorted && Date(sorted[k]) == date && Room(sorted[k]) == room;
  }

  lemma RoomOnDateHas(sorted: seq<Record>, q: Record)
    requires q in sorted
    ensures SessionsOf(GetOr(Group(sorted), Date(q), []), Room(q)) != []
  {
    var g := Group(sorted);
    var date, time, room := Date(q), Time(q), Room(q);
    var day := GetOr(g, date, []);
    var m :| 0 <= m < |sorted| && sorted[m] == q;
    GroupLookup(sorted, date, time, room);
    assert Slot(sorted[m]) == (date, time, room);
    assert Lookup(g, date, time, room).Some?;
    assert time in Keys(day);
    var j := FirstIndex(Keys(day), time);
    assert GetOr(day, time, []) == day[j].1;
    SessionsOfHas(day, room, j);
  }
}
