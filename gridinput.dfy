/**
 * The first stages of the grid builder: which sessions are interpreted, the
 * rooms that become column groups, and the order in which sessions are
 * placed (planner.py lines 19-25).
 */
module GridInput {
  import opened StringOrder

  /**
   * One row of the session CSV as `csv.DictReader` yields it: column name to
   * cell text. `startInstant` is the `start_datetime` column already parsed
   * into seconds since the epoch.
   */
  datatype Record = Record(cells: map<string, string>, startInstant: int)

  /** The cell of column `name`; a column the file lacks reads as "". */
  function Column(r: Record, name: string): string
  {
    if name in r.cells then r.cells[name] else ""
  }

  function Room(r: Record): string
  {
    Column(r, "room")
  }

  const Stages: seq<string> := ["Stage 1", "Stage 2"]

  /** The condition of the filter: a stage room, interpreted, not a partner session. */
  predicate Selected(r: Record)
  {
    Room(r) in Stages && Column(r, "translation") == "True" && Column(r, "is_partner_session") == "False"
  }

  /** `list(filter(Selected, records))`. */
  function FilterRecords(records: seq<Record>): (kept: seq<Record>)
  {
    if records == [] then []
    else (if Selected(records[0]) then [records[0]] else []) + FilterRecords(records[1..])
  }

  /** A record is kept exactly when it is in the input and satisfies the condition. */
  lemma {:induction false} FilterMembers(records: seq<Record>)
    ensures forall r :: r in FilterRecords(records) <==> r in records && Selected(r)
  {
    if records != [] {
      FilterMembers(records[1..]);
      assert records == [records[0]] + records[1..];
    }
  }

  /** Filtering distributes over concatenation, so kept records stay in input order. */
  lemma {:induction false} FilterConcat(a: seq<Record>, b: seq<Record>)
    ensures FilterRecords(a + b) == FilterRecords(a) + FilterRecords(b)
  {
    if a != [] {
      assert (a + b)[1..] == a[1..] + b;
      FilterConcat(a[1..], b);
    } else {
      assert a + b == b;
    }
  }

  function RoomsOf(records: seq<Record>): (rooms: seq<string>)
  {
    if records == [] then [] else [Room(records[0])] + RoomsOf(records[1..])
  }

  lemma {:induction false} RoomsOfMembers(records: seq<Record>, x: string)
    ensures x in RoomsOf(records) <==> exists r :: r in records && Room(r) == x
  {
    if records != [] {
      RoomsOfMembers(records[1..], x);
      assert records == [records[0]] + records[1..];
    }
  }

  /** `rooms = sorted(set(record["room"] for record in filtered_records))`. */
  function SortedRooms(filtered: seq<Record>): (rooms: seq<string>)
  {
    SortedSet(RoomsOf(filtered))
  }

  /**
   * The rooms are strictly sorted (so without duplicates), are exactly the
   * rooms of the filtered records, and are therefore stage rooms.
   */
  lemma SortedRoomsSpec(records: seq<Record>)
    ensures StrictlySorted(SortedRooms(FilterRecords(records)))
    ensures forall x :: x in SortedRooms(FilterRecords(records)) <==>
      exists r :: r in FilterRecords(records) && Room(r) == x
    ensures forall x :: x in SortedRooms(FilterRecords(records)) ==> x in Stages
  {
    var filtered := FilterRecords(records);
    SortedSetSpec(RoomsOf(filtered));
    FilterMembers(records);
    forall x ensures x in SortedRooms(filtered) <==> exists r :: r in filtered && Room(r) == x {
      RoomsOfMembers(filtered, x);
    }
  }

  /** Puts `x` before the first record that does not start earlier. */
  function InsertByStart(s: seq<Record>, x: Record): (r: seq<Record>)
  {
    if s == [] || x.startInstant <= s[0].startInstant then [x] + s
    else [s[0]] + InsertByStart(s[1..], x)
  }

  /** `sorted(records, key=start instant)`, which is stable. */
  function SortByStart(records: seq<Record>): (sorted: seq<Record>)
  {
    if records == [] then [] else InsertByStart(SortByStart(records[1..]), records[0])
  }

  predicate SortedByStart(s: seq<Record>)
  {
    forall i, j :: 0 <= i < j < |s| ==> s[i].startInstant <= s[j].startInstant
  }

  lemma {:induction false} InsertByStartMembers(s: seq<Record>, x: Record)
    ensures multiset(InsertByStart(s, x)) == multiset(s) + multiset{x}
    ensures forall r :: r in InsertByStart(s, x) <==> r in s || r == x
  {
    if s != [] && x.startInstant > s[0].startInstant {
      InsertByStartMembers(s[1..], x);
      assert s == [s[0]] + s[1..];
    }
  }

  lemma {:induction false} InsertByStartSorted(s: seq<Record>, x: Record)
    requires SortedByStart(s)
    ensures SortedByStart(InsertByStart(s, x))
  {
    if s != [] && x.startInstant > s[0].startInstant {
      InsertByStartSorted(s[1..], x);
      InsertByStartMembers(s[1..], x);
      var t := InsertByStart(s[1..], x);
      forall j | 0 <= j < |t| ensures s[0].startInstant <= t[j].startInstant {
        assert t[j] in s[1..] || t[j] == x;
      }
    }
  }

  /** The sorted records are a permutation of the input in non-decreasing start order. */
  lemma {:induction false} SortByStartSpec(records: seq<Record>)
    ensures multiset(SortByStart(records)) == multiset(records)
    ensures SortedByStart(SortByStart(records))
  {
    if records != [] {
      SortByStartSpec(records[1..]);
      InsertByStartMembers(SortByStart(records[1..]), records[0]);
      InsertByStartSorted(SortByStart(records[1..]), records[0]);
      assert records == [records[0]] + records[1..];
    }
  }

  /** The records starting at instant `t`, in order. */
  function StartingAt(s: seq<Record>, t: int): (r: seq<Record>)
  {
    if s == [] then []
    else (if s[0].startInstant == t then [s[0]] else []) + StartingAt(s[1..], t)
  }

  lemma {:induction false} StartingAtInsert(s: seq<Record>, x: Record, t: int)
    ensures StartingAt(InsertByStart(s, x), t) ==
      (if x.startInstant == t then [x] else []) + StartingAt(s, t)
  {
    if s != [] && x.startInstant > s[0].startInstant {
      StartingAtInsert(s[1..], x, t);
      assert InsertByStart(s, x)[1..] == InsertByStart(s[1..], x);
    }
  }

  /** Stability: records with the same start instant keep their input order. */
  lemma {:induction false} SortByStartStable(records: seq<Record>, t: int)
    ensures StartingAt(SortByStart(records), t) == StartingAt(records, t)
  {
    if records != [] {
      SortByStartStable(records[1..], t);
      StartingAtInsert(SortByStart(records[1..]), records[0], t);
    }
  }
}
