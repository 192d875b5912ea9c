/**
 * The two structured exports of scrape.py: the rows that `save_csv` hands to
 * the CSV writer and the schedule that `save_json_frab` hands to the JSON
 * writer. A session record is the insertion-ordered dict the scraper builds;
 * its keys are the enumeration `Key`, whose JSON/CSV names `KeyName` gives.
 */
module Export {
  import opened Common
  import opened Dicts
  import Sessions
  import Grouping

  type Session = Sessions.Session

  datatype Key =
    | Url | Id | StartDatetime | StartDate | StartTime
    | EndDatetime | EndDate | EndTime | Duration | Room | Slug | Title
    | Persons | Track | Type | Language | Abstract | Description
    | Translation | TranslationDerived | IsPartnerSession | IsCancelled
    | Speakers | Start | Guid | Logo | DoNotRecord | Answers | Links
    | Attachments | RecordingLicense

  function KeyName(k: Key): string
  {
    match k
    case Url => "url"
    case Id => "id"
    case StartDatetime => "start_datetime"
    case StartDate => "start_date"
    case StartTime => "start_time"
    case EndDatetime => "end_datetime"
    case EndDate => "end_date"
    case EndTime => "end_time"
    case Duration => "duration"
    case Room => "room"
    case Slug => "slug"
    case Title => "title"
    case Persons => "persons"
    case Track => "track"
    case Type => "type"
    case Language => "language"
    case Abstract => "abstract"
    case Description => "description"
    case Translation => "translation"
    case TranslationDerived => "translation_derived"
    case IsPartnerSession => "is_partner_session"
    case IsCancelled => "is_cancelled"
    case Speakers => "speakers"
    case Start => "start"
    case Guid => "guid"
    case Logo => "logo"
    case DoNotRecord => "do_not_record"
    case Answers => "answers"
    case Links => "links"
    case Attachments => "attachments"
    case RecordingLicense => "recording_license"
  }

  /**
   * A value stored in a session dict. `Time` is an aware datetime (its
   * rendering is not modelled); `EmptyList` is the literal `[]`.
   */
  datatype Value =
    | Str(s: string) | Int(n: int) | Bool(b: bool) | Time(w: Sessions.When)
    | People(ps: seq<Sessions.Person>) | EmptyList

  /**
   * The value that any dict derived from session `s` holds under `k`: the
   * field values of scrape.py:81-104 and the values that `save_csv` and
   * `save_json_frab` assign to the keys they add.
   */
  function Entry(s: Session, k: Key): Value
  {
    match k
    case Url => Str(s.url)
    case Id => Int(s.id)
    case StartDatetime => Time(s.start)
    case StartDate => Str(s.start.date)
    case StartTime => Str(s.start.time)
    case EndDatetime => Time(s.end)
    case EndDate => Str(s.end.date)
    case EndTime => Str(s.end.time)
    case Duration => Str(s.duration)
    case Room => Str(s.room)
    case Slug => Str(s.slug)
    case Title => Str(s.title)
    case Persons => People(s.persons)
    case Track => Str(s.track)
    case Type => Str(s.sessionType)
    case Language => Str(s.language)
    case Abstract => Str(s.summary)
    case Description => Str(s.description)
    case Translation => Bool(s.translation)
    case TranslationDerived => Bool(s.translationDerived)
    case IsPartnerSession => Bool(s.isPartnerSession)
    case IsCancelled => Bool(s.isCancelled)
    case Speakers => Str(SpeakerNames(s.persons))
    case Start => Time(s.start)
    case Guid => Str(s.url)
    case Logo => Str("")
    case DoNotRecord => Bool(false)
    case Answers => EmptyList
    case Links => EmptyList
    case Attachments => EmptyList
    case RecordingLicense => Str("Unknown")
  }

  /** The dict with keys `ks`, in that order, each holding its entry for `s`. */
  function Of(s: Session, ks: seq<Key>): (d: Dict<Key, Value>)
    ensures Keys(d) == ks
  {
    seq(|ks|, i requires 0 <= i < |ks| => (ks[i], Entry(s, ks[i])))
  }

  lemma GetOf(s: Session, ks: seq<Key>, k: Key)
    ensures Get(Of(s, ks), k) == if k in ks then Some(Entry(s, k)) else None
  {
  }

  /** Assigning a key the dict does not hold appends it. */
  lemma PutNewOf(s: Session, ks: seq<Key>, k: Key)
    requires k !in ks
    ensures Put(Of(s, ks), k, Entry(s, k)) == Of(s, ks + [k])
  {
  }

  /** Assigning a key the value it already holds changes nothing. */
  lemma PutSameOf(s: Session, ks: seq<Key>, k: Key)
    requires k in ks
    ensures Put(Of(s, ks), k, Entry(s, k)) == Of(s, ks)
  {
  }

  /** Popping a key drops its first occurrence from the key order. */
  lemma RemoveOf(s: Session, front: seq<Key>, k: Key, back: seq<Key>)
    requires k !in front
    ensures Remove(Of(s, front + [k] + back), k) == Of(s, front + back)
  {
    var ks := front + [k] + back;
    FirstIndexIs(ks, k, |front|);
    OfAround(s, front, k, back);
    OfAppend(s, front, back);
  }

  /** The entries before and after a key's position are those of the keys around it. */
  lemma OfAround(s: Session, front: seq<Key>, k: Key, back: seq<Key>)
    ensures var d := Of(s, front + [k] + back);
      d[..|front|] == Of(s, front) && d[|front| + 1..] == Of(s, back)
  {
  }

  lemma GetOrOf(s: Session, ks: seq<Key>, k: Key, default: Value)
    requires k in ks
    ensures GetOr(Of(s, ks), k, default) == Entry(s, k)
  {
    GetOf(s, ks, k);
  }

  /** The six date and time keys, which follow `url` and `id`. */
  const TimeKeys: seq<Key> := [StartDatetime, StartDate, StartTime, EndDatetime, EndDate, EndTime]

  /** The keys between the time keys and `persons`. */
  const MidKeys: seq<Key> := [Duration, Room, Slug, Title]

  /** The keys after `persons`. */
  const TailKeys: seq<Key> := [Track, Type, Language, Abstract, Description, Translation, TranslationDerived, IsPartnerSession, IsCancelled]

  /** The keys after the time keys. */
  const AfterTimes: seq<Key> := MidKeys + [Persons] + TailKeys

  /** The keys of a session dict, in insertion order (scrape.py:81-104). */
  const FieldKeys: seq<Key> := [Url, Id] + TimeKeys + AfterTimes

  /** The session dict of scrape.py:81-104: its keys in insertion order, each with the field's value. */
  function Fields(s: Session): (d: Dict<Key, Value>)
  {
    Of(s, FieldKeys)
  }

  /** Dropping every occurrence of `k`, as the list comprehension of scrape.py:118 does. */
  function Without(ks: seq<Key>, k: Key): (r: seq<Key>)
    ensures k !in r
  {
    if ks == [] then [] else (if ks[0] == k then [] else [ks[0]]) + Without(ks[1..], k)
  }

  // ----- save_csv -----------------------------------------------------------

  /** A session dict as `save_csv` and `save_json_frab` receive it. */
  type Record = Dict<Key, Value>

  /** The `speakers` cell: the public names joined by ", " (scrape.py:124). */
  function SpeakerNames(persons: seq<Sessions.Person>): (r: string)
  {
    Join(", ", seq(|persons|, i requires 0 <= i < |persons| => persons[i].publicName))
  }

  /** The names of a `persons` value; the default `[]` has none. */
  function PersonNames(v: Value): string
  {
    if v.People? then SpeakerNames(v.ps) else ""
  }

  /** The CSV columns: the first record's keys without `persons`, then `speakers` (scrape.py:118). */
  function CsvColumns(first: Record): (cols: seq<Key>)
    ensures Persons !in cols && cols != [] && cols[|cols| - 1] == Speakers
  {
    Without(Keys(first), Persons) + [Speakers]
  }

  /** The row dict written for one session dict (scrape.py:123-126). */
  function CsvRow(session: Record): Record
  {
    var row := Put(session, Speakers, Str(PersonNames(GetOr(session, Persons, EmptyList))));
    var row := Put(row, Translation, GetOr(session, Translation, Bool(false)));
    Remove(row, Persons)
  }

  /** The cells `DictWriter.writerow` emits: the row's value for each column, `""` when absent. */
  function CsvCells(cols: seq<Key>, row: Record): seq<Value>
  {
    seq(|cols|, i requires 0 <= i < |cols| => GetOr(row, cols[i], Str("")))
  }

  /** The header line: each column's name. */
  function ColumnNames(cols: seq<Key>): seq<string>
  {
    seq(|cols|, i requires 0 <= i < |cols| => KeyName(cols[i]))
  }

  /** The cell rows the writer emits for the first `n` sessions, in order. */
  function CsvTable(cols: seq<Key>, sessions: seq<Record>, n: nat): (t: seq<seq<Value>>)
    requires n <= |sessions|
    ensures |t| == n
  {
    if n == 0 then [] else CsvTable(cols, sessions, n - 1) + [CsvCells(cols, CsvRow(sessions[n - 1]))]
  }

  /**
   * `DictWriter.writerow` accepts a row only when each of its keys is a
   * column (the writer raises `ValueError` otherwise, scrape.py:120,127).
   */
  predicate Fits(cols: seq<Key>, row: Record)
  {
    forall j :: 0 <= j < |row| ==> row[j].0 in cols
  }

  /** The row dict of each session (scrape.py:123-126). */
  function RowDicts(data: seq<Record>): (rows: seq<Record>)
  {
    seq(|data|, i requires 0 <= i < |data| => CsvRow(data[i]))
  }

  /** The writer's verdict on each of the first `n` row dicts: does it fit the columns? */
  function Verdicts(cols: seq<Key>, rows: seq<Record>, n: nat): (v: seq<bool>)
    requires n <= |rows|
    ensures |v| == n
  {
    if n == 0 then [] else Verdicts(cols, rows, n - 1) + [Fits(cols, rows[n - 1])]
  }

  /** The number of leading accepted rows: how many the writer gets through before it raises. */
  function Accepted(v: seq<bool>): (m: nat)
    ensures m <= |v|
  {
    if v == [] || !v[0] then 0 else 1 + Accepted(v[1..])
  }

  /** How many of the sessions are written. */
  function Written(cols: seq<Key>, data: seq<Record>): (m: nat)
    ensures m <= |data|
  {
    Accepted(Verdicts(cols, RowDicts(data), |data|))
  }

  /**
   * `save_csv` up to the writer (scrape.py:117-127). An empty input fails
   * at `data[0]` before anything is written. Otherwise the header is
   * written, then one row per session until a row has a key outside the
   * columns: the rows so far stay written and the call fails there.
   */
  method SaveCsv(data: seq<Record>) returns (header: seq<string>, rows: seq<seq<Value>>, error: Option<string>)
    ensures data == [] ==> header == [] && rows == [] && error == Some("IndexError: list index out of range")
    ensures data != [] ==>
      var cols := CsvColumns(data[0]);
      var m := Written(cols, data);
      && header == ColumnNames(cols)
      && rows == CsvTable(cols, data, m)
      && (error.None? <==> m == |data|)
  {
    if |data| == 0 {
      return [], [], Some("IndexError: list index out of range");
    }
    var keys := CsvColumns(data[0]);
    header := ColumnNames(keys);
    var written;
    rows, written := WriteRows(keys, data);
    if written < |data| {
      error := Some("ValueError: dict contains fields not in fieldnames");
    } else {
      error := None;
    }
  }

  /**
   * The writer loop of `save_csv`: one row dict per session, written in
   * order, stopping at the first row the writer refuses.
   */
  method WriteRows(cols: seq<Key>, data: seq<Record>) returns (rows: seq<seq<Value>>, written: nat)
    ensures written == Written(cols, data)
    ensures rows == CsvTable(cols, data, written)
  {
    rows := [];
    ghost var dicts := RowDicts(data);
    for i := 0 to |data|
      invariant Accepted(Verdicts(cols, dicts, i)) == i
      invariant rows == CsvTable(cols, data, i)
    {
      var row := CsvRow(data[i]);
      assert dicts[i] == row;
      if !Fits(cols, row) {
        RefusedRowStops(cols, dicts, i);
        return rows, i;
      }
      AcceptedSnoc(Verdicts(cols, dicts, i), true);
      rows := rows + [CsvCells(cols, row)];
    }
    written := |data|;
  }

  /** Once a row is refused, the writer has written exactly the rows before it. */
  lemma RefusedRowStops(cols: seq<Key>, rows: seq<Record>, i: nat)
    requires i < |rows| && Accepted(Verdicts(cols, rows, i)) == i
    requires !Fits(cols, rows[i])
    ensures Accepted(Verdicts(cols, rows, |rows|)) == i
  {
    VerdictsPrefix(cols, rows, i, |rows|);
    VerdictAt(cols, rows, i);
    RefusedStops(Verdicts(cols, rows, |rows|), i);
  }

  lemma RefusedStops(v: seq<bool>, i: nat)
    requires i < |v| && Accepted(v[..i]) == i && !v[i]
    ensures Accepted(v) == i
  {
    assert v[..i + 1] == v[..i] + [false];
    AcceptedSnoc(v[..i], false);
    assert v == v[..i + 1] + v[i + 1..];
    AcceptedStops(v[..i + 1], v[i + 1..]);
  }

  lemma {:induction false} AcceptedSnoc(v: seq<bool>, b: bool)
    requires Accepted(v) == |v|
    ensures Accepted(v + [b]) == if b then |v| + 1 else |v|
  {
    if v != [] {
      assert (v + [b])[1..] == v[1..] + [b];
      AcceptedSnoc(v[1..], b);
    }
  }

  /** Rows after a refused one are never reached. */
  lemma {:induction false} AcceptedStops(v: seq<bool>, w: seq<bool>)
    requires Accepted(v) < |v|
    ensures Accepted(v + w) == Accepted(v)
  {
    if v[0] {
      assert (v + w)[1..] == v[1..] + w;
      AcceptedStops(v[1..], w);
    }
  }

  /** The leading accepted rows are accepted, and the row after them, if any, is not. */
  lemma {:induction false} AcceptedIff(v: seq<bool>)
    ensures forall i :: 0 <= i < Accepted(v) ==> v[i]
    ensures Accepted(v) < |v| ==> !v[Accepted(v)]
  {
    if v != [] && v[0] {
      AcceptedIff(v[1..]);
      forall i | 0 < i < Accepted(v) ensures v[i] {
        assert v[i] == v[1..][i - 1];
      }
    }
  }

  lemma {:induction false} VerdictsPrefix(cols: seq<Key>, rows: seq<Record>, k: nat, n: nat)
    requires k <= n <= |rows|
    ensures Verdicts(cols, rows, n)[..k] == Verdicts(cols, rows, k)
  {
    if k < n {
      VerdictsPrefix(cols, rows, k, n - 1);
      var v := Verdicts(cols, rows, n - 1);
      assert Verdicts(cols, rows, n)[..k] == v[..k];
    }
  }

  lemma VerdictAt(cols: seq<Key>, rows: seq<Record>, i: nat)
    requires i < |rows|
    ensures Verdicts(cols, rows, |rows|)[i] == Fits(cols, rows[i])
  {
    VerdictsPrefix(cols, rows, i + 1, |rows|);
  }

  /**
   * The writer gets through the sessions before the first row that does not
   * fit the columns, and stops at that row.
   */
  lemma WrittenIff(cols: seq<Key>, data: seq<Record>)
    ensures forall i :: 0 <= i < Written(cols, data) ==> Fits(cols, CsvRow(data[i]))
    ensures Written(cols, data) < |data| ==> !Fits(cols, CsvRow(data[Written(cols, data)]))
  {
    var m := Written(cols, data);
    var dicts := RowDicts(data);
    AcceptedIff(Verdicts(cols, dicts, |data|));
    forall i | 0 <= i < m ensures Fits(cols, CsvRow(data[i])) {
      VerdictAt(cols, dicts, i);
    }
    if m < |data| {
      VerdictAt(cols, dicts, m);
    }
  }

  lemma KeysFit(cols: seq<Key>, row: Record)
    requires Keys(row) == cols
    ensures Fits(cols, row)
  {
    forall j | 0 <= j < |row| ensures row[j].0 in cols {
      assert Keys(row)[j] == row[j].0;
    }
  }

  /**
   * The session dicts the scraper produces (scrape.py:254) never trip the
   * writer: every row has exactly the header's columns, so all are written.
   */
  lemma ScrapedRowsFit(sessions: seq<Session>, data: seq<Record>)
    requires |data| == |sessions| > 0
    requires forall i :: 0 <= i < |data| ==> data[i] == Fields(sessions[i])
    ensures Written(CsvColumns(data[0]), data) == |data|
  {
    var cols := CsvColumns(data[0]);
    var m := Written(cols, data);
    WrittenIff(cols, data);
    if m < |data| {
      CsvRowMatchesHeader(sessions[0], sessions[m]);
      KeysFit(cols, CsvRow(data[m]));
    }
  }

  lemma {:induction false} WithoutConcat(a: seq<Key>, b: seq<Key>, k: Key)
    ensures Without(a + b, k) == Without(a, k) + Without(b, k)
  {
    if a != [] {
      assert (a + b)[0] == a[0] && (a + b)[1..] == a[1..] + b;
      WithoutConcat(a[1..], b, k);
    } else {
      assert a + b == b;
    }
  }

  lemma {:induction false} WithoutAbsent(a: seq<Key>, k: Key)
    requires k !in a
    ensures Without(a, k) == a
  {
    if a != [] {
      WithoutAbsent(a[1..], k);
    }
  }

  lemma WithoutSingle(k: Key)
    ensures Without([k], k) == []
  {
    assert [k][0] == k && [k][1..] == [];
  }

  lemma WithoutOnce(front: seq<Key>, k: Key, back: seq<Key>)
    requires k !in front && k !in back
    ensures Without(front + [k] + back, k) == front + back
  {
    WithoutConcat(front + [k], back, k);
    WithoutConcat(front, [k], k);
    WithoutAbsent(front, k);
    WithoutAbsent(back, k);
    WithoutSingle(k);
    assert front + [] == front;
  }

  lemma SpeakersEntry(s: Session)
    ensures Entry(s, Speakers) == Str(PersonNames(Entry(s, Persons)))
  {
  }

  lemma CsvRowUnfold(s: Session, ks: seq<Key>)
    requires Persons in ks && Translation in ks
    ensures CsvRow(Of(s, ks)) == Remove(Put(Put(Of(s, ks), Speakers, Entry(s, Speakers)), Translation, Entry(s, Translation)), Persons)
  {
    GetOrOf(s, ks, Persons, EmptyList);
    GetOrOf(s, ks, Translation, Bool(false));
    SpeakersEntry(s);
  }

  /** On any session dict with `persons` once, the row is the dict without `persons`, then `speakers`. */
  lemma CsvRowOf(s: Session, front: seq<Key>, back: seq<Key>)
    requires Persons !in front && Speakers !in front + [Persons] + back
    requires Translation in front + [Persons] + back
    ensures CsvRow(Of(s, front + [Persons] + back)) == Of(s, front + back + [Speakers])
  {
    var ks := front + [Persons] + back;
    CsvRowUnfold(s, ks);
    CsvRowPuts(s, ks);
    CsvRowRemove(s, front, back);
  }

  /** The pop of scrape.py:126 takes `persons` out of its place. */
  lemma CsvRowRemove(s: Session, front: seq<Key>, back: seq<Key>)
    requires Persons !in front
    ensures Remove(Of(s, front + [Persons] + back + [Speakers]), Persons) == Of(s, front + back + [Speakers])
  {
    assert front + [Persons] + back + [Speakers] == front + [Persons] + (back + [Speakers]);
    RemoveOf(s, front, Persons, back + [Speakers]);
    assert front + (back + [Speakers]) == front + back + [Speakers];
  }

  /** The two assignments of scrape.py:124-125 append `speakers` and leave `translation` in place. */
  lemma CsvRowPuts(s: Session, ks: seq<Key>)
    requires Speakers !in ks && Translation in ks
    ensures Put(Put(Of(s, ks), Speakers, Entry(s, Speakers)), Translation, Entry(s, Translation)) == Of(s, ks + [Speakers])
  {
    PutNewOf(s, ks, Speakers);
    PutSameOf(s, ks + [Speakers], Translation);
  }

  /** The CSV columns, whatever the first record: the session keys without `persons`, then `speakers`. */
  const CsvKeys: seq<Key> := [Url, Id] + TimeKeys + MidKeys + TailKeys + [Speakers]

  lemma OfAt(s: Session, ks: seq<Key>, i: nat)
    requires i < |ks|
    ensures Of(s, ks)[i] == (ks[i], Entry(s, ks[i]))
  {
  }

  /** `persons` occurs once among the session keys; `speakers` not at all. */
  lemma PersonsPosition()
    ensures Persons !in [Url, Id] + TimeKeys + MidKeys && Persons !in TailKeys
    ensures Speakers !in FieldKeys && Translation in TailKeys
  {
    assert TailKeys[5] == Translation;
  }

  lemma FieldKeysAroundPersons()
    ensures FieldKeys == ([Url, Id] + TimeKeys + MidKeys) + [Persons] + TailKeys
  {
  }

  lemma CsvHeader(s: Session)
    ensures CsvColumns(Fields(s)) == CsvKeys
  {
    PersonsPosition();
    FieldKeysAroundPersons();
    WithoutOnce([Url, Id] + TimeKeys + MidKeys, Persons, TailKeys);
  }

  lemma FieldsAroundPersons(s: Session)
    ensures Fields(s) == Of(s, ([Url, Id] + TimeKeys + MidKeys) + [Persons] + TailKeys)
  {
    FieldKeysAroundPersons();
  }

  lemma CsvRowAroundPersons(s: Session)
    ensures CsvRow(Of(s, ([Url, Id] + TimeKeys + MidKeys) + [Persons] + TailKeys)) == Of(s, CsvKeys)
  {
    PersonsPosition();
    CsvRowOf(s, [Url, Id] + TimeKeys + MidKeys, TailKeys);
  }

  /**
   * The row written for a session: every field except `persons`, in the
   * record's own order, each with the session's value, then `speakers`.
   */
  lemma CsvRowIs(s: Session)
    ensures CsvRow(Fields(s)) == Of(s, CsvKeys)
  {
    FieldsAroundPersons(s);
    CsvRowAroundPersons(s);
  }

  /** The last entry of a row is `speakers`, holding the session's public names joined by ", ". */
  lemma CsvSpeakers(s: Session)
    ensures var row := CsvRow(Fields(s));
      |row| == 22 && row[21] == (Speakers, Str(SpeakerNames(s.persons)))
  {
    CsvRowIs(s);
    CsvKeysLast(s);
  }

  lemma CsvKeysLast(s: Session)
    ensures |Of(s, CsvKeys)| == 22 && Of(s, CsvKeys)[21] == (Speakers, Str(SpeakerNames(s.persons)))
  {
    assert |CsvKeys| == 22 && CsvKeys[21] == Speakers;
    OfAt(s, CsvKeys, 21);
  }

  /** Every row has exactly the header's columns in the header's order, so the writer fills each cell from the row. */
  lemma CsvRowMatchesHeader(first: Session, s: Session)
    ensures Keys(CsvRow(Fields(s))) == CsvColumns(Fields(first))
  {
    CsvRowIs(s);
    CsvHeader(first);
  }

  /** Each cell of a row holds the session's value for its column; the last one the joined speaker names. */
  lemma CsvCellsOfRow(first: Session, s: Session, i: nat)
    requires i < |CsvKeys|
    ensures var cells := CsvCells(CsvColumns(Fields(first)), CsvRow(Fields(s)));
      |cells| == |CsvKeys| && cells[i] == Entry(s, CsvKeys[i])
    ensures CsvKeys[21] == Speakers && Entry(s, Speakers) == Str(SpeakerNames(s.persons))
  {
    CsvHeader(first);
    CsvRowIs(s);
    CellsOfOf(s, CsvKeys, i);
    CsvKeysLast(s);
  }

  lemma CellsOfOf(s: Session, ks: seq<Key>, i: nat)
    requires i < |ks|
    ensures |CsvCells(ks, Of(s, ks))| == |ks| && CsvCells(ks, Of(s, ks))[i] == Entry(s, ks[i])
  {
    GetOf(s, ks, ks[i]);
  }

  // ----- save_json_frab -----------------------------------------------------

  /** `row["start"] = row.pop("start_datetime")` (scrape.py:164); the ISO rendering is not modelled. */
  function MoveStart(row: Record): Record
  {
    Put(Remove(row, StartDatetime), Start, GetOr(row, StartDatetime, EmptyList))
  }

  /** `row["guid"] = row["url"]` and `row["logo"] = ""` (scrape.py:165-166). */
  function AddGuidAndLogo(row: Record): Record
  {
    Put(Put(row, Guid, GetOr(row, Url, EmptyList)), Logo, Str(""))
  }

  /** `row.pop(k)` for each `k` in turn. */
  function RemoveAll(row: Record, ks: seq<Key>): Record
  {
    if ks == [] then row else RemoveAll(Remove(row, ks[0]), ks[1..])
  }

  /** The five pops of scrape.py:167-171. */
  function DropTimes(row: Record): Record
  {
    RemoveAll(row, PoppedTimes)
  }

  /** The constant fields of scrape.py:172-176. */
  function AddConstants(row: Record): Record
  {
    var row := Put(row, DoNotRecord, Bool(false));
    var row := Put(row, Answers, EmptyList);
    var row := Put(row, Links, EmptyList);
    var row := Put(row, Attachments, EmptyList);
    Put(row, RecordingLicense, Str("Unknown"))
  }

  /** The event dict of scrape.py:163-176, built from a copy of the session dict. */
  function Reshape(session: Record): Record
  {
    AddConstants(DropTimes(AddGuidAndLogo(MoveStart(session))))
  }

  /** A key the scraper itself stores, as opposed to one the exports add. */
  predicate IsSessionKey(k: Key)
  {
    !(k.Speakers? || k.Start? || k.Guid? || k.Logo? || k.DoNotRecord? || k.Answers? || k.Links? || k.Attachments? || k.RecordingLicense?)
  }

  predicate SessionKeys(ks: seq<Key>)
  {
    forall i :: 0 <= i < |ks| ==> IsSessionKey(ks[i])
  }

  lemma SessionKeysConcat(a: seq<Key>, b: seq<Key>)
    requires SessionKeys(a) && SessionKeys(b)
    ensures SessionKeys(a + b)
  {
    forall i | 0 <= i < |a + b| ensures IsSessionKey((a + b)[i]) {
      if i >= |a| {
        assert (a + b)[i] == b[i - |a|];
      }
    }
  }

  lemma NotSessionKey(ks: seq<Key>, k: Key)
    requires SessionKeys(ks) && !IsSessionKey(k)
    ensures k !in ks
  {
  }

  /** The keys the frab export adds, in the order it adds them. */
  const Added: seq<Key> := [Start, Guid, Logo, DoNotRecord, Answers, Links, Attachments, RecordingLicense]

  lemma MoveStartOf(s: Session, head: seq<Key>, rest: seq<Key>)
    requires StartDatetime !in head && SessionKeys(head + rest)
    ensures MoveStart(Of(s, head + [StartDatetime] + rest)) == Of(s, head + rest + [Start])
  {
    GetOrOf(s, head + [StartDatetime] + rest, StartDatetime, EmptyList);
    RemoveOf(s, head, StartDatetime, rest);
    NotSessionKey(head + rest, Start);
    PutNewOf(s, head + rest, Start);
  }

  /** On a dict with `url` and without `guid` and `logo`, scrape.py:165-166 append those two. */
  lemma AddGuidAndLogoAppends(d: Record)
    requires Url in Keys(d) && Guid !in Keys(d) && Logo !in Keys(d)
    ensures AddGuidAndLogo(d) == d + [(Guid, GetOr(d, Url, EmptyList)), (Logo, Str(""))]
  {
    var g := (Guid, GetOr(d, Url, EmptyList));
    PutNew(d, Guid, g.1);
    PutNew(d + [g], Logo, Str(""));
    assert d + [g] + [(Logo, Str(""))] == d + [g, (Logo, Str(""))];
  }

  lemma GuidAndLogoOf(s: Session)
    ensures Of(s, [Guid, Logo]) == [(Guid, Entry(s, Url)), (Logo, Str(""))]
  {
  }

  lemma AddGuidAndLogoOf(s: Session, ks: seq<Key>)
    requires Url in ks && Guid !in ks && Logo !in ks
    ensures AddGuidAndLogo(Of(s, ks)) == Of(s, ks + [Guid, Logo])
  {
    GetOrOf(s, ks, Url, EmptyList);
    AddGuidAndLogoAppends(Of(s, ks));
    OfAppend(s, ks, [Guid, Logo]);
    GuidAndLogoOf(s);
  }

  /** Popping keys that sit, in the same order, right after `head` removes exactly them. */
  lemma {:induction false} RemoveAllOf(s: Session, head: seq<Key>, ks: seq<Key>, rest: seq<Key>)
    requires forall i :: 0 <= i < |ks| ==> ks[i] !in head
    ensures RemoveAll(Of(s, head + ks + rest), ks) == Of(s, head + rest)
  {
    if ks != [] {
      assert head + ks + rest == head + [ks[0]] + (ks[1..] + rest);
      RemoveOf(s, head, ks[0], ks[1..] + rest);
      assert head + (ks[1..] + rest) == head + ks[1..] + rest;
      RemoveAllOf(s, head, ks[1..], rest);
    } else {
      assert head + ks + rest == head + rest;
    }
  }

  lemma DropTimesOf(s: Session, head: seq<Key>, rest: seq<Key>)
    requires SessionKeys(head) && StartDate !in head && StartTime !in head && EndDatetime !in head && EndDate !in head && EndTime !in head
    ensures DropTimes(Of(s, head + PoppedTimes + rest)) == Of(s, head + rest)
  {
    RemoveAllOf(s, head, PoppedTimes, rest);
  }

  /** None of the keys that scrape.py:172-176 assign. */
  predicate NoConstantKey(ks: seq<Key>)
  {
    forall i :: 0 <= i < |ks| ==> !(ks[i].DoNotRecord? || ks[i].Answers? || ks[i].Links? || ks[i].Attachments? || ks[i].RecordingLicense?)
  }

  lemma SessionKeysNoConstant(ks: seq<Key>)
    requires SessionKeys(ks)
    ensures NoConstantKey(ks)
  {
  }

  lemma NoConstantKeyConcat(a: seq<Key>, b: seq<Key>)
    requires NoConstantKey(a) && NoConstantKey(b)
    ensures NoConstantKey(a + b)
  {
    forall i | 0 <= i < |a + b| ensures !((a + b)[i].DoNotRecord? || (a + b)[i].Answers? || (a + b)[i].Links? || (a + b)[i].Attachments? || (a + b)[i].RecordingLicense?) {
      if i >= |a| {
        assert (a + b)[i] == b[i - |a|];
      }
    }
  }

  /** The pairs that scrape.py:172-176 assign, in order. */
  const ConstantPairs: Record := [(DoNotRecord, Bool(false)), (Answers, EmptyList), (Links, EmptyList), (Attachments, EmptyList), (RecordingLicense, Str("Unknown"))]

  lemma NoConstantKeyAbsent(ks: seq<Key>)
    requires NoConstantKey(ks)
    ensures DoNotRecord !in ks && Answers !in ks && Links !in ks && Attachments !in ks && RecordingLicense !in ks
  {
    forall j | 0 <= j < |ks| ensures ks[j] != DoNotRecord && ks[j] != Answers && ks[j] != Links && ks[j] != Attachments && ks[j] != RecordingLicense {
    }
  }

  lemma AppendFive<T>(d: seq<T>, a: T, b: T, c: T, e: T, f: T)
    ensures d + [a] + [b] + [c] + [e] + [f] == d + [a, b, c, e, f]
  {
  }

  /** On a dict without any of them, the five assignments append the constant pairs. */
  lemma AddConstantsAppends(d: Record)
    requires NoConstantKey(Keys(d))
    ensures AddConstants(d) == d + ConstantPairs
  {
    NoConstantKeyAbsent(Keys(d));
    var d1 := Put(d, DoNotRecord, Bool(false));
    var d2 := Put(d1, Answers, EmptyList);
    var d3 := Put(d2, Links, EmptyList);
    var d4 := Put(d3, Attachments, EmptyList);
    PutNew(d, DoNotRecord, Bool(false));
    PutNew(d1, Answers, EmptyList);
    PutNew(d2, Links, EmptyList);
    PutNew(d3, Attachments, EmptyList);
    PutNew(d4, RecordingLicense, Str("Unknown"));
    AppendFive(d, (DoNotRecord, Bool(false)), (Answers, EmptyList), (Links, EmptyList), (Attachments, EmptyList), (RecordingLicense, Str("Unknown")));
  }

  lemma OfAppend(s: Session, a: seq<Key>, b: seq<Key>)
    ensures Of(s, a + b) == Of(s, a) + Of(s, b)
  {
  }

  lemma ConstantPairsOf(s: Session)
    ensures Of(s, [DoNotRecord, Answers, Links, Attachments, RecordingLicense]) == ConstantPairs
  {
  }

  lemma AddConstantsOf(s: Session, ks: seq<Key>)
    requires NoConstantKey(ks)
    ensures AddConstants(Of(s, ks)) == Of(s, ks + [DoNotRecord, Answers, Links, Attachments, RecordingLicense])
  {
    AddConstantsAppends(Of(s, ks));
    OfAppend(s, ks, [DoNotRecord, Answers, Links, Attachments, RecordingLicense]);
    ConstantPairsOf(s);
  }

  /** The five time keys that scrape.py:167-171 pop. */
  const PoppedTimes: seq<Key> := [StartDate, StartTime, EndDatetime, EndDate, EndTime]

  /** How the key order evolves through the stages of the reshaping. */
  lemma ReshapeKeyOrder(head: seq<Key>, base: seq<Key>)
    ensures head + TimeKeys + base == head + [StartDatetime] + (PoppedTimes + base)
    ensures head + (PoppedTimes + base) + [Start] + [Guid, Logo] == head + PoppedTimes + (base + [Start, Guid, Logo])
    ensures head + (base + [Start, Guid, Logo]) + [DoNotRecord, Answers, Links, Attachments, RecordingLicense] == head + base + Added
  {
    assert TimeKeys == [StartDatetime] + PoppedTimes;
  }

  /** The keys that each stage of the reshaping assigns are new, and those it pops are where it expects them. */
  lemma ReshapeKeysNew(head: seq<Key>, base: seq<Key>)
    requires Url in head && SessionKeys(head) && SessionKeys(base)
    requires forall i :: 0 <= i < |head| ==> head[i] !in TimeKeys
    ensures StartDatetime !in head && SessionKeys(head + (PoppedTimes + base))
    ensures var k1 := head + (PoppedTimes + base) + [Start];
      Url in k1 && Guid !in k1 && Logo !in k1
    ensures StartDate !in head && StartTime !in head && EndDatetime !in head && EndDate !in head && EndTime !in head
    ensures NoConstantKey(head + (base + [Start, Guid, Logo]))
  {
    forall i | 0 <= i < |head| ensures head[i] != StartDatetime && head[i] !in PoppedTimes {
      assert head[i] !in TimeKeys;
    }
    SessionKeysConcat(PoppedTimes, base);
    SessionKeysConcat(head, PoppedTimes + base);
    NotSessionKey(head + (PoppedTimes + base), Guid);
    NotSessionKey(head + (PoppedTimes + base), Logo);
    SessionKeysConcat(head, base);
    SessionKeysNoConstant(head + base);
    NoConstantKeyConcat(head + base, [Start, Guid, Logo]);
    assert head + base + [Start, Guid, Logo] == head + (base + [Start, Guid, Logo]);
  }

  /** Reshaping a session dict whose six date and time keys follow `head` drops them and appends the added keys. */
  lemma ReshapeOf(s: Session, head: seq<Key>, base: seq<Key>)
    requires Url in head && SessionKeys(head) && SessionKeys(base)
    requires forall i :: 0 <= i < |head| ==> head[i] !in TimeKeys
    ensures Reshape(Of(s, head + TimeKeys + base)) == Of(s, head + base + Added)
  {
    ReshapeKeyOrder(head, base);
    ReshapeKeysNew(head, base);
    var rest := PoppedTimes + base;
    MoveStartOf(s, head, rest);
    AddGuidAndLogoOf(s, head + rest + [Start]);
    DropTimesOf(s, head, base + [Start, Guid, Logo]);
    AddConstantsOf(s, head + (base + [Start, Guid, Logo]));
  }

  /** The keys of an event dict: the session keys without the time keys, then the added ones. */
  const EventKeys: seq<Key> := [Url, Id] + AfterTimes + Added

  /** The keys after the time keys are all keys the scraper stores. */
  lemma TimeKeysPosition()
    ensures SessionKeys([Url, Id]) && SessionKeys(AfterTimes)
  {
  }

  /**
   * The event in the frab schedule: the session fields without the six
   * date and time fields, followed by the start instant, the guid (the url),
   * an empty logo, `do_not_record` false, three empty lists and the
   * recording licence "Unknown".
   */
  lemma ReshapeIs(s: Session)
    ensures Reshape(Fields(s)) == Of(s, EventKeys)
  {
    TimeKeysPosition();
    ReshapeOf(s, [Url, Id], AfterTimes);
  }
}
