# rp23-scraper, modelled in Dafny

The repository holds three scripts about the talks of re:publica 2023.

- **scrape.py** reads the programme pages and builds one session record per talk. Each record carries a slug, a shortened abstract, an `H:MM` duration and two translation flags. The script writes the records as CSV, JSON or a frab schedule. Frab is the c3voc conference-schedule format: days, then rooms, then events.
- **planner.py** reads the session CSV and keeps the interpreted stage sessions. It groups them date → start time → room, with the first session seen winning a slot. It then writes a grid: a header row, one summary row per date, one row per start time, and blank spacer rows.
- **unplanner.py** reads an interpreter sheet and keeps the rows in which one of the given names appears in an interpreter column. Each kept row is cut down to its stage's columns. The script can print the kept rows as one line each.

The model removes the I/O and the library calls, and states what each step computes.

How values are modelled:

- A scraped session is a datatype (`Sessions.Session`).
- A Python dict is a sequence of (key, value) pairs in insertion order (`Dicts.Dict`).
- A record as the scripts handle it is such a dict over an enumeration of keys (`Export.Record`).
- Instants are integer seconds since the epoch, and their local `YYYY-MM-DD` / `HH:MM` renderings are inputs (`Sessions.When`).
- A CSV line is a sequence of strings.

Loops that build state step by step are methods whose loops keep the source's shape. Each method is proved equal to a specification function, and the properties are proved about that function:

- `group_data_by_day` and `group_data_by_room`;
- the writer loop of `save_csv`;
- the day and room loops of `save_json_frab`;
- the planner's grouping and emitting loops;
- the unplanner's header scan and data loop.

Modules:

- **Text, Common, Dicts, Decimal, StringOrder:** ASCII string helpers, `str.split`, dict operations, decimal rendering, and Python's string order.
- **Slug:** `generate_slug`.
- **Abstract:** `shorten_description`.
- **Sessions:** the session record and its derived fields.
- **Grouping:** `group_data_by_day` and `group_data_by_room`.
- **Export:** the record dicts and the rows of `save_csv`.
- **Frab:** `save_json_frab`.
- **GridInput, GridGroup, GridEmit, GridPlan:** planner.py lines 19-86.
- **NameFilter:** unplanner.py.

## Model

| member | source | states |
|---|---|---|
| Slug.SlugIsWellFormed | scrape.py:110-114 | a slug holds only lower-case word characters and `-`, never starts or ends with `-`, and never has `--` |
| Slug.SlugKeepsWordChars | scrape.py:110-114 | the word characters of the slug are those of the title, in order, lower-cased |
| Slug.SlugEmptyIff | scrape.py:110-114 | the slug is empty exactly when the title has no word character |
| Slug.SlugIdempotent | scrape.py:110-114 | slugging a slug gives it back |
| Slug.Unlowered | scrape.py:110-113 | before lower-casing, the hyphenated text already has the slug's shape and keeps the title's word characters |
| Slug.ReplaceNonWordRuns | scrape.py:111 | the result holds only word characters and `-`, never `--`, and the input's word characters in order; after a replaced run it does not start with `-` |
| Slug.WordRuns | scrape.py:111 | the maximal runs of word characters: each non-empty and made of word characters |
| Slug.ReplacedIsJoinedRuns | scrape.py:111 | the first pass is the text's maximal word runs joined by single `-`, with one more `-` for a non-word run at the start (unless one was already being replaced) and one for a non-word run at the end |
| Slug.WordRunPassesThrough | scrape.py:111 | a run of word characters passes through the first pass unchanged and ends a run being replaced |
| Slug.CollapseHyphens | scrape.py:112 | the result never has `--`, keeps the input's word characters, keeps a text of word characters and `-` so, and after a collapsed run does not start with `-` |
| Slug.CollapseIsSqueeze | scrape.py:112 | collapsing keeps a `-` exactly when the next character is not `-`; after a run already collapsed it also drops the `-` that continues it |
| Slug.CollapseIsSqueezeFromStart | scrape.py:112 | from the start of a text, collapsing keeps each run's last `-` and drops the others |
| Slug.StripsLeadAndTrail | scrape.py:113 | stripping removes exactly the end hyphens the first pass added and leaves the joined runs |
| Slug.SlugIsJoinedRuns | scrape.py:110-114 | the slug is the title's maximal word-character runs, joined by single `-` and lower-cased |
| Slug.StripHyphensLeft | scrape.py:113 | leading `-` removed: a suffix of the input not starting with `-`, same word characters |
| Slug.StripHyphensRight | scrape.py:113 | trailing `-` removed: a prefix of the input not ending with `-`, same word characters |
| Abstract.SplitSentences | scrape.py:216 | `re.split` always yields at least one piece |
| Abstract.FirstSentenceBeforeFirstBreak | scrape.py:216-217 | the first sentence is the prefix before the first `[.:!?]` followed by whitespace, or the whole text if there is none |
| Abstract.SplitJoinedSentences | scrape.py:216 | sentences joined by `". "` split back into the same sentences |
| Abstract.SplitSingleSentence | scrape.py:216 | a text without a sentence-ending character is one sentence |
| Abstract.TakeWord | scrape.py:220 | a word is the longest leading run of non-space characters |
| Abstract.WordsAreWords | scrape.py:220 | `str.split()` yields non-empty pieces without whitespace |
| Abstract.WordsOfJoin | scrape.py:221 | joining words with single spaces and splitting again gives the words back |
| Abstract.TruncateWords | scrape.py:220-221 | an abstract within the cap is unchanged; otherwise its words are the first `max_word_count` words, the last one followed by `...` |
| Abstract.TruncateRespectsCap | scrape.py:220-221 | the result never has more words than the cap (one word for a cap of 0) |
| Abstract.DefaultKeepsFirstSentence | scrape.py:215-223 | with `max_sentence_length=1`, as written and as corrected: the first sentence capped at the word limit; `""` gives `""` |
| Abstract.OneSentence | scrape.py:216-219 | with a limit of one sentence, both versions keep exactly the first sentence |
| Abstract.LeadingSentencesGrow | scrape.py:218-219 | corrected version: allowing one more sentence only extends the text before truncation |
| Abstract.AsWrittenLosesSentences | scrape.py:217-219 | as written, three sentences give two sentences at a limit of 2 but one at a limit of 3 (see Findings) |
| Sessions.HasNumberIff | scrape.py:54 | `re.search(r"\d+", href)` matches exactly when some character of the href is a digit |
| Sessions.LeadingDigits | scrape.py:54 | the leading digit run: a prefix of digits followed by a non-digit or the end |
| Sessions.FirstNumber | scrape.py:54 | a speaker id is found exactly when the href holds a digit |
| Sessions.FirstNumberIsFirstRun | scrape.py:54 | the id read is the value of the first run of digits in the href: the first digit is at `i` and none comes before it |
| Sessions.Speaker | scrape.py:52-56 | one speaker entry is built exactly when its href holds a digit; its id is the href's first number and its name the stripped link text |
| Sessions.ParseSpeakers | scrape.py:52-58 | on success there is one person per speaker link |
| Sessions.ParseSpeakersSucceeds | scrape.py:52-58 | the speaker list is built exactly when every link holds a digit |
| Sessions.ParseSpeakersAt | scrape.py:52-58 | the i-th person is the one built from the i-th link |
| Sessions.DurationReadsBack | scrape.py:75-77 | the `H:MM` string reads back as the whole minutes of (end − start) mod 86400 seconds |
| Sessions.MinutesOfDay | scrape.py:76-77 | within a day, hours are 0..23 and minutes 0..59, and together they give the whole minutes |
| Sessions.DurationDropsWholeDays | scrape.py:75-76 | adding whole days to the end leaves the duration unchanged (`timedelta.seconds`) |
| Sessions.DurationDropsOneDay | scrape.py:75-76 | adding one day to the end leaves the duration unchanged |
| Sessions.DefaultDuration | scrape.py:68-69 | a session without a date element runs `10:00` |
| Sessions.TranslationFlag | scrape.py:72-73 | `translation` is true exactly when the element exists and its text has a non-space character |
| Sessions.LanguageCode | scrape.py:71 | the code is the first two characters of the stripped text (all of it when shorter), each lower-cased; so at most two characters and no upper-case letter |
| Sessions.BuildSession | scrape.py:45-105 | a session record is built exactly when every speaker link holds a digit |
| Sessions.BuildSessionSlug | scrape.py:92 | the record's slug is well-formed and keeps the title's word characters, lower-cased |
| Sessions.BuildSessionTimes | scrape.py:63-69 | start and end come from the date element or the fallback instants, and the duration is derived from them |
| Sessions.BuildSessionFlags | scrape.py:79-103 | `translation` reflects the marker only; `translation_derived` holds exactly for a non-partner session in Stage 1 or Stage 2; the two flags are kept apart; the url is the base address plus the href, the id is 0, the persons are the parsed speakers (one per link) and the language is the language code of the raw text |
| Sessions.BuildSessionText | scrape.py:46-99 | title, description, track and type are the stripped element texts, the room too (`""` when the element is absent), and the abstract is the shortened description |
| Text.Lower | scrape.py:114 | `str.lower` maps each character and keeps the length |
| Text.StripLeft | scrape.py:47 | what is removed is all whitespace, and what remains does not start with whitespace |
| Text.StripRight | scrape.py:47 | what is removed is all whitespace, and what remains does not end with whitespace |
| Text.StripEmptyIff | scrape.py:73 | a stripped text is empty exactly when every character is whitespace |
| Text.StripLeftSuffix | scrape.py:47 | `lstrip` keeps a suffix of its input |
| Text.StripRightPrefix | scrape.py:47 | `rstrip` keeps a prefix of its input, so with `Text.StripRight` exactly trailing whitespace is removed |
| Text.Split | scrape.py:138 | `str.split(c)` gives one piece exactly when `c` is absent, and no piece contains `c` |
| Text.JoinSplit | scrape.py:138 | joining the pieces of `split(c)` with `c` gives the input back |
| Decimal.ToDecimal | scrape.py:90 | decimal digits without a leading zero (except `"0"`) |
| Decimal.ParseToDecimal | scrape.py:90 | the decimal rendering reads back as the number |
| Decimal.TwoDigits | scrape.py:90 | `:02` gives exactly two digits |
| Decimal.ParseTwoDigits | scrape.py:90 | the two-digit rendering reads back as the number |
| Common.Dedup | scrape.py:205-212 | the keys in order of first occurrence: distinct, the same members, no longer |
| Common.DedupFirstOccurrenceOrder | scrape.py:205-212 | the order of the deduplicated keys is the order of their first occurrences |
| Common.DedupSnoc | scrape.py:209-210 | a new key is appended, a known key changes nothing |
| Common.DedupMember | scrape.py:209 | a key is listed exactly when it occurs |
| Common.FirstIndex | scrape.py:209 | the first position of a key |
| Dicts.Keys | scrape.py:118 | `keys()` lists the keys in insertion order |
| Dicts.Get | scrape.py:209 | a lookup fails exactly for a missing key |
| Dicts.Put | scrape.py:210 | assigning an existing key keeps the key order; a new key is appended |
| Dicts.Remove | scrape.py:126 | `pop` of a present key removes one entry; an absent key changes nothing |
| Dicts.GetPut | scrape.py:210-211 | after an assignment the key reads the new value and other keys are unchanged |
| Dicts.PutPut | scrape.py:210-211 | assigning the same key twice keeps the second value |
| Dicts.GetRemove | scrape.py:126 | after `pop` the key is gone and other keys are unchanged |
| Dicts.PutDistinct | scrape.py:210 | assignment keeps the keys distinct |
| Grouping.GroupDataByDay | scrape.py:193-202 | the loop builds exactly `DayGroups(data)` |
| Grouping.DayGroups | scrape.py:193-202 | there are groups exactly when there is data |
| Grouping.DayGroupsPartition | scrape.py:193-202 | the groups concatenate to the input; each is non-empty with one start date; neighbouring groups have different dates |
| Grouping.DayPartitionUnique | scrape.py:193-202 | every such partition is the one the loop builds |
| Grouping.DayGroupsSnoc | scrape.py:197-201 | a session with the current date joins the last group; another date opens a new group |
| Grouping.GroupDataByRoom | scrape.py:205-212 | the loop builds exactly `RoomGroups(data)` |
| Grouping.RoomGroupsIsRoomLists | scrape.py:205-212 | each room in order of first occurrence, mapped to the input filtered to that room, in input order |
| Grouping.RoomGroupsKeys | scrape.py:205-212 | the room keys are the rooms in order of first occurrence |
| Grouping.RoomGroupsAt | scrape.py:205-212 | a room's list is the input filtered to that room; other rooms are absent |
| Grouping.RoomGroupsSize | scrape.py:205-212 | the list lengths sum to the number of sessions |
| Grouping.Rooms | scrape.py:208 | one room per session, in order |
| Grouping.InRoom | scrape.py:211 | every listed session is in the room and comes from the input |
| Export.SaveCsv | scrape.py:117-127 | empty data fails with IndexError at `data[0]` before anything is written; otherwise the header is the first record's keys without `persons`, then `speakers`, the rows of the sessions before the first row with a key outside the header are written in order, and the call fails with ValueError exactly when such a row exists |
| Export.WriteRows | scrape.py:122-127 | the writer loop writes the rows of the sessions before the first row the writer refuses, and returns how many it wrote |
| Export.WrittenIff | scrape.py:120-127 | the sessions written are exactly those before the first row that has a key outside the columns; the writer stops at that row |
| Export.ScrapedRowsFit | scrape.py:117-127 | for the dicts the scraper builds, every row has exactly the header's keys, so all sessions are written and no ValueError arises |
| Export.CsvTable | scrape.py:122-127 | one row per session written so far |
| Export.CsvColumns | scrape.py:118 | the columns never contain `persons` and end with `speakers` |
| Export.CsvHeader | scrape.py:81-104 | for a scraped session the columns are its keys in order, without `persons`, ending with `speakers` |
| Export.CsvRowIs | scrape.py:123-126 | a scraped session's row dict is its keys without `persons`, with `speakers` appended |
| Export.CsvRowMatchesHeader | scrape.py:118-127 | every scraped row has exactly the header's keys, in order |
| Export.CsvSpeakers | scrape.py:124 | the last cell is the speakers' public names joined by `", "` |
| Export.CsvCellsOfRow | scrape.py:120-127 | each cell of a scraped session's row under the first session's header is that session's field for the column |
| Export.CsvRowOf | scrape.py:123-126 | copy, add `speakers`, reassign `translation`, pop `persons`: the keys around `persons`, then `speakers` |
| Export.Without | scrape.py:118 | the filtered key list no longer holds the key |
| Export.Of | scrape.py:81-104 | a session dict has exactly the given keys |
| Export.GetOf | scrape.py:81-104 | a session dict maps each of its keys to the session's field |
| Export.ReshapeIs | scrape.py:163-176 | the event steps turn a session dict into one with the event keys, in order |
| Export.ReshapeOf | scrape.py:163-176 | the event steps on any dict with the session's keys around the time keys |
| Export.MoveStartOf | scrape.py:164 | `start_datetime` is popped and re-added as `start` at the end |
| Export.AddGuidAndLogoOf | scrape.py:165-166 | `guid` (the url) and `logo` (empty) are appended |
| Export.DropTimesOf | scrape.py:167-171 | the five date and time keys are removed |
| Export.AddConstantsOf | scrape.py:172-176 | the five constant keys are appended with their fixed values |
| Export.RemoveAllOf | scrape.py:167-171 | removing keys one by one drops exactly those keys |
| Frab.Version | scrape.py:138 | fails (IndexError) exactly when the path has no `/`; the version never contains `.` |
| Frab.VersionOfPath | scrape.py:138 | for `dir/name.ext` the version is `name` |
| Frab.EarliestIndex | scrape.py:156 | the first session with the earliest start of the day |
| Frab.EventIsReshaped | scrape.py:163-177 | each event is the session dict after the reshaping steps |
| Frab.Events | scrape.py:161-177 | one event per session of the room |
| Frab.RoomSessions | scrape.py:161-177 | the inner loop builds the events of a room, in order |
| Frab.DayRooms | scrape.py:159-178 | the room loop builds each room's events under the room's key |
| Frab.FrabRoomsKeys | scrape.py:159-178 | the rooms keep their keys and order |
| Frab.GetFrabRooms | scrape.py:159-178 | each room maps to the events of its sessions |
| Frab.DayData | scrape.py:155-186 | a day's index, its date and start from the earliest session, and its rooms |
| Frab.DaysData | scrape.py:155-187 | the day loop builds one day per group, in order |
| Frab.SaveJsonFrab | scrape.py:135-187 | fails exactly for a path without `/` or empty data; otherwise the schedule of the day groups |
| Frab.DaysCountAndIndex | scrape.py:152-155 | `daysCount` is the number of days and of day groups; day indices run 1..n |
| Frab.DayDateAndStart | scrape.py:156-183 | a day's date and start come from its group's earliest session |
| Frab.NeighbourDaysDiffer | scrape.py:152-187 | consecutive days have different dates |
| Frab.EventsAt | scrape.py:161-177 | the j-th event is the event of the j-th session |
| Frab.DayRoomsKeys | scrape.py:158-178 | a day's rooms are its sessions' rooms in order of first occurrence |
| Frab.DayRoomsGet | scrape.py:158-178 | a day's room holds the events of its sessions in that room, in order |
| Frab.DayRoomsSize | scrape.py:158-178 | a day holds one event per session of the day |
| Frab.ScheduleDayRooms | scrape.py:152-186 | in the schedule, each day's rooms and their events come from that day's group |
| GridInput.FilterMembers | planner.py:19 | a record is kept exactly when it is a Stage 1 or Stage 2 session with `translation` "True" and `is_partner_session` "False" |
| GridInput.FilterConcat | planner.py:19 | filtering distributes over concatenation, so the kept records stay in input order |
| GridInput.SortedRoomsSpec | planner.py:22 | the rooms are strictly sorted, are exactly the kept records' rooms, and are stage rooms |
| GridInput.RoomsOfMembers | planner.py:22 | a room is listed exactly when some record is in it |
| GridInput.SortByStartSpec | planner.py:25 | the sorted records are a permutation of the kept ones, in non-decreasing start order |
| GridInput.SortByStartStable | planner.py:25 | records with the same start keep their input order |
| StringOrder.SortedSetSpec | planner.py:22 | `sorted(set(xs))` is strictly increasing and has exactly the members of `xs` |
| StringOrder.StrictlySortedUnique | planner.py:22 | there is only one strictly sorted list of a given set of strings |
| StringOrder.LessTotal | planner.py:22 | Python's string order is total |
| StringOrder.LessTransitive | planner.py:22 | Python's string order is transitive |
| StringOrder.MinIsLeast | planner.py:65 | `min` is a member and no greater than any member |
| StringOrder.MaxIsGreatest | planner.py:66 | `max` is a member and no smaller than any member |
| GridGroup.GroupBySlot | planner.py:28-45 | the grouping loop builds exactly `Group(sorted)` |
| GridGroup.PlaceRecord | planner.py:30-45 | one iteration creates the missing levels and fills the slot unless it is taken |
| GridGroup.GroupLookup | planner.py:28-45 | each slot a record falls in holds the first such record; no other slot is filled |
| GridGroup.FirstInSlot | planner.py:37-38 | the first record of a slot, or none if no record falls in it |
| GridGroup.Collision | planner.py:39-45 | a later record for a taken slot leaves the grouping unchanged |
| GridGroup.GroupDates | planner.py:28-35 | the dates are listed in order of first occurrence |
| GridGroup.GroupTimes | planner.py:28-35 | each date's start times are listed in order of first occurrence on that date |
| GridEmit.HeaderShape | planner.py:48-50 | the header has 1 + 9·R + 2 cells, starts with "date" and ends with the two standby columns |
| GridEmit.HeaderAt | planner.py:48-50 | cell 1 + 9i + c is `"{room_i}_{per_room_header[c]}"` |
| GridEmit.SummaryRow | planner.py:63-69 | the summary row loop builds `SummaryRowOf` |
| GridEmit.SummaryRowShape | planner.py:63-68 | a summary row has 1 + 9·R cells and starts with the date |
| GridEmit.SummaryRowAt | planner.py:64-68 | each room's first cell is its summary and the other eight cells are empty |
| GridEmit.SummaryCellTimes | planner.py:65-67 | the summary names the least start time and the greatest end time of the room's sessions that day |
| GridEmit.SessionsOfMember | planner.py:65 | a room's sessions of a date are those placed in that room at some time of the date |
| GridEmit.TimeRow | planner.py:76-83 | the time row loop builds `TimeRowOf` |
| GridEmit.TimeRowShape | planner.py:76-83 | a time row has 1 + 9·R + 2 cells, starts with the date and ends with two empty cells |
| GridEmit.TimeRowAt | planner.py:77-81 | a room with a session contributes its nine fields ("" when missing), a room without one nine "" |
| GridEmit.EmitTimes | planner.py:71-84 | the time loop of a date writes its rows and spacers and leaves `last_seen_hour` at the last hour |
| GridEmit.TimeRowsInOrder | planner.py:71-84 | without the spacers, the output of a date is its time rows in order |
| GridEmit.TimesOutputHead | planner.py:72-76 | a time row is preceded by a blank row exactly when its hour differs from the last one seen |
| GridEmit.FirstTimeRowSpaced | planner.py:57-75 | the first time row overall is preceded by a blank row |
| GridEmit.HourCarriesOver | planner.py:58-84 | `last_seen_hour` is not reset between dates: a date whose first hour equals the previous date's last hour gets no spacer |
| GridEmit.CoveredPrefix | planner.py:61-66 | the dates written before `min([])` stops the script: every room has a session on each of them, and not on the next |
| GridEmit.CoveredPrefixComplete | planner.py:61-86 | all dates are written exactly when every room has a session on every date |
| GridEmit.Emit | planner.py:53-86 | the writer loop produces the header and the blocks of the dates it reaches, and reports whether it reached all |
| GridEmit.GridStep | planner.py:61-86 | one date adds its summary row, its time rows with spacers, and a blank row |
| GridPlan.Plan | planner.py:19-86 | the rows the CSV writer emits are the grid of the covered dates of the filtered, sorted, grouped records |
| GridPlan.PlanCompletes | planner.py:19-86 | the script writes all dates exactly when every kept stage has a kept session on every date that has any |
| GridPlan.RoomOnDate | planner.py:28-45 | a room has a session on a grouped date exactly when some kept record is in that room on that date |
| NameFilter.StageOf | unplanner.py:11-15 | Stage 1 for columns 1..10, Stage 2 for 11..20, Standby for 31..32, none otherwise |
| NameFilter.RangeOf | unplanner.py:53-58 | the first range containing the column; none when no range contains it |
| NameFilter.DetermineStage | unplanner.py:53-58 | the search loop returns `StageOf(col)` |
| NameFilter.RangeNamedOf | unplanner.py:39-40 | the range named by the found stage is the range that contains the column |
| NameFilter.Mentions | unplanner.py:38 | a cell mentions a name exactly when some lower-cased name is a substring of the lower-cased cell |
| NameFilter.Slice | unplanner.py:40 | Python slicing clamped to the row's length |
| NameFilter.FirstMention | unplanner.py:36-41 | the found column lies in 9..31 and inside the row |
| NameFilter.FirstMentionSpec | unplanner.py:36-41 | the first mentioning column 9..31; no match exactly when no such column mentions a name; IndexError exactly when the row ends before column 32 with no match before |
| NameFilter.FilterRow | unplanner.py:32-45 | one iteration of the data loop yields `Kept(row, names)` |
| NameFilter.KeptHoldsMention | unplanner.py:39-44 | a kept row is date, stage, then the stage's columns, which include the mentioning cell |
| NameFilter.HeaderScan | unplanner.py:23-28 | the scan ends within the rows |
| NameFilter.HeaderScanSpec | unplanner.py:23-28 | the header rows are the leading rows whose first cell is "date"; the scan fails exactly on an empty row before the first non-header row |
| NameFilter.ScanHeaders | unplanner.py:23-28 | the header loop collects those rows and leaves `i` where the data loop starts |
| NameFilter.KeepRows | unplanner.py:31-45 | the data loop keeps exactly the kept rows, in order |
| NameFilter.KeptRowsConcat | unplanner.py:31-45 | the data loop distributes over concatenated inputs |
| NameFilter.KeptRowsFailure | unplanner.py:31-45 | the loop fails exactly when some row fails |
| NameFilter.KeptRowsFailurePersists | unplanner.py:31-45 | once a row fails, later rows change nothing |
| NameFilter.FilterCsv | unplanner.py:7-50 | the whole function equals `Filtered(lines, names)` |
| NameFilter.FilteredHeaders | unplanner.py:19-48 | the output is the header rows, then the kept rows of the rest |
| NameFilter.LastHeaderRescanned | unplanner.py:24-31 | when every row is a header row, the last one is scanned again and may be written twice |
| NameFilter.FormatLine | unplanner.py:67-75 | a line is produced exactly for rows of at least 8 cells |
| NameFilter.KeptLine | unplanner.py:67-75 | a kept row prints date, stage, time, duration, language, title and speakers from its stage's columns; a Standby row or a row that ends too early raises IndexError |
| NameFilter.Printable | unplanner.py:66-76 | the rows printed before a short row stops the loop |
| NameFilter.OutputList | unplanner.py:66-76 | the loop prints one line per row until a short row, and reports whether it printed them all |

## Left out

- The network and HTML side of scrape.py (`get_page_count`, the BeautifulSoup traversal): the model starts from the raw values read off one article (`Sessions.RawSession`).
- File reading and writing, the quoting of the `csv` module, `json.dump`, and argument handling in all three scripts (`argparse`, `sys.argv`, `--csv`, `output_csv`, the `__main__` blocks). `save_json` is only a `json.dump` and is not modelled.
- Time zones and clock: `fromisoformat`, `astimezone`, `strftime` and `strptime` are not modelled. An instant is an integer and its local date and time strings are inputs (`Sessions.When`, `GridInput.Record.startInstant`). The timestamp in the output file name is an input to `Frab.Version`.
- `day_end` of `save_json_frab` (scrape.py:157) depends on the host's local zone and is not modelled; `Frab.Day` has no `day_end` field.
- Unicode semantics of `\w`, `\s`, `str.lower`, `str.strip` and `str.split()`: characters are treated by their ASCII meaning only.
- The collision messages of planner.py:41-44 are not modelled; a collision is modelled as leaving the grouping unchanged (`GridGroup.Collision`). Lines 41-43 go to stderr, but line 44 prints its `Colliding data: ...` line to stdout, into the CSV stream and ahead of the header; `GridPlan.Plan`'s `out` holds only the rows the CSV writer emits and leaves that line out.
- planner.py's `csv.DictReader` is modelled as a map from column name to cell. A column the file lacks reads as `""` instead of raising KeyError. The `start_datetime` column is taken as already parsed (`Record.startInstant`).
- Python dicts are modelled as sequences of (key, value) pairs with distinct keys; the JSON rendering of values (`isoformat`, `default=str`) is not modelled.
- Export.SaveCsv: the rows are stated through `CsvTable` for any records; the cell-by-cell content is proved for scraped session records (`Export.CsvCellsOfRow`), not for arbitrary dicts. An exception is returned as a value, together with what was written before it.
- Sessions.FirstNumber: its own contract states when a number is found; the value read is stated by `Sessions.FirstNumberIsFirstRun`.
- GridEmit.Emit: `min([])` raising ValueError is modelled as the script stopping after the dates it completed (`complete` is false), not as an exception value.
- NameFilter.OutputList: an IndexError is modelled as the loop stopping at the first short row (`complete` is false).
- Sessions.BuildSession: every raw value is given; an article that lacks a page element the code expects (an AttributeError in the source) is not modelled.

## Findings

| source | as written | input that shows it | evidently intended | confidence | as-written member | corrected member |
|---|---|---|---|---|---|---|
| scrape.py:217-219 | when the description has at most `max_sentence_length` sentences, only the first sentence is kept | description "a. b. c" with `max_sentence_length=3` gives "a" (with 2 it gives "a b") | keep the first min(n, max_sentence_length) sentences, so "a b c" | not executed; the default `max_sentence_length=1` is not affected (`Abstract.DefaultKeepsFirstSentence`) | Abstract.AsWrittenLosesSentences | Abstract.LeadingSentencesGrow |
