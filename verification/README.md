# CIF timetable reader, modelled in Dafny

CIF-timetable-reader turns CIF timetable files into tables of stop rows, and then counts how often
stops are served. This project models its core:

- **Bus/coach converter.** It keeps the QS/QO/QI/QT lines of a file. Each line is decoded against a
  fixed-width layout. Every QS journey header opens a journey made of the lines that follow it.
  Each stop row is linked to the next stop's location and arrival time, flagged when the journey
  visits a location twice, and stamped with the header's fields.
- **Rail converter.** It does the same with BS/LO/LI/LT lines and builds a composite train
  identifier. Times are read leniently. The converter then expands `days_run` into seven
  `operates_on_<day>s` columns.
- **Stop-location extractor.** It keeps QL/QB lines, decodes them, and pairs the QL record at
  each even position with the QB record after it.
- **Bus/coach stop-frequency counter.** Per location (optionally per route), it counts the stop
  rows that run on a weekday with their chosen time inside a closed window. It left-joins the
  inbound and outbound counts and sorts by frequency.
- **Rail (TRACC) stop-frequency counter.** It counts distinct stop events of calling trains whose
  public arrival or departure falls in the window. It sorts by frequency and can attach the set of
  services calling at each location.

Modules follow the program's structure:

| module | models |
|---|---|
| `Text`, `Clock`, `Records`, `Wrappers` | Python strings, `strptime("%H%M")` and `datetime.time`, dictionary rows |
| `Layouts` | the three `specification_dict` tables |
| `Decoder` | the line filter and `get_journey_data` / `get_location_data` |
| `Journeys`, `JourneyFacts` | journey segmentation and assembly, shared by both converters |
| `Weekdays` | the rail weekday columns |
| `StopLocationTable` | `make_gdf_with_locations` up to the combined table |
| `Tables`, `Frequency` | the pandas operations the counters use |
| `BusFrequency`, `TraccFrequency` | the two counters |

**How the Python is represented.**

- A row is a `map<string, Value>`. A `Value` is text, an integer, a time of day, or `Null` (Python
  `None`, or NaN in pandas).
- `sys.exit` and an uncaught `KeyError`/`IndexError`/`ValueError` become a `Failure`.
- The journey functions take the line decoder as a parameter (`LineDecoder`).
  `JourneyFacts.DecoderOf` instantiates it with a family's own layout table.
- `groupby(...).sum()` follows pandas 1.x, which silently drops the columns it cannot add (the
  time columns) and sums the numeric weekday flags.
- Loops of the source are methods with loop invariants. Each is proved equal to a specification
  function, and the properties are lemmas about those functions.

## Model

| member | source | states |
|---|---|---|
| Decoder.KeepApproved | CIF_timetable_converter.py:37-43 | the filter never lengthens the file, and every kept line has an approved tag |
| Decoder.KeepApprovedExactly | CIF_timetable_converter.py:37-43 | a line is kept exactly when it is in the file and its first two characters are an approved tag |
| Decoder.KeepApprovedAppend | ScotRail_CIF_timetable_converter.py:64-70 | filtering a concatenation filters each part, so kept lines keep their file order |
| Decoder.KeepApprovedOfApproved | stop_location_to_shapefile.py:30-36 | a list whose lines all have approved tags is returned unchanged |
| Decoder.KeepApprovedIdempotent | CIF_timetable_converter.py:37-43 | filtering an already filtered list changes nothing |
| Decoder.ExtractRawTimetable | CIF_timetable_converter.py:37-43 | the appending loop returns exactly the filtered list |
| Decoder.Coerce | CIF_timetable_converter.py:120-123 | only a bus/coach time field can be rejected; a converted field is its text or, for a time field, a time |
| Decoder.Decode | CIF_timetable_converter.py:105-126 | an unknown tag aborts with that line; the only other failure is a rejected time; a decoded record has the layout's fields plus the header identifier |
| Decoder.DecodeTexts | CIF_timetable_converter.py:114-126 | a line decodes exactly when every field converts; the only failure is a rejected time; the record has the layout's keys plus the header identifier; each field is its converted text |
| Decoder.DecodedField | CIF_timetable_converter.py:115-123 | a decoded line's tag has a layout; the record holds exactly that layout's fields (and the header identifier), each the converted text of its 1-based column slice |
| Decoder.DecodedIdentifier | CIF_timetable_converter.py:124-125 | a decoded journey header's `unique_identifier` is built from the record's own fields |
| Decoder.IdentifierIgnoresItself | ScotRail_CIF_timetable_converter.py:181-186 | recomputing the rail identifier inside the loop does not depend on its own previous value |
| Decoder.BusTimesAreStrict | CIF_timetable_converter.py:121-122 | a bus/coach stop line is accepted exactly when every field named with "time" is a valid HHMM text, and then it holds that time |
| Decoder.BusHeaderIsText | CIF_timetable_converter.py:121 | a QS header always decodes, and every field keeps its trimmed text |
| Decoder.RailTimesAreLenient | ScotRail_CIF_timetable_converter.py:166-179 | a rail line never fails; a time-like field is the time its first four characters spell when they parse, and otherwise keeps its text |
| Decoder.OnlyBusRejects | ScotRail_CIF_timetable_converter.py:166-179 | outside the bus/coach family, every line with a known tag decodes |
| Decoder.LocationFieldsAreText | stop_location_to_shapefile.py:76-84 | a QL/QB line always decodes and every field is its trimmed text |
| Decoder.ConvertField | ScotRail_CIF_timetable_converter.py:165-179 | the chain of conversions, branch for branch, agrees with `Coerce` |
| Decoder.GetJourneyData | CIF_timetable_converter.py:105-126 | the method equals `Decode`: an unknown tag aborts, otherwise the record is filled |
| Decoder.FillRecord | CIF_timetable_converter.py:114-126 | the filling loop plus the bus header stamp equals `DecodeTexts` of the line's field texts |
| Decoder.FillFields | ScotRail_CIF_timetable_converter.py:159-187 | the loop over layout keys either reports a rejected time of the line, or ends with every field converted and the rail identifier current |
| Decoder.FillKey | ScotRail_CIF_timetable_converter.py:161-186 | one pass stores the converted field (and recomputes the rail identifier) exactly when the conversion succeeds |
| Decoder.RejectedField | CIF_timetable_converter.py:121-122 | one field whose conversion fails rejects the whole line |
| Decoder.StampedStep | ScotRail_CIF_timetable_converter.py:180-186 | restamping the rail identifier after each field update gives the same record as stamping once after the last |
| Decoder.Collect | stop_location_to_shapefile.py:94-97 | gathering succeeds exactly when every line decodes, with the records in order; otherwise it is the first failing line's error |
| Text.TrimSpec | CIF_timetable_converter.py:119 | `strip()` keeps the infix left after removing exactly the white space at both ends |
| Text.Slice | CIF_timetable_converter.py:117-119 | a slice's length is clamped to the string, never an error |
| Clock.ParseFormat | CIF_timetable_converter.py:122 | every time of day is read back from its HHMM text |
| Clock.FormatParse | CIF_timetable_converter.py:122 | a text the HHMM parser accepts is the canonical text of the time it yields, so the parse is injective |
| Clock.MakeTime | stop_frequency_counter.py:54-55 | `datetime.time(h, m)` succeeds exactly when 0 <= h < 24 and 0 <= m < 60 |
| Clock.MakeTimeParts | stop_frequency_counter.py:54-55 | the time built has hour h and minute m |
| Layouts.BusCoachFormatIsJourneyFormat | CIF_timetable_converter.py:53-103 | the bus/coach table is well formed, QS has a layout, and every stop layout has a location |
| Layouts.ScotRailFormatIsJourneyFormat | ScotRail_CIF_timetable_converter.py:79-148 | the same for the rail table with header BS |
| Layouts.StopLocationFormatIsWellFormed | stop_location_to_shapefile.py:46-65 | the QL/QB table is well formed |
| Layouts.ApprovedTagsHaveLayouts | ScotRail_CIF_timetable_converter.py:64-70 | every approved tag of each family has a layout, so a filtered file never hits the unknown-record abort |
| Journeys.HeaderTagOf | CIF_timetable_converter.py:213 | `startswith` of the header tag is the same test as the decoder's tag lookup |
| Journeys.NextHeader | CIF_timetable_converter.py:226-236 | the first header at or after j, or the end; no header lies before it |
| Journeys.NextHeaderIs | CIF_timetable_converter.py:226-236 | any index with those three properties is the next header |
| Journeys.StopIds | CIF_timetable_converter.py:225-236 | a header owns the consecutive non-header lines after it, up to the next header |
| Journeys.FindStopIds | ScotRail_CIF_timetable_converter.py:282-293 | the while-scan with its caught IndexError returns exactly `StopIds` |
| Journeys.Duplicates | CIF_timetable_converter.py:129-133 | the repeated locations are drawn from the stops, and there are fewer of them than stops |
| Journeys.DuplicatesIffRepeat | CIF_timetable_converter.py:129-133 | `check_duplicate_stops` is truthy exactly when two stops share a location |
| Journeys.DuplicateFlagMeaning | CIF_timetable_converter.py:189-193 | `has_duplicated_stops` is 1 or 0, and it is 1 exactly when two rows share a location |
| Journeys.AssembleJourney | CIF_timetable_converter.py:156-199 | fewer than two decoded stops abort the journey; an assembled journey has linkable stops and one row per stop |
| Journeys.Journey | CIF_timetable_converter.py:136-199 | for the consecutive ids the segmentation produces, a successful journey has at least two stops and one row per stop |
| Journeys.JourneyLength | CIF_timetable_converter.py:158-187 | a successful journey has at least two stops and one row per stop |
| Journeys.HeaderWins | CIF_timetable_converter.py:195-197 | on a key collision the header's value overwrites the stop's, except for keys containing "record_identity" |
| Journeys.StopFieldKept | CIF_timetable_converter.py:195-197 | a stop's own field survives unless the header data or the linking writes that key |
| Journeys.Linking | CIF_timetable_converter.py:158-187 | every row but the last carries its successor's location and arrival time; the last row carries its own values |
| Journeys.DuplicateFlagUniform | CIF_timetable_converter.py:189-196 | every row of a journey carries the same duplicate flag, 1 exactly when two stops share a location |
| Journeys.DecodeFailureFails | CIF_timetable_converter.py:158-187 | a stop line that fails to decode aborts the journey |
| Journeys.MissingKeyFails | CIF_timetable_converter.py:163-174 | a missing location, or a successor without an arrival time, aborts the journey with a KeyError |
| Journeys.AllDecoded | CIF_timetable_converter.py:158-199 | when every line decodes, the journey is the assembly of the decoded records |
| Journeys.DecodeSuccessor | CIF_timetable_converter.py:171-174 | decoding a successor either aborts the journey or yields the line's record with a location and an arrival time |
| Journeys.LinkIntermediateStops | CIF_timetable_converter.py:167-177 | the loop over intermediate stops either aborts the journey or links each stop but the last to its successor |
| Journeys.LinkStops | CIF_timetable_converter.py:156-187 | the linking half, both branches: it aborts the journey or returns one linked row per stop, the last unlinked |
| Journeys.AddJourneyData | CIF_timetable_converter.py:195-197 | each row gets the flag, then the header data merged over it |
| Journeys.LinkedRows | CIF_timetable_converter.py:158-187 | the linked rows all have a location exactly when the origin has one, and then they equal `Linked` |
| Journeys.JourneyIs | CIF_timetable_converter.py:136-199 | a journey whose lines decode is the linked stops stamped with the flag and the header data |
| Journeys.CreateJourneyTimetable | CIF_timetable_converter.py:136-199 | the method succeeds exactly when `Journey` does, with the same rows |
| Journeys.Absent | CIF_timetable_converter.py:217-219 | the first progress-log key missing from the header, if any (a KeyError) |
| Journeys.ProcessUpTo | CIF_timetable_converter.py:211-239 | a prefix of the file without a journey header produces an empty table |
| Journeys.ProcessSucceeds | CIF_timetable_converter.py:211-239 | the run over a prefix succeeds exactly when the journey of every header in it does |
| Journeys.FailureStays | CIF_timetable_converter.py:211-239 | once a prefix of the run aborts, the whole run aborts |
| Journeys.PrefixesExtend | CIF_timetable_converter.py:239 | rows are only ever appended: each prefix's output is a prefix of the final output |
| Journeys.NothingBeforeFirstHeader | CIF_timetable_converter.py:211-213 | lines before the first header produce no rows |
| Journeys.JourneyAtLength | CIF_timetable_converter.py:238 | a successful journey has one row per line the header owns |
| Journeys.ProcessStep | CIF_timetable_converter.py:211-240 | one more line adds its journey's rows when it is a header, and nothing otherwise |
| Journeys.ProcessRowCount | CIF_timetable_converter.py:211-243 | after n lines, there is one row per non-header line from the first header up to the end of the journey the n-th line belongs to |
| Journeys.ProcessRowTotal | CIF_timetable_converter.py:202-243 | a successful run has one row per non-header line after the first header |
| Journeys.ProcessRawTimetable | ScotRail_CIF_timetable_converter.py:260-300 | the method succeeds exactly when `Process` does, with the same rows |
| Journeys.ReadJourney | CIF_timetable_converter.py:214-238 | one pass at a header line succeeds exactly when `JourneyAt` does, with the same rows |
| JourneyFacts.RecordIdentityNotMerged | CIF_timetable_converter.py:154 | `record_identity` is never in the header data, so every stop keeps its own tag |
| JourneyFacts.DecodedHasNoLinkKeys | CIF_timetable_converter.py:53-103 | a decoded line holds none of the keys the assembly adds |
| JourneyFacts.DecodedJourneyLinks | CIF_timetable_converter.py:158-197 | with a family's own decoder, every row but the last carries the next line's location and arrival time, and every row carries the journey's flag |
| JourneyFacts.StopSharesOnlyIdentity | CIF_timetable_converter.py:53-103 | the only field a QO/QI/QT layout shares with QS is `record_identity` |
| JourneyFacts.BusHeaderKeys | CIF_timetable_converter.py:114-125 | a decoded QS header has exactly the QS fields plus `unique_identifier` |
| JourneyFacts.BusStopFieldsKept | CIF_timetable_converter.py:154-197 | the QS header data never overwrites a bus/coach stop's own field |
| JourneyFacts.RailHeaderFields | ScotRail_CIF_timetable_converter.py:159-187 | a BS header always decodes and holds every field of its layout |
| JourneyFacts.RailSpareFromHeader | ScotRail_CIF_timetable_converter.py:213-256 | on every rail stop row, `spare` is the BS header's value, not the stop's own |
| JourneyFacts.RailJourneyExpands | ScotRail_CIF_timetable_converter.py:213-256 | every row of a rail journey carries the BS header's `days_run`, so the weekday expansion of those rows succeeds |
| Weekdays.DayFlag | ScotRail_CIF_timetable_converter.py:335 | `.str[k]` is a one-character text exactly when `days_run` is a text longer than k, and NaN otherwise |
| Weekdays.ColumnNameInjective | ScotRail_TRACC_stop_frequency_counter.py:59 | two day names give the same flag column exactly when they are equal |
| Weekdays.WeekdayColumnsDistinct | ScotRail_CIF_timetable_converter.py:335-341 | the seven columns are pairwise different and none is `days_run` |
| Weekdays.DayColumnIsWeekday | ScotRail_TRACC_stop_frequency_counter.py:59 | a counter's day column is weekday k's column exactly when the lower-cased day name is that weekday |
| Weekdays.SetFlagsAt | ScotRail_CIF_timetable_converter.py:335-341 | after the first n assignments, weekday k < n holds character k |
| Weekdays.SetFlagsKeys | ScotRail_CIF_timetable_converter.py:335-341 | the assignments add exactly the weekday columns and leave every other column alone |
| Weekdays.ExpandDaysRun | ScotRail_CIF_timetable_converter.py:335-341 | an expanded row has all seven weekday columns |
| Weekdays.ExpandedKeys | ScotRail_CIF_timetable_converter.py:335-341 | expanding adds exactly the seven columns and keeps every other column's value |
| Weekdays.ExpandedFlag | ScotRail_CIF_timetable_converter.py:335-341 | weekday k's column is character k of `days_run`, and `days_run` is kept |
| Weekdays.ReadFlagsPrefix | ScotRail_CIF_timetable_converter.py:335-341 | reading the first n flags back spells the first n characters of `days_run` |
| Weekdays.FlagsSpellDaysRun | ScotRail_CIF_timetable_converter.py:335-341 | the seven flags, Monday first, spell the first seven characters of `days_run` |
| Weekdays.ExpandTable | ScotRail_CIF_timetable_converter.py:333-341 | with no row holding `days_run` (an empty timetable included) the column read raises `KeyError`; otherwise the table keeps its row count and every row has all seven weekday columns |
| Weekdays.ExpandTableNeedsARow | ScotRail_CIF_timetable_converter.py:333-335 | a table whose rows all have `days_run` expands exactly when it is not empty |
| Weekdays.ExpandTableFlags | ScotRail_CIF_timetable_converter.py:333-341 | in an expanded table, a row's flag for weekday k reads "1" exactly when character k of its `days_run` is '1' |
| StopLocationTable.EveryOther | stop_location_to_shapefile.py:99 | `[::2]` has (n+1)/2 elements, element k being element 2k |
| StopLocationTable.OddPositions | stop_location_to_shapefile.py:100 | `[1::2]` has n/2 elements, element k being element 2k+1 |
| StopLocationTable.SideBySide | stop_location_to_shapefile.py:102-103 | concatenation along columns has as many rows as the longer frame |
| StopLocationTable.PairedSpec | stop_location_to_shapefile.py:99-103 | row k pairs decoded record 2k with 2k+1; with an odd count the last row has no QB part |
| StopLocationTable.UnpairPaired | stop_location_to_shapefile.py:99-103 | reading the rows back in order gives the decoded records: pairing loses and reorders nothing |
| StopLocationTable.CollectFirstFailure | stop_location_to_shapefile.py:94-97 | the loop's first failing line determines the error |
| StopLocationTable.CollectAll | stop_location_to_shapefile.py:94-97 | lines that all decode are gathered in order |
| StopLocationTable.DecodeEach | stop_location_to_shapefile.py:94-97 | the decoding loop equals gathering the decoded lines |
| StopLocationTable.MakeLocationTable | stop_location_to_shapefile.py:87-103 | the method equals `LocationTable` |
| StopLocationTable.ApprovedLinesDecode | stop_location_to_shapefile.py:68-84 | with a layout for each approved tag, every filtered line decodes |
| StopLocationTable.ExtractedTable | stop_location_to_shapefile.py:30-36 | the table of an extracted file never aborts, has a row per two lines, and unpairs to the decoded lines |
| StopLocationTable.LocationRecordFields | stop_location_to_shapefile.py:76-84 | a QL/QB record has exactly its layout's fields, each the trimmed text of its columns |
| Tables.FilterMembers | stop_frequency_counter.py:72-75 | a boolean-mask selection keeps exactly the rows satisfying the mask |
| Tables.FilterAppend | ScotRail_TRACC_stop_frequency_counter.py:71-82 | selecting from a concatenation selects from each part, in order |
| Tables.FilterFilter | stop_frequency_counter.py:82-87 | selecting twice selects by both masks |
| Tables.FilterEmpty | stop_frequency_counter.py:72-75 | a selection is empty exactly when no row satisfies the mask |
| Tables.FilterAll | ScotRail_TRACC_stop_frequency_counter.py:114-116 | a mask every row satisfies keeps the whole table |
| Tables.KeysOfSize | ScotRail_TRACC_stop_frequency_counter.py:83-92 | a table has at most as many keys as rows, and exactly as many when its keys are distinct |
| Tables.FilterDistinct | ScotRail_TRACC_stop_frequency_counter.py:114-118 | a selection keeps keys distinct |
| Tables.PermutationDistinct | ScotRail_TRACC_stop_frequency_counter.py:121-123 | rearranging rows keeps keys distinct |
| Tables.Dedup | ScotRail_TRACC_stop_frequency_counter.py:83-92 | `drop_duplicates` never lengthens the table and keeps only rows of its input |
| Tables.DedupSpec | ScotRail_TRACC_stop_frequency_counter.py:83-92 | `drop_duplicates` returns only input rows, with pairwise distinct keys and all of the input's keys |
| Tables.DedupSnoc | ScotRail_TRACC_stop_frequency_counter.py:83-92 | keep='first': a row with a key already seen is dropped, and a row with a new key is kept |
| Tables.Distinct | ScotRail_TRACC_stop_frequency_counter.py:98 | `unique()` is no longer than its input and lists only values of it |
| Tables.DistinctSpec | ScotRail_TRACC_stop_frequency_counter.py:98 | `unique()` lists each value once, and exactly the values present |
| Tables.Insert | ScotRail_TRACC_stop_frequency_counter.py:123 | inserting into a sorted table keeps it non-increasing and adds exactly one row |
| Tables.SortDesc | ScotRail_TRACC_stop_frequency_counter.py:123 | a descending sort is non-increasing and a permutation of its input |
| Tables.SortDescKeys | stop_frequency_counter.py:113 | sorting keeps the rows, their keys and the keys' distinctness |
| Frequency.MakeWindow | stop_frequency_counter.py:54-55 | the window exists exactly when both times are valid; the first invalid one is the error |
| Frequency.KeyList | stop_frequency_counter.py:76 | the group keys are exactly those of the rows with no absent key value |
| Frequency.GroupsSpec | stop_frequency_counter.py:76-78 | the groups are those keys, each once |
| Frequency.SumOfFlags | stop_frequency_counter.py:75-77 | summing a weekday column whose flags are all 1 counts the rows |
| Frequency.Tally | stop_frequency_counter.py:72-79 | a group's tally never exceeds the number of rows |
| Frequency.GroupSum | stop_frequency_counter.py:76-79 | the grouped sum has one row per group, with pairwise different keys |
| Frequency.TallyIsFilter | stop_frequency_counter.py:72-79 | a group's tally is the size of the mask selection restricted to the group |
| Frequency.TallyPositive | stop_frequency_counter.py:72-79 | a tally is positive exactly when some selected row is in the group |
| Frequency.TallyWeaker | stop_frequency_counter.py:82-91 | a stricter mask tallies no more rows |
| Frequency.TallyDisjoint | stop_frequency_counter.py:82-103 | two exclusive masks, each within a third, tally no more than the third together |
| Frequency.GroupSumKeys | stop_frequency_counter.py:72-79 | the grouped table has one row per group with a positive tally, each once |
| Frequency.GroupSumKey | stop_frequency_counter.py:72-79 | a group is a key of the grouped selection exactly when its tally is positive |
| Frequency.GroupSumKeysAreGroups | stop_frequency_counter.py:76-78 | the keys of the grouped table are exactly the groups |
| Frequency.SelectedGroup | stop_frequency_counter.py:72-76 | a selected row falls in a group exactly when some row the mask keeps does |
| Frequency.GroupSumTotals | stop_frequency_counter.py:72-79 | summing the day column of a group whose rows all run on the day gives its tally |
| Frequency.Lookup | stop_frequency_counter.py:106-108 | a left join finds a key exactly when the grouped table has it, with that row's count |
| Frequency.JoinedTally | stop_frequency_counter.py:106-108 | left-joining a grouped selection gives each group its tally, and nothing for a group with none |
| Frequency.Prefixed | stop_frequency_counter.py:115 | the output location starts with the prefix |
| BusFrequency.GetStopFrequency | stop_frequency_counter.py:39-117 | the counter fails exactly when a window time is invalid, with that time's error |
| BusFrequency.DirectionsBounded | stop_frequency_counter.py:81-103 | in every group, the inbound count, the outbound count and their sum are at most the frequency |
| BusFrequency.MergeRows | stop_frequency_counter.py:105-112 | the merge has one row per group of the total table, with its total and the joined direction counts |
| BusFrequency.SortedMerge | stop_frequency_counter.py:105-113 | the sorted merge has the same rows, sorted by frequency |
| BusFrequency.RankedByRow | stop_frequency_counter.py:72-113 | a sorted row's counts are the tallies of its group under the three masks |
| BusFrequency.RankedByKeys | stop_frequency_counter.py:72-113 | the sorted table has a row for each group with a selected stop row, each once |
| BusFrequency.RankedByRows | stop_frequency_counter.py:72-113 | every sorted row carries its group's tallies |
| BusFrequency.RankedRows | stop_frequency_counter.py:58-113 | the same facts for the counter's own masks, time column and grouping |
| BusFrequency.OutputsSpec | stop_frequency_counter.py:113-115 | output row i is the i-th sorted group, with its counts and the prefixed location |
| BusFrequency.GetStopFrequencySpec | stop_frequency_counter.py:39-117 | the output has a row per group with a selected stop row, once each, sorted by frequency; counts are tallies; direction counts are bounded by the frequency; the location is "QLN" + the trimmed location |
| TraccFrequency.Total | ScotRail_TRACC_stop_frequency_counter.py:71-92 | `total` has at most one row per row of each selection, all of them qualifying rows of the timetable |
| TraccFrequency.SelectedRowsAll | ScotRail_TRACC_stop_frequency_counter.py:71-82 | both selections hold only qualifying rows of the timetable |
| TraccFrequency.QualifiesByEvent | ScotRail_TRACC_stop_frequency_counter.py:71-92 | whether a row qualifies depends on its stop event alone |
| TraccFrequency.SelectedRows | ScotRail_TRACC_stop_frequency_counter.py:71-82 | a row is in either selection exactly when it is in the timetable and qualifies |
| TraccFrequency.TotalSpec | ScotRail_TRACC_stop_frequency_counter.py:71-92 | `total` holds each stop event once, only qualifying rows, and a row qualifies exactly when its event is in `total` |
| TraccFrequency.GroupByEvent | ScotRail_TRACC_stop_frequency_counter.py:83-92 | a row's group depends on its stop event alone |
| TraccFrequency.MembersAreEvents | ScotRail_TRACC_stop_frequency_counter.py:114-118 | each row of `total` in a group is a stop event of the group |
| TraccFrequency.EventIsMember | ScotRail_TRACC_stop_frequency_counter.py:114-118 | a qualifying row's event is in `total`, in the row's group |
| TraccFrequency.EventsAreMembers | ScotRail_TRACC_stop_frequency_counter.py:114-118 | each stop event of a group is a row of `total` in the group |
| TraccFrequency.GroupRowsAreEvents | ScotRail_TRACC_stop_frequency_counter.py:114-118 | the rows of `total` in a group are its stop events, one row each |
| TraccFrequency.TotalQualifies | ScotRail_TRACC_stop_frequency_counter.py:71-82 | every row of `total` runs on the day, so the qualifying selection keeps `total` whole |
| TraccFrequency.TallyIsEvents | ScotRail_TRACC_stop_frequency_counter.py:114-118 | a group's count is the number of its distinct stop events |
| TraccFrequency.TotalFrequencySpec | ScotRail_TRACC_stop_frequency_counter.py:114-118 | the grouped sum has a row for each group with a stop event, once, carrying its number of events |
| TraccFrequency.CollectServices | ScotRail_TRACC_stop_frequency_counter.py:96-111 | the loop over locations builds exactly `ServicesOf(total)` |
| TraccFrequency.ServicesSpec | ScotRail_TRACC_stop_frequency_counter.py:98-108 | the services table has a row for each location of `total`, once, holding the services of the rows there |
| TraccFrequency.RoutesLookup | ScotRail_TRACC_stop_frequency_counter.py:126 | the left merge finds a location exactly when the services table has it, with that row's routes |
| TraccFrequency.RoutesAtSpec | ScotRail_TRACC_stop_frequency_counter.py:105-106 | the routes of a present location are the services of the qualifying rows there |
| TraccFrequency.GroupLocation | ScotRail_TRACC_stop_frequency_counter.py:114-126 | a group with a stop event has a present location, held by some row of `total` |
| TraccFrequency.GroupServices | ScotRail_TRACC_stop_frequency_counter.py:125-126 | the merge finds every counted group's location, with the services calling there |
| TraccFrequency.StopFrequencyOf | ScotRail_TRACC_stop_frequency_counter.py:40-131 | an invalid window time is the error; without services the counter fails only then; with services the only other failure is the `KeyError` of the merge on `location` |
| TraccFrequency.ServicesEmpty | ScotRail_TRACC_stop_frequency_counter.py:96-111 | the services table is empty exactly when `total` is |
| TraccFrequency.TotalEmpty | ScotRail_TRACC_stop_frequency_counter.py:71-92 | `total` is empty exactly when no row of the timetable qualifies |
| TraccFrequency.ServicesNeedACall | ScotRail_TRACC_stop_frequency_counter.py:94-126 | with a valid window, the counter succeeds exactly when services are not requested or some row qualifies; otherwise the merge raises `KeyError` on `location` |
| TraccFrequency.GetStopFrequency | ScotRail_TRACC_stop_frequency_counter.py:40-131 | the method equals `StopFrequencyOf`, including the `KeyError` when services are requested and no row qualifies |
| TraccFrequency.SortedCounts | ScotRail_TRACC_stop_frequency_counter.py:121-123 | sorting the counts keeps each group once with its count, in non-increasing order |
| TraccFrequency.RankedSpec | ScotRail_TRACC_stop_frequency_counter.py:114-123 | the sorted table holds each group with a stop event once, with its number of events, in non-increasing order |
| TraccFrequency.OutputsSpec | ScotRail_TRACC_stop_frequency_counter.py:121-129 | output row i is the i-th sorted group, with its count, prefixed location and, on request, its services |
| TraccFrequency.GetStopFrequencySpec | ScotRail_TRACC_stop_frequency_counter.py:40-131 | whenever the counter succeeds: the output has a row per group with a stop event, once each, sorted by count; each count is the number of distinct stop events; the location is "QLN9100" + the trimmed location; on request each row carries the services calling there |

## Left out

- `main`, `get_file_header`, `load_timetable`, directory walking, file reading and CSV writing are
  not modelled. A file is given as its list of lines, and a loaded timetable as its list of rows.
- Progress messages and timing prints are not modelled. The `sys.exit(1)` after an unknown tag is
  a `Failure`.
- `strptime` is modelled only for `%H%M`: exactly four digits, hour below 24, minute below 60.
  Python's `strptime` also accepts some non-padded forms, such as three digits; those count as
  rejected here.
- Python's `str.lower()` is modelled for ASCII letters only.
- Rail converter: `df.drop_duplicates(inplace=True)` is followed by `df = pd.DataFrame(timetable)`,
  which discards it. The model follows the code: duplicates stay in the table.
- Rail converter: the final column selection `df[[...]]` and the duplicates CSV are not modelled.
- Stop-location extractor: `pd.to_numeric`, the point geometry and the coordinate reference
  system are not modelled. The model stops at the combined table. Columns that both frames share
  are kept apart in each row (`ql`, `qb`) rather than duplicated by name.
- A column missing from a loaded timetable reads as absent (NaN) rather than raising a
  `KeyError`.
- Counts joined by a left merge are integers or absent, rather than floats with NaN.
- Under pandas 2.0 or later, `groupby(...).sum()` no longer drops the time columns and raises
  `TypeError` (stop_frequency_counter.py:76-77, ScotRail_TRACC_stop_frequency_counter.py:115-116).
  The model follows pandas 1.x and does not capture that failure.
- `total_routes` is a set; the order of the Python list made from it is not modelled.
- Journeys.LinkStops: the `len(id_list) > 2` and the two-stop branches of
  `create_journey_timetable` are modelled by one loop. With two stops the loop is empty and the
  outcome is the same.
- Journeys.ProcessRawTimetable: when several things would fail in one run, only whether the run
  aborts is stated, not which exception Python reports first.
- Tables.SortDesc: the order of rows with equal frequency (pandas' quicksort) is not modelled. Any
  non-increasing permutation is allowed.
- TraccFrequency.GetStopFrequency: `group_by_departure` is accepted and unused, as in the source.
- The bus/coach counter's `group_by_departure` chooses between the published departure and
  arrival columns. The TRACC counter always uses both public times.

Behaviour of the code worth noting:

- The rail header's `spare` field overwrites the stops' own `spare`.
- Rail times that do not parse keep their text.
- A blank or malformed bus/coach stop time aborts the run.
- The rail `unique_identifier` is recomputed after every field of the header.
- A rail file without a BS journey gives an empty timetable, and the weekday expansion then
  raises `KeyError` on `days_run`.
- When the TRACC counter is asked for services and no row qualifies, `pd.DataFrame([])` has no
  `location` column and the left merge raises `KeyError`.
