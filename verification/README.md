# Railcar trip reconstruction, modelled in Dafny

This project models the core of the railcar-trips server. An uploaded file
of equipment events (equipment id, event code, city id, local event time)
becomes a list of trips, a list of warnings and a set of result tallies.
The model covers:

- **Resolution.** Each record's city is looked up first, then its event code.
  A record that fails a lookup gives one warning and is skipped. Every other
  record becomes an event.
- **Conversion.** The event's local time is converted to UTC with its city's
  fixed `±HH:MM` offset.
- **Grouping.** Events are grouped by equipment id in order of first
  appearance. Each group is stably sorted by UTC time.
- **Trip machine.** A per-equipment state machine runs over each group:
  - `W` (released) opens a trip. If a trip is already open, that trip is
    first closed as incomplete, with a warning.
  - `Z` (placed) completes the open trip. With no trip open, it gives an
    "orphaned" warning instead.
  - Any other code is attached to the open trip, if there is one.
  - A trip still open after the last event is kept as incomplete.
- **Tallies.** On a successful commit the result reports the trips created
  and the successes. A failed commit saves nothing and reports one database
  error.
- **Seeding.** Reference-data seeding is modelled too: the table from
  time-zone name to offset string, one time zone per distinct zone name (in
  first-appearance order), and one city per seed record referencing its zone.
  A repeated city id makes the city pass fail after the zones are saved.

Times are whole minutes on an unbounded integer clock. Each module follows
one part of the source:

| module | file | models |
|---|---|---|
| `Wrappers` | wrappers.dfy | `Option` |
| `Sequences` | sequences.dfy | de-duplication in first-appearance order, counting |
| `Offsets` | offsets.dfy | `int.Parse`, `TrimStart`, `Split`, `ConvertToUtc` |
| `Seeder` | seeder.dfy | `GetUtcOffset`, `SeedTimeZonesAndCitiesAsync` |
| `Entities` | entities.dfy | records, events, trips, warnings and their texts |
| `Resolution` | resolution.dfy | the lookup-and-convert loop |
| `Grouping` | grouping.dfy | `GroupBy` and the stable `OrderBy` |
| `TripMachine` | trip_machine.dfy | the W/Z/other state machine of one equipment |
| `Processing` | processing.dfy | the whole `ProcessEventsFileAsync` and its tallies |

Three behaviours of the code shape the model:

- **A malformed record ends the run.** A row that cannot be read, or a city
  offset that does not parse, throws inside the outer `try`. The whole run
  then ends with a single `"Processing error: …"`. Warnings and the
  processed count gathered before the throw are kept.
- **Warning texts.** The trip-sequence warnings name the event codes:
  `"Incomplete trip for {id}: new W event before Z"` and
  `"Orphaned Z event for {id} at {utc}"`.
- **Group order.** Groups come in the order their equipment id first appears.
  This is the enumeration order of a dictionary that is only ever added to.

## Model

| member | source | states |
|---|---|---|
| Offsets.ConvertToUtc | RailcarTrips.Server/Services/TripProcessingService.cs:189-200 | the offset is parsed by `Offsets.ParseOffset` as the source does (sign from the first character, signs trimmed, split on ':', hours and then optional minutes, failing on an empty string or a piece that does not parse); conversion fails exactly when the offset string does not parse; otherwise UTC plus the offset gives back the local time; for a `±HH:MM` offset the result is the local time minus sign·(HH·60+MM) minutes |
| Offsets.ShapedOffsetParses | RailcarTrips.Server/Services/TripProcessingService.cs:192-196 | any `±HH:MM` string parses, through the sign test, `TrimStart`, `Split(':')` and `int.Parse`, to sign·(HH·60+MM) minutes |
| Offsets.ConvertShaped | RailcarTrips.Server/Services/TripProcessingService.cs:189-199 | for a `±HH:MM` offset, UTC = local − sign·(HH·60+MM) |
| Offsets.EasternExample | RailcarTrips.Server.Tests/TripProcessingServiceTests.cs:356-372 | 08:00 local at `-05:00` is 13:00 UTC |
| Offsets.CentralExample | RailcarTrips.Server.Tests/TripProcessingServiceTests.cs:375-391 | 08:00 local at `-06:00` is 14:00 UTC |
| Offsets.PacificExample | RailcarTrips.Server.Tests/TripProcessingServiceTests.cs:394-410 | 08:00 local at `-08:00` is 16:00 UTC |
| Offsets.ZeroOffsetIsIdentity | RailcarTrips.Server/Data/DbSeeder.cs:144 | the default offset `+00:00` leaves every time unchanged |
| Offsets.TrimSigns | RailcarTrips.Server/Services/TripProcessingService.cs:193 | `TrimStart('+','-')` drops exactly the leading run of sign characters: the result is a suffix of the input, everything dropped is a sign, and the result does not start with one |
| Offsets.SplitJoin | RailcarTrips.Server/Services/TripProcessingService.cs:193 | `Split(':')` loses nothing: joining the pieces with ':' gives back the input |
| Offsets.SplitAtFirstSeparator | RailcarTrips.Server/Services/TripProcessingService.cs:193-195 | the first piece of a split is the text before the first ':' and the rest is the split of the remainder |
| Offsets.IntTextRoundTrip | RailcarTrips.Server/Services/TripProcessingService.cs:59 | the decimal rendering of a city id that a warning contains reads back as that id |
| Seeder.GetUtcOffset | RailcarTrips.Server/Data/DbSeeder.cs:133-146 | the table is total, and every offset it returns has the shape sign, two digits, ':', two digits |
| Seeder.ZoneOffsetConverts | RailcarTrips.Server/Data/DbSeeder.cs:135-145 | converting with any zone's offset never fails and subtracts exactly that zone's minutes |
| Seeder.ZoneMinutesTable | RailcarTrips.Server/Data/DbSeeder.cs:137-143 | Pacific −8h, Mountain −7h, Canada Central and Central both −6h, Eastern −5h, Atlantic −4h, Newfoundland −3h30 |
| Seeder.UnknownZoneIsUtc | RailcarTrips.Server/Data/DbSeeder.cs:144 | a name the table does not know gets offset zero, so its local time is taken as UTC |
| Seeder.OnlyNewfoundlandHasHalfHour | RailcarTrips.Server/Data/DbSeeder.cs:143 | Newfoundland is exactly the zone whose offset is not whole hours, and it shifts local time by +210 minutes |
| Seeder.SeedTimeZones | RailcarTrips.Server/Data/DbSeeder.cs:59-74 | one zone per distinct zone name of the records, in first-appearance order, each with the table's offset for its name |
| Seeder.ZoneNamed | RailcarTrips.Server/Data/DbSeeder.cs:79 | looking a zone up by name succeeds exactly for the names present, and yields a zone of that name |
| Seeder.ZoneLookupSucceeds | RailcarTrips.Server/Data/DbSeeder.cs:79-88 | after the zone pass, every record's zone lookup succeeds and yields its name with the table's offset |
| Seeder.SeedCities | RailcarTrips.Server/Data/DbSeeder.cs:81-91 | the city pass fails exactly when two records share a city id (adding the second throws); otherwise one city per record, with the record's id and name and the zone looked up under the record's zone name |
| Seeder.SeedTimeZonesAndCities | RailcarTrips.Server/Data/DbSeeder.cs:57-93 | zones are always the distinct names in first-appearance order, each with the table's offset for its name (they are saved before the city pass); cities are produced exactly when the city ids are unique, and then each references the zone named in its own record, with that name's offset |
| Seeder.SeededOffsetsParse | RailcarTrips.Server/Data/DbSeeder.cs:64-68 | every seeded city carries an offset that parses |
| Sequences.Distinct | RailcarTrips.Server/Data/DbSeeder.cs:62-73 | the de-duplicated list has no repeats and exactly the elements of the input |
| Sequences.DistinctKeepsFirstAppearanceOrder | RailcarTrips.Server/Services/TripProcessingService.cs:86-88 | the de-duplicated keys are ordered by where each first appears in the input |
| Entities.MessageStartsWithPhrase | RailcarTrips.Server/Services/TripProcessingService.cs:59-133 | every warning text begins with the fixed phrase of its kind |
| Entities.MessageTellsKind | RailcarTrips.Server/Services/TripProcessingService.cs:59-133 | each warning text starts with the phrase of its own kind and with no other kind's phrase, so the texts tell the four kinds apart |
| Entities.UnknownCityNamesId | RailcarTrips.Server/Services/TripProcessingService.cs:59 | the unknown-city text contains the city id right after its phrase, and that id reads back |
| Resolution.Resolve | RailcarTrips.Server/Services/TripProcessingService.cs:55-83 | each event's id is its position in the processed list, and every warning the loop gives is a lookup warning (unknown city or unknown code) |
| Resolution.ResolveAbortsExactly | RailcarTrips.Server/Services/TripProcessingService.cs:57-70 | the loop is ended by a throw exactly when some record that passes both lookups has a city offset that does not parse |
| Resolution.ResolveKeepsPassing | RailcarTrips.Server/Services/TripProcessingService.cs:55-83 | with no parse failure, the events are exactly the records passing both lookups, in file order, keeping equipment, code, city and local time, with converted UTC times; the warnings are one per failing record, in file order, naming the city when it is unknown and otherwise the code |
| Resolution.ResolveStopsAtFirstUnreadable | RailcarTrips.Server/Services/TripProcessingService.cs:69-82 | on a parse failure, the events and warnings of the records before the first failing record are kept and nothing after it is read |
| Resolution.EachRecordOnce | RailcarTrips.Server/Services/TripProcessingService.cs:57-82 | every record yields exactly one of an event or a warning |
| Grouping.Members | RailcarTrips.Server/Services/TripProcessingService.cs:87 | a group holds each event of its equipment as often as the input does, and no other event |
| Grouping.MembersKeepIdOrder | RailcarTrips.Server/Services/TripProcessingService.cs:87 | a group keeps the input order of its events |
| Grouping.Insert | RailcarTrips.Server/Services/TripProcessingService.cs:88 | insertion adds exactly the one element |
| Grouping.SortByUtc | RailcarTrips.Server/Services/TripProcessingService.cs:88 | the sort is a permutation of its input and non-decreasing in UTC time |
| Grouping.SortIsStable | RailcarTrips.Server/Services/TripProcessingService.cs:88 | events with equal UTC times keep their input order |
| Grouping.SortedStableUnique | RailcarTrips.Server/Services/TripProcessingService.cs:88 | a sorted, stable ordering of given events is unique, so a group's order depends only on its events |
| Grouping.SortKeepsOrderedInput | RailcarTrips.Server/Services/TripProcessingService.cs:88 | sorting events already in UTC order, whatever their ids, changes nothing |
| Grouping.SortIsIdempotent | RailcarTrips.Server/Services/TripProcessingService.cs:88 | sorting a sorted group again changes nothing |
| Grouping.GroupEvents | RailcarTrips.Server/Services/TripProcessingService.cs:85-88 | one group per distinct equipment id, in the order each id first appears among the processed events |
| Grouping.GroupsHoldOwnEvents | RailcarTrips.Server/Services/TripProcessingService.cs:86-87 | each event is in the group of its own equipment exactly as often as in the input, and in no other group |
| Grouping.GroupsOrdered | RailcarTrips.Server/Services/TripProcessingService.cs:88 | every group is in UTC order and stable on ties |
| Grouping.GroupKeysPartition | RailcarTrips.Server/Services/TripProcessingService.cs:86-88 | group keys are distinct, and every event's equipment has a group |
| Grouping.GroupsInFirstAppearanceOrder | RailcarTrips.Server/Services/TripProcessingService.cs:86-88 | groups come in the order their equipment first appears |
| Grouping.GroupingIsPermutation | RailcarTrips.Server/Services/TripProcessingService.cs:86-88 | the groups laid end to end are a permutation of the events, so none is lost or duplicated |
| TripMachine.Step | RailcarTrips.Server/Services/TripProcessingService.cs:96-143 | one event only appends to the trips and the warnings, at most one of each |
| TripMachine.StepCounts | RailcarTrips.Server/Services/TripProcessingService.cs:100-142 | a W adds one trip; a Z adds one completed trip or one orphan warning; a trip closed incomplete comes with one warning |
| TripMachine.Run | RailcarTrips.Server/Services/TripProcessingService.cs:94-143 | over a group: trips made plus the open one equal the W count; completed trips plus orphan warnings equal the Z count; incomplete trips so far equal incomplete-trip warnings |
| TripMachine.TripsOf | RailcarTrips.Server/Services/TripProcessingService.cs:92-150 | per equipment: exactly one trip per W; completed trips and orphan warnings account for every Z; incomplete trips are the warned ones plus at most one left open at the end, which gets no warning |
| TripMachine.StepWellFormed | RailcarTrips.Server/Services/TripProcessingService.cs:100-142 | each step keeps every trip well formed, and keeps the open trip incomplete |
| TripMachine.RunWellFormed | RailcarTrips.Server/Services/TripProcessingService.cs:94-143 | every trip the machine produces or holds open is well formed for the equipment, the open one is incomplete, and every warning it adds is a trip-sequence warning naming the equipment |
| TripMachine.TripsOfWellFormed | RailcarTrips.Server/Services/TripProcessingService.cs:100-150 | every final trip of an equipment is well formed (see below), and every warning names that equipment and is not a resolution warning |
| TripMachine.RunDurations | RailcarTrips.Server/Services/TripProcessingService.cs:119-130 | on events in UTC order, the open trip started no later than the last event read, and no completed total is negative |
| TripMachine.TotalsNonNegative | RailcarTrips.Server/Services/TripProcessingService.cs:125 | with the group sorted, no trip's total time is negative |
| TripMachine.StepAttaches | RailcarTrips.Server/Services/TripProcessingService.cs:110-142 | an event is attached exactly when it is a W or a trip is open; an orphaned Z stays unattached |
| TripMachine.RunAttachesEachAtMostOnce | RailcarTrips.Server/Services/TripProcessingService.cs:117-140 | the attached events are a sub-multiset of the group's events |
| TripMachine.TripsOfAttachesEachAtMostOnce | RailcarTrips.Server/Services/TripProcessingService.cs:117-150 | the final trips of an equipment hold each of its events at most as often as it was read |
| TripMachine.CompleteTripScenario | RailcarTrips.Server.Tests/TripProcessingServiceTests.cs:139-158 | W in city 1 at 08:00 local (780 UTC) and Z in city 2 at 16:00 local (1320 UTC) give one complete trip from 1 to 2 lasting 540 minutes, and no warning |
| TripMachine.TotalTripTimeScenario | RailcarTrips.Server.Tests/TripProcessingServiceTests.cs:223-240 | W and Z both in city 1 at 08:00 and 16:00 local (780 and 1260 UTC) give one complete trip whose total is eight hours |
| TripMachine.TripWithoutPlacementScenario | RailcarTrips.Server.Tests/TripProcessingServiceTests.cs:162-180 | W in city 1 at 08:00 local (780 UTC) then A in city 2 at 12:00 local (1080 UTC) give one incomplete trip from city 1 starting at 780, and no warning |
| TripMachine.ConsecutiveReleasesScenario | RailcarTrips.Server.Tests/TripProcessingServiceTests.cs:183-203 | W (780 UTC), W (1080 UTC), Z in city 3 (1440 UTC) give an incomplete trip holding the first W, a complete trip from 2 to 3 lasting 360 minutes, and one incomplete-trip warning |
| TripMachine.OrphanedPlacementScenario | RailcarTrips.Server.Tests/TripProcessingServiceTests.cs:206-220 | a lone Z at 08:00 local in city 1 gives no trip and one orphan warning at 780 UTC |
| TripMachine.AllEventsAttachedScenario | RailcarTrips.Server.Tests/TripProcessingServiceTests.cs:332-349 | W (780 UTC), A (1080 UTC), Z in city 3 (1440 UTC) give one trip from 1 to 3 lasting 660 minutes, holding all three events |
| Processing.RunGroups | RailcarTrips.Server/Services/TripProcessingService.cs:92-151 | over all groups, the trips made equal the W count of all grouped events |
| Processing.ProcessEventsFile | RailcarTrips.Server/Services/TripProcessingService.cs:55-184 | there is no error exactly when nothing aborted and the commit succeeded; a parse failure gives one processing error, a failed commit one database error, and either way no trip or event is saved and no trip or success is counted; on success, trips created is the number of saved trips and successes equal the processed count, which equals the saved events; resolution warnings come first |
| Processing.EventsProcessedCountsResolved | RailcarTrips.Server/Services/TripProcessingService.cs:57-82 | when no city offset fails to parse, the processed count is the number of records passing both lookups, plus the warned records it makes up all records, and each saved event keeps its record's data |
| Processing.TripsCreatedCountsReleases | RailcarTrips.Server/Services/TripProcessingService.cs:166 | after a successful commit, trips created equals the number of W records that passed both lookups |
| Processing.GroupMembersOwnId | RailcarTrips.Server/Services/TripProcessingService.cs:87 | every event in a group is of the group's equipment |
| Processing.RunGroupsWellFormed | RailcarTrips.Server/Services/TripProcessingService.cs:92-151 | every trip over all groups is well formed for its own equipment, and no machine warning is a resolution warning |
| Processing.SavedTripsWellFormed | RailcarTrips.Server/Services/TripProcessingService.cs:86-157 | every saved trip is well formed for its own equipment, so its events are of that equipment, and has a non-negative total |
| Processing.AttachedAtMostOnce | RailcarTrips.Server/Services/TripProcessingService.cs:117-161 | the saved trips hold only saved events, each at most once, so every attached event belongs to exactly one trip |
| Processing.ResolutionWarningsFirst | RailcarTrips.Server/Services/TripProcessingService.cs:59-133 | all resolution warnings come before all trip-sequence warnings |
| Processing.UploadWarnings | RailcarTrips.Server/Services/TripProcessingService.cs:55-151 | the upload's warnings are the lookup warnings followed, unless the run stopped, by the trip machine's warnings |
| Processing.BuiltWarningsNotResolution | RailcarTrips.Server/Services/TripProcessingService.cs:107-133 | the trip machine never gives a lookup warning |
| Processing.SeededCitiesNeverAbort | RailcarTrips.Server/Services/TripProcessingService.cs:70 | with cities whose zones carry the seeding table's offsets, the run never stops with a processing error |
| Processing.MixedValidAndInvalidScenario | RailcarTrips.Server.Tests/TripProcessingServiceTests.cs:471-488 | uploading a valid W, an unknown code X, a Z in unknown city 999 and a valid Z, whatever the commit does, counts two processed events and reports exactly the unknown-code and then the unknown-city warning; on a successful commit one trip is created and the W and valid Z are saved with UTC times 780 and 1320 |
| Processing.OutOfOrderScenario | RailcarTrips.Server.Tests/TripProcessingServiceTests.cs:247-265 | a Z listed before an earlier W still gives one complete trip, because the sort puts the W first |

`TripMachine.WellFormed` is the shape every trip has:

- Its first event is the W that opened it; the origin and start come from that W.
- No later event is a W.
- It is complete exactly when its destination, end and total are all set.
- A complete trip's last event is the Z that set the destination and the end.
  Its total is the end minus the start.
- An incomplete trip has none of those three set, and no Z after its first event.

## Left out

- **CSV reading.** Reading the CSV file (header mapping, trimming, type
  conversion) is done by a foreign library. The model starts from typed
  records. A row that cannot be read aborts the run in the source, and that
  is not modelled.
- **Persistence.** Loading the reference tables, transactions,
  `SaveChangesAsync`, identity keys and navigation fix-up are persistence.
  The commit is a parameter that succeeds or fails with a message.
  - An event's database id is modelled by its position among the processed
    events.
  - An event's link to its trip is modelled by the trip holding the event.
  - An event stores its code string, not the code row's key. Codes are
    unique, so the two are equivalent.
- **`CreateTime`.** It reads the clock, so it is not modelled. The zone
  pass's `UpdatedAt` is left out for the same reason.
- **Logging** is not modelled.
- **Exception text.** `.NET` chooses the text of exceptions, so the message of
  the parse failure is a parameter of `Processing.ProcessEventsFile`.
- **Seeding guards.** The guards that skip seeding when a seed file is
  missing or the data is already present are not modelled. The event-code
  seeding is not modelled either; it only copies rows.
- **Client and presentation.** Controllers, client services, the UI and the
  DTO mapping (including `TotalHours` as a floating-point number) are left
  out.
- Offsets.ParseInt: accepts an optional sign followed by ASCII digits. It does not model the surrounding whitespace `int.Parse` tolerates, nor its 32-bit overflow exception, because the offsets the seeding produces never reach either.
- Offsets.ConvertToUtc: works on unbounded integer minutes. It does not model the range limits of `TimeSpan` and `DateTime`, because times here are whole minutes without a calendar.
- Entities.Message: takes the rendering of a UTC time as a parameter, because the source renders `DateTime` with the host's culture.
