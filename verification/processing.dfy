/** The whole upload (`ProcessEventsFileAsync`) once the file has been read
    into typed records and the reference tables loaded: resolve the
    records, group and sort the events, run the trip machine on every
    group, and commit. The commit is a parameter: it either succeeds or
    fails with a message, in which case nothing is saved. */
module Processing {
  import opened Wrappers
  import opened Sequences
  import opened Offsets
  import opened Seeder
  import opened Entities
  import opened Resolution
  import opened Grouping
  import opened TripMachine

  datatype CommitOutcome = Committed | Rejected(message: string)

  /** The tallies, warnings and errors returned to the caller. */
  datatype UploadResult = UploadResult(
    eventsProcessed: nat,
    tripsCreated: nat,
    successCount: nat,
    errorCount: nat,
    warnings: seq<Warning>,
    errors: seq<string>)

  /** The result together with what the run saved. */
  datatype Upload = Upload(result: UploadResult, savedTrips: seq<Trip>, savedEvents: seq<Event>)

  const ProcessingErrorPrefix := "Processing error: "
  const DatabaseErrorPrefix := "Database error: "

  /** The trip machine over every group in turn, trips and warnings
      concatenated in group order. */
  function RunGroups(groups: seq<Group>): (r: Outcome)
    ensures |r.trips| == CountIf(Flatten(groups), IsRelease)
  {
    if |groups| == 0 then Outcome([], [])
    else
      var prev := RunGroups(groups[..|groups| - 1]);
      var g := groups[|groups| - 1];
      var o := TripsOf(g.equipmentId, g.events);
      CountIfAppend(Flatten(groups[..|groups| - 1]), g.events, IsRelease);
      Outcome(prev.trips + o.trips, prev.warnings + o.warnings)
  }

  /** Grouping and the trip machine over the processed events. */
  function BuildTrips(events: seq<Event>): Outcome {
    RunGroups(GroupEvents(events))
  }

  /** The upload. `parseFailure` is the message of the exception a city
      offset that does not parse raises. When that happens the run stops
      with one processing error, keeping the warnings and the count of
      events resolved until then; otherwise the trips are built and, if the
      commit succeeds, every processed event and every trip is saved and
      the trips and successes are counted; if it fails, nothing is saved and
      one database error is reported. */
  function ProcessEventsFile(
    records: seq<EventRecord>, cities: map<int, City>, codes: map<string, EventCode>,
    commit: CommitOutcome, parseFailure: string): (u: Upload)
    ensures var res := Resolve(records, cities, codes);
      && u.result.errorCount == |u.result.errors| <= 1
      && (u.result.errorCount == 0 <==> !res.aborted && commit.Committed?)
      && (res.aborted ==> u.result.errors == [ProcessingErrorPrefix + parseFailure])
      && (!res.aborted && commit.Rejected? ==> u.result.errors == [DatabaseErrorPrefix + commit.message])
      && (u.result.errorCount == 1 ==>
            u.result.tripsCreated == 0 && u.result.successCount == 0 && u.savedTrips == [] && u.savedEvents == [])
      && (u.result.errorCount == 0 ==>
            && u.result.tripsCreated == |u.savedTrips|
            && u.result.successCount == u.result.eventsProcessed == |u.savedEvents|)
      && u.result.eventsProcessed == |res.events|
      && res.warnings <= u.result.warnings
  {
    var res := Resolve(records, cities, codes);
    if res.aborted then
      Upload(UploadResult(|res.events|, 0, 0, 1, res.warnings, [ProcessingErrorPrefix + parseFailure]), [], [])
    else
      var built := BuildTrips(res.events);
      var warnings := res.warnings + built.warnings;
      match commit
      case Committed =>
        Upload(UploadResult(|res.events|, |built.trips|, |res.events|, 0, warnings, []), built.trips, res.events)
      case Rejected(msg) =>
        Upload(UploadResult(|res.events|, 0, 0, 1, warnings, [DatabaseErrorPrefix + msg]), [], [])
  }

  /** Without a parse failure, the processed count is the number of records
      that pass both lookups; each saved event keeps its record's equipment,
      code, city and local time and has its UTC time; and every record is
      either counted or warned about, never both. */
  lemma EventsProcessedCountsResolved(
    records: seq<EventRecord>, cities: map<int, City>, codes: map<string, EventCode>,
    commit: CommitOutcome, parseFailure: string)
    requires !Resolve(records, cities, codes).aborted
    ensures var u := ProcessEventsFile(records, cities, codes, commit, parseFailure);
      && u.result.eventsProcessed == |Passing(records, cities, codes)|
      && u.result.eventsProcessed + |Rejections(records, cities, codes)| == |records|
      && (commit.Committed? ==>
            forall i :: 0 <= i < |u.savedEvents| ==> Keeps(u.savedEvents[i], Passing(records, cities, codes)[i], cities))
  {
    ResolveKeepsPassing(records, cities, codes);
    EachRecordOnce(records, cities, codes);
  }

  predicate IsReleaseRecord(r: EventRecord) { r.eventCode == Release }

  lemma {:induction false} CountReleasesKept(events: seq<Event>, records: seq<EventRecord>)
    requires |events| == |records|
    requires forall i :: 0 <= i < |events| ==> events[i].code == records[i].eventCode
    ensures CountIf(events, IsRelease) == CountIf(records, IsReleaseRecord)
  {
    if |events| > 0 {
      CountReleasesKept(events[..|events| - 1], records[..|records| - 1]);
    }
  }

  /** After a successful commit, the number of trips created is the number
      of "W" records that passed both lookups. */
  lemma TripsCreatedCountsReleases(
    records: seq<EventRecord>, cities: map<int, City>, codes: map<string, EventCode>, parseFailure: string)
    requires !Resolve(records, cities, codes).aborted
    ensures ProcessEventsFile(records, cities, codes, Committed, parseFailure).result.tripsCreated
      == CountIf(Passing(records, cities, codes), IsReleaseRecord)
  {
    var res := Resolve(records, cities, codes);
    ResolveKeepsPassing(records, cities, codes);
    GroupingIsPermutation(res.events);
    CountIfPermutation(Flatten(GroupEvents(res.events)), res.events, IsRelease);
    CountReleasesKept(res.events, Passing(records, cities, codes));
  }

  /** Every event in a group is of the group's equipment. */
  lemma GroupMembersOwnId(events: seq<Event>)
    ensures var groups := GroupEvents(events);
      forall i, k :: 0 <= i < |groups| && 0 <= k < |groups[i].events| ==>
        groups[i].events[k].equipmentId == groups[i].equipmentId
  {
    var groups := GroupEvents(events);
    GroupsHoldOwnEvents(events);
    forall i, k | 0 <= i < |groups| && 0 <= k < |groups[i].events|
      ensures groups[i].events[k].equipmentId == groups[i].equipmentId
    {
      assert groups[i].events[k] in multiset(groups[i].events);
    }
  }

  lemma {:induction false} RunGroupsWellFormed(groups: seq<Group>)
    requires forall i, k :: 0 <= i < |groups| && 0 <= k < |groups[i].events| ==>
      groups[i].events[k].equipmentId == groups[i].equipmentId
    ensures var r := RunGroups(groups);
      && (forall t :: t in r.trips ==> WellFormed(t, t.equipmentId))
      && (forall w :: w in r.warnings ==> !w.IsResolution())
  {
    if |groups| > 0 {
      var g := groups[|groups| - 1];
      RunGroupsWellFormed(groups[..|groups| - 1]);
      TripsOfWellFormed(g.equipmentId, g.events);
      var o := TripsOf(g.equipmentId, g.events);
      forall t | t in o.trips ensures WellFormed(t, t.equipmentId) {
        assert WellFormed(t, g.equipmentId);
      }
    }
  }

  /** Every saved trip has the shape `WellFormed` describes for its own
      equipment (so every event attached to a trip is of that trip's
      equipment), and, the groups being sorted, no total is negative. */
  lemma SavedTripsWellFormed(
    records: seq<EventRecord>, cities: map<int, City>, codes: map<string, EventCode>,
    commit: CommitOutcome, parseFailure: string)
    ensures var u := ProcessEventsFile(records, cities, codes, commit, parseFailure);
      forall t :: t in u.savedTrips ==>
        WellFormed(t, t.equipmentId) && (t.totalTime.Some? ==> t.totalTime.value >= 0)
  {
    var res := Resolve(records, cities, codes);
    var groups := GroupEvents(res.events);
    GroupMembersOwnId(res.events);
    RunGroupsWellFormed(groups);
    GroupsOrdered(res.events);
    RunGroupsTotals(groups);
  }

  lemma {:induction false} RunGroupsTotals(groups: seq<Group>)
    requires forall i :: 0 <= i < |groups| ==> SortedByUtc(groups[i].events)
    ensures forall t :: t in RunGroups(groups).trips && t.totalTime.Some? ==> t.totalTime.value >= 0
  {
    if |groups| > 0 {
      var g := groups[|groups| - 1];
      RunGroupsTotals(groups[..|groups| - 1]);
      TotalsNonNegative(g.equipmentId, g.events);
    }
  }

  lemma {:induction false} TripEventsConcat(a: seq<Trip>, b: seq<Trip>)
    ensures TripEvents(a + b) == TripEvents(a) + TripEvents(b)
  {
    if |b| > 0 {
      var b' := b[..|b| - 1];
      assert (a + b)[..|a + b| - 1] == a + b';
      TripEventsConcat(a, b');
    } else {
      assert a + b == a;
    }
  }

  lemma {:induction false} RunGroupsAttached(groups: seq<Group>)
    ensures multiset(TripEvents(RunGroups(groups).trips)) <= multiset(Flatten(groups))
  {
    if |groups| > 0 {
      var g := groups[|groups| - 1];
      var prev := RunGroups(groups[..|groups| - 1]);
      RunGroupsAttached(groups[..|groups| - 1]);
      TripsOfAttachesEachAtMostOnce(g.equipmentId, g.events);
      TripEventsConcat(prev.trips, TripsOf(g.equipmentId, g.events).trips);
    }
  }

  /** The saved trips hold only saved events, and each of those at most
      once: an event belongs to at most one trip. */
  lemma AttachedAtMostOnce(
    records: seq<EventRecord>, cities: map<int, City>, codes: map<string, EventCode>,
    commit: CommitOutcome, parseFailure: string)
    ensures var u := ProcessEventsFile(records, cities, codes, commit, parseFailure);
      && multiset(TripEvents(u.savedTrips)) <= multiset(u.savedEvents)
      && forall e :: multiset(TripEvents(u.savedTrips))[e] <= 1
  {
    var res := Resolve(records, cities, codes);
    var u := ProcessEventsFile(records, cities, codes, commit, parseFailure);
    if !res.aborted && commit.Committed? {
      RunGroupsAttached(GroupEvents(res.events));
      GroupingIsPermutation(res.events);
      forall e ensures multiset(res.events)[e] <= 1 {
        EventOccursOnce(res.events, e);
      }
    }
  }

  /** In a list whose ids are the positions, no event occurs twice. */
  lemma {:induction false} EventOccursOnce(events: seq<Event>, e: Event)
    requires forall i :: 0 <= i < |events| ==> events[i].id == i
    ensures multiset(events)[e] <= 1
  {
    if |events| > 0 {
      var p := events[..|events| - 1];
      EventOccursOnce(p, e);
      assert events == p + [events[|events| - 1]];
      if e == events[|events| - 1] {
        assert e !in p;
      }
    }
  }

  /** All warnings of reference resolution come before all warnings of the
      trip machine. */
  lemma ResolutionWarningsFirst(
    records: seq<EventRecord>, cities: map<int, City>, codes: map<string, EventCode>,
    commit: CommitOutcome, parseFailure: string)
    ensures var k := |Resolve(records, cities, codes).warnings|;
      var ws := ProcessEventsFile(records, cities, codes, commit, parseFailure).result.warnings;
      && k <= |ws|
      && (forall i :: 0 <= i < k ==> ws[i].IsResolution())
      && (forall i :: k <= i < |ws| ==> !ws[i].IsResolution())
  {
    var res := Resolve(records, cities, codes);
    var rest := if res.aborted then [] else BuildTrips(res.events).warnings;
    UploadWarnings(records, cities, codes, commit, parseFailure);
    if !res.aborted {
      BuiltWarningsNotResolution(res.events);
    }
    ResolutionThenOthers(res.warnings, rest);
  }

  lemma ResolutionThenOthers(a: seq<Warning>, b: seq<Warning>)
    requires forall i :: 0 <= i < |a| ==> a[i].IsResolution()
    requires forall w :: w in b ==> !w.IsResolution()
    ensures forall i :: 0 <= i < |a| ==> (a + b)[i].IsResolution()
    ensures forall i :: |a| <= i < |a + b| ==> !(a + b)[i].IsResolution()
  {
    forall i | |a| <= i < |a + b| ensures !(a + b)[i].IsResolution() {
      assert (a + b)[i] == b[i - |a|];
      assert b[i - |a|] in b;
    }
  }

  /** The upload's warnings: those of resolution, then, unless the run
      stopped, those of the trip machine. */
  lemma UploadWarnings(
    records: seq<EventRecord>, cities: map<int, City>, codes: map<string, EventCode>,
    commit: CommitOutcome, parseFailure: string)
    ensures var res := Resolve(records, cities, codes);
      ProcessEventsFile(records, cities, codes, commit, parseFailure).result.warnings
        == res.warnings + (if res.aborted then [] else BuildTrips(res.events).warnings)
  {
    var res := Resolve(records, cities, codes);
    if res.aborted {
      assert res.warnings + [] == res.warnings;
    }
  }

  /** The trip machine gives no lookup warning. */
  lemma BuiltWarningsNotResolution(events: seq<Event>)
    ensures forall w :: w in BuildTrips(events).warnings ==> !w.IsResolution()
  {
    GroupMembersOwnId(events);
    RunGroupsWellFormed(GroupEvents(events));
  }

  /** With cities whose zones were seeded (each zone's offset is the one
      the seeding table gives its name), no offset fails to parse, so the
      run never stops with a processing error. */
  lemma SeededCitiesNeverAbort(records: seq<EventRecord>, cities: map<int, City>, codes: map<string, EventCode>)
    requires forall id :: id in cities ==>
      cities[id].timeZone.utcOffset == GetUtcOffset(cities[id].timeZone.timeZoneName)
    ensures !Resolve(records, cities, codes).aborted
  {
    ResolveAbortsExactly(records, cities, codes);
    forall i | 0 <= i < |records| && records[i].cityId in cities
      ensures ParseOffset(cities[records[i].cityId].timeZone.utcOffset).Some?
    {
      ShapedOffsetParses(cities[records[i].cityId].timeZone.utcOffset);
    }
  }

  /** Reference data like the source's tests use: three cities in zones at
      -05:00, -06:00 and -08:00 and the codes W, Z, A and D. */
  function SampleCities(): map<int, City> {
    map[1 := City(1, "New York", AppTimeZone("Eastern", "-05:00")),
        2 := City(2, "Chicago", AppTimeZone("Central", "-06:00")),
        3 := City(3, "Los Angeles", AppTimeZone("Pacific", "-08:00"))]
  }

  function SampleCodes(): map<string, EventCode> {
    map["W" := EventCode("W", "Released", "Equipment released"),
        "Z" := EventCode("Z", "Placed", "Equipment placed"),
        "A" := EventCode("A", "Arrival", "Arrived at location"),
        "D" := EventCode("D", "Departure", "Departed location")]
  }

  lemma FiltersSnoc(records: seq<EventRecord>, r: EventRecord, cities: map<int, City>, codes: map<string, EventCode>)
    ensures Passing(records + [r], cities, codes)
      == Passing(records, cities, codes) + (if Passes(r, cities, codes) then [r] else [])
    ensures Rejections(records + [r], cities, codes)
      == Rejections(records, cities, codes) + (if Passes(r, cities, codes) then [] else [RejectionWarning(r, cities)])
  {
    assert (records + [r])[..|records|] == records;
  }

  /** The sample offsets all parse. */
  lemma SampleOffsetsParse()
    ensures forall id :: id in SampleCities() ==> ParseOffset(SampleCities()[id].timeZone.utcOffset).Some?
  {
    var cities := SampleCities();
    forall id | id in cities ensures ParseOffset(cities[id].timeZone.utcOffset).Some? {
      if id == 1 {
        EasternExample();
      } else if id == 2 {
        CentralExample();
      } else {
        PacificExample();
      }
    }
  }

  lemma MixedFilters(r0: EventRecord, r1: EventRecord, r2: EventRecord, r3: EventRecord)
    requires r0 == EventRecord("EQ001", "W", 1, 480) && r1 == EventRecord("EQ001", "X", 1, 600)
    requires r2 == EventRecord("EQ001", "Z", 999, 720) && r3 == EventRecord("EQ001", "Z", 2, 960)
    ensures Passing([r0, r1, r2, r3], SampleCities(), SampleCodes()) == [r0, r3]
    ensures Rejections([r0, r1, r2, r3], SampleCities(), SampleCodes())
      == [UnknownEventCode("X", "EQ001"), UnknownCity(999, "EQ001")]
  {
    var cities, codes := SampleCities(), SampleCodes();
    assert codes.Keys == {"W", "Z", "A", "D"};
    assert cities.Keys == {1, 2, 3};
    assert Passes(r0, cities, codes) && Passes(r3, cities, codes);
    assert !Passes(r1, cities, codes) && RejectionWarning(r1, cities) == UnknownEventCode("X", "EQ001");
    assert !Passes(r2, cities, codes) && RejectionWarning(r2, cities) == UnknownCity(999, "EQ001");
    FiltersSnoc([], r0, cities, codes);
    assert [] + [r0] == [r0];
    FiltersSnoc([r0], r1, cities, codes);
    assert [r0] + [r1] == [r0, r1];
    FiltersSnoc([r0, r1], r2, cities, codes);
    assert [r0, r1] + [r2] == [r0, r1, r2];
    FiltersSnoc([r0, r1, r2], r3, cities, codes);
    assert [r0, r1, r2] + [r3] == [r0, r1, r2, r3];
  }

  /** A valid W, a record with unknown code X, a Z in unknown city 999 and
      a valid Z: two events are processed, two warnings are given, the code
      one first, in file order, and the two events make one trip. */
  lemma MixedValidAndInvalidScenario(commit: CommitOutcome, parseFailure: string)
    ensures var u := ProcessEventsFile(MixedRecords(), SampleCities(), SampleCodes(), commit, parseFailure);
      && u.result.eventsProcessed == 2
      && u.result.warnings == [UnknownEventCode("X", "EQ001"), UnknownCity(999, "EQ001")]
      && (commit.Committed? ==>
            && u.result.tripsCreated == 1
            && u.savedEvents == [Ev(0, "W", 1, 480, 780), Ev(1, "Z", 2, 960, 1320)])
  {
    var w, z := Ev(0, "W", 1, 480, 780), Ev(1, "Z", 2, 960, 1320);
    MixedResolution();
    InOrderBuild(w, z);
    UploadWarnings(MixedRecords(), SampleCities(), SampleCodes(), commit, parseFailure);
  }

  /** The records of the mixed scenario, in file order. */
  function MixedRecords(): seq<EventRecord> {
    [EventRecord("EQ001", "W", 1, 480), EventRecord("EQ001", "X", 1, 600),
     EventRecord("EQ001", "Z", 999, 720), EventRecord("EQ001", "Z", 2, 960)]
  }

  lemma MixedResolution()
    ensures var res := Resolve(MixedRecords(), SampleCities(), SampleCodes());
      && !res.aborted
      && res.events == [Ev(0, "W", 1, 480, 780), Ev(1, "Z", 2, 960, 1320)]
      && res.warnings == [UnknownEventCode("X", "EQ001"), UnknownCity(999, "EQ001")]
  {
    MixedKept();
    EasternExample();
    LateCentral();
    KeptPair(Resolve(MixedRecords(), SampleCities(), SampleCodes()).events,
             MixedRecords()[0], MixedRecords()[3], SampleCities(), 780, 1320);
  }

  /** Two events kept for two records, numbered 0 and 1, are determined by
      the records and the UTC times their cities' offsets give. */
  lemma KeptPair(events: seq<Event>, a: EventRecord, b: EventRecord, cities: map<int, City>, ua: int, ub: int)
    requires |events| == 2 && events[0].id == 0 && events[1].id == 1
    requires Keeps(events[0], a, cities) && Keeps(events[1], b, cities)
    requires ConvertToUtc(a.eventTime, cities[a.cityId].timeZone.utcOffset) == Some(ua)
    requires ConvertToUtc(b.eventTime, cities[b.cityId].timeZone.utcOffset) == Some(ub)
    ensures events == [Event(0, a.equipmentId, a.eventCode, a.cityId, a.eventTime, ua),
                       Event(1, b.equipmentId, b.eventCode, b.cityId, b.eventTime, ub)]
  {
  }

  lemma LateCentral()
    ensures ConvertToUtc(16 * 60, "-06:00") == Some(22 * 60)
  {
    assert OffsetShape("-06:00") && ShapeMinutes("-06:00") == -360;
  }

  /** The mixed records resolve without a throw to the events kept for the
      first and last record, and the warnings of the middle two. */
  lemma MixedKept()
    ensures var res := Resolve(MixedRecords(), SampleCities(), SampleCodes());
      && !res.aborted
      && |res.events| == 2
      && Keeps(res.events[0], MixedRecords()[0], SampleCities())
      && Keeps(res.events[1], MixedRecords()[3], SampleCities())
      && res.warnings == [UnknownEventCode("X", "EQ001"), UnknownCity(999, "EQ001")]
  {
    var records := MixedRecords();
    MixedNotAborted();
    ResolveKeepsPassing(records, SampleCities(), SampleCodes());
    MixedFilters(records[0], records[1], records[2], records[3]);
    assert records == [records[0], records[1], records[2], records[3]];
  }

  lemma MixedNotAborted()
    ensures !Resolve(MixedRecords(), SampleCities(), SampleCodes()).aborted
  {
    var records, cities, codes := MixedRecords(), SampleCities(), SampleCodes();
    SampleOffsetsParse();
    ResolveAbortsExactly(records, cities, codes);
    forall i | 0 <= i < |records| ensures !Unreadable(records[i], cities, codes) {
      if Passes(records[i], cities, codes) {
        assert records[i].cityId in cities;
      }
    }
  }

  /** Two events of one equipment already in time order form one group
      and one complete trip, with no warning. */
  lemma InOrderBuild(w: Event, z: Event)
    requires w == Event(0, "EQ001", "W", 1, 480, 780) && z == Event(1, "EQ001", "Z", 2, 960, 1320)
    ensures BuildTrips([w, z])
      == Outcome([Trip("EQ001", Some(1), Some(2), Some(780), Some(1320), Some(540), true, [w, z])], [])
  {
    InOrderGroup(w, z);
    SingleGroup(Group("EQ001", [w, z]));
    CompleteTripScenario();
  }

  /** The trip machine over a single group is its trips and warnings. */
  lemma SingleGroup(g: Group)
    ensures RunGroups([g]) == TripsOf(g.equipmentId, g.events)
  {
    assert [g][..0] == [];
  }

  lemma InOrderGroup(w: Event, z: Event)
    requires w == Event(0, "EQ001", "W", 1, 480, 780) && z == Event(1, "EQ001", "Z", 2, 960, 1320)
    ensures GroupEvents([w, z]) == [Group("EQ001", [w, z])]
  {
    SingleKey(w, z);
    BothMembers(w, z);
    InOrderSort(w, z);
    var groups := GroupEvents([w, z]);
    assert |groups| == 1;
    assert groups[0] == Group("EQ001", [w, z]);
  }

  lemma InOrderSort(w: Event, z: Event)
    requires w.utcTime <= z.utcTime
    ensures SortByUtc([w, z]) == [w, z]
  {
    SortKeepsOrderedInput([w, z]);
  }

  lemma SingleKey(z: Event, w: Event)
    requires z.equipmentId == "EQ001" && w.equipmentId == "EQ001"
    ensures Keys([z, w]) == ["EQ001"]
  {
    var id := "EQ001";
    assert EquipmentIds([z, w]) == [id, id] by {
      assert [z, w][..1] == [z];
    }
    assert [id][..0] == [];
    assert Distinct([id]) == [id];
    assert [id, id][..1] == [id];
  }

  lemma BothMembers(z: Event, w: Event)
    requires z.equipmentId == "EQ001" && w.equipmentId == "EQ001"
    ensures Members([z, w], "EQ001") == [z, w]
  {
    assert [z, w][..1] == [z];
    assert [z][..0] == [];
  }

  /** Grouping two events of one equipment listed out of time order gives
      one group in time order. */
  lemma OutOfOrderGroup(z: Event, w: Event)
    requires z == Event(0, "EQ001", "Z", 2, 960, 1320) && w == Event(1, "EQ001", "W", 1, 480, 780)
    ensures GroupEvents([z, w]) == [Group("EQ001", [w, z])]
  {
    SingleKey(z, w);
    BothMembers(z, w);
    OutOfOrderSort(z, w);
    var groups := GroupEvents([z, w]);
    assert |groups| == 1;
    assert groups[0] == Group("EQ001", [w, z]);
  }

  lemma OutOfOrderSort(z: Event, w: Event)
    requires z == Event(0, "EQ001", "Z", 2, 960, 1320) && w == Event(1, "EQ001", "W", 1, 480, 780)
    ensures SortByUtc([z, w]) == [w, z]
  {
    assert multiset([z, w]) == multiset([w, z]);
    SortIsStable([z, w]);
    SortedStableUnique(SortByUtc([z, w]), [w, z]);
  }

  /** A Z listed before the W that precedes it in time: the sort puts the W
      first, so one complete trip is built. */
  lemma OutOfOrderScenario()
    ensures var z := Event(0, "EQ001", "Z", 2, 960, 1320);
      var w := Event(1, "EQ001", "W", 1, 480, 780);
      BuildTrips([z, w]).trips == [Trip("EQ001", Some(1), Some(2), Some(780), Some(1320), Some(540), true, [w, z])]
  {
    var z := Event(0, "EQ001", "Z", 2, 960, 1320);
    var w := Event(1, "EQ001", "W", 1, 480, 780);
    var id := "EQ001";
    OutOfOrderGroup(z, w);
    var groups := [Group(id, [w, z])];
    RunSnoc(id, [], w);
    RunSnoc(id, [w], z);
    assert [] + [w] == [w] && [w] + [z] == [w, z];
    assert Run(id, [w]) == Machine(Open(OpenTrip(id, w)), [], []);
    assert Run(id, [w, z]) == Machine(NoOpenTrip, [Close(OpenTrip(id, w), z)], []);
    assert groups[..0] == [];
  }
}
