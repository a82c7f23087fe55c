/** The first loop of the upload: each typed record is checked against the
    city table and then the event-code table; a record that fails either
    check gives one warning and is skipped, every other record becomes an
    event whose UTC time is its local time converted with its city's
    offset. An offset that does not parse throws in the source, which ends
    the loop (the run then reports a processing error). */
module Resolution {
  import opened Wrappers
  import opened Offsets
  import opened Seeder
  import opened Entities

  /** Both lookups succeed. */
  predicate Passes(r: EventRecord, cities: map<int, City>, codes: map<string, EventCode>) {
    r.cityId in cities && r.eventCode in codes
  }

  /** The record passes both lookups but its city's offset does not parse. */
  predicate Unreadable(r: EventRecord, cities: map<int, City>, codes: map<string, EventCode>) {
    Passes(r, cities, codes) && ParseOffset(cities[r.cityId].timeZone.utcOffset).None?
  }

  /** The warning a record that fails a lookup gives: the city is checked
      first, so a record failing both is reported for its city. */
  function RejectionWarning(r: EventRecord, cities: map<int, City>): Warning {
    if r.cityId !in cities then UnknownCity(r.cityId, r.equipmentId)
    else UnknownEventCode(r.eventCode, r.equipmentId)
  }

  /** The records that pass both lookups, in file order. */
  function Passing(records: seq<EventRecord>, cities: map<int, City>, codes: map<string, EventCode>): seq<EventRecord> {
    if |records| == 0 then []
    else
      var rest := Passing(records[..|records| - 1], cities, codes);
      if Passes(records[|records| - 1], cities, codes) then rest + [records[|records| - 1]] else rest
  }

  /** The warnings of the records that fail a lookup, in file order. */
  function Rejections(records: seq<EventRecord>, cities: map<int, City>, codes: map<string, EventCode>): seq<Warning> {
    if |records| == 0 then []
    else
      var rest := Rejections(records[..|records| - 1], cities, codes);
      var r := records[|records| - 1];
      if Passes(r, cities, codes) then rest else rest + [RejectionWarning(r, cities)]
  }

  /** The event kept for a passing record: same equipment, code, city and
      local time, and a UTC time the conversion gives for the city. */
  predicate Keeps(e: Event, r: EventRecord, cities: map<int, City>) {
    && e.equipmentId == r.equipmentId
    && e.code == r.eventCode
    && e.cityId == r.cityId
    && e.localTime == r.eventTime
    && r.cityId in cities
    && ConvertToUtc(r.eventTime, cities[r.cityId].timeZone.utcOffset) == Some(e.utcTime)
  }

  /** State of the resolution loop: the events built so far, the warnings
      added so far, and whether the loop was ended by a throw. */
  datatype Resolution = Resolution(events: seq<Event>, warnings: seq<Warning>, aborted: bool)

  /** The resolution loop over the records. Each event's id is its position
      in the event list, and every warning it gives is a lookup warning. */
  function Resolve(records: seq<EventRecord>, cities: map<int, City>, codes: map<string, EventCode>): (res: Resolution)
    ensures forall i :: 0 <= i < |res.events| ==> res.events[i].id == i
    ensures forall i :: 0 <= i < |res.warnings| ==> res.warnings[i].IsResolution()
  {
    if |records| == 0 then Resolution([], [], false)
    else
      var prev := Resolve(records[..|records| - 1], cities, codes);
      var r := records[|records| - 1];
      if prev.aborted then prev
      else if r.cityId !in cities then prev.(warnings := prev.warnings + [UnknownCity(r.cityId, r.equipmentId)])
      else if r.eventCode !in codes then prev.(warnings := prev.warnings + [UnknownEventCode(r.eventCode, r.equipmentId)])
      else match ConvertToUtc(r.eventTime, cities[r.cityId].timeZone.utcOffset)
        case None => prev.(aborted := true)
        case Some(utc) =>
          var e := Event(|prev.events|, r.equipmentId, r.eventCode, r.cityId, r.eventTime, utc);
          prev.(events := prev.events + [e])
  }

  /** The loop is ended by a throw exactly when some record passing both
      lookups has a city offset that does not parse. */
  lemma {:induction false} ResolveAbortsExactly(records: seq<EventRecord>, cities: map<int, City>, codes: map<string, EventCode>)
    ensures Resolve(records, cities, codes).aborted <==> exists i :: 0 <= i < |records| && Unreadable(records[i], cities, codes)
  {
    if |records| > 0 {
      var prefix := records[..|records| - 1];
      ResolveAbortsExactly(prefix, cities, codes);
      assert forall i :: 0 <= i < |prefix| ==> prefix[i] == records[i];
    }
  }

  /** If no offset failed to parse, the events are exactly the records
      passing both lookups, in file order, with their fields kept and their
      UTC times converted; and the warnings are exactly one per failing
      record, naming the city when the city is unknown and otherwise the
      code. */
  lemma {:induction false} ResolveKeepsPassing(records: seq<EventRecord>, cities: map<int, City>, codes: map<string, EventCode>)
    requires !Resolve(records, cities, codes).aborted
    ensures var res := Resolve(records, cities, codes);
      && |res.events| == |Passing(records, cities, codes)|
      && (forall i :: 0 <= i < |res.events| ==> Keeps(res.events[i], Passing(records, cities, codes)[i], cities))
      && res.warnings == Rejections(records, cities, codes)
  {
    if |records| > 0 {
      ResolveKeepsPassing(records[..|records| - 1], cities, codes);
    }
  }

  /** When an offset fails to parse, the events and warnings of the records
      before the first such record are kept and nothing after it is read. */
  lemma {:induction false} ResolveStopsAtFirstUnreadable(
    records: seq<EventRecord>, cities: map<int, City>, codes: map<string, EventCode>, k: nat)
    requires k < |records| && Unreadable(records[k], cities, codes)
    requires forall j :: 0 <= j < k ==> !Unreadable(records[j], cities, codes)
    ensures Resolve(records, cities, codes) == Resolve(records[..k], cities, codes).(aborted := true)
  {
    if k == |records| - 1 {
      assert records[..|records| - 1] == records[..k];
    } else {
      var prefix := records[..|records| - 1];
      assert prefix[..k] == records[..k];
      ResolveStopsAtFirstUnreadable(prefix, cities, codes, k);
    }
  }

  /** Without parse failures, every record yields exactly one of an event
      or a warning. */
  lemma {:induction false} EachRecordOnce(records: seq<EventRecord>, cities: map<int, City>, codes: map<string, EventCode>)
    ensures |Passing(records, cities, codes)| + |Rejections(records, cities, codes)| == |records|
  {
    if |records| > 0 {
      EachRecordOnce(records[..|records| - 1], cities, codes);
    }
  }
}
