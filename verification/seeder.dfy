/** Reference data seeding (DbSeeder): the table from time-zone name to
    offset string, and the creation of one time zone per distinct zone name
    followed by one city per seed record, which fails on a repeated city
    id. */
module Seeder {
  import opened Wrappers
  import opened Sequences
  import opened Offsets

  /** One row of the city seed file. */
  datatype CityRecord = CityRecord(cityId: int, cityName: string, timeZone: string)

  /** A time zone row: its name and its fixed offset string. */
  datatype AppTimeZone = AppTimeZone(timeZoneName: string, utcOffset: string)

  /** A city row, with its time zone loaded (the source reads cities with
      their zone included). */
  datatype City = City(cityId: int, cityName: string, timeZone: AppTimeZone)

  /** The offset assigned to a time-zone name. Total: an unknown name gets
      "+00:00". Every result has the shape sign, HH, ':', MM. */
  function GetUtcOffset(timeZoneName: string): (r: string)
    ensures OffsetShape(r)
  {
    match timeZoneName
    case "Pacific Standard Time" => "-08:00"
    case "Mountain Standard Time" => "-07:00"
    case "Canada Central Standard Time" => "-06:00"
    case "Central Standard Time" => "-06:00"
    case "Eastern Standard Time" => "-05:00"
    case "Atlantic Standard Time" => "-04:00"
    case "Newfoundland Standard Time" => "-03:30"
    case _ => "+00:00"
  }

  /** The names the table knows. */
  predicate KnownZone(name: string) {
    name in {"Pacific Standard Time", "Mountain Standard Time",
             "Canada Central Standard Time", "Central Standard Time",
             "Eastern Standard Time", "Atlantic Standard Time",
             "Newfoundland Standard Time"}
  }

  /** Minutes east of UTC that the offset of a zone name denotes. */
  function ZoneMinutes(name: string): int {
    ShapeMinutes(GetUtcOffset(name))
  }

  /** The offset of every zone name parses, so converting a time in it never
      fails, and the conversion subtracts exactly `ZoneMinutes`. */
  lemma ZoneOffsetConverts(name: string, local: int)
    ensures ConvertToUtc(local, GetUtcOffset(name)) == Some(local - ZoneMinutes(name))
  {
    ConvertShaped(local, GetUtcOffset(name));
  }

  /** The offsets in minutes of the North American zones the table names. */
  lemma ZoneMinutesTable()
    ensures ZoneMinutes("Pacific Standard Time") == -8 * 60
    ensures ZoneMinutes("Mountain Standard Time") == -7 * 60
    ensures ZoneMinutes("Canada Central Standard Time") == -6 * 60
    ensures ZoneMinutes("Central Standard Time") == -6 * 60
    ensures ZoneMinutes("Eastern Standard Time") == -5 * 60
    ensures ZoneMinutes("Atlantic Standard Time") == -4 * 60
    ensures ZoneMinutes("Newfoundland Standard Time") == -(3 * 60 + 30)
  {
  }

  /** A name the table does not know gets offset zero: its local time is
      taken to be UTC. */
  lemma UnknownZoneIsUtc(name: string, local: int)
    requires !KnownZone(name)
    ensures ZoneMinutes(name) == 0
    ensures ConvertToUtc(local, GetUtcOffset(name)) == Some(local)
  {
    ZoneOffsetConverts(name, local);
  }

  /** Newfoundland is the one zone whose offset is not a whole number of
      hours; a Newfoundland local time is 3h30 = 210 minutes behind UTC. */
  lemma OnlyNewfoundlandHasHalfHour(name: string, local: int)
    ensures ZoneMinutes(name) % 60 != 0 <==> name == "Newfoundland Standard Time"
    ensures name == "Newfoundland Standard Time" ==>
      ConvertToUtc(local, GetUtcOffset(name)) == Some(local + 210)
  {
    ZoneOffsetConverts(name, local);
    WholeHourOffsets();
    var r := GetUtcOffset(name);
    if name == "Newfoundland Standard Time" {
      ZoneMinutesTable();
      assert ZoneMinutes(name) == -210;
    } else {
      assert r in {"-08:00", "-07:00", "-06:00", "-05:00", "-04:00", "+00:00"};
      var m := ZoneMinutes(name);
      assert m == -480 || m == -420 || m == -360 || m == -300 || m == -240 || m == 0;
      assert m % 60 == 0;
    }
  }

  lemma WholeHourOffsets()
    ensures ShapeMinutes("-08:00") == -480 && ShapeMinutes("-07:00") == -420
    ensures ShapeMinutes("-06:00") == -360 && ShapeMinutes("-05:00") == -300
    ensures ShapeMinutes("-04:00") == -240 && ShapeMinutes("+00:00") == 0
    ensures ShapeMinutes("-03:30") == -210
  {
  }

  /** The zone names of the seed records, in file order. */
  function ZoneNames(records: seq<CityRecord>): (names: seq<string>)
    ensures |names| == |records|
    ensures forall i :: 0 <= i < |records| ==> names[i] == records[i].timeZone
  {
    if |records| == 0 then [] else ZoneNames(records[..|records| - 1]) + [records[|records| - 1].timeZone]
  }

  function Names(zones: seq<AppTimeZone>): (names: seq<string>)
    ensures |names| == |zones|
    ensures forall i :: 0 <= i < |zones| ==> names[i] == zones[i].timeZoneName
  {
    if |zones| == 0 then [] else Names(zones[..|zones| - 1]) + [zones[|zones| - 1].timeZoneName]
  }

  /** The dictionary's keys are exactly the names of the zone list. */
  ghost predicate KeyedByName(zoneMap: map<string, AppTimeZone>, zones: seq<AppTimeZone>) {
    forall n :: n in zoneMap <==> n in Names(zones)
  }

  /** The time-zone pass of the seeding: one zone per distinct zone name of
      the records, in the order the names first appear, each with the
      offset the table gives its name. */
  method SeedTimeZones(records: seq<CityRecord>) returns (zones: seq<AppTimeZone>)
    ensures Names(zones) == Distinct(ZoneNames(records))
    ensures forall i :: 0 <= i < |zones| ==> zones[i].utcOffset == GetUtcOffset(zones[i].timeZoneName)
  {
    zones := [];
    var zoneMap: map<string, AppTimeZone> := map[];
    var k := 0;
    while k < |records|
      invariant 0 <= k <= |records|
      invariant Names(zones) == Distinct(ZoneNames(records[..k]))
      invariant KeyedByName(zoneMap, zones)
      invariant forall i :: 0 <= i < |zones| ==> zones[i].utcOffset == GetUtcOffset(zones[i].timeZoneName)
    {
      var name := records[k].timeZone;
      if name !in zoneMap {
        var tz := AppTimeZone(name, GetUtcOffset(name));
        AddZoneStep(records, k, zones, zoneMap);
        zones := zones + [tz];
        zoneMap := zoneMap[name := tz];
      } else {
        KeepZoneStep(records, k, zones, zoneMap);
      }
      k := k + 1;
    }
    assert records[..k] == records;
  }

  /** A zone name not seen before is added to both the list and the
      dictionary, keeping the list the distinct names read so far. */
  lemma AddZoneStep(records: seq<CityRecord>, k: nat, zones: seq<AppTimeZone>, zoneMap: map<string, AppTimeZone>)
    requires k < |records|
    requires Names(zones) == Distinct(ZoneNames(records[..k]))
    requires KeyedByName(zoneMap, zones)
    requires records[k].timeZone !in zoneMap
    requires forall i :: 0 <= i < |zones| ==> zones[i].utcOffset == GetUtcOffset(zones[i].timeZoneName)
    ensures var tz := AppTimeZone(records[k].timeZone, GetUtcOffset(records[k].timeZone));
      && Names(zones + [tz]) == Distinct(ZoneNames(records[..k + 1]))
      && KeyedByName(zoneMap[tz.timeZoneName := tz], zones + [tz])
      && (forall i :: 0 <= i < |zones + [tz]| ==> (zones + [tz])[i].utcOffset == GetUtcOffset((zones + [tz])[i].timeZoneName))
  {
    var tz := AppTimeZone(records[k].timeZone, GetUtcOffset(records[k].timeZone));
    DistinctStep(records, k);
    MapTracksNames(zoneMap, zones, tz);
  }

  /** A zone name seen before changes neither the list nor the dictionary. */
  lemma KeepZoneStep(records: seq<CityRecord>, k: nat, zones: seq<AppTimeZone>, zoneMap: map<string, AppTimeZone>)
    requires k < |records|
    requires Names(zones) == Distinct(ZoneNames(records[..k]))
    requires KeyedByName(zoneMap, zones)
    requires records[k].timeZone in zoneMap
    ensures Names(zones) == Distinct(ZoneNames(records[..k + 1]))
  {
    DistinctStep(records, k);
  }

  lemma DistinctStep(records: seq<CityRecord>, k: nat)
    requires k < |records|
    ensures var d := Distinct(ZoneNames(records[..k])); var name := records[k].timeZone;
      Distinct(ZoneNames(records[..k + 1])) == if name in d then d else d + [name]
  {
    assert records[..k + 1][..k] == records[..k];
    var names := ZoneNames(records[..k + 1]);
    assert names[..|names| - 1] == ZoneNames(records[..k]);
  }

  /** Adding a zone to both the dictionary and the list keeps the
      dictionary's keys equal to the list's names. */
  lemma MapTracksNames(zoneMap: map<string, AppTimeZone>, zones: seq<AppTimeZone>, tz: AppTimeZone)
    requires KeyedByName(zoneMap, zones)
    ensures KeyedByName(zoneMap[tz.timeZoneName := tz], zones + [tz])
    ensures Names(zones + [tz]) == Names(zones) + [tz.timeZoneName]
  {
    NamesAppend(zones, tz);
  }

  lemma NamesAppend(zones: seq<AppTimeZone>, tz: AppTimeZone)
    ensures Names(zones + [tz]) == Names(zones) + [tz.timeZoneName]
  {
    assert (zones + [tz])[..|zones|] == zones;
  }

  /** Looks a zone up by name (the source reloads the saved zones into a
      dictionary keyed by name). */
  function ZoneNamed(zones: seq<AppTimeZone>, name: string): (r: Option<AppTimeZone>)
    ensures r.Some? <==> name in Names(zones)
    ensures r.Some? ==> r.value in zones && r.value.timeZoneName == name
  {
    if |zones| == 0 then None
    else if zones[|zones| - 1].timeZoneName == name then Some(zones[|zones| - 1])
    else ZoneNamed(zones[..|zones| - 1], name)
  }

  /** After the time-zone pass, looking up the zone of any record by name
      succeeds and yields that name with the table's offset. */
  lemma {:induction false} ZoneLookupSucceeds(records: seq<CityRecord>, zones: seq<AppTimeZone>)
    requires Names(zones) == Distinct(ZoneNames(records))
    requires forall i :: 0 <= i < |zones| ==> zones[i].utcOffset == GetUtcOffset(zones[i].timeZoneName)
    ensures forall i :: 0 <= i < |records| ==>
      ZoneNamed(zones, records[i].timeZone) == Some(AppTimeZone(records[i].timeZone, GetUtcOffset(records[i].timeZone)))
  {
    forall i | 0 <= i < |records|
      ensures ZoneNamed(zones, records[i].timeZone) == Some(AppTimeZone(records[i].timeZone, GetUtcOffset(records[i].timeZone)))
    {
      var name := records[i].timeZone;
      assert ZoneNames(records)[i] == name;
      assert name in Names(zones);
      var tz := ZoneNamed(zones, name).value;
      var j :| 0 <= j < |zones| && zones[j] == tz;
    }
  }

  /** No two seed records share a city id. */
  predicate UniqueCityIds(records: seq<CityRecord>) {
    forall i, j :: 0 <= i < j < |records| ==> records[i].cityId != records[j].cityId
  }

  /** The city pass of the seeding: one city per record, with the record's
      id and name and the zone found under the record's zone name. Adding a
      second city under an id already added throws, so the pass fails
      exactly when two records share a city id; the zones saved before it
      stay saved. */
  method SeedCities(records: seq<CityRecord>, zones: seq<AppTimeZone>) returns (cities: Option<seq<City>>)
    requires forall i :: 0 <= i < |records| ==> ZoneNamed(zones, records[i].timeZone).Some?
    ensures cities.Some? <==> UniqueCityIds(records)
    ensures cities.Some? ==> |cities.value| == |records|
    ensures cities.Some? ==> forall i :: 0 <= i < |records| ==>
      cities.value[i] == City(records[i].cityId, records[i].cityName, ZoneNamed(zones, records[i].timeZone).value)
  {
    var added: seq<City> := [];
    var ids: set<int> := {};
    var k := 0;
    while k < |records|
      invariant 0 <= k <= |records|
      invariant |added| == k
      invariant forall i :: 0 <= i < k ==>
        added[i] == City(records[i].cityId, records[i].cityName, ZoneNamed(zones, records[i].timeZone).value)
      invariant forall id :: id in ids <==> exists i :: 0 <= i < k && records[i].cityId == id
      invariant UniqueCityIds(records[..k])
    {
      var record := records[k];
      if record.cityId in ids {
        var i :| 0 <= i < k && records[i].cityId == record.cityId;
        assert !UniqueCityIds(records) by {
          assert records[i].cityId == records[k].cityId;
        }
        return None;
      }
      UniqueSnoc(records, k);
      var tz := ZoneNamed(zones, record.timeZone).value;
      added := added + [City(record.cityId, record.cityName, tz)];
      ids := ids + {record.cityId};
      k := k + 1;
    }
    assert records[..k] == records;
    cities := Some(added);
  }

  /** A record whose city id no earlier record has keeps the ids unique. */
  lemma UniqueSnoc(records: seq<CityRecord>, k: nat)
    requires k < |records| && UniqueCityIds(records[..k])
    requires forall i :: 0 <= i < k ==> records[i].cityId != records[k].cityId
    ensures UniqueCityIds(records[..k + 1])
  {
    var before, next := records[..k], records[..k + 1];
    forall i, j | 0 <= i < j < k + 1 ensures next[i].cityId != next[j].cityId {
      if j < k {
        assert next[i] == before[i] && next[j] == before[j];
      }
    }
  }

  /** The whole seeding of zones and cities. The zones are always saved: the
      distinct zone names in first-appearance order, each with the table's
      offset for its name. When no two records
      share a city id, each record becomes a city with the record's id and
      name, referencing the zone named in the record, whose offset is the
      table's offset for that name; otherwise no city is saved. */
  method SeedTimeZonesAndCities(records: seq<CityRecord>)
    returns (zones: seq<AppTimeZone>, cities: Option<seq<City>>)
    ensures Names(zones) == Distinct(ZoneNames(records))
    ensures forall i :: 0 <= i < |zones| ==> zones[i].utcOffset == GetUtcOffset(zones[i].timeZoneName)
    ensures cities.Some? <==> UniqueCityIds(records)
    ensures cities.Some? ==> |cities.value| == |records|
    ensures cities.Some? ==> forall i :: 0 <= i < |records| ==>
      cities.value[i] == City(records[i].cityId, records[i].cityName,
                              AppTimeZone(records[i].timeZone, GetUtcOffset(records[i].timeZone)))
  {
    zones := SeedTimeZones(records);
    ZoneLookupSucceeds(records, zones);
    cities := SeedCities(records, zones);
  }

  /** Every city produced by the seeding carries an offset that parses, so
      no event in a seeded city can make the time conversion fail. */
  lemma SeededOffsetsParse(records: seq<CityRecord>, cities: seq<City>)
    requires |cities| == |records|
    requires forall i :: 0 <= i < |records| ==>
      cities[i].timeZone == AppTimeZone(records[i].timeZone, GetUtcOffset(records[i].timeZone))
    ensures forall i :: 0 <= i < |cities| ==> ParseOffset(cities[i].timeZone.utcOffset).Some?
  {
    forall i | 0 <= i < |cities|
      ensures ParseOffset(cities[i].timeZone.utcOffset).Some?
    {
      ShapedOffsetParses(cities[i].timeZone.utcOffset);
    }
  }
}
