/** The per-equipment trip state machine: a fold over one group's events,
    in UTC order, with the state "no trip open" or "this trip is open".
    "W" (released) opens a trip, closing an open one as incomplete with a
    warning; "Z" (placed) completes the open trip or is reported as
    orphaned; any other code is attached to the open trip if there is one.
    A trip still open after the last event is kept as incomplete. */
module TripMachine {
  import opened Wrappers
  import opened Sequences
  import opened Entities
  import opened Grouping

  const Release := "W"
  const Placement := "Z"

  datatype TripState = NoOpenTrip | Open(trip: Trip)

  /** The fold's state: the open trip, the trips appended so far and the
      warnings added so far. */
  datatype Machine = Machine(state: TripState, trips: seq<Trip>, warnings: seq<Warning>)

  predicate IsRelease(e: Event) { e.code == Release }
  predicate IsPlacement(e: Event) { e.code == Placement }
  predicate IsCompleteTrip(t: Trip) { t.isComplete }
  predicate IsIncompleteTrip(t: Trip) { !t.isComplete }
  predicate IsIncompleteWarning(w: Warning) { w.IncompleteTrip? }
  predicate IsOrphanWarning(w: Warning) { w.OrphanedZ? }

  /** Subtraction of nullable values: null when either side is null. */
  function Minus(a: Option<int>, b: Option<int>): (r: Option<int>)
    ensures r.Some? <==> a.Some? && b.Some?
    ensures r.Some? ==> r.value + b.value == a.value
  {
    if a.Some? && b.Some? then Some(a.value - b.value) else None
  }

  /** The trip a "W" event opens. */
  function OpenTrip(id: string, e: Event): Trip {
    Trip(id, Some(e.cityId), None, Some(e.utcTime), None, None, false, [e])
  }

  /** The open trip completed by a "Z" event. */
  function Close(t: Trip, e: Event): Trip {
    var end := Some(e.utcTime);
    t.(destinationCityId := Some(e.cityId), endTime := end, totalTime := Minus(end, t.startTime),
       isComplete := true, events := t.events + [e])
  }

  function OpenCount(m: Machine): nat {
    if m.state.Open? then 1 else 0
  }

  /** One event of equipment `id`. Trips and warnings are only ever
      appended to. */
  function Step(id: string, m: Machine, e: Event): (r: Machine)
    ensures m.trips <= r.trips && m.warnings <= r.warnings
    ensures |r.trips| <= |m.trips| + 1 && |r.warnings| <= |m.warnings| + 1
  {
    if e.code == Release then
      match m.state
      case Open(t) => Machine(Open(OpenTrip(id, e)), m.trips + [t.(isComplete := false)], m.warnings + [IncompleteTrip(id)])
      case NoOpenTrip => Machine(Open(OpenTrip(id, e)), m.trips, m.warnings)
    else if e.code == Placement then
      match m.state
      case Open(t) => Machine(NoOpenTrip, m.trips + [Close(t, e)], m.warnings)
      case NoOpenTrip => Machine(NoOpenTrip, m.trips, m.warnings + [OrphanedZ(id, e.utcTime)])
    else
      match m.state
      case Open(t) => Machine(Open(t.(events := t.events + [e])), m.trips, m.warnings)
      case NoOpenTrip => m
  }

  /** How one step moves the tallies: a "W" adds one trip (open or
      appended), a "Z" adds one completed trip or one orphan warning, and
      every trip appended incomplete comes with one incomplete-trip
      warning. */
  lemma StepCounts(id: string, m: Machine, e: Event)
    ensures var r := Step(id, m, e);
      && |r.trips| + OpenCount(r) == |m.trips| + OpenCount(m) + (if IsRelease(e) then 1 else 0)
      && CountIf(r.trips, IsCompleteTrip) + CountIf(r.warnings, IsOrphanWarning)
         == CountIf(m.trips, IsCompleteTrip) + CountIf(m.warnings, IsOrphanWarning) + (if IsPlacement(e) then 1 else 0)
      && CountIf(r.trips, IsIncompleteTrip) + CountIf(m.warnings, IsIncompleteWarning)
         == CountIf(m.trips, IsIncompleteTrip) + CountIf(r.warnings, IsIncompleteWarning)
  {
    if e.code == Release && m.state.Open? {
      var t := m.state.trip.(isComplete := false);
      CountIfSnoc(m.trips, t, IsCompleteTrip);
      CountIfSnoc(m.trips, t, IsIncompleteTrip);
      CountIfSnoc(m.warnings, IncompleteTrip(id), IsOrphanWarning);
      CountIfSnoc(m.warnings, IncompleteTrip(id), IsIncompleteWarning);
    } else if e.code == Placement && m.state.Open? {
      var t := Close(m.state.trip, e);
      CountIfSnoc(m.trips, t, IsCompleteTrip);
      CountIfSnoc(m.trips, t, IsIncompleteTrip);
    } else if e.code == Placement {
      var w := OrphanedZ(id, e.utcTime);
      CountIfSnoc(m.warnings, w, IsOrphanWarning);
      CountIfSnoc(m.warnings, w, IsIncompleteWarning);
    }
  }

  /** The fold over a group's events, from no open trip. One trip is opened
      per "W"; each "Z" completes a trip or gives an orphan warning; each
      trip closed as incomplete so far has its own incomplete-trip warning. */
  function Run(id: string, s: seq<Event>): (m: Machine)
    ensures |m.trips| + OpenCount(m) == CountIf(s, IsRelease)
    ensures CountIf(m.trips, IsCompleteTrip) + CountIf(m.warnings, IsOrphanWarning) == CountIf(s, IsPlacement)
    ensures CountIf(m.trips, IsIncompleteTrip) == CountIf(m.warnings, IsIncompleteWarning)
  {
    if |s| == 0 then Machine(NoOpenTrip, [], [])
    else
      var prev := Run(id, s[..|s| - 1]);
      StepCounts(id, prev, s[|s| - 1]);
      Step(id, prev, s[|s| - 1])
  }

  /** The trips and warnings of one equipment. */
  datatype Outcome = Outcome(trips: seq<Trip>, warnings: seq<Warning>)

  /** After the last event, a trip still open is appended as incomplete,
      without a warning. */
  function Finish(m: Machine): Outcome {
    match m.state
    case Open(t) => Outcome(m.trips + [t.(isComplete := false)], m.warnings)
    case NoOpenTrip => Outcome(m.trips, m.warnings)
  }

  /** The trips of one equipment: exactly one per "W" event; completed trips
      and orphan warnings together account for every "Z" event; and the
      incomplete trips are those closed by a later "W" (each with its
      warning) plus at most one left open at the end. */
  function TripsOf(id: string, s: seq<Event>): (r: Outcome)
    ensures |r.trips| == CountIf(s, IsRelease)
    ensures CountIf(r.trips, IsCompleteTrip) + CountIf(r.warnings, IsOrphanWarning) == CountIf(s, IsPlacement)
    ensures CountIf(r.trips, IsIncompleteTrip) == CountIf(r.warnings, IsIncompleteWarning) + OpenCount(Run(id, s))
  {
    var m := Run(id, s);
    match m.state
    case Open(t) =>
      CountIfAppend(m.trips, [t.(isComplete := false)], IsCompleteTrip);
      CountIfAppend(m.trips, [t.(isComplete := false)], IsIncompleteTrip);
      Finish(m)
    case NoOpenTrip => Finish(m)
  }

  /** What every trip looks like: it belongs to the equipment, its first
      event is the "W" that opened it and gives its origin and start; no
      later event is a "W"; it is complete exactly when destination, end and
      total are all set, and then its last event is the "Z" that gave the
      destination and end, the total is end minus start, and no event in
      between is a "Z"; otherwise none of the three is set. */
  predicate WellFormed(t: Trip, id: string) {
    && t.equipmentId == id
    && |t.events| > 0
    && t.events[0].code == Release
    && t.originCityId == Some(t.events[0].cityId)
    && t.startTime == Some(t.events[0].utcTime)
    && (forall k :: 0 < k < |t.events| ==> t.events[k].code != Release)
    && (forall k :: 0 <= k < |t.events| ==> t.events[k].equipmentId == id)
    && (t.isComplete <==> t.destinationCityId.Some? && t.endTime.Some? && t.totalTime.Some?)
    && (!t.isComplete ==>
         && t.destinationCityId.None? && t.endTime.None? && t.totalTime.None?
         && forall k :: 0 < k < |t.events| ==> t.events[k].code != Placement)
    && (t.isComplete ==>
         var z := t.events[|t.events| - 1];
         && |t.events| >= 2
         && z.code == Placement
         && t.destinationCityId == Some(z.cityId)
         && t.endTime == Some(z.utcTime)
         && t.totalTime == Some(z.utcTime - t.events[0].utcTime)
         && forall k :: 0 < k < |t.events| - 1 ==> t.events[k].code != Placement)
  }

  predicate MachineWellFormed(m: Machine, id: string) {
    && (forall t :: t in m.trips ==> WellFormed(t, id))
    && (m.state.Open? ==> WellFormed(m.state.trip, id) && !m.state.trip.isComplete)
    && (forall w :: w in m.warnings ==> !w.IsResolution() && w.equipmentId == id)
  }

  lemma StepWellFormed(id: string, m: Machine, e: Event)
    requires MachineWellFormed(m, id) && e.equipmentId == id
    ensures MachineWellFormed(Step(id, m, e), id)
  {
    var r := Step(id, m, e);
    if m.state.Open? {
      var t := m.state.trip;
      if e.code == Release {
        assert r.trips == m.trips + [t.(isComplete := false)];
      } else if e.code == Placement {
        var c := Close(t, e);
        assert c.events[|c.events| - 1] == e;
        assert forall k :: 0 <= k < |t.events| ==> c.events[k] == t.events[k];
        assert r.trips == m.trips + [c];
      } else {
        var u := t.(events := t.events + [e]);
        assert forall k :: 0 <= k < |t.events| ==> u.events[k] == t.events[k];
      }
    }
  }

  /** Every trip the machine produces, and the trip it holds open, has the
      shape `WellFormed` describes, and all its warnings are warnings of the
      trip sequence for this equipment. */
  lemma {:induction false} RunWellFormed(id: string, s: seq<Event>)
    requires forall k :: 0 <= k < |s| ==> s[k].equipmentId == id
    ensures MachineWellFormed(Run(id, s), id)
  {
    if |s| > 0 {
      RunWellFormed(id, s[..|s| - 1]);
      StepWellFormed(id, Run(id, s[..|s| - 1]), s[|s| - 1]);
    }
  }

  /** The final trips are well formed; a trip left open is incomplete. */
  lemma TripsOfWellFormed(id: string, s: seq<Event>)
    requires forall k :: 0 <= k < |s| ==> s[k].equipmentId == id
    ensures var r := TripsOf(id, s);
      && (forall t :: t in r.trips ==> WellFormed(t, id))
      && (forall w :: w in r.warnings ==> !w.IsResolution() && w.equipmentId == id)
  {
    RunWellFormed(id, s);
  }

  /** On events in UTC order, the open trip started no later than the last
      event read, and so every completed trip has a non-negative total. */
  predicate DurationsHold(m: Machine, s: seq<Event>) {
    && (forall t :: t in m.trips && t.totalTime.Some? ==> t.totalTime.value >= 0)
    && (m.state.Open? ==>
         && |s| > 0 && m.state.trip.startTime.Some? && m.state.trip.totalTime.None?
         && m.state.trip.startTime.value <= s[|s| - 1].utcTime)
  }

  lemma {:induction false} RunDurations(id: string, s: seq<Event>)
    requires SortedByUtc(s)
    ensures DurationsHold(Run(id, s), s)
  {
    if |s| > 0 {
      var p := s[..|s| - 1];
      RunDurations(id, p);
      var m := Run(id, p);
      var e := s[|s| - 1];
      if m.state.Open? && |p| > 0 {
        assert p[|p| - 1] == s[|s| - 2];
      }
      var r := Step(id, m, e);
      if e.code != Release && e.code != Placement && m.state.Open? {
        assert r.trips == m.trips;
      }
    }
  }

  /** With the group in UTC order (as the sort leaves it), no trip has a
      negative total time. */
  lemma TotalsNonNegative(id: string, s: seq<Event>)
    requires SortedByUtc(s)
    ensures forall t :: t in TripsOf(id, s).trips && t.totalTime.Some? ==> t.totalTime.value >= 0
  {
    RunDurations(id, s);
  }

  /** The events attached to a list of trips, trip by trip. */
  function TripEvents(trips: seq<Trip>): seq<Event> {
    if |trips| == 0 then [] else TripEvents(trips[..|trips| - 1]) + trips[|trips| - 1].events
  }

  function Attached(m: Machine): seq<Event> {
    TripEvents(m.trips) + (if m.state.Open? then m.state.trip.events else [])
  }

  lemma TripEventsAppend(trips: seq<Trip>, t: Trip)
    ensures TripEvents(trips + [t]) == TripEvents(trips) + t.events
  {
    assert (trips + [t])[..|trips|] == trips;
  }

  /** An event is attached to a trip exactly when it is a "W" or a trip is
      open when it is read; an orphaned "Z" and an event read with no trip
      open are left unattached. */
  lemma StepAttaches(id: string, m: Machine, e: Event)
    ensures multiset(Attached(Step(id, m, e)))
      == multiset(Attached(m)) + (if IsRelease(e) || m.state.Open? then multiset{e} else multiset{})
  {
    var r := Step(id, m, e);
    var before := TripEvents(m.trips);
    if m.state.Open? {
      var t := m.state.trip;
      if e.code == Release {
        TripEventsAppend(m.trips, t.(isComplete := false));
        assert Attached(r) == before + t.events + [e];
        assert Attached(m) == before + t.events;
      } else if e.code == Placement {
        TripEventsAppend(m.trips, Close(t, e));
        assert Attached(r) == before + (t.events + [e]);
        assert Attached(m) == before + t.events;
      } else {
        assert Attached(r) == before + (t.events + [e]);
        assert Attached(m) == before + t.events;
      }
    } else if e.code == Release {
      assert Attached(r) == before + [e];
      assert Attached(m) == before;
    } else {
      assert Attached(r) == Attached(m);
    }
  }

  /** No event is attached twice and none that was not read: the attached
      events are a sub-multiset of the group's events. */
  lemma {:induction false} RunAttachesEachAtMostOnce(id: string, s: seq<Event>)
    ensures multiset(Attached(Run(id, s))) <= multiset(s)
  {
    if |s| > 0 {
      var p, e := s[..|s| - 1], s[|s| - 1];
      assert s == p + [e];
      RunAttachesEachAtMostOnce(id, p);
      RunSnoc(id, p, e);
      AttachStep(id, Run(id, p), e, p);
    }
  }

  /** A step attaches at most the one event it reads. */
  lemma AttachStep(id: string, m: Machine, e: Event, p: seq<Event>)
    requires multiset(Attached(m)) <= multiset(p)
    ensures multiset(Attached(Step(id, m, e))) <= multiset(p + [e])
  {
    StepAttaches(id, m, e);
    assert multiset(p + [e]) == multiset(p) + multiset{e};
  }

  /** The trips of one equipment hold each of its events at most once. */
  lemma TripsOfAttachesEachAtMostOnce(id: string, s: seq<Event>)
    ensures multiset(TripEvents(TripsOf(id, s).trips)) <= multiset(s)
  {
    RunAttachesEachAtMostOnce(id, s);
    var m := Run(id, s);
    if m.state.Open? {
      TripEventsAppend(m.trips, m.state.trip.(isComplete := false));
    }
  }

  /** Reading one more event is one more step. */
  lemma RunSnoc(id: string, s: seq<Event>, e: Event)
    ensures Run(id, s + [e]) == Step(id, Run(id, s), e)
  {
    assert (s + [e])[..|s|] == s;
  }

  /** An event of equipment "EQ001". The scenarios below use the source's
      test fixture: cities 1, 2 and 3 are at -05:00, -06:00 and -08:00, so
      a local time converts to UTC by adding 300, 360 or 480 minutes. */
  function Ev(id: nat, code: string, city: int, local: int, utc: int): Event {
    Event(id, "EQ001", code, city, local, utc)
  }

  /** W in city 1 at 08:00 local (13:00 UTC) and Z in city 2 at 16:00 local
      (22:00 UTC): one complete trip from city 1 to city 2 lasting nine
      hours, holding both events. */
  lemma CompleteTripScenario()
    ensures var s := [Ev(0, "W", 1, 480, 780), Ev(1, "Z", 2, 960, 1320)];
      TripsOf("EQ001", s)
        == Outcome([Trip("EQ001", Some(1), Some(2), Some(780), Some(1320), Some(540), true, s)], [])
  {
    var w, z := Ev(0, "W", 1, 480, 780), Ev(1, "Z", 2, 960, 1320);
    RunSnoc("EQ001", [], w);
    RunSnoc("EQ001", [w], z);
    assert [w] + [z] == [w, z];
    assert Run("EQ001", [w]) == Machine(Open(OpenTrip("EQ001", w)), [], []);
  }

  /** W and Z both in city 1, at 08:00 and 16:00 local: the total time is
      eight hours, since both times shift by the same offset. */
  lemma TotalTripTimeScenario()
    ensures var s := [Ev(0, "W", 1, 480, 780), Ev(1, "Z", 1, 960, 1260)];
      TripsOf("EQ001", s)
        == Outcome([Trip("EQ001", Some(1), Some(1), Some(780), Some(1260), Some(8 * 60), true, s)], [])
  {
    var w, z := Ev(0, "W", 1, 480, 780), Ev(1, "Z", 1, 960, 1260);
    RunSnoc("EQ001", [], w);
    RunSnoc("EQ001", [w], z);
    assert [w] + [z] == [w, z];
    assert Run("EQ001", [w]) == Machine(Open(OpenTrip("EQ001", w)), [], []);
  }

  /** W then A and no Z: one incomplete trip holding both, no warning. */
  lemma TripWithoutPlacementScenario()
    ensures var s := [Ev(0, "W", 1, 480, 780), Ev(1, "A", 2, 720, 1080)];
      TripsOf("EQ001", s)
        == Outcome([Trip("EQ001", Some(1), None, Some(780), None, None, false, s)], [])
  {
    var w, a := Ev(0, "W", 1, 480, 780), Ev(1, "A", 2, 720, 1080);
    RunSnoc("EQ001", [], w);
    RunSnoc("EQ001", [w], a);
    assert [w] + [a] == [w, a];
    assert Run("EQ001", [w]) == Machine(Open(OpenTrip("EQ001", w)), [], []);
    assert a.code != Release && a.code != Placement;
  }

  /** W, W, Z: the first trip is closed incomplete with one warning, the
      second is completed by the Z. */
  lemma ConsecutiveReleasesScenario()
    ensures var s := [Ev(0, "W", 1, 480, 780), Ev(1, "W", 2, 720, 1080), Ev(2, "Z", 3, 960, 1440)];
      TripsOf("EQ001", s)
        == Outcome([Trip("EQ001", Some(1), None, Some(780), None, None, false, [s[0]]),
                    Trip("EQ001", Some(2), Some(3), Some(1080), Some(1440), Some(360), true, s[1..])],
                   [IncompleteTrip("EQ001")])
  {
    var id := "EQ001";
    var w1, w2, z := Ev(0, "W", 1, 480, 780), Ev(1, "W", 2, 720, 1080), Ev(2, "Z", 3, 960, 1440);
    var first := OpenTrip(id, w1);
    var m1 := Machine(Open(first), [], []);
    var m2 := Machine(Open(OpenTrip(id, w2)), [first], [IncompleteTrip(id)]);
    var m3 := Machine(NoOpenTrip, [first, Close(OpenTrip(id, w2), z)], [IncompleteTrip(id)]);
    assert Step(id, m2, z) == m3;
    RunSnoc(id, [], w1);
    assert [] + [w1] == [w1];
    assert Run(id, [w1]) == m1;
    RunSnoc(id, [w1], w2);
    assert [w1] + [w2] == [w1, w2];
    assert Run(id, [w1, w2]) == m2;
    RunSnoc(id, [w1, w2], z);
    assert [w1, w2] + [z] == [w1, w2, z];
    assert Run(id, [w1, w2, z]) == m3;
    assert [w1, w2, z][1..] == [w2, z] == [w2] + [z];
    assert Close(OpenTrip(id, w2), z) == Trip(id, Some(2), Some(3), Some(1080), Some(1440), Some(360), true, [w2, z]);
    assert TripsOf(id, [w1, w2, z]) == Outcome(m3.trips, m3.warnings);
  }

  /** A lone Z: no trip and one orphan warning carrying its UTC time. */
  lemma OrphanedPlacementScenario()
    ensures TripsOf("EQ001", [Ev(0, "Z", 1, 480, 780)]) == Outcome([], [OrphanedZ("EQ001", 780)])
  {
    RunSnoc("EQ001", [], Ev(0, "Z", 1, 480, 780));
  }

  /** W, A, Z: one complete trip with all three events attached. */
  lemma AllEventsAttachedScenario()
    ensures var s := [Ev(0, "W", 1, 480, 780), Ev(1, "A", 2, 720, 1080), Ev(2, "Z", 3, 960, 1440)];
      TripsOf("EQ001", s)
        == Outcome([Trip("EQ001", Some(1), Some(3), Some(780), Some(1440), Some(660), true, s)], [])
  {
    var id := "EQ001";
    var w, a, z := Ev(0, "W", 1, 480, 780), Ev(1, "A", 2, 720, 1080), Ev(2, "Z", 3, 960, 1440);
    var m1 := Machine(Open(OpenTrip(id, w)), [], []);
    var m2 := Machine(Open(OpenTrip(id, w).(events := [w, a])), [], []);
    var m3 := Machine(NoOpenTrip, [Close(OpenTrip(id, w).(events := [w, a]), z)], []);
    assert a.code != Release && a.code != Placement;
    assert OpenTrip(id, w).events + [a] == [w, a];
    assert Step(id, m1, a) == m2;
    assert Step(id, m2, z) == m3;
    RunSnoc(id, [], w);
    assert [] + [w] == [w];
    assert Run(id, [w]) == m1;
    RunSnoc(id, [w], a);
    assert [w] + [a] == [w, a];
    assert Run(id, [w, a]) == m2;
    RunSnoc(id, [w, a], z);
    assert [w, a] + [z] == [w, a, z];
    assert Run(id, [w, a, z]) == m3;
  }
}
