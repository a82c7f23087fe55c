/** The records the trip reconstruction reads and writes: the typed input
    row, the event and trip entities, the event-code reference row, and the
    warnings of a run. Times are whole minutes. */
module Entities {
  import opened Wrappers
  import opened Offsets

  /** One typed row of the uploaded file (local time, no offset). */
  datatype EventRecord = EventRecord(equipmentId: string, eventCode: string, cityId: int, eventTime: int)

  /** An event-code reference row; codes are unique. */
  datatype EventCode = EventCode(code: string, description: string, longDescription: string)

  /** A resolved event. `id` is its position in the list of processed
      events, which stands in for the identity of the entity object; `code`
      is the event code itself (codes are unique, so this is the same as
      holding the code row's key). */
  datatype Event = Event(id: nat, equipmentId: string, code: string, cityId: int, localTime: int, utcTime: int)

  /** A trip. The events attached to it are held in `events`, in the order
      they were attached; an event's back-reference to its trip is the
      trip that holds it. */
  datatype Trip = Trip(
    equipmentId: string,
    originCityId: Option<int>,
    destinationCityId: Option<int>,
    startTime: Option<int>,
    endTime: Option<int>,
    totalTime: Option<int>,
    isComplete: bool,
    events: seq<Event>)

  /** The warnings of a run. The first two come from reference resolution,
      the last two from the trip state machine. */
  datatype Warning =
    | UnknownCity(cityId: int, equipmentId: string)
    | UnknownEventCode(code: string, equipmentId: string)
    | IncompleteTrip(equipmentId: string)
    | OrphanedZ(equipmentId: string, utcTime: int)
  {
    predicate IsResolution() {
      UnknownCity? || UnknownEventCode?
    }
  }

  predicate StartsWith(s: string, prefix: string) {
    |prefix| <= |s| && s[..|prefix|] == prefix
  }

  /** The text of a warning. Rendering a UTC time depends on the host's
      culture, so it is a parameter. */
  function Message(w: Warning, timeText: int -> string): string {
    Phrase(w) + Detail(w, timeText)
  }

  /** What follows the phrase in a warning's text. */
  function Detail(w: Warning, timeText: int -> string): string {
    match w
    case UnknownCity(c, eq) => IntText(c) + " for equipment " + eq
    case UnknownEventCode(code, eq) => code + " for equipment " + eq
    case IncompleteTrip(eq) => eq + ": new W event before Z"
    case OrphanedZ(eq, t) => eq + " at " + timeText(t)
  }

  /** `s` starts with `p`, and so does anything `s` is extended to. */
  lemma StartsWithConcat(p: string, rest: string)
    ensures StartsWith(p + rest, p)
  {
    assert (p + rest)[..|p|] == p;
  }

  /** A string that starts with `p` does not start with `q` when the two
      phrases differ at a position both cover. */
  lemma NotBoth(s: string, p: string, q: string, k: nat)
    requires StartsWith(s, p) && k < |p| && k < |q| && p[k] != q[k]
    ensures !StartsWith(s, q)
  {
    assert s[k] == s[..|p|][k] == p[k];
  }

  const CityPhrase := "Unknown city_id: "
  const CodePhrase := "Unknown event_code: "
  const IncompletePhrase := "Incomplete trip for "
  const OrphanPhrase := "Orphaned Z event for "

  /** The phrase each kind of warning text begins with. */
  function Phrase(w: Warning): string {
    match w
    case UnknownCity(_, _) => CityPhrase
    case UnknownEventCode(_, _) => CodePhrase
    case IncompleteTrip(_) => IncompletePhrase
    case OrphanedZ(_, _) => OrphanPhrase
  }

  lemma MessageStartsWithPhrase(w: Warning, timeText: int -> string)
    ensures StartsWith(Message(w, timeText), Phrase(w))
  {
    StartsWithConcat(Phrase(w), Detail(w, timeText));
  }

  /** A text that starts with one kind's phrase starts with no other's. */
  lemma PhrasesExclusive(m: string, w: Warning, v: Warning)
    requires StartsWith(m, Phrase(w)) && Phrase(v) != Phrase(w)
    ensures !StartsWith(m, Phrase(v))
  {
    var p, q := Phrase(w), Phrase(v);
    assert CityPhrase[8] == 'c' && CodePhrase[8] == 'e';
    assert CityPhrase[0] == 'U' && CodePhrase[0] == 'U' && IncompletePhrase[0] == 'I' && OrphanPhrase[0] == 'O';
    if p[0] != q[0] {
      NotBoth(m, p, q, 0);
    } else {
      NotBoth(m, p, q, 8);
    }
  }

  /** A warning's text begins with a fixed phrase that tells its kind, so
      the kinds can be told apart from the texts alone. */
  lemma MessageTellsKind(w: Warning, timeText: int -> string)
    ensures StartsWith(Message(w, timeText), CityPhrase) <==> w.UnknownCity?
    ensures StartsWith(Message(w, timeText), CodePhrase) <==> w.UnknownEventCode?
    ensures StartsWith(Message(w, timeText), IncompletePhrase) <==> w.IncompleteTrip?
    ensures StartsWith(Message(w, timeText), OrphanPhrase) <==> w.OrphanedZ?
  {
    var m := Message(w, timeText);
    MessageStartsWithPhrase(w, timeText);
    assert CityPhrase != CodePhrase && CityPhrase != IncompletePhrase && CityPhrase != OrphanPhrase;
    assert CodePhrase != IncompletePhrase && CodePhrase != OrphanPhrase && IncompletePhrase != OrphanPhrase;
    var kinds := [UnknownCity(0, ""), UnknownEventCode("", ""), IncompleteTrip(""), OrphanedZ("", 0)];
    forall v | v in kinds && Phrase(v) != Phrase(w)
      ensures !StartsWith(m, Phrase(v))
    {
      PhrasesExclusive(m, w, v);
    }
    assert Phrase(kinds[0]) == CityPhrase && Phrase(kinds[1]) == CodePhrase;
    assert Phrase(kinds[2]) == IncompletePhrase && Phrase(kinds[3]) == OrphanPhrase;
  }

  /** The city id named in an unknown-city warning can be read back. */
  lemma UnknownCityNamesId(c: int, eq: string, timeText: int -> string)
    ensures var m := Message(UnknownCity(c, eq), timeText);
      var prefix := CityPhrase;
      var id := IntText(c);
      |prefix| + |id| <= |m| && m[|prefix|..|prefix| + |id|] == id && ParseInt(id) == Some(c)
  {
    IntTextRoundTrip(c);
    var prefix := CityPhrase;
    var m := Message(UnknownCity(c, eq), timeText);
    assert m == prefix + IntText(c) + (" for equipment " + eq);
  }
}
