/** Grouping the processed events by equipment and ordering each group by
    UTC time: `GroupBy(e => e.EquipmentId)` keeps the groups in the order
    their keys first appear and each group's events in input order, and
    `OrderBy(e => e.EventTimeUtc)` is a stable sort. Stability is stated on
    the events' ids, which are their positions in the processed list. */
module Grouping {
  import opened Sequences
  import opened Entities

  function EquipmentIds(events: seq<Event>): (ids: seq<string>)
    ensures |ids| == |events|
    ensures forall i :: 0 <= i < |events| ==> ids[i] == events[i].equipmentId
  {
    if |events| == 0 then [] else EquipmentIds(events[..|events| - 1]) + [events[|events| - 1].equipmentId]
  }

  /** Ids strictly increase along the sequence (true of the processed list). */
  predicate IdsIncreasing(s: seq<Event>) {
    forall i, j :: 0 <= i < j < |s| ==> s[i].id < s[j].id
  }

  predicate SortedByUtc(s: seq<Event>) {
    forall i, j :: 0 <= i < j < |s| ==> s[i].utcTime <= s[j].utcTime
  }

  /** Events with equal UTC times keep their input (id) order. */
  predicate StableOrder(s: seq<Event>) {
    forall i, j :: 0 <= i < j < |s| && s[i].utcTime == s[j].utcTime ==> s[i].id < s[j].id
  }

  /** The events of one equipment, in input order: the elements of its
      group. Each event occurs here as often as in the input when it is of
      that equipment, and not at all otherwise. */
  function Members(events: seq<Event>, id: string): (g: seq<Event>)
    ensures forall e :: multiset(g)[e] == if e.equipmentId == id then multiset(events)[e] else 0
  {
    if |events| == 0 then []
    else
      var prefix, last := events[..|events| - 1], events[|events| - 1];
      assert multiset(events) == multiset(prefix) + multiset{last} by {
        assert events == prefix + [last];
      }
      var rest := Members(prefix, id);
      if last.equipmentId == id then rest + [last] else rest
  }

  lemma IdsSnoc(r: seq<Event>, x: Event)
    requires IdsIncreasing(r)
    requires forall i :: 0 <= i < |r| ==> r[i].id < x.id
    ensures IdsIncreasing(r + [x])
  {
    var t := r + [x];
    forall i, j | 0 <= i < j < |t| ensures t[i].id < t[j].id {
      assert t[i] == r[i];
    }
  }

  lemma SortedSnoc(r: seq<Event>, x: Event)
    requires SortedByUtc(r)
    requires forall i :: 0 <= i < |r| ==> r[i].utcTime <= x.utcTime
    ensures SortedByUtc(r + [x])
  {
    var t := r + [x];
    forall i, j | 0 <= i < j < |t| ensures t[i].utcTime <= t[j].utcTime {
      assert t[i] == r[i];
    }
  }

  lemma StableSnoc(r: seq<Event>, x: Event)
    requires StableOrder(r)
    requires forall i :: 0 <= i < |r| && r[i].utcTime == x.utcTime ==> r[i].id < x.id
    ensures StableOrder(r + [x])
  {
    var t := r + [x];
    forall i, j | 0 <= i < j < |t| && t[i].utcTime == t[j].utcTime ensures t[i].id < t[j].id {
      assert t[i] == r[i];
    }
  }

  /** A group of a processed list keeps the increasing ids. */
  lemma {:induction false} MembersKeepIdOrder(events: seq<Event>, id: string)
    requires IdsIncreasing(events)
    ensures IdsIncreasing(Members(events, id))
  {
    if |events| > 0 {
      var prefix, last := events[..|events| - 1], events[|events| - 1];
      MembersKeepIdOrder(prefix, id);
      var rest := Members(prefix, id);
      if last.equipmentId == id {
        forall i | 0 <= i < |rest| ensures rest[i].id < last.id {
          assert rest[i] in multiset(rest);
          var k :| 0 <= k < |prefix| && prefix[k] == rest[i];
          assert events[k] == rest[i];
        }
        IdsSnoc(rest, last);
      }
    }
  }

  /** Puts `e` after every element whose UTC time is at most its own. */
  function Insert(s: seq<Event>, e: Event): (r: seq<Event>)
    ensures multiset(r) == multiset(s) + multiset{e}
  {
    if |s| == 0 then [e]
    else if s[|s| - 1].utcTime <= e.utcTime then s + [e]
    else
      var prefix := s[..|s| - 1];
      assert s == prefix + [s[|s| - 1]];
      Insert(prefix, e) + [s[|s| - 1]]
  }

  lemma {:induction false} InsertSorted(s: seq<Event>, e: Event)
    requires SortedByUtc(s)
    ensures SortedByUtc(Insert(s, e))
  {
    if |s| == 0 {
    } else if s[|s| - 1].utcTime <= e.utcTime {
      SortedSnoc(s, e);
    } else {
      var prefix, last := s[..|s| - 1], s[|s| - 1];
      InsertSorted(prefix, e);
      var r := Insert(prefix, e);
      forall i | 0 <= i < |r| ensures r[i].utcTime <= last.utcTime {
        assert r[i] in multiset(r);
      }
      SortedSnoc(r, last);
    }
  }

  lemma {:induction false} InsertStable(s: seq<Event>, e: Event)
    requires SortedByUtc(s) && StableOrder(s)
    requires forall x :: x in s ==> x.id < e.id
    ensures StableOrder(Insert(s, e))
  {
    if |s| == 0 {
    } else if s[|s| - 1].utcTime <= e.utcTime {
      StableSnoc(s, e);
    } else {
      var prefix, last := s[..|s| - 1], s[|s| - 1];
      InsertStable(prefix, e);
      var r := Insert(prefix, e);
      forall i | 0 <= i < |r| && r[i].utcTime == last.utcTime ensures r[i].id < last.id {
        assert r[i] in multiset(r);
        var j :| 0 <= j < |prefix| && prefix[j] == r[i];
        assert s[j] == r[i];
      }
      StableSnoc(r, last);
    }
  }

  /** `OrderBy(e => e.EventTimeUtc)`: an insertion sort that is stable. The
      result is a permutation of the input, non-decreasing in UTC time, and
      when the input's ids increase, ties keep their input order. */
  function SortByUtc(s: seq<Event>): (r: seq<Event>)
    ensures multiset(r) == multiset(s)
    ensures SortedByUtc(r)
  {
    if |s| == 0 then []
    else
      var prefix, last := s[..|s| - 1], s[|s| - 1];
      assert multiset(s) == multiset(prefix) + multiset{last} by {
        assert s == prefix + [last];
      }
      var sorted := SortByUtc(prefix);
      InsertSorted(sorted, last);
      Insert(sorted, last)
  }

  /** On a list whose ids increase, the sort keeps ties in input order. */
  lemma {:induction false} SortIsStable(s: seq<Event>)
    requires IdsIncreasing(s)
    ensures StableOrder(SortByUtc(s))
  {
    if |s| > 0 {
      var prefix, last := s[..|s| - 1], s[|s| - 1];
      SortIsStable(prefix);
      var sorted := SortByUtc(prefix);
      forall x | x in sorted ensures x.id < last.id {
        assert x in multiset(prefix);
        var k :| 0 <= k < |prefix| && prefix[k] == x;
        assert s[k] == x;
      }
      InsertStable(sorted, last);
    }
  }

  /** Of two orderings of the same events, both sorted and stable, the
      last elements agree: each is the latest, and among the latest the
      highest id. */
  lemma SortedStableLast(a: seq<Event>, b: seq<Event>)
    requires |a| > 0 && multiset(a) == multiset(b)
    requires SortedByUtc(a) && StableOrder(a) && SortedByUtc(b) && StableOrder(b)
    ensures |b| == |a| && a[|a| - 1] == b[|b| - 1]
  {
    assert |a| == |multiset(a)| == |multiset(b)| == |b|;
    var n := |a| - 1;
    var x, y := a[n], b[n];
    assert x in multiset(b) && y in multiset(a);
    var j :| 0 <= j < |b| && b[j] == x;
    var i :| 0 <= i < |a| && a[i] == y;
  }

  lemma DropLast(a: seq<Event>, b: seq<Event>)
    requires |a| == |b| > 0 && multiset(a) == multiset(b) && a[|a| - 1] == b[|b| - 1]
    ensures multiset(a[..|a| - 1]) == multiset(b[..|b| - 1])
  {
    var n := |a| - 1;
    assert a == a[..n] + [a[n]] && b == b[..n] + [b[n]];
    assert multiset(a) == multiset(a[..n]) + multiset{a[n]};
    assert multiset(b) == multiset(b[..n]) + multiset{a[n]};
    forall e ensures multiset(a[..n])[e] == multiset(b[..n])[e] {
      assert multiset(a)[e] == multiset(b)[e];
    }
  }

  /** A sequence sorted by UTC time and stable on ties is determined by its
      elements: two such orderings of the same events are equal. So the
      order of the group does not depend on how the sort was done. */
  lemma {:induction false} SortedStableUnique(a: seq<Event>, b: seq<Event>)
    requires multiset(a) == multiset(b)
    requires SortedByUtc(a) && StableOrder(a) && SortedByUtc(b) && StableOrder(b)
    ensures a == b
  {
    if |a| > 0 {
      SortedStableLast(a, b);
      var n := |a| - 1;
      DropLast(a, b);
      SortedStableUnique(a[..n], b[..n]);
      assert a == a[..n] + [a[n]] && b == b[..n] + [b[n]];
    } else {
      assert |b| == |multiset(b)| == 0;
    }
  }

  /** Inserting an event no earlier than the last one appends it. */
  lemma InsertAtEnd(s: seq<Event>, e: Event)
    requires |s| == 0 || s[|s| - 1].utcTime <= e.utcTime
    ensures Insert(s, e) == s + [e]
  {
  }

  /** Sorting a list with one more event inserts that event into the
      sorted list. */
  lemma SortSnoc(p: seq<Event>, e: Event)
    ensures SortByUtc(p + [e]) == Insert(SortByUtc(p), e)
  {
    assert (p + [e])[..|p|] == p;
  }

  /** Dropping the last event of a UTC-ordered list keeps it ordered, and
      that event is no earlier than the one before it. */
  lemma SortedDropLast(s: seq<Event>)
    requires SortedByUtc(s) && |s| > 0
    ensures SortedByUtc(s[..|s| - 1])
    ensures |s| > 1 ==> s[..|s| - 1][|s| - 2].utcTime <= s[|s| - 1].utcTime
    ensures s == s[..|s| - 1] + [s[|s| - 1]]
  {
  }

  /** An event no earlier than the last of a list that sorting leaves
      alone is sorted into place at the end. */
  lemma SortSnocOrdered(p: seq<Event>, e: Event)
    requires SortByUtc(p) == p
    requires |p| == 0 || p[|p| - 1].utcTime <= e.utcTime
    ensures SortByUtc(p + [e]) == p + [e]
  {
    SortSnoc(p, e);
    InsertAtEnd(p, e);
  }

  /** Sorting events already in UTC order changes nothing. */
  lemma {:induction false} SortKeepsOrderedInput(s: seq<Event>)
    requires SortedByUtc(s)
    ensures SortByUtc(s) == s
  {
    if |s| > 0 {
      SortedDropLast(s);
      SortKeepsOrderedInput(s[..|s| - 1]);
      SortSnocOrdered(s[..|s| - 1], s[|s| - 1]);
    }
  }

  /** Sorting twice is sorting once. */
  lemma SortIsIdempotent(s: seq<Event>)
    ensures SortByUtc(SortByUtc(s)) == SortByUtc(s)
  {
    SortKeepsOrderedInput(SortByUtc(s));
  }

  /** One group: an equipment id and its events in UTC order. */
  datatype Group = Group(equipmentId: string, events: seq<Event>)

  /** The equipment ids in the order they first appear. */
  function Keys(events: seq<Event>): seq<string> {
    Distinct(EquipmentIds(events))
  }

  /** Group by equipment, then order each group by UTC time. */
  function GroupEvents(events: seq<Event>): (groups: seq<Group>)
    ensures |groups| == |Keys(events)|
    ensures forall i :: 0 <= i < |groups| ==> groups[i].equipmentId == Keys(events)[i]
  {
    var keys := Keys(events);
    seq(|keys|, i requires 0 <= i < |keys| => Group(keys[i], SortByUtc(Members(events, keys[i]))))
  }

  /** Every event's equipment is one of the group keys. */
  lemma KeysCover(events: seq<Event>, e: Event)
    requires e in events
    ensures e.equipmentId in Keys(events)
  {
    var k :| 0 <= k < |events| && events[k] == e;
    assert EquipmentIds(events)[k] == e.equipmentId;
  }

  /** Each group holds exactly the events of its own equipment, as often
      as they occur in the input. */
  lemma GroupsHoldOwnEvents(events: seq<Event>)
    ensures var groups := GroupEvents(events);
      forall i, e :: 0 <= i < |groups| ==>
        multiset(groups[i].events)[e] == if e.equipmentId == groups[i].equipmentId then multiset(events)[e] else 0
  {
  }

  /** Each group is in UTC order and, for a processed list, stable on ties. */
  lemma GroupsOrdered(events: seq<Event>)
    ensures var groups := GroupEvents(events);
      && (forall i :: 0 <= i < |groups| ==> SortedByUtc(groups[i].events))
      && (IdsIncreasing(events) ==> forall i :: 0 <= i < |groups| ==> StableOrder(groups[i].events))
  {
    var groups := GroupEvents(events);
    var keys := Keys(events);
    if IdsIncreasing(events) {
      forall i | 0 <= i < |groups| ensures StableOrder(groups[i].events) {
        MembersKeepIdOrder(events, keys[i]);
        SortIsStable(Members(events, keys[i]));
      }
    }
  }

  /** The group keys are distinct and every event's equipment has a group. */
  lemma GroupKeysPartition(events: seq<Event>)
    ensures var groups := GroupEvents(events);
      && (forall i, j :: 0 <= i < j < |groups| ==> groups[i].equipmentId != groups[j].equipmentId)
      && (forall e :: e in events ==> exists i :: 0 <= i < |groups| && groups[i].equipmentId == e.equipmentId)
  {
    var groups := GroupEvents(events);
    var keys := Keys(events);
    forall e | e in events
      ensures exists i :: 0 <= i < |groups| && groups[i].equipmentId == e.equipmentId
    {
      KeysCover(events, e);
      var i := FirstIndex(keys, e.equipmentId);
      assert groups[i].equipmentId == e.equipmentId;
    }
  }

  /** The groups come in the order their equipment first appears. */
  lemma GroupsInFirstAppearanceOrder(events: seq<Event>)
    ensures var groups := GroupEvents(events);
      forall i, j :: 0 <= i < j < |groups| ==>
        FirstIndex(EquipmentIds(events), groups[i].equipmentId) < FirstIndex(EquipmentIds(events), groups[j].equipmentId)
  {
    DistinctKeepsFirstAppearanceOrder(EquipmentIds(events));
  }

  /** All groups' events laid end to end. */
  function Flatten(groups: seq<Group>): seq<Event> {
    if |groups| == 0 then [] else Flatten(groups[..|groups| - 1]) + groups[|groups| - 1].events
  }

  /** The events of the given equipments, counted with multiplicity. */
  function MembersOf(events: seq<Event>, keys: seq<string>): multiset<Event> {
    if |keys| == 0 then multiset{}
    else MembersOf(events, keys[..|keys| - 1]) + multiset(Members(events, keys[|keys| - 1]))
  }

  lemma {:induction false} MembersOfCounts(events: seq<Event>, keys: seq<string>, e: Event)
    requires NoDuplicates(keys)
    ensures MembersOf(events, keys)[e] == if e.equipmentId in keys then multiset(events)[e] else 0
  {
    if |keys| > 0 {
      var prefix := keys[..|keys| - 1];
      assert forall i, j :: 0 <= i < j < |prefix| ==> prefix[i] == keys[i] && prefix[j] == keys[j];
      MembersOfCounts(events, prefix, e);
      assert keys == prefix + [keys[|keys| - 1]];
    }
  }

  lemma {:induction false} FlattenIsMembersOf(events: seq<Event>, groups: seq<Group>, keys: seq<string>)
    requires |groups| == |keys|
    requires forall i :: 0 <= i < |groups| ==>
      multiset(groups[i].events) == multiset(Members(events, keys[i]))
    ensures multiset(Flatten(groups)) == MembersOf(events, keys)
  {
    if |groups| > 0 {
      FlattenIsMembersOf(events, groups[..|groups| - 1], keys[..|keys| - 1]);
    }
  }

  /** No event is lost or duplicated by the grouping: laid end to end the
      groups are a permutation of the input. */
  lemma GroupingIsPermutation(events: seq<Event>)
    ensures multiset(Flatten(GroupEvents(events))) == multiset(events)
  {
    var groups := GroupEvents(events);
    var keys := Keys(events);
    FlattenIsMembersOf(events, groups, keys);
    forall e ensures MembersOf(events, keys)[e] == multiset(events)[e] {
      MembersOfCounts(events, keys, e);
      if e in events {
        KeysCover(events, e);
      }
    }
    assert MembersOf(events, keys) == multiset(events);
  }
}
