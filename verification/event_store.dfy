/**
 * The event store's state transitions. The store holds a list of events;
 * `addEvent` appends a new event under a freshly generated id, and
 * `removeEvent` keeps every event whose id differs from the given one. The id
 * generator is a parameter: the id it produced for this call.
 */
module EventStore {
  import opened Wrappers

  datatype LatLng = LatLng(lat: real, lng: real)

  /** An event as the create form supplies it: every field but the id. */
  datatype EventDraft = EventDraft(
    title: string,
    community: string,
    startDate: string,
    endDate: string,
    location: string,
    description: string,
    media: Option<string>,
    latlng: Option<LatLng>)

  /** A stored event. */
  datatype Event = Event(
    id: string,
    title: string,
    community: string,
    startDate: string,
    endDate: string,
    location: string,
    description: string,
    media: Option<string>,
    latlng: Option<LatLng>)

  datatype Store = Store(events: seq<Event>)

  /** `{ ...draft, id }`. */
  function WithId(d: EventDraft, id: string): Event {
    Event(id, d.title, d.community, d.startDate, d.endDate, d.location, d.description,
          d.media, d.latlng)
  }

  /** An event without its id. */
  function DraftOf(e: Event): EventDraft {
    EventDraft(e.title, e.community, e.startDate, e.endDate, e.location, e.description,
               e.media, e.latlng)
  }

  /** The ids in use. */
  function Ids(events: seq<Event>): set<string> {
    set i | 0 <= i < |events| :: events[i].id
  }

  /** No two events share an id. */
  predicate UniqueIds(events: seq<Event>) {
    forall i, j | 0 <= i < j < |events| :: events[i].id != events[j].id
  }

  /** How many entries of the list carry the id. */
  function Carrying(events: seq<Event>, id: string): nat
    decreases |events|
  {
    if |events| == 0 then 0
    else (if events[0].id == id then 1 else 0) + Carrying(events[1..], id)
  }

  /** `r` is `s` with some elements dropped, the rest in their original order. */
  ghost predicate Subsequence<T>(r: seq<T>, s: seq<T>)
    decreases |s|
  {
    if |r| == 0 then true
    else if |s| == 0 then false
    else (r[0] == s[0] && Subsequence(r[1..], s[1..])) || Subsequence(r, s[1..])
  }

  // ---------------------------------------------------------------------------
  // Transitions

  /** `addEvent`: the draft, under the generated id, goes to the end of the list. */
  function AddEvent(s: Store, d: EventDraft, newId: string): (s': Store)
    ensures |s'.events| == |s.events| + 1
    ensures s'.events[..|s.events|] == s.events
    ensures s'.events[|s.events|].id == newId
    ensures DraftOf(s'.events[|s.events|]) == d
    ensures Ids(s'.events) == Ids(s.events) + {newId}
  {
    var events := s.events + [WithId(d, newId)];
    assert forall i | 0 <= i < |s.events| :: events[i] == s.events[i];
    assert events[|s.events|].id == newId;
    Store(events)
  }

  /** The events whose id is not `id`, in their original order. */
  function Without(events: seq<Event>, id: string): (r: seq<Event>)
    ensures forall e :: e in r <==> e in events && e.id != id
    ensures (forall i | 0 <= i < |events| :: events[i].id != id) ==> r == events
    decreases |events|
  {
    if |events| == 0 then []
    else
      var rest := Without(events[1..], id);
      assert events == [events[0]] + events[1..];
      if events[0].id == id then rest else [events[0]] + rest
  }

  /** `removeEvent`: filter out every event with the given id. */
  function RemoveEvent(s: Store, id: string): (s': Store)
    ensures id !in Ids(s'.events)
    ensures forall e :: e in s'.events <==> e in s.events && e.id != id
    ensures Subsequence(s'.events, s.events)
    ensures forall e :: multiset(s'.events)[e] == if e.id == id then 0 else multiset(s.events)[e]
  {
    WithoutIsSubsequence(s.events, id);
    WithoutMultiset(s.events, id);
    Store(Without(s.events, id))
  }

  /** The kept events are the original ones with some dropped, in their original order. */
  lemma {:induction false} WithoutIsSubsequence(events: seq<Event>, id: string)
    ensures Subsequence(Without(events, id), events)
    decreases |events|
  {
    if |events| > 0 {
      WithoutIsSubsequence(events[1..], id);
      var rest := Without(events[1..], id);
      if events[0].id != id {
        assert ([events[0]] + rest)[1..] == rest;
      }
    }
  }

  /** Each event with a different id is kept as many times as it occurred; the others not at all. */
  lemma {:induction false} WithoutMultiset(events: seq<Event>, id: string)
    ensures forall e :: multiset(Without(events, id))[e]
                     == if e.id == id then 0 else multiset(events)[e]
    decreases |events|
  {
    if |events| > 0 {
      WithoutMultiset(events[1..], id);
      assert events == [events[0]] + events[1..];
      assert multiset(events) == multiset([events[0]]) + multiset(events[1..]);
    }
  }

  // ---------------------------------------------------------------------------
  // Properties

  /** Giving a draft an id and taking it away again is the identity, and vice versa. */
  lemma DraftRoundTrip(d: EventDraft, e: Event)
    ensures DraftOf(WithId(d, e.id)) == d
    ensures WithId(DraftOf(e), e.id) == e
  {
  }

  /** Filtering distributes over concatenation: each part keeps its own order. */
  lemma {:induction false} WithoutAppend(a: seq<Event>, b: seq<Event>, id: string)
    ensures Without(a + b, id) == Without(a, id) + Without(b, id)
    decreases |a|
  {
    if |a| == 0 {
      assert a + b == b;
    } else {
      assert (a + b)[0] == a[0];
      assert (a + b)[1..] == a[1..] + b;
      WithoutAppend(a[1..], b, id);
    }
  }

  /** Removing an id nobody has changes nothing. */
  lemma RemoveAbsentId(s: Store, id: string)
    requires id !in Ids(s.events)
    ensures RemoveEvent(s, id) == s
  {
  }

  /** Removing the same id twice is removing it once. */
  lemma RemoveIdempotent(s: Store, id: string)
    ensures RemoveEvent(RemoveEvent(s, id), id) == RemoveEvent(s, id)
  {
  }

  /** The list shrinks by exactly the number of entries that carried the id. */
  lemma {:induction false} RemoveCount(events: seq<Event>, id: string)
    ensures |Without(events, id)| == |events| - Carrying(events, id)
    decreases |events|
  {
    if |events| > 0 {
      RemoveCount(events[1..], id);
    }
  }

  /** Removals of two ids can be done in either order. */
  lemma {:induction false} RemoveCommutes(events: seq<Event>, id1: string, id2: string)
    ensures Without(Without(events, id1), id2) == Without(Without(events, id2), id1)
    decreases |events|
  {
    if |events| > 0 {
      var head, tail := events[..1], events[1..];
      assert events == head + tail;
      WithoutAppend(head, tail, id1);
      WithoutAppend(head, tail, id2);
      WithoutAppend(Without(head, id1), Without(tail, id1), id2);
      WithoutAppend(Without(head, id2), Without(tail, id2), id1);
      RemoveCommutes(tail, id1, id2);
    }
  }

  /** With a fresh id, adding an event and removing it again restores the store. */
  lemma AddThenRemove(s: Store, d: EventDraft, newId: string)
    requires newId !in Ids(s.events)
    ensures RemoveEvent(AddEvent(s, d, newId), newId) == s
  {
    var added := WithId(d, newId);
    WithoutAppend(s.events, [added], newId);
    RemoveAbsentId(s, newId);
    assert Without([added], newId) == [];
  }

  /** Adding under a fresh id keeps ids unique. */
  lemma AddKeepsIdsUnique(s: Store, d: EventDraft, newId: string)
    requires UniqueIds(s.events)
    requires newId !in Ids(s.events)
    ensures UniqueIds(AddEvent(s, d, newId).events)
  {
  }

  /** Uniqueness of a non-empty list, split at its head. */
  lemma UniqueIdsCons(events: seq<Event>)
    requires |events| > 0
    ensures UniqueIds(events) <==> events[0].id !in Ids(events[1..]) && UniqueIds(events[1..])
  {
  }

  /** Filtering introduces no id that was not there. */
  lemma IdsOfWithout(events: seq<Event>, id: string)
    ensures Ids(Without(events, id)) <= Ids(events)
  {
  }

  /** Removing keeps ids unique. */
  lemma {:induction false} RemoveKeepsIdsUnique(events: seq<Event>, id: string)
    requires UniqueIds(events)
    ensures UniqueIds(Without(events, id))
    decreases |events|
  {
    if |events| > 0 {
      var tail := events[1..];
      UniqueIdsCons(events);
      RemoveKeepsIdsUnique(tail, id);
      var rest := Without(tail, id);
      if events[0].id != id {
        var r := [events[0]] + rest;
        assert r[1..] == rest;
        IdsOfWithout(tail, id);
        UniqueIdsCons(r);
      }
    }
  }
}
