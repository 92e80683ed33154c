/**
 * `saveEvents`: every event of a batch is upserted, in batch order, under
 * its `(sourceId, source)` key with `findOneAndUpdate(filter, event,
 * { upsert: true })`. The whole loop sits in one try/catch, so the first
 * upsert that throws ends the batch; the events before it stay saved.
 */
module Persister {
  import opened JsValues
  import opened EventModel

  /**
   * One upsert at time `now`. An existing document takes the event's fields
   * and keeps both timestamps (the update sets neither); a new one is
   * inserted with both timestamps defaulted to `now`. The upsert runs no
   * schema validation.
   */
  function Upsert(s: Store, e: EventFields, now: nat): (r: Store)
    ensures forall k :: k in r <==> k in s || k == KeyOf(e)
    ensures r[KeyOf(e)].fields == e
    ensures KeyOf(e) in s ==> r[KeyOf(e)].createdAt == s[KeyOf(e)].createdAt
    ensures KeyOf(e) in s ==> r[KeyOf(e)].updatedAt == s[KeyOf(e)].updatedAt
    ensures KeyOf(e) !in s ==> r[KeyOf(e)].createdAt == now && r[KeyOf(e)].updatedAt == now
    ensures forall k :: k in s && k != KeyOf(e) ==> r[k] == s[k]
    ensures UniqueKeys(s) ==> UniqueKeys(r)
  {
    var k := KeyOf(e);
    if k in s then s[k := StoredEvent(e, s[k].createdAt, s[k].updatedAt)]
    else s[k := StoredEvent(e, now, now)]
  }

  /** A freshly inserted document is the one the schema builds with its defaults. */
  lemma UpsertInsertsDefaults(s: Store, e: EventFields, now: nat)
    requires KeyOf(e) !in s && HasAllRequired(e)
    ensures Upsert(s, e, now)[KeyOf(e)] == NewDocument(e, None, None, now).doc
  {
  }

  /** The events the loop reaches before the first upsert that throws. */
  function Accepted(events: seq<EventFields>, rejects: EventFields -> bool): (acc: seq<EventFields>)
    ensures |acc| <= |events| && acc == events[..|acc|]
    ensures forall i :: 0 <= i < |acc| ==> !rejects(acc[i])
    ensures |acc| < |events| ==> rejects(events[|acc|])
  {
    if |events| == 0 || rejects(events[0]) then []
    else [events[0]] + Accepted(events[1..], rejects)
  }

  /** The keys of a batch. */
  function KeysOf(events: seq<EventFields>): (keys: set<Key>)
    ensures forall i :: 0 <= i < |events| ==> KeyOf(events[i]) in keys
    ensures forall k :: k in keys ==> exists i :: 0 <= i < |events| && KeyOf(events[i]) == k
  {
    if |events| == 0 then {}
    else
      var rest := KeysOf(events[1..]);
      assert forall i :: 1 <= i < |events| ==> events[i] == events[1..][i - 1];
      {KeyOf(events[0])} + rest
  }

  /** Every event of the batch upserted in order, none of them throwing. */
  function SaveAll(s: Store, events: seq<EventFields>, now: nat): (r: Store)
    decreases |events|
    ensures forall k :: k in r <==> k in s || k in KeysOf(events)
    ensures forall k :: k in s && k !in KeysOf(events) ==> r[k] == s[k]
    ensures UniqueKeys(s) ==> UniqueKeys(r)
  {
    if |events| == 0 then s
    else
      SaveAll(Upsert(s, events[0], now), events[1..], now)
  }

  /**
   * A batch never touches timestamps of documents already stored, and the
   * documents it inserts are stamped with the time of the save.
   */
  lemma {:induction false} SaveAllTimestamps(s: Store, events: seq<EventFields>, now: nat)
    decreases |events|
    ensures var r := SaveAll(s, events, now);
            && (forall k :: k in s ==> r[k].createdAt == s[k].createdAt && r[k].updatedAt == s[k].updatedAt)
            && (forall k :: k in r && k !in s ==> r[k].createdAt == now && r[k].updatedAt == now)
  {
    if |events| > 0 {
      var s1 := Upsert(s, events[0], now);
      SaveAllTimestamps(s1, events[1..], now);
      assert SaveAll(s, events, now) == SaveAll(s1, events[1..], now);
    }
  }

  /** The last event of a batch with key `k`. */
  function LastWithKey(events: seq<EventFields>, k: Key): (last: Option<EventFields>)
    ensures last.None? <==> k !in KeysOf(events)
    ensures last.Some? ==>
              exists i :: 0 <= i < |events| && events[i] == last.value && KeyOf(last.value) == k
                          && forall j :: i < j < |events| ==> KeyOf(events[j]) != k
  {
    if |events| == 0 then None
    else
      var later := LastWithKey(events[1..], k);
      assert forall j :: 1 <= j < |events| ==> events[j] == events[1..][j - 1];
      if later.Some? then later
      else if KeyOf(events[0]) == k then Some(events[0])
      else None
  }

  /**
   * The latest event wins: the document stored under a key of the batch
   * holds the fields of the last event with that key.
   */
  lemma {:induction false} SavedRecord(s: Store, events: seq<EventFields>, now: nat, k: Key)
    decreases |events|
    requires LastWithKey(events, k).Some?
    ensures k in SaveAll(s, events, now)
    ensures SaveAll(s, events, now)[k].fields == LastWithKey(events, k).value
  {
    var s' := Upsert(s, events[0], now);
    assert SaveAll(s, events, now) == SaveAll(s', events[1..], now);
    if LastWithKey(events[1..], k).Some? {
      SavedRecord(s', events[1..], now, k);
    } else {
      assert KeyOf(events[0]) == k && k !in KeysOf(events[1..]);
      assert s'[k].fields == events[0];
    }
  }

  /** Saving the same batch again, at any later time, changes nothing. */
  lemma SaveAllIdempotent(s: Store, events: seq<EventFields>, now: nat, later: nat)
    ensures SaveAll(SaveAll(s, events, now), events, later) == SaveAll(s, events, now)
  {
    var once := SaveAll(s, events, now);
    var twice := SaveAll(once, events, later);
    SaveAllTimestamps(once, events, later);
    forall k | k in twice
      ensures twice[k] == once[k]
    {
      if k in KeysOf(events) {
        SavedRecord(s, events, now, k);
        SavedRecord(once, events, later, k);
      }
    }
  }

  /**
   * `saveEvents(events)` at time `now`, where `rejects(e)` says that the
   * upsert of `e` throws: the try/catch around the whole loop means the
   * events up to the first throwing one are saved and the rest are not.
   */
  function SaveEvents(s: Store, events: seq<EventFields>, now: nat, rejects: EventFields -> bool): (r: Store)
    ensures forall k :: k in r <==> k in s || k in KeysOf(Accepted(events, rejects))
    ensures forall k :: k in s && k !in KeysOf(Accepted(events, rejects)) ==> r[k] == s[k]
    ensures UniqueKeys(s) ==> UniqueKeys(r)
    ensures (forall i :: 0 <= i < |events| ==> !rejects(events[i])) ==> r == SaveAll(s, events, now)
  {
    var acc := Accepted(events, rejects);
    assert (forall i :: 0 <= i < |events| ==> !rejects(events[i])) ==> acc == events;
    SaveAll(s, acc, now)
  }

  /** The first upsert that throws ends the batch: exactly the events before it are saved. */
  lemma FirstRejectionEndsBatch(s: Store, events: seq<EventFields>, now: nat, rejects: EventFields -> bool, i: nat)
    requires i < |events| && rejects(events[i])
    requires forall j :: 0 <= j < i ==> !rejects(events[j])
    ensures SaveEvents(s, events, now, rejects) == SaveAll(s, events[..i], now)
  {
    assert Accepted(events, rejects) == events[..i];
  }

  /** Re-running a save of the same batch changes nothing. */
  lemma SaveEventsIdempotent(s: Store, events: seq<EventFields>, now: nat, later: nat, rejects: EventFields -> bool)
    ensures SaveEvents(SaveEvents(s, events, now, rejects), events, later, rejects) == SaveEvents(s, events, now, rejects)
  {
    SaveAllIdempotent(s, Accepted(events, rejects), now, later);
  }
}
