/**
 * What one tile or listing item contributes to a page's events. Each is
 * extracted inside its own try/catch, so an item either yields an event,
 * is skipped by the title-and-link gate, or throws and is logged; the
 * page's events are the yielded ones, in item order.
 */
module Outcomes {
  import opened EventModel

  datatype Outcome = Emitted(event: EventFields) | Dropped | Failed

  /** The events of the items that yielded one, in item order. */
  function EmittedEvents(os: seq<Outcome>): (events: seq<EventFields>)
    ensures |events| <= |os|
    ensures forall i :: 0 <= i < |os| && os[i].Emitted? ==> os[i].event in events
    ensures forall e :: e in events ==> Emitted(e) in os
    ensures (forall i :: 0 <= i < |os| ==> os[i].Emitted?) ==> |events| == |os|
  {
    if |os| == 0 then []
    else
      var n := |os| - 1;
      var rest := EmittedEvents(os[..n]);
      assert forall i :: 0 <= i < n ==> os[..n][i] == os[i];
      assert forall e :: e in rest ==> Emitted(e) in os[..n];
      if os[n].Emitted? then rest + [os[n].event] else rest
  }

  /** Item order is kept: the events of two runs of items are those of the first, then those of the second. */
  lemma {:induction false} EmittedEventsAppend(a: seq<Outcome>, b: seq<Outcome>)
    ensures EmittedEvents(a + b) == EmittedEvents(a) + EmittedEvents(b)
    decreases |b|
  {
    if |b| == 0 {
      assert a + b == a;
    } else {
      var n := |b| - 1;
      var ab := a + b;
      assert ab[..|ab| - 1] == a + b[..n];
      assert ab[|ab| - 1] == b[n];
      EmittedEventsAppend(a, b[..n]);
      EmittedEventsLast(ab);
      EmittedEventsLast(b);
    }
  }

  /** The last item's event, if any, comes last. */
  lemma EmittedEventsLast(os: seq<Outcome>)
    requires |os| > 0
    ensures var n := |os| - 1;
            EmittedEvents(os) == EmittedEvents(os[..n]) + (if os[n].Emitted? then [os[n].event] else [])
  {
  }

  /** A single item contributes its event if it yielded one, and nothing otherwise. */
  lemma EmittedEventsOne(o: Outcome)
    ensures EmittedEvents([o]) == if o.Emitted? then [o.event] else []
  {
    assert [o][..0] == [];
  }

  /** Every event comes from a position that emitted it. */
  lemma EmittedAt(os: seq<Outcome>)
    ensures forall e :: e in EmittedEvents(os) ==> exists i :: 0 <= i < |os| && os[i] == Emitted(e)
  {
    forall e | e in EmittedEvents(os)
      ensures exists i :: 0 <= i < |os| && os[i] == Emitted(e)
    {
      assert Emitted(e) in os;
    }
  }

  /** The events of several lists, list by list. */
  function Flatten(parts: seq<seq<EventFields>>): (events: seq<EventFields>)
    ensures forall e :: e in events ==> exists i :: 0 <= i < |parts| && e in parts[i]
    ensures forall i, e :: 0 <= i < |parts| && e in parts[i] ==> e in events
  {
    if |parts| == 0 then []
    else
      var n := |parts| - 1;
      assert forall i :: 0 <= i < n ==> parts[..n][i] == parts[i];
      Flatten(parts[..n]) + parts[n]
  }

  /** Collecting two runs of lists is collecting the first, then the second. */
  lemma {:induction false} FlattenAppend(a: seq<seq<EventFields>>, b: seq<seq<EventFields>>)
    ensures Flatten(a + b) == Flatten(a) + Flatten(b)
    decreases |b|
  {
    if |b| == 0 {
      assert a + b == a;
    } else {
      var n := |b| - 1;
      var ab := a + b;
      assert ab[..|ab| - 1] == a + b[..n];
      assert ab[|ab| - 1] == b[n];
      FlattenAppend(a, b[..n]);
      calc {
        Flatten(ab);
        Flatten(a + b[..n]) + b[n];
        (Flatten(a) + Flatten(b[..n])) + b[n];
        { SeqAssoc(Flatten(a), Flatten(b[..n]), b[n]); }
        Flatten(a) + (Flatten(b[..n]) + b[n]);
        Flatten(a) + Flatten(b);
      }
    }
  }

  lemma SeqAssoc(x: seq<EventFields>, y: seq<EventFields>, z: seq<EventFields>)
    ensures (x + y) + z == x + (y + z)
  {
  }

  /** A single list is collected as it stands. */
  lemma FlattenOne(p: seq<EventFields>)
    ensures Flatten([p]) == p
  {
    assert [p][..0] == [];
  }

  /** How many items yielded an event. */
  function EmittedCount(os: seq<Outcome>): (n: nat)
    ensures n <= |os|
  {
    if |os| == 0 then 0 else EmittedCount(os[..|os| - 1]) + (if os[|os| - 1].Emitted? then 1 else 0)
  }

  /** One event per yielding item: a failing item costs exactly its own event. */
  lemma {:induction false} EmittedEventsCount(os: seq<Outcome>)
    ensures |EmittedEvents(os)| == EmittedCount(os)
  {
    if |os| > 0 {
      EmittedEventsCount(os[..|os| - 1]);
    }
  }

  /** When exactly one item fails or is skipped, every other item's event is kept. */
  lemma {:induction false} AllButOneEmitted(os: seq<Outcome>, bad: nat)
    requires bad < |os| && !os[bad].Emitted?
    requires forall i :: 0 <= i < |os| && i != bad ==> os[i].Emitted?
    ensures |EmittedEvents(os)| == |os| - 1
  {
    EmittedEventsCount(os);
    CountAllButOne(os, bad);
  }

  lemma {:induction false} CountAllButOne(os: seq<Outcome>, bad: nat)
    requires bad < |os| && !os[bad].Emitted?
    requires forall i :: 0 <= i < |os| && i != bad ==> os[i].Emitted?
    ensures EmittedCount(os) == |os| - 1
    decreases |os|
  {
    var n := |os| - 1;
    assert forall i :: 0 <= i < n ==> os[..n][i] == os[i];
    if bad < n {
      CountAllButOne(os[..n], bad);
    } else {
      CountAll(os[..n]);
    }
  }

  lemma {:induction false} CountAll(os: seq<Outcome>)
    requires forall i :: 0 <= i < |os| ==> os[i].Emitted?
    ensures EmittedCount(os) == |os|
  {
    if |os| > 0 {
      var n := |os| - 1;
      assert forall i :: 0 <= i < n ==> os[..n][i] == os[i];
      CountAll(os[..n]);
    }
  }
}
