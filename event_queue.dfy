/**
  The fixed-capacity event queue (Module1/EventQueue.h, Module1/EventQueue.cpp).

  A table of 256 listener slots, each with a permanent 8-bit id and an optional
  listener, and a buffer of 256 event strings of which at most 255 are ever used.
  Listener calls are recorded in the ghost trace `delivered`.
 */
module Events {
  import opened Wrappers

  /** std::uint8_t */
  newtype uint8 = x: int | 0 <= x < 256

  /** _maxListeners: the size of the listener table and of the event buffer. */
  const MaxListeners := 256

  /** The id RegisterListener returns when no slot is free. */
  const Full: uint8 := 255

  /** The queue drops events once it holds this many. */
  const MaxQueued: uint8 := 255

  /** A non-empty std::function<void(std::string)>, known only by identity. */
  datatype Listener = Listener(handle: nat)

  /** One entry of _listeners: the slot's id and its listener, None for an empty function. */
  datatype Slot = Slot(id: uint8, listener: Option<Listener>)

  /** One call of a listener with an event. */
  datatype Delivery = Delivery(listener: Listener, event: string)

  /** Slot i carries id i: the table as the constructor leaves it. */
  ghost predicate IdsAreIndices(slots: seq<Slot>)
  {
    forall i :: 0 <= i < |slots| ==> slots[i].id as int == i
  }

  // ---------------------------------------------------------------------------
  // Registration
  // ---------------------------------------------------------------------------

  /** Index of the lowest empty slot, |slots| when every slot is occupied. */
  function FirstEmpty(slots: seq<Slot>): (k: nat)
    ensures k <= |slots|
    ensures forall j :: 0 <= j < k ==> slots[j].listener.Some?
    ensures k < |slots| ==> slots[k].listener.None?
  {
    if |slots| == 0 then 0
    else if slots[0].listener.None? then 0
    else 1 + FirstEmpty(slots[1..])
  }

  /** The table after RegisterListener(listener). */
  function AfterRegister(slots: seq<Slot>, listener: Option<Listener>): seq<Slot>
  {
    var k := FirstEmpty(slots);
    if k < |slots| then slots[k := slots[k].(listener := listener)] else slots
  }

  /** The id RegisterListener returns: the chosen slot's id, or Full. */
  function RegisterId(slots: seq<Slot>): uint8
  {
    var k := FirstEmpty(slots);
    if k < |slots| then slots[k].id else Full
  }

  /** The table after DeregisterListener(identifier). */
  function AfterDeregister(slots: seq<Slot>, identifier: uint8): seq<Slot>
    requires identifier as int < |slots|
  {
    slots[identifier := slots[identifier].(listener := None)]
  }

  /**
    A slot `k` that is empty while every slot before it is occupied receives the
    listener; its id is returned and no other slot changes.
   */
  lemma RegisterUsesLowestEmptySlot(slots: seq<Slot>, listener: Option<Listener>, k: nat)
    requires k < |slots| && slots[k].listener.None?
    requires forall j :: 0 <= j < k ==> slots[j].listener.Some?
    ensures |AfterRegister(slots, listener)| == |slots|
    ensures AfterRegister(slots, listener)[k] == Slot(slots[k].id, listener)
    ensures forall j :: 0 <= j < |slots| && j != k ==> AfterRegister(slots, listener)[j] == slots[j]
    ensures RegisterId(slots) == slots[k].id
  {
    assert FirstEmpty(slots) == k;
  }

  /** With every slot occupied nothing changes and 255 is returned. */
  lemma RegisterWhenFull(slots: seq<Slot>, listener: Option<Listener>)
    requires forall j :: 0 <= j < |slots| ==> slots[j].listener.Some?
    ensures AfterRegister(slots, listener) == slots
    ensures RegisterId(slots) == Full
  {
  }

  /**
    The "full" answer is ambiguous: when slots 0..254 are occupied, RegisterListener
    returns 255 whether it has just filled slot 255 or found the table full.
   */
  lemma FullIdIsAlsoValidId(slots: seq<Slot>, listener: Option<Listener>)
    requires |slots| == MaxListeners && IdsAreIndices(slots)
    requires forall j :: 0 <= j < 255 ==> slots[j].listener.Some?
    ensures RegisterId(slots) == Full
    ensures slots[255].listener.None? ==> AfterRegister(slots, listener)[255].listener == listener
    ensures slots[255].listener.Some? ==> AfterRegister(slots, listener) == slots
  {
    if slots[255].listener.None? {
      RegisterUsesLowestEmptySlot(slots, listener, 255);
    } else {
      RegisterWhenFull(slots, listener);
    }
  }

  /** Registration and deregistration only ever assign the listener half of a slot. */
  lemma RegistrationKeepsIds(slots: seq<Slot>, listener: Option<Listener>, identifier: uint8)
    requires identifier as int < |slots|
    ensures |AfterRegister(slots, listener)| == |slots| == |AfterDeregister(slots, identifier)|
    ensures forall j :: 0 <= j < |slots| ==>
      AfterRegister(slots, listener)[j].id == slots[j].id == AfterDeregister(slots, identifier)[j].id
  {
  }

  /**
    After DeregisterListener(identifier) the lowest empty slot is the lower of
    `identifier` and the previous lowest empty slot, so the next registration reuses it.
   */
  lemma {:induction false} DeregisterFreesLowest(slots: seq<Slot>, identifier: uint8)
    requires identifier as int < |slots|
    ensures var k := FirstEmpty(slots);
      FirstEmpty(AfterDeregister(slots, identifier)) == if identifier as int < k then identifier as int else k
  {
    var after := AfterDeregister(slots, identifier);
    var k := FirstEmpty(slots);
    var m := if identifier as int < k then identifier as int else k;
    assert forall j :: 0 <= j < m ==> after[j].listener.Some?;
    assert m < |after| && after[m].listener.None?;
    FirstEmptyIsUnique(after, m);
  }

  /** Any slot that is empty while all earlier ones are occupied is FirstEmpty. */
  lemma FirstEmptyIsUnique(slots: seq<Slot>, m: nat)
    requires m < |slots| && slots[m].listener.None?
    requires forall j :: 0 <= j < m ==> slots[j].listener.Some?
    ensures FirstEmpty(slots) == m
  {
  }

  // ---------------------------------------------------------------------------
  // Broadcast
  // ---------------------------------------------------------------------------

  /** The listeners of the occupied slots, in slot order. */
  function Occupied(slots: seq<Slot>): seq<Listener>
  {
    if |slots| == 0 then []
    else
      Occupied(slots[..|slots| - 1])
      + match slots[|slots| - 1].listener
        case Some(l) => [l]
        case None => []
  }

  /** The indices of the occupied slots, in increasing order. */
  function OccupiedSlots(slots: seq<Slot>): seq<nat>
  {
    if |slots| == 0 then []
    else
      OccupiedSlots(slots[..|slots| - 1])
      + if slots[|slots| - 1].listener.Some? then [|slots| - 1] else []
  }

  /** Adding one slot at the end extends both lists by that slot, when it is occupied. */
  lemma OccupiedLast(slots: seq<Slot>)
    requires |slots| > 0
    ensures var n := |slots| - 1;
      && OccupiedSlots(slots)
         == OccupiedSlots(slots[..n]) + (if slots[n].listener.Some? then [n] else [])
      && Occupied(slots)
         == Occupied(slots[..n]) + (if slots[n].listener.Some? then [slots[n].listener.value] else [])
  {
  }

  /** The occupied-slot indices lie inside the table and strictly increase. */
  lemma {:induction false} OccupiedSlotsIncreasing(slots: seq<Slot>)
    ensures var ks := OccupiedSlots(slots);
      && (forall j :: 0 <= j < |ks| ==> ks[j] < |slots|)
      && (forall j1, j2 :: 0 <= j1 < j2 < |ks| ==> ks[j1] < ks[j2])
  {
    if |slots| > 0 {
      var n := |slots| - 1;
      OccupiedSlotsIncreasing(slots[..n]);
      OccupiedLast(slots);
    }
  }

  /** The j-th occupied-slot index holds the j-th listener of Occupied. */
  lemma {:induction false} OccupiedSlotsListeners(slots: seq<Slot>)
    ensures var ks := OccupiedSlots(slots);
      && |ks| == |Occupied(slots)|
      && (forall j :: 0 <= j < |ks| ==>
            ks[j] < |slots| && slots[ks[j]].listener == Some(Occupied(slots)[j]))
  {
    if |slots| > 0 {
      var n := |slots| - 1;
      var init := slots[..n];
      OccupiedSlotsListeners(init);
      OccupiedSlotsIncreasing(init);
      OccupiedLast(slots);
      var ks, ks0 := OccupiedSlots(slots), OccupiedSlots(init);
      forall j | 0 <= j < |ks0|
        ensures ks[j] == ks0[j] && Occupied(slots)[j] == Occupied(init)[j]
        ensures slots[ks[j]] == init[ks0[j]]
      {
      }
    }
  }

  /** Every occupied slot's index appears in OccupiedSlots. */
  lemma {:induction false} OccupiedSlotsComplete(slots: seq<Slot>)
    ensures forall k :: 0 <= k < |slots| && slots[k].listener.Some? ==> k in OccupiedSlots(slots)
  {
    if |slots| > 0 {
      var n := |slots| - 1;
      var init := slots[..n];
      OccupiedSlotsComplete(init);
      OccupiedLast(slots);
      forall k | 0 <= k < n && slots[k].listener.Some?
        ensures k in OccupiedSlots(slots)
      {
        assert slots[k] == init[k];
      }
    }
  }

  /**
    Occupied lists the listener of each occupied slot exactly once, in increasing slot
    order: its j-th entry is the listener of the j-th occupied slot.
   */
  lemma {:induction false} OccupiedInSlotOrder(slots: seq<Slot>)
    ensures var ks := OccupiedSlots(slots);
      && |ks| == |Occupied(slots)|
      && (forall j :: 0 <= j < |ks| ==>
            ks[j] < |slots| && slots[ks[j]].listener == Some(Occupied(slots)[j]))
      && (forall j1, j2 :: 0 <= j1 < j2 < |ks| ==> ks[j1] < ks[j2])
      && (forall k :: 0 <= k < |slots| && slots[k].listener.Some? ==> k in ks)
  {
    OccupiedSlotsListeners(slots);
    OccupiedSlotsIncreasing(slots);
    OccupiedSlotsComplete(slots);
  }

  /**
    The calls one event makes: for the j-th occupied slot, in increasing slot order, one
    call of that slot's listener with the event, and no call for an empty slot.
   */
  lemma FanoutInSlotOrder(event: string, slots: seq<Slot>)
    ensures var r := Fanout(event, Occupied(slots));
      var ks := OccupiedSlots(slots);
      && |r| == |ks|
      && (forall j :: 0 <= j < |ks| ==>
            ks[j] < |slots| && slots[ks[j]].listener.Some?
            && r[j] == Delivery(slots[ks[j]].listener.value, event))
      && (forall j1, j2 :: 0 <= j1 < j2 < |ks| ==> ks[j1] < ks[j2])
      && (forall k :: 0 <= k < |slots| && slots[k].listener.Some? ==> k in ks)
  {
    OccupiedInSlotOrder(slots);
  }

  /** One event handed to each listener of `listeners` in turn. */
  function Fanout(event: string, listeners: seq<Listener>): seq<Delivery>
  {
    seq(|listeners|, j requires 0 <= j < |listeners| => Delivery(listeners[j], event))
  }

  /** All calls BroadcastAllEvents makes: event by event, and for each event slot by slot. */
  function Deliveries(events: seq<string>, slots: seq<Slot>): seq<Delivery>
  {
    if |events| == 0 then []
    else Deliveries(events[..|events| - 1], slots) + Fanout(events[|events| - 1], Occupied(slots))
  }

  /** The inner broadcast loop's step: slot j adds one call when it is occupied. */
  lemma FanoutStep(event: string, slots: seq<Slot>, j: nat)
    requires j < |slots|
    ensures Fanout(event, Occupied(slots[..j + 1])) == Fanout(event, Occupied(slots[..j]))
      + match slots[j].listener
        case Some(l) => [Delivery(l, event)]
        case None => []
  {
    assert slots[..j + 1][..j] == slots[..j];
  }

  /** The outer broadcast loop's step: event i adds one call per occupied slot. */
  lemma DeliveriesStep(events: seq<string>, i: nat, slots: seq<Slot>)
    requires i < |events|
    ensures Deliveries(events[..i + 1], slots) == Deliveries(events[..i], slots) + Fanout(events[i], Occupied(slots))
  {
    assert events[..i + 1][..i] == events[..i];
  }

  /** Occupied lists exactly the listeners present in the table. */
  lemma {:induction false} OccupiedMembers(slots: seq<Slot>, l: Listener)
    ensures l in Occupied(slots) <==> exists k :: 0 <= k < |slots| && slots[k].listener == Some(l)
  {
    if |slots| > 0 {
      var init := slots[..|slots| - 1];
      OccupiedMembers(init, l);
      if exists k :: 0 <= k < |init| && init[k].listener == Some(l) {
        var k :| 0 <= k < |init| && init[k].listener == Some(l);
        assert slots[k].listener == Some(l);
      }
      if exists k :: 0 <= k < |slots| && slots[k].listener == Some(l) {
        var k :| 0 <= k < |slots| && slots[k].listener == Some(l);
        if k < |init| {
          assert init[k].listener == Some(l);
        }
      }
    }
  }

  lemma MulStep(n: nat, m: nat)
    ensures (n + 1) * m == n * m + m
  {
  }

  lemma MulIndexBound(i: nat, j: nat, n: nat, m: nat)
    requires i < n && j < m
    ensures i * m + j < n * m
  {
    assert i + 1 <= n;
    assert (i + 1) * m <= n * m;
    MulStep(i, m);
  }

  /** A broadcast makes one call per queued event and occupied slot. */
  lemma {:induction false} DeliveriesLength(events: seq<string>, slots: seq<Slot>)
    ensures |Deliveries(events, slots)| == |events| * |Occupied(slots)|
  {
    if |events| > 0 {
      DeliveriesLength(events[..|events| - 1], slots);
      MulStep(|events| - 1, |Occupied(slots)|);
    }
  }

  /**
    Every queued event reaches every occupied listener, events in queue order and, for
    each event, listeners in slot order: with m occupied slots, event i's call to the
    j-th occupied listener is call number i * m + j.
   */
  lemma {:induction false} DeliveryAt(events: seq<string>, slots: seq<Slot>, i: nat, j: nat)
    requires i < |events| && j < |Occupied(slots)|
    ensures i * |Occupied(slots)| + j < |Deliveries(events, slots)|
    ensures Deliveries(events, slots)[i * |Occupied(slots)| + j] == Delivery(Occupied(slots)[j], events[i])
  {
    var m := |Occupied(slots)|;
    var n := |events| - 1;
    var init := events[..n];
    DeliveriesLength(init, slots);
    DeliveriesLength(events, slots);
    MulIndexBound(i, j, |events|, m);
    if i < n {
      DeliveryAt(init, slots, i, j);
      assert init[i] == events[i];
    } else {
      assert i * m + j == |Deliveries(init, slots)| + j;
    }
  }

  // ---------------------------------------------------------------------------
  // The queue
  // ---------------------------------------------------------------------------

  class EventQueue {
    /** _listeners */
    const listeners: array<Slot>
    /** _queuedEvents */
    const queuedEvents: array<string>
    /** _numberOfEventsInQueue */
    var numberOfEventsInQueue: uint8
    /** Every listener call made so far. */
    ghost var delivered: seq<Delivery>

    ghost predicate Valid()
      reads this, listeners
    {
      && listeners.Length == MaxListeners
      && queuedEvents.Length == MaxListeners
      && IdsAreIndices(listeners[..])
      && numberOfEventsInQueue <= MaxQueued
    }

    /** The events waiting for the next broadcast, oldest first. */
    ghost function Pending(): seq<string>
      reads this, queuedEvents
      requires queuedEvents.Length == MaxListeners
    {
      queuedEvents[..numberOfEventsInQueue]
    }

    /** Slot i gets id i and no listener; the queue starts empty. */
    constructor ()
      ensures Valid() && fresh(listeners) && fresh(queuedEvents)
      ensures forall i :: 0 <= i < MaxListeners ==> listeners[i] == Slot(i as uint8, None)
      ensures numberOfEventsInQueue == 0 && Pending() == []
      ensures delivered == []
    {
      listeners := new Slot[MaxListeners](_ => Slot(0, None));
      queuedEvents := new string[MaxListeners](_ => "");
      numberOfEventsInQueue := 0;
      delivered := [];
      new;
      var id := 0;
      while id < MaxListeners
        invariant 0 <= id <= MaxListeners
        invariant forall i :: 0 <= i < id ==> listeners[i] == Slot(i as uint8, None)
        invariant numberOfEventsInQueue == 0 && delivered == []
      {
        listeners[id] := Slot(id as uint8, None);
        id := id + 1;
      }
    }

    /** Stores `listener` in the lowest empty slot and returns that slot's id, or 255. */
    method RegisterListener(listener: Option<Listener>) returns (id: uint8)
      requires Valid()
      modifies listeners
      ensures Valid()
      ensures listeners[..] == AfterRegister(old(listeners[..]), listener)
      ensures id == RegisterId(old(listeners[..]))
    {
      var i := 0;
      while i < MaxListeners
        invariant 0 <= i <= MaxListeners
        invariant forall j :: 0 <= j < i ==> listeners[j].listener.Some?
        invariant listeners[..] == old(listeners[..])
      {
        if listeners[i].listener.None? {
          FirstEmptyIsUnique(listeners[..], i);
          listeners[i] := listeners[i].(listener := listener);
          return listeners[i].id;
        }
        i := i + 1;
      }
      return Full;
    }

    /** Calls every occupied slot's listener with every queued event, then empties the queue. */
    method BroadcastAllEvents()
      requires Valid()
      modifies this
      ensures Valid()
      ensures delivered == old(delivered) + Deliveries(old(Pending()), listeners[..])
      ensures numberOfEventsInQueue == 0 && Pending() == []
      ensures queuedEvents[..] == old(queuedEvents[..])
    {
      ghost var events := Pending();
      ghost var slots := listeners[..];
      var i := 0;
      while i != numberOfEventsInQueue as int
        invariant 0 <= i <= numberOfEventsInQueue as int
        invariant numberOfEventsInQueue == old(numberOfEventsInQueue)
        invariant delivered == old(delivered) + Deliveries(events[..i], slots)
      {
        assert queuedEvents[i] == events[i];
        DeliverToListeners(i);
        DeliveriesStep(events, i, slots);
        i := i + 1;
      }
      assert events[..i] == events;
      numberOfEventsInQueue := 0;
    }

    /** The inner loop of BroadcastAllEvents: queued event i goes to each occupied slot in turn. */
    method DeliverToListeners(i: int)
      requires Valid() && 0 <= i < numberOfEventsInQueue as int
      modifies this
      ensures Valid() && numberOfEventsInQueue == old(numberOfEventsInQueue)
      ensures delivered == old(delivered) + Fanout(queuedEvents[i], Occupied(listeners[..]))
    {
      ghost var slots := listeners[..];
      var j := 0;
      while j < MaxListeners
        invariant 0 <= j <= MaxListeners
        invariant numberOfEventsInQueue == old(numberOfEventsInQueue)
        invariant delivered == old(delivered) + Fanout(queuedEvents[i], Occupied(slots[..j]))
      {
        FanoutStep(queuedEvents[i], slots, j);
        if listeners[j].listener.Some? {
          delivered := delivered + [Delivery(listeners[j].listener.value, queuedEvents[i])];
        }
        j := j + 1;
      }
      assert slots[..j] == slots;
    }

    /** Empties slot `identifier`; every id names a slot. */
    method DeregisterListener(identifier: uint8)
      requires Valid()
      modifies listeners
      ensures Valid()
      ensures listeners[..] == AfterDeregister(old(listeners[..]), identifier)
    {
      listeners[identifier] := listeners[identifier].(listener := None);
    }

    /** Appends `event` unless 255 events are already queued, in which case it is dropped. */
    method EnqueueEvent(event: string)
      requires Valid()
      modifies this, queuedEvents
      ensures Valid() && delivered == old(delivered)
      ensures old(numberOfEventsInQueue) < MaxQueued ==>
        && numberOfEventsInQueue == old(numberOfEventsInQueue) + 1
        && queuedEvents[..] == old(queuedEvents[..])[old(numberOfEventsInQueue) as int := event]
      ensures old(numberOfEventsInQueue) == MaxQueued ==>
        numberOfEventsInQueue == MaxQueued && queuedEvents[..] == old(queuedEvents[..])
      ensures Pending() == if old(numberOfEventsInQueue) < MaxQueued then old(Pending()) + [event]
                           else old(Pending())
    {
      if numberOfEventsInQueue == MaxQueued {
        return;
      }
      queuedEvents[numberOfEventsInQueue] := event;
      numberOfEventsInQueue := numberOfEventsInQueue + 1;
    }
  }
}
