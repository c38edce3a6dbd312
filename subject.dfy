/**
  The observer subject (Module1/Source.h, Module1/Source.cpp).

  An array of 256 observer pointers whose first `numberOfObservers` entries are the
  registered observers. Observers are opaque ids; each OnNotify call is recorded in
  the ghost trace `notified`.
 */
module Subject {

  /** _maxObservers */
  const MaxObservers := 256

  /** The two events the player raises. */
  datatype Event = PlayerJumped | PlayerWalked

  /** entt::entity */
  datatype Entity = Entity(id: nat)

  /** Observer*: a null pointer or an observer known by its id. */
  datatype ObserverPtr = Null | Ptr(id: nat)

  /** One call observer->OnNotify(source, event). */
  datatype Notification = Notification(observer: nat, source: Entity, event: Event)

  /** Every entry points to an observer. */
  ghost predicate NoNull(observers: seq<ObserverPtr>)
  {
    forall k :: 0 <= k < |observers| ==> observers[k].Ptr?
  }

  /** Position of the first occurrence of `o`, |observers| when there is none. */
  function IndexOf(observers: seq<ObserverPtr>, o: ObserverPtr): (i: nat)
    ensures i <= |observers|
    ensures i < |observers| ==> observers[i] == o
    ensures forall k :: 0 <= k < i ==> observers[k] != o
    ensures i == |observers| <==> o !in observers
  {
    if |observers| == 0 then 0
    else if observers[0] == o then 0
    else 1 + IndexOf(observers[1..], o)
  }

  /** The list with its first occurrence of `o` cut out; unchanged when there is none. */
  function RemoveFirst(observers: seq<ObserverPtr>, o: ObserverPtr): seq<ObserverPtr>
  {
    var i := IndexOf(observers, o);
    if i < |observers| then observers[..i] + observers[i + 1..] else observers
  }

  /** The calls Notify makes: one per observer, in index order. */
  function Broadcast(observers: seq<ObserverPtr>, source: Entity, event: Event): seq<Notification>
    requires NoNull(observers)
  {
    if |observers| == 0 then []
    else
      Broadcast(observers[..|observers| - 1], source, event)
      + [Notification(observers[|observers| - 1].id, source, event)]
  }

  /** Removing a present observer deletes exactly one of its occurrences and nothing else. */
  lemma RemoveFirstPresent(observers: seq<ObserverPtr>, o: ObserverPtr)
    requires o in observers
    ensures |RemoveFirst(observers, o)| == |observers| - 1
    ensures multiset(RemoveFirst(observers, o)) == multiset(observers) - multiset{o}
  {
    var i := IndexOf(observers, o);
    assert observers == observers[..i] + [o] + observers[i + 1..];
  }

  /** Removing an absent observer changes nothing. */
  lemma RemoveFirstAbsent(observers: seq<ObserverPtr>, o: ObserverPtr)
    requires o !in observers
    ensures RemoveFirst(observers, o) == observers
  {
  }

  /** Cutting out position i keeps the entries before it and moves those after it down one. */
  lemma CutAt<T>(s: seq<T>, i: nat)
    requires i < |s|
    ensures |s[..i] + s[i + 1..]| == |s| - 1
    ensures forall k :: 0 <= k < |s| - 1 ==> (s[..i] + s[i + 1..])[k] == if k < i then s[k] else s[k + 1]
  {
  }

  /**
    The observers left behind keep their relative order: those before the first `o`
    stay in place and those after it move down one.
   */
  lemma RemoveFirstKeepsOrder(observers: seq<ObserverPtr>, o: ObserverPtr)
    ensures |RemoveFirst(observers, o)| == if o in observers then |observers| - 1 else |observers|
    ensures var i := IndexOf(observers, o);
      forall k :: 0 <= k < |RemoveFirst(observers, o)| ==>
        RemoveFirst(observers, o)[k] == if k < i then observers[k] else observers[k + 1]
  {
    var i := IndexOf(observers, o);
    if i < |observers| {
      CutAt(observers, i);
    }
  }

  /** With no duplicate check, adding `o` twice and removing it once leaves it registered. */
  lemma AddTwiceRemoveOnce(observers: seq<ObserverPtr>, o: ObserverPtr)
    ensures o in RemoveFirst(observers + [o] + [o], o)
    ensures multiset(RemoveFirst(observers + [o] + [o], o))[o] == multiset(observers)[o] + 1
  {
    var added := observers + [o] + [o];
    assert added[|added| - 1] == o;
    RemoveFirstPresent(added, o);
    assert multiset(added)[o] == multiset(observers)[o] + 2;
    assert o in multiset(RemoveFirst(added, o));
  }

  /** Notify calls observer k's OnNotify as its k-th call, with the same source and event. */
  lemma {:induction false} BroadcastOrder(observers: seq<ObserverPtr>, source: Entity, event: Event)
    requires NoNull(observers)
    ensures |Broadcast(observers, source, event)| == |observers|
    ensures forall k :: 0 <= k < |observers| ==>
      Broadcast(observers, source, event)[k] == Notification(observers[k].id, source, event)
  {
    if |observers| > 0 {
      BroadcastOrder(observers[..|observers| - 1], source, event);
    }
  }

  /** A list shifted left over position i: the entries before i stay, those from i + 1 move down one. */
  lemma ShiftedLeft<T>(before: seq<T>, after: seq<T>, n: nat, i: nat)
    requires i < n <= |before| == |after|
    requires forall k :: 0 <= k < i ==> after[k] == before[k]
    requires forall k :: i <= k < n - 1 ==> after[k] == before[k + 1]
    requires forall k :: n <= k < |before| ==> after[k] == before[k]
    ensures after[..n - 1] == before[..i] + before[i + 1..n]
    ensures after[n..] == before[n..]
  {
    assert forall k :: 0 <= k < n - 1 ==> after[k] == (before[..i] + before[i + 1..n])[k];
  }

  class Source {
    /** _observers */
    const observers: array<ObserverPtr>
    /** _numberOfObservers */
    var numberOfObservers: int
    /** Every OnNotify call made so far. */
    ghost var notified: seq<Notification>

    ghost predicate Valid()
      reads this
    {
      observers.Length == MaxObservers && 0 <= numberOfObservers <= MaxObservers
    }

    /** The registered observers, in index order. */
    ghost function Contents(): seq<ObserverPtr>
      reads this, observers
      requires Valid()
    {
      observers[..numberOfObservers]
    }

    /** No observers; the unused slots are modelled as null. */
    constructor ()
      ensures Valid() && fresh(observers)
      ensures numberOfObservers == 0 && Contents() == []
      ensures forall i :: 0 <= i < MaxObservers ==> observers[i] == Null
      ensures notified == []
    {
      observers := new ObserverPtr[MaxObservers](_ => Null);
      numberOfObservers := 0;
      notified := [];
    }

    /** Calls OnNotify(source, event) on each registered observer in index order. */
    method Notify(source: Entity, event: Event)
      requires Valid() && NoNull(Contents())
      modifies this
      ensures Valid()
      ensures numberOfObservers == old(numberOfObservers) && Contents() == old(Contents())
      ensures notified == old(notified) + Broadcast(Contents(), source, event)
    {
      var i := 0;
      while i < numberOfObservers
        invariant 0 <= i <= numberOfObservers
        invariant numberOfObservers == old(numberOfObservers)
        invariant notified == old(notified) + Broadcast(Contents()[..i], source, event)
      {
        assert Contents()[..i + 1][..i] == Contents()[..i];
        notified := notified + [Notification(observers[i].id, source, event)];
        i := i + 1;
      }
      assert Contents()[..i] == Contents();
    }

    /** Appends `o` when fewer than 256 observers are registered; otherwise drops it. */
    method AddObserver(o: ObserverPtr)
      requires Valid()
      modifies this, observers
      ensures Valid() && notified == old(notified)
      ensures old(numberOfObservers) < MaxObservers ==>
        && numberOfObservers == old(numberOfObservers) + 1
        && observers[..] == old(observers[..])[old(numberOfObservers) := o]
      ensures old(numberOfObservers) == MaxObservers ==>
        numberOfObservers == MaxObservers && observers[..] == old(observers[..])
      ensures Contents() == if old(numberOfObservers) < MaxObservers then old(Contents()) + [o]
                            else old(Contents())
    {
      if numberOfObservers < MaxObservers {
        observers[numberOfObservers] := o;
        numberOfObservers := numberOfObservers + 1;
      }
    }

    /**
      Deletes the first registered occurrence of `o` by shifting the later ones left
      and nulling the vacated last slot; does nothing when `o` is not registered.
     */
    method RemoveObserver(o: ObserverPtr)
      requires Valid()
      modifies this, observers
      ensures Valid() && notified == old(notified)
      ensures Contents() == RemoveFirst(old(Contents()), o)
      ensures o in old(Contents()) ==>
        && numberOfObservers == old(numberOfObservers) - 1
        && observers[numberOfObservers] == Null
        && observers[old(numberOfObservers)..] == old(observers[numberOfObservers..])
      ensures o !in old(Contents()) ==>
        numberOfObservers == old(numberOfObservers) && observers[..] == old(observers[..])
    {
      var i := 0;
      while i < numberOfObservers
        invariant 0 <= i <= numberOfObservers
        invariant forall k :: 0 <= k < i ==> observers[k] != o
        invariant numberOfObservers == old(numberOfObservers) && observers[..] == old(observers[..])
        invariant notified == old(notified)
      {
        if observers[i] == o {
          assert IndexOf(Contents(), o) == i;
          CloseGap(i);
          return;
        }
        i := i + 1;
      }
    }

    /**
      The branch of RemoveObserver that has found its observer at `i`: entries i + 1 ..
      count - 1 move down one place, the old last slot becomes null and the count drops.
     */
    method CloseGap(i: int)
      requires Valid() && 0 <= i < numberOfObservers
      modifies this, observers
      ensures Valid() && notified == old(notified)
      ensures numberOfObservers == old(numberOfObservers) - 1
      ensures Contents() == old(Contents()[..i] + Contents()[i + 1..])
      ensures observers[numberOfObservers] == Null
      ensures observers[old(numberOfObservers)..] == old(observers[numberOfObservers..])
    {
      ghost var before := observers[..];
      ghost var n := numberOfObservers;
      var j := i;
      while j < numberOfObservers - 1
        invariant i <= j <= numberOfObservers - 1
        invariant numberOfObservers == n && notified == old(notified)
        invariant forall k :: 0 <= k < i ==> observers[k] == before[k]
        invariant forall k :: i <= k < j ==> observers[k] == before[k + 1]
        invariant forall k :: j <= k < MaxObservers ==> observers[k] == before[k]
      {
        observers[j] := observers[j + 1];
        j := j + 1;
      }
      observers[numberOfObservers - 1] := Null;
      numberOfObservers := numberOfObservers - 1;
      ShiftedLeft(before, observers[..], n, i);
      assert before[..n][..i] + before[..n][i + 1..] == before[..i] + before[i + 1..n];
    }
  }
}
