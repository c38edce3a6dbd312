/**
  The player's event source (Module1/PlayerLogic.cpp).

  PlayerLogic derives from Source in C++; here it holds its Source and
  forwards to it. The entity is fixed at construction.
 */
module Player {
  import opened Subject

  class PlayerLogic {
    /** The entity every notification names as its source. */
    const entity: Entity
    /** The observer list PlayerLogic inherits. */
    const source: Source

    ghost predicate Valid()
      reads this, source
    {
      source.Valid()
    }

    /** A player for entity `e` with no observers. */
    constructor (e: Entity)
      ensures Valid() && fresh(source) && fresh(source.observers)
      ensures entity == e
      ensures source.Contents() == [] && source.notified == []
    {
      entity := e;
      source := new Source();
    }

    /** Tells every observer, in order, that this player's entity jumped. */
    method Jump()
      requires Valid() && NoNull(source.Contents())
      modifies source
      ensures Valid()
      ensures source.numberOfObservers == old(source.numberOfObservers)
      ensures source.Contents() == old(source.Contents())
      ensures source.notified == old(source.notified) + Broadcast(source.Contents(), entity, PlayerJumped)
    {
      source.Notify(entity, PlayerJumped);
    }

    /** Tells every observer, in order, that this player's entity walked. */
    method Walk()
      requires Valid() && NoNull(source.Contents())
      modifies source
      ensures Valid()
      ensures source.numberOfObservers == old(source.numberOfObservers)
      ensures source.Contents() == old(source.Contents())
      ensures source.notified == old(source.notified) + Broadcast(source.Contents(), entity, PlayerWalked)
    {
      source.Notify(entity, PlayerWalked);
    }

    /** getEntity: the entity given to the constructor, which no method reassigns. */
    method GetEntity() returns (e: Entity)
      ensures e == entity
    {
      return entity;
    }
  }

  /**
    A fresh player registers two observers and jumps: the first observer hears of it
    first, the second next, both naming the player's entity and the jump.
   */
  method JumpReachesObserversInOrder(e: Entity, first: nat, second: nat) returns (ghost heard: seq<Notification>)
    ensures heard == [Notification(first, e, PlayerJumped), Notification(second, e, PlayerJumped)]
  {
    var player := new PlayerLogic(e);
    player.source.AddObserver(Ptr(first));
    player.source.AddObserver(Ptr(second));
    player.Jump();
    BroadcastOrder(player.source.Contents(), e, PlayerJumped);
    heard := player.source.notified;
  }
}
