/** Entity ids and their allocator: 32-bit unsigned ids, the all-ones id
    reserved as invalid, fresh ids counted up from 1 and destroyed ids
    reused first-in first-out. */
module Entities {
  import opened Util

  const INVALID_ENTITY: int := 0xFFFF_FFFF

  /** `EntityID`, a `std::uint32_t`. */
  type EntityId = x: int | 0 <= x <= INVALID_ENTITY

  predicate IsValidEntity(id: EntityId)
  {
    id != INVALID_ENTITY
  }

  /** `nextEntityID++` on a 32-bit counter. */
  function Succ(n: EntityId): (r: EntityId)
    ensures n < INVALID_ENTITY ==> r == n + 1
    ensures n == INVALID_ENTITY ==> r == 0
  {
    (n + 1) % 0x1_0000_0000
  }

  /** The queue holds each id at most once. */
  predicate NoDuplicates(q: seq<EntityId>)
  {
    forall i, j :: 0 <= i < j < |q| ==> q[i] != q[j]
  }

  class EntityManager {
    var nextEntityID: EntityId
    var livingEntities: set<EntityId>
    var freeEntityIDs: seq<EntityId>

    /** What every operation keeps, wrap-around included: the counter is
        never 0 and no living or queued id is the invalid one. */
    ghost predicate Valid()
      reads this
    {
      nextEntityID >= 1
      && (forall id :: id in livingEntities ==> IsValidEntity(id))
      && (forall i :: 0 <= i < |freeEntityIDs| ==> IsValidEntity(freeEntityIDs[i]))
    }

    /** What holds as long as the counter has not wrapped: every id handed
        out lies below the counter, no id is both living and queued, and
        the queue holds each id once. */
    ghost predicate Unique()
      reads this
    {
      (forall id :: id in livingEntities ==> 1 <= id < nextEntityID)
      && (forall i :: 0 <= i < |freeEntityIDs| ==> 1 <= freeEntityIDs[i] < nextEntityID)
      && (forall i :: 0 <= i < |freeEntityIDs| ==> freeEntityIDs[i] !in livingEntities)
      && NoDuplicates(freeEntityIDs)
    }

    constructor ()
      ensures Valid() && Unique()
      ensures nextEntityID == 1 && livingEntities == {} && freeEntityIDs == []
    {
      nextEntityID := 1;
      livingEntities := {};
      freeEntityIDs := [];
    }

    /** Reuse the oldest freed id, else issue the counter (wrapping from
        the invalid id to 1, with the counter then at 2). */
    method CreateEntity() returns (id: EntityId)
      requires Valid()
      modifies this
      ensures Valid()
      ensures IsValidEntity(id) && id in livingEntities
      ensures livingEntities == old(livingEntities) + {id}
      ensures old(freeEntityIDs) != [] ==>
                id == old(freeEntityIDs)[0] && freeEntityIDs == old(freeEntityIDs)[1..]
                && nextEntityID == old(nextEntityID)
      ensures old(freeEntityIDs) == [] && old(nextEntityID) != INVALID_ENTITY ==>
                id == old(nextEntityID) && nextEntityID == old(nextEntityID) + 1 && freeEntityIDs == []
      ensures old(freeEntityIDs) == [] && old(nextEntityID) == INVALID_ENTITY ==>
                id == 1 && nextEntityID == 2 && freeEntityIDs == []
      ensures old(Unique()) && (old(freeEntityIDs) != [] || old(nextEntityID) != INVALID_ENTITY) ==>
                Unique() && id !in old(livingEntities)
    {
      if freeEntityIDs != [] {
        id := freeEntityIDs[0];
        freeEntityIDs := freeEntityIDs[1..];
      } else {
        id := nextEntityID;
        nextEntityID := Succ(nextEntityID);
        if id == INVALID_ENTITY {
          id := 1;
          nextEntityID := 2;
        }
      }
      livingEntities := livingEntities + {id};
    }

    /** Destroy a living entity and queue its id for reuse; false, with
        nothing changed, for the invalid id or one not alive. */
    method DestroyEntity(id: EntityId) returns (ok: bool)
      requires Valid()
      modifies this
      ensures Valid() && nextEntityID == old(nextEntityID)
      ensures ok <==> old(IsAlive(id))
      ensures ok ==> livingEntities == old(livingEntities) - {id} && freeEntityIDs == old(freeEntityIDs) + [id]
      ensures !ok ==> livingEntities == old(livingEntities) && freeEntityIDs == old(freeEntityIDs)
      ensures old(Unique()) ==> Unique()
      ensures !IsAlive(id)
    {
      if !IsValidEntity(id) || id !in livingEntities {
        return false;
      }
      livingEntities := livingEntities - {id};
      freeEntityIDs := freeEntityIDs + [id];
      ok := true;
    }

    predicate IsAlive(id: EntityId)
      reads this
    {
      IsValidEntity(id) && id in livingEntities
    }

    function GetEntityCount(): (n: nat)
      reads this
      ensures n == |livingEntities|
    {
      |livingEntities|
    }

    /** The count is zero exactly when no entity is alive. */
    lemma NoneAliveIffZero()
      requires Valid()
      ensures GetEntityCount() == 0 <==> forall id :: !IsAlive(id)
    {
      if GetEntityCount() != 0 {
        var id := Pick(livingEntities);
        assert IsAlive(id);
      }
    }

    method Clear()
      modifies this
      ensures Valid() && Unique()
      ensures nextEntityID == 1 && livingEntities == {} && freeEntityIDs == []
    {
      livingEntities := {};
      freeEntityIDs := [];
      nextEntityID := 1;
    }
  }
}
