/** The ECS world: an entity allocator, a component registry and a system
    list behind one interface. Components may only be added to living
    entities, and destroying an entity first removes its components. */
module EcsWorld {
  import opened Util
  import opened Entities
  import opened Components
  import opened Systems

  class World<C> {
    const entityManager: EntityManager
    const componentRegistry: ComponentRegistry<C>
    const systemManager: SystemManager

    ghost predicate Valid()
      reads entityManager
    {
      entityManager.Valid()
    }

    constructor ()
      ensures Valid() && entityManager.Unique() && GetEntityCount() == 0
      ensures fresh(entityManager) && fresh(componentRegistry) && fresh(systemManager)
      ensures entityManager.nextEntityID == 1 && entityManager.freeEntityIDs == []
      ensures componentRegistry.storages == map[] && systemManager.systems == []
    {
      entityManager := new EntityManager();
      componentRegistry := new ComponentRegistry();
      systemManager := new SystemManager();
    }

    method CreateEntity() returns (id: EntityId)
      requires Valid()
      modifies entityManager
      ensures Valid() && IsEntityAlive(id)
      ensures entityManager.livingEntities == old(entityManager.livingEntities) + {id}
      ensures old(entityManager.freeEntityIDs) != [] ==>
                id == old(entityManager.freeEntityIDs)[0]
                && entityManager.freeEntityIDs == old(entityManager.freeEntityIDs)[1..]
                && entityManager.nextEntityID == old(entityManager.nextEntityID)
      ensures old(entityManager.freeEntityIDs) == [] && old(entityManager.nextEntityID) != INVALID_ENTITY ==>
                id == old(entityManager.nextEntityID) && entityManager.nextEntityID == old(entityManager.nextEntityID) + 1
                && entityManager.freeEntityIDs == []
      ensures old(entityManager.freeEntityIDs) == [] && old(entityManager.nextEntityID) == INVALID_ENTITY ==>
                id == 1 && entityManager.nextEntityID == 2 && entityManager.freeEntityIDs == []
      ensures old(entityManager.Unique())
              && (old(entityManager.freeEntityIDs) != [] || old(entityManager.nextEntityID) != INVALID_ENTITY) ==>
                entityManager.Unique() && id !in old(entityManager.livingEntities)
    {
      id := entityManager.CreateEntity();
    }

    predicate IsEntityAlive(id: EntityId)
      reads entityManager
    {
      entityManager.IsAlive(id)
    }

    /** Remove every component of a living entity, then the entity; false,
        with nothing changed, when it is not alive. */
    method DestroyEntity(id: EntityId) returns (ok: bool)
      requires Valid()
      modifies entityManager, componentRegistry
      ensures Valid()
      ensures ok <==> old(IsEntityAlive(id))
      ensures !ok ==> entityManager.livingEntities == old(entityManager.livingEntities)
                      && entityManager.freeEntityIDs == old(entityManager.freeEntityIDs)
                      && componentRegistry.storages == old(componentRegistry.storages)
      ensures ok ==> entityManager.livingEntities == old(entityManager.livingEntities) - {id}
                     && entityManager.freeEntityIDs == old(entityManager.freeEntityIDs) + [id]
      ensures entityManager.nextEntityID == old(entityManager.nextEntityID)
      ensures old(entityManager.Unique()) ==> entityManager.Unique()
      ensures !IsEntityAlive(id)
      ensures ok ==> forall t :: !HasComponent(t, id)
      ensures forall t, e :: e != id ==> GetComponent(t, e) == old(GetComponent(t, e))
    {
      if !entityManager.IsAlive(id) {
        return false;
      }
      componentRegistry.RemoveAllComponents(id);
      ok := entityManager.DestroyEntity(id);
    }

    /** Store a component for a living entity; None, with the registry
        unchanged, for an entity that is not alive. */
    method AddComponent(t: TypeId, id: EntityId, c: C) returns (r: Option<C>)
      modifies componentRegistry
      ensures !IsEntityAlive(id) ==> r.None? && componentRegistry.storages == old(componentRegistry.storages)
      ensures IsEntityAlive(id) ==> r == Some(c) && GetComponent(t, id) == Some(c)
      ensures IsEntityAlive(id) ==>
                forall u, e :: u != t || e != id ==> GetComponent(u, e) == old(GetComponent(u, e))
    {
      if !entityManager.IsAlive(id) {
        return None;
      }
      var added := componentRegistry.AddComponent(t, id, c);
      r := Some(added);
    }

    /** Looked up in the registry without a liveness check. */
    function GetComponent(t: TypeId, id: EntityId): (r: Option<C>)
      reads componentRegistry
      ensures r.Some? <==> HasComponent(t, id)
    {
      componentRegistry.GetComponent(t, id)
    }

    predicate HasComponent(t: TypeId, id: EntityId)
      reads componentRegistry
    {
      componentRegistry.HasComponent(t, id)
    }

    method RemoveComponent(t: TypeId, id: EntityId)
      modifies componentRegistry
      ensures !HasComponent(t, id)
      ensures forall u, e :: u != t || e != id ==> GetComponent(u, e) == old(GetComponent(u, e))
    {
      componentRegistry.RemoveComponent(t, id);
    }

    function GetAllComponents(t: TypeId): (r: map<EntityId, C>)
      reads componentRegistry
      ensures forall e :: e in r <==> HasComponent(t, e)
    {
      componentRegistry.GetAllComponents(t)
    }

    /** One pass over the systems. */
    method Update(deltaTime: real) returns (calls: seq<Call>)
      ensures |calls| == |systemManager.systems|
      ensures forall i :: 0 <= i < |calls| ==> calls[i] == Call(systemManager.systems[i], deltaTime)
    {
      calls := systemManager.UpdateSystems(deltaTime);
    }

    function GetEntityCount(): (n: nat)
      reads entityManager
      ensures n == |entityManager.livingEntities|
    {
      entityManager.GetEntityCount()
    }

    /** Systems, then components, then entities. */
    method Clear()
      modifies entityManager, componentRegistry, systemManager
      ensures Valid() && entityManager.Unique() && GetEntityCount() == 0
      ensures entityManager.nextEntityID == 1 && entityManager.freeEntityIDs == []
      ensures systemManager.systems == []
      ensures forall t :: t in componentRegistry.storages <==> t in old(componentRegistry.storages)
      ensures forall t, e :: !HasComponent(t, e)
    {
      systemManager.Clear();
      componentRegistry.Clear();
      entityManager.Clear();
    }
  }

  /** A new world hands out the ids 1 and 2, in that order, and destroying
      the first makes it the next id handed out again. */
  method FreshWorldIds() returns (a: EntityId, b: EntityId, c: EntityId)
    ensures a == 1 && b == 2 && c == 1
  {
    var w := new World<int>();
    a := w.CreateEntity();
    b := w.CreateEntity();
    var ok := w.DestroyEntity(a);
    c := w.CreateEntity();
  }
}
