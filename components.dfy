/** The type-indexed component registry: one storage per component type,
    created on first use, each mapping an entity to its component. */
module Components {
  import opened Util
  import opened Entities

  /** A component type, by name (the source's `std::type_index`). */
  type TypeId = string

  /** `ComponentStorage<T>`: at most one component per entity. The
      registry owns each storage outright, so a storage is a value. */
  datatype Storage<C> = Storage(components: map<EntityId, C>)
  {
    /** Store `c` for `id`, replacing any earlier component. */
    function AddComponent(id: EntityId, c: C): (r: Storage<C>)
      ensures r.GetComponent(id) == Some(c)
      ensures forall e :: e != id ==> r.GetComponent(e) == GetComponent(e)
    {
      Storage(components[id := c])
    }

    function GetComponent(id: EntityId): (r: Option<C>)
      ensures r.Some? <==> HasComponent(id)
      ensures r.Some? ==> r.value == components[id]
    {
      if id in components then Some(components[id]) else None
    }

    predicate HasComponent(id: EntityId)
    {
      id in components
    }

    /** Forget the component of `id`, if any; nothing else changes. */
    function RemoveComponent(id: EntityId): (r: Storage<C>)
      ensures !r.HasComponent(id)
      ensures forall e :: e != id ==> r.GetComponent(e) == GetComponent(e)
      ensures !HasComponent(id) ==> r == this
    {
      Storage(components - {id})
    }

    function Clear(): (r: Storage<C>)
      ensures forall e :: !r.HasComponent(e)
    {
      Storage(map[])
    }
  }

  function EmptyStorage<C>(): (s: Storage<C>)
    ensures forall e :: !s.HasComponent(e)
  {
    Storage(map[])
  }

  /** Adding and then removing the same entity's component leaves the
      storage as removing alone would. */
  lemma RemoveUndoesAdd<C>(s: Storage<C>, id: EntityId, c: C)
    ensures s.AddComponent(id, c).RemoveComponent(id) == s.RemoveComponent(id)
  {
    assert s.components[id := c] - {id} == s.components - {id};
  }

  class ComponentRegistry<C> {
    var storages: map<TypeId, Storage<C>>

    constructor ()
      ensures storages == map[]
    {
      storages := map[];
    }

    /** `getStorage`: the type's storage, or a new empty one. */
    function StorageOf(t: TypeId): (s: Storage<C>)
      reads this
      ensures t in storages ==> s == storages[t]
      ensures t !in storages ==> forall e :: !s.HasComponent(e)
    {
      if t in storages then storages[t] else EmptyStorage()
    }

    /** Store the component, creating the type's storage on first use. */
    method AddComponent(t: TypeId, id: EntityId, c: C) returns (r: C)
      modifies this
      ensures r == c
      ensures storages == old(storages)[t := old(StorageOf(t)).AddComponent(id, c)]
      ensures HasComponent(t, id) && GetComponent(t, id) == Some(c)
      ensures forall u, e :: u != t || e != id ==> GetComponent(u, e) == old(GetComponent(u, e))
    {
      var storage := StorageOf(t);
      storages := storages[t := storage];
      storages := storages[t := storages[t].AddComponent(id, c)];
      r := c;
    }

    /** The stored component, or None; an unseen type has none and no
        storage is created. */
    function GetComponent(t: TypeId, id: EntityId): (r: Option<C>)
      reads this
      ensures r.Some? <==> HasComponent(t, id)
      ensures r.Some? ==> r.value == storages[t].components[id]
    {
      if t !in storages then None else storages[t].GetComponent(id)
    }

    predicate HasComponent(t: TypeId, id: EntityId)
      reads this
    {
      t in storages && storages[t].HasComponent(id)
    }

    /** Remove the entity's component of type `t`; other types untouched. */
    method RemoveComponent(t: TypeId, id: EntityId)
      modifies this
      ensures storages == if t in old(storages) then old(storages)[t := old(storages)[t].RemoveComponent(id)]
                          else old(storages)
      ensures !HasComponent(t, id)
      ensures forall u, e :: u != t || e != id ==> GetComponent(u, e) == old(GetComponent(u, e))
    {
      if t in storages {
        storages := storages[t := storages[t].RemoveComponent(id)];
      }
    }

    /** Erase the entity from every existing storage. */
    method RemoveAllComponents(id: EntityId)
      modifies this
      ensures forall t :: t in storages <==> t in old(storages)
      ensures forall t :: t in storages ==> storages[t] == old(storages)[t].RemoveComponent(id)
      ensures forall t :: !HasComponent(t, id)
      ensures forall t, e :: e != id ==> GetComponent(t, e) == old(GetComponent(t, e))
    {
      var todo := storages.Keys;
      while todo != {}
        invariant todo <= storages.Keys
        invariant forall t :: t in storages <==> t in old(storages)
        invariant forall t :: t in storages ==>
                    storages[t] == if t in todo then old(storages)[t] else old(storages)[t].RemoveComponent(id)
        decreases |todo|
      {
        ghost var w := Pick(todo);
        var t :| t in todo;
        storages := storages[t := storages[t].RemoveComponent(id)];
        todo := todo - {t};
      }
    }

    /** Every component of type `t`; an empty map for an unseen type. */
    function GetAllComponents(t: TypeId): (r: map<EntityId, C>)
      reads this
      ensures forall e :: e in r <==> HasComponent(t, e)
      ensures forall e :: e in r ==> GetComponent(t, e) == Some(r[e])
    {
      if t in storages then storages[t].components else map[]
    }

    /** Empty every storage, keeping the storages themselves. */
    method Clear()
      modifies this
      ensures forall t :: t in storages <==> t in old(storages)
      ensures forall t :: t in storages ==> storages[t] == old(storages)[t].Clear()
      ensures forall t, e :: !HasComponent(t, e)
    {
      var todo := storages.Keys;
      while todo != {}
        invariant todo <= storages.Keys
        invariant forall t :: t in storages <==> t in old(storages)
        invariant forall t :: t in storages ==>
                    storages[t] == if t in todo then old(storages)[t] else old(storages)[t].Clear()
        decreases |todo|
      {
        ghost var w := Pick(todo);
        var t :| t in todo;
        storages := storages[t := storages[t].Clear()];
        todo := todo - {t};
      }
    }
  }
}
