/** The ordered list of systems and the pass that updates them. A system
    is its type name and an identity; its `update` is outside the model,
    so an update pass is the record of calls it makes, in order. */
module Systems {
  import opened Util

  /** A system: its type (what `getSystem<T>` matches on) and an id that
      stands for the object's address. */
  datatype System = System(kind: string, id: nat)

  /** One `system->update(deltaTime)` call. */
  datatype Call = Call(system: System, deltaTime: real)

  /** The position of the earliest system of the given kind, if any. */
  function FirstOfKind(systems: seq<System>, kind: string): (r: Option<nat>)
    ensures r.Some? ==> r.value < |systems| && systems[r.value].kind == kind
    ensures r.Some? ==> forall j :: 0 <= j < r.value ==> systems[j].kind != kind
    ensures r.None? <==> forall j :: 0 <= j < |systems| ==> systems[j].kind != kind
    decreases |systems|
  {
    if |systems| == 0 then None
    else if systems[0].kind == kind then Some(0)
    else
      match FirstOfKind(systems[1..], kind)
      case None => None
      case Some(k) => Some(k + 1)
  }

  /** Appending systems never changes which system an earlier match finds. */
  lemma {:induction false} FirstOfKindStable(systems: seq<System>, more: seq<System>, kind: string)
    requires FirstOfKind(systems, kind).Some?
    ensures FirstOfKind(systems + more, kind) == FirstOfKind(systems, kind)
    decreases |systems|
  {
    if systems[0].kind != kind {
      assert (systems + more)[1..] == systems[1..] + more;
      FirstOfKindStable(systems[1..], more, kind);
    }
  }

  class SystemManager {
    var systems: seq<System>

    constructor ()
      ensures systems == []
    {
      systems := [];
    }

    /** Append a new system of the given kind and hand it back; earlier
        systems keep their places. `id` is the new object's identity. */
    method AddSystem(kind: string, id: nat) returns (s: System)
      modifies this
      ensures s == System(kind, id)
      ensures systems == old(systems) + [s]
    {
      s := System(kind, id);
      systems := systems + [s];
    }

    /** The earliest-added system of the kind, or None. */
    method GetSystem(kind: string) returns (r: Option<System>)
      ensures r.None? <==> FirstOfKind(systems, kind).None?
      ensures r.Some? ==> r.value == systems[FirstOfKind(systems, kind).value]
    {
      var i := 0;
      while i < |systems|
        invariant 0 <= i <= |systems|
        invariant forall j :: 0 <= j < i ==> systems[j].kind != kind
      {
        if systems[i].kind == kind {
          FirstIsHere(systems, kind, i);
          return Some(systems[i]);
        }
        i := i + 1;
      }
      return None;
    }

    /** Call every system's update once, in insertion order, all with the
        same time step; the list itself is left as it is. */
    method UpdateSystems(deltaTime: real) returns (calls: seq<Call>)
      ensures |calls| == |systems|
      ensures forall i :: 0 <= i < |calls| ==> calls[i] == Call(systems[i], deltaTime)
    {
      calls := [];
      var i := 0;
      while i < |systems|
        invariant 0 <= i <= |systems|
        invariant |calls| == i
        invariant forall j :: 0 <= j < i ==> calls[j] == Call(systems[j], deltaTime)
      {
        calls := calls + [Call(systems[i], deltaTime)];
        i := i + 1;
      }
    }

    method Clear()
      modifies this
      ensures systems == []
    {
      systems := [];
    }
  }

  /** The first match found by a front-to-back scan is `FirstOfKind`. */
  lemma FirstIsHere(systems: seq<System>, kind: string, i: nat)
    requires i < |systems| && systems[i].kind == kind
    requires forall j :: 0 <= j < i ==> systems[j].kind != kind
    ensures FirstOfKind(systems, kind) == Some(i)
  {
    var r := FirstOfKind(systems, kind);
    assert r.Some?;
    assert !(r.value < i) && !(i < r.value);
  }
}
