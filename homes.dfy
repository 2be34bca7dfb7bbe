/** The home registry: a fixed pool of six home zone names, handed out
    first-fit to NPC ids and kept as two mutually inverse maps. */
module Homes {
  import opened Util
  import opened Grid

  /** The pool, in the order assignment tries it. */
  function HomePool(): (pool: seq<string>)
    ensures |pool| == 6 && pool[0] == "Home"
    ensures forall i, j :: 0 <= i < j < |pool| ==> pool[i] != pool[j]
  {
    ["Home", "Home_2", "Home_3", "Home_4", "Home_5", "Home_6"]
  }

  /** The position of the first pool name nobody lives in, or -1. */
  function FirstFree(pool: seq<string>, homeToNpc: map<string, int>): (k: int)
    ensures -1 <= k < |pool|
    ensures k == -1 <==> forall i :: 0 <= i < |pool| ==> pool[i] in homeToNpc
    ensures k >= 0 ==> pool[k] !in homeToNpc && forall i :: 0 <= i < k ==> pool[i] in homeToNpc
    decreases |pool|
  {
    if |pool| == 0 then -1
    else if pool[0] !in homeToNpc then 0
    else
      var k := FirstFree(pool[1..], homeToNpc);
      if k == -1 then -1 else k + 1
  }

  /** The two maps are mutual inverses and every home is from the pool. */
  ghost predicate Inverse(npcToHome: map<int, string>, homeToNpc: map<string, int>, pool: seq<string>)
  {
    (forall n :: n in npcToHome ==> npcToHome[n] in homeToNpc && homeToNpc[npcToHome[n]] == n)
    && (forall h :: h in homeToNpc ==> homeToNpc[h] in npcToHome && npcToHome[homeToNpc[h]] == h)
    && (forall h :: h in homeToNpc ==> h in pool)
  }

  /** No more NPCs are housed than the pool has names. */
  lemma {:induction false} HousedBound(npcToHome: map<int, string>, homeToNpc: map<string, int>,
                                       pool: seq<string>)
    requires Inverse(npcToHome, homeToNpc, pool)
    ensures |npcToHome.Keys| <= |pool|
    decreases |pool|
  {
    if |pool| == 0 {
      assert forall n :: n !in npcToHome;
      var none: set<int> := {};
      assert forall n :: n in npcToHome.Keys <==> n in none;
      assert npcToHome.Keys == none;
    } else {
      var last := pool[|pool| - 1];
      var rest := pool[..|pool| - 1];
      assert forall h :: h in pool && h != last ==> h in rest by {
        forall h | h in pool && h != last ensures h in rest {
          var i :| 0 <= i < |pool| && pool[i] == h;
          assert rest[i] == h;
        }
      }
      if last in homeToNpc {
        var n := homeToNpc[last];
        var npcs := npcToHome - {n};
        var homes := homeToNpc - {last};
        assert Inverse(npcs, homes, rest);
        HousedBound(npcs, homes, rest);
        assert npcs.Keys == npcToHome.Keys - {n};
      } else {
        assert Inverse(npcToHome, homeToNpc, rest);
        HousedBound(npcToHome, homeToNpc, rest);
      }
    }
  }

  /** At most six NPCs are ever housed. */
  lemma AtMostSixHoused(npcToHome: map<int, string>, homeToNpc: map<string, int>)
    requires Inverse(npcToHome, homeToNpc, HomePool())
    ensures |npcToHome.Keys| <= 6
  {
    HousedBound(npcToHome, homeToNpc, HomePool());
  }

  /** Freeing a home makes it eligible again: if it is the first pool name
      now unoccupied, first-fit picks it. */
  lemma FreedHomeIsEligible(pool: seq<string>, homeToNpc: map<string, int>, h: string)
    requires h in pool
    ensures FirstFree(pool, homeToNpc - {h}) >= 0
    ensures pool[FirstFree(pool, homeToNpc - {h})] !in homeToNpc - {h}
  {
    var i :| 0 <= i < |pool| && pool[i] == h;
    assert pool[i] !in homeToNpc - {h};
  }

  /** The centre of a zone, with C++ integer division. */
  function ZoneCentre(z: Zone): (int, int)
  {
    (z.x + CppDiv(z.width, 2), z.y + CppDiv(z.height, 2))
  }

  /** The centre of a non-empty zone lies inside it. */
  lemma ZoneCentreInside(z: Zone)
    requires z.width > 0 && z.height > 0
    ensures z.x <= ZoneCentre(z).0 < z.x + z.width
    ensures z.y <= ZoneCentre(z).1 < z.y + z.height
  {
  }

  class HomeManager {
    var npcToHome: map<int, string>
    var homeToNpc: map<string, int>
    var availableHomes: seq<string>

    ghost predicate Valid()
      reads this
    {
      availableHomes == HomePool() && Inverse(npcToHome, homeToNpc, availableHomes)
    }

    constructor ()
      ensures Valid() && npcToHome == map[] && homeToNpc == map[]
    {
      npcToHome := map[];
      homeToNpc := map[];
      availableHomes := HomePool();
    }

    /** First-fit assignment; an NPC that already has a home keeps it. */
    method AssignHome(npcId: int, npcName: string) returns (ok: bool)
      requires Valid()
      modifies this
      ensures Valid() && availableHomes == old(availableHomes)
      ensures old(npcId in npcToHome) ==>
                ok && npcToHome == old(npcToHome) && homeToNpc == old(homeToNpc)
      ensures old(npcId !in npcToHome) && FirstFree(availableHomes, old(homeToNpc)) == -1 ==>
                !ok && npcToHome == old(npcToHome) && homeToNpc == old(homeToNpc)
      ensures old(npcId !in npcToHome) && FirstFree(availableHomes, old(homeToNpc)) >= 0 ==>
                ok
                && npcToHome == old(npcToHome)[npcId := availableHomes[FirstFree(availableHomes, old(homeToNpc))]]
                && homeToNpc == old(homeToNpc)[availableHomes[FirstFree(availableHomes, old(homeToNpc))] := npcId]
    {
      if npcId in npcToHome {
        return true;
      }
      var i := 0;
      while i < |availableHomes|
        invariant 0 <= i <= |availableHomes|
        invariant forall j :: 0 <= j < i ==> availableHomes[j] in homeToNpc
      {
        var homeName := availableHomes[i];
        if homeName !in homeToNpc {
          npcToHome := npcToHome[npcId := homeName];
          homeToNpc := homeToNpc[homeName := npcId];
          return true;
        }
        i := i + 1;
      }
      return false;
    }

    /** The NPC's home, or "" when it has none. */
    function GetNpcHome(npcId: int): (h: string)
      reads this
      ensures npcId in npcToHome ==> h == npcToHome[npcId]
      ensures Valid() ==> (h == "" <==> npcId !in npcToHome)
    {
      if npcId in npcToHome then npcToHome[npcId] else ""
    }

    /** The resident of a home, or -1 when it is free. */
    function GetHomeResident(homeName: string): (n: int)
      reads this
      ensures homeName in homeToNpc ==> n == homeToNpc[homeName]
      ensures homeName !in homeToNpc ==> n == -1
      ensures Valid() && homeName in homeToNpc ==> GetNpcHome(n) == homeName
    {
      if homeName in homeToNpc then homeToNpc[homeName] else -1
    }

    /** Removes both directions of the NPC's assignment, if any. */
    method UnassignHome(npcId: int)
      requires Valid()
      modifies this
      ensures Valid() && availableHomes == old(availableHomes)
      ensures npcToHome == old(npcToHome) - {npcId}
      ensures homeToNpc == if npcId in old(npcToHome) then old(homeToNpc) - {old(npcToHome)[npcId]}
                           else old(homeToNpc)
    {
      if npcId in npcToHome {
        var homeName := npcToHome[npcId];
        npcToHome := npcToHome - {npcId};
        homeToNpc := homeToNpc - {homeName};
      }
    }

    /** The centre of the NPC's home zone; None (the source's `false`,
        leaving the out-parameters alone) when the NPC has no home or the
        zone is missing. */
    function GetNpcHomeCoordinates(npcId: int, zones: ZoneList): (r: Option<(int, int)>)
      reads this
      ensures r.None? <==> GetNpcHome(npcId) == "" || FindZone(zones, GetNpcHome(npcId)).None?
      ensures r.Some? ==> r.value == ZoneCentre(FindZone(zones, GetNpcHome(npcId)).value)
      ensures r.Some? && Valid() ==> npcId in npcToHome
    {
      var homeName := GetNpcHome(npcId);
      if homeName == "" then None
      else
        match FindZone(zones, homeName)
        case Some(zone) => Some((zone.x + CppDiv(zone.width, 2), zone.y + CppDiv(zone.height, 2)))
        case None => None
    }
  }
}
