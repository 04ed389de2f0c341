/** The registry of live zones: a map of entries and a spatial index that must agree with it.
    Each operation takes its two locks one after the other; here it is one step. */
module ZoneRegistry {
  import opened Bytes
  import opened Spatial
  import QuadTree

  type Id = QuadTree.Id

  datatype ZoneEntry = ZoneEntry(bounds: Aabb, maxPlayers: nat, playerCount: nat, entityCount: nat, lastHeartbeat: nat)

  /** The boxes of a zone map. */
  function BoundsOf(zones: map<Id, ZoneEntry>): (m: map<Id, Aabb>)
    ensures m.Keys == zones.Keys
  {
    map id | id in zones :: zones[id].bounds
  }

  /** Zones with no heartbeat for longer than the timeout. */
  ghost function Silent(zones: map<Id, ZoneEntry>, now: nat, timeout: nat): set<Id> {
    set id | id in zones && now - zones[id].lastHeartbeat > timeout
  }

  lemma BoundsOfRest(zones: map<Id, ZoneEntry>, gone: set<Id>)
    ensures BoundsOf(zones - gone) == BoundsOf(zones) - gone
  {
  }

  class Registry {
    var zones: map<Id, ZoneEntry>
    const index: QuadTree.Index
    const timeout: nat

    /** The index holds exactly the boxes of the registered zones. */
    ghost predicate Valid()
      reads this, index
    {
      index.Valid() && index.zones == BoundsOf(zones)
    }

    constructor (timeout: nat)
      ensures Valid() && zones == map[] && this.timeout == timeout && fresh(index)
    {
      this.timeout := timeout;
      zones := map[];
      index := new QuadTree.Index(Aabb(-4000.0, -4000.0, 4000.0, 4000.0));
    }

    /** Registers a zone, or registers it again with new bounds and fresh counts; a zone whose address
        cannot be dialled is turned away and nothing changes. */
    method RegisterZone(id: Id, bounds: Aabb, dialable: bool, maxPlayers: nat, now: nat) returns (ok: bool)
      requires Valid()
      modifies this, index
      ensures Valid() && ok == dialable
      ensures zones == if ok then old(zones)[id := ZoneEntry(bounds, maxPlayers, 0, 0, now)] else old(zones)
    {
      if !dialable {
        return false;
      }
      zones := zones[id := ZoneEntry(bounds, maxPlayers, 0, 0, now)];
      index.Insert(id, bounds);
      assert index.zones == BoundsOf(zones);
      ok := true;
    }

    /** Records a heartbeat; an unknown zone is told so and nothing changes. */
    method Heartbeat(id: Id, playerCount: nat, entityCount: nat, now: nat) returns (known: bool)
      requires Valid()
      modifies this`zones
      ensures Valid() && known == (id in old(zones))
      ensures zones == if !known then old(zones)
                       else old(zones)[id := old(zones)[id].(playerCount := playerCount, entityCount := entityCount,
                                                             lastHeartbeat := now)]
    {
      known := id in zones;
      if known {
        zones := zones[id := zones[id].(playerCount := playerCount, entityCount := entityCount, lastHeartbeat := now)];
        assert BoundsOf(zones) == BoundsOf(old(zones));
      }
    }

    /** Removes the zones that have gone silent, from the map and then from the index, and lists
        each of them once. */
    method EvictSilentZones(now: nat) returns (evicted: seq<Id>)
      requires Valid()
      modifies this, index
      ensures Valid()
      ensures NoRepeats(evicted)
      ensures forall id :: id in evicted <==> id in old(zones) && now > old(zones)[id].lastHeartbeat + timeout
      ensures zones == old(zones) - Silent(old(zones), now, timeout)
    {
      hide BoundsOf;
      ghost var dead := Silent(zones, now, timeout);
      evicted := ListSilent(now);
      ghost var boxes := index.zones;
      for k := 0 to |evicted|
        invariant zones == old(zones) - Listed(evicted[..k])
        invariant index.Valid() && index.zones == boxes
      {
        assert evicted[..k + 1] == evicted[..k] + [evicted[k]];
        zones := zones - {evicted[k]};
      }
      assert evicted[..|evicted|] == evicted && Listed(evicted) == dead;
      for k := 0 to |evicted|
        invariant zones == old(zones) - dead
        invariant index.Valid() && index.zones == boxes - Listed(evicted[..k])
      {
        assert evicted[..k + 1] == evicted[..k] + [evicted[k]];
        var _ := index.Remove(evicted[k]);
      }
      BoundsOfRest(old(zones), dead);
    }

    /** The zones that have gone silent, each once. */
    method ListSilent(now: nat) returns (silent: seq<Id>)
      ensures NoRepeats(silent)
      ensures forall id :: id in silent <==> id in Silent(zones, now, timeout)
    {
      silent := [];
      var todo := zones.Keys;
      while todo != {}
        invariant todo <= zones.Keys
        invariant NoRepeats(silent)
        invariant forall id :: id in silent <==> id in Silent(zones, now, timeout) && id !in todo
        decreases todo
      {
        var id :| id in todo;
        todo := todo - {id};
        if now - zones[id].lastHeartbeat > timeout {
          silent := silent + [id];
        }
      }
    }

    method RemoveZone(id: Id) returns (removed: bool)
      requires Valid()
      modifies this, index
      ensures Valid() && removed == (id in old(zones)) && zones == old(zones) - {id}
    {
      removed := id in zones;
      zones := zones - {id};
      if removed {
        var _ := index.Remove(id);
      }
      assert index.zones == BoundsOf(zones);
    }

    /** A registered zone that covers the point, whenever there is one. */
    method FindZoneForCoords(x: real, y: real) returns (r: Option<Id>)
      requires Valid()
      ensures r.None? <==> forall id :: id in zones ==> !zones[id].bounds.Contains(x, y)
      ensures r.Some? ==> r.value in zones && zones[r.value].bounds.Contains(x, y)
    {
      assert forall id :: id in zones ==> index.zones[id] == zones[id].bounds;
      r := index.QueryPoint(x, y);
    }

    /** The registered zones that meet the rectangle, each once. */
    method FindZonesInAabb(area: Aabb) returns (hits: seq<Id>)
      requires Valid()
      ensures NoRepeats(hits)
      ensures forall id :: id in hits <==> id in zones && zones[id].bounds.Intersects(area)
    {
      assert forall id :: id in zones ==> index.zones[id] == zones[id].bounds;
      hits := index.QueryAabb(area);
    }
  }
}
