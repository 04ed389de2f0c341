/** The gateway's routing table, and the spreading of a failed zone's players over the survivors. */
module Rebalance {
  import opened Bytes

  type Zone = string
  type Player = nat
  type Routes = map<Player, Zone>

  // ----- the plan -----

  /** A surviving zone's tally: how many players it has and how many it may have. */
  datatype Load = Load(count: nat, capacity: nat, zone: Zone) {
    predicate HasRoom() {
      count < capacity
    }
  }

  /** The first of the least loaded zones among the first `n` that still have room. */
  function Pick(loads: seq<Load>, n: nat): (r: Option<nat>)
    requires n <= |loads|
    ensures r.None? ==> forall j :: 0 <= j < n ==> !loads[j].HasRoom()
    ensures r.Some? ==> r.value < n && loads[r.value].HasRoom()
    ensures r.Some? ==> forall j :: 0 <= j < n && loads[j].HasRoom() ==> loads[r.value].count <= loads[j].count
    ensures r.Some? ==> forall j :: 0 <= j < r.value && loads[j].HasRoom() ==> loads[r.value].count < loads[j].count
  {
    if n == 0 then None
    else
      var best := Pick(loads, n - 1);
      if !loads[n - 1].HasRoom() then best
      else if best.Some? && loads[best.value].count <= loads[n - 1].count then best
      else Some(n - 1)
  }

  function Target(loads: seq<Load>): (r: Option<nat>)
    ensures r.Some? ==> r.value < |loads|
  {
    Pick(loads, |loads|)
  }

  /** The tallies after offering `n` players a place, one at a time. */
  function Spread(loads: seq<Load>, n: nat): (r: seq<Load>)
    ensures |r| == |loads|
    ensures forall i :: 0 <= i < |r| ==>
              r[i].zone == loads[i].zone && r[i].capacity == loads[i].capacity && r[i].count >= loads[i].count
  {
    if n == 0 then loads
    else
      var before := Spread(loads, n - 1);
      match Target(before)
      case None => before
      case Some(k) => before[k := before[k].(count := before[k].count + 1)]
  }

  function Total(loads: seq<Load>): nat {
    if loads == [] then 0 else loads[0].count + Total(loads[1..])
  }

  function RoomIn(l: Load): nat {
    if l.HasRoom() then l.capacity - l.count else 0
  }

  /** Free places in all. */
  function Room(loads: seq<Load>): nat {
    if loads == [] then 0 else RoomIn(loads[0]) + Room(loads[1..])
  }

  lemma {:induction false} PlaceCounts(loads: seq<Load>, k: nat)
    requires k < |loads| && loads[k].HasRoom()
    ensures var r := loads[k := loads[k].(count := loads[k].count + 1)];
            Total(r) == Total(loads) + 1 && Room(r) == Room(loads) - 1 && Room(loads) > 0
  {
    var r := loads[k := loads[k].(count := loads[k].count + 1)];
    if k == 0 {
      assert r[1..] == loads[1..];
    } else {
      PlaceCounts(loads[1..], k - 1);
      assert r[1..] == loads[1..][k - 1 := loads[k].(count := loads[k].count + 1)];
    }
  }

  lemma {:induction false} FullMeansNoRoom(loads: seq<Load>)
    requires forall j :: 0 <= j < |loads| ==> !loads[j].HasRoom()
    ensures Room(loads) == 0
  {
    if loads != [] {
      FullMeansNoRoom(loads[1..]);
    }
  }

  /** A target exists exactly while there is room. */
  lemma TargetMeansRoom(loads: seq<Load>)
    ensures Target(loads).Some? <==> Room(loads) > 0
    ensures Target(loads).Some? ==> loads[Target(loads).value].HasRoom()
  {
    hide Pick, Room;
    if Target(loads).Some? {
      PlaceCounts(loads, Target(loads).value);
    } else {
      FullMeansNoRoom(loads);
    }
  }

  /** As many players are placed as there are players and free places. */
  lemma {:induction false} SpreadPlaces(loads: seq<Load>, n: nat)
    ensures Total(Spread(loads, n)) == Total(loads) + Min(n, Room(loads))
    ensures Room(Spread(loads, n)) == Room(loads) - Min(n, Room(loads))
    ensures Target(Spread(loads, n)).Some? <==> n < Room(loads)
  {
    hide Spread, Target, Total, Room, Load.HasRoom;
    TargetMeansRoom(Spread(loads, n));
    if n == 0 {
      SpreadStart(loads);
    } else {
      SpreadPlaces(loads, n - 1);
      SpreadStep(loads, n - 1);
      var before := Spread(loads, n - 1);
      TargetMeansRoom(before);
      if Target(before).Some? {
        PlaceCounts(before, Target(before).value);
      }
    }
  }

  predicate Received(loads: seq<Load>, after: seq<Load>, i: nat)
    requires |loads| == |after| && i < |loads|
  {
    after[i].count > loads[i].count
  }

  /** No zone is pushed past its capacity, and a zone that received a player ends at most one above
      every zone that still has room. */
  ghost predicate Balanced(loads: seq<Load>, after: seq<Load>)
    requires |loads| == |after|
  {
    && (forall i :: 0 <= i < |loads| && Received(loads, after, i) ==> after[i].count <= after[i].capacity)
    && (forall i, j :: 0 <= i < |loads| && 0 <= j < |loads| && Received(loads, after, i) && after[j].HasRoom() ==>
          after[i].count <= after[j].count + 1)
  }

  lemma {:induction false} SpreadBalances(loads: seq<Load>, n: nat)
    ensures Balanced(loads, Spread(loads, n))
  {
    if n != 0 {
      SpreadBalances(loads, n - 1);
    }
  }

  function Sum(xs: seq<nat>): nat {
    if xs == [] then 0 else xs[0] + Sum(xs[1..])
  }

  lemma {:induction false} SumBelow(xs: seq<nat>, loads: seq<Load>)
    requires |xs| == |loads| && forall i :: 0 <= i < |xs| ==> xs[i] <= loads[i].count
    ensures Sum(xs) <= Total(loads)
    ensures (exists i :: 0 <= i < |xs| && xs[i] < loads[i].count) ==> Sum(xs) < Total(loads)
  {
    if xs != [] {
      SumBelow(xs[1..], loads[1..]);
      if exists i :: 0 <= i < |xs| && xs[i] < loads[i].count {
        var i :| 0 <= i < |xs| && xs[i] < loads[i].count;
        if i > 0 { assert xs[1..][i - 1] < loads[1..][i - 1].count; }
      }
    }
  }

  /** Another way to place the same number of players within the capacities. */
  ghost predicate Alternative(loads: seq<Load>, after: seq<Load>, alt: seq<nat>)
    requires |loads| == |after|
  {
    && |alt| == |loads| && Sum(alt) == Total(after)
    && forall j :: 0 <= j < |alt| ==>
        alt[j] >= loads[j].count && (alt[j] > loads[j].count ==> alt[j] <= loads[j].capacity)
  }

  /** The heaviest zone that receives players is as light as it can be: any other way to place as
      many players loads some receiving zone at least as much. */
  lemma SpreadIsOptimal(loads: seq<Load>, n: nat, alt: seq<nat>, i: nat)
    requires i < |loads| && Received(loads, Spread(loads, n), i) && Alternative(loads, Spread(loads, n), alt)
    ensures exists j :: 0 <= j < |alt| && alt[j] > loads[j].count && alt[j] >= Spread(loads, n)[i].count
  {
    hide Spread, Sum, Total;
    var after := Spread(loads, n);
    SpreadBalances(loads, n);
    if forall j :: 0 <= j < |alt| && alt[j] > loads[j].count ==> alt[j] < after[i].count {
      assert forall j :: 0 <= j < |alt| ==> alt[j] <= after[j].count;
      assert alt[i] < after[i].count;
      SumBelow(alt, after);
    }
  }

  /** Places the orphans in order; the first that finds no room, and all after it, are unplaceable. */
  method PlanRebalance(orphaned: seq<Player>, start: seq<Load>)
      returns (assignments: seq<(Player, Zone)>, unplaceable: seq<Player>)
    ensures |assignments| == Min(|orphaned|, Room(start))
    ensures unplaceable == orphaned[|assignments|..]
    ensures forall k :: 0 <= k < |assignments| ==>
              var t := Target(Spread(start, k));
              t.Some? && assignments[k] == (orphaned[k], start[t.value].zone)
  {
    hide Spread, Target, Room, Total;
    var loads := start;
    assignments, unplaceable := [], [];
    SpreadStart(start);
    for k := 0 to |orphaned|
      invariant loads == Spread(start, k)
      invariant |assignments| == Min(k, Room(start))
      invariant unplaceable == orphaned[|assignments|..k]
      invariant forall j :: 0 <= j < |assignments| ==>
                  var t := Target(Spread(start, j));
                  t.Some? && assignments[j] == (orphaned[j], start[t.value].zone)
    {
      SpreadPlaces(start, k);
      SpreadStep(start, k);
      var target := Target(loads);
      match target {
        case Some(t) =>
          assignments := assignments + [(orphaned[k], loads[t].zone)];
          loads := loads[t := loads[t].(count := loads[t].count + 1)];
          assert orphaned[k + 1..k + 1] == [];
        case None =>
          unplaceable := unplaceable + [orphaned[k]];
          assert orphaned[|assignments|..k + 1] == orphaned[|assignments|..k] + [orphaned[k]];
      }
    }
    assert orphaned[|assignments|..|orphaned|] == orphaned[|assignments|..];
  }

  lemma SpreadStart(loads: seq<Load>)
    ensures Spread(loads, 0) == loads
  {
  }

  lemma SpreadStep(loads: seq<Load>, k: nat)
    ensures var before := Spread(loads, k);
            Spread(loads, k + 1) == match Target(before)
                                    case None => before
                                    case Some(t) => before[t := before[t].(count := before[t].count + 1)]
  {
  }

  // ----- the routing table -----

  function PlayersOf(table: Routes, zone: Zone): set<Player> {
    set p | p in table && table[p] == zone
  }

  function Committed(table: Routes, assignments: seq<(Player, Zone)>): Routes {
    if assignments == [] then table
    else var a := assignments[|assignments| - 1]; Committed(table, assignments[..|assignments| - 1])[a.0 := a.1]
  }

  /** The tallies count the players routed to each zone. */
  ghost predicate Counted(table: Routes, loads: seq<Load>) {
    forall i :: 0 <= i < |loads| ==> loads[i].count == |PlayersOf(table, loads[i].zone)|
  }

  predicate DistinctZones(loads: seq<Load>) {
    forall i, j :: 0 <= i < j < |loads| ==> loads[i].zone != loads[j].zone
  }

  /** Moving one player from outside the survivors to a survivor adds one to that survivor only. */
  lemma MoveCounts(table: Routes, loads: seq<Load>, p: Player, k: nat)
    requires Counted(table, loads) && DistinctZones(loads) && k < |loads|
    requires p in table && forall i :: 0 <= i < |loads| ==> loads[i].zone != table[p]
    ensures Counted(table[p := loads[k].zone], loads[k := loads[k].(count := loads[k].count + 1)])
  {
    var table', loads' := table[p := loads[k].zone], loads[k := loads[k].(count := loads[k].count + 1)];
    forall i | 0 <= i < |loads'| ensures loads'[i].count == |PlayersOf(table', loads'[i].zone)| {
      var z := loads[i].zone;
      if i == k {
        assert PlayersOf(table', z) == PlayersOf(table, z) + {p};
      } else {
        assert PlayersOf(table', z) == PlayersOf(table, z);
      }
    }
  }

  /** What a recovery is given: the orphans are players of the failed zone, listed once; the
      survivors are other zones, with their routed players counted. */
  ghost predicate Recovery(table: Routes, failed: Zone, orphaned: seq<Player>, loads: seq<Load>) {
    && NoRepeats(orphaned)
    && (forall p :: p in orphaned <==> p in PlayersOf(table, failed))
    && DistinctZones(loads) && Counted(table, loads)
    && forall i :: 0 <= i < |loads| ==> loads[i].zone != failed
  }

  /** Each orphan goes where the spreading put it. */
  ghost predicate Planned(orphaned: seq<Player>, loads: seq<Load>, assignments: seq<(Player, Zone)>) {
    && |assignments| <= |orphaned|
    && forall k :: 0 <= k < |assignments| ==>
         var t := Target(Spread(loads, k));
         t.Some? && assignments[k] == (orphaned[k], loads[t.value].zone)
  }

  /** The table `now` is `table` with the first `k` orphans moved as assigned and nobody else touched. */
  ghost predicate Moved(table: Routes, now: Routes, orphaned: seq<Player>, assignments: seq<(Player, Zone)>, k: nat)
    requires k <= |assignments| && k <= |orphaned|
  {
    && now.Keys == table.Keys
    && (forall p :: p in table && p !in orphaned[..k] ==> now[p] == table[p])
    && forall j :: 0 <= j < k ==> orphaned[j] in table && now[orphaned[j]] == assignments[j].1
  }

  lemma MovedStep(table: Routes, now: Routes, orphaned: seq<Player>, assignments: seq<(Player, Zone)>, k: nat)
    requires k < |assignments| && k < |orphaned| && NoRepeats(orphaned)
    requires orphaned[k] in table && Moved(table, now, orphaned, assignments, k)
    ensures now[orphaned[k]] == table[orphaned[k]]
    ensures Moved(table, now[orphaned[k] := assignments[k].1], orphaned, assignments, k + 1)
  {
    assert orphaned[..k + 1] == orphaned[..k] + [orphaned[k]];
  }

  lemma CommittedStep(table: Routes, assignments: seq<(Player, Zone)>, k: nat)
    requires k < |assignments|
    ensures Committed(table, assignments[..k + 1]) ==
              Committed(table, assignments[..k])[assignments[k].0 := assignments[k].1]
  {
    assert assignments[..k + 1][..k] == assignments[..k];
  }

  /** After the first `k` assignments the table still counts out to the spread tallies. */
  lemma {:induction false} CommitCounts(table: Routes, failed: Zone, orphaned: seq<Player>, loads: seq<Load>,
                                        assignments: seq<(Player, Zone)>, k: nat)
    requires Recovery(table, failed, orphaned, loads) && Planned(orphaned, loads, assignments) && k <= |assignments|
    ensures Counted(Committed(table, assignments[..k]), Spread(loads, k))
    ensures Moved(table, Committed(table, assignments[..k]), orphaned, assignments, k)
  {
    hide Spread, Target, Counted, Moved, NoRepeats, Committed;
    if k == 0 {
      SpreadStart(loads);
      CommittedNothing(table, orphaned, assignments);
    } else {
      CommitCounts(table, failed, orphaned, loads, assignments, k - 1);
      var mid, p, spread := Committed(table, assignments[..k - 1]), orphaned[k - 1], Spread(loads, k - 1);
      assert p in orphaned;
      MovedStep(table, mid, orphaned, assignments, k - 1);
      MovedKeys(table, mid, orphaned, assignments, k - 1);
      CommittedStep(table, assignments, k - 1);
      MoveCounts(mid, spread, p, Target(spread).value);
      SpreadStep(loads, k - 1);
    }
  }

  lemma MovedKeys(table: Routes, now: Routes, orphaned: seq<Player>, assignments: seq<(Player, Zone)>, k: nat)
    requires k <= |assignments| && k <= |orphaned| && Moved(table, now, orphaned, assignments, k)
    ensures now.Keys == table.Keys
  {
  }

  lemma CommittedNothing(table: Routes, orphaned: seq<Player>, assignments: seq<(Player, Zone)>)
    ensures Committed(table, assignments[..0]) == table
    ensures Moved(table, table, orphaned, assignments, 0)
  {
  }

  class Router {
    var table: Routes

    constructor ()
      ensures table == map[]
    {
      table := map[];
    }

    method Assign(p: Player, zone: Zone)
      modifies this
      ensures table == old(table)[p := zone]
    {
      table := table[p := zone];
    }

    method CommitHandoff(p: Player, zone: Zone) returns (previous: Option<Zone>)
      modifies this
      ensures table == old(table)[p := zone]
      ensures previous == if p in old(table) then Some(old(table)[p]) else None
    {
      previous := if p in table then Some(table[p]) else None;
      table := table[p := zone];
    }

    method CommitBatch(assignments: seq<(Player, Zone)>)
      modifies this
      ensures table == Committed(old(table), assignments)
    {
      for k := 0 to |assignments|
        invariant table == Committed(old(table), assignments[..k])
      {
        assert assignments[..k + 1][..k] == assignments[..k];
        table := table[assignments[k].0 := assignments[k].1];
      }
      assert assignments[..|assignments|] == assignments;
    }

    method Remove(p: Player) returns (was: Option<Zone>)
      modifies this
      ensures table == old(table) - {p}
      ensures was == if p in old(table) then Some(old(table)[p]) else None
    {
      was := if p in table then Some(table[p]) else None;
      table := table - {p};
    }

    method PlayersInZone(zone: Zone) returns (players: seq<Player>)
      ensures forall p :: p in players <==> p in PlayersOf(table, zone)
      ensures forall i, j :: 0 <= i < j < |players| ==> players[i] != players[j]
    {
      players := [];
      var todo := table.Keys;
      while todo != {}
        invariant todo <= table.Keys
        invariant forall p :: p in players <==> p in PlayersOf(table, zone) && p !in todo
        invariant forall i, j :: 0 <= i < j < |players| ==> players[i] != players[j]
        decreases todo
      {
        var p :| p in todo;
        todo := todo - {p};
        if table[p] == zone {
          players := players + [p];
        }
      }
    }

    method CountInZone(zone: Zone) returns (n: nat)
      ensures n == |PlayersOf(table, zone)|
    {
      n := 0;
      var todo := table.Keys;
      ghost var counted: set<Player> := {};
      while todo != {}
        invariant todo <= table.Keys && n == |counted|
        invariant forall p :: p in counted <==> p in PlayersOf(table, zone) && p !in todo
        decreases todo
      {
        var p :| p in todo;
        todo := todo - {p};
        if table[p] == zone {
          n := n + 1;
          counted := counted + {p};
        }
      }
      assert counted == PlayersOf(table, zone);
    }
  }

  /** The tallies of the survivors. */
  method Tally(router: Router, survivors: seq<(Zone, nat)>) returns (loads: seq<Load>)
    ensures |loads| == |survivors| && Counted(router.table, loads)
    ensures forall i :: 0 <= i < |loads| ==> loads[i].zone == survivors[i].0 && loads[i].capacity == survivors[i].1
  {
    loads := [];
    for i := 0 to |survivors|
      invariant |loads| == i && Counted(router.table, loads)
      invariant forall j :: 0 <= j < i ==> loads[j].zone == survivors[j].0 && loads[j].capacity == survivors[j].1
    {
      var n := router.CountInZone(survivors[i].0);
      loads := loads + [Load(n, survivors[i].1, survivors[i].0)];
    }
  }

  /** What recovering a failed zone leaves: nobody is routed to it, everybody else keeps their zone,
      only players of the failed zone that found no room are gone, and the survivors hold what the
      spreading of all its players gives them. */
  ghost predicate Recovered(before: Routes, after: Routes, failed: Zone, loads: seq<Load>, kicked: set<Player>) {
    && PlayersOf(after, failed) == {}
    && kicked <= PlayersOf(before, failed)
    && after.Keys == before.Keys - kicked
    && (forall p :: p in before && before[p] != failed ==> after[p] == before[p])
    && Counted(after, Spread(loads, |PlayersOf(before, failed)|))
  }

  /** Recovers a failed zone: those of its players that find no room are disconnected, the others
      are spread over the survivors. */
  method HandleZoneFailure(router: Router, failed: Zone, survivors: seq<(Zone, nat)>)
      returns (kicked: seq<Player>, ghost loads: seq<Load>)
    requires forall i, j :: 0 <= i < j < |survivors| ==> survivors[i].0 != survivors[j].0
    requires forall i :: 0 <= i < |survivors| ==> survivors[i].0 != failed
    modifies router
    ensures |loads| == |survivors|
    ensures forall i :: 0 <= i < |loads| ==>
              loads[i] == Load(|PlayersOf(old(router.table), survivors[i].0)|, survivors[i].1, survivors[i].0)
    ensures Recovered(old(router.table), router.table, failed, loads, Listed(kicked))
    ensures var n := |PlayersOf(old(router.table), failed)|; |kicked| == n - Min(n, Room(loads))
  {
    hide Spread, Target, Room, Counted, Committed, Recovered, PlayersOf, Listed;
    ghost var table := router.table;
    var orphaned := router.PlayersInZone(failed);
    ListedSize(orphaned, PlayersOf(table, failed));
    var tally := Tally(router, survivors);
    loads := tally;
    TallyIs(table, survivors, loads);
    var assignments, unplaceable := PlanRebalance(orphaned, tally);
    kicked := unplaceable;
    ListedNone(table, unplaceable);
    for k := 0 to |unplaceable|
      invariant router.table == table - Listed(unplaceable[..k])
    {
      ListedSnoc(table, unplaceable, k);
      var _ := router.Remove(unplaceable[k]);
    }
    assert unplaceable[..|unplaceable|] == unplaceable;
    router.CommitBatch(assignments);
    assert assignments[..|assignments|] == assignments;
    RecoveryRecovers(table, failed, orphaned, loads, assignments);
  }

  lemma ListedNone(table: Routes, ps: seq<Player>)
    ensures table - Listed(ps[..0]) == table
  {
  }

  lemma ListedSnoc(table: Routes, ps: seq<Player>, k: nat)
    requires k < |ps|
    ensures table - Listed(ps[..k + 1]) == table - Listed(ps[..k]) - {ps[k]}
  {
    assert ps[..k + 1] == ps[..k] + [ps[k]];
  }

  lemma {:induction false} ListedSize(ps: seq<Player>, s: set<Player>)
    requires NoRepeats(ps) && forall p :: p in ps <==> p in s
    ensures |ps| == |s|
  {
    if ps == [] {
      assert s == {};
    } else {
      var n := |ps| - 1;
      assert ps[n] in s;
      assert ps == ps[..n] + [ps[n]];
      ListedSize(ps[..n], s - {ps[n]});
    }
  }

  lemma TallyIs(table: Routes, survivors: seq<(Zone, nat)>, loads: seq<Load>)
    requires |loads| == |survivors| && Counted(table, loads)
    requires forall i :: 0 <= i < |loads| ==> loads[i].zone == survivors[i].0 && loads[i].capacity == survivors[i].1
    ensures forall i :: 0 <= i < |loads| ==>
              loads[i] == Load(|PlayersOf(table, survivors[i].0)|, survivors[i].1, survivors[i].0)
  {
  }

  lemma SplitMembers(ps: seq<Player>, n: nat)
    requires n <= |ps|
    ensures forall p :: p in ps <==> p in ps[..n] || p in ps[n..]
    ensures NoRepeats(ps) ==> NoRepeats(ps[..n]) && forall p :: p in ps[..n] ==> p !in ps[n..]
  {
    assert ps == ps[..n] + ps[n..];
  }

  /** Disconnecting players of the failed zone changes no survivor's tally. */
  lemma KickKeepsCounts(table: Routes, failed: Zone, loads: seq<Load>, gone: set<Player>)
    requires Counted(table, loads) && gone <= PlayersOf(table, failed)
    requires forall i :: 0 <= i < |loads| ==> loads[i].zone != failed
    ensures Counted(table - gone, loads)
  {
    forall i | 0 <= i < |loads| ensures loads[i].count == |PlayersOf(table - gone, loads[i].zone)| {
      assert PlayersOf(table - gone, loads[i].zone) == PlayersOf(table, loads[i].zone);
    }
  }

  /** Once the unplaced players are disconnected, the placed ones are the failed zone's only players. */
  lemma KickKeepsRecovery(table: Routes, failed: Zone, orphaned: seq<Player>, loads: seq<Load>, n: nat)
    requires Recovery(table, failed, orphaned, loads) && n <= |orphaned|
    ensures Recovery(table - Listed(orphaned[n..]), failed, orphaned[..n], loads)
  {
    hide Counted, NoRepeats, DistinctZones;
    SplitMembers(orphaned, n);
    KickKeepsCounts(table, failed, loads, Listed(orphaned[n..]));
    var left, gone := orphaned[..n], Listed(orphaned[n..]);
    forall p ensures p in left <==> p in PlayersOf(table - gone, failed) {
      assert p in orphaned <==> p in PlayersOf(table, failed);
    }
  }

  lemma PlannedPrefix(orphaned: seq<Player>, loads: seq<Load>, assignments: seq<(Player, Zone)>)
    requires Planned(orphaned, loads, assignments)
    ensures Planned(orphaned[..|assignments|], loads, assignments)
  {
    hide Spread, Target;
  }

  lemma RecoveryRecovers(table: Routes, failed: Zone, orphaned: seq<Player>, loads: seq<Load>,
                         assignments: seq<(Player, Zone)>)
    requires Recovery(table, failed, orphaned, loads) && Planned(orphaned, loads, assignments)
    requires |assignments| == Min(|orphaned|, Room(loads))
    ensures var gone := Listed(orphaned[|assignments|..]);
            Recovered(table, Committed(table - gone, assignments), failed, loads, gone)
  {
    hide Spread, Target, Counted, Committed, Room, PlayersOf, NoRepeats, Recovered;
    var n := |assignments|;
    var gone := orphaned[n..];
    KickKeepsRecovery(table, failed, orphaned, loads, n);
    PlannedPrefix(orphaned, loads, assignments);
    CommitCounts(table - Listed(gone), failed, orphaned[..n], loads, assignments, n);
    assert assignments[..n] == assignments;
    SpreadStops(loads, n, |orphaned|);
    ListedSize(orphaned, PlayersOf(table, failed));
    MovedRecovers(table, failed, orphaned, loads, assignments, Committed(table - Listed(gone), assignments));
  }

  lemma MovedRecovers(table: Routes, failed: Zone, orphaned: seq<Player>, loads: seq<Load>,
                      assignments: seq<(Player, Zone)>, after: Routes)
    requires Recovery(table, failed, orphaned, loads) && Planned(orphaned, loads, assignments)
    requires Moved(table - Listed(orphaned[|assignments|..]), after, orphaned[..|assignments|], assignments,
                   |assignments|)
    requires Counted(after, Spread(loads, |PlayersOf(table, failed)|))
    ensures Recovered(table, after, failed, loads, Listed(orphaned[|assignments|..]))
  {
    hide Spread, Target, Counted, NoRepeats, DistinctZones;
    var n := |assignments|;
    var left, gone := orphaned[..n], Listed(orphaned[n..]);
    SplitMembers(orphaned, n);
    assert left[..n] == left;
    forall p | p in after ensures after[p] != failed {
      if p in left {
        PlacedElsewhere(table, failed, orphaned, loads, assignments, after, p);
      } else {
        assert after[p] == table[p];
      }
    }
    forall p | p in table && table[p] != failed ensures p in after && after[p] == table[p] {
      assert p !in orphaned;
    }
    assert gone <= PlayersOf(table, failed);
  }

  lemma PlacedElsewhere(table: Routes, failed: Zone, orphaned: seq<Player>, loads: seq<Load>,
                        assignments: seq<(Player, Zone)>, after: Routes, p: Player)
    requires Recovery(table, failed, orphaned, loads) && Planned(orphaned, loads, assignments)
    requires Moved(table - Listed(orphaned[|assignments|..]), after, orphaned[..|assignments|], assignments,
                   |assignments|)
    requires p in orphaned[..|assignments|]
    ensures p in after && after[p] != failed
  {
    hide Spread, Target, Counted, NoRepeats, DistinctZones, Listed, PlayersOf;
    var left := orphaned[..|assignments|];
    var j :| 0 <= j < |left| && left[j] == p;
    assert after[left[j]] == assignments[j].1;
    assert assignments[j].0 == orphaned[j];
  }

  /** Offers beyond the free places change nothing. */
  lemma {:induction false} SpreadStops(loads: seq<Load>, n: nat, m: nat)
    requires n == Min(m, Room(loads))
    ensures Spread(loads, m) == Spread(loads, n)
    decreases m
  {
    hide Target, Room;
    if n < m {
      if m - 1 == n {
        SpreadPlaces(loads, n);
      } else {
        SpreadStops(loads, n, m - 1);
        SpreadPlaces(loads, m - 1);
      }
    }
  }
}
