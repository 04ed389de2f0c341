/** Entities, their dirty flags and partial updates. */
module EntityModel {
  import opened Bytes

  type Id = nat
  type Vec3 = (real, real, real)

  datatype EntityType = Player | Vehicle | Ped | Object

  datatype Extra =
    | PlayerExtra(isInVehicle: bool, vehicleId: Option<Id>)
    | VehicleExtra(speed: real, engineHealth: real, doorsOpen: byte)
    | PedExtra(isFleeing: bool, currentWeapon: nat)
    | ObjectExtra(isStatic: bool)

  datatype EntityState = EntityState(entityId: Id, entityType: EntityType, networkOwner: Option<nat>, modelHash: nat,
                                     coords: Vec3, heading: real, velocity: Vec3, health: real, armour: real,
                                     extra: Extra)

  datatype Flag = COORDS | HEADING | VELOCITY | HEALTH | ARMOUR | EXTRA | CREATED | DELETED

  const ALL_BUT_DELETED: set<Flag> := {COORDS, HEADING, VELOCITY, HEALTH, ARMOUR, EXTRA, CREATED}

  datatype DirtyEntity = DirtyEntity(entityId: Id, fields: set<Flag>, state: EntityState) {
    predicate Deleted() {
      DELETED in fields
    }
  }

  /** A partial update; absent fields are left alone. */
  datatype Update = Update(coords: Option<Vec3>, heading: Option<real>, velocity: Option<Vec3>,
                           health: Option<real>, armour: Option<real>, extra: Option<Extra>)

  /** The field a flag stands for has the same value in both states. Ownership rides on EXTRA, and
      what never changes after creation rides on CREATED. */
  predicate Same(f: Flag, a: EntityState, b: EntityState) {
    match f
    case COORDS => a.coords == b.coords
    case HEADING => a.heading == b.heading
    case VELOCITY => a.velocity == b.velocity
    case HEALTH => a.health == b.health
    case ARMOUR => a.armour == b.armour
    case EXTRA => a.extra == b.extra && a.networkOwner == b.networkOwner
    case CREATED => a.entityId == b.entityId && a.entityType == b.entityType && a.modelHash == b.modelHash
    case DELETED => true
  }

  function Or<T>(o: Option<T>, d: T): T {
    if o.Some? then o.value else d
  }

  /** The state an update leads to. */
  function Updated(s: EntityState, u: Update): EntityState {
    s.(coords := Or(u.coords, s.coords), heading := Or(u.heading, s.heading), velocity := Or(u.velocity, s.velocity),
       health := Or(u.health, s.health), armour := Or(u.armour, s.armour), extra := Or(u.extra, s.extra))
  }

  /** The flags of the fields that differ between two states of an entity. */
  function Changed(a: EntityState, b: EntityState): set<Flag> {
    FlagIf(a.coords != b.coords, COORDS) + FlagIf(a.heading != b.heading, HEADING)
    + FlagIf(a.velocity != b.velocity, VELOCITY) + FlagIf(a.health != b.health, HEALTH)
    + FlagIf(a.armour != b.armour, ARMOUR) + FlagIf(a.extra != b.extra, EXTRA)
  }

  function FlagIf(changed: bool, f: Flag): set<Flag> {
    if changed then {f} else {}
  }
}

/** A zone's entity store: the live entities and a dirty queue coalesced per entity. Each method is
    one atomic step. */
module EntityManager {
  import opened Bytes
  import opened EntityModel

  type World = map<Id, EntityState>
  type Queue = map<Id, DirtyEntity>

  datatype Zone = Zone(entities: World, queue: Queue)

  /** Queues a change: flags accumulate, the latest state wins, and a pending deletion stays. */
  function MarkDirty(q: Queue, id: Id, flags: set<Flag>, state: EntityState): Queue {
    if id !in q then q[id := DirtyEntity(id, flags, state)]
    else if q[id].Deleted() then q
    else q[id := DirtyEntity(q[id].entityId, q[id].fields + flags, state)]
  }

  function Spawned(z: Zone, s: EntityState): Zone {
    Zone(z.entities[s.entityId := s], MarkDirty(z.queue, s.entityId, ALL_BUT_DELETED, s))
  }

  function Removed(z: Zone, id: Id): Zone {
    if id in z.entities then Zone(z.entities - {id}, z.queue[id := DirtyEntity(id, {DELETED}, z.entities[id])]) else z
  }

  function UpdatedAt(z: Zone, id: Id, u: Update): Zone {
    if id !in z.entities then z
    else
      var s := Updated(z.entities[id], u);
      var flags := Changed(z.entities[id], s);
      Zone(z.entities[id := s], if flags == {} then z.queue else MarkDirty(z.queue, id, flags, s))
  }

  function Owned(z: Zone, id: Id, owner: Option<nat>): Zone {
    if id !in z.entities || z.entities[id].networkOwner == owner then z
    else
      var s := z.entities[id].(networkOwner := owner);
      Zone(z.entities[id := s], MarkDirty(z.queue, id, {EXTRA}, s))
  }

  // ----- the same, field by field -----

  /** `now` has the update's fields where present and the old ones elsewhere; what no update carries stays. */
  predicate FieldsAfter(was: EntityState, u: Update, now: EntityState) {
    && now.coords == (match u.coords case Some(x) => x case None => was.coords)
    && now.heading == (match u.heading case Some(x) => x case None => was.heading)
    && now.velocity == (match u.velocity case Some(x) => x case None => was.velocity)
    && now.health == (match u.health case Some(x) => x case None => was.health)
    && now.armour == (match u.armour case Some(x) => x case None => was.armour)
    && now.extra == (match u.extra case Some(x) => x case None => was.extra)
    && now.entityId == was.entityId && now.entityType == was.entityType
    && now.modelHash == was.modelHash && now.networkOwner == was.networkOwner
  }

  /** The flags name exactly the fields in which the two states differ. */
  predicate FlagsFor(flags: set<Flag>, was: EntityState, now: EntityState) {
    && (COORDS in flags <==> was.coords != now.coords)
    && (HEADING in flags <==> was.heading != now.heading)
    && (VELOCITY in flags <==> was.velocity != now.velocity)
    && (HEALTH in flags <==> was.health != now.health)
    && (ARMOUR in flags <==> was.armour != now.armour)
    && (EXTRA in flags <==> was.extra != now.extra)
    && CREATED !in flags && DELETED !in flags
  }

  lemma UpdatedExactly(was: EntityState, u: Update)
    ensures FieldsAfter(was, u, Updated(was, u))
    ensures FlagsFor(Changed(was, Updated(was, u)), was, Updated(was, u))
  {
  }

  /** What `after` holds of `id`, when the state `s` was queued with `flags` over `before`: a deletion stays
      as it is, and otherwise nothing flagged before is forgotten. */
  predicate QueuedOver(before: Queue, after: Queue, id: Id, flags: set<Flag>, s: EntityState) {
    && id in after
    && (id in before && DELETED in before[id].fields ==> after[id] == before[id])
    && (id in before && DELETED !in before[id].fields ==>
          after[id].state == s && after[id].fields == before[id].fields + flags)
    && (id !in before ==> after[id] == DirtyEntity(id, flags, s))
    && before - {id} == after - {id}
  }

  lemma MarkExactly(q: Queue, id: Id, flags: set<Flag>, s: EntityState)
    ensures QueuedOver(q, MarkDirty(q, id, flags, s), id, flags, s)
  {
  }

  /** A change of owner touches nothing else and is queued as EXTRA; the same owner changes nothing. */
  lemma OwnedExactly(z: Zone, id: Id, owner: Option<nat>)
    ensures var z' := Owned(z, id, owner);
            && (id !in z.entities || z.entities[id].networkOwner == owner ==> z' == z)
            && (id in z.entities && z.entities[id].networkOwner != owner ==>
                  && z'.entities == z.entities[id := z.entities[id].(networkOwner := owner)]
                  && QueuedOver(z.queue, z'.queue, id, {EXTRA}, z'.entities[id]))
  {
  }

  /** A batch lists every queued change once, in any order. */
  ghost predicate BatchOf(batch: seq<DirtyEntity>, q: Queue) {
    && (forall i, j :: 0 <= i < j < |batch| ==> batch[i].entityId != batch[j].entityId)
    && (forall i :: 0 <= i < |batch| ==> batch[i].entityId in q && q[batch[i].entityId] == batch[i])
    && (forall id :: id in q ==> q[id] in batch)
  }

  /** Writes the present fields one by one and flags those that really change: first the motion. */
  method WriteMotion(was: EntityState, update: Update) returns (state: EntityState, flags: set<Flag>)
    ensures state == was.(coords := Or(update.coords, was.coords), heading := Or(update.heading, was.heading),
                          velocity := Or(update.velocity, was.velocity))
    ensures flags == FlagIf(was.coords != state.coords, COORDS) + FlagIf(was.heading != state.heading, HEADING)
                     + FlagIf(was.velocity != state.velocity, VELOCITY)
  {
    state, flags := was, {};
    if update.coords.Some? && state.coords != update.coords.value {
      state := state.(coords := update.coords.value);
      flags := flags + {COORDS};
    }
    ghost var f1 := FlagIf(was.coords != state.coords, COORDS);
    assert flags == f1;
    if update.heading.Some? && state.heading != update.heading.value {
      state := state.(heading := update.heading.value);
      flags := flags + {HEADING};
    }
    ghost var f2 := f1 + FlagIf(was.heading != state.heading, HEADING);
    assert flags == f2;
    if update.velocity.Some? && state.velocity != update.velocity.value {
      state := state.(velocity := update.velocity.value);
      flags := flags + {VELOCITY};
    }
  }

  /** Then the rest. */
  method WriteFields(was: EntityState, update: Update) returns (state: EntityState, flags: set<Flag>)
    ensures state == Updated(was, update) && flags == Changed(was, state)
  {
    state, flags := WriteMotion(was, update);
    ghost var f3 := flags;
    if update.health.Some? && state.health != update.health.value {
      state := state.(health := update.health.value);
      flags := flags + {HEALTH};
    }
    ghost var f4 := f3 + FlagIf(was.health != state.health, HEALTH);
    assert flags == f4;
    if update.armour.Some? && state.armour != update.armour.value {
      state := state.(armour := update.armour.value);
      flags := flags + {ARMOUR};
    }
    ghost var f5 := f4 + FlagIf(was.armour != state.armour, ARMOUR);
    assert flags == f5;
    if update.extra.Some? && state.extra != update.extra.value {
      state := state.(extra := update.extra.value);
      flags := flags + {EXTRA};
    }
    assert flags == f5 + FlagIf(was.extra != state.extra, EXTRA);
  }

  class Manager {
    var entities: World
    var queue: Queue

    ghost predicate Valid()
      reads this
    {
      forall id :: id in queue ==> queue[id].entityId == id
    }

    ghost function State(): Zone
      reads this
    {
      Zone(entities, queue)
    }

    constructor ()
      ensures Valid() && State() == Zone(map[], map[])
    {
      entities, queue := map[], map[];
    }

    method Mark(id: Id, flags: set<Flag>, state: EntityState)
      requires Valid()
      modifies this`queue
      ensures Valid() && queue == MarkDirty(old(queue), id, flags, state)
    {
      if id in queue {
        var pending := queue[id];
        if DELETED in pending.fields {
          return;
        }
        queue := queue[id := pending.(fields := pending.fields + flags, state := state)];
      } else {
        queue := queue[id := DirtyEntity(id, flags, state)];
      }
    }

    method SpawnEntity(state: EntityState)
      requires Valid()
      modifies this
      ensures Valid() && State() == Spawned(old(State()), state)
    {
      entities := entities[state.entityId := state];
      Mark(state.entityId, ALL_BUT_DELETED, state);
    }

    method RemoveEntity(id: Id) returns (removed: Option<EntityState>)
      requires Valid()
      modifies this
      ensures Valid() && State() == Removed(old(State()), id)
      ensures removed == if id in old(entities) then Some(old(entities)[id]) else None
    {
      removed := None;
      if id in entities {
        removed := Some(entities[id]);
        queue := queue[id := DirtyEntity(id, {DELETED}, entities[id])];
        entities := entities - {id};
      }
    }

    /** Applies a partial update and queues what really changed; a no-op queues nothing. */
    method UpdateEntity(id: Id, update: Update) returns (flags: set<Flag>)
      requires Valid()
      modifies this
      ensures Valid() && State() == UpdatedAt(old(State()), id, update)
      ensures flags == if id !in old(entities) then {}
                       else Changed(old(entities)[id], Updated(old(entities)[id], update))
      ensures entities.Keys == old(entities).Keys
      ensures forall k :: k in entities && k != id ==> entities[k] == old(entities)[k]
      ensures id in old(entities) ==> FieldsAfter(old(entities)[id], update, entities[id])
      ensures id in old(entities) ==> FlagsFor(flags, old(entities)[id], entities[id])
      ensures if flags == {} then queue == old(queue)
              else id in entities && QueuedOver(old(queue), queue, id, flags, entities[id])
    {
      hide Changed, Updated, MarkDirty, FieldsAfter, FlagsFor, QueuedOver;
      flags := {};
      if id !in entities {
        return;
      }
      UpdatedExactly(entities[id], update);
      var state;
      state, flags := WriteFields(entities[id], update);
      entities := entities[id := state];
      if flags != {} {
        MarkExactly(queue, id, flags, state);
        Mark(id, flags, state);
      }
    }

    method SetNetworkOwner(id: Id, owner: Option<nat>) returns (known: bool)
      requires Valid()
      modifies this
      ensures Valid() && State() == Owned(old(State()), id, owner) && known == (id in old(entities))
    {
      known := id in entities;
      if !known || entities[id].networkOwner == owner {
        return;
      }
      var state := entities[id].(networkOwner := owner);
      entities := entities[id := state];
      Mark(id, {EXTRA}, state);
    }

    /** Drains the queue into a batch whose order is unspecified. */
    method FlushDirty() returns (batch: seq<DirtyEntity>)
      requires Valid()
      modifies this`queue
      ensures Valid() && queue == map[] && BatchOf(batch, old(queue))
    {
      batch := [];
      var todo := queue.Keys;
      while todo != {}
        invariant todo <= queue.Keys && queue == old(queue)
        invariant forall i, j :: 0 <= i < j < |batch| ==> batch[i].entityId != batch[j].entityId
        invariant forall i :: 0 <= i < |batch| ==>
                    batch[i].entityId in queue.Keys - todo && queue[batch[i].entityId] == batch[i]
        invariant forall id :: id in queue.Keys - todo ==> queue[id] in batch
        decreases todo
      {
        var id :| id in todo;
        todo := todo - {id};
        batch := batch + [queue[id]];
      }
      queue := map[];
    }
  }
}

/** From a zone's store through in-flight batches to the gateway's aggregated world. */
module Pipeline {
  import opened Bytes
  import opened EntityModel
  import opened EntityManager

  // ----- merging -----

  function MergeOne(w: World, d: DirtyEntity): World {
    if d.Deleted() then w - {d.entityId} else w[d.entityId := d.state]
  }

  /** The aggregated world after a batch: last write wins per entity. */
  function Merge(w: World, batch: seq<DirtyEntity>): World {
    if batch == [] then w else MergeOne(Merge(w, batch[..|batch| - 1]), batch[|batch| - 1])
  }

  method MergeBatch(world: World, batch: seq<DirtyEntity>) returns (w: World)
    ensures w == Merge(world, batch)
  {
    w := world;
    for i := 0 to |batch|
      invariant w == Merge(world, batch[..i])
    {
      assert batch[..i + 1][..i] == batch[..i];
      var d := batch[i];
      if DELETED in d.fields {
        w := w - {d.entityId};
      } else {
        w := w[d.entityId := d.state];
      }
    }
    assert batch[..|batch|] == batch;
  }

  function MergeAll(w: World, batches: seq<seq<DirtyEntity>>): World {
    if batches == [] then w else Merge(MergeAll(w, batches[..|batches| - 1]), batches[|batches| - 1])
  }

  /** A world with a whole queue applied at once. */
  function Overlay(w: World, q: Queue): World {
    map id | id in w.Keys + q.Keys && !(id in q && q[id].Deleted()) :: if id in q then q[id].state else w[id]
  }

  /** Merging is pointwise: an entity of the batch gets its change, any other keeps its state. */
  lemma {:induction false} MergePointwise(w: World, batch: seq<DirtyEntity>, id: Id)
    requires forall i, j :: 0 <= i < j < |batch| ==> batch[i].entityId != batch[j].entityId
    ensures (forall i :: 0 <= i < |batch| ==> batch[i].entityId != id) ==>
              (id in Merge(w, batch) <==> id in w) && (id in w ==> Merge(w, batch)[id] == w[id])
    ensures forall i :: 0 <= i < |batch| && batch[i].entityId == id ==>
              (id in Merge(w, batch) <==> !batch[i].Deleted())
              && (!batch[i].Deleted() ==> Merge(w, batch)[id] == batch[i].state)
  {
    if batch != [] {
      var n := |batch| - 1;
      MergePointwise(w, batch[..n], id);
      assert forall i :: 0 <= i < n ==> batch[..n][i] == batch[i];
    }
  }

  /** A batch drained from a queue merges to the same world in any order. */
  lemma MergeIsOverlay(w: World, q: Queue, batch: seq<DirtyEntity>)
    requires BatchOf(batch, q) && forall id :: id in q ==> q[id].entityId == id
    ensures Merge(w, batch) == Overlay(w, q)
  {
    forall id ensures (id in Merge(w, batch) <==> id in Overlay(w, q))
                      && (id in Overlay(w, q) ==> Merge(w, batch)[id] == Overlay(w, q)[id])
    {
      MergePointwise(w, batch, id);
      if id in q {
        var i :| 0 <= i < |batch| && batch[i] == q[id];
      }
    }
  }

  // ----- the pipeline as a state machine -----

  /** The zone, the batches on the wire (oldest first), the aggregated world, and the zone's
      entities as they were at the last flush. */
  datatype Pipe = Pipe(zone: Zone, inFlight: seq<seq<DirtyEntity>>, world: World, flushed: World)

  datatype Step =
    | Spawn(state: EntityState)
    | Remove(id: Id)
    | Change(id: Id, update: Update)
    | SetOwner(id: Id, owner: Option<nat>)
    | Flush(batch: seq<DirtyEntity>)
    | Deliver

  /** A deleted entity's marker is still waiting to be flushed. */
  predicate DeletionQueued(z: Zone, id: Id) {
    id in z.queue && z.queue[id].Deleted()
  }

  /** What the environment may do: batches come from the queue, only sent batches arrive, and no id
      is respawned while its deletion marker is queued. */
  ghost predicate Enabled(p: Pipe, step: Step) {
    match step
    case Spawn(s) => !DeletionQueued(p.zone, s.entityId)
    case Flush(batch) => BatchOf(batch, p.zone.queue)
    case Deliver => p.inFlight != []
    case _ => true
  }

  function Next(p: Pipe, step: Step): Pipe {
    match step
    case Spawn(s) => p.(zone := Spawned(p.zone, s))
    case Remove(id) => p.(zone := Removed(p.zone, id))
    case Change(id, u) => p.(zone := UpdatedAt(p.zone, id, u))
    case SetOwner(id, o) => p.(zone := Owned(p.zone, id, o))
    case Flush(batch) => Pipe(Zone(p.zone.entities, map[]), p.inFlight + [batch], p.world, p.zone.entities)
    case Deliver =>
      if p.inFlight == [] then p else p.(inFlight := p.inFlight[1..], world := Merge(p.world, p.inFlight[0]))
  }

  /** The aggregated world, then the batches on the wire, then the dirty queue, make up the zone's
      entities. */
  ghost predicate Consistent(p: Pipe) {
    && (forall id :: id in p.zone.queue ==> p.zone.queue[id].entityId == id)
    && MergeAll(p.world, p.inFlight) == p.flushed
    && Overlay(p.flushed, p.zone.queue) == p.zone.entities
  }

  /** A field without its flag is unchanged since the last flush. */
  ghost predicate Honest(p: Pipe) {
    && (forall id :: id in p.zone.entities && id !in p.zone.queue ==>
        id in p.flushed && p.zone.entities[id] == p.flushed[id])
    && (forall id :: id in p.zone.entities && id in p.zone.queue && CREATED !in p.zone.queue[id].fields ==>
        id in p.flushed)
    && (forall id, f | id in p.zone.entities && id in p.zone.queue && CREATED !in p.zone.queue[id].fields ::
          f !in p.zone.queue[id].fields ==> Same(f, p.zone.entities[id], p.flushed[id]))
  }

  lemma {:induction false} MergeAllFront(w: World, b: seq<DirtyEntity>, rest: seq<seq<DirtyEntity>>)
    ensures MergeAll(w, [b] + rest) == MergeAll(Merge(w, b), rest)
  {
    var all := [b] + rest;
    if rest == [] {
      assert all[..|all| - 1] == [];
      assert MergeAll(w, []) == w;
    } else {
      MergeAllFront(w, b, rest[..|rest| - 1]);
      assert all[..|all| - 1] == [b] + rest[..|rest| - 1];
    }
  }

  /** Marking a live entity dirty carries its new state through the overlay. */
  lemma MarkOverlays(w: World, q: Queue, entities: World, id: Id, flags: set<Flag>, s: EntityState)
    requires Overlay(w, q) == entities && DELETED !in flags && !(id in q && q[id].Deleted())
    ensures Overlay(w, MarkDirty(q, id, flags, s)) == entities[id := s]
  {
    var q' := MarkDirty(q, id, flags, s);
    forall k ensures (k in Overlay(w, q') <==> k in entities[id := s])
                     && (k in entities[id := s] ==> Overlay(w, q')[k] == entities[id := s][k])
    {
      assert k in Overlay(w, q) <==> k in entities;
    }
  }

  lemma LiveNotDeleted(w: World, q: Queue, entities: World, id: Id)
    requires Overlay(w, q) == entities && id in entities
    ensures !(id in q && q[id].Deleted())
  {
    assert id in Overlay(w, q);
  }

  lemma {:induction false} StepKeepsConsistent(p: Pipe, step: Step)
    requires Consistent(p) && Enabled(p, step)
    ensures Consistent(Next(p, step))
  {
    hide Overlay, Merge, MergeAll;
    var z := p.zone;
    match step
    case Spawn(s) =>
      MarkOverlays(p.flushed, z.queue, z.entities, s.entityId, ALL_BUT_DELETED, s);
    case Remove(id) =>
      if id in z.entities {
        RemoveOverlays(p.flushed, z.queue, z.entities, id);
      }
    case Change(id, u) =>
      if id in z.entities {
        LiveNotDeleted(p.flushed, z.queue, z.entities, id);
        var s := Updated(z.entities[id], u);
        MarkOverlays(p.flushed, z.queue, z.entities, id, Changed(z.entities[id], s), s);
        if Changed(z.entities[id], s) == {} {
          NothingChanged(z.entities[id], u);
          assert z.entities[id := s] == z.entities;
        }
      }
    case SetOwner(id, o) =>
      if id in z.entities && z.entities[id].networkOwner != o {
        LiveNotDeleted(p.flushed, z.queue, z.entities, id);
        MarkOverlays(p.flushed, z.queue, z.entities, id, {EXTRA}, z.entities[id].(networkOwner := o));
      }
    case Flush(batch) =>
      FlushMerges(p, batch);
    case Deliver =>
      MergeAllFront(p.world, p.inFlight[0], p.inFlight[1..]);
      assert p.inFlight == [p.inFlight[0]] + p.inFlight[1..];
  }

  lemma RemoveOverlays(w: World, q: Queue, entities: World, id: Id)
    requires Overlay(w, q) == entities && id in entities
    ensures Overlay(w, q[id := DirtyEntity(id, {DELETED}, entities[id])]) == entities - {id}
  {
    var q' := q[id := DirtyEntity(id, {DELETED}, entities[id])];
    forall k
      ensures k in Overlay(w, q') <==> k in entities - {id}
      ensures k in entities - {id} ==> Overlay(w, q')[k] == entities[k]
    {
      assert k in Overlay(w, q) <==> k in entities;
    }
  }

  lemma NothingChanged(s: EntityState, u: Update)
    requires Changed(s, Updated(s, u)) == {}
    ensures Updated(s, u) == s
  {
    var t := Updated(s, u);
    assert COORDS !in Changed(s, t) && HEADING !in Changed(s, t) && VELOCITY !in Changed(s, t);
    assert HEALTH !in Changed(s, t) && ARMOUR !in Changed(s, t) && EXTRA !in Changed(s, t);
  }

  lemma FlushMerges(p: Pipe, batch: seq<DirtyEntity>)
    requires Consistent(p) && BatchOf(batch, p.zone.queue)
    ensures Consistent(Next(p, Flush(batch)))
  {
    hide Merge, BatchOf, Overlay;
    MergeIsOverlay(p.flushed, p.zone.queue, batch);
    var all := p.inFlight + [batch];
    assert all[..|all| - 1] == p.inFlight;
    OverlayNothing(p.zone.entities);
  }

  lemma OverlayNothing(w: World)
    ensures Overlay(w, map[]) == w
  {
  }

  /** Spawning keeps the pipeline consistent exactly when the id has no deletion marker queued. */
  lemma SpawnConsistentExactly(p: Pipe, s: EntityState)
    requires Consistent(p)
    ensures Consistent(Next(p, Spawn(s))) <==> !DeletionQueued(p.zone, s.entityId)
  {
    if DeletionQueued(p.zone, s.entityId) {
      var p' := Next(p, Spawn(s));
      assert s.entityId !in Overlay(p'.flushed, p'.zone.queue);
    } else {
      StepKeepsConsistent(p, Spawn(s));
    }
  }

  /** Such a marker is two steps away: spawning an entity, removing it and spawning it again before
      the queue is flushed leaves the pipeline without it. */
  lemma RespawnTooSoon(s: EntityState)
    ensures var steps := [Spawn(s), Remove(s.entityId), Spawn(s)];
            Legal(steps[..2]) && !Consistent(Play(steps)) && s.entityId in Play(steps).zone.entities
  {
    var a, b := Spawn(s), Remove(s.entityId);
    var steps := [a, b, a];
    assert steps[..2] == [a, b] && [a, b][..1] == [a] && [a][..0] == [];
    assert Legal([]) && Play([]) == START;
    assert Legal([a][..0]) && Legal([a]);
    assert Legal([a, b][..1]) && Legal([a, b]);
    assert Play(steps) == Next(Play(steps[..2]), a);
    EveryRunConsistent([a, b]);
    SpawnConsistentExactly(Play([a, b]), s);
  }

  /** What is unflagged after marking was unflagged, and equal, before. */
  lemma MarkStaysHonest(p: Pipe, id: Id, flags: set<Flag>, s: EntityState)
    requires Honest(p) && id in p.zone.entities && DELETED !in flags && CREATED !in flags && !DeletionQueued(p.zone, id)
    requires forall f :: f !in flags ==> Same(f, s, p.zone.entities[id])
    ensures Honest(p.(zone := Zone(p.zone.entities[id := s], MarkDirty(p.zone.queue, id, flags, s))))
  {
    var old', q := p.zone.entities[id], MarkDirty(p.zone.queue, id, flags, s);
    if CREATED !in q[id].fields {
      forall f | f !in q[id].fields ensures Same(f, s, p.flushed[id]) {
        assert Same(f, s, old');
        if id in p.zone.queue {
          assert f !in p.zone.queue[id].fields;
        }
      }
    }
  }

  lemma UnchangedAreSame(a: EntityState, u: Update, f: Flag)
    requires f !in Changed(a, Updated(a, u))
    ensures Same(f, Updated(a, u), a)
  {
  }

  lemma StepKeepsHonest(p: Pipe, step: Step)
    requires Consistent(p) && Honest(p) && Enabled(p, step)
    ensures Honest(Next(p, step))
  {
    hide Overlay, MergeAll, Merge, Updated, Changed, Same;
    var z := p.zone;
    match step
    case Spawn(s) =>
      SpawnStaysHonest(p, s);
    case Remove(id) =>
    case Change(id, u) =>
      if id in z.entities {
        var s := Updated(z.entities[id], u);
        LiveNotDeleted(p.flushed, z.queue, z.entities, id);
        if Changed(z.entities[id], s) == {} {
          NothingChanged(z.entities[id], u);
          assert z.entities[id := s] == z.entities;
        } else {
          forall f | f !in Changed(z.entities[id], s) ensures Same(f, s, z.entities[id]) {
            UnchangedAreSame(z.entities[id], u, f);
          }
          ChangedFlags(z.entities[id], s);
          MarkStaysHonest(p, id, Changed(z.entities[id], s), s);
        }
      }
    case SetOwner(id, o) =>
      if id in z.entities && z.entities[id].networkOwner != o {
        LiveNotDeleted(p.flushed, z.queue, z.entities, id);
        forall f | f !in {EXTRA} ensures Same(f, z.entities[id].(networkOwner := o), z.entities[id]) {
          OwnerIsExtra(z.entities[id], o, f);
        }
        MarkStaysHonest(p, id, {EXTRA}, z.entities[id].(networkOwner := o));
      }
    case Flush(batch) =>
    case Deliver =>
  }

  lemma ChangedFlags(a: EntityState, b: EntityState)
    ensures DELETED !in Changed(a, b) && CREATED !in Changed(a, b)
  {
  }

  lemma OwnerIsExtra(s: EntityState, o: Option<nat>, f: Flag)
    requires f != EXTRA
    ensures Same(f, s.(networkOwner := o), s)
  {
  }

  lemma SpawnStaysHonest(p: Pipe, s: EntityState)
    requires Honest(p) && !DeletionQueued(p.zone, s.entityId)
    ensures Honest(Next(p, Spawn(s)))
  {
    hide Same;
    var q := MarkDirty(p.zone.queue, s.entityId, ALL_BUT_DELETED, s);
    assert CREATED in q[s.entityId].fields;
  }

  // ----- runs -----

  const START: Pipe := Pipe(Zone(map[], map[]), [], map[], map[])

  ghost function Play(steps: seq<Step>): Pipe {
    if steps == [] then START else Next(Play(steps[..|steps| - 1]), steps[|steps| - 1])
  }

  ghost predicate Legal(steps: seq<Step>) {
    steps == [] || (Legal(steps[..|steps| - 1]) && Enabled(Play(steps[..|steps| - 1]), steps[|steps| - 1]))
  }

  /** In every run the aggregated world, the wire and the queue together are the zone's entities,
      and unflagged fields are unchanged since the last flush. */
  lemma {:induction false} EveryRunConsistent(steps: seq<Step>)
    requires Legal(steps)
    ensures Consistent(Play(steps)) && Honest(Play(steps))
  {
    hide Consistent, Honest, Next;
    if steps == [] {
      StartConsistent();
    } else {
      EveryRunConsistent(steps[..|steps| - 1]);
      StepKeepsConsistent(Play(steps[..|steps| - 1]), steps[|steps| - 1]);
      StepKeepsHonest(Play(steps[..|steps| - 1]), steps[|steps| - 1]);
    }
  }

  lemma StartConsistent()
    ensures Consistent(START) && Honest(START)
  {
  }

  /** Once the queue is flushed and the wire is empty, the gateway has exactly the zone's world. */
  lemma QuietMeansEqual(steps: seq<Step>)
    requires Legal(steps) && Play(steps).zone.queue == map[] && Play(steps).inFlight == []
    ensures Play(steps).world == Play(steps).zone.entities
  {
    EveryRunConsistent(steps);
    var p := Play(steps);
    assert Overlay(p.flushed, map[]) == p.flushed;
  }
}
