/** Per-client entity streams at the gateway: area-of-interest filtering, field-level deltas against
    what the client last saw, and deletes on scope exit; followed by the client's own replica. */
module StateAggregator {
  import opened Bytes
  import opened EntityModel
  import opened EntityManager
  import SpatialIndex

  // ----- deltas -----

  /** The changed fields of an entity the client already knows. */
  datatype Delta = Delta(entityId: Id, coords: Option<Vec3>, heading: Option<real>, velocity: Option<Vec3>,
                         health: Option<real>, armour: Option<real>, extra: Option<Extra>,
                         networkOwner: Option<Option<nat>>)

  function Differing<T(==)>(a: T, b: T): Option<T> {
    if a != b then Some(b) else None
  }

  function DeltaOf(baseline: EntityState, current: EntityState): Delta {
    Delta(current.entityId, Differing(baseline.coords, current.coords), Differing(baseline.heading, current.heading),
          Differing(baseline.velocity, current.velocity), Differing(baseline.health, current.health),
          Differing(baseline.armour, current.armour), Differing(baseline.extra, current.extra),
          Differing(baseline.networkOwner, current.networkOwner))
  }

  predicate Empty(d: Delta) {
    && d.coords.None? && d.heading.None? && d.velocity.None? && d.health.None?
    && d.armour.None? && d.extra.None? && d.networkOwner.None?
  }

  function BuildDelta(baseline: EntityState, current: EntityState): Option<Delta> {
    var d := DeltaOf(baseline, current);
    if Empty(d) then None else Some(d)
  }

  /** A known entity with a delta applied. */
  function Patched(s: EntityState, d: Delta): EntityState {
    s.(coords := Or(d.coords, s.coords), heading := Or(d.heading, s.heading), velocity := Or(d.velocity, s.velocity),
       health := Or(d.health, s.health), armour := Or(d.armour, s.armour), extra := Or(d.extra, s.extra),
       networkOwner := Or(d.networkOwner, s.networkOwner))
  }

  /** What a delta cannot express. */
  predicate SameKind(a: EntityState, b: EntityState) {
    a.entityId == b.entityId && a.entityType == b.entityType && a.modelHash == b.modelHash
  }

  /** A delta carries the baseline to the current state exactly when the kind did not change; no
      delta is built exactly when nothing it could carry differs. */
  lemma DeltaExact(baseline: EntityState, current: EntityState)
    ensures Patched(baseline, DeltaOf(baseline, current)) == current <==> SameKind(baseline, current)
    ensures BuildDelta(baseline, current).None? && SameKind(baseline, current) ==> baseline == current
  {
  }

  // ----- one client's tick -----

  datatype Sent = Sent(at: nat, state: EntityState)

  type Tracker = map<Id, Sent>

  datatype Op = Upsert(dirty: DirtyEntity) | DeltaOp(delta: Delta) | Delete(id: Id)

  function OpId(op: Op): Id {
    match op
    case Upsert(d) => d.entityId
    case DeltaOp(d) => d.entityId
    case Delete(id) => id
  }

  /** Who looks, from where, how far, and when; `dist` is the distance between two positions. */
  datatype Viewer = Viewer(source: nat, center: Vec3, radius: real, now: nat, dist: (Vec3, Vec3) -> real)

  function SquaredDistance(a: Vec3, b: Vec3): real {
    (a.0 - b.0) * (a.0 - b.0) + (a.1 - b.1) * (a.1 - b.1) + (a.2 - b.2) * (a.2 - b.2)
  }

  ghost predicate Euclidean(dist: (Vec3, Vec3) -> real) {
    forall a: Vec3, b: Vec3 :: dist(a, b) >= 0.0 && dist(a, b) * dist(a, b) == SquaredDistance(a, b)
  }

  /** Milliseconds between updates of an entity at a distance. */
  function UpdateRate(dist: real): nat {
    if dist.Floor <= 99 then 50 else if dist.Floor <= 299 then 100 else 500
  }

  /** In the area of interest and not the viewer's own. */
  predicate Visible(v: Viewer, s: EntityState) {
    s.networkOwner != Some(v.source) && v.dist(v.center, s.coords) <= v.radius
  }

  /** What a visible entity costs on the wire: a full state when new, nothing when not due or
      unchanged, otherwise a delta. */
  function Act(v: Viewer, tr: Tracker, s: EntityState): Option<Op> {
    if s.entityId !in tr then Some(Upsert(DirtyEntity(s.entityId, ALL_BUT_DELETED, s)))
    else if v.now - tr[s.entityId].at < UpdateRate(v.dist(v.center, s.coords)) then None
    else match BuildDelta(tr[s.entityId].state, s) case None => None case Some(d) => Some(DeltaOp(d))
  }

  /** The tracker after a tick: visible entities only, re-based where something was sent. */
  function Tracked(v: Viewer, w: World, tr: Tracker): Tracker {
    map id | id in w && Visible(v, w[id]) && (id in tr || Act(v, tr, w[id]).Some?) ::
      if Act(v, tr, w[id]).Some? then Sent(v.now, w[id]) else tr[id]
  }

  predicate Keyed(w: World) {
    forall id :: id in w ==> w[id].entityId == id
  }

  /** Whether a tick emits this operation. */
  ghost predicate Emits(v: Viewer, w: World, tr: Tracker, op: Op) {
    match op
    case Delete(id) => id in tr && !(id in w && Visible(v, w[id]))
    case _ => OpId(op) in w && Visible(v, w[OpId(op)]) && Act(v, tr, w[OpId(op)]) == Some(op)
  }

  /** The tick's operations: each emitted one, once, at most one per entity. */
  ghost predicate OpsOf(v: Viewer, w: World, tr: Tracker, ops: seq<Op>) {
    && (forall i, j :: 0 <= i < j < |ops| ==> OpId(ops[i]) != OpId(ops[j]))
    && (forall op :: op in ops <==> Emits(v, w, tr, op))
  }

  /** Candidates: states of the world, none twice, with every visible one among them. */
  ghost predicate CandidatesOf(v: Viewer, cs: seq<EntityState>, w: World) {
    && DistinctStates(cs)
    && (forall i :: 0 <= i < |cs| ==> cs[i].entityId in w && w[cs[i].entityId] == cs[i])
    && (forall id :: id in w && Visible(v, w[id]) ==> w[id] in cs)
  }

  lemma ActId(v: Viewer, tr: Tracker, s: EntityState)
    requires Act(v, tr, s).Some?
    ensures OpId(Act(v, tr, s).value) == s.entityId && !Act(v, tr, s).value.Delete?
  {
  }

  /** Partway through the candidates: who was seen, what is tracked, what was sent. */
  ghost predicate Progress(v: Viewer, cs: seq<EntityState>, k: nat, tr: Tracker, now: Tracker, seen: set<Id>,
                           ops: seq<Op>)
    requires k <= |cs|
  {
    SeenSoFar(v, cs, k, seen) && TrackedSoFar(v, cs, k, tr, now, seen) && SentSoFar(v, cs, k, tr, ops)
  }

  ghost predicate SeenSoFar(v: Viewer, cs: seq<EntityState>, k: nat, seen: set<Id>)
    requires k <= |cs|
  {
    forall id :: id in seen <==> exists i :: 0 <= i < k && cs[i].entityId == id && Visible(v, cs[i])
  }

  ghost predicate TrackedSoFar(v: Viewer, cs: seq<EntityState>, k: nat, tr: Tracker, now: Tracker, seen: set<Id>)
    requires k <= |cs|
  {
    && (forall id :: id in tr ==> id in now)
    && (forall id :: id in now && id !in seen ==> id in tr && now[id] == tr[id])
    && (forall i :: 0 <= i < k && Visible(v, cs[i]) ==>
          var id := cs[i].entityId;
          id in now && now[id] == if Act(v, tr, cs[i]).Some? then Sent(v.now, cs[i])
                                  else if id in tr then tr[id] else now[id])
  }

  ghost predicate SentSoFar(v: Viewer, cs: seq<EntityState>, k: nat, tr: Tracker, ops: seq<Op>)
    requires k <= |cs|
  {
    && (forall op :: op in ops <==> exists i :: 0 <= i < k && Visible(v, cs[i]) && Act(v, tr, cs[i]) == Some(op))
    && (forall i, j :: 0 <= i < j < |ops| ==> OpId(ops[i]) != OpId(ops[j]))
  }

  /** The first half of a tick: looks at each candidate and sends what is due. */
  method SendUpdates(v: Viewer, cs: seq<EntityState>, tr: Tracker) returns (now: Tracker, seen: set<Id>, ops: seq<Op>)
    requires DistinctStates(cs)
    ensures Progress(v, cs, |cs|, tr, now, seen, ops)
  {
    hide Progress, Act, Visible;
    now, seen, ops := tr, {}, [];
    ProgressStart(v, cs, tr);
    for k := 0 to |cs|
      invariant Progress(v, cs, k, tr, now, seen, ops)
    {
      var s := cs[k];
      ProgressStep(v, cs, k, tr, now, seen, ops);
      if Visible(v, s) {
        seen := seen + {s.entityId};
        var act := Act(v, now, s);
        if act.Some? {
          ops := ops + [act.value];
          now := now[s.entityId := Sent(v.now, s)];
        }
      }
    }
  }

  lemma ProgressStart(v: Viewer, cs: seq<EntityState>, tr: Tracker)
    ensures Progress(v, cs, 0, tr, tr, {}, [])
  {
  }

  lemma FreshCandidate(v: Viewer, cs: seq<EntityState>, k: nat, tr: Tracker, now: Tracker, seen: set<Id>, ops: seq<Op>)
    requires DistinctStates(cs) && k < |cs|
    requires Progress(v, cs, k, tr, now, seen, ops)
    ensures cs[k].entityId !in seen && Act(v, now, cs[k]) == Act(v, tr, cs[k])
    ensures forall op :: op in ops ==> OpId(op) != cs[k].entityId
  {
    var id := cs[k].entityId;
    assert id !in seen;
    assert id in now <==> id in tr;
    forall op | op in ops ensures OpId(op) != id {
      var i :| 0 <= i < k && Visible(v, cs[i]) && Act(v, tr, cs[i]) == Some(op);
      ActId(v, tr, cs[i]);
    }
  }

  ghost predicate DistinctStates(cs: seq<EntityState>) {
    forall i, j :: 0 <= i < j < |cs| ==> cs[i].entityId != cs[j].entityId
  }

  lemma SeenStep(v: Viewer, cs: seq<EntityState>, k: nat, seen: set<Id>)
    requires k < |cs| && SeenSoFar(v, cs, k, seen)
    ensures SeenSoFar(v, cs, k + 1, if Visible(v, cs[k]) then seen + {cs[k].entityId} else seen)
  {
    hide Visible;
  }

  lemma TrackedStep(v: Viewer, cs: seq<EntityState>, k: nat, tr: Tracker, now: Tracker, seen: set<Id>)
    requires DistinctStates(cs) && k < |cs| && SeenSoFar(v, cs, k, seen) && TrackedSoFar(v, cs, k, tr, now, seen)
    ensures var s := cs[k];
            if !Visible(v, s) then TrackedSoFar(v, cs, k + 1, tr, now, seen)
            else if Act(v, tr, s).None? then TrackedSoFar(v, cs, k + 1, tr, now, seen + {s.entityId})
            else TrackedSoFar(v, cs, k + 1, tr, now[s.entityId := Sent(v.now, s)], seen + {s.entityId})
  {
    hide Act, Visible;
    var s := cs[k];
    if Act(v, tr, s).None? {
      NoActMeansTracked(v, tr, s);
      assert s.entityId !in seen;
    }
  }

  lemma SentStep(v: Viewer, cs: seq<EntityState>, k: nat, tr: Tracker, ops: seq<Op>)
    requires DistinctStates(cs) && k < |cs| && SentSoFar(v, cs, k, tr, ops)
    ensures var s := cs[k];
            if !Visible(v, s) || Act(v, tr, s).None? then SentSoFar(v, cs, k + 1, tr, ops)
            else SentSoFar(v, cs, k + 1, tr, ops + [Act(v, tr, s).value])
  {
    hide Act, Visible, OpId;
    var s := cs[k];
    if Visible(v, s) && Act(v, tr, s).Some? {
      ActId(v, tr, s);
      var op := Act(v, tr, s).value;
      forall i | 0 <= i < |ops| ensures OpId(ops[i]) != OpId(op) {
        assert ops[i] in ops;
        var m :| 0 <= m < k && Visible(v, cs[m]) && Act(v, tr, cs[m]) == Some(ops[i]);
        ActId(v, tr, cs[m]);
      }
    }
  }

  lemma ProgressStep(v: Viewer, cs: seq<EntityState>, k: nat, tr: Tracker, now: Tracker, seen: set<Id>, ops: seq<Op>)
    requires DistinctStates(cs) && k < |cs| && Progress(v, cs, k, tr, now, seen, ops)
    ensures var s := cs[k]; var act := Act(v, now, s);
            if !Visible(v, s) then Progress(v, cs, k + 1, tr, now, seen, ops)
            else if act.None? then Progress(v, cs, k + 1, tr, now, seen + {s.entityId}, ops)
            else Progress(v, cs, k + 1, tr, now[s.entityId := Sent(v.now, s)], seen + {s.entityId}, ops + [act.value])
  {
    FreshCandidate(v, cs, k, tr, now, seen, ops);
    hide Act, Visible, OpId, SeenSoFar, TrackedSoFar, SentSoFar;
    SeenStep(v, cs, k, seen);
    TrackedStep(v, cs, k, tr, now, seen);
    SentStep(v, cs, k, tr, ops);
  }

  lemma NoActMeansTracked(v: Viewer, tr: Tracker, s: EntityState)
    requires Act(v, tr, s).None?
    ensures s.entityId in tr
  {
  }

  /** The second half of a tick: what the client knew and no longer sees is deleted and forgotten. */
  method DropUnseen(now: Tracker, seen: set<Id>, start: seq<Op>) returns (kept: Tracker, ops: seq<Op>)
    ensures kept == map id | id in now && id in seen :: now[id]
    ensures |start| <= |ops| && ops[..|start|] == start
    ensures forall i :: |start| <= i < |ops| ==> ops[i].Delete?
    ensures forall id :: Delete(id) in ops[|start|..] <==> id in now && id !in seen
    ensures forall i, j :: |start| <= i < j < |ops| ==> ops[i] != ops[j]
  {
    kept, ops := now, start;
    var todo := now.Keys;
    while todo != {}
      invariant todo <= now.Keys
      invariant kept == map id | id in now && (id in todo || id in seen) :: now[id]
      invariant |start| <= |ops| && ops[..|start|] == start
      invariant forall i :: |start| <= i < |ops| ==> ops[i].Delete?
      invariant forall id :: Delete(id) in ops[|start|..] <==> id in now && id !in todo && id !in seen
      invariant forall i, j :: |start| <= i < j < |ops| ==> ops[i] != ops[j]
      decreases todo
    {
      var id :| id in todo;
      todo := todo - {id};
      if id !in seen {
        ghost var tail := ops[|start|..];
        assert Delete(id) !in tail;
        assert forall i :: |start| <= i < |ops| ==> ops[i] == tail[i - |start|];
        ops := ops + [Delete(id)];
        assert ops[|start|..] == tail + [Delete(id)];
        kept := kept - {id};
      }
    }
  }

  /** One client's operations for a tick, from any candidate list that covers the area of interest. */
  method ComputeClientOps(v: Viewer, cs: seq<EntityState>, tracker: Tracker, ghost w: World)
      returns (tr: Tracker, ops: seq<Op>)
    requires CandidatesOf(v, cs, w) && Keyed(w)
    ensures tr == Tracked(v, w, tracker)
    ensures OpsOf(v, w, tracker, ops)
  {
    hide Act, Visible, OpsOf, Tracked, Progress, CandidatesOf;
    CandidatesDistinct(v, cs, w);
    var now, seen, updates := SendUpdates(v, cs, tracker);
    tr, ops := DropUnseen(now, seen, updates);
    SeenExactly(v, cs, w, tracker, now, seen, updates);
    TrackedExactly(v, cs, w, tracker, now, seen, updates);
    OpsExactly(v, cs, w, tracker, now, seen, updates, ops);
  }

  lemma CandidatesDistinct(v: Viewer, cs: seq<EntityState>, w: World)
    requires CandidatesOf(v, cs, w)
    ensures DistinctStates(cs)
  {
  }

  lemma SeenExactly(v: Viewer, cs: seq<EntityState>, w: World, tr: Tracker, now: Tracker, seen: set<Id>, ops: seq<Op>)
    requires CandidatesOf(v, cs, w) && Keyed(w) && Progress(v, cs, |cs|, tr, now, seen, ops)
    ensures forall id :: id in seen <==> id in w && Visible(v, w[id])
  {
    hide Visible, TrackedSoFar, SentSoFar;
    forall id | id in w && Visible(v, w[id]) ensures id in seen {
      var i :| 0 <= i < |cs| && cs[i] == w[id];
    }
  }

  lemma TrackedExactly(v: Viewer, cs: seq<EntityState>, w: World, tr: Tracker, now: Tracker, seen: set<Id>,
                       ops: seq<Op>)
    requires CandidatesOf(v, cs, w) && Keyed(w) && Progress(v, cs, |cs|, tr, now, seen, ops)
    requires forall id :: id in seen <==> id in w && Visible(v, w[id])
    ensures (map id | id in now && id in seen :: now[id]) == Tracked(v, w, tr)
  {
    hide Visible, Act, SentSoFar;
    forall id | id in seen ensures id in now && (id in tr || Act(v, tr, w[id]).Some?)
        && now[id] == if Act(v, tr, w[id]).Some? then Sent(v.now, w[id]) else tr[id]
    {
      var i :| 0 <= i < |cs| && cs[i] == w[id];
      if Act(v, tr, w[id]).None? {
        NoActMeansTracked(v, tr, w[id]);
      }
    }
  }

  lemma OpsExactly(v: Viewer, cs: seq<EntityState>, w: World, tr: Tracker, now: Tracker, seen: set<Id>,
                   updates: seq<Op>, ops: seq<Op>)
    requires CandidatesOf(v, cs, w) && Keyed(w) && Progress(v, cs, |cs|, tr, now, seen, updates)
    requires forall id :: id in seen <==> id in w && Visible(v, w[id])
    requires |updates| <= |ops| && ops[..|updates|] == updates
    requires forall i :: |updates| <= i < |ops| ==> ops[i].Delete?
    requires forall id :: Delete(id) in ops[|updates|..] <==> id in now && id !in seen
    requires forall i, j :: |updates| <= i < j < |ops| ==> ops[i] != ops[j]
    ensures OpsOf(v, w, tr, ops)
  {
    hide Visible, Act;
    var n := |updates|;
    var deletes := ops[n..];
    assert ops == updates + deletes;
    forall op | op in updates ensures !op.Delete? && OpId(op) in seen && Act(v, tr, w[OpId(op)]) == Some(op) {
      var i :| 0 <= i < |cs| && Visible(v, cs[i]) && Act(v, tr, cs[i]) == Some(op);
      ActId(v, tr, cs[i]);
    }
    forall op ensures op in ops <==> Emits(v, w, tr, op) {
      EmittedExactly(v, cs, w, tr, now, seen, updates, deletes, op);
    }
    OneEach(v, cs, tr, now, seen, updates, deletes);
  }

  /** No entity is named twice: not among the updates, nor the deletes, nor across them. */
  lemma OneEach(v: Viewer, cs: seq<EntityState>, tr: Tracker, now: Tracker, seen: set<Id>, updates: seq<Op>,
                deletes: seq<Op>)
    requires Progress(v, cs, |cs|, tr, now, seen, updates)
    requires forall op :: op in updates ==> OpId(op) in seen
    requires forall i :: 0 <= i < |deletes| ==> deletes[i].Delete?
    requires forall id :: Delete(id) in deletes ==> id !in seen
    requires forall i, j :: 0 <= i < j < |deletes| ==> deletes[i] != deletes[j]
    ensures var ops := updates + deletes; forall i, j :: 0 <= i < j < |ops| ==> OpId(ops[i]) != OpId(ops[j])
  {
    hide Visible, Act, SeenSoFar, TrackedSoFar;
    var ops, n := updates + deletes, |updates|;
    forall i, j | 0 <= i < j < |ops| ensures OpId(ops[i]) != OpId(ops[j]) {
      if i < n {
        assert ops[i] == updates[i] && updates[i] in updates;
        if j < n {
          assert ops[j] == updates[j];
        } else {
          assert ops[j] == deletes[j - n] && deletes[j - n] in deletes;
        }
      } else {
        assert ops[i] == deletes[i - n] && ops[j] == deletes[j - n];
      }
    }
  }

  lemma EmittedExactly(v: Viewer, cs: seq<EntityState>, w: World, tr: Tracker, now: Tracker, seen: set<Id>,
                       updates: seq<Op>, deletes: seq<Op>, op: Op)
    requires CandidatesOf(v, cs, w) && Keyed(w) && Progress(v, cs, |cs|, tr, now, seen, updates)
    requires forall id :: id in seen <==> id in w && Visible(v, w[id])
    requires forall i :: 0 <= i < |deletes| ==> deletes[i].Delete?
    requires forall id :: Delete(id) in deletes <==> id in now && id !in seen
    requires forall op :: op in updates ==> !op.Delete? && OpId(op) in seen && Act(v, tr, w[OpId(op)]) == Some(op)
    ensures op in updates + deletes <==> Emits(v, w, tr, op)
  {
    hide Visible, Act, SeenSoFar;
    if op.Delete? {
      assert op.id in now && op.id !in seen <==> op.id in tr && op.id !in seen;
    } else {
      assert op !in deletes;
      if Emits(v, w, tr, op) {
        var i :| 0 <= i < |cs| && cs[i] == w[OpId(op)];
        assert op in updates;
      }
    }
  }

  // ----- the client's replica -----

  function Applied(r: World, op: Op): World {
    match op
    case Upsert(d) => r[d.entityId := d.state]
    case DeltaOp(d) => if d.entityId in r then r[d.entityId := Patched(r[d.entityId], d)] else r
    case Delete(id) => r - {id}
  }

  function AppliedAll(r: World, ops: seq<Op>): World {
    if ops == [] then r else Applied(AppliedAll(r, ops[..|ops| - 1]), ops[|ops| - 1])
  }

  function Baselines(tr: Tracker): World {
    map id | id in tr :: tr[id].state
  }

  /** The two replicas agree about one entity. */
  predicate AgreeAt(a: World, b: World, id: Id) {
    (id in a <==> id in b) && (id in a ==> a[id] == b[id])
  }

  /** With at most one operation per entity, each entity sees only its own. */
  lemma {:induction false} AppliedPointwise(r: World, ops: seq<Op>, id: Id)
    requires forall i, j :: 0 <= i < j < |ops| ==> OpId(ops[i]) != OpId(ops[j])
    ensures (forall i :: 0 <= i < |ops| ==> OpId(ops[i]) != id) ==> AgreeAt(AppliedAll(r, ops), r, id)
    ensures forall i :: 0 <= i < |ops| && OpId(ops[i]) == id ==> AgreeAt(AppliedAll(r, ops), Applied(r, ops[i]), id)
  {
    hide Patched;
    if ops != [] {
      var n := |ops| - 1;
      AppliedPointwise(r, ops[..n], id);
      assert forall i :: 0 <= i < n ==> ops[..n][i] == ops[i];
    }
  }

  /** No entity sent as a delta changed its kind since the client last saw it. */
  ghost predicate KindsKept(v: Viewer, w: World, tr: Tracker) {
    forall id :: id in w && id in tr && Visible(v, w[id]) && Act(v, tr, w[id]).Some? ==> SameKind(tr[id].state, w[id])
  }

  lemma AtOneEntity(v: Viewer, w: World, tr: Tracker, ops: seq<Op>, id: Id)
    requires Keyed(w) && OpsOf(v, w, tr, ops)
    ensures AgreeAt(AppliedAll(Baselines(tr), ops), Baselines(Tracked(v, w, tr)), id)
       <==> (id in w && id in tr && Visible(v, w[id]) && Act(v, tr, w[id]).Some? ==> SameKind(tr[id].state, w[id]))
  {
    hide AppliedAll, Patched, Visible, OpsOf;
    var r, tr' := Baselines(tr), Tracked(v, w, tr);
    OpsPointwise(v, w, tr, ops, r, id);
    if id in w && Visible(v, w[id]) {
      var act := Act(v, tr, w[id]);
      if act.Some? {
        if id in tr {
          DeltaExact(tr[id].state, w[id]);
        }
        OpsPick(v, w, tr, ops, r, act.value);
      } else {
        OpsSkip(v, w, tr, ops, r, id);
      }
    } else if id in tr {
      OpsPick(v, w, tr, ops, r, Delete(id));
    } else {
      OpsSkip(v, w, tr, ops, r, id);
    }
  }

  lemma OpsPointwise(v: Viewer, w: World, tr: Tracker, ops: seq<Op>, r: World, id: Id)
    requires OpsOf(v, w, tr, ops)
    ensures (forall op :: op in ops ==> OpId(op) != id) ==> AgreeAt(AppliedAll(r, ops), r, id)
  {
    hide AppliedAll, Emits;
    AppliedPointwise(r, ops, id);
    assert forall i :: 0 <= i < |ops| ==> ops[i] in ops;
  }

  /** An emitted operation decides its entity. */
  lemma OpsPick(v: Viewer, w: World, tr: Tracker, ops: seq<Op>, r: World, op: Op)
    requires OpsOf(v, w, tr, ops) && Emits(v, w, tr, op)
    ensures AgreeAt(AppliedAll(r, ops), Applied(r, op), OpId(op))
  {
    hide AppliedAll, Applied, Emits;
    assert op in ops;
    AppliedPointwise(r, ops, OpId(op));
    var i :| 0 <= i < |ops| && ops[i] == op;
  }

  /** An entity without an operation is left alone. */
  lemma OpsSkip(v: Viewer, w: World, tr: Tracker, ops: seq<Op>, r: World, id: Id)
    requires OpsOf(v, w, tr, ops)
    requires id in w && Visible(v, w[id]) ==> Act(v, tr, w[id]).None?
    requires !(id in w && Visible(v, w[id])) ==> id !in tr
    ensures AgreeAt(AppliedAll(r, ops), r, id)
  {
    hide AppliedAll, Visible, Act;
    forall op | op in ops ensures OpId(op) != id {
      assert Emits(v, w, tr, op);
    }
    OpsPointwise(v, w, tr, ops, r, id);
  }

  /** A replica equal to the tracker's baselines stays equal through a tick exactly when no entity
      sent as a delta changed its type or model. */
  lemma ReplicaFollowsExactly(v: Viewer, w: World, tr: Tracker, ops: seq<Op>)
    requires Keyed(w) && OpsOf(v, w, tr, ops)
    ensures AppliedAll(Baselines(tr), ops) == Baselines(Tracked(v, w, tr)) <==> KindsKept(v, w, tr)
  {
    hide AppliedAll, Visible, Act, OpsOf, Baselines, Tracked, SameKind;
    var a, b := AppliedAll(Baselines(tr), ops), Baselines(Tracked(v, w, tr));
    forall id ensures AgreeAt(a, b, id)
        <==> (id in w && id in tr && Visible(v, w[id]) && Act(v, tr, w[id]).Some? ==> SameKind(tr[id].state, w[id]))
    {
      AtOneEntity(v, w, tr, ops, id);
    }
    if KindsKept(v, w, tr) {
      AgreeEverywhere(a, b);
    }
  }

  lemma AgreeEverywhere(a: World, b: World)
    requires forall id :: AgreeAt(a, b, id)
    ensures a == b
  {
    forall id ensures (id in a <==> id in b) && (id in a ==> a[id] == b[id]) {
      assert AgreeAt(a, b, id);
    }
  }

  /** Leaving scope gives one Delete, and only leaving scope does; the next tick has none for it. */
  lemma ExitsAreDeletedOnce(v: Viewer, w: World, tr: Tracker, ops: seq<Op>, id: Id)
    requires OpsOf(v, w, tr, ops)
    ensures multiset(ops)[Delete(id)] == if id in tr && !(id in w && Visible(v, w[id])) then 1 else 0
    ensures Delete(id) in ops ==> id !in Tracked(v, w, tr)
  {
    hide Visible, Act;
    if Delete(id) in ops {
      var i :| 0 <= i < |ops| && ops[i] == Delete(id);
      assert ops == ops[..i] + [ops[i]] + ops[i + 1..];
      assert Delete(id) !in ops[..i] && Delete(id) !in ops[i + 1..] by {
        assert forall j :: 0 <= j < |ops| && j != i ==> OpId(ops[j]) != id;
      }
    }
  }

  /** Two runs of the same tick emit the same operations, whatever candidates they started from. */
  lemma SameOps(v: Viewer, w: World, tr: Tracker, a: seq<Op>, b: seq<Op>)
    requires OpsOf(v, w, tr, a) && OpsOf(v, w, tr, b)
    ensures multiset(a) == multiset(b)
  {
    hide Emits;
    forall op ensures multiset(a)[op] == multiset(b)[op] {
      CountsOnce(a, op);
      CountsOnce(b, op);
      assert op in a <==> op in b;
    }
  }

  lemma CountsOnce(ops: seq<Op>, op: Op)
    requires forall i, j :: 0 <= i < j < |ops| ==> OpId(ops[i]) != OpId(ops[j])
    ensures multiset(ops)[op] == if op in ops then 1 else 0
  {
    if op in ops {
      var i :| 0 <= i < |ops| && ops[i] == op;
      assert ops == ops[..i] + [op] + ops[i + 1..];
      assert op !in ops[..i] && op !in ops[i + 1..] by {
        assert forall j :: 0 <= j < |ops| && j != i ==> ops[j] != op;
      }
    }
  }

  // ----- runs -----

  datatype Tick = Tick(v: Viewer, w: World, ops: seq<Op>)

  function TrackerAfter(ticks: seq<Tick>): Tracker {
    if ticks == [] then map[] else var t := ticks[|ticks| - 1]; Tracked(t.v, t.w, TrackerAfter(ticks[..|ticks| - 1]))
  }

  function ReplicaAfter(ticks: seq<Tick>): World {
    if ticks == [] then map[] else AppliedAll(ReplicaAfter(ticks[..|ticks| - 1]), ticks[|ticks| - 1].ops)
  }

  /** Every entity of the world has the kind given for its id. */
  ghost predicate OfKind(w: World, kind: Id -> (EntityType, nat)) {
    forall id :: id in w ==> w[id].entityId == id && (w[id].entityType, w[id].modelHash) == kind(id)
  }

  ghost predicate GoodRun(ticks: seq<Tick>, kind: Id -> (EntityType, nat)) {
    forall k :: 0 <= k < |ticks| ==>
      OfKind(ticks[k].w, kind) && OpsOf(ticks[k].v, ticks[k].w, TrackerAfter(ticks[..k]), ticks[k].ops)
  }

  /** Milliseconds that must pass between updates of an entity at a distance. */
  predicate Rested(dist: real, elapsed: int) {
    elapsed >= if dist < 100.0 then 50 else if dist < 300.0 then 100 else 500
  }

  /** Everything a delta carries is the same. */
  predicate SameFields(a: EntityState, b: EntityState) {
    && a.coords == b.coords && a.heading == b.heading && a.velocity == b.velocity && a.health == b.health
    && a.armour == b.armour && a.extra == b.extra && a.networkOwner == b.networkOwner
  }

  /** Whether an entity is the viewer's to see, and what then is due: in plain terms. */
  lemma SightExactly(v: Viewer, tr: Tracker, s: EntityState)
    ensures Visible(v, s) <==> s.networkOwner != Some(v.source) && v.dist(v.center, s.coords) <= v.radius
    ensures s.entityId in tr ==> (Due(v, tr, s) <==> Rested(v.dist(v.center, s.coords), v.now - tr[s.entityId].at))
  {
  }

  /** What a tick sends about an entity of the world: nothing of the viewer's own or out of its radius;
      otherwise the whole state when the client does not have it, and when it does, a delta exactly when
      enough time has passed and some field differs. */
  lemma OpsSayExactly(v: Viewer, w: World, tr: Tracker, ops: seq<Op>, id: Id)
    requires Keyed(w) && OpsOf(v, w, tr, ops) && id in w
    ensures var s := w[id]; var seen := s.networkOwner != Some(v.source) && v.dist(v.center, s.coords) <= v.radius;
            && ((exists d :: Upsert(d) in ops && d.entityId == id) <==> seen && id !in tr)
            && (Upsert(DirtyEntity(id, ALL_BUT_DELETED, s)) in ops <==> seen && id !in tr)
            && ((exists d :: DeltaOp(d) in ops && d.entityId == id) <==>
                  && seen && id in tr && !SameFields(tr[id].state, s)
                  && Rested(v.dist(v.center, s.coords), v.now - tr[id].at))
  {
    hide Visible, Act, Rested, SameFields;
    var s := w[id];
    SightExactly(v, tr, s);
    ActExactly(v, tr, s);
    assert forall d :: Upsert(d) in ops && d.entityId == id ==> Visible(v, s) && Act(v, tr, s) == Some(Upsert(d));
    assert forall d :: DeltaOp(d) in ops && d.entityId == id ==> Visible(v, s) && Act(v, tr, s) == Some(DeltaOp(d));
    if Visible(v, s) && Act(v, tr, s).Some? {
      ActId(v, tr, s);
      assert Act(v, tr, s).value in ops;
    }
  }

  /** What the tracker remembers after a tick: exactly the entities in sight, with this tick's time and state
      where something was sent, and as before where nothing was. */
  lemma TrackerSaysExactly(v: Viewer, w: World, tr: Tracker, id: Id)
    requires Keyed(w)
    ensures var now := Tracked(v, w, tr);
            && (id in now <==>
                  id in w && w[id].networkOwner != Some(v.source) && v.dist(v.center, w[id].coords) <= v.radius)
            && (id in now ==>
                  var sent := id in tr ==> !SameFields(tr[id].state, w[id]) &&
                                           Rested(v.dist(v.center, w[id].coords), v.now - tr[id].at);
                  now[id] == if sent then Sent(v.now, w[id]) else tr[id])
  {
    hide Visible, Act, Rested, SameFields;
    if id in w {
      SightExactly(v, tr, w[id]);
      ActExactly(v, tr, w[id]);
    }
  }

  lemma ActExactly(v: Viewer, tr: Tracker, s: EntityState)
    ensures s.entityId !in tr ==> Act(v, tr, s) == Some(Upsert(DirtyEntity(s.entityId, ALL_BUT_DELETED, s)))
    ensures s.entityId in tr ==>
              var was := tr[s.entityId].state;
              && (Act(v, tr, s).Some? ==>
                    Act(v, tr, s).value.DeltaOp? && Act(v, tr, s).value.delta.entityId == s.entityId)
              && (Act(v, tr, s).Some? <==> Due(v, tr, s) && !SameFields(was, s))
  {
  }

  lemma {:induction false} BaselinesOfKind(ticks: seq<Tick>, kind: Id -> (EntityType, nat))
    requires GoodRun(ticks, kind)
    ensures OfKind(Baselines(TrackerAfter(ticks)), kind)
  {
    hide Visible, Act, OpsOf;
    if ticks != [] {
      var n := |ticks| - 1;
      RunPrefix(ticks, kind);
      BaselinesOfKind(ticks[..n], kind);
    }
  }

  lemma RunPrefix(ticks: seq<Tick>, kind: Id -> (EntityType, nat))
    requires GoodRun(ticks, kind) && ticks != []
    ensures GoodRun(ticks[..|ticks| - 1], kind)
  {
    hide OpsOf, OfKind;
    var before := ticks[..|ticks| - 1];
    forall k | 0 <= k < |before|
      ensures OfKind(before[k].w, kind) && OpsOf(before[k].v, before[k].w, TrackerAfter(before[..k]), before[k].ops)
    {
      assert before[k] == ticks[k] && before[..k] == ticks[..k];
    }
  }

  /** In every run where an id keeps its type and model, the client's replica equals the tracker's
      baselines after every tick. */
  lemma {:induction false} ReplicaFollowsEveryRun(ticks: seq<Tick>, kind: Id -> (EntityType, nat))
    requires GoodRun(ticks, kind)
    ensures ReplicaAfter(ticks) == Baselines(TrackerAfter(ticks))
  {
    hide Visible, Act, OpsOf, AppliedAll, Tracked;
    if ticks != [] {
      var n := |ticks| - 1;
      var t, before := ticks[n], ticks[..n];
      RunPrefix(ticks, kind);
      ReplicaFollowsEveryRun(before, kind);
      BaselinesOfKind(before, kind);
      var tr := TrackerAfter(before);
      assert KindsKept(t.v, t.w, tr) by {
        forall id | id in t.w && id in tr ensures SameKind(tr[id].state, t.w[id]) {
          assert id in Baselines(tr);
        }
      }
      ReplicaFollowsExactly(t.v, t.w, tr, t.ops);
    }
  }

  /** Everything the viewer should see. */
  function VisiblePart(v: Viewer, w: World): World {
    map id | id in w && Visible(v, w[id]) :: w[id]
  }

  /** Is a tracked entity's next update due? */
  predicate Due(v: Viewer, tr: Tracker, s: EntityState)
    requires s.entityId in tr
  {
    v.now - tr[s.entityId].at >= UpdateRate(v.dist(v.center, s.coords))
  }

  /** Every visible entity that is not new is due, or is as the client last saw it. */
  ghost predicate NothingHeldBack(v: Viewer, w: World, tr: Tracker)
    requires Keyed(w)
  {
    forall id :: id in w && Visible(v, w[id]) && id in tr ==> Due(v, tr, w[id]) || tr[id].state == w[id]
  }

  lemma UpToDateAt(v: Viewer, w: World, tr: Tracker, id: Id)
    requires Keyed(w) && id in w && Visible(v, w[id]) && (id in tr ==> SameKind(tr[id].state, w[id]))
    ensures id in Tracked(v, w, tr)
    ensures Tracked(v, w, tr)[id].state == w[id] <==> (id in tr ==> Due(v, tr, w[id]) || tr[id].state == w[id])
  {
    hide Visible, UpdateRate, DeltaOf;
    if id in tr {
      DeltaExact(tr[id].state, w[id]);
    }
  }

  lemma BaselinesUpToDate(v: Viewer, w: World, tr: Tracker)
    requires Keyed(w) && forall id :: id in w && id in tr ==> SameKind(tr[id].state, w[id])
    ensures Baselines(Tracked(v, w, tr)) == VisiblePart(v, w) <==> NothingHeldBack(v, w, tr)
  {
    hide Visible, Act, Due, SameKind;
    var now := Tracked(v, w, tr);
    forall id | id in w && Visible(v, w[id])
      ensures id in now && (now[id].state == w[id] <==> (id in tr ==> Due(v, tr, w[id]) || tr[id].state == w[id]))
    {
      UpToDateAt(v, w, tr, id);
    }
    if !NothingHeldBack(v, w, tr) {
      var id :| id in w && Visible(v, w[id]) && id in tr && !(Due(v, tr, w[id]) || tr[id].state == w[id]);
      assert Baselines(now)[id] != VisiblePart(v, w)[id];
    }
  }

  /** A tick leaves the client with exactly what it should see if and only if nothing is held back. */
  lemma CaughtUpExactly(ticks: seq<Tick>, kind: Id -> (EntityType, nat))
    requires GoodRun(ticks, kind) && ticks != []
    ensures var n := |ticks| - 1;
            && Keyed(ticks[n].w)
            && (ReplicaAfter(ticks) == VisiblePart(ticks[n].v, ticks[n].w) <==>
                  NothingHeldBack(ticks[n].v, ticks[n].w, TrackerAfter(ticks[..n])))
  {
    hide OpsOf, ReplicaAfter, Tracked, VisiblePart, NothingHeldBack;
    var n := |ticks| - 1;
    var w, tr := ticks[n].w, TrackerAfter(ticks[..n]);
    RunPrefix(ticks, kind);
    BaselinesOfKind(ticks[..n], kind);
    ReplicaFollowsEveryRun(ticks, kind);
    forall id | id in w && id in tr ensures SameKind(tr[id].state, w[id]) {
      assert id in Baselines(tr);
    }
    BaselinesUpToDate(ticks[n].v, w, tr);
  }

  // ----- the grid -----

  datatype Grid = Grid(cell: real, cells: map<SpatialIndex.Cell, seq<EntityState>>)

  function CellFor(s: EntityState, size: real): SpatialIndex.Cell
    requires size > 0.0
  {
    SpatialIndex.CellOf(s.coords.0, s.coords.1, size)
  }

  function Bucket(g: Grid, c: SpatialIndex.Cell): seq<EntityState> {
    if c in g.cells then g.cells[c] else []
  }

  /** The bucket of a cell lists, once each, the listed entities whose cell it is. */
  ghost predicate BucketOf(g: Grid, w: World, ids: set<Id>, c: SpatialIndex.Cell)
    requires g.cell > 0.0
  {
    && DistinctStates(Bucket(g, c))
    && forall s :: s in Bucket(g, c) <==>
        s.entityId in ids && s.entityId in w && w[s.entityId] == s && CellFor(s, g.cell) == c
  }

  ghost predicate GridOf(g: Grid, w: World, ids: set<Id>) {
    g.cell > 0.0 && forall c :: BucketOf(g, w, ids, c)
  }

  method BuildGrid(w: World, radius: real) returns (g: Grid)
    requires Keyed(w)
    ensures GridOf(g, w, w.Keys) && g.cell >= radius
  {
    hide BucketOf, CellFor;
    var size := (if radius > 1.0 then radius else 1.0) * 1.05;
    g := Grid(size, map[]);
    ghost var done: set<Id> := {};
    var todo := w.Keys;
    forall c ensures BucketOf(g, w, done, c) { EmptyBucket(g, w, c); }
    while todo != {}
      invariant todo <= w.Keys && done == w.Keys - todo
      invariant GridOf(g, w, done) && g.cell == size
      decreases todo
    {
      var id :| id in todo;
      todo := todo - {id};
      var s := w[id];
      var c := CellFor(s, size);
      GridGrows(g, w, done, s);
      g := g.(cells := g.cells[c := (if c in g.cells then g.cells[c] else []) + [s]]);
      done := done + {id};
    }
    assert done == w.Keys;
  }

  /** Filing one more entity under its cell. */
  lemma GridGrows(g: Grid, w: World, ids: set<Id>, s: EntityState)
    requires GridOf(g, w, ids) && s.entityId in w && w[s.entityId] == s && s.entityId !in ids
    ensures var c := CellFor(s, g.cell); GridOf(g.(cells := g.cells[c := Bucket(g, c) + [s]]), w, ids + {s.entityId})
  {
    hide CellFor;
    var own := CellFor(s, g.cell);
    var g' := g.(cells := g.cells[own := Bucket(g, own) + [s]]);
    forall c ensures BucketOf(g', w, ids + {s.entityId}, c) {
      assert BucketOf(g, w, ids, c);
      if c == own {
        BucketGrows(Bucket(g, c), s);
      }
    }
  }

  lemma EmptyBucket(g: Grid, w: World, c: SpatialIndex.Cell)
    requires g.cell > 0.0 && g.cells == map[]
    ensures BucketOf(g, w, {}, c)
  {
  }

  lemma BucketGrows(bucket: seq<EntityState>, s: EntityState)
    requires DistinctStates(bucket) && forall x :: x in bucket ==> x.entityId != s.entityId
    ensures DistinctStates(bucket + [s])
  {
    assert forall i :: 0 <= i < |bucket| ==> bucket[i] in bucket;
  }

  function Gathered(g: Grid, c: SpatialIndex.Cell, k: nat): seq<EntityState> {
    if k == 0 then [] else Gathered(g, c, k - 1) + Bucket(g, SpatialIndex.Neighbour(c, k - 1))
  }

  /** The states of the 3x3 block around a point. */
  method Candidates(g: Grid, center: Vec3) returns (cs: seq<EntityState>)
    requires g.cell > 0.0
    ensures cs == Gathered(g, SpatialIndex.CellOf(center.0, center.1, g.cell), 9)
  {
    var c := SpatialIndex.CellOf(center.0, center.1, g.cell);
    cs := [];
    for dx := -1 to 2
      invariant cs == Gathered(g, c, 3 * (dx + 1))
    {
      for dy := -1 to 2
        invariant cs == Gathered(g, c, 3 * (dx + 1) + (dy + 1))
      {
        var cell := (c.0 + dx, c.1 + dy);
        assert SpatialIndex.Neighbour(c, 3 * (dx + 1) + (dy + 1)) == cell;
        cs := cs + Bucket(g, cell);
      }
    }
  }

  lemma {:induction false} GatheredExact(g: Grid, w: World, c: SpatialIndex.Cell, k: nat, s: EntityState)
    requires GridOf(g, w, w.Keys)
    ensures s in Gathered(g, c, k) <==>
              && s.entityId in w && w[s.entityId] == s
              && exists m :: 0 <= m < k && CellFor(s, g.cell) == SpatialIndex.Neighbour(c, m)
  {
    hide CellFor;
    if k != 0 {
      GatheredExact(g, w, c, k - 1, s);
      assert BucketOf(g, w, w.Keys, SpatialIndex.Neighbour(c, k - 1));
    }
  }

  lemma {:induction false} GatheredOnce(g: Grid, w: World, c: SpatialIndex.Cell, k: nat)
    requires GridOf(g, w, w.Keys) && k <= 9
    ensures DistinctStates(Gathered(g, c, k))
  {
    hide CellFor;
    if k != 0 {
      GatheredOnce(g, w, c, k - 1);
      var a, cell := Gathered(g, c, k - 1), SpatialIndex.Neighbour(c, k - 1);
      var b := Bucket(g, cell);
      assert BucketOf(g, w, w.Keys, cell);
      forall i, j | 0 <= i < |a| && 0 <= j < |b| ensures a[i].entityId != b[j].entityId {
        assert a[i] in a && b[j] in b;
        GatheredExact(g, w, c, k - 1, a[i]);
        var m :| 0 <= m < k - 1 && CellFor(a[i], g.cell) == SpatialIndex.Neighbour(c, m);
        SpatialIndex.NeighboursDiffer(c, m, k - 1);
      }
    }
  }

  lemma SquaredParts(dx: real, dy: real, dz: real, d: real, r: real)
    requires 0.0 <= d <= r && d * d == dx * dx + dy * dy + dz * dz
    ensures dx * dx <= r * r && dy * dy <= r * r
  {
    assert dx * dx >= 0.0 && dy * dy >= 0.0 && dz * dz >= 0.0;
    if d < r {
      SpatialIndex.SquareGrows(d, r);
    }
  }

  /** The grid's candidates cover the area of interest, so a tick on them is a tick on the world. */
  lemma GridIsCandidates(v: Viewer, w: World, g: Grid)
    requires Keyed(w) && Euclidean(v.dist) && GridOf(g, w, w.Keys) && g.cell >= v.radius
    ensures CandidatesOf(v, Gathered(g, SpatialIndex.CellOf(v.center.0, v.center.1, g.cell), 9), w)
  {
    var c := SpatialIndex.CellOf(v.center.0, v.center.1, g.cell);
    var cs := Gathered(g, c, 9);
    GatheredOnce(g, w, c, 9);
    forall i | 0 <= i < |cs| ensures cs[i].entityId in w && w[cs[i].entityId] == cs[i] {
      assert cs[i] in cs;
      GatheredExact(g, w, c, 9, cs[i]);
    }
    forall id | id in w && Visible(v, w[id]) ensures w[id] in cs {
      VisibleIsNear(v, w[id], g.cell);
      GatheredExact(g, w, c, 9, w[id]);
    }
  }

  lemma VisibleIsNear(v: Viewer, s: EntityState, size: real)
    requires Euclidean(v.dist) && size > 0.0 && size >= v.radius && Visible(v, s)
    ensures exists m :: 0 <= m < 9 &&
              CellFor(s, size) == SpatialIndex.Neighbour(SpatialIndex.CellOf(v.center.0, v.center.1, size), m)
  {
    var d := v.dist(v.center, s.coords);
    var dx, dy, dz := v.center.0 - s.coords.0, v.center.1 - s.coords.1, v.center.2 - s.coords.2;
    assert d * d == SquaredDistance(v.center, s.coords);
    SquaredParts(dx, dy, dz, d, v.radius);
    SpatialIndex.SquareBound(dx, v.radius);
    SpatialIndex.SquareBound(dy, v.radius);
    var m := SpatialIndex.InBlock(s.coords.0, s.coords.1, v.center.0, v.center.1, size);
  }

  /** A whole client tick through the grid. */
  method PushToClient(v: Viewer, w: World, tracker: Tracker) returns (tr: Tracker, ops: seq<Op>)
    requires Keyed(w) && Euclidean(v.dist)
    ensures tr == Tracked(v, w, tracker) && OpsOf(v, w, tracker, ops)
  {
    hide GridOf, Tracked, OpsOf, CandidatesOf, Gathered, Euclidean;
    var g := BuildGrid(w, v.radius);
    GridPositive(g, w);
    GridIsCandidates(v, w, g);
    var cs := Candidates(g, v.center);
    tr, ops := ComputeClientOps(v, cs, tracker, w);
  }

  lemma GridPositive(g: Grid, w: World)
    requires GridOf(g, w, w.Keys)
    ensures g.cell > 0.0
  {
  }
}

/** The whole way of an entity's state: from the zone through queue, wire and aggregated world to a
    client's replica. */
module Replication {
  import opened EntityModel
  import opened Pipeline
  import opened StateAggregator

  /** The slowest rate at which a visible entity is refreshed. */
  const SLOWEST: nat := 500

  /** With nothing queued or on the wire, one tick long enough after the last updates leaves the client
      with exactly the zone's entities that it should see, whatever the ticks before it saw. */
  lemma ClientSeesTheZone(steps: seq<Pipeline.Step>, ticks: seq<Tick>, kind: Id -> (EntityType, nat))
    requires Legal(steps) && Play(steps).zone.queue == map[] && Play(steps).inFlight == []
    requires GoodRun(ticks, kind) && ticks != [] && ticks[|ticks| - 1].w == Play(steps).world
    requires var n := |ticks| - 1; var tr := TrackerAfter(ticks[..n]);
             forall id :: id in tr ==> ticks[n].v.now - tr[id].at >= SLOWEST
    ensures ReplicaAfter(ticks) == VisiblePart(ticks[|ticks| - 1].v, Play(steps).zone.entities)
  {
    hide Legal, Play, GoodRun, ReplicaAfter, VisiblePart, Visible;
    QuietMeansEqual(steps);
    CaughtUpExactly(ticks, kind);
  }
}
