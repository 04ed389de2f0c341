/** Per-client interest management: every tick the relevant entities accrue priority, entities
    that left scope are removed within a budget, and the rest of the budget is filled in priority
    order. Candidates come from the grid; the tick is proved to be that of a whole-world scan. */
module Interest {
  import opened Bytes
  import opened SpatialIndex

  type Id = nat

  /** Where a client is, how it moves, and which routing bucket it sees. */
  datatype Focus = Focus(x: real, y: real, vx: real, vy: real, bucket: nat)

  /** Tuning. `gain` is the priority an entity accrues in one tick from distance, closing speed and
      staleness. */
  datatype Config = Config(aoiRadius: real, hysteresis: real, budget: nat, removeBudget: nat,
                           gain: (Snapshot, Focus) -> real) {
    /** What configuration loading accepts. */
    predicate Valid() {
      aoiRadius > 0.0 && hysteresis >= 0.0
    }

    function QueryRadius(): real {
      aoiRadius + hysteresis
    }
  }

  datatype Ctx = Ctx(cfg: Config, focus: Focus, netId: nat)

  datatype View = View(priority: real, baseFrame: nat, created: bool, seen: bool, uniqifier: nat)

  type Views = map<Id, View>

  datatype Candidate = Candidate(id: Id, priority: real, index: nat)

  datatype Plan = Plan(creates: seq<Id>, syncs: seq<Id>, removes: seq<(Id, nat)>)

  const PRIORITY_CAP: real := 1000000.0

  predicate DistinctIds(world: seq<Snapshot>) {
    forall i, j :: 0 <= i < j < |world| ==> world[i].objectId != world[j].objectId
  }

  predicate InRange(order: seq<nat>, world: seq<Snapshot>) {
    forall k :: 0 <= k < |order| ==> order[k] < |world|
  }

  // ----- one visit -----

  /** Not the client's own, in its bucket, and within the radius; an entity already in scope is
      granted the retention margin. */
  predicate Relevant(ctx: Ctx, vs: Views, e: Snapshot) {
    && e.owner != ctx.netId && e.bucket == ctx.focus.bucket
    && var radius := ctx.cfg.aoiRadius + (if e.objectId in vs then ctx.cfg.hysteresis else 0.0);
       DistSquared(e, ctx.focus.x, ctx.focus.y) <= radius * radius
  }

  function Touch(ctx: Ctx, vs: Views, e: Snapshot): View {
    var v := if e.objectId in vs then vs[e.objectId] else View(0.0, 0, false, false, e.uniqifier);
    var p := v.priority + ctx.cfg.gain(e, ctx.focus);
    View(if p < PRIORITY_CAP then p else PRIORITY_CAP, v.baseFrame, v.created, true, e.uniqifier)
  }

  function Reset(vs: Views): (r: Views)
    ensures r.Keys == vs.Keys
  {
    map id | id in vs :: vs[id].(seen := false)
  }

  datatype Scan = Scan(views: Views, candidates: seq<Candidate>)

  function Visit(ctx: Ctx, world: seq<Snapshot>, i: nat, s: Scan): Scan
    requires i < |world|
  {
    var e := world[i];
    if !Relevant(ctx, s.views, e) then s
    else
      var v := Touch(ctx, s.views, e);
      Scan(s.views[e.objectId := v], s.candidates + [Candidate(e.objectId, v.priority, i)])
  }

  /** Candidates name seen views and their own snapshot. */
  predicate Sound(world: seq<Snapshot>, s: Scan) {
    forall k :: 0 <= k < |s.candidates| ==>
      var c := s.candidates[k];
      c.index < |world| && world[c.index].objectId == c.id && c.id in s.views && s.views[c.id].seen
  }

  function ScanOver(ctx: Ctx, world: seq<Snapshot>, order: seq<nat>, vs: Views): (s: Scan)
    requires InRange(order, world)
    ensures Sound(world, s)
  {
    if order == [] then Scan(Reset(vs), [])
    else Visit(ctx, world, order[|order| - 1], ScanOver(ctx, world, order[..|order| - 1], vs))
  }

  // ----- priority order -----

  /** Higher priority first, then lower id. */
  predicate Precedes(a: Candidate, b: Candidate) {
    a.priority > b.priority || (a.priority == b.priority && a.id < b.id)
  }

  predicate Sorted(cs: seq<Candidate>) {
    forall i, j :: 0 <= i < j < |cs| ==> Precedes(cs[i], cs[j])
  }

  function InsertSorted(c: Candidate, cs: seq<Candidate>): seq<Candidate> {
    if cs == [] || Precedes(c, cs[0]) then [c] + cs else [cs[0]] + InsertSorted(c, cs[1..])
  }

  function Sort(cs: seq<Candidate>): seq<Candidate> {
    if cs == [] then [] else InsertSorted(cs[0], Sort(cs[1..]))
  }

  predicate DistinctCandidates(cs: seq<Candidate>) {
    forall i, j :: 0 <= i < j < |cs| ==> cs[i].id != cs[j].id
  }

  lemma {:induction false} InsertMembers(c: Candidate, cs: seq<Candidate>, x: Candidate)
    ensures x in InsertSorted(c, cs) <==> x == c || x in cs
  {
    if cs != [] && !Precedes(c, cs[0]) {
      InsertMembers(c, cs[1..], x);
    }
  }

  lemma {:induction false} SortMembers(cs: seq<Candidate>, x: Candidate)
    ensures x in Sort(cs) <==> x in cs
  {
    if cs != [] {
      SortMembers(cs[1..], x);
      InsertMembers(cs[0], Sort(cs[1..]), x);
    }
  }

  lemma SortedCons(c: Candidate, cs: seq<Candidate>)
    requires Sorted(cs) && forall x :: x in cs ==> Precedes(c, x)
    ensures Sorted([c] + cs)
  {
    var s := [c] + cs;
    forall i, j | 0 <= i < j < |s| ensures Precedes(s[i], s[j]) {
      assert s[j] == cs[j - 1] && cs[j - 1] in cs;
      if i > 0 { assert s[i] == cs[i - 1]; }
    }
  }

  lemma {:induction false} InsertSorts(c: Candidate, cs: seq<Candidate>)
    requires Sorted(cs) && forall x :: x in cs ==> x.id != c.id
    ensures Sorted(InsertSorted(c, cs))
  {
    if cs == [] {
    } else if Precedes(c, cs[0]) {
      forall x | x in cs ensures Precedes(c, x) {
        var k :| 0 <= k < |cs| && cs[k] == x;
        assert k == 0 || Precedes(cs[0], cs[k]);
      }
      SortedCons(c, cs);
    } else {
      assert cs[0] in cs;
      InsertSorts(c, cs[1..]);
      forall x | x in InsertSorted(c, cs[1..]) ensures Precedes(cs[0], x) {
        InsertMembers(c, cs[1..], x);
        if x in cs[1..] {
          var k :| 0 <= k < |cs[1..]| && cs[1..][k] == x;
          assert cs[k + 1] == x;
        }
      }
      SortedCons(cs[0], InsertSorted(c, cs[1..]));
    }
  }

  lemma {:induction false} SortSorts(cs: seq<Candidate>)
    requires DistinctCandidates(cs)
    ensures Sorted(Sort(cs))
  {
    if cs != [] {
      SortSorts(cs[1..]);
      forall x | x in Sort(cs[1..]) ensures x.id != cs[0].id {
        SortMembers(cs[1..], x);
        var k :| 0 <= k < |cs[1..]| && cs[1..][k] == x;
        assert x == cs[k + 1];
      }
      InsertSorts(cs[0], Sort(cs[1..]));
    }
  }

  /** There is only one way to put a set of candidates in order. */
  lemma {:induction false} SortedUnique(a: seq<Candidate>, b: seq<Candidate>)
    requires Sorted(a) && Sorted(b) && forall x :: x in a <==> x in b
    ensures a == b
  {
    assert (a != [] ==> a[0] in a) && (b != [] ==> b[0] in b);
    if a != [] {
      assert a[0] in b;
      assert b[0] in a;
      var i :| 0 <= i < |a| && a[i] == b[0];
      var j :| 0 <= j < |b| && b[j] == a[0];
      assert a[0] == b[0];
      forall x ensures x in a[1..] <==> x in b[1..] {
        TailMembers(a, x);
        TailMembers(b, x);
      }
      SortedUnique(a[1..], b[1..]);
      assert a == [a[0]] + a[1..] && b == [b[0]] + b[1..];
    }
  }

  lemma TailMembers(s: seq<Candidate>, x: Candidate)
    requires s != [] && Sorted(s)
    ensures x in s[1..] <==> x in s && x != s[0]
  {
    if x in s[1..] {
      var k :| 0 <= k < |s[1..]| && s[1..][k] == x;
      assert s[k + 1] == x && Precedes(s[0], s[k + 1]);
    }
    if x in s && x != s[0] {
      var k :| 0 <= k < |s| && s[k] == x;
      assert s[1..][k - 1] == x;
    }
  }

  // ----- scope exits -----

  ghost function Max(s: set<Id>): (m: Id)
    requires s != {}
    ensures m in s && forall x :: x in s ==> x <= m
  {
    var x :| x in s;
    if s == {x} then x
    else
      var rest := s - {x};
      assert s == rest + {x};
      var m := Max(rest);
      if m < x then x else m
  }

  /** The elements of a set in increasing order. */
  ghost function Ascending(s: set<Id>): seq<Id> {
    if s == {} then [] else Ascending(s - {Max(s)}) + [Max(s)]
  }

  predicate Increasing(ids: seq<Id>) {
    forall i, j :: 0 <= i < j < |ids| ==> ids[i] < ids[j]
  }

  lemma IncreasingLast(ids: seq<Id>)
    requires ids != [] && Increasing(ids)
    ensures var last := ids[|ids| - 1];
            last in Listed(ids) && (forall id :: id in ids ==> id <= last) &&
                Listed(ids[..|ids| - 1]) == Listed(ids) - {last}
  {
    var n := |ids| - 1;
    var last, s := ids[n], Listed(ids);
    assert ids == ids[..n] + [last];
    forall id | id in ids[..n] ensures id != last {
      var k :| 0 <= k < n && ids[..n][k] == id;
      assert ids[k] == id;
    }
  }

  /** An increasing list is the ascending order of its elements. */
  lemma {:induction false} IncreasingIsAscending(ids: seq<Id>)
    requires Increasing(ids)
    ensures Ascending(Listed(ids)) == ids
  {
    hide Max;
    if ids != [] {
      var n := |ids| - 1;
      IncreasingLast(ids);
      assert Max(Listed(ids)) == ids[n];
      IncreasingIsAscending(ids[..n]);
      assert ids == ids[..n] + [ids[n]];
    }
  }

  lemma {:induction false} AscendingListed(s: set<Id>)
    ensures Listed(Ascending(s)) == s && Increasing(Ascending(s))
  {
    if s != {} {
      var m := Max(s);
      AscendingListed(s - {m});
      var a := Ascending(s - {m});
      forall k | 0 <= k < |a| ensures a[k] < m {
        assert a[k] in Listed(a);
      }
      assert Listed(a + [m]) == Listed(a) + {m};
    }
  }

  /** The entities known but not seen this tick. */
  function ExitSet(vs: Views): set<Id> {
    set id | id in vs && !vs[id].seen
  }

  /** Inserts an id into an increasing list. */
  function InsertId(ids: seq<Id>, id: Id): seq<Id> {
    if ids == [] || id < ids[0] then [id] + ids else [ids[0]] + InsertId(ids[1..], id)
  }

  lemma {:induction false} InsertIdMembers(ids: seq<Id>, id: Id)
    ensures Listed(InsertId(ids, id)) == Listed(ids) + {id}
  {
    if ids != [] && id >= ids[0] {
      InsertIdMembers(ids[1..], id);
      var r := InsertId(ids[1..], id);
      assert Listed([ids[0]] + r) == {ids[0]} + Listed(r);
      assert Listed(ids) == {ids[0]} + Listed(ids[1..]) by {
        assert ids == [ids[0]] + ids[1..];
      }
    }
  }

  lemma {:induction false} InsertIdIncreasing(ids: seq<Id>, id: Id)
    requires Increasing(ids) && id !in ids
    ensures Increasing(InsertId(ids, id))
  {
    if ids != [] && id >= ids[0] {
      InsertIdIncreasing(ids[1..], id);
      InsertIdMembers(ids[1..], id);
      var r := InsertId(ids[1..], id);
      forall k | 0 <= k < |r| ensures ids[0] < r[k] {
        assert r[k] in Listed(r);
        if r[k] != id {
          assert r[k] in ids[1..];
        }
      }
    }
  }

  function MaxRemoves(cfg: Config): nat {
    if cfg.removeBudget / 8 > 1 then cfg.removeBudget / 8 else 1
  }

  function Take<T>(s: seq<T>, n: nat): seq<T> {
    if n <= |s| then s[..n] else s
  }

  /** The exits announced this tick: lowest ids first, as many as the remove budget allows. */
  ghost function Exits(cfg: Config, vs: Views): (ids: seq<Id>)
    ensures forall id :: id in ids ==> id in vs && !vs[id].seen
  {
    AscendingListed(ExitSet(vs));
    var all := Ascending(ExitSet(vs));
    assert forall k :: 0 <= k < |all| ==> all[k] in Listed(all);
    Take(all, MaxRemoves(cfg))
  }

  ghost function Removes(vs: Views, ids: seq<Id>): (r: seq<(Id, nat)>)
    requires forall id :: id in ids ==> id in vs
    ensures |r| == |ids| && forall k :: 0 <= k < |r| ==> r[k] == (ids[k], vs[ids[k]].uniqifier)
  {
    seq(|ids|, k requires 0 <= k < |ids| => assert ids[k] in ids; (ids[k], vs[ids[k]].uniqifier))
  }

  // ----- filling the budget -----

  function Cost(e: Snapshot): nat {
    22 + e.dataLen
  }

  datatype Out = Out(views: Views, creates: seq<Id>, syncs: seq<Id>, spent: nat)

  /** Never sent, or changed since it was last sent. */
  predicate NeedsSend(v: View, e: Snapshot) {
    !v.created || e.frame > v.baseFrame
  }

  function Sent(v: View, e: Snapshot): View {
    v.(created := true, baseFrame := e.frame, priority := 0.0)
  }

  /** Offers one candidate: skipped if over budget (unless nothing was sent yet) or up to date. */
  function Offer(ctx: Ctx, world: seq<Snapshot>, c: Candidate, out: Out): (r: Out)
    requires c.index < |world| && c.id in out.views
    ensures r.views.Keys == out.views.Keys
  {
    var e, v := world[c.index], out.views[c.id];
    if (out.spent > 0 && out.spent + Cost(e) > ctx.cfg.budget) || !NeedsSend(v, e) then out
    else
      Out(out.views[c.id := Sent(v, e)],
          if v.created then out.creates else out.creates + [c.id],
          if v.created then out.syncs + [c.id] else out.syncs,
          out.spent + Cost(e))
  }

  predicate Offerable(world: seq<Snapshot>, cs: seq<Candidate>, vs: Views) {
    forall k :: 0 <= k < |cs| ==> cs[k].index < |world| && world[cs[k].index].objectId == cs[k].id && cs[k].id in vs
  }

  function Fill(ctx: Ctx, world: seq<Snapshot>, cs: seq<Candidate>, out: Out): (r: Out)
    requires Offerable(world, cs, out.views)
    ensures r.views.Keys == out.views.Keys
  {
    if cs == [] then out
    else Offer(ctx, world, cs[|cs| - 1], Fill(ctx, world, cs[..|cs| - 1], out))
  }

  // ----- the tick -----

  lemma CandidatesOfferable(world: seq<Snapshot>, s: Scan, gone: seq<Id>)
    requires Sound(world, s) && forall id :: id in gone ==> id in s.views && !s.views[id].seen
    ensures Offerable(world, Sort(s.candidates), s.views - Listed(gone))
  {
    var cs := Sort(s.candidates);
    forall k | 0 <= k < |cs|
      ensures cs[k].index < |world| && world[cs[k].index].objectId == cs[k].id && cs[k].id in s.views - Listed(gone)
    {
      SortMembers(s.candidates, cs[k]);
      assert cs[k] in cs;
      var m :| 0 <= m < |s.candidates| && s.candidates[m] == cs[k];
    }
  }

  /** The tick when entities are visited in the given order. */
  ghost function TickOver(ctx: Ctx, world: seq<Snapshot>, order: seq<nat>, vs: Views): (Views, Plan)
    requires InRange(order, world)
  {
    var s := ScanOver(ctx, world, order, vs);
    var gone := Exits(ctx.cfg, s.views);
    CandidatesOfferable(world, s, gone);
    var out := Fill(ctx, world, Sort(s.candidates), Out(s.views - Listed(gone), [], [], 0));
    (out.views, Plan(out.creates, out.syncs, Removes(s.views, gone)))
  }

  function All(n: nat): (order: seq<nat>)
    ensures |order| == n && forall i :: 0 <= i < n ==> order[i] == i
  {
    seq(n, i => i)
  }

  /** The tick that scans the whole world. */
  ghost function FullTick(ctx: Ctx, world: seq<Snapshot>, vs: Views): (Views, Plan) {
    TickOver(ctx, world, All(|world|), vs)
  }

  // ----- the order of visits does not matter -----

  /** An order that visits every relevant entity, and no entity twice. */
  ghost predicate Covers(ctx: Ctx, world: seq<Snapshot>, order: seq<nat>, vs: Views) {
    && InRange(order, world) && NoRepeats(order)
    && forall i :: 0 <= i < |world| && Relevant(ctx, Reset(vs), world[i]) ==> i in order
  }

  /** Some relevant entity of the order has this id. */
  ghost predicate Hit(ctx: Ctx, world: seq<Snapshot>, order: seq<nat>, vs: Views, id: Id)
    requires InRange(order, world)
  {
    exists k :: 0 <= k < |order| && world[order[k]].objectId == id && Relevant(ctx, vs, world[order[k]])
  }

  function CandidateFor(ctx: Ctx, world: seq<Snapshot>, vs: Views, i: nat): Candidate
    requires i < |world|
  {
    Candidate(world[i].objectId, Touch(ctx, vs, world[i]).priority, i)
  }

  /** What a scan leaves: relevant entities touched once, everything else as it was. */
  ghost predicate Scanned(ctx: Ctx, world: seq<Snapshot>, order: seq<nat>, vs: Views, s: Scan)
    requires InRange(order, world)
  {
    ScannedViews(ctx, world, order, vs, s.views) && ScannedCandidates(ctx, world, order, vs, s.candidates)
  }

  ghost predicate ScannedViews(ctx: Ctx, world: seq<Snapshot>, order: seq<nat>, vs: Views, r: Views)
    requires InRange(order, world)
  {
    && (forall id :: id in r <==> id in vs || Hit(ctx, world, order, vs, id))
    && (forall k :: 0 <= k < |order| && Relevant(ctx, vs, world[order[k]]) ==>
          world[order[k]].objectId in r && r[world[order[k]].objectId] == Touch(ctx, vs, world[order[k]]))
    && (forall id :: id in vs && !Hit(ctx, world, order, vs, id) ==> id in r && r[id] == vs[id])
  }

  ghost predicate ScannedCandidates(ctx: Ctx, world: seq<Snapshot>, order: seq<nat>, vs: Views, cs: seq<Candidate>)
    requires InRange(order, world)
  {
    && (forall c :: c in cs <==>
          exists k :: 0 <= k < |order| && Relevant(ctx, vs, world[order[k]]) &&
              c == CandidateFor(ctx, world, vs, order[k]))
    && DistinctCandidates(cs)
  }

  lemma {:induction false} ScanLeaves(ctx: Ctx, world: seq<Snapshot>, order: seq<nat>, vs: Views)
    requires DistinctIds(world) && InRange(order, world) && NoRepeats(order)
    ensures Scanned(ctx, world, order, Reset(vs), ScanOver(ctx, world, order, vs))
  {
    if order != [] {
      var n := |order| - 1;
      ScanLeaves(ctx, world, order[..n], vs);
      var s, i := ScanOver(ctx, world, order[..n], vs), order[n];
      assert ScanOver(ctx, world, order, vs) == Visit(ctx, world, i, s);
      VisitLeaves(ctx, world, order, Reset(vs), s);
    }
  }

  /** An entity not met before is judged as at the start of the scan. */
  lemma NotYetHit(ctx: Ctx, world: seq<Snapshot>, order: seq<nat>, vs: Views)
    requires DistinctIds(world) && InRange(order, world) && NoRepeats(order) && order != []
    ensures var n := |order| - 1; !Hit(ctx, world, order[..n], vs, world[order[n]].objectId)
    ensures forall k :: 0 <= k < |order| - 1 ==> world[order[k]].objectId != world[order[|order| - 1]].objectId
  {
    var n := |order| - 1;
    forall k | 0 <= k < n ensures world[order[k]].objectId != world[order[n]].objectId {
      assert order[k] != order[n];
    }
  }

  lemma HitOneMore(ctx: Ctx, world: seq<Snapshot>, order: seq<nat>, vs: Views, id: Id)
    requires InRange(order, world) && order != []
    ensures var n := |order| - 1;
            Hit(ctx, world, order, vs, id)
            <==> (Hit(ctx, world, order[..n], vs, id)
                  || (world[order[n]].objectId == id && Relevant(ctx, vs, world[order[n]])))
  {
    var n := |order| - 1;
    if Hit(ctx, world, order, vs, id) {
      var k :| 0 <= k < |order| && world[order[k]].objectId == id && Relevant(ctx, vs, world[order[k]]);
      if k < n { assert order[..n][k] == order[k]; }
    }
    if Hit(ctx, world, order[..n], vs, id) {
      var k :| 0 <= k < n && world[order[..n][k]].objectId == id && Relevant(ctx, vs, world[order[..n][k]]);
      assert order[k] == order[..n][k];
    }
  }

  lemma VisitLeaves(ctx: Ctx, world: seq<Snapshot>, order: seq<nat>, vs: Views, s: Scan)
    requires DistinctIds(world) && InRange(order, world) && NoRepeats(order) && order != []
    requires Scanned(ctx, world, order[..|order| - 1], vs, s)
    ensures Scanned(ctx, world, order, vs, Visit(ctx, world, order[|order| - 1], s))
  {
    hide Hit, Touch, Relevant, ScannedViews, ScannedCandidates;
    var n := |order| - 1;
    VisitJudges(ctx, world, order, vs, s.views);
    var e := world[order[n]];
    if Relevant(ctx, vs, e) {
      ViewsWithHit(ctx, world, order, vs, s.views);
    } else {
      ViewsWithoutHit(ctx, world, order, vs, s.views);
    }
    VisitCandidates(ctx, world, order, vs, s);
  }

  /** A fresh entity is judged, and touched, as if it were the first. */
  lemma VisitJudges(ctx: Ctx, world: seq<Snapshot>, order: seq<nat>, vs: Views, r: Views)
    requires DistinctIds(world) && InRange(order, world) && NoRepeats(order) && order != []
    requires ScannedViews(ctx, world, order[..|order| - 1], vs, r)
    ensures var e := world[order[|order| - 1]];
            (Relevant(ctx, r, e) <==> Relevant(ctx, vs, e)) && Touch(ctx, r, e) == Touch(ctx, vs, e)
  {
    hide Hit, Touch;
    NotYetHit(ctx, world, order, vs);
    SameTouch(ctx, r, vs, world[order[|order| - 1]]);
  }

  lemma ViewsWithHit(ctx: Ctx, world: seq<Snapshot>, order: seq<nat>, vs: Views, r: Views)
    requires DistinctIds(world) && InRange(order, world) && NoRepeats(order) && order != []
    requires ScannedViews(ctx, world, order[..|order| - 1], vs, r)
    requires Relevant(ctx, vs, world[order[|order| - 1]])
    ensures var e := world[order[|order| - 1]]; ScannedViews(ctx, world, order, vs, r[e.objectId := Touch(ctx, vs, e)])
  {
    hide Hit, Touch, Relevant;
    var n := |order| - 1;
    NotYetHit(ctx, world, order, vs);
    forall id
      ensures Hit(ctx, world, order, vs, id) <==> Hit(ctx, world, order[..n], vs, id) || world[order[n]].objectId == id
    {
      HitOneMore(ctx, world, order, vs, id);
    }
    assert forall k :: 0 <= k < n ==> order[..n][k] == order[k];
  }

  lemma ViewsWithoutHit(ctx: Ctx, world: seq<Snapshot>, order: seq<nat>, vs: Views, r: Views)
    requires DistinctIds(world) && InRange(order, world) && NoRepeats(order) && order != []
    requires ScannedViews(ctx, world, order[..|order| - 1], vs, r)
    requires !Relevant(ctx, vs, world[order[|order| - 1]])
    ensures ScannedViews(ctx, world, order, vs, r)
  {
    hide Hit, Touch, Relevant;
    var n := |order| - 1;
    forall id ensures Hit(ctx, world, order, vs, id) <==> Hit(ctx, world, order[..n], vs, id) {
      HitOneMore(ctx, world, order, vs, id);
    }
    assert forall k :: 0 <= k < n ==> order[..n][k] == order[k];
  }

  lemma SameTouch(ctx: Ctx, a: Views, b: Views, e: Snapshot)
    requires e.objectId in a <==> e.objectId in b
    requires e.objectId in a ==> a[e.objectId] == b[e.objectId]
    ensures Touch(ctx, a, e) == Touch(ctx, b, e)
  {
  }

  lemma VisitCandidates(ctx: Ctx, world: seq<Snapshot>, order: seq<nat>, vs: Views, s: Scan)
    requires DistinctIds(world) && InRange(order, world) && NoRepeats(order) && order != []
    requires Scanned(ctx, world, order[..|order| - 1], vs, s)
    ensures ScannedCandidates(ctx, world, order, vs, Visit(ctx, world, order[|order| - 1], s).candidates)
  {
    hide Hit, Touch, Relevant, ScannedViews;
    var n := |order| - 1;
    var before, i := order[..n], order[n];
    var e, r := world[i], Visit(ctx, world, i, s);
    VisitJudges(ctx, world, order, vs, s.views);
    NotYetHit(ctx, world, order, vs);
    var c0 := CandidateFor(ctx, world, vs, i);
    assert forall k :: 0 <= k < n ==> before[k] == order[k];
    assert r.candidates == if Relevant(ctx, vs, e) then s.candidates + [c0] else s.candidates;
    forall c ensures c in r.candidates <==>
        exists k :: 0 <= k < |order| && Relevant(ctx, vs, world[order[k]]) &&
            c == CandidateFor(ctx, world, vs, order[k])
    {
      if c in s.candidates {
        var k :| 0 <= k < n && Relevant(ctx, vs, world[before[k]]) && c == CandidateFor(ctx, world, vs, before[k]);
        assert before[k] == order[k];
      } else if Relevant(ctx, vs, e) && c == c0 {
        assert order[n] == i;
      }
    }
    forall a | 0 <= a < |s.candidates| ensures s.candidates[a].id != e.objectId {
      var c := s.candidates[a];
      assert c in s.candidates;
      var k :| 0 <= k < n && Relevant(ctx, vs, world[before[k]]) && c == CandidateFor(ctx, world, vs, before[k]);
      assert before[k] == order[k];
    }
  }

  /** Two orders that cover the relevant entities give the same views and candidates. */
  lemma ScansAgree(ctx: Ctx, world: seq<Snapshot>, a: seq<nat>, b: seq<nat>, vs: Views)
    requires DistinctIds(world) && Covers(ctx, world, a, vs) && Covers(ctx, world, b, vs)
    ensures ScanOver(ctx, world, a, vs).views == ScanOver(ctx, world, b, vs).views
    ensures Sort(ScanOver(ctx, world, a, vs).candidates) == Sort(ScanOver(ctx, world, b, vs).candidates)
  {
    hide Touch, Relevant, ScanOver;
    var v0, sa, sb := Reset(vs), ScanOver(ctx, world, a, vs), ScanOver(ctx, world, b, vs);
    ScanLeaves(ctx, world, a, vs);
    ScanLeaves(ctx, world, b, vs);
    forall id ensures Hit(ctx, world, a, v0, id) <==> Hit(ctx, world, b, v0, id) {
      if Hit(ctx, world, a, v0, id) { HitAgrees(ctx, world, a, b, vs, id); }
      if Hit(ctx, world, b, v0, id) { HitAgrees(ctx, world, b, a, vs, id); }
    }
    assert sa.views.Keys == sb.views.Keys;
    forall id | id in sa.views ensures sa.views[id] == sb.views[id] {
      if Hit(ctx, world, a, v0, id) {
        var k :| 0 <= k < |a| && world[a[k]].objectId == id && Relevant(ctx, v0, world[a[k]]);
        assert a[k] in b;
        var m :| 0 <= m < |b| && b[m] == a[k];
      }
    }
    CandidatesAgree(ctx, world, a, b, vs, sa, sb);
  }

  lemma HitAgrees(ctx: Ctx, world: seq<Snapshot>, a: seq<nat>, b: seq<nat>, vs: Views, id: Id)
    requires InRange(a, world) && Covers(ctx, world, b, vs) && Hit(ctx, world, a, Reset(vs), id)
    ensures Hit(ctx, world, b, Reset(vs), id)
  {
    hide Relevant;
    var v0 := Reset(vs);
    var k :| 0 <= k < |a| && world[a[k]].objectId == id && Relevant(ctx, v0, world[a[k]]);
    assert a[k] in b;
    var m :| 0 <= m < |b| && b[m] == a[k];
  }

  lemma CandidatesAgree(ctx: Ctx, world: seq<Snapshot>, a: seq<nat>, b: seq<nat>, vs: Views, sa: Scan, sb: Scan)
    requires Covers(ctx, world, a, vs) && Covers(ctx, world, b, vs)
    requires Scanned(ctx, world, a, Reset(vs), sa) && Scanned(ctx, world, b, Reset(vs), sb)
    ensures Sort(sa.candidates) == Sort(sb.candidates)
  {
    hide Sort;
    forall c ensures c in sa.candidates <==> c in sb.candidates {
      CandidateMoves(ctx, world, a, b, vs, sa, sb, c);
      CandidateMoves(ctx, world, b, a, vs, sb, sa, c);
    }
    SortSorts(sa.candidates);
    SortSorts(sb.candidates);
    forall c ensures c in Sort(sa.candidates) <==> c in Sort(sb.candidates) {
      SortMembers(sa.candidates, c);
      SortMembers(sb.candidates, c);
    }
    SortedUnique(Sort(sa.candidates), Sort(sb.candidates));
  }

  lemma CandidateMoves(ctx: Ctx, world: seq<Snapshot>, a: seq<nat>, b: seq<nat>, vs: Views, sa: Scan, sb: Scan,
                       c: Candidate)
    requires Covers(ctx, world, a, vs) && Covers(ctx, world, b, vs)
    requires Scanned(ctx, world, a, Reset(vs), sa) && Scanned(ctx, world, b, Reset(vs), sb)
    ensures c in sa.candidates ==> c in sb.candidates
  {
    hide Relevant, Touch;
    if c in sa.candidates {
      var v0 := Reset(vs);
      var k :| 0 <= k < |a| && Relevant(ctx, v0, world[a[k]]) && c == CandidateFor(ctx, world, v0, a[k]);
      assert a[k] in b;
      var m :| 0 <= m < |b| && b[m] == a[k];
    }
  }

  /** Any order that covers the relevant entities gives the whole-world tick. */
  lemma OrderDoesNotMatter(ctx: Ctx, world: seq<Snapshot>, order: seq<nat>, vs: Views)
    requires DistinctIds(world) && Covers(ctx, world, order, vs)
    ensures TickOver(ctx, world, order, vs) == FullTick(ctx, world, vs)
  {
    hide ScanOver, Sort, Fill, Exits, Removes, Relevant;
    AllCovers(ctx, world, vs);
    ScansAgree(ctx, world, order, All(|world|), vs);
  }

  lemma AllCovers(ctx: Ctx, world: seq<Snapshot>, vs: Views)
    ensures Covers(ctx, world, All(|world|), vs)
  {
    hide Relevant;
    forall i | 0 <= i < |world| ensures i in All(|world|) {
      assert All(|world|)[i] == i;
    }
  }

  /** The grid's visiting order covers the relevant entities, whatever the prior views. */
  lemma GridCovers(ctx: Ctx, world: seq<Snapshot>, size: real, vs: Views)
    requires ctx.cfg.Valid() && size >= ctx.cfg.QueryRadius()
    ensures Covers(ctx, world, NearOrder(world, size, ctx.focus.x, ctx.focus.y), vs)
  {
    var order := NearOrder(world, size, ctx.focus.x, ctx.focus.y);
    var c := CellOf(ctx.focus.x, ctx.focus.y, size);
    forall k | 0 <= k < |order| ensures order[k] < |world| {
      assert order[k] in order;
      VisitedExact(world, size, c, 9, order[k]);
    }
    VisitedOnce(world, size, c, 9);
    forall i | 0 <= i < |world| && Relevant(ctx, Reset(vs), world[i]) ensures i in order {
      var radius := ctx.cfg.aoiRadius + (if world[i].objectId in vs then ctx.cfg.hysteresis else 0.0);
      NearIsVisited(world, size, ctx.focus.x, ctx.focus.y, i, radius);
    }
  }

  /** The tick through the 3x3 grid is the tick of a whole-world scan: same plan, same views, for
      every world, focus and prior view, including entities kept only by the retention margin. */
  lemma GridTickIsFullTick(ctx: Ctx, world: seq<Snapshot>, size: real, vs: Views)
    requires DistinctIds(world) && ctx.cfg.Valid() && size >= ctx.cfg.QueryRadius()
    ensures var order := NearOrder(world, size, ctx.focus.x, ctx.focus.y);
            InRange(order, world) && TickOver(ctx, world, order, vs) == FullTick(ctx, world, vs)
  {
    hide TickOver, NearOrder, FullTick;
    GridCovers(ctx, world, size, vs);
    OrderDoesNotMatter(ctx, world, NearOrder(world, size, ctx.focus.x, ctx.focus.y), vs);
  }

  // ----- what a tick does to one client's copy -----

  /** The entities a client has been sent. */
  function Created(vs: Views): set<Id> {
    set id | id in vs && vs[id].created
  }

  ghost predicate Mentions(cs: seq<Candidate>, id: Id) {
    exists k :: 0 <= k < |cs| && cs[k].id == id
  }

  lemma MentionsSnoc(cs: seq<Candidate>, c: Candidate, id: Id)
    ensures Mentions(cs + [c], id) <==> Mentions(cs, id) || c.id == id
  {
    if Mentions(cs, id) {
      var k :| 0 <= k < |cs| && cs[k].id == id;
      assert (cs + [c])[k].id == id;
    }
    if c.id == id { assert (cs + [c])[|cs|].id == id; }
  }

  /** Filling creates only what was not created, syncs only what was, and marks exactly that. */
  ghost predicate Filled(cs: seq<Candidate>, vs: Views, r: Out) {
    && r.views.Keys == vs.Keys
    && Created(r.views) == Created(vs) + Listed(r.creates)
    && Listed(r.creates) !! Created(vs)
    && Listed(r.syncs) <= Created(vs)
    && (forall id :: id in r.creates || id in r.syncs ==> Mentions(cs, id))
    && (forall id :: id in vs && !Mentions(cs, id) ==> r.views[id] == vs[id])
  }

  lemma CreatedUpdate(vs: Views, id: Id, v: View)
    requires v.created
    ensures Created(vs[id := v]) == Created(vs) + {id}
  {
  }

  lemma ListedSnoc(ids: seq<Id>, id: Id)
    ensures Listed(ids + [id]) == Listed(ids) + {id}
  {
  }

  lemma OfferKeepsFilled(ctx: Ctx, world: seq<Snapshot>, cs: seq<Candidate>, c: Candidate, vs: Views, out: Out)
    requires Filled(cs, vs, out) && c.index < |world| && c.id in vs && !Mentions(cs, c.id)
    ensures Filled(cs + [c], vs, Offer(ctx, world, c, out))
  {
    hide Created, Listed, Mentions, Cost, NeedsSend;
    var e, v, r := world[c.index], out.views[c.id], Offer(ctx, world, c, out);
    forall id ensures Mentions(cs + [c], id) <==> Mentions(cs, id) || c.id == id {
      MentionsSnoc(cs, c, id);
    }
    CreatedUpdate(out.views, c.id, Sent(v, e));
    CreatedHas(vs, c.id);
    ListedSnoc(out.creates, c.id);
    ListedSnoc(out.syncs, c.id);
  }

  lemma CreatedHas(vs: Views, id: Id)
    requires id in vs
    ensures id in Created(vs) <==> vs[id].created
  {
  }

  lemma {:induction false} FillCreates(ctx: Ctx, world: seq<Snapshot>, cs: seq<Candidate>, vs: Views)
    requires Offerable(world, cs, vs) && DistinctCandidates(cs)
    ensures Filled(cs, vs, Fill(ctx, world, cs, Out(vs, [], [], 0)))
  {
    hide Offer, Created, Listed;
    if cs == [] {
      FilledNothing(vs);
    } else {
      var n := |cs| - 1;
      var before, c := cs[..n], cs[n];
      assert cs == before + [c];
      FillCreates(ctx, world, before, vs);
      OfferKeepsFilled(ctx, world, before, c, vs, Fill(ctx, world, before, Out(vs, [], [], 0)));
    }
  }

  lemma FilledNothing(vs: Views)
    ensures Filled([], vs, Out(vs, [], [], 0))
  {
  }

  lemma {:induction false} ScanKeepsCreated(ctx: Ctx, world: seq<Snapshot>, order: seq<nat>, vs: Views)
    requires InRange(order, world)
    ensures Created(ScanOver(ctx, world, order, vs).views) == Created(vs)
  {
    hide Relevant;
    if order != [] {
      var n := |order| - 1;
      ScanKeepsCreated(ctx, world, order[..n], vs);
      var s, e := ScanOver(ctx, world, order[..n], vs), world[order[n]];
      var v := Touch(ctx, s.views, e);
      assert v.created <==> e.objectId in Created(s.views);
      assert Created(s.views[e.objectId := v]) == Created(s.views);
    }
  }

  lemma SortDistinct(cs: seq<Candidate>)
    requires DistinctCandidates(cs)
    ensures DistinctCandidates(Sort(cs))
  {
    hide Sort;
    SortSorts(cs);
    var r := Sort(cs);
    forall i, j | 0 <= i < j < |r| ensures r[i].id != r[j].id {
      SortMembers(cs, r[i]);
      SortMembers(cs, r[j]);
      assert r[i] in r && r[j] in r && Precedes(r[i], r[j]);
      var a :| 0 <= a < |cs| && cs[a] == r[i];
      var b :| 0 <= b < |cs| && cs[b] == r[j];
    }
  }

  function RemovedIds(plan: Plan): set<Id> {
    set k | 0 <= k < |plan.removes| :: plan.removes[k].0
  }

  lemma RemovedAreExits(vs: Views, gone: seq<Id>, creates: seq<Id>, syncs: seq<Id>)
    requires forall id :: id in gone ==> id in vs
    ensures RemovedIds(Plan(creates, syncs, Removes(vs, gone))) == Listed(gone)
  {
    var r := Removes(vs, gone);
    forall id | id in Listed(gone) ensures id in RemovedIds(Plan(creates, syncs, r)) {
      var k :| 0 <= k < |gone| && gone[k] == id;
      assert r[k].0 == id;
    }
  }

  /** The parts of a tick, for an order without repeats: what was scanned, what was let go, and
      what the budget was filled with. */
  lemma TickParts(ctx: Ctx, world: seq<Snapshot>, order: seq<nat>, vs: Views)
      returns (s: Scan, gone: seq<Id>, cs: seq<Candidate>, out: Out)
    requires DistinctIds(world) && InRange(order, world) && NoRepeats(order)
    ensures Scanned(ctx, world, order, Reset(vs), s) && s == ScanOver(ctx, world, order, vs) && Sound(world, s)
    ensures (forall id :: id in gone ==> id in s.views && !s.views[id].seen)
    ensures cs == Sort(s.candidates) && DistinctCandidates(cs) && Offerable(world, cs, s.views - Listed(gone))
    ensures out == Fill(ctx, world, cs, Out(s.views - Listed(gone), [], [], 0))
    ensures TickOver(ctx, world, order, vs).0 == out.views
    ensures TickOver(ctx, world, order, vs).1.creates == out.creates &&
              TickOver(ctx, world, order, vs).1.syncs == out.syncs
    ensures RemovedIds(TickOver(ctx, world, order, vs).1) == Listed(gone)
    ensures gone == Exits(ctx.cfg, s.views) && TickOver(ctx, world, order, vs).1.removes == Removes(s.views, gone)
  {
    hide ScanOver, Sort, Fill, Exits, Scanned, Offerable;
    s := ScanOver(ctx, world, order, vs);
    gone := Exits(ctx.cfg, s.views);
    cs := Sort(s.candidates);
    ScanLeaves(ctx, world, order, vs);
    assert DistinctCandidates(s.candidates) by { ScannedDistinct(ctx, world, order, Reset(vs), s); }
    SortDistinct(s.candidates);
    CandidatesOfferable(world, s, gone);
    out := Fill(ctx, world, cs, Out(s.views - Listed(gone), [], [], 0));
    RemovedAreExits(s.views, gone, out.creates, out.syncs);
  }

  lemma ScannedDistinct(ctx: Ctx, world: seq<Snapshot>, order: seq<nat>, vs: Views, s: Scan)
    requires InRange(order, world) && Scanned(ctx, world, order, vs, s)
    ensures DistinctCandidates(s.candidates)
  {
  }

  lemma MentionedAreKept(world: seq<Snapshot>, s: Scan, gone: seq<Id>, id: Id)
    requires Sound(world, s) && (forall id :: id in gone ==> id in s.views && !s.views[id].seen)
    requires Mentions(Sort(s.candidates), id)
    ensures id in s.views && s.views[id].seen && id !in Listed(gone)
  {
    hide Sort;
    var cs := Sort(s.candidates);
    var k :| 0 <= k < |cs| && cs[k].id == id;
    assert cs[k] in cs;
    SortMembers(s.candidates, cs[k]);
    var m :| 0 <= m < |s.candidates| && s.candidates[m] == cs[k];
  }

  /** One tick: the created views change by exactly the plan's removes and creates; a create is for
      an entity the client did not have, a sync for one it had, and no entity is both created or
      synced and removed. */
  lemma TickMatchesClient(ctx: Ctx, world: seq<Snapshot>, order: seq<nat>, vs: Views)
    requires DistinctIds(world) && InRange(order, world) && NoRepeats(order)
    ensures var (vs', plan) := TickOver(ctx, world, order, vs);
            && Created(vs') == (Created(vs) - RemovedIds(plan)) + Listed(plan.creates)
            && Listed(plan.creates) !! Created(vs)
            && Listed(plan.syncs) <= Created(vs) - RemovedIds(plan)
            && Listed(plan.creates) !! RemovedIds(plan)
  {
    hide TickOver, ScanOver, Sort, Fill, Scanned, Offerable, DistinctIds, RemovedIds;
    var s, gone, cs, out := TickParts(ctx, world, order, vs);
    var kept := s.views - Listed(gone);
    ScanKeepsCreated(ctx, world, order, vs);
    assert Created(kept) == Created(s.views) - Listed(gone);
    FillCreates(ctx, world, cs, kept);
    forall id | id in out.creates || id in out.syncs
      ensures id !in Listed(gone) && (id in Created(kept) <==> id in Created(vs))
    {
      MentionedAreKept(world, s, gone, id);
    }
  }

  // ----- runs -----

  /** One event in the life of a client's view. */
  datatype Event =
    | Tick(ctx: Ctx, world: seq<Snapshot>)
    | Rollback(id: Id, frame: nat, recreate: bool)
    | RollbackAll(frame: nat)
    | ForceRecreate(id: Id)

  function RolledBack(vs: Views, id: Id, frame: nat, recreate: bool): Views {
    if id !in vs then vs
    else
      var v := vs[id];
      vs[id := v.(baseFrame := Min(v.baseFrame, frame), created := v.created && !recreate)]
  }

  function AllRolledBack(vs: Views, frame: nat): Views {
    map id | id in vs :: vs[id].(baseFrame := Min(vs[id].baseFrame, frame))
  }

  function Recreated(vs: Views, id: Id): Views {
    if id !in vs then vs else vs[id := vs[id].(created := false, baseFrame := 0)]
  }

  /** A client's view at the server, and what the client itself holds when every plan arrives. */
  datatype Session = Session(views: Views, held: set<Id>)

  ghost function Next(s: Session, ev: Event): Session {
    match ev
    case Tick(ctx, world) =>
      var (vs, plan) := FullTick(ctx, world, s.views);
      Session(vs, (s.held - RemovedIds(plan)) + Listed(plan.creates))
    case Rollback(id, frame, recreate) => s.(views := RolledBack(s.views, id, frame, recreate))
    case RollbackAll(frame) => s.(views := AllRolledBack(s.views, frame))
    case ForceRecreate(id) => s.(views := Recreated(s.views, id))
  }

  ghost function Play(evs: seq<Event>): Session {
    if evs == [] then Session(map[], {}) else Next(Play(evs[..|evs| - 1]), evs[|evs| - 1])
  }

  predicate Plausible(ev: Event) {
    ev.Tick? ==> DistinctIds(ev.world)
  }

  predicate Recreates(ev: Event) {
    ev.ForceRecreate? || (ev.Rollback? && ev.recreate)
  }

  lemma AllOrder(world: seq<Snapshot>)
    ensures InRange(All(|world|), world) && NoRepeats(All(|world|))
  {
  }

  lemma RollbacksAndCreated(vs: Views, id: Id, frame: nat)
    ensures Created(RolledBack(vs, id, frame, false)) == Created(vs)
    ensures Created(AllRolledBack(vs, frame)) == Created(vs)
    ensures Created(RolledBack(vs, id, frame, true)) == Created(vs) - {id}
    ensures Created(Recreated(vs, id)) == Created(vs) - {id}
  {
  }

  /** In every run the views marked created are entities the client holds; without forced
      re-creation they are exactly those. */
  lemma {:induction false} CreatedAreHeld(evs: seq<Event>)
    requires forall k :: 0 <= k < |evs| ==> Plausible(evs[k])
    ensures Created(Play(evs).views) <= Play(evs).held
    ensures (forall k :: 0 <= k < |evs| ==> !Recreates(evs[k])) ==> Created(Play(evs).views) == Play(evs).held
  {
    hide Created, TickOver, RolledBack, AllRolledBack, Recreated, RemovedIds;
    if evs == [] {
      CreatedOfNothing();
    } else {
      var n := |evs| - 1;
      CreatedAreHeld(evs[..n]);
      var s, ev := Play(evs[..n]), evs[n];
      match ev {
        case Tick(ctx, world) =>
          AllOrder(world);
          TickMatchesClient(ctx, world, All(|world|), s.views);
        case Rollback(id, frame, _) => RollbacksAndCreated(s.views, id, frame);
        case RollbackAll(frame) => RollbacksAndCreated(s.views, 0, frame);
        case ForceRecreate(id) => RollbacksAndCreated(s.views, id, 0);
      }
    }
  }

  lemma CreatedOfNothing()
    ensures Created(map[]) == {}
  {
  }

  /** After any run without forced re-creation, the next tick creates only entities the client does
      not hold, syncs only ones it holds, and never removes what it creates. */
  lemma PlansFitTheClient(evs: seq<Event>, ctx: Ctx, world: seq<Snapshot>)
    requires (forall k :: 0 <= k < |evs| ==> Plausible(evs[k]) && !Recreates(evs[k])) && DistinctIds(world)
    ensures var s := Play(evs); var plan := FullTick(ctx, world, s.views).1;
            && Listed(plan.creates) !! s.held
            && Listed(plan.syncs) <= s.held
            && Listed(plan.creates) !! RemovedIds(plan)
  {
    hide TickOver, Created, Play, RemovedIds;
    CreatedAreHeld(evs);
    AllOrder(world);
    TickMatchesClient(ctx, world, All(|world|), Play(evs).views);
  }

  // ----- which entity a client holds under an id -----

  /** Under each id a client has been sent, the entity that the server takes it to hold. */
  function Incarnations(vs: Views): map<Id, nat> {
    map id | id in vs && vs[id].created :: vs[id].uniqifier
  }

  /** The uniqifier that a create record of `id` carries. */
  function UniqifierOf(world: seq<Snapshot>, id: Id): nat {
    if world == [] then 0
    else if world[|world| - 1].objectId == id then world[|world| - 1].uniqifier
    else UniqifierOf(world[..|world| - 1], id)
  }

  lemma {:induction false} UniqifierOfIndex(world: seq<Snapshot>, i: nat)
    requires DistinctIds(world) && i < |world|
    ensures UniqifierOf(world, world[i].objectId) == world[i].uniqifier
  {
    var n := |world| - 1;
    if i < n {
      UniqifierOfIndex(world[..n], i);
      assert world[..n][i] == world[i];
    }
  }

  /** What a client holds once a plan arrives: a remove drops the entity it names, a create puts one in place. */
  function Delivered(copies: map<Id, nat>, world: seq<Snapshot>, plan: Plan): map<Id, nat> {
    map id | id in copies.Keys + Listed(plan.creates) &&
        (id in Listed(plan.creates) || (id, copies[id]) !in plan.removes) ::
      if id in Listed(plan.creates) then UniqifierOf(world, id) else copies[id]
  }

  /** While it is in view, `id` names the entity that the client was sent. */
  ghost predicate KeepsItsEntity(ctx: Ctx, world: seq<Snapshot>, vs: Views, id: Id) {
    id in vs && vs[id].created ==>
      forall i :: 0 <= i < |world| && world[i].objectId == id && Relevant(ctx, vs, world[i]) ==>
        world[i].uniqifier == vs[id].uniqifier
  }

  ghost predicate KeepsEntities(ctx: Ctx, world: seq<Snapshot>, vs: Views) {
    forall id :: KeepsItsEntity(ctx, world, vs, id)
  }

  lemma {:induction false} FillKeepsUniqifiers(ctx: Ctx, world: seq<Snapshot>, cs: seq<Candidate>, vs: Views, id: Id)
    requires Offerable(world, cs, vs) && id in vs
    ensures Fill(ctx, world, cs, Out(vs, [], [], 0)).views[id].uniqifier == vs[id].uniqifier
  {
    hide Cost, NeedsSend;
    if cs != [] {
      FillKeepsUniqifiers(ctx, world, cs[..|cs| - 1], vs, id);
    }
  }

  lemma RemovesHas(vs: Views, gone: seq<Id>, id: Id, u: nat)
    requires forall x :: x in gone ==> x in vs
    ensures (id, u) in Removes(vs, gone) <==> id in gone && u == vs[id].uniqifier
  {
    var r := Removes(vs, gone);
    if id in gone {
      var k :| 0 <= k < |gone| && gone[k] == id;
      assert r[k] == (id, vs[id].uniqifier);
    }
  }

  lemma NotSent(ctx: Ctx, world: seq<Snapshot>, vs: Views, id: Id)
    requires id in vs && vs[id].created ==>
               forall i :: 0 <= i < |world| && world[i].objectId == id ==> !Relevant(ctx, vs, world[i])
    ensures KeepsItsEntity(ctx, world, vs, id)
  {
    hide Relevant;
  }

  /** Entity `i` hits view `id`. */
  predicate Hits(ctx: Ctx, world: seq<Snapshot>, vs: Views, id: Id, i: nat) {
    i < |world| && world[i].objectId == id && Relevant(ctx, vs, world[i])
  }

  /** A scan gives a view the uniqifier of the entity that hit it, and otherwise leaves it. */
  lemma ScanUniqifier(ctx: Ctx, world: seq<Snapshot>, vs: Views, r: Views, id: Id) returns (i: nat)
    requires InRange(All(|world|), world) && ScannedViews(ctx, world, All(|world|), Reset(vs), r) && id in r
    ensures !r[id].seen ==> id in vs && r[id].uniqifier == vs[id].uniqifier && KeepsItsEntity(ctx, world, vs, id)
    ensures r[id].seen ==> Hits(ctx, world, vs, id, i) && r[id].uniqifier == world[i].uniqifier
  {
    hide Relevant, KeepsItsEntity;
    var order, was := All(|world|), Reset(vs);
    i := 0;
    if Hit(ctx, world, order, was, id) {
      var k :| 0 <= k < |order| && world[order[k]].objectId == id && Relevant(ctx, was, world[order[k]]);
      i := order[k];
      SameRelevance(ctx, vs, world[i]);
      assert r[id] == Touch(ctx, was, world[order[k]]);
    } else {
      forall j | 0 <= j < |world| && world[j].objectId == id ensures !Relevant(ctx, vs, world[j]) {
        assert order[j] == j;
        SameRelevance(ctx, vs, world[j]);
      }
      NotSent(ctx, world, vs, id);
    }
  }

  lemma CandidateIsHit(ctx: Ctx, world: seq<Snapshot>, s: Scan, id: Id)
    requires Sound(world, s) && Mentions(Sort(s.candidates), id)
    ensures id in s.views && s.views[id].seen && KnownId(world, id)
  {
    hide Sort;
    var cs := Sort(s.candidates);
    var k :| 0 <= k < |cs| && cs[k].id == id;
    assert cs[k] in cs;
    SortMembers(s.candidates, cs[k]);
    var m :| 0 <= m < |s.candidates| && s.candidates[m] == cs[k];
  }

  /** One tick at one id: the client holds something under it exactly if the server thinks so, and the
      right entity exactly if the id kept its entity. */
  lemma CopyAt(ctx: Ctx, world: seq<Snapshot>, vs: Views, id: Id)
    requires DistinctIds(world)
    ensures var (vs', plan) := FullTick(ctx, world, vs);
            var after := Delivered(Incarnations(vs), world, plan);
            && (id in after <==> id in Incarnations(vs'))
            && (id in after ==> (after[id] == vs'[id].uniqifier <==> KeepsItsEntity(ctx, world, vs, id)))
            && (id !in after ==> KeepsItsEntity(ctx, world, vs, id))
  {
    hide TickOver, ScanOver, Sort, Fill, Offerable, DistinctIds, RemovedIds, Relevant, Sound, Created, KeepsItsEntity,
        Hit, ScannedCandidates, UniqifierOf;
    AllOrder(world);
    var order := All(|world|);
    var s, gone, cs, out := TickParts(ctx, world, order, vs);
    var kept := s.views - Listed(gone);
    TickMatchesClient(ctx, world, order, vs);
    CreatedHere(vs, out.views, id);
    FillCreates(ctx, world, cs, kept);
    if id in out.creates {
      CandidateIsHit(ctx, world, s, id);
    }
    if id in vs {
      RemovesHas(s.views, gone, id, vs[id].uniqifier);
    }
    if id in s.views {
      var i := ScanUniqifier(ctx, world, vs, s.views, id);
      if s.views[id].seen {
        UniqifierOfIndex(world, i);
        OnlyOne(ctx, world, vs, i);
      }
    }
    if id in kept {
      FillKeepsUniqifiers(ctx, world, cs, kept, id);
    }
    if id !in vs || !vs[id].created {
      NotSent(ctx, world, vs, id);
    }
  }

  lemma CreatedHere(vs: Views, vs': Views, id: Id)
    ensures id in Created(vs) <==> id in vs && vs[id].created
    ensures id in Created(vs') <==> id in vs' && vs'[id].created
  {
  }

  /** With distinct ids, only one entity can contradict a view. */
  lemma OnlyOne(ctx: Ctx, world: seq<Snapshot>, vs: Views, i: nat)
    requires DistinctIds(world) && i < |world| && Relevant(ctx, vs, world[i])
    ensures var id := world[i].objectId;
            KeepsItsEntity(ctx, world, vs, id) <==>
                (id in vs && vs[id].created ==> vs[id].uniqifier == world[i].uniqifier)
  {
  }

  /** A tick leaves the client with the entities that the server takes it to hold if and only if every
      id in view still names the entity that the client was sent. */
  lemma CopiesExactly(ctx: Ctx, world: seq<Snapshot>, vs: Views)
    requires DistinctIds(world)
    ensures var (vs', plan) := FullTick(ctx, world, vs);
            Delivered(Incarnations(vs), world, plan) == Incarnations(vs') <==> KeepsEntities(ctx, world, vs)
  {
    hide FullTick, Delivered, KeepsItsEntity, DistinctIds;
    var (vs', plan) := FullTick(ctx, world, vs);
    var after, want := Delivered(Incarnations(vs), world, plan), Incarnations(vs');
    forall id
      ensures id in after <==> id in want
      ensures id in after ==> (after[id] == want[id] <==> KeepsItsEntity(ctx, world, vs, id))
      ensures id !in after ==> KeepsItsEntity(ctx, world, vs, id)
    {
      CopyAt(ctx, world, vs, id);
    }
    if !KeepsEntities(ctx, world, vs) {
      var id :| !KeepsItsEntity(ctx, world, vs, id);
      assert after[id] != want[id];
    }
  }

  /** What a client holds after a run, when every plan arrives. */
  ghost function Copies(evs: seq<Event>): map<Id, nat> {
    if evs == [] then map[]
    else
      var before, ev := evs[..|evs| - 1], evs[|evs| - 1];
      if ev.Tick? then Delivered(Copies(before), ev.world, FullTick(ev.ctx, ev.world, Play(before).views).1)
      else Copies(before)
  }

  ghost predicate NoReuse(evs: seq<Event>) {
    forall n :: 0 <= n < |evs| && evs[n].Tick? ==> KeepsEntities(evs[n].ctx, evs[n].world, Play(evs[..n]).views)
  }

  /** Over every run in which ids keep their entities while in view, and nothing is re-created, the
      client holds exactly the entities that the server takes it to hold. */
  lemma {:induction false} CopiesFollow(evs: seq<Event>)
    requires (forall k :: 0 <= k < |evs| ==> Plausible(evs[k]) && !Recreates(evs[k])) && NoReuse(evs)
    ensures Copies(evs) == Incarnations(Play(evs).views)
  {
    hide FullTick, Delivered, KeepsEntities, RolledBack, AllRolledBack, Incarnations;
    if evs == [] {
      NoIncarnations();
    } else {
      var n := |evs| - 1;
      var before, ev := evs[..n], evs[n];
      NoReuseBefore(evs);
      CopiesFollow(before);
      match ev {
        case Tick(ctx, world) =>
          assert KeepsEntities(evs[n].ctx, evs[n].world, Play(evs[..n]).views);
          CopiesExactly(ctx, world, Play(before).views);
        case Rollback(id, frame, _) => RollbacksKeepIncarnations(Play(before).views, id, frame);
        case RollbackAll(frame) => RollbacksKeepIncarnations(Play(before).views, 0, frame);
        case ForceRecreate(_) =>
      }
    }
  }

  lemma NoIncarnations()
    ensures Incarnations(map[]) == map[]
  {
  }

  lemma NoReuseBefore(evs: seq<Event>)
    requires NoReuse(evs) && evs != []
    ensures NoReuse(evs[..|evs| - 1])
  {
    hide KeepsEntities, Play;
    var before := evs[..|evs| - 1];
    forall n | 0 <= n < |before| && before[n].Tick?
      ensures KeepsEntities(before[n].ctx, before[n].world, Play(before[..n]).views)
    {
      assert before[n] == evs[n] && before[..n] == evs[..n];
    }
  }

  lemma RollbacksKeepIncarnations(vs: Views, id: Id, frame: nat)
    ensures Incarnations(RolledBack(vs, id, frame, false)) == Incarnations(vs)
    ensures Incarnations(AllRolledBack(vs, frame)) == Incarnations(vs)
  {
  }

  // ----- the byte budget -----

  /** The snapshot with the given id. */
  function EntityOf(world: seq<Snapshot>, id: Id): Snapshot
    requires KnownId(world, id)
    decreases |world|
  {
    var n := |world| - 1;
    if world[n].objectId == id then world[n]
    else
      assert KnownId(world[..n], id) by {
        var i :| 0 <= i < |world| && world[i].objectId == id;
        assert world[..n][i].objectId == id;
      }
      EntityOf(world[..n], id)
  }

  lemma {:induction false} EntityOfIndex(world: seq<Snapshot>, i: nat)
    requires DistinctIds(world) && i < |world|
    ensures EntityOf(world, world[i].objectId) == world[i]
  {
    var n := |world| - 1;
    if i < n {
      EntityOfIndex(world[..n], i);
      assert world[..n][i] == world[i];
    }
  }

  predicate KnownId(world: seq<Snapshot>, id: Id) {
    exists i :: 0 <= i < |world| && world[i].objectId == id
  }

  predicate Known(world: seq<Snapshot>, ids: seq<Id>) {
    forall k :: 0 <= k < |ids| ==> KnownId(world, ids[k])
  }

  /** What sending these entities costs: a header of 22 bytes each, and their data. */
  function TotalCost(world: seq<Snapshot>, ids: seq<Id>): nat
    requires Known(world, ids)
  {
    if ids == [] then 0 else TotalCost(world, ids[..|ids| - 1]) + 22 + EntityOf(world, ids[|ids| - 1]).dataLen
  }

  lemma TotalCostSnoc(world: seq<Snapshot>, ids: seq<Id>, i: nat)
    requires DistinctIds(world) && Known(world, ids) && i < |world|
    ensures Known(world, ids + [world[i].objectId])
    ensures TotalCost(world, ids + [world[i].objectId]) == TotalCost(world, ids) + Cost(world[i])
  {
    var r := ids + [world[i].objectId];
    assert r[..|r| - 1] == ids;
    forall k | 0 <= k < |r| ensures KnownId(world, r[k]) {
      if k < |ids| { assert r[k] == ids[k]; }
    }
    EntityOfIndex(world, i);
  }

  /** `spent` is the cost of everything sent; it exceeds the budget only if one thing was sent. */
  ghost predicate WithinBudget(cfg: Config, world: seq<Snapshot>, out: Out) {
    && Known(world, out.creates) && Known(world, out.syncs)
    && out.spent == TotalCost(world, out.creates) + TotalCost(world, out.syncs)
    && (out.spent == 0 <==> out.creates == [] && out.syncs == [])
    && (out.spent <= cfg.budget || |out.creates| + |out.syncs| == 1)
  }

  lemma {:induction false} FillWithinBudget(ctx: Ctx, world: seq<Snapshot>, cs: seq<Candidate>, vs: Views)
    requires DistinctIds(world) && Offerable(world, cs, vs)
    ensures WithinBudget(ctx.cfg, world, Fill(ctx, world, cs, Out(vs, [], [], 0)))
  {
    hide DistinctIds, Known;
    if cs == [] {
      KnownNothing(world);
    } else {
      var n := |cs| - 1;
      FillWithinBudget(ctx, world, cs[..n], vs);
      var out := Fill(ctx, world, cs[..n], Out(vs, [], [], 0));
      TotalCostSnoc(world, out.creates, cs[n].index);
      TotalCostSnoc(world, out.syncs, cs[n].index);
    }
  }

  lemma KnownNothing(world: seq<Snapshot>)
    ensures Known(world, [])
  {
  }

  /** In any tick the total cost of what is sent is within the budget, or a single entity was sent:
      it is at most the larger of the budget and the first send's cost. */
  lemma TickWithinBudget(ctx: Ctx, world: seq<Snapshot>, vs: Views)
    requires DistinctIds(world)
    ensures var plan := FullTick(ctx, world, vs).1;
            && Known(world, plan.creates) && Known(world, plan.syncs)
            && (TotalCost(world, plan.creates) + TotalCost(world, plan.syncs) <= ctx.cfg.budget
                || |plan.creates| + |plan.syncs| == 1)
  {
    hide TickOver, Sort, Fill, ScanOver, Scanned, Offerable, DistinctIds;
    AllOrder(world);
    var s, gone, cs, out := TickParts(ctx, world, All(|world|), vs);
    FillWithinBudget(ctx, world, cs, s.views - Listed(gone));
  }

  // ----- nothing waits for ever -----

  /** Entities in scope that still have something to send. */
  function Pending(ctx: Ctx, world: seq<Snapshot>, vs: Views): set<nat> {
    set i | 0 <= i < |world| && Relevant(ctx, vs, world[i]) && Wants(vs, world[i])
  }

  predicate Wants(vs: Views, e: Snapshot) {
    e.objectId in vs ==> NeedsSend(vs[e.objectId], e)
  }

  /** Each candidate's view is as before, or the candidate needed sending and was sent. */
  ghost predicate Served(world: seq<Snapshot>, cs: seq<Candidate>, vs: Views, r: Out)
    requires Offerable(world, cs, vs) && r.views.Keys == vs.Keys
  {
    forall k :: 0 <= k < |cs| ==>
      var v, e := vs[cs[k].id], world[cs[k].index];
      r.views[cs[k].id] == v
      || (NeedsSend(v, e) && r.views[cs[k].id] == Sent(v, e) && (cs[k].id in r.creates || cs[k].id in r.syncs))
  }

  lemma {:induction false} FillServes(ctx: Ctx, world: seq<Snapshot>, cs: seq<Candidate>, vs: Views)
    requires Offerable(world, cs, vs) && DistinctCandidates(cs)
    ensures Served(world, cs, vs, Fill(ctx, world, cs, Out(vs, [], [], 0)))
  {
    hide Offer, Served;
    if cs == [] {
      NothingServed(world, vs, Fill(ctx, world, cs, Out(vs, [], [], 0)));
    } else {
      var n := |cs| - 1;
      var before, c := cs[..n], cs[n];
      FillServes(ctx, world, before, vs);
      var mid := Fill(ctx, world, before, Out(vs, [], [], 0));
      FillLeaves(ctx, world, before, vs, c.id);
      OfferServes(ctx, world, before, c, vs, mid);
      assert cs == before + [c];
    }
  }

  lemma NothingServed(world: seq<Snapshot>, vs: Views, r: Out)
    requires r.views.Keys == vs.Keys
    ensures Served(world, [], vs, r)
  {
  }

  /** Filling leaves the views of others alone. */
  lemma FillLeaves(ctx: Ctx, world: seq<Snapshot>, cs: seq<Candidate>, vs: Views, id: Id)
    requires Offerable(world, cs, vs) && DistinctCandidates(cs) && id in vs
    requires forall k :: 0 <= k < |cs| ==> cs[k].id != id
    ensures Fill(ctx, world, cs, Out(vs, [], [], 0)).views[id] == vs[id]
  {
    hide Fill, Created, Listed;
    FillCreates(ctx, world, cs, vs);
  }

  lemma OfferServes(ctx: Ctx, world: seq<Snapshot>, cs: seq<Candidate>, c: Candidate, vs: Views, out: Out)
    requires Offerable(world, cs, vs) && out.views.Keys == vs.Keys && Served(world, cs, vs, out)
    requires c.index < |world| && c.id in vs && world[c.index].objectId == c.id && out.views[c.id] == vs[c.id]
    requires forall k :: 0 <= k < |cs| ==> cs[k].id != c.id
    ensures Offerable(world, cs + [c], vs) && Served(world, cs + [c], vs, Offer(ctx, world, c, out))
  {
    hide NeedsSend, Cost;
    var all, r := cs + [c], Offer(ctx, world, c, out);
    forall k | 0 <= k < |all|
      ensures all[k].index < |world| && world[all[k].index].objectId == all[k].id && all[k].id in vs
    {
      if k < |cs| { assert all[k] == cs[k]; }
    }
    forall k | 0 <= k < |all|
      ensures var v, e := vs[all[k].id], world[all[k].index];
              r.views[all[k].id] == v
              || (NeedsSend(v, e) && r.views[all[k].id] == Sent(v, e) &&
                  (all[k].id in r.creates || all[k].id in r.syncs))
    {
      if k < |cs| { assert all[k] == cs[k]; }
    }
  }

  predicate Idle(world: seq<Snapshot>, cs: seq<Candidate>, vs: Views)
    requires Offerable(world, cs, vs)
  {
    forall k :: 0 <= k < |cs| ==> !NeedsSend(vs[cs[k].id], world[cs[k].index])
  }

  lemma {:induction false} FillIdle(ctx: Ctx, world: seq<Snapshot>, cs: seq<Candidate>, vs: Views)
    requires Offerable(world, cs, vs) && Idle(world, cs, vs)
    ensures Fill(ctx, world, cs, Out(vs, [], [], 0)) == Out(vs, [], [], 0)
  {
    if cs != [] {
      FillIdle(ctx, world, cs[..|cs| - 1], vs);
    }
  }

  /** If any candidate needs sending, one is sent. */
  lemma {:induction false} FillSendsOne(ctx: Ctx, world: seq<Snapshot>, cs: seq<Candidate>, vs: Views) returns (k: nat)
    requires Offerable(world, cs, vs) && DistinctCandidates(cs) && !Idle(world, cs, vs)
    ensures k < |cs| && NeedsSend(vs[cs[k].id], world[cs[k].index])
    ensures Fill(ctx, world, cs, Out(vs, [], [], 0)).views[cs[k].id] == Sent(vs[cs[k].id], world[cs[k].index])
  {
    hide Cost, NeedsSend, Sent;
    var n := |cs| - 1;
    var before, c := cs[..n], cs[n];
    assert forall m :: 0 <= m < n ==> before[m] == cs[m];
    if Idle(world, before, vs) {
      FillIdle(ctx, world, before, vs);
      k := n;
    } else {
      k := FillSendsOne(ctx, world, before, vs);
      assert before[k] == cs[k] && cs[k].id != c.id;
    }
  }

  lemma SquareOfSum(a: real, h: real)
    requires a > 0.0 && h >= 0.0
    ensures a * a <= (a + h) * (a + h)
  {
    if h > 0.0 {
      SquareGrows(a, a + h);
    }
  }

  /** A client that keeps an entity in view judges it no more strictly than before. */
  lemma RelevanceLasts(ctx: Ctx, a: Views, b: Views, e: Snapshot)
    requires ctx.cfg.Valid() && Relevant(ctx, a, e) && (e.objectId in a ==> e.objectId in b)
    ensures Relevant(ctx, b, e)
  {
    SquareOfSum(ctx.cfg.aoiRadius, ctx.cfg.hysteresis);
  }

  /** A relevant entity is offered, with its creation state and base frame as they were. */
  lemma RelevantIsOffered(ctx: Ctx, world: seq<Snapshot>, order: seq<nat>, vs: Views, s: Scan, i: nat) returns (k: nat)
    requires InRange(order, world) && Scanned(ctx, world, order, Reset(vs), s)
    requires i < |world| && i in order && Relevant(ctx, Reset(vs), world[i])
    ensures var cs := Sort(s.candidates); k < |cs| && cs[k].id == world[i].objectId && cs[k].index == i
    ensures world[i].objectId in s.views
    ensures NeedsSend(s.views[world[i].objectId], world[i]) <==> Wants(vs, world[i])
  {
    hide Sort, Hit;
    var m :| 0 <= m < |order| && order[m] == i;
    var c := CandidateFor(ctx, world, Reset(vs), i);
    assert c in s.candidates;
    SortMembers(s.candidates, c);
    k :| 0 <= k < |Sort(s.candidates)| && Sort(s.candidates)[k] == c;
  }

  lemma OfferedIsRelevant(ctx: Ctx, world: seq<Snapshot>, order: seq<nat>, vs: Views, s: Scan, k: nat)
    requires InRange(order, world) && Scanned(ctx, world, order, Reset(vs), s) && k < |Sort(s.candidates)|
    ensures var c := Sort(s.candidates)[k];
            c.index < |world| && world[c.index].objectId == c.id && Relevant(ctx, Reset(vs), world[c.index]) &&
                c.index in order
  {
    hide Sort, Touch, Relevant;
    var c := Sort(s.candidates)[k];
    assert c in Sort(s.candidates);
    SortMembers(s.candidates, c);
    var m :| 0 <= m < |order| && Relevant(ctx, Reset(vs), world[order[m]]) &&
        c == CandidateFor(ctx, world, Reset(vs), order[m]);
  }

  lemma SameRelevance(ctx: Ctx, vs: Views, e: Snapshot)
    ensures Relevant(ctx, Reset(vs), e) <==> Relevant(ctx, vs, e)
  {
  }

  /** After a tick nothing new is pending, and what is no longer pending was sent. */
  lemma PendingOnlyLeavesBySending(ctx: Ctx, world: seq<Snapshot>, vs: Views, i: nat)
    requires DistinctIds(world) && ctx.cfg.Valid() && i < |world|
    ensures var (vs', plan) := FullTick(ctx, world, vs);
            && (i in Pending(ctx, world, vs') ==> i in Pending(ctx, world, vs))
            && (i in Pending(ctx, world, vs) && i !in Pending(ctx, world, vs') ==>
                  world[i].objectId in plan.creates || world[i].objectId in plan.syncs)
  {
    hide TickOver, ScanOver, Sort, Fill, Offerable, Relevant, NeedsSend, ScannedCandidates;
    var order, e := All(|world|), world[i];
    AllOrder(world);
    assert order[i] == i && i in order;
    var s, gone, cs, out := TickParts(ctx, world, order, vs);
    var kept := s.views - Listed(gone);
    SameRelevance(ctx, vs, e);
    if Relevant(ctx, vs, e) {
      var k := RelevantIsOffered(ctx, world, order, vs, s, i);
      FillServes(ctx, world, cs, kept);
      OfferedIsKept(world, cs, kept, k);
      RelevanceLasts(ctx, vs, out.views, e);
      SentNeedsNothing(kept[e.objectId], e);
    } else if Relevant(ctx, out.views, e) {
      IrrelevantStaysOut(ctx, world, order, vs, s, i);
      RelevanceLasts(ctx, out.views, vs, e);
    }
  }

  lemma SentNeedsNothing(v: View, e: Snapshot)
    ensures !NeedsSend(Sent(v, e), e)
  {
  }

  lemma OfferedIsKept(world: seq<Snapshot>, cs: seq<Candidate>, vs: Views, k: nat)
    requires Offerable(world, cs, vs) && k < |cs|
    ensures cs[k].id in vs
  {
  }

  lemma IrrelevantStaysOut(ctx: Ctx, world: seq<Snapshot>, order: seq<nat>, vs: Views, s: Scan, i: nat)
    requires DistinctIds(world) && InRange(order, world) && Scanned(ctx, world, order, Reset(vs), s)
    requires i < |world| && !Relevant(ctx, Reset(vs), world[i])
    ensures world[i].objectId in s.views ==> world[i].objectId in vs
  {
    hide Relevant, Touch, ScannedCandidates;
    var v0, id := Reset(vs), world[i].objectId;
    assert forall k :: 0 <= k < |order| && world[order[k]].objectId == id ==> order[k] == i;
  }

  /** A tick with something pending sends at least one pending entity. */
  lemma PendingShrinks(ctx: Ctx, world: seq<Snapshot>, vs: Views)
    requires DistinctIds(world) && ctx.cfg.Valid() && Pending(ctx, world, vs) != {}
    ensures Pending(ctx, world, FullTick(ctx, world, vs).0) < Pending(ctx, world, vs)
  {
    hide TickOver, ScanOver, Sort, Fill, Relevant, NeedsSend, Scanned;
    var order := All(|world|);
    AllOrder(world);
    var s, gone, cs, out := TickParts(ctx, world, order, vs);
    var kept := s.views - Listed(gone);
    var i :| i in Pending(ctx, world, vs);
    assert order[i] == i && i in order;
    SameRelevance(ctx, vs, world[i]);
    var m := RelevantIsOffered(ctx, world, order, vs, s, i);
    assert NeedsSend(kept[cs[m].id], world[cs[m].index]);
    var k := FillSendsOne(ctx, world, cs, kept);
    var j := cs[k].index;
    OfferedIsRelevant(ctx, world, order, vs, s, k);
    var k' := RelevantIsOffered(ctx, world, order, vs, s, j);
    SameRelevance(ctx, vs, world[j]);
    SentNeedsNothing(kept[cs[k].id], world[j]);
    assert j in Pending(ctx, world, vs) && j !in Pending(ctx, world, out.views);
    forall p | p in Pending(ctx, world, out.views) ensures p in Pending(ctx, world, vs) {
      PendingOnlyLeavesBySending(ctx, world, vs, p);
    }
  }

  /** A fresh client is sent the only entity there is. */
  lemma OnlyEntityIsCreated(ctx: Ctx, e: Snapshot)
    requires ctx.cfg.Valid() && Relevant(ctx, map[], e)
    ensures var (vs, plan) := FullTick(ctx, [e], map[]); e.objectId in plan.creates && e.objectId in Created(vs)
  {
    hide FullTick, TickOver, Relevant;
    var world, none: Views := [e], map[];
    assert Pending(ctx, world, none) == {0};
    PendingShrinks(ctx, world, none);
    PendingOnlyLeavesBySending(ctx, world, none, 0);
    assert Pending(ctx, world, FullTick(ctx, world, none).0) == {};
    AllOrder(world);
    FullTickIs(ctx, world, none);
    TickMatchesClient(ctx, world, All(1), none);
    CreatedOfNothing();
    assert e.objectId !in Listed(FullTick(ctx, world, none).1.syncs);
  }

  lemma FullTickIs(ctx: Ctx, world: seq<Snapshot>, vs: Views)
    ensures FullTick(ctx, world, vs) == TickOver(ctx, world, All(|world|), vs)
  {
  }

  /** An id that is given to another entity while it is in view: the view takes over the new entity's
      uniqifier as created, so the client is left with the old one. */
  lemma ReusedIdIsMistaken(ctx: Ctx, e: Snapshot, u: nat)
    requires ctx.cfg.Valid() && Relevant(ctx, map[], e) && u != e.uniqifier
    ensures var evs := [Tick(ctx, [e]), Tick(ctx, [e.(uniqifier := u)])];
            Copies(evs) != Incarnations(Play(evs).views)
  {
    hide FullTick, Relevant, Delivered, Incarnations, KeepsEntities;
    var a, b := Tick(ctx, [e]), Tick(ctx, [e.(uniqifier := u)]);
    var evs := [a, b];
    assert evs[..1] == [a] && [a][..0] == [];
    var vs := FullTick(ctx, [e], map[]).0;
    assert Play([]).views == map[] && Copies([]) == map[];
    assert Play([a]).views == vs;
    NoIncarnations();
    NothingSentYet(ctx, [e]);
    CopiesExactly(ctx, [e], map[]);
    assert Copies([a]) == Incarnations(vs);
    SentAs(ctx, e);
    assert !KeepsEntities(ctx, [e.(uniqifier := u)], vs) by { Contradicted(ctx, e, u, vs); }
    CopiesExactly(ctx, [e.(uniqifier := u)], vs);
    assert Play(evs).views == FullTick(ctx, [e.(uniqifier := u)], Play(evs[..1]).views).0;
    assert Copies(evs) == Delivered(Copies(evs[..1]), [e.(uniqifier := u)], FullTick(ctx, [e.(uniqifier := u)], vs).1);
  }

  lemma NothingSentYet(ctx: Ctx, world: seq<Snapshot>)
    ensures KeepsEntities(ctx, world, map[])
  {
  }

  lemma SentAs(ctx: Ctx, e: Snapshot)
    requires ctx.cfg.Valid() && Relevant(ctx, map[], e)
    ensures var vs := FullTick(ctx, [e], map[]).0;
            e.objectId in vs && vs[e.objectId].created && vs[e.objectId].uniqifier == e.uniqifier
  {
    hide FullTick, Relevant, KeepsEntities;
    OnlyEntityIsCreated(ctx, e);
    NothingSentYet(ctx, [e]);
    CopiesExactly(ctx, [e], map[]);
    var (vs, plan) := FullTick(ctx, [e], map[]);
    UniqifierOfIndex([e], 0);
    assert Delivered(Incarnations(map[]), [e], plan)[e.objectId] == e.uniqifier;
    assert Incarnations(vs)[e.objectId] == e.uniqifier;
  }

  lemma Contradicted(ctx: Ctx, e: Snapshot, u: nat, vs: Views)
    requires ctx.cfg.Valid() && Relevant(ctx, map[], e) && u != e.uniqifier
    requires e.objectId in vs && vs[e.objectId].created && vs[e.objectId].uniqifier == e.uniqifier
    ensures !KeepsEntities(ctx, [e.(uniqifier := u)], vs)
  {
    RelevanceLasts(ctx, map[], vs, e);
    assert Relevant(ctx, vs, [e.(uniqifier := u)][0]);
    assert !KeepsItsEntity(ctx, [e.(uniqifier := u)], vs, e.objectId);
  }

  /** The views after `k` ticks with world and focus held fixed. */
  ghost function After(ctx: Ctx, world: seq<Snapshot>, vs: Views, k: nat): Views
    decreases k
  {
    if k == 0 then vs else After(ctx, world, FullTick(ctx, world, vs).0, k - 1)
  }

  lemma {:induction false} ProperSubsetSmaller(a: set<nat>, b: set<nat>)
    requires a < b
    ensures |a| < |b|
  {
    var x :| x in b && x !in a;
    assert a <= b - {x};
    SubsetNotLarger(a, b - {x});
  }

  lemma {:induction false} SubsetNotLarger(a: set<nat>, b: set<nat>)
    requires a <= b
    ensures |a| <= |b|
    decreases |a|
  {
    if a != {} {
      var x :| x in a;
      SubsetNotLarger(a - {x}, b - {x});
    }
  }

  /** With world and focus fixed, k pending entities are all sent within k ticks. */
  lemma {:induction false} AllSentWithin(ctx: Ctx, world: seq<Snapshot>, vs: Views, k: nat)
    requires DistinctIds(world) && ctx.cfg.Valid() && |Pending(ctx, world, vs)| <= k
    ensures Pending(ctx, world, After(ctx, world, vs, k)) == {}
    decreases k
  {
    hide Pending, FullTick;
    if k > 0 {
      var vs' := FullTick(ctx, world, vs).0;
      if Pending(ctx, world, vs) != {} {
        PendingShrinks(ctx, world, vs);
        ProperSubsetSmaller(Pending(ctx, world, vs'), Pending(ctx, world, vs));
      } else {
        StillNothingPending(ctx, world, vs);
      }
      AllSentWithin(ctx, world, vs', k - 1);
    }
  }

  lemma StillNothingPending(ctx: Ctx, world: seq<Snapshot>, vs: Views)
    requires DistinctIds(world) && ctx.cfg.Valid() && Pending(ctx, world, vs) == {}
    ensures Pending(ctx, world, FullTick(ctx, world, vs).0) == {}
  {
    hide TickOver, Relevant, NeedsSend;
    var vs' := FullTick(ctx, world, vs).0;
    forall i | i in Pending(ctx, world, vs') ensures false {
      PendingOnlyLeavesBySending(ctx, world, vs, i);
    }
  }

  // ----- which entities a tick is about -----

  /** An entity concerns a client: it is not the client's own, is in its bucket, and is within the radius,
      or within the wider one if the client has it in view. */
  predicate Concerns(ctx: Ctx, inView: bool, e: Snapshot) {
    && e.owner != ctx.netId
    && e.bucket == ctx.focus.bucket
    && var dx, dy := e.x - ctx.focus.x, e.y - ctx.focus.y;
       var r := if inView then ctx.cfg.aoiRadius + ctx.cfg.hysteresis else ctx.cfg.aoiRadius;
       dx * dx + dy * dy <= r * r
  }

  lemma ConcernsIsRelevant(ctx: Ctx, vs: Views, e: Snapshot)
    ensures Relevant(ctx, vs, e) <==> Concerns(ctx, e.objectId in vs, e)
  {
  }

  /** An entity is pending exactly if it concerns the client and was never sent or has changed since. */
  lemma PendingExactly(ctx: Ctx, world: seq<Snapshot>, vs: Views, i: nat)
    ensures i in Pending(ctx, world, vs) <==>
              && i < |world| && Concerns(ctx, world[i].objectId in vs, world[i])
              && (world[i].objectId in vs && vs[world[i].objectId].created ==>
                    world[i].frame > vs[world[i].objectId].baseFrame)
  {
    hide Relevant, Concerns;
    if i < |world| {
      ConcernsIsRelevant(ctx, vs, world[i]);
    }
  }

  /** What a tick sends was pending: a create for what the client was never sent, a sync for what it was. */
  lemma SentWasPending(ctx: Ctx, world: seq<Snapshot>, vs: Views, id: Id) returns (i: nat)
    requires DistinctIds(world)
    requires var plan := FullTick(ctx, world, vs).1; id in plan.creates || id in plan.syncs
    ensures i < |world| && world[i].objectId == id && i in Pending(ctx, world, vs)
    ensures id in FullTick(ctx, world, vs).1.syncs <==> id in vs && vs[id].created
  {
    hide TickOver, ScanOver, Sort, Fill, Offerable, Relevant, NeedsSend, Created, Listed, Sent;
    AllOrder(world);
    var order := All(|world|);
    var s, gone, cs, out := TickParts(ctx, world, order, vs);
    var kept := s.views - Listed(gone);
    FillCreates(ctx, world, cs, kept);
    FillServes(ctx, world, cs, kept);
    var k :| 0 <= k < |cs| && cs[k].id == id;
    OfferedIsRelevant(ctx, world, order, vs, s, k);
    i := cs[k].index;
    SameRelevance(ctx, vs, world[i]);
    var k' := RelevantIsOffered(ctx, world, order, vs, s, i);
    SentNeeded(ctx, world, cs, kept, k);
    KeptIs(s.views, gone, id);
    TickMatchesClient(ctx, world, order, vs);
    CreatedHere(vs, out.views, id);
    ListedHas(out.creates, id);
    ListedHas(out.syncs, id);
  }

  lemma ListedHas(ids: seq<Id>, id: Id)
    ensures id in Listed(ids) <==> id in ids
  {
  }

  lemma KeptIs(vs: Views, gone: seq<Id>, id: Id)
    ensures id in vs - Listed(gone) ==> id in vs && (vs - Listed(gone))[id] == vs[id]
  {
  }

  /** What filling sends needed sending. */
  lemma {:induction false} SentNeeded(ctx: Ctx, world: seq<Snapshot>, cs: seq<Candidate>, vs: Views, k: nat)
    requires Offerable(world, cs, vs) && DistinctCandidates(cs) && k < |cs|
    requires var r := Fill(ctx, world, cs, Out(vs, [], [], 0)); cs[k].id in r.creates || cs[k].id in r.syncs
    ensures NeedsSend(vs[cs[k].id], world[cs[k].index])
  {
    hide Cost, NeedsSend, Sent;
    var n := |cs| - 1;
    var before, c := cs[..n], cs[n];
    var mid := Fill(ctx, world, before, Out(vs, [], [], 0));
    if k < n {
      assert before[k] == cs[k] && c.id != cs[k].id;
      SentNeeded(ctx, world, before, vs, k);
    } else {
      FillLeaves(ctx, world, before, vs, c.id);
      FillSendsMentioned(ctx, world, before, vs, c.id);
    }
  }

  lemma FillSendsMentioned(ctx: Ctx, world: seq<Snapshot>, cs: seq<Candidate>, vs: Views, id: Id)
    requires Offerable(world, cs, vs) && DistinctCandidates(cs) && forall k :: 0 <= k < |cs| ==> cs[k].id != id
    ensures var r := Fill(ctx, world, cs, Out(vs, [], [], 0)); id !in r.creates && id !in r.syncs
  {
    hide Fill, Created, Listed;
    FillCreates(ctx, world, cs, vs);
  }

  /** A rollback makes everything newer than the frame pending again, and a forced re-creation everything. */
  lemma RollbackResends(ctx: Ctx, world: seq<Snapshot>, vs: Views, i: nat, frame: nat)
    requires i < |world| && world[i].objectId in vs && Concerns(ctx, true, world[i])
    ensures var id := world[i].objectId;
            && (world[i].frame > frame ==> i in Pending(ctx, world, RolledBack(vs, id, frame, false)))
            && (world[i].frame > frame ==> i in Pending(ctx, world, AllRolledBack(vs, frame)))
            && i in Pending(ctx, world, RolledBack(vs, id, frame, true)) && i in Pending(ctx, world, Recreated(vs, id))
  {
    hide Concerns, Pending;
    var id := world[i].objectId;
    PendingExactly(ctx, world, RolledBack(vs, id, frame, false), i);
    PendingExactly(ctx, world, AllRolledBack(vs, frame), i);
    PendingExactly(ctx, world, RolledBack(vs, id, frame, true), i);
    PendingExactly(ctx, world, Recreated(vs, id), i);
  }

  // ----- what leaves, and in which order -----

  /** A view that no entity concerning the client has any more. */
  ghost predicate Left(ctx: Ctx, world: seq<Snapshot>, vs: Views, id: Id) {
    id in vs && forall i :: 0 <= i < |world| && world[i].objectId == id ==> !Concerns(ctx, true, world[i])
  }

  lemma LeftIsUnseen(ctx: Ctx, world: seq<Snapshot>, vs: Views, r: Views, id: Id)
    requires InRange(All(|world|), world) && ScannedViews(ctx, world, All(|world|), Reset(vs), r)
    ensures id in r && !r[id].seen <==> Left(ctx, world, vs, id)
    ensures id in r && !r[id].seen ==> r[id].uniqifier == vs[id].uniqifier
  {
    hide Relevant, KeepsItsEntity, Concerns, Touch;
    forall i | 0 <= i < |world| && world[i].objectId == id
      ensures Relevant(ctx, vs, world[i]) <==> Concerns(ctx, id in vs, world[i])
    {
      ConcernsIsRelevant(ctx, vs, world[i]);
    }
    if id in r {
      var i := ScanUniqifier(ctx, world, vs, r, id);
      UnseenIsNotHit(ctx, world, vs, r, id);
    }
  }

  lemma UnseenIsNotHit(ctx: Ctx, world: seq<Snapshot>, vs: Views, r: Views, id: Id)
    requires InRange(All(|world|), world) && ScannedViews(ctx, world, All(|world|), Reset(vs), r) && id in r
    ensures !r[id].seen ==> forall i :: 0 <= i < |world| && world[i].objectId == id ==> !Relevant(ctx, vs, world[i])
  {
    hide Relevant;
    var order := All(|world|);
    if !r[id].seen {
      forall i | 0 <= i < |world| && world[i].objectId == id ensures !Relevant(ctx, vs, world[i]) {
        SameRelevance(ctx, vs, world[i]);
        assert order[i] == i;
      }
    }
  }

  /** A tick removes, under its last uniqifier, only what left view; if something that left stays, as many
      as the remove budget allows, 8 bytes each and at least one, were removed, all of lower ids. */
  lemma RemovesExactly(ctx: Ctx, world: seq<Snapshot>, vs: Views, id: Id)
    requires DistinctIds(world)
    ensures var (vs', plan) := FullTick(ctx, world, vs);
            && (id in RemovedIds(plan) ==>
                  Left(ctx, world, vs, id) && (id, vs[id].uniqifier) in plan.removes && id !in vs')
            && (Left(ctx, world, vs, id) && id !in RemovedIds(plan) ==>
                  && id in vs' && (forall x :: x in RemovedIds(plan) ==> x < id)
                  && |plan.removes| == if ctx.cfg.removeBudget < 16 then 1 else ctx.cfg.removeBudget / 8)
  {
    hide TickOver, ScanOver, Sort, Fill, Offerable, Relevant, RemovedIds, Created, Concerns, Exits;
    AllOrder(world);
    var order := All(|world|);
    var s, gone, cs, out := TickParts(ctx, world, order, vs);
    LeftIsUnseen(ctx, world, vs, s.views, id);
    ExitsAreLowest(ctx.cfg, s.views, id);
    if id in gone {
      RemovesHas(s.views, gone, id, s.views[id].uniqifier);
    }
  }

  lemma ExitsAreLowest(cfg: Config, vs: Views, id: Id)
    ensures id in vs && !vs[id].seen && id !in Exits(cfg, vs) ==>
              |Exits(cfg, vs)| == MaxRemoves(cfg) && forall x :: x in Exits(cfg, vs) ==> x < id
  {
    hide Ascending;
    var all := Ascending(ExitSet(vs));
    AscendingListed(ExitSet(vs));
    if id in vs && !vs[id].seen && id !in Exits(cfg, vs) {
      assert id in Listed(all);
      var k :| 0 <= k < |all| && all[k] == id;
    }
  }

  /** What an entity's priority comes to in this tick: what it had, and what it gains, up to a ceiling. */
  function Accrued(ctx: Ctx, vs: Views, e: Snapshot): real {
    var p := (if e.objectId in vs then vs[e.objectId].priority else 0.0) + ctx.cfg.gain(e, ctx.focus);
    if p < 1000000.0 then p else 1000000.0
  }

  lemma TouchAccrues(ctx: Ctx, vs: Views, e: Snapshot)
    ensures Touch(ctx, Reset(vs), e).priority == Accrued(ctx, vs, e)
  {
  }

  lemma {:induction false} TotalCostConcat(world: seq<Snapshot>, a: seq<Id>, b: seq<Id>)
    requires Known(world, a) && Known(world, b)
    ensures Known(world, a + b) && TotalCost(world, a + b) == TotalCost(world, a) + TotalCost(world, b)
  {
    hide KnownId;
    KnownConcat(world, a, b);
    if b == [] {
      assert a + b == a;
    } else {
      var n := |b| - 1;
      KnownConcat(world, a, b[..n]);
      TotalCostConcat(world, a, b[..n]);
      assert (a + b)[..|a + b| - 1] == a + b[..n];
    }
  }

  lemma KnownConcat(world: seq<Snapshot>, a: seq<Id>, b: seq<Id>)
    requires Known(world, a) && Known(world, b)
    ensures Known(world, a + b)
  {
    hide KnownId;
  }

  /** Later candidates take back nothing that was sent. */
  lemma {:induction false} FillGrows(ctx: Ctx, world: seq<Snapshot>, cs: seq<Candidate>, vs: Views, k: nat)
    requires Offerable(world, cs, vs) && k <= |cs|
    ensures var early, r := Fill(ctx, world, cs[..k], Out(vs, [], [], 0)), Fill(ctx, world, cs, Out(vs, [], [], 0));
            forall id :: (id in early.creates ==> id in r.creates) && (id in early.syncs ==> id in r.syncs)
  {
    hide Cost, NeedsSend, Sent;
    if k == |cs| {
      assert cs[..k] == cs;
    } else {
      FillGrows(ctx, world, cs[..|cs| - 1], vs, k);
      assert cs[..|cs| - 1][..k] == cs[..k];
    }
  }

  /** A candidate that needs sending and is not sent found the budget used up by those before it. */
  lemma PassedOver(ctx: Ctx, world: seq<Snapshot>, cs: seq<Candidate>, vs: Views, k: nat)
    requires DistinctIds(world) && Offerable(world, cs, vs) && DistinctCandidates(cs) && k < |cs|
    requires NeedsSend(vs[cs[k].id], world[cs[k].index])
    requires var r := Fill(ctx, world, cs, Out(vs, [], [], 0)); cs[k].id !in r.creates && cs[k].id !in r.syncs
    ensures Offerable(world, cs[..k], vs)
    ensures var early := Fill(ctx, world, cs[..k], Out(vs, [], [], 0));
            && WithinBudget(ctx.cfg, world, early) && Filled(cs[..k], vs, early)
            && early.spent > 0 && early.spent + 22 + world[cs[k].index].dataLen > ctx.cfg.budget
  {
    hide NeedsSend, Sent, DistinctIds, Filled, WithinBudget;
    var early := Fill(ctx, world, cs[..k], Out(vs, [], [], 0));
    FillWithinBudget(ctx, world, cs[..k], vs);
    FillCreates(ctx, world, cs[..k], vs);
    FillLeaves(ctx, world, cs[..k], vs, cs[k].id);
    FillGrows(ctx, world, cs, vs, k + 1);
    assert cs[..k + 1][..k] == cs[..k] && cs[..k + 1][k] == cs[k];
  }

  /** A pending entity is left over only when entities of at least its priority were sent before it and
      left too little of the budget. */
  lemma LeftOverIsOutranked(ctx: Ctx, world: seq<Snapshot>, vs: Views, i: nat) returns (ahead: seq<Id>)
    requires DistinctIds(world) && i in Pending(ctx, world, vs)
    requires var plan := FullTick(ctx, world, vs).1;
             world[i].objectId !in plan.creates && world[i].objectId !in plan.syncs
    ensures ahead != [] && Known(world, ahead) && TotalCost(world, ahead) + 22 + world[i].dataLen > ctx.cfg.budget
    ensures var plan := FullTick(ctx, world, vs).1;
            forall id :: id in ahead ==>
              && (id in plan.creates || id in plan.syncs)
              && KnownId(world, id) && Accrued(ctx, vs, EntityOf(world, id)) >= Accrued(ctx, vs, world[i])
  {
    hide TickOver, ScanOver, Sort, Fill, Offerable, Relevant, NeedsSend, Created, Listed, Sent, Accrued, TotalCost;
    hide KnownId, ScannedViews;
    AllOrder(world);
    var order := All(|world|);
    assert order[i] == i && i in order;
    var s, gone, cs, out := TickParts(ctx, world, order, vs);
    var kept := s.views - Listed(gone);
    SameRelevance(ctx, vs, world[i]);
    var k := RelevantIsOffered(ctx, world, order, vs, s, i);
    OfferedIsKept(world, cs, kept, k);
    KeptIs(s.views, gone, cs[k].id);
    PassedOver(ctx, world, cs, kept, k);
    var early := Fill(ctx, world, cs[..k], Out(kept, [], [], 0));
    ahead := early.creates + early.syncs;
    TotalCostConcat(world, early.creates, early.syncs);
    FillGrows(ctx, world, cs, kept, k);
    forall id | id in ahead
      ensures KnownId(world, id) && Accrued(ctx, vs, EntityOf(world, id)) >= Accrued(ctx, vs, world[i])
    {
      assert Mentions(cs[..k], id);
      var m :| 0 <= m < k && cs[..k][m].id == id;
      OutrankedBy(ctx, world, order, vs, s, m, k);
    }
  }

  lemma {:induction false} OutrankedBy(ctx: Ctx, world: seq<Snapshot>, order: seq<nat>, vs: Views, s: Scan,
                                       m: nat, k: nat)
    requires DistinctIds(world) && InRange(order, world) && Scanned(ctx, world, order, Reset(vs), s)
    requires m < k < |Sort(s.candidates)|
    ensures var a, b := Sort(s.candidates)[m], Sort(s.candidates)[k];
            && a.index < |world| && b.index < |world| && world[a.index].objectId == a.id && KnownId(world, a.id)
            && EntityOf(world, a.id) == world[a.index]
            && Accrued(ctx, vs, world[a.index]) >= Accrued(ctx, vs, world[b.index])
  {
    hide Sort, Relevant, Touch, Accrued, ScannedViews;
    var cs := Sort(s.candidates);
    SortSorts(s.candidates);
    CandidatePriority(ctx, world, order, vs, s, m);
    CandidatePriority(ctx, world, order, vs, s, k);
    EntityOfIndex(world, cs[m].index);
    assert Precedes(cs[m], cs[k]);
  }

  lemma CandidatePriority(ctx: Ctx, world: seq<Snapshot>, order: seq<nat>, vs: Views, s: Scan, k: nat)
    requires InRange(order, world) && Scanned(ctx, world, order, Reset(vs), s) && k < |Sort(s.candidates)|
    ensures var c := Sort(s.candidates)[k];
            c.index < |world| && world[c.index].objectId == c.id && c.priority == Accrued(ctx, vs, world[c.index])
  {
    hide Sort, Relevant, Touch, Accrued, ScannedViews;
    var c := Sort(s.candidates)[k];
    assert c in Sort(s.candidates);
    SortMembers(s.candidates, c);
    var m :| 0 <= m < |order| && Relevant(ctx, Reset(vs), world[order[m]]) &&
        c == CandidateFor(ctx, world, Reset(vs), order[m]);
    TouchAccrues(ctx, vs, world[order[m]]);
  }

  /** The view of an entity that concerns the client, after a tick: sent ones are up to date with their
      priority spent, the others keep what they accrued. */
  lemma ViewAfterTick(ctx: Ctx, world: seq<Snapshot>, vs: Views, i: nat)
    requires DistinctIds(world) && i < |world| && Concerns(ctx, world[i].objectId in vs, world[i])
    ensures var (vs', plan) := FullTick(ctx, world, vs); var e := world[i]; var id := e.objectId;
            && id in vs'
            && (id in plan.creates || id in plan.syncs ==> vs'[id] == View(0.0, e.frame, true, true, e.uniqifier))
            && (id !in plan.creates && id !in plan.syncs ==>
                  vs'[id] == if id in vs
                             then View(Accrued(ctx, vs, e), vs[id].baseFrame, vs[id].created, true, e.uniqifier)
                             else View(Accrued(ctx, vs, e), 0, false, true, e.uniqifier))
  {
    hide TickOver, ScanOver, Sort, Fill, Offerable, Relevant, NeedsSend, Created, Listed, Concerns, Accrued;
    hide ScannedCandidates;
    AllOrder(world);
    var order := All(|world|);
    assert order[i] == i && i in order;
    ConcernsIsRelevant(ctx, vs, world[i]);
    SameRelevance(ctx, vs, world[i]);
    var s, gone, cs, out := TickParts(ctx, world, order, vs);
    var kept := s.views - Listed(gone);
    var k := RelevantIsOffered(ctx, world, order, vs, s, i);
    OfferedIsKept(world, cs, kept, k);
    KeptIs(s.views, gone, cs[k].id);
    FillServes(ctx, world, cs, kept);
    UnsentKeeps(ctx, world, cs, kept, k);
    assert s.views[cs[k].id] == Touch(ctx, Reset(vs), world[order[i]]);
    TouchAccrues(ctx, vs, world[i]);
  }

  /** A candidate's view says whether it was sent. */
  lemma {:induction false} UnsentKeeps(ctx: Ctx, world: seq<Snapshot>, cs: seq<Candidate>, vs: Views, k: nat)
    requires Offerable(world, cs, vs) && DistinctCandidates(cs) && k < |cs|
    ensures var r := Fill(ctx, world, cs, Out(vs, [], [], 0)); var id := cs[k].id;
            r.views[id] == if id in r.creates || id in r.syncs then Sent(vs[id], world[cs[k].index]) else vs[id]
  {
    hide Cost, NeedsSend, Sent;
    var n := |cs| - 1;
    var before, c := cs[..n], cs[n];
    if k < n {
      assert before[k] == cs[k] && c.id != cs[k].id;
      UnsentKeeps(ctx, world, before, vs, k);
    } else {
      FillLeaves(ctx, world, before, vs, c.id);
      FillSendsMentioned(ctx, world, before, vs, c.id);
    }
  }

  // ----- the object -----

  /** Collects the ids of the views not seen this tick, in increasing order. */
  method CollectExits(vs: Views) returns (exited: seq<Id>)
    ensures exited == Ascending(ExitSet(vs))
  {
    exited := [];
    var todo := vs.Keys;
    while todo != {}
      invariant todo <= vs.Keys
      invariant Increasing(exited)
      invariant Listed(exited) == ExitSet(vs) - todo
      decreases todo
    {
      var id :| id in todo;
      todo := todo - {id};
      if !vs[id].seen {
        assert id !in Listed(exited);
        InsertIdIncreasing(exited, id);
        InsertIdMembers(exited, id);
        exited := InsertId(exited, id);
      }
    }
    assert Listed(exited) == ExitSet(vs);
    IncreasingIsAscending(exited);
  }

  /** Announces the first exits and forgets their views. */
  method DropExits(cfg: Config, start: Views) returns (vs: Views, removes: seq<(Id, nat)>)
    ensures vs == start - Listed(Exits(cfg, start)) && removes == Removes(start, Exits(cfg, start))
  {
    hide Ascending;
    var exited := CollectExits(start);
    var taken := Take(exited, MaxRemoves(cfg));
    assert taken == Exits(cfg, start);
    vs, removes := start, [];
    for k := 0 to |taken|
      invariant vs == start - Listed(taken[..k])
      invariant removes == Removes(start, taken)[..k]
    {
      assert taken[k] in taken && taken[..k + 1] == taken[..k] + [taken[k]];
      ListedSnoc(taken[..k], taken[k]);
      removes := removes + [(taken[k], start[taken[k]].uniqifier)];
      vs := vs - {taken[k]};
    }
    assert taken[..|taken|] == taken;
  }

  /** Visits the entities near the focus, touching views and collecting candidates. */
  method ScanNear(ctx: Ctx, world: seq<Snapshot>, order: seq<nat>, start: Views)
      returns (vs: Views, candidates: seq<Candidate>)
    requires InRange(order, world)
    ensures Scan(vs, candidates) == ScanOver(ctx, world, order, start)
  {
    hide Relevant, Touch;
    vs, candidates := Reset(start), [];
    for k := 0 to |order|
      invariant Scan(vs, candidates) == ScanOver(ctx, world, order[..k], start)
    {
      assert order[..k + 1][..k] == order[..k] && order[..k + 1][k] == order[k];
      var e := world[order[k]];
      if Relevant(ctx, vs, e) {
        var v := Touch(ctx, vs, e);
        vs := vs[e.objectId := v];
        candidates := candidates + [Candidate(e.objectId, v.priority, order[k])];
      }
    }
    assert order[..|order|] == order;
  }

  /** Offers the candidates in order until the budget is used up. */
  method FillBudget(ctx: Ctx, world: seq<Snapshot>, cs: seq<Candidate>, start: Views)
      returns (vs: Views, creates: seq<Id>, syncs: seq<Id>)
    requires Offerable(world, cs, start)
    ensures var r := Fill(ctx, world, cs, Out(start, [], [], 0));
            vs == r.views && creates == r.creates && syncs == r.syncs
  {
    vs, creates, syncs := start, [], [];
    var spent: nat := 0;
    for k := 0 to |cs|
      invariant vs.Keys == start.Keys
      invariant Out(vs, creates, syncs, spent) == Fill(ctx, world, cs[..k], Out(start, [], [], 0))
    {
      assert cs[..k + 1][..k] == cs[..k] && cs[..k + 1][k] == cs[k];
      var e := world[cs[k].index];
      var cost := 22 + e.dataLen;
      if spent > 0 && spent + cost > ctx.cfg.budget {
        continue;
      }
      var v := vs[cs[k].id];
      if !v.created {
        creates := creates + [cs[k].id];
        vs := vs[cs[k].id := Sent(v, e)];
        spent := spent + cost;
      } else if e.frame > v.baseFrame {
        syncs := syncs + [cs[k].id];
        vs := vs[cs[k].id := Sent(v, e)];
        spent := spent + cost;
      }
    }
    assert cs[..|cs|] == cs;
  }

  class ClientView {
    const netId: nat
    var views: Views

    constructor (netId: nat)
      ensures this.netId == netId && views == map[]
    {
      this.netId := netId;
      views := map[];
    }

    /** One interest tick through the grid; it does what scanning the whole world would do. */
    method TickWithContext(cfg: Config, focus: Focus, world: seq<Snapshot>, index: Index) returns (plan: Plan)
      requires cfg.Valid() && DistinctIds(world) && index.Of(world) && index.cellSize >= cfg.QueryRadius()
      modifies this
      ensures (views, plan) == FullTick(Ctx(cfg, focus, netId), world, old(views))
    {
      hide ScanOver, Sort, Fill, Exits, Removes, NearOrder, Offerable, DistinctIds, FullTick;
      var ctx := Ctx(cfg, focus, netId);
      ghost var start := views;
      var order := ForEachNear(index, world, focus.x, focus.y);
      GridTickIsFullTick(ctx, world, index.cellSize, start);
      var seen, candidates := ScanNear(ctx, world, order, views);
      CandidatesOfferable(world, Scan(seen, candidates), Exits(cfg, seen));
      var kept, removes := DropExits(cfg, seen);
      var creates, syncs;
      views, creates, syncs := FillBudget(ctx, world, Sort(candidates), kept);
      plan := Plan(creates, syncs, removes);
    }

    method Rollback(id: Id, frame: nat, recreate: bool)
      modifies this
      ensures views == RolledBack(old(views), id, frame, recreate)
      ensures views.Keys == old(views).Keys && forall x :: x in views && x != id ==> views[x] == old(views)[x]
      ensures id in views ==>
                && views[id].baseFrame == (if frame < old(views)[id].baseFrame then frame else old(views)[id].baseFrame)
                && (views[id].created <==> old(views)[id].created && !recreate)
                && views[id].priority == old(views)[id].priority && views[id].uniqifier == old(views)[id].uniqifier
    {
      if id in views {
        var v := views[id];
        v := v.(baseFrame := if frame < v.baseFrame then frame else v.baseFrame);
        if recreate {
          v := v.(created := false);
        }
        views := views[id := v];
      }
    }

    /** Every base frame comes down to `frame` or stays below it; nothing else changes. */
    method RollbackAll(frame: nat)
      modifies this
      ensures views.Keys == old(views).Keys
      ensures forall id :: id in views ==>
                views[id] == old(views)[id].(baseFrame := views[id].baseFrame) && views[id].baseFrame <= frame &&
                (views[id].baseFrame == frame || views[id].baseFrame == old(views)[id].baseFrame)
      ensures forall id :: id in views ==> views[id].baseFrame <= old(views)[id].baseFrame
      ensures views == AllRolledBack(old(views), frame)
    {
      var todo := views.Keys;
      while todo != {}
        invariant todo <= views.Keys == old(views).Keys
        invariant forall id :: id in todo ==> views[id] == old(views)[id]
        invariant forall id :: id in views && id !in todo ==>
                    views[id] == old(views)[id].(baseFrame := Min(old(views)[id].baseFrame, frame))
        decreases todo
      {
        var id :| id in todo;
        todo := todo - {id};
        views := views[id := views[id].(baseFrame := Min(views[id].baseFrame, frame))];
      }
    }

    method ForceRecreate(id: Id)
      modifies this
      ensures views == Recreated(old(views), id)
      ensures views.Keys == old(views).Keys && forall x :: x in views && x != id ==> views[x] == old(views)[x]
      ensures id in views ==> !views[id].created && views[id].baseFrame == 0
    {
      if id in views {
        views := views[id := views[id].(created := false, baseFrame := 0)];
      }
    }
  }
}
