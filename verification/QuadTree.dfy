/** The region quadtree over zone boxes. Nodes are owned boxes without sharing, so a tree is a
    value; the class keeps the current one. The tree is proved to be a plain map from zone id to
    box through every insert, split, re-sink and remove. */
module QuadTree {
  import opened Bytes
  import opened Spatial

  type Id = string
  type Item = (Id, Aabb)

  const MAX_DEPTH: nat := 8
  const NODE_CAPACITY: nat := 4

  /** A node has no children or exactly four. */
  datatype Node = Node(bounds: Aabb, items: seq<Item>, children: seq<Node>, depth: nat)

  function Quadrants(b: Aabb): (qs: seq<Aabb>)
    ensures |qs| == 4
  {
    var (cx, cy) := b.Center();
    [Aabb(b.xMin, b.yMin, cx, cy), Aabb(cx, b.yMin, b.xMax, cy), Aabb(b.xMin, cy, cx, b.yMax),
     Aabb(cx, cy, b.xMax, b.yMax)]
  }

  function Leaf(bounds: Aabb, depth: nat): Node {
    Node(bounds, [], [], depth)
  }

  // ----- contents and validity -----

  ghost function Contents(n: Node): multiset<Item> {
    multiset(n.items) + ContentsAll(n.children)
  }

  ghost function ContentsAll(ns: seq<Node>): multiset<Item> {
    if ns == [] then multiset{} else Contents(ns[0]) + ContentsAll(ns[1..])
  }

  /** Everything below a node lies inside `q`. */
  ghost predicate Fits(n: Node, q: Aabb) {
    forall it :: it in Contents(n) ==> it.1.Within(q)
  }

  ghost predicate WellFormed(n: Node) {
    && n.depth <= MAX_DEPTH
    && (n.children == [] || (|n.children| == 4 && n.depth < MAX_DEPTH))
    && (forall k :: 0 <= k < |n.children| ==>
          n.children[k].depth == n.depth + 1 && WellFormed(n.children[k]) && Fits(n.children[k], n.children[k].bounds))
  }

  /** What a child gains, its list gains. */
  lemma {:induction false} ContentsGrow(ns: seq<Node>, k: nat, n: Node, extra: multiset<Item>)
    requires k < |ns| && Contents(n) == Contents(ns[k]) + extra
    ensures ContentsAll(ns[k := n]) == ContentsAll(ns) + extra
  {
    var ns' := ns[k := n];
    if k == 0 {
      assert ns'[1..] == ns[1..];
    } else {
      ContentsGrow(ns[1..], k - 1, n, extra);
      assert ns'[1..] == ns[1..][k - 1 := n];
      assert ContentsAll(ns') == Contents(ns[0]) + ContentsAll(ns'[1..]);
    }
  }

  // ----- insertion -----

  /** The first child whose bounds contain the box. */
  function ChildFor(ns: seq<Node>, b: Aabb): (r: Option<nat>)
    ensures r.Some? ==> r.value < |ns| && b.Within(ns[r.value].bounds)
  {
    if ns == [] then None
    else if b.Within(ns[0].bounds) then Some(0)
    else match ChildFor(ns[1..], b) case None => None case Some(k) => Some(k + 1)
  }

  function Split(n: Node): Node {
    var qs := Quadrants(n.bounds);
    n.(items := [], children := seq(4, k requires 0 <= k < 4 => Leaf(qs[k], n.depth + 1)))
  }

  /** Inserting one item: a full leaf above the depth limit first splits and re-sinks its items;
      then the item goes down to the first child it fits, or stays. */
  function InsertBelow(n: Node, item: Item): (r: Node)
    requires WellFormed(n)
    ensures WellFormed(r) && r.depth == n.depth && r.bounds == n.bounds
    ensures Contents(r) == Contents(n) + multiset{item}
    ensures n.children != [] ==> r.children != []
    decreases MAX_DEPTH - n.depth, if n.children == [] then 1 else 0, 1, 0
  {
    if n.children == [] && |n.items| >= NODE_CAPACITY && n.depth < MAX_DEPTH then
      SplitIsValid(n);
      Place(Resink(Split(n), n.items), item)
    else
      Place(n, item)
  }

  /** Inserts the items of a node that has just been split. */
  function Resink(n: Node, items: seq<Item>): (r: Node)
    requires WellFormed(n) && n.children != []
    ensures WellFormed(r) && r.depth == n.depth && r.bounds == n.bounds && r.children != []
    ensures Contents(r) == Contents(n) + multiset(items)
    decreases MAX_DEPTH - n.depth, 0, 2, |items|
  {
    if items == [] then n
    else
      assert items == [items[0]] + items[1..];
      Resink(InsertBelow(n, items[0]), items[1..])
  }

  /** A child that takes in an item inside its bounds keeps its parent well formed. */
  lemma ChildGrows(n: Node, k: nat, c: Node, item: Item)
    requires WellFormed(n) && k < |n.children| && item.1.Within(n.children[k].bounds)
    requires WellFormed(c) && c.depth == n.children[k].depth && c.bounds == n.children[k].bounds
    requires Contents(c) == Contents(n.children[k]) + multiset{item}
    ensures var r := n.(children := n.children[k := c]);
            WellFormed(r) && Contents(r) == Contents(n) + multiset{item}
  {
    hide ContentsAll;
    ContentsGrow(n.children, k, c, multiset{item});
    assert Fits(c, c.bounds);
    var r := n.(children := n.children[k := c]);
    forall j | 0 <= j < |r.children|
      ensures r.children[j].depth == r.depth + 1 && WellFormed(r.children[j]) &&
                Fits(r.children[j], r.children[j].bounds)
    {
    }
  }

  function Place(n: Node, item: Item): (r: Node)
    requires WellFormed(n)
    ensures WellFormed(r) && r.depth == n.depth && r.bounds == n.bounds
    ensures Contents(r) == Contents(n) + multiset{item}
    ensures n.children != [] ==> r.children != []
    decreases MAX_DEPTH - n.depth, 0, 0, 0
  {
    match ChildFor(n.children, item.1)
    case Some(k) =>
      var c := InsertBelow(n.children[k], item);
      ChildGrows(n, k, c, item);
      n.(children := n.children[k := c])
    case None =>
      n.(items := n.items + [item])
  }

  lemma LeavesAreEmpty(ns: seq<Node>)
    requires forall k :: 0 <= k < |ns| ==> ns[k].items == [] && ns[k].children == []
    ensures ContentsAll(ns) == multiset{}
  {
  }

  lemma SplitIsValid(n: Node)
    requires WellFormed(n) && n.children == [] && n.depth < MAX_DEPTH
    ensures WellFormed(Split(n)) && Split(n).children != [] && Contents(Split(n)) == multiset{}
    ensures Contents(n) == multiset(n.items)
  {
    var s := Split(n);
    forall k | 0 <= k < |s.children|
      ensures s.children[k].depth == n.depth + 1 && WellFormed(s.children[k]) &&
                Fits(s.children[k], s.children[k].bounds)
    {
      assert s.children[k] == Leaf(Quadrants(n.bounds)[k], n.depth + 1);
    }
    LeavesAreEmpty(s.children);
  }

  // ----- removal -----

  /** The first item with the given id. */
  function ItemFor(items: seq<Item>, id: Id): (r: Option<nat>)
    ensures r.Some? ==> r.value < |items| && items[r.value].0 == id
    ensures r.None? ==> forall k :: 0 <= k < |items| ==> items[k].0 != id
  {
    if items == [] then None
    else if items[0].0 == id then Some(0)
    else match ItemFor(items[1..], id) case None => None case Some(k) => Some(k + 1)
  }

  ghost predicate Absent(c: multiset<Item>, id: Id) {
    forall it :: it in c ==> it.0 != id
  }

  /** Removes the first item with the given id, searching a node's own items, then its children in
      order; tells whether there was one. */
  function RemoveBelow(n: Node, id: Id): (r: (Node, bool))
    requires WellFormed(n)
    ensures r.0.depth == n.depth && r.0.bounds == n.bounds
    ensures !r.1 ==> r.0 == n
    decreases n, 1
  {
    match ItemFor(n.items, id)
    case Some(k) => (n.(items := n.items[..k] + n.items[k + 1..]), true)
    case None =>
      var (cs, found) := RemoveAny(n.children, id);
      (n.(children := cs), found)
  }

  function RemoveAny(ns: seq<Node>, id: Id): (r: (seq<Node>, bool))
    requires forall k :: 0 <= k < |ns| ==> WellFormed(ns[k])
    ensures |r.0| == |ns|
    ensures forall k :: 0 <= k < |ns| ==> r.0[k].depth == ns[k].depth && r.0[k].bounds == ns[k].bounds
    ensures !r.1 ==> r.0 == ns
    decreases ns, 0
  {
    if ns == [] then ([], false)
    else
      var (c, found) := RemoveBelow(ns[0], id);
      if found then ([c] + ns[1..], true)
      else
        var (cs, later) := RemoveAny(ns[1..], id);
        ([c] + cs, later)
  }

  /** `after` is `before` less one item with the id, or the same if there was none. */
  ghost predicate Taken(before: multiset<Item>, after: multiset<Item>, id: Id, found: bool) {
    && (found ==> exists b :: before == after + multiset{(id, b)})
    && (!found ==> before == after && Absent(before, id))
  }

  lemma TakenFromSum(before: multiset<Item>, after: multiset<Item>, other: multiset<Item>, id: Id, found: bool)
    requires Taken(before, after, id, found) && (!found ==> Absent(other, id))
    ensures Taken(before + other, after + other, id, found) && Taken(other + before, other + after, id, found)
    ensures after <= before
  {
    if found {
      var b :| before == after + multiset{(id, b)};
      assert before + other == (after + other) + multiset{(id, b)};
      assert other + before == (other + after) + multiset{(id, b)};
    }
  }

  lemma TakenFromItems(items: seq<Item>, id: Id)
    ensures match ItemFor(items, id)
            case Some(k) => Taken(multiset(items), multiset(items[..k] + items[k + 1..]), id, true)
            case None => Absent(multiset(items), id)
  {
    match ItemFor(items, id)
    case Some(k) =>
      assert items == items[..k] + [items[k]] + items[k + 1..];
      assert multiset(items) == multiset(items[..k] + items[k + 1..]) + multiset{(id, items[k].1)};
    case None =>
      forall it | it in multiset(items) ensures it.0 != id {
        assert it in items;
      }
  }

  /** A removal takes out one item with the id, and finds none only if there is none. */
  lemma {:induction false} RemoveTakesOne(n: Node, id: Id)
    requires WellFormed(n)
    ensures WellFormed(RemoveBelow(n, id).0)
    ensures Taken(Contents(n), Contents(RemoveBelow(n, id).0), id, RemoveBelow(n, id).1)
    decreases n, 1
  {
    hide Taken, ItemFor, ContentsAll, WellFormed;
    var (r, found) := RemoveBelow(n, id);
    TakenFromItems(n.items, id);
    ChildrenWellFormed(n);
    match ItemFor(n.items, id)
    case Some(k) =>
      TakenFromSum(multiset(n.items), multiset(r.items), ContentsAll(n.children), id, true);
      SmallerWellFormed(n, r);
    case None =>
      RemoveAnyTakesOne(n.children, id);
      TakenFromSum(ContentsAll(n.children), ContentsAll(r.children), multiset(n.items), id, found);
      SmallerWellFormed(n, r);
  }

  lemma ChildrenWellFormed(n: Node)
    requires WellFormed(n)
    ensures forall k :: 0 <= k < |n.children| ==> WellFormed(n.children[k])
  {
  }

  /** Taking items out of a well-formed node leaves it well formed. */
  lemma SmallerWellFormed(n: Node, r: Node)
    requires WellFormed(n) && r.depth == n.depth && |r.children| == |n.children|
    requires forall k :: 0 <= k < |n.children| ==>
               && r.children[k].depth == n.children[k].depth && r.children[k].bounds == n.children[k].bounds
               && WellFormed(r.children[k]) && Contents(r.children[k]) <= Contents(n.children[k])
    ensures WellFormed(r)
  {
    hide Contents;
    forall k | 0 <= k < |r.children| ensures Fits(r.children[k], r.children[k].bounds) {
      assert Contents(r.children[k]) <= Contents(n.children[k]);
    }
  }

  lemma {:induction false} RemoveAnyTakesOne(ns: seq<Node>, id: Id)
    requires forall k :: 0 <= k < |ns| ==> WellFormed(ns[k])
    ensures forall k :: 0 <= k < |ns| ==>
              WellFormed(RemoveAny(ns, id).0[k]) && Contents(RemoveAny(ns, id).0[k]) <= Contents(ns[k])
    ensures Taken(ContentsAll(ns), ContentsAll(RemoveAny(ns, id).0), id, RemoveAny(ns, id).1)
    decreases ns, 0
  {
    hide Taken, Contents, RemoveBelow;
    if ns == [] {
      NothingTaken(id);
    } else {
      var (c, found) := RemoveBelow(ns[0], id);
      var rs := RemoveAny(ns, id).0;
      var head, tail := Contents(ns[0]), ContentsAll(ns[1..]);
      RemoveTakesOne(ns[0], id);
      if found {
        assert rs[1..] == ns[1..];
        TakenFromSum(head, Contents(c), tail, id, true);
      } else {
        RemoveAnyTakesOne(ns[1..], id);
        var (cs, later) := RemoveAny(ns[1..], id);
        assert rs[1..] == cs;
        NotTaken(head, Contents(c), id);
        TakenFromSum(tail, ContentsAll(cs), head, id, later);
      }
      forall k | 0 <= k < |ns| ensures WellFormed(rs[k]) && Contents(rs[k]) <= Contents(ns[k]) {
        if k > 0 {
          assert rs[k] == rs[1..][k - 1] && ns[k] == ns[1..][k - 1];
        }
      }
    }
  }

  lemma NothingTaken(id: Id)
    ensures Taken(multiset{}, multiset{}, id, false)
  {
  }

  lemma NotTaken(before: multiset<Item>, after: multiset<Item>, id: Id)
    requires Taken(before, after, id, false)
    ensures before == after && Absent(before, id)
  {
  }

  // ----- queries -----

  /** A test on boxes that a box passes only if every box around it does. */
  ghost predicate Monotone(probe: Aabb -> bool) {
    forall b: Aabb, q: Aabb :: b.Within(q) && probe(b) ==> probe(q)
  }

  function Select(items: seq<Item>, probe: Aabb -> bool): seq<Item> {
    if items == [] then []
    else (if probe(items[0].1) then [items[0]] else []) + Select(items[1..], probe)
  }

  /** The items that pass, in traversal order, skipping children whose bounds fail. */
  function Collect(n: Node, probe: Aabb -> bool): seq<Item> {
    Select(n.items, probe) + CollectAll(n.children, probe)
  }

  function CollectAll(ns: seq<Node>, probe: Aabb -> bool): seq<Item> {
    if ns == [] then []
    else (if probe(ns[0].bounds) then Collect(ns[0], probe) else []) + CollectAll(ns[1..], probe)
  }

  lemma {:induction false} SelectCounts(items: seq<Item>, probe: Aabb -> bool, it: Item)
    ensures multiset(Select(items, probe))[it] == if probe(it.1) then multiset(items)[it] else 0
  {
    if items != [] {
      SelectCounts(items[1..], probe, it);
      assert items == [items[0]] + items[1..];
    }
  }

  /** Pruning loses nothing: every item of the tree that passes is collected as often as it
      occurs, and nothing else is. */
  lemma {:induction false} CollectCounts(n: Node, probe: Aabb -> bool, it: Item)
    requires WellFormed(n) && Monotone(probe)
    ensures multiset(Collect(n, probe))[it] == if probe(it.1) then Contents(n)[it] else 0
    decreases n, 1
  {
    SelectCounts(n.items, probe, it);
    CollectAllCounts(n.children, probe, it);
  }

  lemma {:induction false} CollectAllCounts(ns: seq<Node>, probe: Aabb -> bool, it: Item)
    requires forall k :: 0 <= k < |ns| ==> WellFormed(ns[k]) && Fits(ns[k], ns[k].bounds)
    requires Monotone(probe)
    ensures multiset(CollectAll(ns, probe))[it] == if probe(it.1) then ContentsAll(ns)[it] else 0
    decreases ns, 0
  {
    if ns != [] {
      CollectCounts(ns[0], probe, it);
      CollectAllCounts(ns[1..], probe, it);
      if it in Contents(ns[0]) {
        assert it.1.Within(ns[0].bounds);
      }
    }
  }

  // ----- the tree as a map -----

  /** The tree holds exactly the entries of `m`, each once. */
  ghost predicate Represents(n: Node, m: map<Id, Aabb>) {
    && WellFormed(n)
    && forall it: Item :: Contents(n)[it] == if it.0 in m && m[it.0] == it.1 then 1 else 0
  }

  lemma RemoveRepresents(n: Node, m: map<Id, Aabb>, id: Id)
    requires Represents(n, m)
    ensures Represents(RemoveBelow(n, id).0, m - {id})
    ensures RemoveBelow(n, id).1 <==> id in m
  {
    hide RemoveBelow, WellFormed, Contents;
    var before := Contents(n);
    assert id in m ==> before[(id, m[id])] == 1;
    RepresentsValid(n, m);
    var (r, found) := RemoveBelow(n, id);
    var after := Contents(r);
    RemoveTakesOne(n, id);
    if found {
      var b :| before == after + multiset{(id, b)};
      assert before[(id, b)] == 1;
      forall it: Item
        ensures after[it] == if it.0 in m - {id} && (m - {id})[it.0] == it.1 then 1 else 0
      {
        assert before[it] == after[it] + multiset{(id, b)}[it];
      }
    }
  }

  lemma InsertRepresents(n: Node, m: map<Id, Aabb>, id: Id, b: Aabb)
    requires Represents(n, m) && id !in m
    ensures Represents(InsertBelow(n, (id, b)), m[id := b])
  {
    hide InsertBelow, WellFormed, Contents;
    var r := InsertBelow(n, (id, b));
    forall it: Item
      ensures Contents(r)[it] == if it.0 in m[id := b] && m[id := b][it.0] == it.1 then 1 else 0
    {
    }
  }

  function Ids(items: seq<Item>): (ids: seq<Id>)
    ensures |ids| == |items| && forall k :: 0 <= k < |ids| ==> ids[k] == items[k].0
  {
    seq(|items|, k requires 0 <= k < |items| => items[k].0)
  }

  lemma TwiceCounts(items: seq<Item>, i: nat, j: nat)
    requires i < j < |items| && items[i] == items[j]
    ensures multiset(items)[items[i]] >= 2
  {
    assert items == items[..i] + [items[i]] + items[i + 1..j] + [items[j]] + items[j + 1..];
  }

  /** A pruned query answers with exactly the ids whose boxes pass, each once. */
  lemma QueryExact(n: Node, m: map<Id, Aabb>, probe: Aabb -> bool)
    requires Represents(n, m) && Monotone(probe)
    ensures var ids := Ids(Collect(n, probe));
            NoRepeats(ids) && forall id :: id in ids <==> id in m && probe(m[id])
  {
    hide Collect, Contents, WellFormed, Monotone;
    var hits := Collect(n, probe);
    var ids := Ids(hits);
    forall k | 0 <= k < |hits|
      ensures hits[k].0 in m && m[hits[k].0] == hits[k].1 && probe(hits[k].1)
    {
      assert hits[k] in multiset(hits);
      CollectCounts(n, probe, hits[k]);
    }
    forall i, j | 0 <= i < j < |ids| ensures ids[i] != ids[j] {
      if ids[i] == ids[j] {
        assert hits[i] == hits[j];
        TwiceCounts(hits, i, j);
        CollectCounts(n, probe, hits[i]);
      }
    }
    forall id | id in m && probe(m[id]) ensures id in ids {
      CollectCounts(n, probe, (id, m[id]));
      assert (id, m[id]) in multiset(hits);
      var k :| 0 <= k < |hits| && hits[k] == (id, m[id]);
      assert ids[k] == id;
    }
  }

  lemma PointMonotone(x: real, y: real)
    ensures Monotone((b: Aabb) => b.Contains(x, y))
  {
  }

  lemma AreaMonotone(area: Aabb)
    ensures Monotone((b: Aabb) => b.Intersects(area))
  {
  }

  // ----- the traversal loops and the object -----

  method SelectInto(items: seq<Item>, probe: Aabb -> bool, out: seq<Id>) returns (r: seq<Id>)
    ensures r == out + Ids(Select(items, probe))
  {
    r := out;
    for k := 0 to |items|
      invariant r + Ids(Select(items[k..], probe)) == out + Ids(Select(items, probe))
    {
      assert items[k..][1..] == items[k + 1..];
      if probe(items[k].1) {
        IdsCons(items[k], Select(items[k + 1..], probe));
        r := r + [items[k].0];
      } else {
        assert [] + Select(items[k + 1..], probe) == Select(items[k + 1..], probe);
      }
    }
    assert items[|items|..] == [];
  }

  lemma IdsCons(it: Item, rest: seq<Item>)
    ensures Ids([it] + rest) == [it.0] + Ids(rest)
  {
  }

  lemma IdsAppend(a: seq<Item>, b: seq<Item>)
    ensures Ids(a + b) == Ids(a) + Ids(b)
  {
  }

  /** The query recursion: a node's own items, then each child whose bounds pass. */
  method QueryInto(n: Node, probe: Aabb -> bool, out: seq<Id>) returns (r: seq<Id>)
    ensures r == out + Ids(Collect(n, probe))
    decreases n
  {
    hide Select, Collect, Ids;
    r := SelectInto(n.items, probe, out);
    CollectParts(n, probe);
    IdsAppend(Select(n.items, probe), CollectAll(n.children, probe));
    ghost var start := r;
    assert n.children[0..] == n.children;
    for k := 0 to |n.children|
      invariant r + Ids(CollectAll(n.children[k..], probe)) == start + Ids(CollectAll(n.children, probe))
    {
      ghost var rest := n.children[k + 1..];
      assert n.children[k..][1..] == rest;
      if probe(n.children[k].bounds) {
        IdsAppend(Collect(n.children[k], probe), CollectAll(rest, probe));
        r := QueryInto(n.children[k], probe, r);
      } else {
        assert [] + CollectAll(rest, probe) == CollectAll(rest, probe);
      }
    }
    assert CollectAll(n.children[|n.children|..], probe) == [];
    IdsEmpty();
    assert r == start + Ids(CollectAll(n.children, probe));
    assert start == out + Ids(Select(n.items, probe));
    assert r == out + Ids(Collect(n, probe));
  }

  lemma IdsEmpty()
    ensures Ids([]) == []
  {
  }

  lemma CollectParts(n: Node, probe: Aabb -> bool)
    ensures Collect(n, probe) == Select(n.items, probe) + CollectAll(n.children, probe)
  {
  }

  class Index {
    var root: Node
    ghost var zones: map<Id, Aabb>

    ghost predicate Valid()
      reads this
    {
      Represents(root, zones)
    }

    constructor (bounds: Aabb)
      ensures Valid() && zones == map[]
    {
      root := Leaf(bounds, 0);
      zones := map[];
    }

    method Insert(id: Id, bounds: Aabb)
      requires Valid()
      modifies this
      ensures Valid() && zones == old(zones)[id := bounds]
    {
      hide InsertBelow, Represents;
      var _ := Remove(id);
      InsertRepresents(root, zones, id, bounds);
      RepresentsValid(root, zones);
      root := InsertBelow(root, (id, bounds));
      assert zones[id := bounds] == old(zones)[id := bounds];
      zones := zones[id := bounds];
    }

    method Remove(id: Id) returns (found: bool)
      requires Valid()
      modifies this
      ensures Valid() && zones == old(zones) - {id}
      ensures found <==> id in old(zones)
    {
      hide RemoveBelow, Represents;
      RemoveRepresents(root, zones, id);
      RepresentsValid(root, zones);
      var r := RemoveBelow(root, id);
      root, found := r.0, r.1;
      zones := zones - {id};
    }

    /** Some zone that contains the point, if any zone does. */
    method QueryPoint(x: real, y: real) returns (r: Option<Id>)
      requires Valid()
      ensures r.None? <==> forall id :: id in zones ==> !zones[id].Contains(x, y)
      ensures r.Some? ==> r.value in zones && zones[r.value].Contains(x, y)
    {
      hide Collect, Represents;
      var probe := (b: Aabb) => b.Contains(x, y);
      PointMonotone(x, y);
      QueryExact(root, zones, probe);
      var hits := QueryInto(root, probe, []);
      assert hits == Ids(Collect(root, probe));
      if hits == [] {
        assert forall id :: id in zones ==> id !in hits;
        r := None;
      } else {
        assert hits[0] in hits;
        r := Some(hits[0]);
      }
    }

    /** Every zone that meets the rectangle, each once. */
    method QueryAabb(area: Aabb) returns (hits: seq<Id>)
      requires Valid()
      ensures NoRepeats(hits)
      ensures forall id :: id in hits <==> id in zones && zones[id].Intersects(area)
    {
      hide Collect, Represents;
      var probe := (b: Aabb) => b.Intersects(area);
      AreaMonotone(area);
      QueryExact(root, zones, probe);
      hits := QueryInto(root, probe, []);
      assert hits == Ids(Collect(root, probe));
    }
  }

  lemma RepresentsValid(n: Node, m: map<Id, Aabb>)
    requires Represents(n, m)
    ensures WellFormed(n)
  {
  }
}
