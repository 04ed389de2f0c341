/** The uniform grid over one world snapshot, and the proof that the 3x3 block of cells around a
    point holds every entity within the query radius, each once. */
module SpatialIndex {
  import opened Bytes

  datatype Snapshot = Snapshot(objectId: nat, uniqifier: nat, owner: nat, x: real, y: real, z: real,
                               vx: real, vy: real, vz: real, bucket: nat, frame: nat, dataLen: nat)

  type Cell = (int, int)

  function CellOf(x: real, y: real, size: real): Cell
    requires size > 0.0
  {
    ((x / size).Floor, (y / size).Floor)
  }

  /** Horizontal distance squared. */
  function DistSquared(e: Snapshot, x: real, y: real): real {
    (e.x - x) * (e.x - x) + (e.y - y) * (e.y - y)
  }

  /** The first `n` snapshot positions that fall in a cell, in order. */
  function Members(world: seq<Snapshot>, size: real, c: Cell, n: nat): seq<nat>
    requires size > 0.0 && n <= |world|
  {
    if n == 0 then []
    else
      var before := Members(world, size, c, n - 1);
      if CellOf(world[n - 1].x, world[n - 1].y, size) == c then before + [n - 1] else before
  }

  datatype Index = Index(cellSize: real, cells: map<Cell, seq<nat>>) {
    /** The index of a whole world. */
    ghost predicate Of(world: seq<Snapshot>) {
      && cellSize >= 1.0
      && forall c: Cell :: (if c in cells then cells[c] else []) == Members(world, cellSize, c, |world|)
    }
  }

  /** Files every entity under its cell. */
  method Build(world: seq<Snapshot>, radius: real) returns (ix: Index)
    ensures ix.Of(world) && ix.cellSize >= radius
  {
    var size := if radius > 1.0 then radius else 1.0;
    var cells: map<Cell, seq<nat>> := map[];
    for i := 0 to |world|
      invariant forall c: Cell :: (if c in cells then cells[c] else []) == Members(world, size, c, i)
    {
      var c := CellOf(world[i].x, world[i].y, size);
      var bucket := if c in cells then cells[c] else [];
      cells := cells[c := bucket + [i]];
    }
    ix := Index(size, cells);
  }

  // ----- the order of visits -----

  /** The k-th cell of the 3x3 block: columns outermost, as the nested loops run. */
  function Neighbour(c: Cell, k: nat): Cell {
    (c.0 + k / 3 - 1, c.1 + k % 3 - 1)
  }

  /** The entities of the first `k` cells of the block, in visiting order. */
  function Visited(world: seq<Snapshot>, size: real, c: Cell, k: nat): seq<nat>
    requires size > 0.0
  {
    if k == 0 then []
    else Visited(world, size, c, k - 1) + Members(world, size, Neighbour(c, k - 1), |world|)
  }

  function NearOrder(world: seq<Snapshot>, size: real, x: real, y: real): seq<nat>
    requires size > 0.0
  {
    Visited(world, size, CellOf(x, y, size), 9)
  }

  lemma NeighbourAt(c: Cell, dx: int, dy: int)
    requires -1 <= dx <= 1 && -1 <= dy <= 1
    ensures Neighbour(c, 3 * (dx + 1) + (dy + 1)) == (c.0 + dx, c.1 + dy)
  {
  }

  /** Walks the 3x3 block of cells around a point. */
  method ForEachNear(ix: Index, ghost world: seq<Snapshot>, x: real, y: real) returns (order: seq<nat>)
    requires ix.Of(world)
    ensures order == NearOrder(world, ix.cellSize, x, y)
  {
    hide CellOf, Members, Neighbour;
    var c := CellOf(x, y, ix.cellSize);
    order := [];
    for dx := -1 to 2
      invariant order == Visited(world, ix.cellSize, c, 3 * (dx + 1))
    {
      for dy := -1 to 2
        invariant order == Visited(world, ix.cellSize, c, 3 * (dx + 1) + (dy + 1))
      {
        NeighbourAt(c, dx, dy);
        var cell := (c.0 + dx, c.1 + dy);
        var bucket := if cell in ix.cells then ix.cells[cell] else [];
        assert bucket == Members(world, ix.cellSize, cell, |world|);
        order := order + bucket;
      }
    }
  }

  // ----- what the visits cover -----

  lemma {:induction false} MembersExact(world: seq<Snapshot>, size: real, c: Cell, n: nat, i: nat)
    requires size > 0.0 && n <= |world|
    ensures i in Members(world, size, c, n) <==> i < n && CellOf(world[i].x, world[i].y, size) == c
  {
    if n != 0 {
      MembersExact(world, size, c, n - 1, i);
    }
  }

  lemma {:induction false} MembersOnce(world: seq<Snapshot>, size: real, c: Cell, n: nat)
    requires size > 0.0 && n <= |world|
    ensures NoRepeats(Members(world, size, c, n))
  {
    if n != 0 {
      MembersOnce(world, size, c, n - 1);
      var before := Members(world, size, c, n - 1);
      forall k | 0 <= k < |before| ensures before[k] != n - 1 {
        MembersExact(world, size, c, n - 1, before[k]);
        assert before[k] in before;
      }
    }
  }

  lemma {:induction false} VisitedExact(world: seq<Snapshot>, size: real, c: Cell, k: nat, i: nat)
    requires size > 0.0
    ensures i in Visited(world, size, c, k) <==>
              i < |world| && exists m :: 0 <= m < k && CellOf(world[i].x, world[i].y, size) == Neighbour(c, m)
  {
    if k != 0 {
      VisitedExact(world, size, c, k - 1, i);
      MembersExact(world, size, Neighbour(c, k - 1), |world|, i);
    }
  }

  lemma NeighboursDiffer(c: Cell, k: nat, m: nat)
    requires k < m < 9
    ensures Neighbour(c, k) != Neighbour(c, m)
  {
  }

  lemma AppendNoRepeats(a: seq<nat>, b: seq<nat>)
    requires NoRepeats(a) && NoRepeats(b) && forall i :: i in a ==> i !in b
    ensures NoRepeats(a + b)
  {
    var s := a + b;
    forall i, j | 0 <= i < j < |s| ensures s[i] != s[j] {
      if i < |a| <= j {
        assert s[i] in a && s[j] in b;
      }
    }
  }

  /** No entity is visited twice: the nine cells differ and each entity has one cell. */
  lemma {:induction false} VisitedOnce(world: seq<Snapshot>, size: real, c: Cell, k: nat)
    requires size > 0.0 && k <= 9
    ensures NoRepeats(Visited(world, size, c, k))
  {
    if k != 0 {
      VisitedOnce(world, size, c, k - 1);
      var cell := Neighbour(c, k - 1);
      MembersOnce(world, size, cell, |world|);
      var a, b := Visited(world, size, c, k - 1), Members(world, size, cell, |world|);
      forall i | i in a ensures i !in b {
        VisitedExact(world, size, c, k - 1, i);
        MembersExact(world, size, cell, |world|, i);
        var m :| 0 <= m < k - 1 && CellOf(world[i].x, world[i].y, size) == Neighbour(c, m);
        NeighboursDiffer(c, m, k - 1);
      }
      AppendNoRepeats(a, b);
    }
  }

  lemma ProductPositive(a: real, b: real)
    requires a > 0.0 && b > 0.0
    ensures a * b > 0.0
  {
  }

  lemma SquareGrows(a: real, b: real)
    requires 0.0 <= a < b
    ensures a * a < b * b
  {
    ProductPositive(b - a, b + a);
    assert (b - a) * (b + a) == b * b - a * a;
  }

  lemma SquareBound(d: real, r: real)
    requires r >= 0.0 && d * d <= r * r
    ensures -r <= d <= r
  {
    var m := if d < 0.0 then -d else d;
    assert m * m == d * d;
    if m > r {
      SquareGrows(r, m);
    }
  }

  lemma ScaledBound(w: real, size: real, d: real)
    requires size > 0.0 && w * size == d && d <= size
    ensures w <= 1.0
  {
  }

  /** Coordinates at most one cell apart fall in the same or in neighbouring cells. */
  lemma FloorsNear(a: real, b: real, size: real)
    requires size > 0.0 && -size <= a - b <= size
    ensures -1 <= (a / size).Floor - (b / size).Floor <= 1
  {
    var u, v := a / size, b / size;
    assert u * size == a && v * size == b;
    assert (u - v) * size == a - b && (v - u) * size == b - a;
    ScaledBound(u - v, size, a - b);
    ScaledBound(v - u, size, b - a);
  }

  /** A point at most one cell away on both axes lies in the 3x3 block. */
  lemma InBlock(ex: real, ey: real, x: real, y: real, size: real) returns (m: nat)
    requires size > 0.0 && -size <= ex - x <= size && -size <= ey - y <= size
    ensures m < 9 && CellOf(ex, ey, size) == Neighbour(CellOf(x, y, size), m)
  {
    FloorsNear(ex, x, size);
    FloorsNear(ey, y, size);
    var c, own := CellOf(x, y, size), CellOf(ex, ey, size);
    m := 3 * (own.0 - c.0 + 1) + (own.1 - c.1 + 1);
    assert m / 3 == own.0 - c.0 + 1 && m % 3 == own.1 - c.1 + 1;
  }

  /** An entity within the radius is among the visited ones. */
  lemma NearIsVisited(world: seq<Snapshot>, size: real, x: real, y: real, i: nat, radius: real)
    requires size > 0.0 && i < |world| && 0.0 <= radius <= size
    requires DistSquared(world[i], x, y) <= radius * radius
    ensures i in NearOrder(world, size, x, y)
  {
    var e := world[i];
    var dx, dy := e.x - x, e.y - y;
    assert dx * dx >= 0.0 && dy * dy >= 0.0;
    SquareBound(dx, radius);
    SquareBound(dy, radius);
    var m := InBlock(e.x, e.y, x, y, size);
    VisitedExact(world, size, CellOf(x, y, size), 9, i);
  }
}
