/** Axis-aligned boxes on the map plane. Minimum edges belong to a box, maximum edges do not. */
module Spatial {

  datatype Aabb = Aabb(xMin: real, yMin: real, xMax: real, yMax: real) {
    predicate Contains(x: real, y: real) {
      x >= xMin && x < xMax && y >= yMin && y < yMax
    }

    predicate Intersects(other: Aabb) {
      xMin < other.xMax && other.xMin < xMax && yMin < other.yMax && other.yMin < yMax
    }

    function Center(): (real, real) {
      ((xMin + xMax) / 2.0, (yMin + yMax) / 2.0)
    }

    /** Whether this box lies inside `q`, edges included. */
    predicate Within(q: Aabb) {
      xMin >= q.xMin && xMax <= q.xMax && yMin >= q.yMin && yMax <= q.yMax
    }
  }

  /** Neighbouring zones that share an edge never both contain a point of it. */
  lemma SharedEdgeBelongsToOne(a: Aabb, b: Aabb, x: real, y: real)
    requires a.xMax <= b.xMin || b.xMax <= a.xMin || a.yMax <= b.yMin || b.yMax <= a.yMin
    ensures !(a.Contains(x, y) && b.Contains(x, y))
  {
  }

  /** A box holds the points from its minimum edges up to, but not on, its maximum edges. */
  lemma PointsOf(b: Aabb, x: real, y: real)
    ensures b.Contains(x, y) <==> 0.0 <= x - b.xMin < b.xMax - b.xMin && 0.0 <= y - b.yMin < b.yMax - b.yMin
  {
  }

  predicate Proper(b: Aabb) {
    b.xMin < b.xMax && b.yMin < b.yMax
  }

  function Max(a: real, b: real): real {
    if a < b then b else a
  }

  /** Two boxes intersect exactly when they share a point. */
  lemma IntersectsExactly(a: Aabb, b: Aabb)
    requires Proper(a) && Proper(b)
    ensures a.Intersects(b) <==> exists x, y :: a.Contains(x, y) && b.Contains(x, y)
  {
    if a.Intersects(b) {
      var x, y := Max(a.xMin, b.xMin), Max(a.yMin, b.yMin);
      assert a.Contains(x, y) && b.Contains(x, y);
    }
  }

  /** One box lies in another exactly when all its points do. */
  lemma WithinExactly(a: Aabb, b: Aabb)
    requires Proper(a)
    ensures a.Within(b) <==> forall x, y :: a.Contains(x, y) ==> b.Contains(x, y)
  {
    if forall x, y :: a.Contains(x, y) ==> b.Contains(x, y) {
      assert a.Contains(a.xMin, a.yMin);
      if a.xMax > b.xMax {
        assert a.Contains(Max(a.xMin, b.xMax), a.yMin);
      }
      if a.yMax > b.yMax {
        assert a.Contains(a.xMin, Max(a.yMin, b.yMax));
      }
    }
  }

  /** The centre is as far from either edge. */
  lemma CenterIsMiddle(b: Aabb)
    ensures var (x, y) := b.Center(); x - b.xMin == b.xMax - x && y - b.yMin == b.yMax - y
  {
  }
}
