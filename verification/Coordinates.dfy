// World and map coordinates of one axis, over exact reals: worldToMap, mapToWorld,
// worldToMapEnforceBounds, the update window and the rolling origin.
module Coordinates {
  import opened Wrappers
  import opened RealOrder
  import opened CostmapValue

  // An axis of a map: where it starts, the size of a cell, the number of cells.
  datatype Axis = Axis(origin: real, resolution: real, size: nat)

  function Top(a: Axis): real {
    a.resolution * (a.size as real) + a.origin
  }

  function CellOf(a: Axis, w: real): int
    requires a.resolution > 0.0
  {
    Truncate((w - a.origin) / a.resolution)
  }

  function WorldToMap(a: Axis, w: real): Option<nat>
    requires a.resolution > 0.0
  {
    if w < a.origin then None
    else if 0 <= CellOf(a, w) < a.size then Some(CellOf(a, w)) else None
  }

  function MapToWorld(a: Axis, i: nat): real {
    a.origin + (i as real + 0.5) * a.resolution
  }

  function EnforceBounds(a: Axis, w: real): int
    requires a.resolution > 0.0
  {
    if w < a.origin then 0
    else if w > Top(a) then a.size - 1
    else CellOf(a, w)
  }

  // ---------- Cells are half-open intervals ----------

  lemma QuotientOrder(d: real, r: real, k: real)
    requires r > 0.0
    ensures d >= k * r <==> d / r >= k
  {
    var q := d / r;
    assert q * r == d;
    ProductOrder(q, k, r);
  }

  // From the origin on, cell i is exactly the interval [i * resolution, (i + 1) * resolution).
  lemma CellInterval(a: Axis, w: real, i: int)
    requires a.resolution > 0.0 && w >= a.origin
    ensures CellOf(a, w) == i <==> 0 <= i && Metres(i, a.resolution) <= w - a.origin < Metres(i + 1, a.resolution)
    ensures 0 <= CellOf(a, w)
  {
    var d := w - a.origin;
    QuotientOrder(d, a.resolution, 0.0);
    QuotientOrder(d, a.resolution, i as real);
    QuotientOrder(d, a.resolution, (i + 1) as real);
    TruncateBounds(d / a.resolution);
  }

  lemma CellMonotone(a: Axis, v: real, w: real)
    requires a.resolution > 0.0 && a.origin <= v <= w
    ensures CellOf(a, v) <= CellOf(a, w)
  {
    var i := CellOf(a, v);
    CellInterval(a, v, i);
    QuotientOrder(w - a.origin, a.resolution, i as real);
    TruncateBounds((w - a.origin) / a.resolution);
  }

  // worldToMap accepts exactly the points from the origin up to, not including, the top.
  lemma WorldToMapAccepts(a: Axis, w: real)
    requires a.resolution > 0.0
    ensures WorldToMap(a, w).Some? <==> a.origin <= w < Top(a)
  {
    if w >= a.origin {
      var i := CellOf(a, w);
      CellInterval(a, w, i);
      QuotientOrder(w - a.origin, a.resolution, a.size as real);
      TruncateBounds((w - a.origin) / a.resolution);
    }
  }

  // The centre of a cell maps back to that cell.
  lemma CentreRoundTrip(a: Axis, i: nat)
    requires a.resolution > 0.0 && i < a.size
    ensures WorldToMap(a, MapToWorld(a, i)) == Some(i)
  {
    var w := MapToWorld(a, i);
    var d := (i as real + 0.5) * a.resolution;
    assert w - a.origin == d;
    assert d == Metres(i, a.resolution) + 0.5 * a.resolution;
    assert Metres(i + 1, a.resolution) == Metres(i, a.resolution) + a.resolution;
    assert Metres(i, a.resolution) >= 0.0;
    CellInterval(a, w, i);
  }

  // worldToMapEnforceBounds is documented to stay inside the map. It does, except exactly
  // on the upper edge, where it returns the size.
  lemma EnforceBoundsInMap(a: Axis, w: real)
    requires a.resolution > 0.0
    ensures 0 <= EnforceBounds(a, w) < a.size <==> a.size > 0 && w != Top(a)
    ensures w == Top(a) ==> EnforceBounds(a, w) == a.size
  {
    if a.origin <= w <= Top(a) {
      QuotientOrder(w - a.origin, a.resolution, a.size as real);
      TruncateBounds((w - a.origin) / a.resolution);
      CellInterval(a, w, CellOf(a, w));
    }
    assert Top(a) >= a.origin by {
      assert a.resolution * (a.size as real) >= 0.0;
    }
    if w == Top(a) {
      CellInterval(a, w, a.size);
      assert Metres(a.size + 1, a.resolution) == Metres(a.size, a.resolution) + a.resolution;
    }
  }

  // cellDistance: a length in whole cells, rounded up, never negative.
  function CellDistance(dist: real, resolution: real): nat
    requires resolution > 0.0
  {
    var cells := -((-(dist / resolution)).Floor);
    if cells > 0 then cells else 0
  }

  // The fewest cells that cover the length.
  lemma CellDistanceCovers(dist: real, resolution: real)
    requires resolution > 0.0
    ensures dist <= Metres(CellDistance(dist, resolution), resolution)
    ensures CellDistance(dist, resolution) > 0 ==> Metres(CellDistance(dist, resolution) - 1, resolution) < dist
  {
    var n, q := CellDistance(dist, resolution), dist / resolution;
    QuotientAtMost(dist, resolution, n as real);
    if n > 0 {
      StrictQuotient(dist, resolution, (n - 1) as real);
    }
  }

  lemma QuotientAtMost(d: real, r: real, k: real)
    requires r > 0.0 && d / r <= k
    ensures d <= k * r
  {
    var q := d / r;
    assert q * r == d;
    ProductOrder(k, q, r);
  }

  // ---------- The update window of updateMap ----------

  // [low, high) cells of one axis for accumulated bounds lo and hi.
  function WindowLow(a: Axis, lo: real): int
    requires a.resolution > 0.0
  {
    if EnforceBounds(a, lo) > 0 then EnforceBounds(a, lo) else 0
  }

  function WindowHigh(a: Axis, hi: real): int
    requires a.resolution > 0.0
  {
    if EnforceBounds(a, hi) + 1 < a.size then EnforceBounds(a, hi) + 1 else a.size
  }

  // For any bounds at all the window ends inside the axis, and it contains the cell of
  // every in-map point between the bounds.
  lemma WindowSound(a: Axis, lo: real, hi: real, w: real)
    requires a.resolution > 0.0
    ensures 0 <= WindowLow(a, lo) <= a.size && 0 <= WindowHigh(a, hi) <= a.size
    ensures lo <= w <= hi && WorldToMap(a, w).Some? ==> WindowLow(a, lo) <= WorldToMap(a, w).value < WindowHigh(a, hi)
  {
    EnforceBoundsInMap(a, lo);
    EnforceBoundsInMap(a, hi);
    WorldToMapAccepts(a, w);
    if lo <= w <= hi && WorldToMap(a, w).Some? {
      if lo >= a.origin {
        CellMonotone(a, lo, w);
      }
      CellMonotone(a, w, hi);
      CellInterval(a, w, CellOf(a, w));
    }
  }

  // Bounds no layer touched (low above the map, high below it) leave a window that the
  // update skips, unless the axis has at most 2 cells.
  lemma UntouchedBounds(a: Axis, lo: real, hi: real)
    requires a.resolution > 0.0 && a.size > 0 && lo > Top(a) && hi < a.origin
    ensures WindowHigh(a, hi) < WindowLow(a, lo) <==> a.size >= 3
  {
    assert a.resolution * (a.size as real) >= 0.0;
  }

  // ---------- The rolling origin ----------

  // getSizeInMeters / 2.
  function HalfSpan(a: Axis): real {
    (a.size as real - 0.5) * a.resolution / 2.0
  }

  // The axis after updateOrigin(robot - half the size).
  function Rolled(a: Axis, robot: real): (b: Axis)
    requires a.resolution > 0.0
    ensures b.resolution == a.resolution && b.size == a.size
  {
    a.(origin := a.origin + Metres(CellShift(a.origin, robot - HalfSpan(a), a.resolution), a.resolution))
  }

  // The new origin is less than a cell from the requested one.
  lemma ShiftError(origin: real, target: real, r: real)
    requires r > 0.0
    ensures -r < target - (origin + Metres(CellShift(origin, target, r), r)) < r
  {
    var d := target - origin;
    var n := CellShift(origin, target, r);
    TruncateBounds(d / r);
    QuotientOrder(d, r, n as real - 1.0);
    QuotientOrder(d, r, n as real + 1.0);
    QuotientOrder(d, r, n as real);
    assert (n as real - 1.0) * r == Metres(n, r) - r;
    assert (n as real + 1.0) * r == Metres(n, r) + r;
    assert d / r > n as real - 1.0;
    StrictQuotient(d, r, n as real - 1.0);
  }

  lemma StrictQuotient(d: real, r: real, k: real)
    requires r > 0.0 && d / r > k
    ensures d > k * r
  {
    var q := d / r;
    assert q * r == d;
    assert (q - k) * r > 0.0;
  }

  // With at least 3 cells the robot is inside the map after the shift, wherever it was.
  lemma RobotInBounds(a: Axis, robot: real)
    requires a.resolution > 0.0 && a.size >= 3
    ensures WorldToMap(Rolled(a, robot), robot).Some?
  {
    hide WorldToMap, CellShift, Metres;
    ShiftError(a.origin, robot - HalfSpan(a), a.resolution);
    MiddleOfSpan(robot - Rolled(a, robot).origin, a.resolution, a.size as real);
    WorldToMapAccepts(Rolled(a, robot), robot);
  }

  lemma SpanFacts(n: real, r: real)
    ensures (n - 0.5) * r / 2.0 == n * r / 2.0 - 0.25 * r
    ensures r * n == n * r
  {
  }

  lemma MiddleOfSpan(d: real, r: real, n: real)
    requires r > 0.0 && n >= 3.0
    ensures -r < d - (n - 0.5) * r / 2.0 < r ==> 0.0 < d < r * n
  {
    ProductOrder(n, 3.0, r);
    SpanFacts(n, r);
  }

  // A robot a fifth of a cell below the origin of a map of 1 or 2 cells stays there: the
  // requested shift is less than a cell and truncates to none.
  lemma RobotLeavesSmallMap(a: Axis)
    requires a.resolution > 0.0 && 1 <= a.size <= 2
    ensures WorldToMap(Rolled(a, a.origin - 0.2 * a.resolution), a.origin - 0.2 * a.resolution).None?
  {
    var r, n := a.resolution, a.size as real;
    var robot := a.origin - 0.2 * r;
    SmallShift(a.origin, robot - HalfSpan(a), n, r);
    assert Metres(0, r) == 0.0;
  }

  lemma SmallShift(origin: real, target: real, n: real, r: real)
    requires r > 0.0 && 1.0 <= n <= 2.0 && target == origin - 0.2 * r - (n - 0.5) * r / 2.0
    ensures CellShift(origin, target, r) == 0
  {
    SmallProduct(n, r);
    QuotientOrder(target - origin, r, -0.95);
    QuotientOrder(target - origin, r, 0.0);
    TruncateBounds((target - origin) / r);
  }

  lemma SmallProduct(n: real, r: real)
    requires r > 0.0 && 1.0 <= n <= 2.0
    ensures -0.95 * r <= -0.2 * r - (n - 0.5) * r / 2.0 < 0.0 * r
  {
    SpanFacts(n, r);
    ProductOrder(n, 1.0, r);
    ProductOrder(2.0, n, r);
  }

  // The robot is inside after the shift wherever it was exactly on axes of at least 3 cells.
  lemma RobotAlwaysInBounds(a: Axis)
    requires a.resolution > 0.0 && a.size > 0
    ensures (forall robot :: WorldToMap(Rolled(a, robot), robot).Some?) <==> a.size >= 3
  {
    hide Rolled, WorldToMap;
    if a.size >= 3 {
      forall robot
        ensures WorldToMap(Rolled(a, robot), robot).Some?
      {
        RobotInBounds(a, robot);
      }
    } else {
      RobotLeavesSmallMap(a);
    }
  }
}
