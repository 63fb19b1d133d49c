// footprintCost and lineCost: early exits against the maximum over the whole outline.
module FootprintCost {
  import opened Wrappers
  import opened Lattice
  import opened RowMajor
  import opened GridCells
  import opened CostmapValue
  import opened Coordinates
  import opened Raster
  import opened Outline
  import opened GridKernel
  import opened MapRegion

  function Max(a: int, b: int): int {
    if a < b then b else a
  }

  ghost predicate AllKnown(m: map<Cell, Cost>, s: seq<Cell>) {
    forall k :: 0 <= k < |s| ==> s[k] in m
  }

  // The largest cost on s, 0 if s is empty.
  ghost function MaxOf(m: map<Cell, Cost>, s: seq<Cell>): int
    requires AllKnown(m, s)
  {
    if s == [] then 0 else Max(MaxOf(m, s[..|s| - 1]), m[s[|s| - 1]])
  }

  // MaxOf is the least upper bound of the costs on s.
  lemma {:induction false} MaxOfReaches(m: map<Cell, Cost>, s: seq<Cell>, v: int)
    requires AllKnown(m, s) && v > 0
    ensures MaxOf(m, s) >= v <==> exists k :: 0 <= k < |s| && m[s[k]] >= v
    decreases |s|
  {
    if s != [] {
      var init := s[..|s| - 1];
      MaxOfReaches(m, init, v);
      if exists k :: 0 <= k < |init| && m[init[k]] >= v {
        var k :| 0 <= k < |init| && m[init[k]] >= v;
        assert m[s[k]] >= v;
      }
      if exists k :: 0 <= k < |s| && m[s[k]] >= v {
        var k :| 0 <= k < |s| && m[s[k]] >= v;
        assert k < |init| ==> m[init[k]] >= v;
      }
    }
  }

  lemma {:induction false} MaxOfAppend(m: map<Cell, Cost>, s: seq<Cell>, t: seq<Cell>)
    requires AllKnown(m, s) && AllKnown(m, t)
    ensures AllKnown(m, s + t) && MaxOf(m, s + t) == Max(MaxOf(m, s), MaxOf(m, t))
    decreases |t|
  {
    MaxOfNonNegative(m, s);
    if t == [] {
      assert s + t == s;
    } else {
      var init := t[..|t| - 1];
      MaxOfAppend(m, s, init);
      assert (s + t)[..|s + t| - 1] == s + init;
    }
  }

  lemma {:induction false} MaxOfNonNegative(m: map<Cell, Cost>, s: seq<Cell>)
    requires AllKnown(m, s)
    ensures MaxOf(m, s) >= 0
    decreases |s|
  {
    if s != [] {
      MaxOfNonNegative(m, s[..|s| - 1]);
    }
  }

  // cost reports max: equal below LETHAL, and at or above LETHAL exactly when max is.
  predicate Reports(cost: int, max: int) {
    (cost < LETHAL_OBSTACLE ==> cost == max) && (cost >= LETHAL_OBSTACLE <==> max >= LETHAL_OBSTACLE)
  }

  ghost predicate HasLethal(m: map<Cell, Cost>, s: seq<Cell>)
    requires AllKnown(m, s)
  {
    exists k :: 0 <= k < |s| && m[s[k]] == LETHAL_OBSTACLE
  }

  // What a line is worth: lethal if any of its cells is, else the largest cost, unknown included.
  ghost function LineValue(m: map<Cell, Cost>, s: seq<Cell>): int
    requires AllKnown(m, s)
  {
    if HasLethal(m, s) then LETHAL_OBSTACLE else MaxOf(m, s)
  }

  lemma LineValueReports(m: map<Cell, Cost>, s: seq<Cell>)
    requires AllKnown(m, s)
    ensures Reports(LineValue(m, s), MaxOf(m, s))
  {
    hide MaxOf;
    MaxOfReaches(m, s, LETHAL_OBSTACLE);
  }

  // lineCost: stops at the first lethal cell.
  method LineCost(costmap: Costmap2D, a: Cell, b: Cell) returns (cost: int)
    requires costmap.Valid() && InMap(costmap.Value(), a) && InMap(costmap.Value(), b)
    ensures AllKnown(costmap.Value().cells, Line(a, b))
    ensures (exists k :: 0 <= k < |Line(a, b)| && costmap.Value().cells[Line(a, b)[k]] == LETHAL_OBSTACLE) ==> cost == LETHAL_OBSTACLE
    ensures (forall k :: 0 <= k < |Line(a, b)| ==> costmap.Value().cells[Line(a, b)[k]] != LETHAL_OBSTACLE) ==>
      cost == MaxOf(costmap.Value().cells, Line(a, b))
    ensures Reports(cost, MaxOf(costmap.Value().cells, Line(a, b)))
  {
    hide Line, CellsOf, RowStart, MaxOf;
    ghost var m, line := costmap.Value().cells, Line(a, b);
    LineKnown(costmap, a, b);
    cost := 0;
    MaxOfPrefix(m, line, 0);
    var it := new LineIterator(a, b);
    while it.IsValid()
      invariant it.Valid() && it.start == a && it.end == b && fresh(it)
      invariant costmap.Valid() && costmap.Value().cells == m
      invariant cost == MaxOf(m, line[..it.curpixel]) && cost != LETHAL_OBSTACLE
      invariant forall k :: 0 <= k < it.curpixel ==> m[line[k]] != LETHAL_OBSTACLE
      invariant it.numpixels == |line| - 1
      decreases it.numpixels + 1 - it.curpixel
    {
      var c := Cell(it.x, it.y);
      assert c == line[it.curpixel];
      assert c in m;
      LineCellInMap(costmap, a, b, it.curpixel);
      var pointCost := costmap.GetCost(c);
      MaxOfPrefix(m, line, it.curpixel);
      if pointCost == LETHAL_OBSTACLE {
        cost := pointCost;
        MaxOfReaches(m, line, LETHAL_OBSTACLE);
        return;
      }
      if cost < pointCost {
        cost := pointCost;
      }
      it.Advance();
    }
    assert line[..|line|] == line;
  }

  lemma MaxOfPrefix(m: map<Cell, Cost>, s: seq<Cell>, n: nat)
    requires AllKnown(m, s) && n <= |s|
    ensures n == 0 ==> MaxOf(m, s[..n]) == 0
    ensures n < |s| ==> MaxOf(m, s[..n + 1]) == Max(MaxOf(m, s[..n]), m[s[n]])
  {
    if n < |s| {
      assert s[..n + 1][..n] == s[..n];
    }
  }

  lemma LineCellInMap(costmap: Costmap2D, a: Cell, b: Cell, i: nat)
    requires costmap.Valid() && InMap(costmap.Value(), a) && InMap(costmap.Value(), b) && i <= Major(a, b)
    ensures InMap(costmap.Value(), Line(a, b)[i]) && Line(a, b)[i] in costmap.Value().cells
  {
    hide Line, CellsOf, RowStart;
    LineInBox(a, b, i);
    CellsOfAt(costmap.costmap[..], costmap.sizeX, costmap.sizeY, Line(a, b)[i]);
  }

  lemma LineKnown(costmap: Costmap2D, a: Cell, b: Cell)
    requires costmap.Valid() && InMap(costmap.Value(), a) && InMap(costmap.Value(), b)
    ensures AllKnown(costmap.Value().cells, Line(a, b))
  {
    hide Line, CellsOf, RowStart, InMap;
    forall i | 0 <= i < |Line(a, b)|
      ensures Line(a, b)[i] in costmap.Value().cells
    {
      LineCellInMap(costmap, a, b, i);
    }
  }

  // The closed outline: all edges, then the line from the first point to the last.
  ghost function FootprintCells(corners: seq<Cell>): seq<Cell>
    requires |corners| > 0
  {
    OutlineUpTo(corners, |corners| - 1) + Line(corners[0], corners[|corners| - 1])
  }

  lemma {:induction false} EdgesPrefix(corners: seq<Cell>, more: seq<Cell>, k: nat)
    requires k < |corners| && corners <= more
    ensures OutlineUpTo(corners, k) == OutlineUpTo(more, k)
  {
    hide Line;
    if k > 0 {
      EdgesPrefix(corners, more, k - 1);
    }
  }

  // The first k edges are a prefix of the closed outline.
  lemma {:induction false} EdgesArePrefix(corners: seq<Cell>, k: nat, n: nat)
    requires k <= n < |corners|
    ensures |OutlineUpTo(corners, k)| <= |OutlineUpTo(corners, n)|
    ensures OutlineUpTo(corners, k) == OutlineUpTo(corners, n)[..|OutlineUpTo(corners, k)|]
    decreases n
  {
    hide Line;
    if k < n {
      EdgesArePrefix(corners, k, n - 1);
    }
  }

  // ---------- The exact value ----------

  // The value of the edge from corner k to corner k + 1.
  ghost function EdgeValue(m: map<Cell, Cost>, corners: seq<Cell>, k: nat): int
    requires k + 1 < |corners| && AllKnown(m, Line(corners[k], corners[k + 1]))
  {
    LineValue(m, Line(corners[k], corners[k + 1]))
  }

  ghost predicate EdgesOnMap(m: map<Cell, Cost>, corners: seq<Cell>) {
    forall k :: 0 <= k < |corners| - 1 ==> AllKnown(m, Line(corners[k], corners[k + 1]))
  }

  // Edge k is the first one at or above LETHAL, and its value is v.
  ghost predicate FirstHigh(m: map<Cell, Cost>, corners: seq<Cell>, k: nat, v: int)
    requires EdgesOnMap(m, corners)
  {
    && k + 1 < |corners| && EdgeValue(m, corners, k) == v >= LETHAL_OBSTACLE
    && forall j :: 0 <= j < k ==> EdgeValue(m, corners, j) < LETHAL_OBSTACLE
  }

  ghost predicate NoneHigh(m: map<Cell, Cost>, corners: seq<Cell>)
    requires EdgesOnMap(m, corners)
  {
    forall j :: 0 <= j < |corners| - 1 ==> EdgeValue(m, corners, j) < LETHAL_OBSTACLE
  }

  // A cost from LETHAL up is the value of the first edge that reaches LETHAL; below, it is the
  // largest value.
  ghost predicate HighIsFirst(m: map<Cell, Cost>, corners: seq<Cell>, cost: int)
    requires EdgesOnMap(m, corners)
  {
    if cost >= LETHAL_OBSTACLE then exists k :: FirstHigh(m, corners, k, cost)
    else NoEdgeAbove(m, corners, cost) && (cost == 0 || SomeEdgeAt(m, corners, cost))
  }

  ghost predicate NoEdgeAbove(m: map<Cell, Cost>, corners: seq<Cell>, v: int)
    requires EdgesOnMap(m, corners)
  {
    forall j :: 0 <= j < |corners| - 1 ==> EdgeValue(m, corners, j) <= v
  }

  ghost predicate SomeEdgeAt(m: map<Cell, Cost>, corners: seq<Cell>, v: int)
    requires EdgesOnMap(m, corners)
  {
    exists j :: 0 <= j < |corners| - 1 && EdgeValue(m, corners, j) == v
  }

  lemma SameEdges(m: map<Cell, Cost>, corners: seq<Cell>, more: seq<Cell>)
    requires corners <= more && EdgesOnMap(m, more)
    ensures EdgesOnMap(m, corners)
    ensures forall k :: 0 <= k < |corners| - 1 ==> EdgeValue(m, corners, k) == EdgeValue(m, more, k)
  {
    hide Line, LineValue, AllKnown;
    forall k | 0 <= k < |corners| - 1
      ensures AllKnown(m, Line(corners[k], corners[k + 1]))
    {
      assert AllKnown(m, Line(more[k], more[k + 1]));
    }
  }

  lemma HighStep(m: map<Cell, Cost>, corners: seq<Cell>, next: Cell, cost: int, line: int)
    requires |corners| > 0 && EdgesOnMap(m, corners + [next]) && EdgesOnMap(m, corners)
    requires HighIsFirst(m, corners, cost) && 0 <= cost <= NO_INFORMATION && cost != LETHAL_OBSTACLE
    requires line == EdgeValue(m, corners + [next], |corners| - 1) && 0 <= line <= NO_INFORMATION
    ensures HighIsFirst(m, corners + [next], Max(line, cost))
  {
    hide Line, LineValue, AllKnown, EdgeValue;
    var more, n := corners + [next], |corners| - 1;
    SameEdges(m, corners, more);
    if cost >= LETHAL_OBSTACLE {
      var k :| FirstHigh(m, corners, k, cost);
      assert FirstHigh(m, more, k, cost);
    } else if line >= LETHAL_OBSTACLE {
      assert FirstHigh(m, more, n, line);
    } else if line <= cost && cost > 0 {
      var j :| 0 <= j < |corners| - 1 && EdgeValue(m, corners, j) == cost;
      assert EdgeValue(m, more, j) == cost;
    } else {
      assert EdgeValue(m, more, n) == line;
    }
  }

  // The value of a footprint on the map: that of the first edge at or above LETHAL, the closing
  // one last; if there is none, the maximum.
  ghost predicate FootprintExactly(m: Costmap, footprint: seq<WorldPoint>, cost: int)
    requires m.resolution > 0.0 && |footprint| > 0
  {
    if AllInMap(m, footprint) then OutlineExactly(m.cells, Corners(m, footprint), cost) else cost == LETHAL_OBSTACLE
  }

  ghost predicate OutlineExactly(m: map<Cell, Cost>, corners: seq<Cell>, cost: int)
    requires |corners| > 0
  {
    var closing := Line(corners[0], corners[|corners| - 1]);
    && EdgesOnMap(m, corners) && AllKnown(m, closing)
    && (cost >= LETHAL_OBSTACLE ==>
          || (exists k :: FirstHigh(m, corners, k, cost))
          || (NoneHigh(m, corners) && cost == LineValue(m, closing)))
    && (cost < LETHAL_OBSTACLE ==>
          && NoEdgeAbove(m, corners, cost) && LineValue(m, closing) <= cost
          && (cost == 0 || SomeEdgeAt(m, corners, cost) || cost == LineValue(m, closing)))
  }

  lemma {:induction false} MaxOfAtMost(m: map<Cell, Cost>, s: seq<Cell>)
    requires AllKnown(m, s)
    ensures 0 <= MaxOf(m, s) <= NO_INFORMATION
    ensures MaxOf(m, s) == NO_INFORMATION ==> exists k :: 0 <= k < |s| && m[s[k]] == NO_INFORMATION
  {
    hide MaxOf;
    MaxOfNonNegative(m, s);
    MaxOfReaches(m, s, NO_INFORMATION);
    MaxOfReaches(m, s, NO_INFORMATION + 1);
  }

  // What the whole footprint would report.
  ghost predicate FootprintReports(m: Costmap, footprint: seq<WorldPoint>, cost: int)
    requires m.resolution > 0.0 && |footprint| > 0
  {
    if AllInMap(m, footprint) then
      AllKnown(m.cells, FootprintCells(Corners(m, footprint)))
      && Reports(cost, MaxOf(m.cells, FootprintCells(Corners(m, footprint))))
    else
      cost >= LETHAL_OBSTACLE
  }

  ghost predicate CornersInMap(m: Costmap, corners: seq<Cell>) {
    forall k :: 0 <= k < |corners| ==> InMap(m, corners[k])
  }

  lemma {:induction false} EdgesKnown(costmap: Costmap2D, corners: seq<Cell>, k: nat)
    requires costmap.Valid() && k < |corners| && CornersInMap(costmap.Value(), corners)
    ensures AllKnown(costmap.Value().cells, OutlineUpTo(corners, k))
    decreases k
  {
    hide Line, CellsOf, RowStart, InMap;
    if k > 0 {
      EdgesKnown(costmap, corners, k - 1);
      LineKnown(costmap, corners[k - 1], corners[k]);
    }
  }

  lemma FootprintKnown(costmap: Costmap2D, corners: seq<Cell>)
    requires costmap.Valid() && |corners| > 0 && CornersInMap(costmap.Value(), corners)
    ensures AllKnown(costmap.Value().cells, FootprintCells(corners))
  {
    hide Line, CellsOf, RowStart, InMap, OutlineUpTo;
    EdgesKnown(costmap, corners, |corners| - 1);
    LineKnown(costmap, corners[0], corners[|corners| - 1]);
  }

  lemma CornersAreInMap(m: Costmap, footprint: seq<WorldPoint>)
    requires m.resolution > 0.0 && AllInMap(m, footprint)
    ensures CornersInMap(m, Corners(m, footprint))
  {
    hide InMap;
  }

  // The corners found so far are the first ones of the footprint.
  ghost predicate CornersSoFar(m: Costmap, footprint: seq<WorldPoint>, corners: seq<Cell>)
    requires m.resolution > 0.0
  {
    |corners| <= |footprint| && forall k :: 0 <= k < |corners| ==> ToMap(m, footprint[k]) == Some(corners[k])
  }

  lemma SoFarIsPrefix(m: Costmap, footprint: seq<WorldPoint>, corners: seq<Cell>)
    requires m.resolution > 0.0 && CornersSoFar(m, footprint, corners)
    ensures CornersInMap(m, corners)
    ensures AllInMap(m, footprint) ==> corners <= Corners(m, footprint)
    ensures |corners| == |footprint| ==> AllInMap(m, footprint) && Corners(m, footprint) == corners
  {
    hide InMap;
    forall k | 0 <= k < |corners|
      ensures InMap(m, corners[k])
    {
      assert ToMap(m, footprint[k]) == Some(corners[k]);
    }
  }

  // A lethal edge decides the footprint, wherever the remaining points are.
  lemma LethalEdgeDecides(costmap: Costmap2D, footprint: seq<WorldPoint>, corners: seq<Cell>, k: nat, cost: int)
    requires costmap.Valid() && CornersSoFar(costmap.Value(), footprint, corners) && k < |corners|
    requires AllKnown(costmap.Value().cells, OutlineUpTo(corners, k))
    requires cost >= LETHAL_OBSTACLE && MaxOf(costmap.Value().cells, OutlineUpTo(corners, k)) >= LETHAL_OBSTACLE
    ensures FootprintReports(costmap.Value(), footprint, cost)
  {
    hide Line, CellsOf, RowStart, InMap, OutlineUpTo, MaxOf, ToMap;
    var m := costmap.Value();
    if AllInMap(m, footprint) {
      var all := Corners(m, footprint);
      SoFarIsPrefix(m, footprint, corners);
      CornersAreInMap(m, footprint);
      FootprintKnown(costmap, all);
      EdgesPrefix(corners, all, k);
      EdgesArePrefix(all, k, |all| - 1);
      PrefixReaches(m.cells, OutlineUpTo(all, k), FootprintCells(all), LETHAL_OBSTACLE);
    }
  }

  lemma PrefixReaches(m: map<Cell, Cost>, s: seq<Cell>, t: seq<Cell>, v: int)
    requires AllKnown(m, s) && AllKnown(m, t) && s <= t && v > 0 && MaxOf(m, s) >= v
    ensures MaxOf(m, t) >= v
  {
    hide MaxOf;
    MaxOfReaches(m, s, v);
    MaxOfReaches(m, t, v);
    var k :| 0 <= k < |s| && m[s[k]] >= v;
    assert m[t[k]] >= v;
  }

  lemma EdgeStep(m: map<Cell, Cost>, corners: seq<Cell>, next: Cell, cost: int, line: int)
    requires |corners| > 0
    requires AllKnown(m, OutlineUpTo(corners, |corners| - 1))
    requires Reports(cost, MaxOf(m, OutlineUpTo(corners, |corners| - 1)))
    requires AllKnown(m, Line(corners[|corners| - 1], next))
    requires Reports(line, MaxOf(m, Line(corners[|corners| - 1], next)))
    ensures AllKnown(m, OutlineUpTo(corners + [next], |corners|))
    ensures Reports(Max(line, cost), MaxOf(m, OutlineUpTo(corners + [next], |corners|)))
  {
    hide Line, MaxOf, AllKnown, OutlineUpTo;
    OneMoreEdge(corners, next);
    MaxOfAppend(m, OutlineUpTo(corners, |corners| - 1), Line(corners[|corners| - 1], next));
  }

  lemma {:induction false} OneMoreEdge(corners: seq<Cell>, next: Cell)
    requires |corners| > 0
    ensures OutlineUpTo(corners + [next], |corners|) ==
      OutlineUpTo(corners, |corners| - 1) + Line(corners[|corners| - 1], next)
  {
    hide OutlineUpTo, Line;
    var n, more := |corners|, corners + [next];
    EdgesPrefix(corners, more, n - 1);
    LastEdge(more, n);
  }

  lemma LastEdge(corners: seq<Cell>, k: nat)
    requires 0 < k < |corners|
    ensures OutlineUpTo(corners, k) == OutlineUpTo(corners, k - 1) + Line(corners[k - 1], corners[k])
  {
    hide Line;
  }

  // footprintCost: cost below LETHAL is the maximum over the closed outline, and LETHAL or
  // above is returned exactly when a point is off the map or an outline cell is that high.
  method FootprintCost(costmap: Costmap2D, footprint: seq<WorldPoint>) returns (cost: int)
    requires costmap.Valid() && |footprint| >= 2
    ensures FootprintReports(costmap.Value(), footprint, cost)
    ensures FootprintExactly(costmap.Value(), footprint, cost)
  {
    hide Line, CellsOf, RowStart, InMap, OutlineUpTo, MaxOf, ToMap, FootprintReports, FootprintExactly, HighIsFirst, EdgesOnMap, EdgeValue;
    ghost var m := costmap.Value();
    cost := 0;
    var first := CornerOf(costmap, footprint[0]);
    if first.None? {
      OffMapDecides(m, footprint, 0);
      return LETHAL_OBSTACLE;
    }
    var start, c0, c1 := first.value, first.value, first.value;
    ghost var corners := [start];
    NoEdges(m.cells, start);
    NoHigh(m.cells, start);
    for i := 0 to |footprint| - 1
      invariant |corners| == i + 1 && corners[0] == start && corners[i] == c0 && (i > 0 ==> c1 == c0)
      invariant CornersSoFar(m, footprint, corners)
      invariant AllKnown(m.cells, OutlineUpTo(corners, i)) && Reports(cost, MaxOf(m.cells, OutlineUpTo(corners, i)))
      invariant EdgesOnMap(m.cells, corners) && HighIsFirst(m.cells, corners, cost)
      invariant 0 <= cost <= NO_INFORMATION && cost != LETHAL_OBSTACLE
    {
      var next := CornerOf(costmap, footprint[i + 1]);
      if next.None? {
        OffMapDecides(m, footprint, i + 1);
        return LETHAL_OBSTACLE;
      }
      c1 := next.value;
      SoFarIsPrefix(m, footprint, corners + [c1]);
      SoFarEnds(m, corners + [c1], i);
      var line := LineCost(costmap, c0, c1);
      EdgeStep(m.cells, corners, c1, cost, line);
      CornersEdges(costmap, corners + [c1]);
      LastEdgeValue(m.cells, corners, c1, line);
      HighStep(m.cells, corners, c1, cost, line);
      cost := Max(line, cost);
      corners := corners + [c1];
      c0 := c1;
      if cost == LETHAL_OBSTACLE {
        LethalEdgeDecides(costmap, footprint, corners, i + 1, cost);
        LethalIsExact(costmap, footprint, corners);
        return;
      }
    }
    SoFarIsPrefix(m, footprint, corners);
    SoFarEnds(m, corners, 0);
    SoFarEnds(m, corners, |corners| - 2);
    var closing := LineCost(costmap, start, c1);
    WholeFootprint(costmap, footprint, corners, cost, closing);
    ClosingIsExact(m, footprint, corners, cost, closing);
    cost := Max(closing, cost);
  }

  lemma NoEdges(m: map<Cell, Cost>, c: Cell)
    ensures OutlineUpTo([c], 0) == [] && MaxOf(m, []) == 0
  {
  }

  lemma NoHigh(m: map<Cell, Cost>, c: Cell)
    ensures EdgesOnMap(m, [c]) && HighIsFirst(m, [c], 0)
  {
  }

  lemma CornersEdges(costmap: Costmap2D, corners: seq<Cell>)
    requires costmap.Valid() && CornersInMap(costmap.Value(), corners)
    ensures EdgesOnMap(costmap.Value().cells, corners)
  {
    hide Line, CellsOf, RowStart, InMap, AllKnown;
    forall k | 0 <= k < |corners| - 1
      ensures AllKnown(costmap.Value().cells, Line(corners[k], corners[k + 1]))
    {
      LineKnown(costmap, corners[k], corners[k + 1]);
    }
  }

  // LineCost of the new edge is its value.
  lemma LastEdgeValue(m: map<Cell, Cost>, corners: seq<Cell>, next: Cell, line: int)
    requires |corners| > 0 && EdgesOnMap(m, corners + [next]) && AllKnown(m, Line(corners[|corners| - 1], next))
    requires var s := Line(corners[|corners| - 1], next);
      line == LineValue(m, s)
    ensures line == EdgeValue(m, corners + [next], |corners| - 1) && 0 <= line <= NO_INFORMATION
  {
    hide Line, MaxOf;
    MaxOfAtMost(m, Line(corners[|corners| - 1], next));
  }

  // The early exit: 254 is the value of the first high edge, also of the whole footprint.
  lemma LethalIsExact(costmap: Costmap2D, footprint: seq<WorldPoint>, corners: seq<Cell>)
    requires costmap.Valid() && |footprint| > 0 && CornersSoFar(costmap.Value(), footprint, corners)
    requires EdgesOnMap(costmap.Value().cells, corners) && HighIsFirst(costmap.Value().cells, corners, LETHAL_OBSTACLE)
    ensures FootprintExactly(costmap.Value(), footprint, LETHAL_OBSTACLE)
  {
    hide Line, CellsOf, RowStart, InMap, ToMap, EdgesOnMap, EdgeValue, LineValue, AllKnown;
    var m := costmap.Value();
    if AllInMap(m, footprint) {
      var all := Corners(m, footprint);
      SoFarIsPrefix(m, footprint, corners);
      CornersAreInMap(m, footprint);
      CornersEdges(costmap, all);
      LineKnown(costmap, all[0], all[|all| - 1]);
      SameEdges(m.cells, corners, all);
      var k :| FirstHigh(m.cells, corners, k, LETHAL_OBSTACLE);
      assert FirstHigh(m.cells, all, k, LETHAL_OBSTACLE);
    }
  }

  lemma ClosingIsExact(m: Costmap, footprint: seq<WorldPoint>, corners: seq<Cell>, cost: int, closing: int)
    requires m.resolution > 0.0 && |footprint| == |corners| > 0 && CornersSoFar(m, footprint, corners)
    requires EdgesOnMap(m.cells, corners) && HighIsFirst(m.cells, corners, cost)
    requires 0 <= cost <= NO_INFORMATION && cost != LETHAL_OBSTACLE
    requires AllKnown(m.cells, Line(corners[0], corners[|corners| - 1])) && closing == LineValue(m.cells, Line(corners[0], corners[|corners| - 1]))
    ensures FootprintExactly(m, footprint, Max(closing, cost))
  {
    hide Line, InMap, ToMap, EdgesOnMap, EdgeValue, MaxOf, AllKnown, FirstHigh;
    SoFarIsPrefix(m, footprint, corners);
    MaxOfAtMost(m.cells, Line(corners[0], corners[|corners| - 1]));
  }

  lemma SoFarEnds(m: Costmap, corners: seq<Cell>, i: nat)
    requires CornersInMap(m, corners) && i + 1 < |corners|
    ensures InMap(m, corners[i]) && InMap(m, corners[i + 1])
  {
    hide InMap;
  }

  lemma OffMapDecides(m: Costmap, footprint: seq<WorldPoint>, k: nat)
    requires m.resolution > 0.0 && k < |footprint| && ToMap(m, footprint[k]).None?
    ensures FootprintReports(m, footprint, LETHAL_OBSTACLE) && FootprintExactly(m, footprint, LETHAL_OBSTACLE)
  {
    hide ToMap;
  }

  lemma WholeFootprint(costmap: Costmap2D, footprint: seq<WorldPoint>, corners: seq<Cell>, cost: int, closing: int)
    requires costmap.Valid() && |footprint| == |corners| > 0 && CornersSoFar(costmap.Value(), footprint, corners)
    requires AllKnown(costmap.Value().cells, OutlineUpTo(corners, |corners| - 1))
    requires Reports(cost, MaxOf(costmap.Value().cells, OutlineUpTo(corners, |corners| - 1)))
    requires AllKnown(costmap.Value().cells, Line(corners[0], corners[|corners| - 1]))
    requires Reports(closing, MaxOf(costmap.Value().cells, Line(corners[0], corners[|corners| - 1])))
    ensures FootprintReports(costmap.Value(), footprint, Max(closing, cost))
  {
    hide Line, CellsOf, RowStart, InMap, OutlineUpTo, MaxOf, ToMap;
    SoFarIsPrefix(costmap.Value(), footprint, corners);
    MaxOfAppend(costmap.Value().cells, OutlineUpTo(corners, |corners| - 1), Line(corners[0], corners[|corners| - 1]));
  }

  // Unknown is told from lethal: 255 comes only from a footprint that is on the map and touches
  // an unknown cell, and without unknown cells every result from LETHAL up is LETHAL.
  lemma UnknownIsReal(m: Costmap, footprint: seq<WorldPoint>, cost: int)
    requires m.resolution > 0.0 && |footprint| >= 2 && FootprintExactly(m, footprint, cost)
    ensures cost == NO_INFORMATION ==> AllInMap(m, footprint)
    ensures cost > LETHAL_OBSTACLE ==>
      cost == NO_INFORMATION && AllInMap(m, footprint) && TouchesUnknown(m.cells, Corners(m, footprint))
  {
    hide ToMap, Line, EdgesOnMap, AllKnown, FirstHigh, NoneHigh, EdgeValue, TouchesUnknown;
    if AllInMap(m, footprint) && cost > LETHAL_OBSTACLE {
      var corners := Corners(m, footprint);
      if exists k :: FirstHigh(m.cells, corners, k, cost) {
        var k :| FirstHigh(m.cells, corners, k, cost);
        HighEdgeUnknown(m.cells, corners, k, cost);
      } else {
        HighClosingUnknown(m.cells, corners, cost);
      }
    }
  }

  // Some cell of an edge, the closing one included, is unknown.
  ghost predicate TouchesUnknown(m: map<Cell, Cost>, corners: seq<Cell>)
    requires |corners| > 0
  {
    || (exists k :: 0 <= k < |corners| - 1 && OnUnknown(m, Line(corners[k], corners[k + 1])))
    || OnUnknown(m, Line(corners[0], corners[|corners| - 1]))
  }

  ghost predicate OnUnknown(m: map<Cell, Cost>, s: seq<Cell>) {
    exists i :: 0 <= i < |s| && s[i] in m && m[s[i]] == NO_INFORMATION
  }

  lemma HighLineUnknown(m: map<Cell, Cost>, s: seq<Cell>, cost: int)
    requires AllKnown(m, s) && cost == LineValue(m, s) && cost > LETHAL_OBSTACLE
    ensures cost == NO_INFORMATION && OnUnknown(m, s)
  {
    hide MaxOf;
    MaxOfAtMost(m, s);
    MaxOfReaches(m, s, LETHAL_OBSTACLE + 1);
  }

  lemma HighEdgeUnknown(m: map<Cell, Cost>, corners: seq<Cell>, k: nat, cost: int)
    requires |corners| > 0 && EdgesOnMap(m, corners) && FirstHigh(m, corners, k, cost) && cost > LETHAL_OBSTACLE
    ensures cost == NO_INFORMATION && TouchesUnknown(m, corners)
  {
    hide Line, AllKnown, LineValue, OnUnknown;
    HighLineUnknown(m, Line(corners[k], corners[k + 1]), cost);
  }

  lemma HighClosingUnknown(m: map<Cell, Cost>, corners: seq<Cell>, cost: int)
    requires |corners| > 0 && AllKnown(m, Line(corners[0], corners[|corners| - 1]))
    requires cost == LineValue(m, Line(corners[0], corners[|corners| - 1])) && cost > LETHAL_OBSTACLE
    ensures cost == NO_INFORMATION && TouchesUnknown(m, corners)
  {
    hide Line, AllKnown, LineValue, OnUnknown;
    HighLineUnknown(m, Line(corners[0], corners[|corners| - 1]), cost);
  }

  // In the words of the property: early exits hide nothing.
  lemma EarlyExitHidesNothing(m: Costmap, footprint: seq<WorldPoint>, cost: int)
    requires m.resolution > 0.0 && |footprint| >= 2 && FootprintReports(m, footprint, cost)
    ensures cost >= LETHAL_OBSTACLE <==>
      (!AllInMap(m, footprint) ||
       var cells := FootprintCells(Corners(m, footprint));
       exists k :: 0 <= k < |cells| && cells[k] in m.cells && m.cells[cells[k]] >= LETHAL_OBSTACLE)
  {
    hide MaxOf, ToMap, FootprintCells, Corners;
    if AllInMap(m, footprint) {
      MaxOfReaches(m.cells, FootprintCells(Corners(m, footprint)), LETHAL_OBSTACLE);
    }
  }
}
