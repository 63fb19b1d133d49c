// Regions given by world polygons: collecting, setting and restoring them.
module MapRegion {
  import opened Wrappers
  import opened Lattice
  import opened RowMajor
  import opened GridCells
  import opened CostmapValue
  import opened Coordinates
  import opened Outline
  import opened GridKernel
  import opened PolygonFill

  datatype WorldPoint = WorldPoint(x: real, y: real)

  function AxisX(m: Costmap): Axis { Axis(m.originX, m.resolution, m.width) }
  function AxisY(m: Costmap): Axis { Axis(m.originY, m.resolution, m.height) }

  // worldToMap on both axes.
  function ToMap(m: Costmap, p: WorldPoint): (r: Option<Cell>)
    requires m.resolution > 0.0
    ensures r.Some? <==> AxisX(m).origin <= p.x < Top(AxisX(m)) && AxisY(m).origin <= p.y < Top(AxisY(m))
    ensures r.Some? ==> InMap(m, r.value)
  {
    WorldToMapAccepts(AxisX(m), p.x);
    WorldToMapAccepts(AxisY(m), p.y);
    var x, y := WorldToMap(AxisX(m), p.x), WorldToMap(AxisY(m), p.y);
    if x.Some? && y.Some? then Some(Cell(x.value, y.value)) else None
  }

  // The centre of a cell maps back to the cell.
  lemma CentreOfCell(m: Costmap, c: Cell)
    requires m.resolution > 0.0 && InMap(m, c)
    ensures ToMap(m, WorldPoint(MapToWorld(AxisX(m), c.x), MapToWorld(AxisY(m), c.y))) == Some(c)
  {
    hide MapToWorld, WorldToMap;
    CentreRoundTrip(AxisX(m), c.x);
    CentreRoundTrip(AxisY(m), c.y);
  }

  ghost predicate AllInMap(m: Costmap, polygon: seq<WorldPoint>)
    requires m.resolution > 0.0
  {
    forall k :: 0 <= k < |polygon| ==> ToMap(m, polygon[k]).Some?
  }

  ghost function Corners(m: Costmap, polygon: seq<WorldPoint>): (r: seq<Cell>)
    requires m.resolution > 0.0 && AllInMap(m, polygon)
    ensures |r| == |polygon|
  {
    seq(|polygon|, k requires 0 <= k < |polygon| => ToMap(m, polygon[k]).value)
  }

  // getMapRegionOccupiedByPolygon: refuses a polygon with any vertex off the map.
  method GetMapRegion(costmap: Costmap2D, polygon: seq<WorldPoint>) returns (ok: bool, region: seq<MapLocation>)
    requires costmap.Valid()
    ensures ok <==> AllInMap(costmap.Value(), polygon)
    ensures !ok || |polygon| < 3 ==> region == []
    ensures ok && |polygon| >= 3 ==>
      IsRegion(costmap.Value().cells, OutlineOf(Corners(costmap.Value(), polygon)), region)
  {
    hide OutlineOf, IsRegion, CellsOf, RowStart, ToMap;
    ghost var m := costmap.Value();
    region := [];
    var corners: seq<Cell> := [];
    for i := 0 to |polygon|
      invariant |corners| == i
      invariant forall k :: 0 <= k < i ==> ToMap(m, polygon[k]) == Some(corners[k])
    {
      var loc := CornerOf(costmap, polygon[i]);
      if loc.None? {
        return false, [];
      }
      corners := corners + [loc.value];
    }
    assert corners == Corners(m, polygon);
    region := ConvexFillCells(costmap, corners);
    return true, region;
  }

  method CornerOf(costmap: Costmap2D, p: WorldPoint) returns (loc: Option<Cell>)
    requires costmap.Valid()
    ensures loc == ToMap(costmap.Value(), p)
  {
    hide CellsOf;
    if p.x < costmap.originX || p.y < costmap.originY {
      return None;
    }
    var ax, ay := Axis(costmap.originX, costmap.resolution, costmap.sizeX), Axis(costmap.originY, costmap.resolution, costmap.sizeY);
    var mx, my := CellOf(ax, p.x), CellOf(ay, p.y);
    CellInterval(ax, p.x, mx);
    CellInterval(ay, p.y, my);
    if mx < costmap.sizeX && my < costmap.sizeY {
      return Some(Cell(mx, my));
    }
    return None;
  }

  // ---------- Setting and restoring ----------

  function SetAll(m: map<Cell, Cost>, region: seq<MapLocation>, value: Cost): map<Cell, Cost> {
    if region == [] then m else SetAll(m, region[..|region| - 1], value)[region[|region| - 1].cell := value]
  }

  function RestoreAll(m: map<Cell, Cost>, region: seq<MapLocation>): map<Cell, Cost> {
    if region == [] then m
    else RestoreAll(m, region[..|region| - 1])[region[|region| - 1].cell := region[|region| - 1].cost]
  }

  lemma {:induction false} SetAllAt(m: map<Cell, Cost>, region: seq<MapLocation>, value: Cost, c: Cell)
    ensures ListedFrom(region, 0, c) ==> c in SetAll(m, region, value) && SetAll(m, region, value)[c] == value
    ensures !ListedFrom(region, 0, c) ==> (c in SetAll(m, region, value) <==> c in m)
    ensures !ListedFrom(region, 0, c) && c in m ==> SetAll(m, region, value)[c] == m[c]
    decreases |region|
  {
    if region != [] {
      var init := region[..|region| - 1];
      SetAllAt(m, init, value, c);
      ListedSplit(region, c);
    }
  }

  lemma ListedSplit(region: seq<MapLocation>, c: Cell)
    requires region != []
    ensures ListedFrom(region, 0, c) <==> ListedFrom(region[..|region| - 1], 0, c) || region[|region| - 1].cell == c
  {
    var init := region[..|region| - 1];
    if ListedFrom(region, 0, c) && region[|region| - 1].cell != c {
      var k :| 0 <= k < |region| && region[k].cell == c;
      assert init[k].cell == c;
    }
    if ListedFrom(init, 0, c) {
      var k :| 0 <= k < |init| && init[k].cell == c;
      assert region[k].cell == c;
    }
  }

  // Restoring costs that agree with m brings every listed cell back to m.
  lemma {:induction false} RestoreAllAt(m: map<Cell, Cost>, now: map<Cell, Cost>, region: seq<MapLocation>, c: Cell)
    requires forall k :: 0 <= k < |region| ==> HoldsCost(m, region[k])
    ensures ListedFrom(region, 0, c) ==> c in m && c in RestoreAll(now, region) && RestoreAll(now, region)[c] == m[c]
    ensures !ListedFrom(region, 0, c) ==> (c in RestoreAll(now, region) <==> c in now)
    ensures !ListedFrom(region, 0, c) && c in now ==> RestoreAll(now, region)[c] == now[c]
    decreases |region|
  {
    if region != [] {
      var init := region[..|region| - 1];
      RestoreAllAt(m, now, init, c);
      ListedSplit(region, c);
    }
  }

  // The last listing of a cell decides.
  lemma {:induction false} LastListingWins(m: map<Cell, Cost>, region: seq<MapLocation>, k: nat)
    requires k < |region| && !ListedFrom(region, k + 1, region[k].cell)
    ensures region[k].cell in RestoreAll(m, region) && RestoreAll(m, region)[region[k].cell] == region[k].cost
    decreases |region|
  {
    var n := |region| - 1;
    if k < n {
      var init := region[..n];
      assert region[n].cell != region[k].cell;
      forall j | k + 1 <= j < |init|
        ensures init[j].cell != init[k].cell
      {
        assert region[j].cell != region[k].cell;
      }
      LastListingWins(m, init, k);
    }
  }

  // Collect, set to any cost, restore: the whole grid is as it was, however often the
  // region lists a cell.
  lemma ClearThenRestore(m: map<Cell, Cost>, outline: seq<Cell>, region: seq<MapLocation>, value: Cost)
    requires IsRegion(m, outline, region)
    ensures RestoreAll(SetAll(m, region, value), region) == m
  {
    hide Enclosed, ListedFrom;
    var now := SetAll(m, region, value);
    var back := RestoreAll(now, region);
    forall c
      ensures (c in back <==> c in m) && (c in m ==> back[c] == m[c])
    {
      SetAllAt(m, region, value, c);
      RestoreAllAt(m, now, region, c);
    }
    assert back.Keys == m.Keys;
  }

  // setMapRegionOccupiedByPolygon.
  method SetMapRegion(costmap: Costmap2D, region: seq<MapLocation>, value: Cost)
    requires costmap.Valid()
    requires forall k :: 0 <= k < |region| ==> InMap(costmap.Value(), region[k].cell)
    modifies costmap.costmap
    ensures costmap.Value() == old(costmap.Value()).(cells := SetAll(old(costmap.Value()).cells, region, value))
  {
    hide CellsOf, RowStart;
    ghost var was := costmap.Value();
    for i := 0 to |region|
      invariant costmap.Value() == was.(cells := SetAll(was.cells, region[..i], value))
    {
      costmap.SetCost(region[i].cell, value);
      assert region[..i + 1][..i] == region[..i];
    }
    assert region[..|region|] == region;
  }

  // restoreMapRegionOccupiedByPolygon.
  method RestoreMapRegion(costmap: Costmap2D, region: seq<MapLocation>)
    requires costmap.Valid()
    requires forall k :: 0 <= k < |region| ==> InMap(costmap.Value(), region[k].cell)
    modifies costmap.costmap
    ensures costmap.Value() == old(costmap.Value()).(cells := RestoreAll(old(costmap.Value()).cells, region))
  {
    hide CellsOf, RowStart;
    ghost var was := costmap.Value();
    for i := 0 to |region|
      invariant costmap.Value() == was.(cells := RestoreAll(was.cells, region[..i]))
    {
      costmap.SetCost(region[i].cell, region[i].cost);
      assert region[..i + 1][..i] == region[..i];
    }
    assert region[..|region|] == region;
  }

  // setConvexPolygonCost: on success exactly the enclosed cells take the value.
  method SetConvexPolygonCost(costmap: Costmap2D, polygon: seq<WorldPoint>, value: Cost) returns (ok: bool)
    requires costmap.Valid()
    modifies costmap.costmap
    ensures ok <==> AllInMap(old(costmap.Value()), polygon)
    ensures !ok || |polygon| < 3 ==> costmap.Value() == old(costmap.Value())
    ensures ok && |polygon| >= 3 ==> forall c :: c in old(costmap.Value()).cells ==>
      c in costmap.Value().cells && costmap.Value().cells[c] ==
        if Enclosed(OutlineOf(Corners(old(costmap.Value()), polygon)), c) then value else old(costmap.Value()).cells[c]
  {
    hide CellsOf, RowStart, OutlineOf, Enclosed, ToMap, ListedFrom, SetAll;
    ghost var was := costmap.Value();
    var region;
    ok, region := GetMapRegion(costmap, polygon);
    if !ok {
      return;
    }
    if |polygon| < 3 {
      SetNothing(was.cells, value);
      SetMapRegion(costmap, region, value);
      return;
    }
    ghost var outline := OutlineOf(Corners(was, polygon));
    RegionInMap(costmap, outline, region);
    SetMapRegion(costmap, region, value);
    ClearedCells(was.cells, outline, region, value);
  }

  lemma SetNothing(m: map<Cell, Cost>, value: Cost)
    ensures SetAll(m, [], value) == m
  {
  }

  lemma EnclosedIsListed(m: map<Cell, Cost>, outline: seq<Cell>, region: seq<MapLocation>, c: Cell)
    requires IsRegion(m, outline, region)
    ensures Enclosed(outline, c) <==> ListedFrom(region, 0, c)
  {
    hide Enclosed, HoldsCost;
  }

  lemma RegionInMap(costmap: Costmap2D, outline: seq<Cell>, region: seq<MapLocation>)
    requires costmap.Valid() && IsRegion(costmap.Value().cells, outline, region)
    ensures forall k :: 0 <= k < |region| ==> InMap(costmap.Value(), region[k].cell)
  {
    hide Enclosed, ListedFrom, RowStart;
    forall k | 0 <= k < |region|
      ensures InMap(costmap.Value(), region[k].cell)
    {
      CellsOfAt(costmap.costmap[..], costmap.sizeX, costmap.sizeY, region[k].cell);
    }
  }

  // The use in StaticLayer::updateCosts: clear the robot's footprint, copy the layer out, put the
  // footprint back. A failed transform returns before the footprint is put back.
  method ClearFootprintAndRestore(costmap: Costmap2D, footprint: seq<WorldPoint>, value: Cost,
                                  clearing: bool, restoring: bool, transformFailed: bool)
    requires costmap.Valid()
    modifies costmap.costmap
    ensures !clearing || (restoring && !transformFailed) || !AllInMap(old(costmap.Value()), footprint) || |footprint| < 3
      ==> costmap.Value() == old(costmap.Value())
    ensures clearing && (!restoring || transformFailed) && AllInMap(old(costmap.Value()), footprint) && |footprint| >= 3
      ==> forall c :: c in old(costmap.Value()).cells ==>
        c in costmap.Value().cells && costmap.Value().cells[c] ==
          if Enclosed(OutlineOf(Corners(old(costmap.Value()), footprint)), c) then value else old(costmap.Value()).cells[c]
  {
    hide CellsOf, RowStart, OutlineOf, Enclosed, ToMap, ListedFrom, SetAll, RestoreAll, IsRegion;
    if !clearing {
      return;
    }
    ghost var was := costmap.Value();
    var ok, region := GetMapRegion(costmap, footprint);
    if region == [] {
      SetNothing(was.cells, value);
      RestoreNothing(was.cells);
    } else {
      ghost var outline := OutlineOf(Corners(was, footprint));
      RegionInMap(costmap, outline, region);
      ClearThenRestore(was.cells, outline, region, value);
    }
    SetMapRegion(costmap, region, value);
    if transformFailed || !restoring {
      if ok && |footprint| >= 3 {
        ClearedCells(was.cells, OutlineOf(Corners(was, footprint)), region, value);
      }
      return;
    }
    RestoreMapRegion(costmap, region);
  }

  // Setting a polygon's region gives the value to the enclosed cells and to no other.
  lemma ClearedCells(m: map<Cell, Cost>, outline: seq<Cell>, region: seq<MapLocation>, value: Cost)
    requires IsRegion(m, outline, region)
    ensures forall c :: c in m ==>
      c in SetAll(m, region, value) && SetAll(m, region, value)[c] == if Enclosed(outline, c) then value else m[c]
  {
    hide Enclosed, ListedFrom, SetAll, IsRegion;
    forall c | c in m
      ensures c in SetAll(m, region, value) && SetAll(m, region, value)[c] == if Enclosed(outline, c) then value else m[c]
    {
      SetAllAt(m, region, value, c);
      EnclosedIsListed(m, outline, region, c);
    }
  }

  lemma RestoreNothing(m: map<Cell, Cost>)
    ensures RestoreAll(m, []) == m
  {
  }
}
