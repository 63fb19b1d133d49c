// The inflation layer as a layer of the layered costmap.
module InflationAsLayer {
  import opened Lattice
  import opened RowMajor
  import opened GridCells
  import opened CostmapValue
  import opened GridKernel
  import opened Wavefront
  import opened InflationCost
  import opened Inflation
  import L = LayeredCostmaps

  lemma LocalIsInside(p: Pass, model: CostModel, unknown: bool, around: bool, r: Rect, before: seq<Cost>, after: seq<Cost>, m: Costmap)
    requires ValidModel(model) && |before| == RowStart(p.width, p.height) == |after|
    requires ChangesLocally(p, model, unknown, around, Window(r.x0, r.y0, r.xn, r.yn), before, after)
    requires m.width == p.width && m.height == p.height && m.cells == CellsOf(before, p.width, p.height)
    ensures L.WroteInside(m, m.(cells := CellsOf(after, p.width, p.height)), r)
  {
    hide RowStart, CostAt, ValidModel, IsInflatedBy;
    var n := m.(cells := CellsOf(after, p.width, p.height));
    forall c | c in m.cells && !Inside(r, c)
      ensures n.cells[c] == m.cells[c]
    {
      InGridSet(p.width, p.height, c);
      assert CellChange(p, model, unknown, around, Window(r.x0, r.y0, r.xn, r.yn), before, c, CostAt(after, p.width, p.height, c));
    }
  }

  // updateCosts keeps what the layered costmap expects of every layer (Behaves): it writes
  // only inside the window it is given.
  method UpdateCosts(layer: InflationLayer, master: Costmap2D, r: Rect)
    requires layer.Valid() && master.Valid() && ValidModel(layer.model)
    modifies layer`inflationCells, layer`seen, master.costmap
    ensures layer.Valid() && master.Valid()
    ensures L.WroteInside(old(master.Value()), master.Value(), r)
  {
    hide RowStart, Stable, Applied, CoversObstacles, ChangesLocally, Obstacles, ValidModel, CellsOf, L.WroteInside;
    ghost var was := master.Value();
    ghost var before := master.costmap[..];
    ghost var labels := layer.UpdateCosts(master, r.x0, r.y0, r.xn, r.yn);
    if layer.enabled && layer.cellInflationRadius > 0 {
      LocalIsInside(layer.PassOver(master.sizeX, master.sizeY), layer.model, layer.inflateUnknown, layer.inflateAroundUnknown, r,
                    before, master.costmap[..], was);
    } else {
      L.WroteNothing(was, r);
    }
  }
}
