// Costmap2DPublisher and CostmapSubscriber, method by method, against the protocol.
module CostmapTopics {
  import opened Wrappers
  import opened Lattice
  import opened RowMajor
  import opened GridCells
  import opened GridPatch
  import opened CostmapValue
  import opened Coordinates
  import opened GridKernel
  import P = CostmapProtocol

  function ShapeOf(c: Costmap2D): Geometry
    reads c
  {
    Geometry(c.sizeX, c.sizeY, c.resolution, c.originX, c.originY)
  }

  ghost function GridOf(c: Costmap2D): (g: P.Grid)
    reads c, c.costmap
  {
    P.Grid(ShapeOf(c), c.costmap[..])
  }

  class Costmap2DPublisher {
    const costmap: Costmap2D
    const alwaysSendFullCostmap: bool
    var x0: nat
    var xn: nat
    var y0: nat
    var yn: nat
    // saved_origin_, grid_resolution_, grid_width_ and grid_height_; None until first set
    var saved: Option<Geometry>

    ghost function State(): P.Pub
      reads this, costmap, costmap.costmap
    {
      P.Pub(GridOf(costmap), saved, Box(x0, xn, y0, yn), alwaysSendFullCostmap)
    }

    constructor (c: Costmap2D, always: bool)
      ensures costmap == c && State() == P.Pub(GridOf(c), None, P.Clean(ShapeOf(c)), always)
    {
      costmap, alwaysSendFullCostmap, saved := c, always, None;
      xn, yn := 0, 0;
      x0, y0 := c.sizeX, c.sizeY;
    }

    method UpdateBounds(bx0: nat, bxn: nat, by0: nat, byn: nat)
      modifies this
      ensures State() == old(State()).(dirty := P.Union(old(State().dirty), Box(bx0, bxn, by0, byn)))
    {
      x0 := if bx0 < x0 then bx0 else x0;
      xn := if bxn > xn then bxn else xn;
      y0 := if by0 < y0 then by0 else y0;
      yn := if byn > yn then byn else yn;
    }

    // prepareCostmap; the origin comes from the centre of cell (0, 0), half a cell back.
    method PrepareCostmap() returns (g: P.Grid)
      requires costmap.Valid()
      ensures g == GridOf(costmap) && P.WellFormed(g)
    {
      var resolution := costmap.resolution;
      var wx := MapToWorld(Axis(costmap.originX, resolution, costmap.sizeX), 0);
      var wy := MapToWorld(Axis(costmap.originY, resolution, costmap.sizeY), 0);
      g := P.Grid(Geometry(costmap.sizeX, costmap.sizeY, resolution, wx - resolution / 2.0, wy - resolution / 2.0),
                  costmap.costmap[..]);
    }

    // createCostmapUpdateMsg: the dirty box row by row.
    method CreateCostmapUpdateMsg() returns (p: Patch)
      requires costmap.Valid() && P.BoxFits(Box(x0, xn, y0, yn), ShapeOf(costmap))
      ensures p == Cut(costmap.costmap[..], costmap.sizeX, costmap.sizeY, Box(x0, xn, y0, yn))
    {
      hide Splice, RowStart, RowsFit, Cut, CopyRows;
      ghost var grid, w := costmap.costmap[..], costmap.sizeX;
      ghost var box := Box(x0, xn, y0, yn);
      var sizeX, sizeY := xn - x0, yn - y0;
      CutFits(|grid|, w, costmap.sizeY, box);
      RowsBelow(w, y0, costmap.sizeY);
      var data: seq<Cost> := seq(RowStart(sizeX, sizeY), _ => 0);
      ghost var blank := data;
      var i, y := 0, y0;
      CopyNoRows(grid, w, x0, y0, blank, sizeX, sizeX, yn - y0);
      while y < yn
        invariant y0 <= y <= yn && i == RowStart(sizeX, y - y0)
        invariant RowsFit(|grid|, w, x0, y0, sizeX, y - y0) && RowsFit(|blank|, sizeX, 0, 0, sizeX, y - y0)
        invariant data == CopyRows(grid, w, x0, y0, blank, sizeX, 0, 0, sizeX, y - y0)
      {
        NextRowFits(|grid|, w, x0, y0, sizeX, yn - y0, y - y0);
        NextRowFits(|blank|, sizeX, 0, 0, sizeX, yn - y0, y - y0);
        CopyOneRow(grid, w, x0, y0, blank, sizeX, sizeX, y - y0);
        var rowStart := Index(costmap.sizeX, x0, y);
        assert costmap.costmap[rowStart..rowStart + sizeX] == grid[rowStart..rowStart + sizeX];
        data := Splice(data, i, costmap.costmap[rowStart..rowStart + sizeX]);
        i := i + sizeX;
        y := y + 1;
      }
      p := Patch(x0, y0, sizeX, sizeY, data);
      CutIs(grid, w, costmap.sizeY, box);
    }

    // publishCostmap with both raw topics subscribed; layerEnabled is false only for the
    // publisher of a disabled layer.
    method PublishCostmap(layerEnabled: bool) returns (m: Option<P.Message>)
      requires costmap.Valid() && (layerEnabled ==> P.Publishable(State()))
      modifies this
      ensures !layerEnabled ==> m == None && State() == old(State())
      ensures layerEnabled ==> m == P.Outgoing(old(State())) && State() == P.AfterPublish(old(State()))
    {
      hide RowStart, Cut;
      m := None;
      if !layerEnabled {
        return;
      }
      if alwaysSendFullCostmap || saved != Some(ShapeOf(costmap)) {
        saved := Some(ShapeOf(costmap));
        var g := PrepareCostmap();
        m := Some(P.Full(g));
      } else if x0 < xn {
        var patch := CreateCostmapUpdateMsg();
        m := Some(P.Update(patch));
      }
      xn, yn := 0, 0;
      x0, y0 := costmap.sizeX, costmap.sizeY;
    }
  }

  lemma RowZero(w: nat)
    ensures RowStart(w, 0) == 0
  {
  }

  // The row loop of createCostmapUpdateMsg: start and one iteration.
  lemma CopyNoRows(src: seq<Cost>, sw: nat, sx: nat, sy: nat, dst: seq<Cost>, dw: nat, rw: nat, n: nat)
    requires RowsFit(|src|, sw, sx, sy, rw, n) && RowsFit(|dst|, dw, 0, 0, rw, n)
    ensures RowsFit(|src|, sw, sx, sy, rw, 0) && RowsFit(|dst|, dw, 0, 0, rw, 0) && RowStart(dw, 0) == 0
    ensures CopyRows(src, sw, sx, sy, dst, dw, 0, 0, rw, 0) == dst
  {
    RowsBelow(sw, sy, sy + n);
  }

  lemma CopyOneRow(src: seq<Cost>, sw: nat, sx: nat, sy: nat, dst: seq<Cost>, dw: nat, rw: nat, n: nat)
    requires RowsFit(|src|, sw, sx, sy, rw, n + 1) && RowsFit(|dst|, dw, 0, 0, rw, n + 1)
    ensures RowsFit(|src|, sw, sx, sy, rw, n) && RowsFit(|dst|, dw, 0, 0, rw, n)
    ensures RowStart(dw, n) + rw <= |dst| && Index(sw, sx, sy + n) + rw <= |src| && RowStart(dw, n + 1) == RowStart(dw, n) + dw
    ensures CopyRows(src, sw, sx, sy, dst, dw, 0, 0, rw, n + 1) ==
      Splice(CopyRows(src, sw, sx, sy, dst, dw, 0, 0, rw, n), RowStart(dw, n), src[Index(sw, sx, sy + n)..Index(sw, sx, sy + n) + rw])
  {
    hide Splice;
    RowFits(|src|, sw, sx, sy, rw, n + 1, n);
    RowFits(|dst|, dw, 0, 0, rw, n + 1, n);
  }

  lemma CutIs(data: seq<Cost>, w: nat, h: nat, b: Box)
    requires |data| == RowStart(w, h) && b.x0 <= b.xn <= w && b.y0 <= b.yn <= h
    ensures var sx, sy := b.xn - b.x0, b.yn - b.y0;
      && RowsFit(|data|, w, b.x0, b.y0, sx, sy) && RowsFit(RowStart(sx, sy), sx, 0, 0, sx, sy)
      && Cut(data, w, h, b) ==
         Patch(b.x0, b.y0, sx, sy, CopyRows(data, w, b.x0, b.y0, seq(RowStart(sx, sy), _ => 0), sx, 0, 0, sx, sy))
  {
    hide RowStart, CopyRows;
    CutFits(|data|, w, h, b);
  }

  lemma NextRowFits(size: nat, w: nat, x: nat, y: nat, rw: nat, n: nat, i: nat)
    requires RowsFit(size, w, x, y, rw, n) && i < n
    ensures Index(w, x, y + i) + rw <= size && RowsFit(size, w, x, y, rw, i + 1)
  {
    hide RowStart;
    RowFits(size, w, x, y, rw, n, i);
    if i + 1 < n {
      RowFits(size, w, x, y, rw, n, i + 1);
    }
  }

  class CostmapSubscriber {
    var costmap: Costmap2D?
    var costmapMsg: Option<P.Grid>

    ghost predicate Valid()
      reads this, costmap
    {
      && (costmap != null ==> costmap.Valid())
      && (costmapMsg.Some? ==> costmap != null && P.WellFormed(costmapMsg.value))
    }

    ghost function State(): (s: P.Sub)
      requires Valid()
      reads this, costmap, if costmap == null then {} else {costmap.costmap}
      ensures P.ValidSub(s)
    {
      P.Sub(if costmap == null then None else Some(GridOf(costmap)), costmapMsg)
    }

    constructor ()
      ensures Valid() && State() == P.Sub(None, None)
    {
      costmap, costmapMsg := null, None;
    }

    method ProcessCurrentCostmapMsg()
      requires Valid() && costmapMsg.Some?
      modifies this, costmap, costmap.costmap
      ensures Valid() && State() == P.Settle(old(State())) && costmap == old(costmap)
      ensures costmap.costmap == old(costmap.costmap) || fresh(costmap.costmap)
    {
      var msg := costmapMsg.value;
      var g := msg.geom;
      P.AbsorbReplaces(GridOf(costmap), msg);
      if ShapeOf(costmap) != g {
        costmap.ResizeMap(g.width, g.height, g.resolution, g.originX, g.originY);
      }
      var master := costmap.costmap;
      forall i | 0 <= i < |msg.data| {
        master[i] := msg.data[i];
      }
      assert master[..] == msg.data;
      costmapMsg := None;
    }

    // costmapCallback: the first message is applied at once, later ones are kept.
    method CostmapCallback(msg: P.Grid)
      requires Valid() && P.WellFormed(msg)
      modifies this, costmap, if costmap == null then {} else {costmap.costmap}
      ensures Valid() && State() == P.Receive(old(State()), P.Full(msg))
    {
      if costmap == null {
        var g := msg.geom;
        costmap := new Costmap2D(g.width, g.height, g.resolution, g.originX, g.originY, 0);
        costmapMsg := Some(msg);
        assert costmap.costmap[..] == P.Blank(g).data;
        assert State() == P.Sub(Some(P.Blank(g)), Some(msg));
        ProcessCurrentCostmapMsg();
      } else {
        costmapMsg := Some(msg);
      }
    }

    // costmapUpdateCallback: apply what is pending, then the patch if it fits.
    method CostmapUpdateCallback(p: Patch)
      requires Valid() && P.ValidMessage(P.Update(p))
      modifies this, costmap, if costmap == null then {} else {costmap.costmap}
      ensures Valid() && State() == P.Receive(old(State()), P.Update(p))
    {
      if costmap == null {
        return;
      }
      if costmapMsg.Some? {
        ProcessCurrentCostmapMsg();
      }
      if costmap.sizeX < p.x + p.sizeX || costmap.sizeY < p.y + p.sizeY {
        return;
      }
      LayRows(costmap, p);
    }

    // getCostmap: null stands for the exception "Costmap is not available".
    method GetCostmap() returns (result: Costmap2D?)
      requires Valid()
      modifies this, costmap, if costmap == null then {} else {costmap.costmap}
      ensures Valid() && result == costmap == old(costmap)
      ensures State() == if result == null then old(State()) else P.Settle(old(State()))
      ensures P.View(old(State())) == if result == null then None else Some(GridOf(result))
    {
      if costmap == null {
        return null;
      }
      if costmapMsg.Some? {
        ProcessCurrentCostmapMsg();
      }
      return costmap;
    }
  }

  // The row loop of costmapUpdateCallback.
  method LayRows(costmap: Costmap2D, p: Patch)
    requires costmap.Valid() && Accepts(costmap.sizeX, costmap.sizeY, p) && |p.data| == RowStart(p.sizeX, p.sizeY)
    modifies costmap.costmap
    ensures costmap.costmap[..] == Lay(old(costmap.costmap[..]), costmap.sizeX, costmap.sizeY, p)
  {
    hide Splice, RowStart;
    ghost var before := costmap.costmap[..];
    var w := costmap.sizeX;
    RowsBelow(w, p.y + p.sizeY, costmap.sizeY);
    RowsBelow(w, p.y, costmap.sizeY);
    RowZero(p.sizeX);
    for y := 0 to p.sizeY
      invariant RowsFit(|p.data|, p.sizeX, 0, 0, p.sizeX, y) && RowsFit(|before|, w, p.x, p.y, p.sizeX, y)
      invariant costmap.costmap[..] == CopyRows(p.data, p.sizeX, 0, 0, before, w, p.x, p.y, p.sizeX, y)
    {
      NextRowFits(|p.data|, p.sizeX, 0, 0, p.sizeX, p.sizeY, y);
      NextRowFits(|before|, w, p.x, p.y, p.sizeX, p.sizeY, y);
      var start, from := Index(w, p.x, y + p.y), Index(p.sizeX, 0, y);
      WriteRow(costmap.costmap, start, p.data[from..from + p.sizeX]);
    }
  }

  method WriteRow(a: array<Cost>, at: nat, row: seq<Cost>)
    requires at + |row| <= a.Length
    modifies a
    ensures a[..] == Splice(old(a[..]), at, row)
  {
    forall i | 0 <= i < |row| {
      a[at + i] := row[i];
    }
  }
}
