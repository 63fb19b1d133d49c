// Full grids and rectangular patches as row-major data: cutting a patch out of one grid
// and laying it into another.
module GridPatch {
  import opened Lattice
  import opened RowMajor
  import opened GridCells

  // Columns [x, x + rw) of n rows from row y on exist in data of width w.
  predicate RowsFit(size: nat, w: nat, x: nat, y: nat, rw: nat, n: nat) {
    x + rw <= w && RowStart(w, y + n) <= size
  }

  lemma RowFits(size: nat, w: nat, x: nat, y: nat, rw: nat, n: nat, i: nat)
    requires RowsFit(size, w, x, y, rw, n) && i < n
    ensures Index(w, x, y + i) + rw <= size && RowsFit(size, w, x, y, rw, i)
  {
    RowsApart(w, y + i, y + n);
  }

  // n rows of rw cells copied one after the other.
  function CopyRows(src: seq<Cost>, sw: nat, sx: nat, sy: nat, dst: seq<Cost>, dw: nat, dx: nat, dy: nat, rw: nat, n: nat): (r: seq<Cost>)
    requires RowsFit(|src|, sw, sx, sy, rw, n) && RowsFit(|dst|, dw, dx, dy, rw, n)
    ensures |r| == |dst|
    decreases n
  {
    if n == 0 then dst
    else
      RowFits(|src|, sw, sx, sy, rw, n, n - 1);
      RowFits(|dst|, dw, dx, dy, rw, n, n - 1);
      Splice(CopyRows(src, sw, sx, sy, dst, dw, dx, dy, rw, n - 1),
             Index(dw, dx, dy + n - 1), src[Index(sw, sx, sy + n - 1)..Index(sw, sx, sy + n - 1) + rw])
  }

  lemma {:induction false} CopyRowsRegion(src: seq<Cost>, sw: nat, sx: nat, sy: nat, dst: seq<Cost>, dw: nat, dx: nat, dy: nat, rw: nat, n: nat)
    requires RowsFit(|src|, sw, sx, sy, rw, n) && RowsFit(|dst|, dw, dx, dy, rw, n)
    ensures RegionCopied(src, sw, sx, sy, dst, CopyRows(src, sw, sx, sy, dst, dw, dx, dy, rw, n), dw, dx, dy, rw, n)
    decreases n
  {
    hide RegionCopied, Splice, RowStart;
    if n == 0 {
      NothingCopied(src, sw, sx, sy, dst, dw, dx, dy, rw);
    } else {
      RowFits(|src|, sw, sx, sy, rw, n, n - 1);
      RowFits(|dst|, dw, dx, dy, rw, n, n - 1);
      CopyRowsRegion(src, sw, sx, sy, dst, dw, dx, dy, rw, n - 1);
      RegionNext(src, sw, sx, sy, dst, CopyRows(src, sw, sx, sy, dst, dw, dx, dy, rw, n - 1), dw, dx, dy, rw, n - 1);
    }
  }

  // ---------- Patches ----------

  datatype Box = Box(x0: nat, xn: nat, y0: nat, yn: nat)

  predicate InBox(b: Box, x: int, y: int) {
    b.x0 <= x < b.xn && b.y0 <= y < b.yn
  }

  datatype Patch = Patch(x: nat, y: nat, sizeX: nat, sizeY: nat, data: seq<Cost>)

  // The box b of a w x h grid as a patch.
  function Cut(data: seq<Cost>, w: nat, h: nat, b: Box): (p: Patch)
    requires |data| == RowStart(w, h) && b.x0 <= b.xn <= w && b.y0 <= b.yn <= h
    ensures p.x == b.x0 && p.y == b.y0 && p.x + p.sizeX == b.xn && p.y + p.sizeY == b.yn
    ensures |p.data| == RowStart(p.sizeX, p.sizeY)
  {
    var sx, sy := b.xn - b.x0, b.yn - b.y0;
    RowsBelow(w, b.yn, h);
    Patch(b.x0, b.y0, sx, sy, CopyRows(data, w, b.x0, b.y0, seq(RowStart(sx, sy), _ => 0), sx, 0, 0, sx, sy))
  }

  predicate Accepts(w: nat, h: nat, p: Patch) {
    p.x + p.sizeX <= w && p.y + p.sizeY <= h
  }

  // p laid into a w x h grid.
  function Lay(data: seq<Cost>, w: nat, h: nat, p: Patch): (r: seq<Cost>)
    requires |data| == RowStart(w, h) && Accepts(w, h, p) && |p.data| == RowStart(p.sizeX, p.sizeY)
    ensures |r| == |data|
  {
    RowsBelow(w, p.y + p.sizeY, h);
    CopyRows(p.data, p.sizeX, 0, 0, data, w, p.x, p.y, p.sizeX, p.sizeY)
  }

  // Two grids of one size differ at most inside b.
  ghost predicate SameOutside(a: seq<Cost>, c: seq<Cost>, w: nat, h: nat, b: Box) {
    && |a| == |c| == RowStart(w, h)
    && forall x, y :: 0 <= x < w && 0 <= y < h && !InBox(b, x, y) ==>
         CostAt(a, w, h, Cell(x, y)) == CostAt(c, w, h, Cell(x, y))
  }

  lemma SameEverywhere(a: seq<Cost>, c: seq<Cost>, w: nat, h: nat)
    requires |a| == |c| == RowStart(w, h)
    requires forall x, y :: 0 <= x < w && 0 <= y < h ==> CostAt(a, w, h, Cell(x, y)) == CostAt(c, w, h, Cell(x, y))
    ensures a == c
  {
    hide RowStart;
    forall i | 0 <= i < |a|
      ensures a[i] == c[i]
    {
      var d := CellAt(w, h, i);
      assert CostAt(a, w, h, Cell(d.x, d.y)) == CostAt(c, w, h, Cell(d.x, d.y));
    }
  }

  // Laying a patch cut from `new` into `old` gives the new cell inside, the old outside.
  lemma LayCutAt(prior: seq<Cost>, now: seq<Cost>, w: nat, h: nat, b: Box, x: nat, y: nat)
    requires |prior| == |now| == RowStart(w, h) && b.x0 <= b.xn <= w && b.y0 <= b.yn <= h && x < w && y < h
    ensures CostAt(Lay(prior, w, h, Cut(now, w, h, b)), w, h, Cell(x, y)) ==
      if InBox(b, x, y) then CostAt(now, w, h, Cell(x, y)) else CostAt(prior, w, h, Cell(x, y))
  {
    hide RowStart, CopyRows;
    var p := Cut(now, w, h, b);
    var sx, sy := p.sizeX, p.sizeY;
    RowsBelow(w, b.yn, h);
    IndexInRange(w, h, x, y);
    var blank := seq(RowStart(sx, sy), _ => 0);
    CutFits(|now|, w, h, b);
    CopyRowsRegion(now, w, b.x0, b.y0, blank, sx, 0, 0, sx, sy);
    CopyRowsRegion(p.data, sx, 0, 0, prior, w, b.x0, b.y0, sx, sy);
    if InBox(b, x, y) {
      IndexInRange(sx, sy, x - b.x0, y - b.y0);
      assert p.data[Index(sx, x - b.x0, y - b.y0)] == CopiedCost(now, w, b.x0, b.y0, blank, sx, 0, 0, sx, sy, x - b.x0, y - b.y0);
    }
  }

  lemma CutFits(size: nat, w: nat, h: nat, b: Box)
    requires size == RowStart(w, h) && b.x0 <= b.xn <= w && b.y0 <= b.yn <= h
    ensures RowsFit(size, w, b.x0, b.y0, b.xn - b.x0, b.yn - b.y0)
    ensures RowsFit(RowStart(b.xn - b.x0, b.yn - b.y0), b.xn - b.x0, 0, 0, b.xn - b.x0, b.yn - b.y0)
  {
    RowsBelow(w, b.yn, h);
  }

  // The layout of a patch: rows of the box one after the other.
  lemma CutAt(data: seq<Cost>, w: nat, h: nat, b: Box, x: nat, y: nat)
    requires |data| == RowStart(w, h) && b.x0 <= b.xn <= w && b.y0 <= b.yn <= h && InBox(b, x, y)
    ensures var p := Cut(data, w, h, b);
      && Index(p.sizeX, x - b.x0, y - b.y0) < |p.data|
      && p.data[Index(p.sizeX, x - b.x0, y - b.y0)] == CostAt(data, w, h, Cell(x, y))
  {
    hide RowStart, CopyRows;
    var p := Cut(data, w, h, b);
    var sx, sy := p.sizeX, p.sizeY;
    var blank := seq(RowStart(sx, sy), _ => 0);
    IndexInRange(w, h, x, y);
    IndexInRange(sx, sy, x - b.x0, y - b.y0);
    CutFits(|data|, w, h, b);
    CopyRowsRegion(data, w, b.x0, b.y0, blank, sx, 0, 0, sx, sy);
    assert p.data[Index(sx, x - b.x0, y - b.y0)] == CopiedCost(data, w, b.x0, b.y0, blank, sx, 0, 0, sx, sy, x - b.x0, y - b.y0);
  }

  // The patch brings prior up to now exactly when they agreed outside the box.
  lemma PatchUpdates(prior: seq<Cost>, now: seq<Cost>, w: nat, h: nat, b: Box)
    requires |prior| == |now| == RowStart(w, h) && b.x0 <= b.xn <= w && b.y0 <= b.yn <= h
    ensures Lay(prior, w, h, Cut(now, w, h, b)) == now <==> SameOutside(prior, now, w, h, b)
  {
    hide RowStart, Lay, Cut, CostAt, InBox;
    var laid := Lay(prior, w, h, Cut(now, w, h, b));
    forall x, y | 0 <= x < w && 0 <= y < h
      ensures CostAt(laid, w, h, Cell(x, y)) ==
        if InBox(b, x, y) then CostAt(now, w, h, Cell(x, y)) else CostAt(prior, w, h, Cell(x, y))
    {
      LayCutAt(prior, now, w, h, b, x, y);
    }
    if SameOutside(prior, now, w, h, b) {
      SameEverywhere(laid, now, w, h);
    }
  }
}
