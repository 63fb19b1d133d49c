// Costmap2D: the grid kernel on a row-major array of costs.
module GridKernel {
  import opened Lattice
  import opened RowMajor
  import opened GridCells
  import opened CostmapValue

  method SetRange(a: array<Cost>, from: nat, len: nat, value: Cost)
    requires from + len <= a.Length
    modifies a
    ensures a[..] == Splice(old(a[..]), from, seq(len, _ => value))
  {
    forall i | from <= i < from + len {
      a[i] := value;
    }
  }

  method CopyRow(src: array<Cost>, s: nat, dst: array<Cost>, d: nat, len: nat)
    requires src != dst && s + len <= src.Length && d + len <= dst.Length
    modifies dst
    ensures dst[..] == Splice(old(dst[..]), d, src[s..s + len])
  {
    forall i | 0 <= i < len {
      dst[d + i] := src[s + i];
    }
  }

  // copyMapRegion: rh rows of rw cells.
  method CopyMapRegion(src: array<Cost>, sx: nat, sy: nat, sw: nat,
                       dst: array<Cost>, dx: nat, dy: nat, dw: nat, rw: nat, rh: nat)
    requires src != dst && dx + rw <= dw && sx + rw <= sw
    requires RowStart(sw, sy + rh) <= src.Length && RowStart(dw, dy + rh) <= dst.Length
    modifies dst
    ensures RegionCopied(src[..], sw, sx, sy, old(dst[..]), dst[..], dw, dx, dy, rw, rh)
  {
    hide RegionCopied, Splice;
    ghost var before := dst[..];
    NothingCopied(src[..], sw, sx, sy, before, dw, dx, dy, rw);
    var smIndex, dmIndex := Index(sw, sx, sy), Index(dw, dx, dy);
    for i := 0 to rh
      invariant smIndex == Index(sw, sx, sy + i) && dmIndex == Index(dw, dx, dy + i)
      invariant RegionCopied(src[..], sw, sx, sy, before, dst[..], dw, dx, dy, rw, i)
    {
      RowsApart(sw, sy + i, sy + rh);
      RowsApart(dw, dy + i, dy + rh);
      RegionNext(src[..], sw, sx, sy, before, dst[..], dw, dx, dy, rw, i);
      assert src[smIndex..smIndex + rw] == src[..][smIndex..smIndex + rw];
      CopyRow(src, smIndex, dst, dmIndex, rw);
      smIndex := smIndex + sw;
      dmIndex := dmIndex + dw;
    }
  }

  lemma NothingFilled(before: seq<Cost>, w: nat, x0: nat, xn: nat, y0: nat, value: Cost)
    ensures RowsFilled(before, before, w, x0, xn, y0, 0, value)
  {
  }

  // With zero width no index lies in any row.
  lemma EmptyRows(before: seq<Cost>, after: seq<Cost>, w: nat, x0: nat, xn: nat, y0: nat, n: nat, n': nat, value: Cost)
    requires w == 0 && RowsFilled(before, after, w, x0, xn, y0, n, value)
    ensures RowsFilled(before, after, w, x0, xn, y0, n', value)
  {
  }

  lemma BlankCells(data: seq<Cost>, w: nat, h: nat, value: Cost)
    requires |data| == RowStart(w, h) && forall i :: 0 <= i < |data| ==> data[i] == value
    ensures CellsOf(data, w, h) == map x, y | 0 <= x < w && 0 <= y < h :: Cell(x, y) := value
  {
    hide RowStart;
    var blank := map x, y | 0 <= x < w && 0 <= y < h :: Cell(x, y) := value;
    forall c
      ensures c in CellsOf(data, w, h) <==> c in blank
      ensures c in CellsOf(data, w, h) ==> CellsOf(data, w, h)[c] == value
    {
      InGridSet(w, h, c);
      assert c == Cell(c.x, c.y);
      if c in CellsOf(data, w, h) {
        IndexInRange(w, h, c.x, c.y);
      }
    }
    assert CellsOf(data, w, h).Keys == blank.Keys;
  }

  function Clamp(n: int, size: nat): nat {
    if n < 0 then 0 else if n > size then size else n
  }

  // One axis of updateOrigin: the overlap [low, low + len) of the old window lands at start.
  lemma Overlap(size: nat, shift: int, x: int)
    requires 0 <= x < size
    ensures var low, len := Clamp(shift, size), Clamp(shift + size, size) - Clamp(shift, size);
      && len >= 0
      && (len > 0 ==> 0 <= low - shift && low - shift + len <= size)
      && (low - shift <= x < low - shift + len <==> 0 <= x + shift < size)
  {
  }

  // Data shifted by d: overlap kept, the rest at the default.
  ghost predicate ShiftedData(before: seq<Cost>, after: seq<Cost>, w: nat, h: nat, d: Cell, def: Cost) {
    && |before| == |after| == RowStart(w, h)
    && forall x, y :: 0 <= x < w && 0 <= y < h ==>
         CostAt(after, w, h, Cell(x, y)) ==
         ShiftedCost(before, w, h, d, def, x, y)
  }

  function ShiftedCost(before: seq<Cost>, w: nat, h: nat, d: Cell, def: Cost, x: int, y: int): Cost
    requires |before| == RowStart(w, h)
  {
    if 0 <= x + d.x < w && 0 <= y + d.y < h then CostAt(before, w, h, Cell(x + d.x, y + d.y)) else def
  }

  lemma ShiftedValue(before: seq<Cost>, after: seq<Cost>, m: Costmap, d: Cell)
    requires ShiftedData(before, after, m.width, m.height, d, m.defaultValue)
    requires m.cells == CellsOf(before, m.width, m.height)
    ensures CellsOf(after, m.width, m.height) == Shift(m, d).cells
  {
    hide RowStart, CostAt;
    var after', shifted := CellsOf(after, m.width, m.height), Shift(m, d).cells;
    assert after'.Keys == shifted.Keys;
    forall c | c in after'
      ensures after'[c] == shifted[c]
    {
      InGridSet(m.width, m.height, c);
      InGridSet(m.width, m.height, Plus(c, d));
      assert c == Cell(c.x, c.y);
    }
  }

  // Copying the overlap out and back into a cleared map shifts the data.
  lemma CopyOutAndBack(before: seq<Cost>, blank: seq<Cost>, saved: seq<Cost>, cleared: seq<Cost>, after: seq<Cost>,
                       w: nat, h: nat, d: Cell, def: Cost, lx: nat, ly: nat, cw: nat, ch: nat)
    requires lx == Clamp(d.x, w) && ly == Clamp(d.y, h)
    requires lx + cw == Clamp(d.x + w, w) && ly + ch == Clamp(d.y + h, h)
    requires |before| == RowStart(w, h) == |cleared| && |saved| == RowStart(cw, ch)
    requires cw > 0 && ch > 0 ==> 0 <= lx - d.x && 0 <= ly - d.y
    requires forall i :: 0 <= i < |cleared| ==> cleared[i] == def
    requires RegionCopied(before, w, lx, ly, blank, saved, cw, 0, 0, cw, ch)
    requires cw > 0 && ch > 0 ==> RegionCopied(saved, cw, 0, 0, cleared, after, w, lx - d.x, ly - d.y, cw, ch)
    requires cw == 0 || ch == 0 ==> after == cleared
    ensures ShiftedData(before, after, w, h, d, def)
  {
    hide RowStart, Clamp;
    assert |after| == |cleared|;
    forall x, y | 0 <= x < w && 0 <= y < h
      ensures CostAt(after, w, h, Cell(x, y)) == ShiftedCost(before, w, h, d, def, x, y)
    {
      IndexInRange(w, h, x, y);
      Overlap(w, d.x, x);
      Overlap(h, d.y, y);
      if 0 <= x + d.x < w && 0 <= y + d.y < h {
        var u, v := x - (lx - d.x), y - (ly - d.y);
        IndexInRange(cw, ch, u, v);
        IndexInRange(w, h, x + d.x, y + d.y);
        assert saved[Index(cw, u, v)] == CopiedCost(before, w, lx, ly, blank, cw, 0, 0, cw, ch, u, v);
      }
    }
  }

  class Costmap2D {
    var sizeX: nat
    var sizeY: nat
    var resolution: real
    var originX: real
    var originY: real
    var costmap: array<Cost>
    var defaultValue: Cost

    ghost predicate Valid()
      reads this
    {
      costmap.Length == RowStart(sizeX, sizeY) && resolution > 0.0
    }

    ghost function Value(): (m: Costmap)
      requires Valid()
      reads this, costmap
    {
      Costmap(sizeX, sizeY, resolution, originX, originY, defaultValue, CellsOf(costmap[..], sizeX, sizeY))
    }

    constructor (cellsX: nat, cellsY: nat, res: real, ox: real, oy: real, value: Cost)
      requires res > 0.0
      ensures Valid() && fresh(costmap)
      ensures sizeX == cellsX && sizeY == cellsY && resolution == res && originX == ox && originY == oy
      ensures defaultValue == value && forall i :: 0 <= i < costmap.Length ==> costmap[i] == value
    {
      sizeX, sizeY, resolution, originX, originY, defaultValue := cellsX, cellsY, res, ox, oy, value;
      costmap := new Cost[RowStart(cellsX, cellsY)](_ => value);
    }

    // resizeMap: a new geometry, every cell at the default.
    method ResizeMap(cellsX: nat, cellsY: nat, res: real, ox: real, oy: real)
      requires Valid() && res > 0.0
      modifies this
      ensures Valid() && fresh(costmap) && defaultValue == old(defaultValue)
      ensures Value() == Resized(old(Value()), Geometry(cellsX, cellsY, res, ox, oy))
      ensures sizeX == cellsX && sizeY == cellsY && resolution == res && originX == ox && originY == oy
      ensures forall i :: 0 <= i < costmap.Length ==> costmap[i] == defaultValue
    {
      resolution, originX, originY, sizeX, sizeY := res, ox, oy, cellsX, cellsY;
      var value := defaultValue;
      costmap := new Cost[RowStart(cellsX, cellsY)](_ => value);
      BlankCells(costmap[..], cellsX, cellsY, value);
    }

    method ResetMaps()
      requires Valid()
      modifies costmap
      ensures forall i :: 0 <= i < costmap.Length ==> costmap[i] == defaultValue
    {
      forall i | 0 <= i < costmap.Length {
        costmap[i] := defaultValue;
      }
    }

    // resetMapToValue: row starts advance by the width.
    method ResetMapToValue(x0: nat, y0: nat, xn: nat, yn: nat, value: Cost)
      requires Valid() && x0 <= xn <= sizeX && y0 <= yn <= sizeY
      modifies costmap
      ensures Value() == Filled(old(Value()), Rect(x0, y0, xn, yn), value)
    {
      hide RowsFilled, Splice, CellsOf;
      ghost var before, was := costmap[..], Value();
      assert RowsFilled(before, before, sizeX, x0, xn, y0, 0, value) by { NothingFilled(before, sizeX, x0, xn, y0, value); }
      var len := xn - x0;
      ghost var row := y0;
      var y := Index(sizeX, x0, y0);
      while y < Index(sizeX, x0, yn)
        invariant y0 <= row <= yn && y == Index(sizeX, x0, row)
        invariant RowsFilled(before, costmap[..], sizeX, x0, xn, y0, row - y0, value)
        decreases yn - row
      {
        RowsApart(sizeX, row, sizeY);
        FillNext(before, costmap[..], sizeX, x0, xn, y0, row - y0, value);
        SetRange(costmap, y, len, value);
        y := y + sizeX;
        row := row + 1;
      }
      if row < yn {
        RowsApart(sizeX, row, yn);
        EmptyRows(before, costmap[..], sizeX, x0, xn, y0, row - y0, yn - y0, value);
      }
      FilledValue(before, costmap[..], was, Rect(x0, y0, xn, yn), value);
    }

    // copyWindow: refuses windows that do not fit either map, changing nothing.
    method CopyWindow(source: Costmap2D, sx0: nat, sy0: nat, sxn: nat, syn: nat, dx0: nat, dy0: nat) returns (ok: bool)
      requires Valid() && source.Valid() && costmap != source.costmap && sx0 <= sxn && sy0 <= syn
      modifies costmap
      ensures ok <==> CopyFits(old(Value()), source.Value(), Rect(sx0, sy0, sxn, syn), dx0, dy0)
      ensures Value() == if ok then Copied(old(Value()), source.Value(), Rect(sx0, sy0, sxn, syn), dx0, dy0) else old(Value())
    {
      hide RegionCopied, CellsOf, RowStart;
      var szX, szY := sxn - sx0, syn - sy0;
      if sxn > source.sizeX || syn > source.sizeY {
        return false;
      }
      if dx0 + szX > sizeX || dy0 + szY > sizeY {
        return false;
      }
      ghost var before, was := costmap[..], Value();
      RowsBelow(source.sizeX, syn, source.sizeY);
      RowsBelow(sizeX, dy0 + szY, sizeY);
      CopyMapRegion(source.costmap, sx0, sy0, source.sizeX, costmap, dx0, dy0, sizeX, szX, szY);
      CopiedValue(source.Value(), source.costmap[..], before, costmap[..], was, Rect(sx0, sy0, sxn, syn), dx0, dy0);
      return true;
    }

    function GetCost(c: Cell): (cost: Cost)
      requires Valid() && 0 <= c.x < sizeX && 0 <= c.y < sizeY
      reads this, costmap
      ensures c in Value().cells && cost == Value().cells[c]
    {
      InGridSet(sizeX, sizeY, c);
      IndexInRange(sizeX, sizeY, c.x, c.y);
      costmap[Index(sizeX, c.x, c.y)]
    }

    method SetCost(c: Cell, cost: Cost)
      requires Valid() && 0 <= c.x < sizeX && 0 <= c.y < sizeY
      modifies costmap
      ensures Value() == old(Value()).(cells := old(Value()).cells[c := cost])
    {
      hide CellsOf, RowStart;
      IndexInRange(sizeX, sizeY, c.x, c.y);
      ghost var before := costmap[..];
      costmap[Index(sizeX, c.x, c.y)] := cost;
      assert costmap[..] == before[Index(sizeX, c.x, c.y) := cost];
      SetCell(before, sizeX, sizeY, c, cost);
    }

    // updateOrigin: the window moves by whole cells towards (newX, newY).
    method UpdateOrigin(newX: real, newY: real)
      requires Valid()
      modifies this`originX, this`originY, costmap
      ensures Valid()
      ensures Value() == MovedTo(old(Value()), Move(newX, newY))
    {
      hide RegionCopied, ShiftedData, Truncate, RowStart, CellsOf, Metres;
      ghost var before, was := costmap[..], Value();
      var cellOx := CellShift(originX, newX, resolution);
      var cellOy := CellShift(originY, newY, resolution);
      var newGridOx := originX + Metres(cellOx, resolution);
      var newGridOy := originY + Metres(cellOy, resolution);

      var lowerLeftX, lowerLeftY := Clamp(cellOx, sizeX), Clamp(cellOy, sizeY);
      var upperRightX, upperRightY := Clamp(cellOx + sizeX, sizeX), Clamp(cellOy + sizeY, sizeY);
      var cellSizeX, cellSizeY := upperRightX - lowerLeftX, upperRightY - lowerLeftY;
      var localMap := new Cost[RowStart(cellSizeX, cellSizeY)];
      ghost var blank := localMap[..];

      RowsBelow(sizeX, upperRightY, sizeY);
      CopyMapRegion(costmap, lowerLeftX, lowerLeftY, sizeX, localMap, 0, 0, cellSizeX, cellSizeX, cellSizeY);
      ghost var saved := localMap[..];
      ResetMaps();
      ghost var cleared := costmap[..];
      originX, originY := newGridOx, newGridOy;

      var startX, startY := lowerLeftX - cellOx, lowerLeftY - cellOy;
      // an empty overlap has nothing to copy back
      if cellSizeX > 0 && cellSizeY > 0 {
        RowsBelow(sizeX, startY + cellSizeY, sizeY);
        CopyMapRegion(localMap, 0, 0, cellSizeX, costmap, startX, startY, sizeX, cellSizeX, cellSizeY);
      }
      ghost var d := Cell(cellOx, cellOy);
      CopyOutAndBack(before, blank, saved, cleared, costmap[..], sizeX, sizeY, d, defaultValue,
                     lowerLeftX, lowerLeftY, cellSizeX, cellSizeY);
      ShiftedValue(before, costmap[..], was, d);
    }
  }

  lemma FilledValue(before: seq<Cost>, after: seq<Cost>, m: Costmap, r: Rect, value: Cost)
    requires |before| == RowStart(m.width, m.height) && m.cells == CellsOf(before, m.width, m.height) && Fits(m, r)
    requires RowsFilled(before, after, m.width, r.x0, r.xn, r.y0, r.yn - r.y0, value)
    ensures CellsOf(after, m.width, m.height) == Filled(m, r, value).cells
  {
    hide RowStart;
    var cells, filled := CellsOf(after, m.width, m.height), Filled(m, r, value).cells;
    assert cells.Keys == filled.Keys;
    forall c | c in cells
      ensures cells[c] == filled[c]
    {
      InGridSet(m.width, m.height, c);
      IndexInRange(m.width, m.height, c.x, c.y);
    }
  }

  lemma CellsOfAt(data: seq<Cost>, w: nat, h: nat, c: Cell)
    requires |data| == RowStart(w, h)
    ensures c in CellsOf(data, w, h) <==> 0 <= c.x < w && 0 <= c.y < h
    ensures c in CellsOf(data, w, h) ==>
      Index(w, c.x, c.y) < |data| && CellsOf(data, w, h)[c] == data[Index(w, c.x, c.y)]
  {
    InGridSet(w, h, c);
    if c in Grid(w, h) {
      IndexInRange(w, h, c.x, c.y);
    }
  }

  lemma CopiedAt(src: Costmap, srcData: seq<Cost>, before: seq<Cost>, after: seq<Cost>, m: Costmap, r: Rect, dx: nat, dy: nat, c: Cell)
    requires |before| == RowStart(m.width, m.height) && m.cells == CellsOf(before, m.width, m.height)
    requires |srcData| == RowStart(src.width, src.height) && src.cells == CellsOf(srcData, src.width, src.height)
    requires Fits(src, r) && CopyFits(m, src, r, dx, dy) && c in m.cells
    requires RegionCopied(srcData, src.width, r.x0, r.y0, before, after, m.width, dx, dy, r.xn - r.x0, r.yn - r.y0)
    ensures c in CellsOf(after, m.width, m.height)
    ensures CellsOf(after, m.width, m.height)[c] == Copied(m, src, r, dx, dy).cells[c]
  {
    hide RowStart, CellsOf;
    CellsOfAt(before, m.width, m.height, c);
    CellsOfAt(after, m.width, m.height, c);
    CellsOfAt(srcData, src.width, src.height, Cell(c.x - dx + r.x0, c.y - dy + r.y0));
    assert after[Index(m.width, c.x, c.y)] ==
      CopiedCost(srcData, src.width, r.x0, r.y0, before, m.width, dx, dy, r.xn - r.x0, r.yn - r.y0, c.x, c.y);
  }

  lemma CopiedValue(src: Costmap, srcData: seq<Cost>, before: seq<Cost>, after: seq<Cost>, m: Costmap, r: Rect, dx: nat, dy: nat)
    requires |before| == RowStart(m.width, m.height) && m.cells == CellsOf(before, m.width, m.height)
    requires |srcData| == RowStart(src.width, src.height) && src.cells == CellsOf(srcData, src.width, src.height)
    requires Fits(src, r) && CopyFits(m, src, r, dx, dy)
    requires RegionCopied(srcData, src.width, r.x0, r.y0, before, after, m.width, dx, dy, r.xn - r.x0, r.yn - r.y0)
    ensures CellsOf(after, m.width, m.height) == Copied(m, src, r, dx, dy).cells
  {
    hide RowStart, CopiedCost, CostAt;
    var cells, copied := CellsOf(after, m.width, m.height), Copied(m, src, r, dx, dy).cells;
    assert cells.Keys == m.cells.Keys == copied.Keys;
    forall c | c in copied
      ensures cells[c] == copied[c]
    {
      CopiedAt(src, srcData, before, after, m, r, dx, dy, c);
    }
  }
}
