// Row-major data read as a map from cells to costs, and rectangles copied row by row.
module GridCells {
  import opened Lattice
  import opened RowMajor

  function CostAt(grid: seq<Cost>, w: nat, h: nat, c: Cell): Cost
    requires |grid| == RowStart(w, h) && 0 <= c.x < w && 0 <= c.y < h
  {
    IndexInRange(w, h, c.x, c.y);
    grid[Index(w, c.x, c.y)]
  }

  // The cell at index i.
  function CellAt(w: nat, h: nat, i: nat): (c: Cell)
    requires i < RowStart(w, h)
    ensures 0 <= c.x < w && 0 <= c.y < h && Index(w, c.x, c.y) == i
    decreases h
  {
    if i < RowStart(w, h - 1) then CellAt(w, h - 1, i) else Cell(i - RowStart(w, h - 1), h - 1)
  }

  function Grid(w: nat, h: nat): set<Cell> {
    set x, y | 0 <= x < w && 0 <= y < h :: Cell(x, y)
  }

  lemma InGridSet(w: nat, h: nat, c: Cell)
    ensures c in Grid(w, h) <==> 0 <= c.x < w && 0 <= c.y < h
  {
    assert c == Cell(c.x, c.y);
  }

  function CellsOf(data: seq<Cost>, w: nat, h: nat): map<Cell, Cost>
    requires |data| == RowStart(w, h)
  {
    map c | c in Grid(w, h) :: CostAt(data, w, h, c)
  }

  lemma DistinctIndex(w: nat, c: Cell, d: Cell)
    requires 0 <= c.x < w && 0 <= c.y && 0 <= d.x < w && 0 <= d.y && c != d
    ensures Index(w, c.x, c.y) != Index(w, d.x, d.y)
  {
    if Index(w, c.x, c.y) == Index(w, d.x, d.y) {
      IndexInjective(w, c.x, c.y, d.x, d.y);
      assert false;
    }
  }

  // ---------- Rectangles ----------

  predicate InRect(x: int, y: int, x0: int, y0: int, w: int, h: int) {
    x0 <= x < x0 + w && y0 <= y < y0 + h
  }

  // memcpy of one row.
  function Splice(data: seq<Cost>, at: nat, row: seq<Cost>): (r: seq<Cost>)
    requires at + |row| <= |data|
    ensures |r| == |data|
    ensures forall i :: 0 <= i < |r| ==> r[i] == if at <= i < at + |row| then row[i - at] else data[i]
  {
    data[..at] + row + data[at + |row|..]
  }

  // Rows dy.. of a rectangle of `before` (width dw) hold the rows sy.. of `src` (width sw).
  ghost predicate RegionCopied(src: seq<Cost>, sw: nat, sx: nat, sy: nat,
                               before: seq<Cost>, after: seq<Cost>, dw: nat, dx: nat, dy: nat, rw: nat, rh: nat)
  {
    && |after| == |before|
    && forall x, y :: 0 <= x < dw && 0 <= y && Index(dw, x, y) < |after| ==>
         after[Index(dw, x, y)] == CopiedCost(src, sw, sx, sy, before, dw, dx, dy, rw, rh, x, y)
  }

  function CopiedCost(src: seq<Cost>, sw: nat, sx: nat, sy: nat,
                      before: seq<Cost>, dw: nat, dx: nat, dy: nat, rw: nat, rh: nat, x: nat, y: nat): Cost
    requires Index(dw, x, y) < |before|
  {
    if InRect(x, y, dx, dy, rw, rh) && Index(sw, x - dx + sx, y - dy + sy) < |src|
    then src[Index(sw, x - dx + sx, y - dy + sy)]
    else before[Index(dw, x, y)]
  }

  lemma NothingCopied(src: seq<Cost>, sw: nat, sx: nat, sy: nat, before: seq<Cost>, dw: nat, dx: nat, dy: nat, rw: nat)
    ensures RegionCopied(src, sw, sx, sy, before, before, dw, dx, dy, rw, 0)
  {
  }

  lemma RegionNext(src: seq<Cost>, sw: nat, sx: nat, sy: nat,
                   before: seq<Cost>, now: seq<Cost>, dw: nat, dx: nat, dy: nat, rw: nat, n: nat)
    requires RegionCopied(src, sw, sx, sy, before, now, dw, dx, dy, rw, n)
    requires dx + rw <= dw
    requires Index(sw, sx, sy + n) + rw <= |src| && Index(dw, dx, dy + n) + rw <= |now|
    ensures RegionCopied(src, sw, sx, sy, before,
      Splice(now, Index(dw, dx, dy + n), src[Index(sw, sx, sy + n)..Index(sw, sx, sy + n) + rw]), dw, dx, dy, rw, n + 1)
  {
    hide RowStart, Splice;
    var row := src[Index(sw, sx, sy + n)..Index(sw, sx, sy + n) + rw];
    var after := Splice(now, Index(dw, dx, dy + n), row);
    forall x, y | 0 <= x < dw && 0 <= y && Index(dw, x, y) < |after|
      ensures after[Index(dw, x, y)] == CopiedCost(src, sw, sx, sy, before, dw, dx, dy, rw, n + 1, x, y)
    {
      assert now[Index(dw, x, y)] == CopiedCost(src, sw, sx, sy, before, dw, dx, dy, rw, n, x, y);
      if y < dy + n {
        RowsApart(dw, y, dy + n);
      } else if y > dy + n {
        RowsApart(dw, dy + n, y);
      }
    }
  }

  // n rows of columns [x0, xn) from row y0 on hold value.
  ghost predicate RowsFilled(before: seq<Cost>, after: seq<Cost>, w: nat, x0: nat, xn: nat, y0: nat, n: nat, value: Cost) {
    && |after| == |before|
    && forall x, y :: 0 <= x < w && 0 <= y && Index(w, x, y) < |after| ==>
         after[Index(w, x, y)] == if InRect(x, y, x0, y0, xn - x0, n) then value else before[Index(w, x, y)]
  }

  lemma FillNext(before: seq<Cost>, now: seq<Cost>, w: nat, x0: nat, xn: nat, y0: nat, n: nat, value: Cost)
    requires RowsFilled(before, now, w, x0, xn, y0, n, value)
    requires x0 <= xn <= w && Index(w, x0, y0 + n) + (xn - x0) <= |now|
    ensures RowsFilled(before, Splice(now, Index(w, x0, y0 + n), seq(xn - x0, _ => value)), w, x0, xn, y0, n + 1, value)
  {
    hide RowStart, Splice;
    var after := Splice(now, Index(w, x0, y0 + n), seq(xn - x0, _ => value));
    forall x, y | 0 <= x < w && 0 <= y && Index(w, x, y) < |after|
      ensures after[Index(w, x, y)] == if InRect(x, y, x0, y0, xn - x0, n + 1) then value else before[Index(w, x, y)]
    {
      if y < y0 + n {
        RowsApart(w, y, y0 + n);
      } else if y > y0 + n {
        RowsApart(w, y0 + n, y);
      }
    }
  }

  // Writing one cell updates one key.
  lemma SetCell(data: seq<Cost>, w: nat, h: nat, c: Cell, value: Cost)
    requires |data| == RowStart(w, h) && 0 <= c.x < w && 0 <= c.y < h && Index(w, c.x, c.y) < |data|
    ensures CellsOf(data[Index(w, c.x, c.y) := value], w, h) == CellsOf(data, w, h)[c := value]
  {
    hide RowStart;
    var data' := data[Index(w, c.x, c.y) := value];
    var cells, cells' := CellsOf(data, w, h)[c := value], CellsOf(data', w, h);
    InGridSet(w, h, c);
    assert cells.Keys == cells'.Keys;
    forall d | d in cells'
      ensures cells'[d] == cells[d]
    {
      InGridSet(w, h, d);
      IndexInRange(w, h, d.x, d.y);
      if d != c {
        DistinctIndex(w, c, d);
      }
    }
  }
}
