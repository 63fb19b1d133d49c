// convexFillCells and the clear/restore pair: the back-stepping sort, the column sweep
// over a list that grows while it is read, and the regions they produce.
module PolygonFill {
  import opened Wrappers
  import opened Lattice
  import opened RowMajor
  import opened GridCells
  import opened CostmapValue
  import opened Coordinates
  import opened Raster
  import opened Outline
  import opened GridKernel

  datatype MapLocation = MapLocation(cell: Cell, cost: Cost)

  // ---------- The sort ----------

  ghost predicate SortedByX(s: seq<MapLocation>) {
    forall i, j :: 0 <= i < j < |s| ==> s[i].cell.x <= s[j].cell.x
  }

  function Swap(s: seq<MapLocation>, i: nat): (r: seq<MapLocation>)
    requires i + 1 < |s|
    ensures |r| == |s| && r[i] == s[i + 1] && r[i + 1] == s[i]
    ensures forall j :: 0 <= j < |s| && j != i && j != i + 1 ==> r[j] == s[j]
  {
    s[i := s[i + 1]][i + 1 := s[i]]
  }

  // Entries of s in columns left of x.
  function LeftOf(x: int, s: seq<MapLocation>): nat {
    if s == [] then 0 else (if s[0].cell.x < x then 1 else 0) + LeftOf(x, s[1..])
  }

  // Pairs in the wrong order.
  function Inversions(s: seq<MapLocation>): nat {
    if s == [] then 0 else LeftOf(s[0].cell.x, s[1..]) + Inversions(s[1..])
  }

  lemma SwapTail(s: seq<MapLocation>, i: nat)
    requires 0 < i && i + 1 < |s|
    ensures Swap(s, i)[1..] == Swap(s[1..], i - 1) && Swap(s, i)[0] == s[0]
  {
  }

  lemma {:induction false} LeftOfSwap(x: int, s: seq<MapLocation>, i: nat)
    requires i + 1 < |s|
    ensures LeftOf(x, Swap(s, i)) == LeftOf(x, s)
  {
    hide Swap;
    if i == 0 {
      var t := Swap(s, 0);
      assert t[1..][1..] == s[1..][1..];
    } else {
      SwapTail(s, i);
      LeftOfSwap(x, s[1..], i - 1);
    }
  }

  // Exchanging neighbours in the wrong order removes exactly one inversion.
  lemma {:induction false} SwapRemovesInversion(s: seq<MapLocation>, i: nat)
    requires i + 1 < |s| && s[i].cell.x > s[i + 1].cell.x
    ensures Inversions(Swap(s, i)) == Inversions(s) - 1
  {
    hide Swap;
    if i == 0 {
      var t := Swap(s, 0);
      assert t[1..][1..] == s[1..][1..];
    } else {
      SwapTail(s, i);
      LeftOfSwap(s[0].cell.x, s[1..], i - 1);
      SwapRemovesInversion(s[1..], i - 1);
    }
  }

  lemma SwapKeepsMembers(s: seq<MapLocation>, i: nat)
    requires i + 1 < |s|
    ensures multiset(Swap(s, i)) == multiset(s)
  {
  }

  ghost predicate TwoEntries(s: seq<MapLocation>, x: int) {
    exists i, j :: 0 <= i < j < |s| && s[i].cell.x == x && s[j].cell.x == x
  }

  lemma SwapKeepsTwo(s: seq<MapLocation>, i: nat, x: int)
    requires i + 1 < |s| && TwoEntries(s, x)
    ensures TwoEntries(Swap(s, i), x)
  {
    hide Swap;
    var t := Swap(s, i);
    var a, b :| 0 <= a < b < |s| && s[a].cell.x == x && s[b].cell.x == x;
    var a' := if a == i then i + 1 else if a == i + 1 then i else a;
    var b' := if b == i then i + 1 else if b == i + 1 then i else b;
    assert t[a'] == s[a] && t[b'] == s[b];
    if a' < b' {
      assert t[a'].cell.x == x && t[b'].cell.x == x;
    } else {
      assert t[b'].cell.x == x && t[a'].cell.x == x;
    }
  }

  // The "quick bubble sort": after a swap it steps back one position. It ends because a
  // step forward shortens what is left and a step back has removed an inversion.
  method SortByX(list: seq<MapLocation>) returns (cells: seq<MapLocation>)
    requires |list| > 0
    ensures SortedByX(cells) && multiset(cells) == multiset(list)
    ensures forall x :: TwoEntries(list, x) ==> TwoEntries(cells, x)
  {
    hide Swap, TwoEntries;
    cells := list;
    var i := 0;
    while i < |cells| - 1
      invariant 0 <= i < |cells| == |list|
      invariant forall a, b :: 0 <= a < b <= i ==> cells[a].cell.x <= cells[b].cell.x
      invariant multiset(cells) == multiset(list)
      invariant forall x :: TwoEntries(list, x) ==> TwoEntries(cells, x)
      decreases Inversions(cells), |cells| - i
    {
      if cells[i].cell.x > cells[i + 1].cell.x {
        SwapRemovesInversion(cells, i);
        SwapKeepsMembers(cells, i);
        forall x | TwoEntries(list, x)
          ensures TwoEntries(Swap(cells, i), x)
        {
          SwapKeepsTwo(cells, i, x);
        }
        cells := Swap(cells, i);
        if i > 0 {
          i := i - 1;
        }
      } else {
        i := i + 1;
      }
    }
  }

  // ---------- The column sweep ----------

  // c lies between two outline cells of its column (possibly the same one).
  ghost predicate Spanned(o: seq<MapLocation>, c: Cell) {
    exists a, b :: 0 <= a < |o| && 0 <= b < |o| && o[a].cell.x == c.x && o[b].cell.x == c.x
      && o[a].cell.y <= c.y <= o[b].cell.y
  }

  ghost predicate ListedFrom(cells: seq<MapLocation>, n: nat, c: Cell) {
    exists k :: n <= k < |cells| && cells[k].cell == c
  }

  ghost predicate HoldsCost(m: map<Cell, Cost>, l: MapLocation) {
    l.cell in m && l.cost == m[l.cell]
  }

  // The columns left of x have been filled: behind the outline stand exactly their
  // spanned cells, each with its cost.
  ghost predicate SweptTo(o: seq<MapLocation>, m: map<Cell, Cost>, cells: seq<MapLocation>, x: int) {
    && |o| <= |cells| && cells[..|o|] == o
    && (forall k :: |o| <= k < |cells| ==>
          cells[k].cell.x < x && Spanned(o, cells[k].cell) && HoldsCost(m, cells[k]))
    && (forall c: Cell :: c.x < x && Spanned(o, c) ==> ListedFrom(cells, |o|, c))
  }

  // Position i separates the entries left of column x from the others.
  ghost predicate Reached(o: seq<MapLocation>, i: nat, x: int) {
    && i <= |o|
    && (forall a :: 0 <= a < i ==> o[a].cell.x < x)
    && (forall a :: i <= a < |o| ==> o[a].cell.x >= x)
  }

  // With two entries in column x, the entries at i and i + 1 are both in it.
  lemma NextTwo(o: seq<MapLocation>, i: nat, x: int)
    requires SortedByX(o) && Reached(o, i, x) && TwoEntries(o, x)
    ensures i + 1 < |o| && o[i].cell.x == x && o[i + 1].cell.x == x
  {
    var a, b :| 0 <= a < b < |o| && o[a].cell.x == x && o[b].cell.x == x;
    assert i <= a < b;
    assert o[i].cell.x <= o[a].cell.x || i == a;
    assert o[i + 1].cell.x <= o[b].cell.x || i + 1 == b;
  }

  // Lowest and highest entry of column x, reading on while the column lasts. The list may
  // continue behind the outline with cells already filled in; those are left of x.
  method ScanColumn(ghost o: seq<MapLocation>, cells: seq<MapLocation>, start: nat, x: int)
    returns (minPt: MapLocation, maxPt: MapLocation, i: nat, ghost lo: nat, ghost hi: nat)
    requires SortedByX(o) && |o| <= |cells| && cells[..|o|] == o
    requires start + 1 < |o| && o[start].cell.x == x && o[start + 1].cell.x == x
    requires forall k :: |o| <= k < |cells| ==> cells[k].cell.x < x
    ensures Scanned(o, x, start, i, lo, hi) && minPt == o[lo] && maxPt == o[hi]
    ensures minPt.cell.x == x && minPt.cell.y <= maxPt.cell.y
  {
    assert cells[start] == o[start] && cells[start + 1] == o[start + 1];
    if cells[start].cell.y < cells[start + 1].cell.y {
      minPt, maxPt, lo, hi := cells[start], cells[start + 1], start, start + 1;
    } else {
      minPt, maxPt, lo, hi := cells[start + 1], cells[start], start + 1, start;
    }
    i := start + 2;
    while i < |cells| && cells[i].cell.x == x
      invariant start + 2 <= i <= |o|
      invariant start <= lo < i && start <= hi < i && minPt == o[lo] && maxPt == o[hi]
      invariant forall a :: start <= a < i ==> o[a].cell.x == x && minPt.cell.y <= o[a].cell.y <= maxPt.cell.y
      decreases |cells| - i
    {
      assert i < |o| ==> cells[i] == o[i];
      if cells[i].cell.y < minPt.cell.y {
        minPt, lo := cells[i], i;
      } else if cells[i].cell.y > maxPt.cell.y {
        maxPt, hi := cells[i], i;
      }
      i := i + 1;
    }
    if i < |o| {
      assert cells[i] == o[i];
      assert o[i - 1].cell.x <= o[i].cell.x;
    }
  }

  // The cells of column x from y0 to y1 with their costs.
  ghost predicate IsColumn(m: map<Cell, Cost>, s: seq<MapLocation>, x: int, y0: int, y1: int) {
    && |s| == y1 - y0 + 1
    && forall k :: 0 <= k < |s| ==> s[k].cell == Cell(x, y0 + k) && HoldsCost(m, s[k])
  }

  method PushColumn(costmap: Costmap2D, cells: seq<MapLocation>, x: int, y0: int, y1: int)
    returns (result: seq<MapLocation>, ghost column: seq<MapLocation>)
    requires costmap.Valid() && 0 <= x < costmap.sizeX && 0 <= y0 <= y1 < costmap.sizeY
    ensures result == cells + column && IsColumn(costmap.Value().cells, column, x, y0, y1)
  {
    hide CellsOf, RowStart;
    result, column := cells, [];
    var y := y0;
    while y <= y1
      invariant y0 <= y <= y1 + 1
      invariant result == cells + column && |column| == y - y0
      invariant forall k :: 0 <= k < |column| ==> column[k].cell == Cell(x, y0 + k) && HoldsCost(costmap.Value().cells, column[k])
    {
      var pt := MapLocation(Cell(x, y), costmap.GetCost(Cell(x, y)));
      result := result + [pt];
      column := column + [pt];
      y := y + 1;
    }
  }

  // What ScanColumn found: entries start..end are the column x, lo and hi its extremes.
  ghost predicate Scanned(o: seq<MapLocation>, x: int, start: nat, end: nat, lo: nat, hi: nat) {
    && start <= lo < end && start <= hi < end <= |o|
    && (forall a :: start <= a < end ==> o[a].cell.x == x && o[lo].cell.y <= o[a].cell.y <= o[hi].cell.y)
    && (forall a :: end <= a < |o| ==> o[a].cell.x > x)
  }

  lemma SweepNext(o: seq<MapLocation>, m: map<Cell, Cost>, cells: seq<MapLocation>, x: int, column: seq<MapLocation>,
                  cells': seq<MapLocation>, start: nat, end: nat, lo: nat, hi: nat)
    requires SweptTo(o, m, cells, x) && Reached(o, start, x) && Scanned(o, x, start, end, lo, hi)
    requires IsColumn(m, column, x, o[lo].cell.y, o[hi].cell.y) && cells' == cells + column
    ensures SweptTo(o, m, cells', x + 1) && Reached(o, end, x + 1)
  {
    hide Spanned, ListedFrom, HoldsCost, IsColumn;
    SweepEntries(o, m, cells, x, column, cells', start, end, lo, hi);
    SweepLists(o, m, cells, x, column, cells', start, end, lo, hi);
    assert cells'[..|o|] == cells[..|o|];
  }

  lemma SweepEntries(o: seq<MapLocation>, m: map<Cell, Cost>, cells: seq<MapLocation>, x: int, column: seq<MapLocation>,
                     cells': seq<MapLocation>, start: nat, end: nat, lo: nat, hi: nat)
    requires SweptTo(o, m, cells, x) && Scanned(o, x, start, end, lo, hi)
    requires IsColumn(m, column, x, o[lo].cell.y, o[hi].cell.y) && cells' == cells + column
    ensures forall k :: |o| <= k < |cells'| ==>
      cells'[k].cell.x < x + 1 && Spanned(o, cells'[k].cell) && HoldsCost(m, cells'[k])
  {
    hide HoldsCost, Spanned, ListedFrom;
    forall k | |o| <= k < |cells'|
      ensures cells'[k].cell.x < x + 1 && Spanned(o, cells'[k].cell) && HoldsCost(m, cells'[k])
    {
      if k < |cells| {
        assert cells'[k] == cells[k];
      } else {
        assert cells'[k] == column[k - |cells|];
        SpannedBy(o, cells'[k].cell, lo, hi);
      }
    }
  }

  lemma SweepLists(o: seq<MapLocation>, m: map<Cell, Cost>, cells: seq<MapLocation>, x: int, column: seq<MapLocation>,
                   cells': seq<MapLocation>, start: nat, end: nat, lo: nat, hi: nat)
    requires SweptTo(o, m, cells, x) && Reached(o, start, x) && Scanned(o, x, start, end, lo, hi)
    requires IsColumn(m, column, x, o[lo].cell.y, o[hi].cell.y) && cells' == cells + column
    ensures forall c: Cell :: c.x < x + 1 && Spanned(o, c) ==> ListedFrom(cells', |o|, c)
  {
    hide HoldsCost, Spanned, Reached;
    forall c: Cell | c.x < x + 1 && Spanned(o, c)
      ensures ListedFrom(cells', |o|, c)
    {
      if c.x < x {
        var k :| |o| <= k < |cells| && cells[k].cell == c;
        assert cells'[k].cell == c;
      } else {
        ColumnListed(o, m, column, x, start, end, lo, hi, c);
        assert cells'[|cells| + (c.y - o[lo].cell.y)].cell == c;
      }
    }
  }

  lemma SpannedBy(o: seq<MapLocation>, c: Cell, a: nat, b: nat)
    requires a < |o| && b < |o| && o[a].cell.x == c.x == o[b].cell.x && o[a].cell.y <= c.y <= o[b].cell.y
    ensures Spanned(o, c)
  {
  }

  lemma ColumnListed(o: seq<MapLocation>, m: map<Cell, Cost>, column: seq<MapLocation>, x: int,
                     start: nat, end: nat, lo: nat, hi: nat, c: Cell)
    requires Reached(o, start, x) && Scanned(o, x, start, end, lo, hi)
    requires c.x == x && Spanned(o, c) && IsColumn(m, column, x, o[lo].cell.y, o[hi].cell.y)
    ensures 0 <= c.y - o[lo].cell.y < |column| && column[c.y - o[lo].cell.y].cell == c
  {
    hide HoldsCost;
    var a, b :| 0 <= a < |o| && 0 <= b < |o| && o[a].cell.x == c.x && o[b].cell.x == c.x && o[a].cell.y <= c.y <= o[b].cell.y;
    assert start <= a < end && start <= b < end;
    assert c == Cell(c.x, c.y);
  }

  ghost predicate OutlineReady(o: seq<MapLocation>, w: nat, h: nat) {
    && |o| > 0 && SortedByX(o)
    && (forall x :: o[0].cell.x <= x <= o[|o| - 1].cell.x ==> TwoEntries(o, x))
    && (forall k :: 0 <= k < |o| ==> 0 <= o[k].cell.x < w && 0 <= o[k].cell.y < h)
  }

  // The sweep appends to the list it reads. It never leaves a column early, never mixes
  // two columns, and fills exactly the spanned cells.
  method SweepColumns(costmap: Costmap2D, o: seq<MapLocation>) returns (cells: seq<MapLocation>)
    requires costmap.Valid() && OutlineReady(o, costmap.sizeX, costmap.sizeY)
    ensures SweptTo(o, costmap.Value().cells, cells, o[|o| - 1].cell.x + 1)
  {
    hide SweptTo, Reached, TwoEntries, IsColumn, CellsOf, RowStart, SortedByX;
    ghost var m := costmap.Value().cells;
    cells := o;
    var i := 0;
    var minX, maxX := cells[0].cell.x, cells[|cells| - 1].cell.x;
    SweepStart(o, m);
    var x := minX;
    while x <= maxX
      invariant minX <= x <= maxX + 1
      invariant SweptTo(o, m, cells, x) && Reached(o, i, x)
      decreases maxX + 1 - x
    {
      NextTwo(o, i, x);
      SweptShape(o, m, cells, x);
      if i >= |cells| - 1 {
        assert false;
        break;
      }
      var minPt, maxPt, next, lo, hi := ScanColumn(o, cells, i, x);
      var result, column := PushColumn(costmap, cells, x, minPt.cell.y, maxPt.cell.y);
      SweepNext(o, m, cells, x, column, result, i, next, lo, hi);
      cells := result;
      i := next;
      x := x + 1;
    }
  }

  lemma SweepStart(o: seq<MapLocation>, m: map<Cell, Cost>)
    requires |o| > 0 && SortedByX(o)
    ensures SweptTo(o, m, o, o[0].cell.x) && Reached(o, 0, o[0].cell.x)
    ensures o[0].cell.x <= o[|o| - 1].cell.x
  {
    assert o[..|o|] == o;
    assert forall a :: 0 < a < |o| ==> o[0].cell.x <= o[a].cell.x;
  }

  lemma SweptShape(o: seq<MapLocation>, m: map<Cell, Cost>, cells: seq<MapLocation>, x: int)
    requires SweptTo(o, m, cells, x)
    ensures |o| <= |cells| && cells[..|o|] == o
    ensures forall k :: |o| <= k < |cells| ==> cells[k].cell.x < x
  {
    hide Spanned, ListedFrom, HoldsCost;
  }

  // ---------- The outline of a polygon ----------

  // cells lists exactly the given line of cells, with their costs.
  ghost predicate Traces(m: map<Cell, Cost>, cells: seq<MapLocation>, line: seq<Cell>) {
    && |cells| == |line|
    && forall k :: 0 <= k < |cells| ==> cells[k].cell == line[k] && HoldsCost(m, cells[k])
  }

  lemma TracesAppend(m: map<Cell, Cost>, a: seq<MapLocation>, b: seq<MapLocation>, p: seq<Cell>, q: seq<Cell>)
    requires Traces(m, a, p) && Traces(m, b, q)
    ensures Traces(m, a + b, p + q)
  {
    hide HoldsCost;
  }

  ghost predicate InMapAll(costmap: Costmap2D, polygon: seq<Cell>)
    reads costmap
  {
    forall k :: 0 <= k < |polygon| ==> 0 <= polygon[k].x < costmap.sizeX && 0 <= polygon[k].y < costmap.sizeY
  }

  // raytraceLine with the functor that decodes each offset and records cell and cost.
  method GatherLine(costmap: Costmap2D, a: Cell, b: Cell) returns (cells: seq<MapLocation>)
    requires costmap.Valid() && InMapAll(costmap, [a, b])
    ensures Traces(costmap.Value().cells, cells, Line(a, b))
  {
    hide Line, CellsOf, RowStart;
    ghost var line := Line(a, b);
    assert [a, b][0] == a && [a, b][1] == b;
    var visited := RaytraceLine(a, b, costmap.sizeX, Major(a, b));
    cells := [];
    for n := 0 to |visited|
      invariant |cells| == n <= |line|
      invariant forall k :: 0 <= k < n ==> cells[k].cell == line[k] && HoldsCost(costmap.Value().cells, cells[k])
    {
      LineInBox(a, b, n);
      assert IsOffset(costmap.sizeX, line[n], visited[n]);
      IndexToCells(costmap.sizeX, line[n].x, line[n].y);
      var my := visited[n] / costmap.sizeX;
      var mx := visited[n] - my * costmap.sizeX;
      assert Cell(mx, my) == line[n];
      cells := cells + [MapLocation(Cell(mx, my), costmap.GetCost(Cell(mx, my)))];
    }
  }

  // polygonOutlineCells: consecutive vertices, then the closing edge.
  method PolygonOutlineCells(costmap: Costmap2D, polygon: seq<Cell>) returns (cells: seq<MapLocation>)
    requires costmap.Valid() && |polygon| > 0 && InMapAll(costmap, polygon)
    ensures Traces(costmap.Value().cells, cells, OutlineOf(polygon))
  {
    hide Line, CellsOf, RowStart, Traces;
    ghost var m := costmap.Value().cells;
    cells := [];
    TracesNothing(m);
    for i := 0 to |polygon| - 1
      invariant Traces(m, cells, OutlineUpTo(polygon, i))
    {
      var edge := GatherLine(costmap, polygon[i], polygon[i + 1]);
      TracesAppend(m, cells, edge, OutlineUpTo(polygon, i), Line(polygon[i], polygon[i + 1]));
      cells := cells + edge;
    }
    var last := |polygon| - 1;
    var edge := GatherLine(costmap, polygon[last], polygon[0]);
    TracesAppend(m, cells, edge, OutlineUpTo(polygon, last), Line(polygon[last], polygon[0]));
    cells := cells + edge;
  }

  lemma TracesNothing(m: map<Cell, Cost>)
    ensures Traces(m, [], [])
  {
  }

  // ---------- The region of a polygon ----------

  // c is on the outline or between two outline cells of its column.
  ghost predicate Enclosed(outline: seq<Cell>, c: Cell) {
    exists a, b :: 0 <= a < |outline| && 0 <= b < |outline| && outline[a].x == c.x && outline[b].x == c.x
      && outline[a].y <= c.y <= outline[b].y
  }

  // c lies between a and b in their column.
  predicate Between3(a: Cell, c: Cell, b: Cell) {
    a.x == c.x == b.x && a.y <= c.y <= b.y
  }

  // No gap between two cells of one column.
  ghost predicate ColumnConvex(s: iset<Cell>) {
    forall a, c, b :: a in s && b in s && Between3(a, c, b) ==> c in s
  }

  // The enclosed cells hold the outline and have no gaps in their columns ...
  lemma EnclosedHasNoGaps(outline: seq<Cell>, a: Cell, c: Cell, b: Cell)
    ensures a in outline ==> Enclosed(outline, a)
    ensures Enclosed(outline, a) && Enclosed(outline, b) && Between3(a, c, b) ==> Enclosed(outline, c)
  {
    if Enclosed(outline, a) && Enclosed(outline, b) && Between3(a, c, b) {
      var i, j :| 0 <= i < |outline| && 0 <= j < |outline| && outline[i].x == a.x && outline[j].x == a.x
        && outline[i].y <= a.y <= outline[j].y;
      var k, l :| 0 <= k < |outline| && 0 <= l < |outline| && outline[k].x == b.x && outline[l].x == b.x
        && outline[k].y <= b.y <= outline[l].y;
      assert outline[i].x == c.x && outline[l].x == c.x && outline[i].y <= c.y <= outline[l].y;
    }
  }

  // ... and they are the fewest that do.
  lemma EnclosedIsLeast(outline: seq<Cell>, s: iset<Cell>, c: Cell)
    requires ColumnConvex(s) && (forall k :: 0 <= k < |outline| ==> outline[k] in s)
    ensures Enclosed(outline, c) ==> c in s
  {
    if Enclosed(outline, c) {
      var a, b :| 0 <= a < |outline| && 0 <= b < |outline| && outline[a].x == c.x && outline[b].x == c.x
        && outline[a].y <= c.y <= outline[b].y;
      assert Between3(outline[a], c, outline[b]);
    }
  }

  // region lists exactly the enclosed cells (some repeatedly), each with its cost.
  ghost predicate IsRegion(m: map<Cell, Cost>, outline: seq<Cell>, region: seq<MapLocation>) {
    && (forall k :: 0 <= k < |region| ==> Enclosed(outline, region[k].cell) && HoldsCost(m, region[k]))
    && (forall c :: Enclosed(outline, c) ==> ListedFrom(region, 0, c))
  }

  lemma TwoTraced(m: map<Cell, Cost>, cells: seq<MapLocation>, line: seq<Cell>, x: int)
    requires Traces(m, cells, line) && TwoInColumn(line, x)
    ensures TwoEntries(cells, x)
  {
    var i, j :| 0 <= i < j < |line| && line[i].x == x && line[j].x == x;
    assert cells[i].cell.x == x && cells[j].cell.x == x;
  }

  // The sorted outline is what the sweep needs.
  lemma SortedOutlineReady(m: map<Cell, Cost>, polygon: seq<Cell>, cells: seq<MapLocation>, sorted: seq<MapLocation>, w: nat, h: nat)
    requires |polygon| >= 2 && Traces(m, cells, OutlineOf(polygon)) && SortedByX(sorted) && multiset(sorted) == multiset(cells)
    requires forall x :: TwoEntries(cells, x) ==> TwoEntries(sorted, x)
    requires forall k :: 0 <= k < |polygon| ==> 0 <= polygon[k].x < w && 0 <= polygon[k].y < h
    requires |sorted| == |cells| > 0
    ensures OutlineReady(sorted, w, h)
  {
    hide OutlineOf, TwoEntries, TwoInColumn, SortedByX, HoldsCost;
    forall k | 0 <= k < |sorted|
      ensures 0 <= sorted[k].cell.x < w && 0 <= sorted[k].cell.y < h
    {
      var j := MemberAt(sorted, cells, k);
      OutlineInMap(polygon, j, w, h);
    }
    var first := MemberAt(sorted, cells, 0);
    var last := MemberAt(sorted, cells, |sorted| - 1);
    forall x | sorted[0].cell.x <= x <= sorted[|sorted| - 1].cell.x
      ensures TwoEntries(sorted, x)
    {
      OutlineColumns(polygon, first, last, x);
      TwoTraced(m, cells, OutlineOf(polygon), x);
    }
  }

  // Spanning by the sorted list is enclosure by the outline.
  lemma SpannedIsEnclosed(m: map<Cell, Cost>, cells: seq<MapLocation>, sorted: seq<MapLocation>, outline: seq<Cell>, c: Cell)
    requires Traces(m, cells, outline) && multiset(sorted) == multiset(cells)
    ensures Spanned(sorted, c) <==> Enclosed(outline, c)
  {
    hide HoldsCost;
    if Spanned(sorted, c) {
      var a, b :| 0 <= a < |sorted| && 0 <= b < |sorted| && sorted[a].cell.x == c.x && sorted[b].cell.x == c.x
        && sorted[a].cell.y <= c.y <= sorted[b].cell.y;
      var a' := MemberAt(sorted, cells, a);
      var b' := MemberAt(sorted, cells, b);
      assert outline[a'].x == c.x && outline[b'].x == c.x && outline[a'].y <= c.y <= outline[b'].y;
    }
    if Enclosed(outline, c) {
      var a, b :| 0 <= a < |outline| && 0 <= b < |outline| && outline[a].x == c.x && outline[b].x == c.x
        && outline[a].y <= c.y <= outline[b].y;
      var a' := MemberAt(cells, sorted, a);
      var b' := MemberAt(cells, sorted, b);
      SpannedBy(sorted, c, a', b');
    }
  }

  lemma SweptIsRegion(m: map<Cell, Cost>, outline: seq<Cell>, cells: seq<MapLocation>, sorted: seq<MapLocation>, region: seq<MapLocation>)
    requires Traces(m, cells, outline) && multiset(sorted) == multiset(cells) && |sorted| > 0 && SortedByX(sorted)
    requires SweptTo(sorted, m, region, sorted[|sorted| - 1].cell.x + 1)
    ensures IsRegion(m, outline, region)
  {
    hide Spanned, HoldsCost, ListedFrom;
    forall k | 0 <= k < |region|
      ensures Enclosed(outline, region[k].cell) && HoldsCost(m, region[k])
    {
      if k < |sorted| {
        assert region[k] == region[..|sorted|][k] == sorted[k];
        var j := MemberAt(sorted, cells, k);
        SpannedBy(sorted, region[k].cell, k, k);
      }
      SpannedIsEnclosed(m, cells, sorted, outline, region[k].cell);
    }
    forall c | Enclosed(outline, c)
      ensures ListedFrom(region, 0, c)
    {
      SpannedIsEnclosed(m, cells, sorted, outline, c);
      SpannedColumn(sorted, c);
      ListedEarlier(region, |sorted|, c);
    }
  }

  lemma SpannedColumn(o: seq<MapLocation>, c: Cell)
    requires SortedByX(o) && Spanned(o, c)
    ensures |o| > 0 && c.x <= o[|o| - 1].cell.x
  {
    var a :| 0 <= a < |o| && o[a].cell.x == c.x;
    assert a < |o| - 1 ==> o[a].cell.x <= o[|o| - 1].cell.x;
  }

  lemma ListedEarlier(region: seq<MapLocation>, n: nat, c: Cell)
    requires ListedFrom(region, n, c)
    ensures ListedFrom(region, 0, c)
  {
  }

  // convexFillCells: nothing for fewer than 3 vertices, else exactly the enclosed cells.
  method ConvexFillCells(costmap: Costmap2D, polygon: seq<Cell>) returns (region: seq<MapLocation>)
    requires costmap.Valid() && InMapAll(costmap, polygon)
    ensures |polygon| < 3 ==> region == []
    ensures |polygon| >= 3 ==> IsRegion(costmap.Value().cells, OutlineOf(polygon), region)
  {
    hide SweptTo, IsRegion, OutlineOf, CellsOf, RowStart, SortedByX, TwoEntries;
    region := [];
    if |polygon| < 3 {
      return;
    }
    var cells := PolygonOutlineCells(costmap, polygon);
    OutlineNotEmpty(polygon);
    var sorted := SortByX(cells);
    ghost var m := costmap.Value().cells;
    SameLength(sorted, cells);
    SortedOutlineReady(m, polygon, cells, sorted, costmap.sizeX, costmap.sizeY);
    region := SweepColumns(costmap, sorted);
    SweptIsRegion(m, OutlineOf(polygon), cells, sorted, region);
  }

  lemma SameLength(s: seq<MapLocation>, t: seq<MapLocation>)
    requires multiset(s) == multiset(t)
    ensures |s| == |t|
  {
    assert |multiset(s)| == |s| && |multiset(t)| == |t|;
  }

  lemma OutlineNotEmpty(polygon: seq<Cell>)
    requires |polygon| > 0
    ensures |OutlineOf(polygon)| > 0
  {
  }
}
