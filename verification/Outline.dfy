// The rasterised outline of a closed polygon, and why every column it reaches holds at
// least two of its cells.
module Outline {
  import opened Lattice
  import opened RowMajor
  import opened Raster

  // Vertices in order, with the first one repeated at the end.
  function Vertex(polygon: seq<Cell>, k: nat): Cell
    requires |polygon| > 0 && k <= |polygon|
  {
    if k < |polygon| then polygon[k] else polygon[0]
  }

  // The cells of the first k edges.
  function OutlineUpTo(polygon: seq<Cell>, k: nat): seq<Cell>
    requires |polygon| > 0 && k <= |polygon|
  {
    if k == 0 then [] else OutlineUpTo(polygon, k - 1) + Line(Vertex(polygon, k - 1), Vertex(polygon, k))
  }

  function OutlineOf(polygon: seq<Cell>): seq<Cell>
    requires |polygon| > 0
  {
    OutlineUpTo(polygon, |polygon|)
  }

  // Position of cell i of edge k in the outline.
  function EdgeStart(polygon: seq<Cell>, k: nat): nat
    requires |polygon| > 0 && k <= |polygon|
  {
    |OutlineUpTo(polygon, k)|
  }

  lemma {:induction false} EdgeCell(polygon: seq<Cell>, k: nat, n: nat, i: nat)
    requires |polygon| > 0 && k < n <= |polygon| && i <= Major(Vertex(polygon, k), Vertex(polygon, k + 1))
    ensures EdgeStart(polygon, k) + i < EdgeStart(polygon, k + 1) <= |OutlineUpTo(polygon, n)|
    ensures OutlineUpTo(polygon, n)[EdgeStart(polygon, k) + i] == Line(Vertex(polygon, k), Vertex(polygon, k + 1))[i]
    decreases n
  {
    hide Line, Major, Vertex;
    var edge := Line(Vertex(polygon, n - 1), Vertex(polygon, n));
    assert OutlineUpTo(polygon, n) == OutlineUpTo(polygon, n - 1) + edge;
    if k + 1 < n {
      EdgeCell(polygon, k, n - 1, i);
    } else {
      assert EdgeStart(polygon, k + 1) == EdgeStart(polygon, k) + |edge|;
    }
  }

  lemma {:induction false} EdgeStartMonotone(polygon: seq<Cell>, j: nat, k: nat)
    requires |polygon| > 0 && j <= k <= |polygon|
    ensures EdgeStart(polygon, j) <= EdgeStart(polygon, k)
    decreases k
  {
    if j < k {
      EdgeStartMonotone(polygon, j, k - 1);
    }
  }

  // Every outline cell belongs to an edge.
  lemma {:induction false} CellEdge(polygon: seq<Cell>, n: nat, m: nat) returns (k: nat, i: nat)
    requires |polygon| > 0 && n <= |polygon| && m < |OutlineUpTo(polygon, n)|
    ensures k < n && i <= Major(Vertex(polygon, k), Vertex(polygon, k + 1))
    ensures OutlineUpTo(polygon, n)[m] == Line(Vertex(polygon, k), Vertex(polygon, k + 1))[i]
    decreases n
  {
    hide Line;
    if m < EdgeStart(polygon, n - 1) {
      k, i := CellEdge(polygon, n - 1, m);
    } else {
      k, i := n - 1, m - EdgeStart(polygon, n - 1);
    }
  }

  // ---------- Columns ----------

  // A line passes through every column between its ends.
  lemma {:induction false} ColumnOnLine(a: Cell, b: Cell, x: int, from: nat) returns (i: nat)
    requires from <= Major(a, b) && Between(Line(a, b)[from].x, b.x, x)
    ensures i <= Major(a, b) && Line(a, b)[i].x == x
    decreases Major(a, b) - from
  {
    LineEnds(a, b);
    if Line(a, b)[from].x == x {
      i := from;
    } else {
      LineTouching(a, b, from);
      i := ColumnOnLine(a, b, x, from + 1);
    }
  }

  predicate EdgeCovers(polygon: seq<Cell>, k: nat, x: int)
    requires |polygon| > 0 && k < |polygon|
  {
    Between(Vertex(polygon, k).x, Vertex(polygon, k + 1).x, x)
  }

  // Between vertices on different sides of a column some edge covers it.
  lemma {:induction false} CoveringEdge(polygon: seq<Cell>, from: nat, to: nat, x: int) returns (k: nat)
    requires |polygon| > 0 && from < to <= |polygon|
    requires Between(Vertex(polygon, from).x, Vertex(polygon, to).x, x)
    ensures from <= k < to && EdgeCovers(polygon, k, x)
    decreases (to as int) - (from as int)
  {
    if EdgeCovers(polygon, from, x) {
      k := from;
    } else {
      k := CoveringEdge(polygon, from + 1, to, x);
    }
  }

  // A closed polygon crosses each of its columns by two different edges.
  lemma TwoCoveringEdges(polygon: seq<Cell>, lo: nat, hi: nat, x: int) returns (j: nat, k: nat)
    requires |polygon| >= 2 && lo < |polygon| && hi < |polygon|
    requires polygon[lo].x <= x <= polygon[hi].x
    ensures j < k < |polygon| && EdgeCovers(polygon, j, x) && EdgeCovers(polygon, k, x)
  {
    // a vertex on the other side of the column than the first one
    var v := if polygon[0].x <= x then hi else lo;
    if v == 0 {
      assert polygon[0].x == x;
      j, k := 0, |polygon| - 1;
    } else {
      j := CoveringEdge(polygon, 0, v, x);
      k := CoveringEdge(polygon, v, |polygon|, x);
    }
  }

  // Two entries of column x at different positions.
  ghost predicate TwoInColumn(s: seq<Cell>, x: int) {
    exists i, j :: 0 <= i < j < |s| && s[i].x == x && s[j].x == x
  }

  lemma EdgeColumn(polygon: seq<Cell>, k: nat, x: int) returns (m: nat)
    requires |polygon| > 0 && k < |polygon| && EdgeCovers(polygon, k, x)
    ensures EdgeStart(polygon, k) <= m < EdgeStart(polygon, k + 1) <= |OutlineOf(polygon)|
    ensures OutlineOf(polygon)[m].x == x
  {
    hide Line, OutlineUpTo;
    var a, b := Vertex(polygon, k), Vertex(polygon, k + 1);
    LineEnds(a, b);
    var i := ColumnOnLine(a, b, x, 0);
    EdgeCell(polygon, k, |polygon|, i);
    m := EdgeStart(polygon, k) + i;
  }

  // A column between the extreme vertices holds two outline cells.
  lemma ColumnsHoldTwo(polygon: seq<Cell>, lo: nat, hi: nat, x: int)
    requires |polygon| >= 2 && lo < |polygon| && hi < |polygon|
    requires polygon[lo].x <= x <= polygon[hi].x
    ensures TwoInColumn(OutlineOf(polygon), x)
  {
    hide OutlineOf, EdgeStart, EdgeCovers;
    var j, k := TwoCoveringEdges(polygon, lo, hi, x);
    var m := EdgeColumn(polygon, j, x);
    var n := EdgeColumn(polygon, k, x);
    EdgeStartMonotone(polygon, j + 1, k);
  }

  // An outline cell lies in the box of some edge, so some vertex is as far left, and some
  // as far right.
  lemma ColumnBounds(polygon: seq<Cell>, m: nat) returns (lo: nat, hi: nat)
    requires |polygon| > 0 && m < |OutlineOf(polygon)|
    ensures lo < |polygon| && hi < |polygon|
    ensures polygon[lo].x <= OutlineOf(polygon)[m].x <= polygon[hi].x
  {
    hide Line, OutlineUpTo;
    var k, i := CellEdge(polygon, |polygon|, m);
    var next := if k + 1 < |polygon| then k + 1 else 0;
    LineInBox(Vertex(polygon, k), Vertex(polygon, k + 1), i);
    if polygon[k].x <= polygon[next].x {
      lo, hi := k, next;
    } else {
      lo, hi := next, k;
    }
  }

  // Every column from the leftmost to the rightmost outline cell holds two of them.
  lemma OutlineColumns(polygon: seq<Cell>, m: nat, n: nat, x: int)
    requires |polygon| >= 2 && m < |OutlineOf(polygon)| && n < |OutlineOf(polygon)|
    requires OutlineOf(polygon)[m].x <= x <= OutlineOf(polygon)[n].x
    ensures TwoInColumn(OutlineOf(polygon), x)
  {
    hide OutlineOf;
    var lo, _ := ColumnBounds(polygon, m);
    var _, hi := ColumnBounds(polygon, n);
    ColumnsHoldTwo(polygon, lo, hi, x);
  }

  // In-map vertices have an in-map outline.
  lemma OutlineInMap(polygon: seq<Cell>, m: nat, w: nat, h: nat)
    requires |polygon| > 0 && m < |OutlineOf(polygon)|
    requires forall k :: 0 <= k < |polygon| ==> 0 <= polygon[k].x < w && 0 <= polygon[k].y < h
    ensures 0 <= OutlineOf(polygon)[m].x < w && 0 <= OutlineOf(polygon)[m].y < h
  {
    hide Line, OutlineUpTo;
    var k, i := CellEdge(polygon, |polygon|, m);
    LineInBox(Vertex(polygon, k), Vertex(polygon, k + 1), i);
  }
}
