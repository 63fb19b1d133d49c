// Cells of a costmap as points of the integer lattice: squared distance,
// 4-neighbourhood, the steps towards a source, and the square argument that the
// inflation wavefront rests on.
module Lattice {

  datatype Cell = Cell(x: int, y: int)

  function Abs(n: int): nat {
    if n < 0 then -n else n
  }

  // n * n as a sum of odd numbers (SquareIsProduct), which keeps the proofs about
  // distances linear.
  function Square(n: nat): nat {
    if n == 0 then 0 else Square(n - 1) + 2 * n - 1
  }

  function Norm2(p: Cell): nat {
    Square(Abs(p.x)) + Square(Abs(p.y))
  }

  function Offset(c: Cell, s: Cell): Cell {
    Cell(c.x - s.x, c.y - s.y)
  }

  // Squared Euclidean distance. The original compares hypot values; on cells
  // the order of hypot values is the order of these integers.
  function Dist2(c: Cell, s: Cell): nat {
    Norm2(Offset(c, s))
  }

  function Manhattan(c: Cell, s: Cell): nat {
    Abs(c.x - s.x) + Abs(c.y - s.y)
  }

  predicate Adjacent(a: Cell, b: Cell) {
    Manhattan(a, b) == 1
  }

  function Toward(from: int, to: int): int {
    if from < to then from + 1 else if from > to then from - 1 else from
  }

  // The 4-neighbour of c one column nearer to s (c itself in the column of s).
  function StepX(c: Cell, s: Cell): Cell {
    Cell(Toward(c.x, s.x), c.y)
  }

  // The 4-neighbour of c one row nearer to s (c itself in the row of s).
  function StepY(c: Cell, s: Cell): Cell {
    Cell(c.x, Toward(c.y, s.y))
  }

  lemma {:induction false} SquareIsProduct(n: nat)
    ensures Square(n) == n * n
  {
    if n > 0 {
      SquareIsProduct(n - 1);
    }
  }

  lemma {:induction false} SquareMonotone(m: nat, n: nat)
    requires m <= n
    ensures Square(m) <= Square(n)
    ensures m < n ==> Square(m) < Square(n)
    decreases n
  {
    if m < n {
      SquareMonotone(m, n - 1);
    }
  }

  lemma ZeroNorm(p: Cell)
    ensures Norm2(p) == 0 <==> p == Cell(0, 0)
  {
    SquareMonotone(0, Abs(p.x));
    SquareMonotone(0, Abs(p.y));
  }

  // A coordinate difference is at most the distance.
  lemma OffsetWithin(p: Cell, r: nat)
    requires Norm2(p) <= Square(r)
    ensures Abs(p.x) <= r && Abs(p.y) <= r
  {
    if Abs(p.x) > r { SquareMonotone(r, Abs(p.x)); }
    if Abs(p.y) > r { SquareMonotone(r, Abs(p.y)); }
  }

  // A 4-neighbour of a cell in the disc of radius r lies in the disc of radius r + 1.
  lemma NeighbourWithin(c: Cell, n: Cell, s: Cell, r: nat)
    requires Adjacent(c, n) && Dist2(c, s) <= Square(r)
    ensures Dist2(n, s) <= Square(r + 1)
  {
    OffsetWithin(Offset(c, s), r);
    if c.x != n.x {
      SquareStep(c.x - s.x, n.x - s.x);
    } else {
      SquareStep(c.y - s.y, n.y - s.y);
    }
  }

  lemma SquareStep(m: int, n: int)
    requires Abs(m - n) == 1
    ensures Square(Abs(n)) <= Square(Abs(m)) + 2 * Abs(m) + 1
  {
  }

  // A step towards s is a 4-neighbour, strictly nearer; every other 4-neighbour is
  // strictly farther. Two neighbours are never at the same distance.
  lemma NeighbourDistance(c: Cell, n: Cell, s: Cell)
    requires Adjacent(c, n)
    ensures n == StepX(c, s) || n == StepY(c, s) ==> Dist2(n, s) < Dist2(c, s)
    ensures n != StepX(c, s) && n != StepY(c, s) ==> Dist2(n, s) > Dist2(c, s)
  {
  }

  lemma StepAdjacent(c: Cell, s: Cell)
    ensures StepX(c, s) != c ==> Adjacent(c, StepX(c, s)) && Adjacent(StepX(c, s), c)
    ensures StepY(c, s) != c ==> Adjacent(c, StepY(c, s)) && Adjacent(StepY(c, s), c)
  {
  }

  // The square argument in the quadrant of s: a corner Q = (c, d) whose label t is
  // at least as near as s, next to N = (c+1, d) and P = (c, d+1).
  lemma CornerAlgebra(c: int, d: int, u: int, v: int)
    requires 0 <= c && 0 <= d
    requires (c - u) * (c - u) + (d - v) * (d - v) <= c * c + d * d
    requires (c - u) * (c - u) + 2 * (c - u) + (d - v) * (d - v) > c * c + 2 * c + d * d
    ensures (c - u) * (c - u) + (d - v) * (d - v) + 2 * (d - v) < c * c + d * d + 2 * d
  {
    assert (c - u) * (c - u) == c * c - 2 * (c * u) + u * u;
    assert (d - v) * (d - v) == d * d - 2 * (d * v) + v * v;
    assert u < 0;
    assert c * u <= 0;
    assert u * u > 0;
    assert v * v >= 0;
    assert d * v > 0;
    assert v > 0;
  }

  lemma SquareOf(n: int)
    ensures Square(Abs(n)) == n * n
  {
    SquareIsProduct(Abs(n));
  }

  lemma SquareNext(n: int)
    ensures (n + 1) * (n + 1) == n * n + 2 * n + 1
  {
  }

  // CornerAlgebra in terms of Square.
  lemma CornerSquares(c: int, d: int, u: int, v: int)
    requires 0 <= c && 0 <= d
    requires Square(Abs(c - u)) + Square(Abs(d - v)) <= Square(c) + Square(d)
    ensures Square(Abs(c + 1 - u)) + Square(Abs(d - v)) <= Square(c + 1) + Square(d)
         || Square(Abs(c - u)) + Square(Abs(d + 1 - v)) < Square(c) + Square(d + 1)
  {
    SquareOf(c - u);
    SquareOf(d - v);
    SquareOf(c);
    SquareOf(d);
    SquareOf(c - u + 1);
    SquareNext(c - u);
    SquareOf(d - v + 1);
    SquareNext(d - v);
    SquareOf(c + 1);
    SquareNext(c);
    SquareOf(d + 1);
    SquareNext(d);
    assert c + 1 - u == c - u + 1 && d + 1 - v == d - v + 1;
    if Square(Abs(c + 1 - u)) + Square(Abs(d - v)) > Square(c + 1) + Square(d) {
      CornerAlgebra(c, d, u, v);
    }
  }

  lemma CornerNorms(c: nat, d: nat, u: int, v: int)
    requires Norm2(Cell(c - u, d - v)) <= Norm2(Cell(c - 0, d - 0))
    ensures Norm2(Cell(c + 1 - u, d - v)) <= Norm2(Cell(c + 1 - 0, d - 0)) || Norm2(Cell(c - u, d + 1 - v)) < Norm2(Cell(c - 0, d + 1 - 0))
    ensures Norm2(Cell(c - u, d + 1 - v)) <= Norm2(Cell(c - 0, d + 1 - 0)) || Norm2(Cell(c + 1 - u, d - v)) < Norm2(Cell(c + 1 - 0, d - 0))
  {
    hide Norm2, Square;
    CornerNormsOnce(c, d, u, v);
    CornerNormsOnce(d, c, v, u);
    NormSwap(c - u, d - v);
    NormSwap(c - 0, d - 0);
    NormSwap(c + 1 - u, d - v);
    NormSwap(c + 1 - 0, d - 0);
    NormSwap(c - u, d + 1 - v);
    NormSwap(c - 0, d + 1 - 0);
  }

  lemma NormSwap(x: int, y: int)
    ensures Norm2(Cell(x, y)) == Norm2(Cell(y, x))
  {
    hide Square;
  }

  lemma CornerNormsOnce(c: nat, d: nat, u: int, v: int)
    ensures Norm2(Cell(c - u, d - v)) <= Norm2(Cell(c - 0, d - 0)) ==>
      Norm2(Cell(c + 1 - u, d - v)) <= Norm2(Cell(c + 1 - 0, d - 0)) || Norm2(Cell(c - u, d + 1 - v)) < Norm2(Cell(c - 0, d + 1 - 0))
  {
    hide Square;
    if Norm2(Cell(c - u, d - v)) <= Norm2(Cell(c - 0, d - 0)) {
      CornerSquares(c, d, u, v);
    }
  }

  // Reflects an axis so that c lies on the positive side of s, one beyond a.
  lemma FoldAxis(c: int, s: int, t: int) returns (a: nat, u: int)
    requires c != s
    ensures Abs(Toward(c, s) - s) == a && Abs(c - s) == a + 1
    ensures Abs(Toward(c, s) - t) == Abs(a - u) && Abs(c - t) == Abs(a + 1 - u)
  {
    a := Abs(Toward(c, s) - s);
    u := if c > s then t - s else s - t;
  }

  // The distances at the corner, in folded coordinates.
  lemma FoldDistances(c: Cell, s: Cell, t: Cell, a: nat, b: nat, u: int, v: int)
    requires Abs(Toward(c.x, s.x) - t.x) == Abs(a - u) && Abs(c.x - t.x) == Abs(a + 1 - u)
    requires Abs(Toward(c.y, s.y) - t.y) == Abs(b - v) && Abs(c.y - t.y) == Abs(b + 1 - v)
    ensures Dist2(StepX(StepY(c, s), s), t) == Norm2(Cell(a - u, b - v))
    ensures Dist2(StepY(c, s), t) == Norm2(Cell(a + 1 - u, b - v))
    ensures Dist2(StepX(c, s), t) == Norm2(Cell(a - u, b + 1 - v))
  {
  }

  // Two steps towards s from c lead to the corner q. If q has a label t no farther than
  // s, then t serves the cell below c as well as s does, or the cell beside c strictly better.
  lemma SquareArgument(c: Cell, s: Cell, t: Cell)
    requires c.x != s.x && c.y != s.y
    requires Dist2(StepX(StepY(c, s), s), t) <= Dist2(StepX(StepY(c, s), s), s)
    ensures Dist2(StepY(c, s), t) <= Dist2(StepY(c, s), s) || Dist2(StepX(c, s), t) < Dist2(StepX(c, s), s)
    ensures Dist2(StepX(c, s), t) <= Dist2(StepX(c, s), s) || Dist2(StepY(c, s), t) < Dist2(StepY(c, s), s)
  {
    var a, u := FoldAxis(c.x, s.x, t.x);
    var b, v := FoldAxis(c.y, s.y, t.y);
    FoldDistances(c, s, t, a, b, u, v);
    FoldDistances(c, s, s, a, b, 0, 0);
    CornerNorms(a, b, u, v);
  }
}
