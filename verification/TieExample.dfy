// Why trapping is about partial labellings and not about one neighbour at a time: a cell
// whose two inlets can each be held by a foreign obstacle, but never both at once.
module TieExample {
  import opened Lattice
  import opened Wavefront
  import opened NearestObstacle
  import opened TieBreaking

  // Eight obstacles, symmetric about the diagonal.
  const RING: set<Cell> := {Cell(14, 1), Cell(18, 13), Cell(19, 9), Cell(6, 0),
                            Cell(1, 14), Cell(13, 18), Cell(9, 19), Cell(0, 6)}

  function Swap(c: Cell): Cell {
    Cell(c.y, c.x)
  }

  lemma SwapDistance(c: Cell, s: Cell)
    ensures Dist2(Swap(c), Swap(s)) == Dist2(c, s)
  {
    hide Square;
  }

  lemma SwapNearest(c: Cell, t: Cell)
    requires IsNearest(RING, c, t)
    ensures IsNearest(RING, Swap(c), Swap(t))
  {
    hide Dist2;
    forall s | s in RING
      ensures Dist2(Swap(c), Swap(t)) <= Dist2(Swap(c), s)
    {
      SwapDistance(c, t);
      SwapDistance(c, Swap(s));
      assert Swap(Swap(s)) == s && Swap(s) in RING;
    }
  }

  // How much farther (x, y) is from (sx, sy) than from (tx, ty), squared: linear in x and y.
  lemma Margin(x: int, y: int, sx: int, sy: int, tx: int, ty: int, a: int, b: int, k: int)
    requires a == 2 * (tx - sx) && b == 2 * (ty - sy) && k == sx * sx + sy * sy - tx * tx - ty * ty
    ensures Dist2(Cell(x, y), Cell(sx, sy)) - Dist2(Cell(x, y), Cell(tx, ty)) == a * x + b * y + k
  {
    hide Dist2;
    Known(Cell(x, y), Cell(sx, sy), (x - sx) * (x - sx) + (y - sy) * (y - sy));
    Known(Cell(x, y), Cell(tx, ty), (x - tx) * (x - tx) + (y - ty) * (y - ty));
    AxisMargin(x, sx, tx);
    AxisMargin(y, sy, ty);
  }

  lemma AxisMargin(x: int, s: int, t: int)
    ensures (x - s) * (x - s) - (x - t) * (x - t) == 2 * (t - s) * x + s * s - t * t
  {
  }

  // ---------- The cells around (9, 9) ----------

  lemma AtCentre(s: Cell)
    ensures IsNearest(RING, Cell(9, 9), s) <==> s == Cell(14, 1) || s == Cell(1, 14)
  {
    hide Dist2;
    Known(Cell(9, 9), Cell(14, 1), 89);
    Known(Cell(9, 9), Cell(18, 13), 97);
    Known(Cell(9, 9), Cell(19, 9), 100);
    Known(Cell(9, 9), Cell(6, 0), 90);
    Known(Cell(9, 9), Cell(1, 14), 89);
    Known(Cell(9, 9), Cell(13, 18), 97);
    Known(Cell(9, 9), Cell(9, 19), 100);
    Known(Cell(9, 9), Cell(0, 6), 90);
    assert Cell(14, 1) in RING;
  }

  lemma AtRight(s: Cell)
    ensures IsNearest(RING, Cell(10, 9), s) <==> s == Cell(14, 1) || s == Cell(18, 13)
  {
    hide Dist2;
    Known(Cell(10, 9), Cell(14, 1), 80);
    Known(Cell(10, 9), Cell(18, 13), 80);
    Known(Cell(10, 9), Cell(19, 9), 81);
    Known(Cell(10, 9), Cell(6, 0), 97);
    Known(Cell(10, 9), Cell(1, 14), 106);
    Known(Cell(10, 9), Cell(13, 18), 90);
    Known(Cell(10, 9), Cell(9, 19), 101);
    Known(Cell(10, 9), Cell(0, 6), 109);
    assert Cell(14, 1) in RING;
  }

  lemma AtFarRight(s: Cell)
    ensures IsNearest(RING, Cell(11, 9), s) <==> s == Cell(19, 9)
  {
    hide Dist2;
    Known(Cell(11, 9), Cell(14, 1), 73);
    Known(Cell(11, 9), Cell(18, 13), 65);
    Known(Cell(11, 9), Cell(19, 9), 64);
    Known(Cell(11, 9), Cell(6, 0), 106);
    Known(Cell(11, 9), Cell(1, 14), 125);
    Known(Cell(11, 9), Cell(13, 18), 85);
    Known(Cell(11, 9), Cell(9, 19), 104);
    Known(Cell(11, 9), Cell(0, 6), 130);
    assert Cell(19, 9) in RING;
  }

  lemma AtBelow(s: Cell)
    ensures IsNearest(RING, Cell(9, 8), s) <==> s == Cell(6, 0)
  {
    hide Dist2;
    Known(Cell(9, 8), Cell(14, 1), 74);
    Known(Cell(9, 8), Cell(18, 13), 106);
    Known(Cell(9, 8), Cell(19, 9), 101);
    Known(Cell(9, 8), Cell(6, 0), 73);
    Known(Cell(9, 8), Cell(1, 14), 100);
    Known(Cell(9, 8), Cell(13, 18), 116);
    Known(Cell(9, 8), Cell(9, 19), 121);
    Known(Cell(9, 8), Cell(0, 6), 85);
    assert Cell(6, 0) in RING;
  }

  lemma Swapped(c: Cell, s: Cell)
    ensures IsNearest(RING, Swap(c), s) <==> IsNearest(RING, c, Swap(s))
  {
    hide IsNearest;
    assert Swap(Swap(c)) == c && Swap(Swap(s)) == s;
    if IsNearest(RING, c, Swap(s)) {
      SwapNearest(c, Swap(s));
    }
    if IsNearest(RING, Swap(c), s) {
      SwapNearest(Swap(c), s);
    }
  }

  // ---------- What (18, 13) can hold ----------

  predicate OnChain(x: Cell) {
    || x == Cell(10, 9)
    || (x.y == 10 && 10 <= x.x <= 14)
    || (x.y == 11 && 14 <= x.x <= 18)
    || (x.x == 18 && 11 <= x.y <= 13)
  }

  lemma ChainNearest(x: Cell)
    requires OnChain(x)
    ensures IsNearest(RING, x, Cell(18, 13))
  {
    hide Dist2;
    Margin(x.x, x.y, 14, 1, 18, 13, 8, 24, -296);
    Margin(x.x, x.y, 19, 9, 18, 13, -2, 8, -51);
    Margin(x.x, x.y, 6, 0, 18, 13, 24, 26, -457);
    Margin(x.x, x.y, 1, 14, 18, 13, 34, -2, -296);
    Margin(x.x, x.y, 13, 18, 18, 13, 10, -10, 0);
    Margin(x.x, x.y, 9, 19, 18, 13, 18, -12, -51);
    Margin(x.x, x.y, 0, 6, 18, 13, 36, 14, -457);
    assert x == Cell(x.x, x.y);
  }

  function Chain(swapped: bool): Labels {
    if swapped then map x, y | 0 <= x < 20 && 0 <= y < 20 && OnChain(Cell(y, x)) :: Cell(x, y) := Cell(13, 18)
    else map x, y | 0 <= x < 20 && 0 <= y < 20 && OnChain(Cell(x, y)) :: Cell(x, y) := Cell(18, 13)
  }

  lemma ChainAt(swapped: bool, c: Cell)
    ensures c in Chain(swapped) <==> OnChain(if swapped then Swap(c) else c)
    ensures c in Chain(swapped) ==> Chain(swapped)[c] == if swapped then Cell(13, 18) else Cell(18, 13)
  {
    assert c == Cell(c.x, c.y);
  }

  lemma ChainParent(swapped: bool, c: Cell)
    requires c in Chain(swapped)
    ensures HasParent(Chain(swapped), CellData(c, Chain(swapped)[c]))
  {
    hide Chain;
    ChainAt(swapped, c);
    var t := Chain(swapped)[c];
    ChainAt(swapped, StepX(c, t));
    ChainAt(swapped, StepY(c, t));
  }

  lemma ChainNear(p: Pass, x: Cell)
    requires p.radius == 10 && OnChain(x)
    ensures Near(p, x, Cell(18, 13))
  {
    hide Dist2, Square;
    SquareIsProduct(10);
    ChainDistance(x);
  }

  lemma ChainDistance(x: Cell)
    requires OnChain(x)
    ensures Dist2(x, Cell(18, 13)) <= 80
  {
    hide Square;
    SquareIsProduct(Abs(x.x - 18));
    SquareIsProduct(Abs(x.y - 13));
    SquareMonotone(Abs(x.x - 18), 8);
    SquareMonotone(Abs(x.y - 13), 4);
    SquareIsProduct(8);
    SquareIsProduct(4);
  }

  lemma ChainHeld(p: Pass, swapped: bool)
    requires p.width == 20 && p.height == 20 && p.radius == 10
    ensures Held(p, RING, Chain(swapped))
  {
    hide Dist2, Near, HasParent, IsNearest, Chain;
    forall c | c in Chain(swapped)
      ensures InGrid(p, c) && IsNearest(RING, c, Chain(swapped)[c]) && Near(p, c, Chain(swapped)[c]) && HasParent(Chain(swapped), CellData(c, Chain(swapped)[c]))
    {
      ChainAt(swapped, c);
      ChainParent(swapped, c);
      if swapped {
        ChainNearest(Swap(c));
        SwapNearest(Swap(c), Cell(18, 13));
        ChainNear(p, Swap(c));
        SwapNear(p, Swap(c), Cell(18, 13));
      } else {
        ChainNearest(c);
        ChainNear(p, c);
      }
    }
  }

  lemma SwapNear(p: Pass, c: Cell, s: Cell)
    requires Near(p, c, s)
    ensures Near(p, Swap(c), Swap(s))
  {
    hide Dist2;
    SwapDistance(c, s);
  }

  // ---------- The cell (9, 9) ----------

  lemma RightInlet(p: Pass, swapped: bool)
    requires p.width == 20 && p.height == 20
    ensures Inlet(p, RING, if swapped then Cell(9, 10) else Cell(10, 9), Cell(9, 9))
  {
    hide IsNearest, Dist2;
    var c, s, q := Cell(9, 9), Cell(14, 1), Cell(10, 9);
    AtCentre(s);
    AtRight(s);
    assert q == StepX(c, s);
    StepNearer(c, s);
    if swapped {
      AtCentre(Swap(s));
      SwapNearest(q, s);
      SwapDistance(q, s);
      SwapDistance(c, s);
      assert Swap(q) == Cell(9, 10) && Swap(c) == c;
    }
  }

  lemma OnlyInlets(p: Pass, q: Cell)
    requires Inlet(p, RING, q, Cell(9, 9))
    ensures q == Cell(10, 9) || q == Cell(9, 10)
  {
    hide IsNearest, Dist2;
    var s :| IsNearest(RING, Cell(9, 9), s) && IsNearest(RING, q, s) && Dist2(q, s) < Dist2(Cell(9, 9), s);
    AtCentre(s);
    AtBelow(s);
    AtBelow(Swap(s));
    Swapped(Cell(9, 8), s);
    assert Swap(Cell(9, 8)) == Cell(8, 9);
  }

  // If a held labelling gives (10, 9) to a foreign obstacle, that is (18, 13), by way of (10, 10).
  lemma ForeignRight(p: Pass, m: Labels)
    requires Held(p, RING, m) && Cell(10, 9) in m && !IsNearest(RING, Cell(9, 9), m[Cell(10, 9)])
    ensures Cell(10, 10) in m && m[Cell(10, 10)] == Cell(18, 13)
  {
    hide IsNearest, Dist2, Near;
    var q := Cell(10, 9);
    var t := m[q];
    AtRight(t);
    AtCentre(t);
    AtFarRight(t);
    assert HasParent(m, CellData(q, t));
    assert StepX(q, t) == Cell(11, 9) && StepY(q, t) == Cell(10, 10);
  }

  lemma ForeignUp(p: Pass, m: Labels)
    requires Held(p, RING, m) && Cell(9, 10) in m && !IsNearest(RING, Cell(9, 9), m[Cell(9, 10)])
    ensures Cell(10, 10) in m && m[Cell(10, 10)] == Cell(13, 18)
  {
    hide IsNearest, Dist2, Near;
    var q := Cell(9, 10);
    var t := m[q];
    AtRight(Swap(t));
    Swapped(Cell(10, 9), t);
    AtCentre(t);
    AtFarRight(Swap(t));
    Swapped(Cell(11, 9), t);
    assert HasParent(m, CellData(q, t));
    assert StepX(q, t) == Cell(10, 10) && StepY(q, t) == Cell(9, 11);
  }

  // Each inlet of (9, 9) can be held by an obstacle that is not a nearest one for (9, 9), so
  // no inlet is reliable by itself; yet the cell is not trapped, because both would need (10, 10).
  lemma NotFedNotTrapped(p: Pass)
    requires p.width == 20 && p.height == 20 && p.radius == 10
    ensures InReach(p, RING, Cell(9, 9)) && !Fed(p, RING, Cell(9, 9)) && !Trapped(p, RING, Cell(9, 9))
  {
    hide IsNearest, Dist2, Held, Inlet, Chain, Near;
    var c := Cell(9, 9);
    CentreInReach(p);
    ChainHeld(p, false);
    ChainHeld(p, true);
    ChainAt(false, Cell(10, 9));
    ChainAt(true, Cell(9, 10));
    AtCentre(Cell(18, 13));
    AtCentre(Cell(13, 18));
    forall q | Inlet(p, RING, q, c)
      ensures exists t :: Holds(p, RING, q, t) && !IsNearest(RING, c, t)
    {
      OnlyInlets(p, q);
      assert Holds(p, RING, q, if q == Cell(10, 9) then Cell(18, 13) else Cell(13, 18));
    }
    RightInlet(p, false);
    RightInlet(p, true);
    forall m
      ensures !Traps(p, RING, c, m)
    {
      if Traps(p, RING, c, m) {
        ForeignRight(p, m);
        ForeignUp(p, m);
      }
    }
  }

  lemma CentreInReach(p: Pass)
    requires p.width == 20 && p.height == 20 && p.radius == 10
    ensures InReach(p, RING, Cell(9, 9))
  {
    hide Square;
    var c, s := Cell(9, 9), Cell(14, 1);
    SquareIsProduct(5);
    SquareIsProduct(8);
    SquareIsProduct(10);
    assert s in RING && Near(p, c, s);
  }
}
