// The cost of a distance, how it is merged into a cell, and what a finished labelling
// then says about the grid.
module InflationCost {
  import opened Lattice
  import opened RowMajor
  import opened Wavefront
  import opened NearestObstacle
  import opened GridCells

  // factor(d2) stands for exp(-cost_scaling_factor * (sqrt(d2) * resolution - inscribed_radius)).
  // cellArea is resolution squared, inscribed2 the inscribed radius squared.
  datatype CostModel = CostModel(cellArea: real, inscribed2: real, factor: nat -> real)

  // The squared distance d2 lies beyond the inscribed radius.
  predicate Beyond(m: CostModel, d2: nat) {
    (d2 as real) * m.cellArea > m.inscribed2
  }

  // What is assumed of exp: beyond the inscribed radius, where alone computeCost asks for it,
  // it lies in [0, 1] and does not grow.
  ghost predicate ValidModel(m: CostModel) {
    && m.cellArea > 0.0
    && m.inscribed2 >= 0.0
    && (forall d :: Beyond(m, d) ==> 0.0 <= m.factor(d) <= 1.0)
    && (forall d, e :: Beyond(m, d) && d <= e ==> m.factor(e) <= m.factor(d))
  }

  // computeCost as a function of the squared distance in cells; the comparison
  // distance * resolution <= inscribed_radius is squared on both sides.
  function ComputeCost(m: CostModel, d2: nat): Cost
    requires ValidModel(m)
  {
    if d2 == 0 then
      LETHAL_OBSTACLE
    else if (d2 as real) * m.cellArea <= m.inscribed2 then
      INSCRIBED_INFLATED_OBSTACLE
    else
      (252.0 * m.factor(d2)).Floor
  }

  // Farther never costs more, and only distance 0 is lethal.
  lemma CostAntitone(m: CostModel, d: nat, e: nat)
    requires ValidModel(m) && d <= e
    ensures ComputeCost(m, e) <= ComputeCost(m, d)
    ensures ComputeCost(m, d) == LETHAL_OBSTACLE <==> d == 0
  {
    ScaleMonotone(d as real, e as real, m.cellArea);
    assert Beyond(m, d) ==> m.factor(e) <= m.factor(d) <= 1.0;
  }

  // The three bands: lethal at the obstacle, inscribed up to the inscribed radius, and at
  // most 252 beyond it.
  lemma CostBands(m: CostModel, d2: nat)
    requires ValidModel(m) && d2 > 0
    ensures ComputeCost(m, d2) == INSCRIBED_INFLATED_OBSTACLE <==> (d2 as real) * m.cellArea <= m.inscribed2
    ensures ComputeCost(m, d2) <= INSCRIBED_INFLATED_OBSTACLE
  {
    assert Beyond(m, d2) ==> m.factor(d2) <= 1.0;
  }

  // Beyond the inscribed radius the cost is 252 times the factor, rounded down.
  lemma CostFallsOff(m: CostModel, d2: nat)
    requires ValidModel(m) && d2 > 0 && (d2 as real) * m.cellArea > m.inscribed2
    ensures ComputeCost(m, d2) as real <= 252.0 * m.factor(d2) < ComputeCost(m, d2) as real + 1.0
  {
    assert Beyond(m, d2);
  }

  lemma ScaleMonotone(a: real, b: real, q: real)
    requires a <= b && q > 0.0
    ensures a * q <= b * q
  {
  }

  datatype Window = Window(x0: int, y0: int, xn: int, yn: int)

  predicate InWindow(win: Window, c: Cell) {
    win.x0 <= c.x < win.xn && win.y0 <= c.y < win.yn
  }

  // The assignment to master_array[index] for a cell inside the base bounds.
  function Merge(inflateUnknown: bool, old_: Cost, cost: Cost): Cost {
    if old_ == NO_INFORMATION && (if inflateUnknown then cost > FREE_SPACE else cost >= INSCRIBED_INFLATED_OBSTACLE)
    then cost
    else if old_ < cost then cost else old_
  }

  predicate IsObstacle(aroundUnknown: bool, cost: Cost) {
    cost == LETHAL_OBSTACLE || (aroundUnknown && cost == NO_INFORMATION)
  }

  // The window widened by the radius and clipped to the grid: what is scanned for obstacles.
  function Scanned(p: Pass, win: Window): Window {
    Window(
      if win.x0 - p.radius > 0 then win.x0 - p.radius else 0,
      if win.y0 - p.radius > 0 then win.y0 - p.radius else 0,
      if win.xn + p.radius < p.width then win.xn + p.radius else p.width,
      if win.yn + p.radius < p.height then win.yn + p.radius else p.height)
  }

  ghost function Obstacles(p: Pass, aroundUnknown: bool, grid: seq<Cost>, win: Window): set<Cell>
    requires |grid| == RowStart(p.width, p.height)
  {
    set x, y | 0 <= x < p.width && 0 <= y < p.height && InWindow(win, Cell(x, y))
      && IsObstacle(aroundUnknown, CostAt(grid, p.width, p.height, Cell(x, y))) :: Cell(x, y)
  }

  // The value of cell c once labels are applied to the grid as it was before.
  ghost function Inflated(p: Pass, m: CostModel, unknown: bool, win: Window, labels: Labels, before: seq<Cost>, c: Cell): Cost
    requires ValidModel(m) && |before| == RowStart(p.width, p.height) && InGrid(p, c)
  {
    var old_ := CostAt(before, p.width, p.height, c);
    if c in labels && InWindow(win, c) then Merge(unknown, old_, ComputeCost(m, Dist2(c, labels[c]))) else old_
  }

  ghost predicate Applied(p: Pass, m: CostModel, unknown: bool, win: Window, labels: Labels, before: seq<Cost>, after: seq<Cost>) {
    && ValidModel(m)
    && |before| == RowStart(p.width, p.height) == |after|
    && forall c :: InGrid(p, c) ==>
         CostAt(after, p.width, p.height, c) == Inflated(p, m, unknown, win, labels, before, c)
  }

  lemma ScannedHoldsSource(p: Pass, win: Window, c: Cell, s: Cell)
    requires InGrid(p, s) && InWindow(win, c) && Manhattan(c, s) <= p.radius
    ensures InWindow(Scanned(p, win), s)
  {
  }

  // An obstacle anywhere in the grid, seen or not from the window, that is within Manhattan
  // distance m <= radius of a window cell leaves that cell with at least the cost of m.
  lemma ObstacleInflates(p: Pass, m: CostModel, unknown: bool, around: bool, win: Window, labels: Labels,
                         before: seq<Cost>, after: seq<Cost>, c: Cell, s: Cell)
    requires Applied(p, m, unknown, win, labels, before, after)
    requires Stable(p, Obstacles(p, around, before, Scanned(p, win)), labels)
    requires InGrid(p, c) && InWindow(win, c) && InGrid(p, s) && Manhattan(c, s) <= p.radius
    requires IsObstacle(around, CostAt(before, p.width, p.height, s))
    ensures CostAt(after, p.width, p.height, c) >= ComputeCost(m, Square(Manhattan(c, s)))
  {
    hide Stable, Dist2, Square, Manhattan, ComputeCost, ValidModel, Scanned, IsObstacle, CostAt;
    ScannedHoldsSource(p, win, c, s);
    var sources := Obstacles(p, around, before, Scanned(p, win));
    assert s == Cell(s.x, s.y) && s in sources;
    Coverage(p, sources, labels, c, s);
    CostAntitone(m, Dist2(c, labels[c]), Square(Manhattan(c, s)));
  }

  // Every window cell near a lethal cell of the grid (or an unknown one, if those are to be
  // inflated around) costs at least the cost of its Manhattan distance to it, and is no longer
  // unknown if that cost may overwrite an unknown cell.
  ghost predicate CoversObstacles(p: Pass, m: CostModel, unknown: bool, around: bool, win: Window, before: seq<Cost>, after: seq<Cost>)
    requires ValidModel(m) && |before| == RowStart(p.width, p.height) == |after|
  {
    forall c, s | InGrid(p, c) && InGrid(p, s) && Manhattan(c, s) <= p.radius ::
      win.x0 <= c.x < win.xn && win.y0 <= c.y < win.yn ==>
        InflatedFrom(unknown, around, CostAt(before, p.width, p.height, s), CostAt(before, p.width, p.height, c),
                     ComputeCost(m, Square(Manhattan(c, s))), CostAt(after, p.width, p.height, c))
  }

  // What an obstacle cell of cost `source` does to a cell that cost `was` and now costs `now`.
  predicate InflatedFrom(unknown: bool, around: bool, source: Cost, was: Cost, cost: Cost, now: Cost) {
    source == LETHAL_OBSTACLE || (around && source == NO_INFORMATION) ==>
      && now >= cost
      && (was == NO_INFORMATION && (if unknown then cost > FREE_SPACE else cost >= INSCRIBED_INFLATED_OBSTACLE) ==>
            now != NO_INFORMATION)
  }

  // An unknown cell takes the cost of its label whenever that may overwrite it.
  lemma UnknownInflates(p: Pass, m: CostModel, unknown: bool, around: bool, win: Window, labels: Labels,
                        before: seq<Cost>, after: seq<Cost>, c: Cell, s: Cell)
    requires Applied(p, m, unknown, win, labels, before, after)
    requires Stable(p, Obstacles(p, around, before, Scanned(p, win)), labels)
    requires InGrid(p, c) && InWindow(win, c) && InGrid(p, s) && Manhattan(c, s) <= p.radius
    requires IsObstacle(around, CostAt(before, p.width, p.height, s)) && CostAt(before, p.width, p.height, c) == NO_INFORMATION
    requires if unknown then ComputeCost(m, Square(Manhattan(c, s))) > FREE_SPACE
             else ComputeCost(m, Square(Manhattan(c, s))) >= INSCRIBED_INFLATED_OBSTACLE
    ensures CostAt(after, p.width, p.height, c) != NO_INFORMATION
  {
    hide Stable, Dist2, Square, Manhattan, ComputeCost, ValidModel, Scanned, IsObstacle, CostAt;
    ScannedHoldsSource(p, win, c, s);
    var sources := Obstacles(p, around, before, Scanned(p, win));
    assert s == Cell(s.x, s.y) && s in sources;
    Coverage(p, sources, labels, c, s);
    CostAntitone(m, Dist2(c, labels[c]), Square(Manhattan(c, s)));
    NeverUnknown(m, Dist2(c, labels[c]));
  }

  lemma NeverUnknown(m: CostModel, d2: nat)
    requires ValidModel(m)
    ensures ComputeCost(m, d2) < NO_INFORMATION
  {
    if d2 > 0 {
      CostBands(m, d2);
    }
  }

  // Outside the window nothing changes; inside, a cell keeps its value or takes the cost
  // of its distance to an obstacle within the radius; only unknown cells can go down, and only to a cost that
  // inflate_unknown lets overwrite them.
  ghost predicate ChangesLocally(p: Pass, m: CostModel, unknown: bool, around: bool, win: Window, before: seq<Cost>, after: seq<Cost>)
    requires ValidModel(m) && |before| == RowStart(p.width, p.height) == |after|
  {
    forall c :: InGrid(p, c) ==> CellChange(p, m, unknown, around, win, before, c, CostAt(after, p.width, p.height, c))
  }

  ghost predicate CellChange(p: Pass, m: CostModel, unknown: bool, around: bool, win: Window, before: seq<Cost>, c: Cell, now: Cost)
    requires ValidModel(m) && |before| == RowStart(p.width, p.height) && InGrid(p, c)
  {
    var was := CostAt(before, p.width, p.height, c);
    && (!(win.x0 <= c.x < win.xn && win.y0 <= c.y < win.yn) ==> now == was)
    && (was != NO_INFORMATION ==> now >= was)
    && (was == NO_INFORMATION && now != was ==> if unknown then now > FREE_SPACE else now >= INSCRIBED_INFLATED_OBSTACLE)
    && (now != was ==> exists s :: IsInflatedBy(p, m, around, before, c, s, now))
  }

  // now is the cost of c's distance to the obstacle s, which is within the radius.
  ghost predicate IsInflatedBy(p: Pass, m: CostModel, around: bool, before: seq<Cost>, c: Cell, s: Cell, now: Cost)
    requires ValidModel(m) && |before| == RowStart(p.width, p.height)
  {
    && InGrid(p, s)
    && (CostAt(before, p.width, p.height, s) == LETHAL_OBSTACLE || (around && CostAt(before, p.width, p.height, s) == NO_INFORMATION))
    && (c.x - s.x) * (c.x - s.x) + (c.y - s.y) * (c.y - s.y) <= p.radius * p.radius
    && now == ComputeCost(m, Dist2(c, s))
  }

  lemma InflationIsLocal(p: Pass, m: CostModel, unknown: bool, around: bool, win: Window, labels: Labels,
                         before: seq<Cost>, after: seq<Cost>, c: Cell)
    requires Applied(p, m, unknown, win, labels, before, after)
    requires Stable(p, Obstacles(p, around, before, Scanned(p, win)), labels)
    requires InGrid(p, c)
    ensures CellChange(p, m, unknown, around, win, before, c, CostAt(after, p.width, p.height, c))
  {
    hide Dist2, Square, ComputeCost, ValidModel, Scanned, CostAt, Stable, Obstacles, IsInflatedBy;
    if c in labels && InWindow(win, c) {
      LabelInflates(p, m, around, win, labels, before, c);
      assert CostAt(after, p.width, p.height, c) == Merge(unknown, CostAt(before, p.width, p.height, c), ComputeCost(m, Dist2(c, labels[c])));
    }
  }

  lemma LabelInflates(p: Pass, m: CostModel, around: bool, win: Window, labels: Labels, before: seq<Cost>, c: Cell)
    requires ValidModel(m) && |before| == RowStart(p.width, p.height) && c in labels
    requires Stable(p, Obstacles(p, around, before, Scanned(p, win)), labels)
    ensures IsInflatedBy(p, m, around, before, c, labels[c], ComputeCost(m, Dist2(c, labels[c])))
  {
    hide Dist2, Square, ComputeCost, ValidModel, Scanned, CostAt, HasParent, Stable, Near;
    var s := labels[c];
    SeenNear(p, Obstacles(p, around, before, Scanned(p, win)), labels, c);
    NearIsProduct(p, c, s);
  }

  lemma NearIsProduct(p: Pass, c: Cell, s: Cell)
    ensures Near(p, c, s) <==> (c.x - s.x) * (c.x - s.x) + (c.y - s.y) * (c.y - s.y) <= p.radius * p.radius
  {
    hide Dist2, Square;
    SquareIsProduct(p.radius);
    Known(c, s, (c.x - s.x) * (c.x - s.x) + (c.y - s.y) * (c.y - s.y));
  }

  function WholeGrid(p: Pass): Window {
    Window(0, 0, p.width, p.height)
  }

  lemma NearInScanned(p: Pass, win: Window, c: Cell, s: Cell)
    requires InGrid(p, s) && InWindow(win, c) && Near(p, c, s)
    ensures InWindow(Scanned(p, win), s)
  {
    hide Norm2;
    OffsetWithin(Offset(c, s), p.radius);
  }

  // A window cell has the same obstacles within the radius in the scanned rectangle as in the
  // whole grid, hence the same nearest distance.
  lemma ScannedReach(p: Pass, around: bool, grid: seq<Cost>, win: Window, c: Cell, s: Cell)
    requires |grid| == RowStart(p.width, p.height) && InWindow(win, c) && Near(p, c, s)
    ensures s in Obstacles(p, around, grid, Scanned(p, win)) <==> s in Obstacles(p, around, grid, WholeGrid(p))
  {
    hide Dist2, Scanned, IsObstacle, CostAt, Near;
    assert s == Cell(s.x, s.y);
    if InGrid(p, s) {
      NearInScanned(p, win, c, s);
    }
  }

  // Scanning the widened window suffices: where labels are nearest obstacles, every cell of the
  // window gets the cost it would get from inflating the obstacles of the whole grid.
  lemma ScanSuffices(p: Pass, m: CostModel, unknown: bool, around: bool, win: Window, labels: Labels, whole: Labels,
                     before: seq<Cost>, c: Cell)
    requires ValidModel(m) && |before| == RowStart(p.width, p.height) && InGrid(p, c) && InWindow(win, c)
    requires Stable(p, Obstacles(p, around, before, Scanned(p, win)), labels)
    requires Exact(p, Obstacles(p, around, before, Scanned(p, win)), labels)
    requires Stable(p, Obstacles(p, around, before, WholeGrid(p)), whole)
    requires Exact(p, Obstacles(p, around, before, WholeGrid(p)), whole)
    ensures Inflated(p, m, unknown, win, labels, before, c) == Inflated(p, m, unknown, win, whole, before, c)
  {
    hide Dist2, Stable, Obstacles, ValidModel, ComputeCost, CostAt, Merge, Square;
    var some, all := Obstacles(p, around, before, Scanned(p, win)), Obstacles(p, around, before, WholeGrid(p));
    SeenNear(p, some, labels, c);
    SeenNear(p, all, whole, c);
    if c in labels {
      ScannedReach(p, around, before, win, c, labels[c]);
    }
    if c in whole {
      ScannedReach(p, around, before, win, c, whole[c]);
    }
  }

  lemma SeenNear(p: Pass, sources: set<Cell>, labels: Labels, c: Cell)
    requires Stable(p, sources, labels)
    ensures c in labels ==> labels[c] in sources && Near(p, c, labels[c])
  {
    hide Dist2, HasParent, Labelled, Adjacent, Near;
  }

  lemma InflationOf(p: Pass, m: CostModel, unknown: bool, around: bool, win: Window, labels: Labels,
                    before: seq<Cost>, after: seq<Cost>, c: Cell, s: Cell)
    requires Applied(p, m, unknown, win, labels, before, after)
    requires Stable(p, Obstacles(p, around, before, Scanned(p, win)), labels)
    requires InGrid(p, c) && InWindow(win, c) && InGrid(p, s) && Manhattan(c, s) <= p.radius
    ensures InflatedFrom(unknown, around, CostAt(before, p.width, p.height, s), CostAt(before, p.width, p.height, c),
                         ComputeCost(m, Square(Manhattan(c, s))), CostAt(after, p.width, p.height, c))
  {
    hide Stable, Applied, Manhattan, CostAt, ComputeCost, ValidModel, Square;
    AppliedShape(p, m, unknown, win, labels, before, after);
    if IsObstacle(around, CostAt(before, p.width, p.height, s)) {
      ObstacleInflates(p, m, unknown, around, win, labels, before, after, c, s);
      var cost := ComputeCost(m, Square(Manhattan(c, s)));
      if CostAt(before, p.width, p.height, c) == NO_INFORMATION
         && (if unknown then cost > FREE_SPACE else cost >= INSCRIBED_INFLATED_OBSTACLE) {
        UnknownInflates(p, m, unknown, around, win, labels, before, after, c, s);
      }
    }
  }

  // What a stable labelling applied to the grid amounts to.
  lemma InflationResult(p: Pass, m: CostModel, unknown: bool, around: bool, win: Window, labels: Labels,
                        before: seq<Cost>, after: seq<Cost>)
    requires Applied(p, m, unknown, win, labels, before, after)
    requires Stable(p, Obstacles(p, around, before, Scanned(p, win)), labels)
    ensures CoversObstacles(p, m, unknown, around, win, before, after)
    ensures ChangesLocally(p, m, unknown, around, win, before, after)
  {
    hide Stable, Applied, Manhattan, IsObstacle, CostAt, ComputeCost, CellChange, ValidModel, Square, InflatedFrom;
    AppliedShape(p, m, unknown, win, labels, before, after);
    forall c, s | InGrid(p, c) && InGrid(p, s) && Manhattan(c, s) <= p.radius
      ensures win.x0 <= c.x < win.xn && win.y0 <= c.y < win.yn ==>
        InflatedFrom(unknown, around, CostAt(before, p.width, p.height, s), CostAt(before, p.width, p.height, c),
                     ComputeCost(m, Square(Manhattan(c, s))), CostAt(after, p.width, p.height, c))
    {
      if win.x0 <= c.x < win.xn && win.y0 <= c.y < win.yn {
        InflationOf(p, m, unknown, around, win, labels, before, after, c, s);
      }
    }
    forall c | InGrid(p, c)
      ensures CellChange(p, m, unknown, around, win, before, c, CostAt(after, p.width, p.height, c))
    {
      InflationIsLocal(p, m, unknown, around, win, labels, before, after, c);
    }
  }

  lemma AppliedShape(p: Pass, m: CostModel, unknown: bool, win: Window, labels: Labels, before: seq<Cost>, after: seq<Cost>)
    requires Applied(p, m, unknown, win, labels, before, after)
    ensures ValidModel(m) && |before| == RowStart(p.width, p.height) == |after|
  {
    hide ValidModel, Inflated, CostAt;
  }
}
