// A costmap as a value: its geometry and the cost of every cell. The operations of
// Costmap2D are specified here; runs of the rolling window are studied here.
module CostmapValue {
  import opened Lattice
  import opened RowMajor

  datatype Costmap = Costmap(
    width: nat, height: nat, resolution: real, originX: real, originY: real,
    defaultValue: Cost, cells: map<Cell, Cost>)

  datatype Geometry = Geometry(width: nat, height: nat, resolution: real, originX: real, originY: real)

  function GeometryOf(m: Costmap): Geometry {
    Geometry(m.width, m.height, m.resolution, m.originX, m.originY)
  }

  // resizeMap: a new geometry, every cell at the default.
  function Resized(m: Costmap, g: Geometry): Costmap {
    Costmap(g.width, g.height, g.resolution, g.originX, g.originY, m.defaultValue,
      map x, y | 0 <= x < g.width && 0 <= y < g.height :: Cell(x, y) := m.defaultValue)
  }

  predicate InMap(m: Costmap, c: Cell) {
    0 <= c.x < m.width && 0 <= c.y < m.height
  }

  ghost predicate ValidMap(m: Costmap) {
    && m.resolution > 0.0
    && forall c :: c in m.cells <==> InMap(m, c)
  }

  lemma ResizedIsValid(m: Costmap, g: Geometry)
    requires g.resolution > 0.0
    ensures ValidMap(Resized(m, g)) && GeometryOf(Resized(m, g)) == g
  {
    var n := Resized(m, g);
    forall c
      ensures c in n.cells <==> InMap(n, c)
    {
      assert c == Cell(c.x, c.y);
    }
  }

  // static_cast<int> of a double: towards zero.
  function Truncate(r: real): int {
    if r >= 0.0 then r.Floor else -((-r).Floor)
  }

  lemma TruncateBounds(r: real)
    ensures r >= 0.0 ==> 0 <= Truncate(r) && Truncate(r) as real <= r < Truncate(r) as real + 1.0
    ensures r < 0.0 ==> Truncate(r) <= 0 && Truncate(r) as real - 1.0 < r <= Truncate(r) as real
  {
  }

  // Whole cells by which an axis moves when its origin is asked to move to target.
  function CellShift(origin: real, target: real, resolution: real): int
    requires resolution > 0.0
  {
    Truncate((target - origin) / resolution)
  }

  function Metres(cells: int, resolution: real): real {
    (cells as real) * resolution
  }

  function Plus(c: Cell, d: Cell): Cell { Cell(c.x + d.x, c.y + d.y) }
  function Minus(c: Cell, d: Cell): Cell { Cell(c.x - d.x, c.y - d.y) }

  // The window moved by d cells: overlap kept, the rest set to the default.
  function Shift(m: Costmap, d: Cell): Costmap {
    m.(originX := m.originX + Metres(d.x, m.resolution),
       originY := m.originY + Metres(d.y, m.resolution),
       cells := map c | c in m.cells :: if Plus(c, d) in m.cells then m.cells[Plus(c, d)] else m.defaultValue)
  }

  datatype Move = Move(x: real, y: real)

  function ShiftOf(m: Costmap, to: Move): Cell
    requires m.resolution > 0.0
  {
    Cell(CellShift(m.originX, to.x, m.resolution), CellShift(m.originY, to.y, m.resolution))
  }

  // updateOrigin.
  function MovedTo(m: Costmap, to: Move): (r: Costmap)
    requires m.resolution > 0.0
    ensures r.resolution == m.resolution && r.width == m.width && r.height == m.height
    ensures r.defaultValue == m.defaultValue && r.cells.Keys == m.cells.Keys
  {
    Shift(m, ShiftOf(m, to))
  }

  // A shift that leaves the geometry as it was leaves everything as it was.
  lemma ShiftInPlace(m: Costmap, d: Cell)
    requires ValidMap(m) && GeometryOf(Shift(m, d)) == GeometryOf(m)
    ensures Shift(m, d) == m
  {
    hide Metres;
    NoMetres(d.x, m.resolution);
    NoMetres(d.y, m.resolution);
    assert forall c :: Plus(c, d) == c;
  }

  lemma NoMetres(n: int, r: real)
    requires r > 0.0 && Metres(n, r) == 0.0
    ensures n == 0
  {
  }

  // Shifted there and back, a cell whose place was outside in between is at the default.
  lemma ThereAndBack(m: Costmap, k: Cell, n: Costmap, j: Cell, c: Cell)
    requires ValidMap(m) && ValidMap(n) && GeometryOf(n) == GeometryOf(Shift(m, k)) && GeometryOf(Shift(n, j)) == GeometryOf(m)
    requires InMap(m, c) && !InMap(m, Minus(c, k))
    ensures Shift(n, j).cells[c] == n.defaultValue
  {
    hide Metres;
    Distribute(k.x, j.x, m.resolution);
    Distribute(k.y, j.y, m.resolution);
    NoMetres(k.x + j.x, m.resolution);
    NoMetres(k.y + j.y, m.resolution);
    assert Plus(c, j) == Minus(c, k);
  }

  // ---------- Runs of updateOrigin ----------

  function Run(m: Costmap, moves: seq<Move>): (r: Costmap)
    requires m.resolution > 0.0
    ensures r.resolution == m.resolution && r.width == m.width && r.height == m.height
    ensures r.defaultValue == m.defaultValue && r.cells.Keys == m.cells.Keys
  {
    if moves == [] then m else MovedTo(Run(m, moves[..|moves| - 1]), moves[|moves| - 1])
  }

  // Cells by which the window has moved after all moves.
  function Displacement(m: Costmap, moves: seq<Move>): Cell
    requires m.resolution > 0.0
  {
    if moves == [] then Cell(0, 0)
    else Plus(Displacement(m, moves[..|moves| - 1]), ShiftOf(Run(m, moves[..|moves| - 1]), moves[|moves| - 1]))
  }

  // Where cell c of the final window lies in the window after the first j moves.
  function At(m: Costmap, moves: seq<Move>, j: nat, c: Cell): Cell
    requires m.resolution > 0.0 && j <= |moves|
  {
    Minus(Plus(c, Displacement(m, moves)), Displacement(m, moves[..j]))
  }

  // The place of c stayed inside every window of the run.
  ghost predicate NeverLeft(m: Costmap, moves: seq<Move>, c: Cell)
    requires m.resolution > 0.0
  {
    forall j :: 0 <= j <= |moves| ==> InMap(m, At(m, moves, j, c))
  }

  lemma AtPrefix(m: Costmap, moves: seq<Move>, j: nat, c: Cell)
    requires m.resolution > 0.0 && |moves| > 0 && j < |moves|
    ensures var n := |moves| - 1;
      At(m, moves, j, c) == At(m, moves[..n], j, Plus(c, ShiftOf(Run(m, moves[..n]), moves[n])))
  {
    hide Run, ShiftOf;
    var n := |moves| - 1;
    assert moves[..n][..j] == moves[..j];
  }

  lemma AtEnd(m: Costmap, moves: seq<Move>, c: Cell)
    requires m.resolution > 0.0
    ensures At(m, moves, |moves|, c) == c
  {
    hide Displacement;
    assert moves[..|moves|] == moves;
  }

  lemma NeverLeftStep(m: Costmap, moves: seq<Move>, c: Cell)
    requires m.resolution > 0.0 && |moves| > 0 && InMap(m, c)
    ensures var n := |moves| - 1;
      NeverLeft(m, moves, c) <==> NeverLeft(m, moves[..n], Plus(c, ShiftOf(Run(m, moves[..n]), moves[n])))
  {
    hide Run, ShiftOf, At, InMap, Plus;
    var n := |moves| - 1;
    var before := Plus(c, ShiftOf(Run(m, moves[..n]), moves[n]));
    AtEnd(m, moves, c);
    forall j | 0 <= j <= n
      ensures At(m, moves, j, c) == At(m, moves[..n], j, before)
    {
      AtPrefix(m, moves, j, c);
    }
  }

  ghost function HeldCost(m: Costmap, moves: seq<Move>, c: Cell): Cost
    requires ValidMap(m)
  {
    if NeverLeft(m, moves, c) then
      assert InMap(m, At(m, moves, 0, c));
      m.cells[At(m, moves, 0, c)]
    else
      m.defaultValue
  }

  lemma LeftMeansDefault(m: Costmap, moves: seq<Move>, c: Cell)
    requires ValidMap(m) && !InMap(m, c)
    ensures HeldCost(m, moves, c) == m.defaultValue
  {
    hide Displacement, Run, ShiftOf;
    AtEnd(m, moves, c);
  }

  lemma HeldStep(m: Costmap, moves: seq<Move>, c: Cell)
    requires ValidMap(m) && InMap(m, c) && |moves| > 0
    ensures var n := |moves| - 1;
      HeldCost(m, moves, c) == HeldCost(m, moves[..n], Plus(c, ShiftOf(Run(m, moves[..n]), moves[n])))
  {
    hide Run, ShiftOf, At, Plus, NeverLeft;
    NeverLeftStep(m, moves, c);
    AtPrefix(m, moves, 0, c);
  }

  // After any sequence of updateOrigin calls a cell holds the original cost of its place
  // if that place lay in every window of the run, and the default otherwise.
  lemma {:induction false} RollingWindow(m: Costmap, moves: seq<Move>, c: Cell)
    requires ValidMap(m) && InMap(m, c)
    ensures Run(m, moves).cells[c] == HeldCost(m, moves, c)
    decreases |moves|
  {
    hide HeldCost, ShiftOf;
    if moves == [] {
      NoMoves(m, c);
    } else {
      var n := |moves| - 1;
      var prior := Run(m, moves[..n]);
      var before := Plus(c, ShiftOf(prior, moves[n]));
      HeldStep(m, moves, c);
      if InMap(m, before) {
        RollingWindow(m, moves[..n], before);
      } else {
        LeftMeansDefault(m, moves[..n], before);
      }
    }
  }

  lemma NoMoves(m: Costmap, c: Cell)
    requires ValidMap(m) && InMap(m, c)
    ensures HeldCost(m, [], c) == m.cells[c]
  {
    hide Run, Displacement;
    AtEnd(m, [], c);
    assert forall j :: 0 <= j <= 0 ==> At(m, [], j, c) == c;
  }

  // The origin has moved by the same whole number of cells.
  lemma {:induction false} RollingOrigin(m: Costmap, moves: seq<Move>)
    requires m.resolution > 0.0
    ensures Run(m, moves).originX == m.originX + Metres(Displacement(m, moves).x, m.resolution)
    ensures Run(m, moves).originY == m.originY + Metres(Displacement(m, moves).y, m.resolution)
    decreases |moves|
  {
    hide ShiftOf, Metres;
    if moves == [] {
      Distribute(0, 0, m.resolution);
    } else {
      var n := |moves| - 1;
      var d := ShiftOf(Run(m, moves[..n]), moves[n]);
      RollingOrigin(m, moves[..n]);
      Distribute(Displacement(m, moves[..n]).x, d.x, m.resolution);
      Distribute(Displacement(m, moves[..n]).y, d.y, m.resolution);
    }
  }

  lemma Distribute(a: int, b: int, r: real)
    ensures Metres(a + b, r) == Metres(a, r) + Metres(b, r)
  {
    assert (a + b) as real == a as real + b as real;
  }

  // ---------- Rectangular writes ----------

  datatype Rect = Rect(x0: int, y0: int, xn: int, yn: int)

  predicate Inside(r: Rect, c: Cell) {
    r.x0 <= c.x < r.xn && r.y0 <= c.y < r.yn
  }

  // The rectangle lies in the map (it may be empty).
  predicate Fits(m: Costmap, r: Rect) {
    0 <= r.x0 <= r.xn <= m.width && 0 <= r.y0 <= r.yn <= m.height
  }

  // resetMapToValue.
  function Filled(m: Costmap, r: Rect, value: Cost): Costmap {
    m.(cells := map c | c in m.cells :: if Inside(r, c) then value else m.cells[c])
  }

  // copyWindow's success: rectangle r of src lands with its corner at (dx, dy).
  predicate CopyFits(dst: Costmap, src: Costmap, r: Rect, dx: int, dy: int) {
    r.xn <= src.width && r.yn <= src.height && dx + (r.xn - r.x0) <= dst.width && dy + (r.yn - r.y0) <= dst.height
  }

  function Copied(dst: Costmap, src: Costmap, r: Rect, dx: int, dy: int): Costmap {
    dst.(cells := map c | c in dst.cells ::
      var o := Cell(c.x - dx + r.x0, c.y - dy + r.y0);
      if dx <= c.x < dx + (r.xn - r.x0) && dy <= c.y < dy + (r.yn - r.y0) && o in src.cells then src.cells[o] else dst.cells[c])
  }
}
