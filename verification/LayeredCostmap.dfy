// LayeredCostmap: bounds accumulation, the update window, and the split into a primary
// map that plugins see and a combined map that filters write.
module LayeredCostmaps {
  import opened Wrappers
  import opened Lattice
  import opened RowMajor
  import opened CostmapValue
  import opened Coordinates
  import MapRegion

  datatype Bounds = Bounds(minX: real, minY: real, maxX: real, maxY: real)

  // A plugin or filter during one cycle: how it widens the bounds, how it writes costs.
  datatype Layer = Layer(bounds: Bounds -> Bounds, costs: (Costmap, Rect) -> Costmap)

  predicate SameGeometry(m: Costmap, n: Costmap) {
    GeometryOf(m) == GeometryOf(n)
  }

  // n is m with cells changed at most inside r.
  ghost predicate WroteInside(m: Costmap, n: Costmap, r: Rect) {
    && SameGeometry(m, n) && n.defaultValue == m.defaultValue && n.cells.Keys == m.cells.Keys
    && forall c :: c in m.cells && !Inside(r, c) ==> n.cells[c] == m.cells[c]
  }

  // updateCosts touches only the window it is given.
  ghost predicate Behaves(l: Layer) {
    forall m, r {:trigger l.costs(m, r)} :: WroteInside(m, l.costs(m, r), r)
  }

  ghost predicate AllBehave(ls: seq<Layer>) {
    forall k :: 0 <= k < |ls| ==> Behaves(ls[k])
  }

  function FoldBounds(ls: seq<Layer>, b: Bounds): Bounds {
    if ls == [] then b else ls[|ls| - 1].bounds(FoldBounds(ls[..|ls| - 1], b))
  }

  function FoldCosts(ls: seq<Layer>, m: Costmap, r: Rect): Costmap {
    if ls == [] then m else ls[|ls| - 1].costs(FoldCosts(ls[..|ls| - 1], m, r), r)
  }

  lemma {:induction false} FoldWritesInside(ls: seq<Layer>, m: Costmap, r: Rect)
    requires AllBehave(ls)
    ensures WroteInside(m, FoldCosts(ls, m, r), r)
    decreases |ls|
  {
    if ls != [] {
      var init := ls[..|ls| - 1];
      FoldWritesInside(init, m, r);
      var mid := FoldCosts(init, m, r);
      assert Behaves(ls[|ls| - 1]);
      assert WroteInside(mid, ls[|ls| - 1].costs(mid, r), r);
    }
  }

  // ---------- One cycle on values ----------

  datatype State = State(primary: Costmap, combined: Costmap, window: Rect, initialized: bool)

  // The inputs of one updateMap call. extreme stands for the limits of double.
  datatype Cycle = Cycle(rolling: bool, robot: Move, plugins: seq<Layer>, filters: seq<Layer>, extreme: real)

  ghost predicate ValidState(s: State) {
    ValidMap(s.primary) && ValidMap(s.combined) && SameGeometry(s.primary, s.combined)
  }

  ghost predicate ValidCycle(c: Cycle) {
    AllBehave(c.plugins) && AllBehave(c.filters)
  }

  function NewOrigin(m: Costmap, robot: Move): Move {
    Move(robot.x - HalfSpan(MapRegion.AxisX(m)), robot.y - HalfSpan(MapRegion.AxisY(m)))
  }

  function Recentred(s: State, c: Cycle): State
    requires s.primary.resolution > 0.0 && s.combined.resolution > 0.0
  {
    if c.rolling then
      var to := NewOrigin(s.combined, c.robot);
      s.(primary := MovedTo(s.primary, to), combined := MovedTo(s.combined, to))
    else s
  }

  function Accumulated(c: Cycle): Bounds {
    FoldBounds(c.filters, FoldBounds(c.plugins, Bounds(c.extreme, c.extreme, -c.extreme, -c.extreme)))
  }

  function WindowOf(m: Costmap, b: Bounds): Rect
    requires m.resolution > 0.0
  {
    var ax, ay := MapRegion.AxisX(m), MapRegion.AxisY(m);
    Rect(WindowLow(ax, b.minX), WindowLow(ay, b.minY), WindowHigh(ax, b.maxX), WindowHigh(ay, b.maxY))
  }

  predicate Skipped(r: Rect) {
    r.xn < r.x0 || r.yn < r.y0
  }

  // The two branches of the cost update.
  function Written(s: State, c: Cycle, r: Rect): State {
    if c.filters == [] then
      s.(combined := FoldCosts(c.plugins, Filled(s.combined, r, s.combined.defaultValue), r))
    else
      var primary := FoldCosts(c.plugins, Filled(s.primary, r, s.primary.defaultValue), r);
      s.(primary := primary, combined := FoldCosts(c.filters, Copied(s.combined, primary, r, r.x0, r.y0), r))
  }

  // The cycle gets as far as writing costs.
  predicate Writes(s: State, c: Cycle)
    requires s.primary.resolution > 0.0 && s.combined.resolution > 0.0
  {
    (c.plugins != [] || c.filters != []) && !Skipped(WindowOf(Recentred(s, c).combined, Accumulated(c)))
  }

  function Next(s: State, c: Cycle): State
    requires s.primary.resolution > 0.0 && s.combined.resolution > 0.0
  {
    var t := Recentred(s, c);
    if c.plugins == [] && c.filters == [] then t
    else
      var r := WindowOf(t.combined, Accumulated(c));
      if Skipped(r) then t else Written(t, c, r).(window := r, initialized := true)
  }

  // resizeMap resets both maps and leaves the recorded window as it was.
  function ResizedTo(s: State, g: Geometry): State {
    s.(primary := Resized(s.primary, g), combined := Resized(s.combined, g))
  }

  // What changes a layered costmap during a run.
  datatype Event = Update(cycle: Cycle) | Resize(geometry: Geometry)

  ghost predicate ValidEvent(e: Event) {
    match e
    case Update(c) => ValidCycle(c)
    case Resize(g) => g.resolution > 0.0
  }

  function Advance(s: State, e: Event): State
    requires s.primary.resolution > 0.0 && s.combined.resolution > 0.0
  {
    match e
    case Update(c) => Next(s, c)
    case Resize(g) => ResizedTo(s, g)
  }

  // ---------- Window and geometry ----------

  // Whatever the accumulated bounds: a window that is not skipped lies in the map, and it
  // holds the cell of every in-map point within the bounds.
  lemma WindowInMap(m: Costmap, b: Bounds, p: MapRegion.WorldPoint)
    requires m.resolution > 0.0
    ensures !Skipped(WindowOf(m, b)) ==> Fits(m, WindowOf(m, b))
    ensures b.minX <= p.x <= b.maxX && b.minY <= p.y <= b.maxY && MapRegion.ToMap(m, p).Some? ==>
      Inside(WindowOf(m, b), MapRegion.ToMap(m, p).value)
  {
    WindowSound(MapRegion.AxisX(m), b.minX, b.maxX, p.x);
    WindowSound(MapRegion.AxisY(m), b.minY, b.maxY, p.y);
    hide WindowLow, WindowHigh;
  }

  lemma RolledTogether(s: State, c: Cycle)
    requires ValidState(s)
    ensures ValidState(Recentred(s, c))
  {
    hide Truncate, Metres, HalfSpan;
    var t := Recentred(s, c);
    assert forall d :: InMap(t.primary, d) <==> InMap(s.primary, d);
    assert forall d :: InMap(t.combined, d) <==> InMap(s.combined, d);
  }

  lemma WroteKeepsMap(m: Costmap, n: Costmap, r: Rect)
    requires ValidMap(m) && WroteInside(m, n, r)
    ensures ValidMap(n)
  {
    assert forall d :: InMap(m, d) <==> InMap(n, d);
    assert forall d :: d in n.cells <==> d in m.cells;
  }

  lemma FilledInside(m: Costmap, r: Rect, value: Cost)
    ensures WroteInside(m, Filled(m, r, value), r)
  {
  }

  // copyWindow between maps of one geometry never refuses, and copies the window in place.
  lemma CopyInPlace(m: Costmap, src: Costmap, r: Rect)
    requires ValidMap(m) && ValidMap(src) && SameGeometry(m, src) && Fits(m, r)
    ensures CopyFits(m, src, r, r.x0, r.y0)
    ensures WroteInside(m, Copied(m, src, r, r.x0, r.y0), r)
    ensures forall d :: d in m.cells && Inside(r, d) ==> d in src.cells && Copied(m, src, r, r.x0, r.y0).cells[d] == src.cells[d]
  {
    var n := Copied(m, src, r, r.x0, r.y0);
    forall d | d in m.cells
      ensures d in src.cells && n.cells[d] == if Inside(r, d) then src.cells[d] else m.cells[d]
    {
      assert InMap(m, d) && InMap(src, d);
      assert Cell(d.x - r.x0 + r.x0, d.y - r.y0 + r.y0) == d;
    }
  }

  lemma WroteTwice(l: Costmap, m: Costmap, n: Costmap, r: Rect)
    requires WroteInside(l, m, r) && WroteInside(m, n, r)
    ensures WroteInside(l, n, r)
  {
  }

  lemma WrittenOk(s: State, c: Cycle, r: Rect)
    requires ValidState(s) && ValidCycle(c) && Fits(s.combined, r)
    ensures ValidState(Written(s, c, r))
    ensures WroteInside(s.primary, Written(s, c, r).primary, r) && WroteInside(s.combined, Written(s, c, r).combined, r)
    ensures c.filters != [] ==> CopyFits(s.combined, Written(s, c, r).primary, r, r.x0, r.y0)
  {
    hide FoldCosts, Filled, Copied, WroteInside, ValidMap, Behaves, AllBehave;
    if c.filters == [] {
      var filled := Filled(s.combined, r, s.combined.defaultValue);
      FilledInside(s.combined, r, s.combined.defaultValue);
      FoldWritesInside(c.plugins, filled, r);
      WroteTwice(s.combined, filled, FoldCosts(c.plugins, filled, r), r);
      WroteKeepsMap(s.combined, FoldCosts(c.plugins, filled, r), r);
      WroteNothing(s.primary, r);
      WroteGeometry(s.combined, FoldCosts(c.plugins, filled, r), r);
    } else {
      var filled := Filled(s.primary, r, s.primary.defaultValue);
      FilledInside(s.primary, r, s.primary.defaultValue);
      FoldWritesInside(c.plugins, filled, r);
      var primary := FoldCosts(c.plugins, filled, r);
      WroteTwice(s.primary, filled, primary, r);
      WroteKeepsMap(s.primary, primary, r);
      WroteGeometry(s.primary, primary, r);
      CopyInPlace(s.combined, primary, r);
      var copied := Copied(s.combined, primary, r, r.x0, r.y0);
      FoldWritesInside(c.filters, copied, r);
      WroteTwice(s.combined, copied, FoldCosts(c.filters, copied, r), r);
      WroteKeepsMap(s.combined, FoldCosts(c.filters, copied, r), r);
      WroteGeometry(s.combined, FoldCosts(c.filters, copied, r), r);
    }
  }

  lemma WroteNothing(m: Costmap, r: Rect)
    ensures WroteInside(m, m, r)
  {
  }

  lemma WroteGeometry(m: Costmap, n: Costmap, r: Rect)
    requires WroteInside(m, n, r)
    ensures SameGeometry(m, n)
  {
  }

  // Each cycle keeps the two maps in one geometry.
  lemma NextKeepsState(s: State, c: Cycle)
    requires ValidState(s) && ValidCycle(c)
    ensures ValidState(Next(s, c))
  {
    hide ValidMap, Written, Behaves, AllBehave, Recentred, WindowOf, FoldBounds;
    RolledTogether(s, c);
    ResolutionOf(s.primary);
    ResolutionOf(s.combined);
    var t := Recentred(s, c);
    ResolutionOf(t.combined);
    var r := WindowOf(t.combined, Accumulated(c));
    if !(c.plugins == [] && c.filters == []) && !Skipped(r) {
      WindowInMap(t.combined, Accumulated(c), MapRegion.WorldPoint(0.0, 0.0));
      WrittenOk(t, c, r);
    }
  }

  lemma ResizeKeepsState(s: State, g: Geometry)
    requires g.resolution > 0.0
    ensures ValidState(ResizedTo(s, g))
  {
    hide Resized;
    ResizedIsValid(s.primary, g);
    ResizedIsValid(s.combined, g);
  }

  // Updates and resizes keep the two maps in one geometry, so that copyWindow fits.
  lemma AdvanceKeepsState(s: State, e: Event)
    requires ValidState(s) && ValidEvent(e)
    ensures ValidState(Advance(s, e))
  {
    hide ValidMap, Next, ValidCycle, Resized;
    match e
    case Update(c) => NextKeepsState(s, c);
    case Resize(g) => ResizeKeepsState(s, g);
  }

  // After the shift a cycle writes the combined map only inside the window it records.
  lemma CycleWritesWindow(s: State, c: Cycle)
    requires ValidState(s) && ValidCycle(c) && Writes(s, c)
    ensures Next(s, c).initialized && Fits(Recentred(s, c).combined, Next(s, c).window)
    ensures WroteInside(Recentred(s, c).combined, Next(s, c).combined, Next(s, c).window)
  {
    hide ValidMap, Written, Behaves, AllBehave, Recentred, WindowOf, FoldBounds, WroteInside;
    RolledTogether(s, c);
    ResolutionOf(s.primary);
    ResolutionOf(s.combined);
    var t := Recentred(s, c);
    ResolutionOf(t.combined);
    WindowInMap(t.combined, Accumulated(c), MapRegion.WorldPoint(0.0, 0.0));
    WrittenOk(t, c, WindowOf(t.combined, Accumulated(c)));
  }

  // A cycle that does not write only moves the maps.
  lemma CycleOnlyMoves(s: State, c: Cycle)
    requires ValidState(s) && !Writes(s, c)
    ensures Next(s, c) == Recentred(s, c)
    ensures Next(s, c).window == s.window && Next(s, c).initialized == s.initialized
  {
    hide WindowOf, FoldBounds, MovedTo, HalfSpan;
  }

  // Updates keep the recorded window inside the map; only a resize can leave it outside.
  lemma WindowStaysInMap(s: State, c: Cycle)
    requires ValidState(s) && ValidCycle(c)
    ensures Fits(s.combined, s.window) || Writes(s, c) ==> Fits(Next(s, c).combined, Next(s, c).window)
    ensures Next(s, c).combined.width == s.combined.width && Next(s, c).combined.height == s.combined.height
  {
    hide WindowOf, FoldBounds, MovedTo, HalfSpan, ValidMap, Behaves, AllBehave, WroteInside, Written;
    RolledTogether(s, c);
    ResolutionOf(s.primary);
    ResolutionOf(s.combined);
    if Writes(s, c) {
      CycleWritesWindow(s, c);
      WroteGeometry(Recentred(s, c).combined, Next(s, c).combined, Next(s, c).window);
    } else {
      CycleOnlyMoves(s, c);
    }
  }

  // A cycle that leaves the geometry as it was has not moved the combined map.
  lemma StandsStill(s: State, c: Cycle)
    requires ValidState(s) && SameGeometry(s.combined, Recentred(s, c).combined)
    ensures Recentred(s, c).combined == s.combined
  {
    hide HalfSpan, ValidMap, Shift;
    ResolutionOf(s.combined);
    if c.rolling {
      ShiftInPlace(s.combined, ShiftOf(s.combined, NewOrigin(s.combined, c.robot)));
    }
  }

  lemma ResolutionOf(m: Costmap)
    requires ValidMap(m)
    ensures m.resolution > 0.0
  {
  }

  // In rolling mode with at least 3 cells per axis the robot is in the map after the shift.
  lemma RollingKeepsRobot(s: State, c: Cycle)
    requires ValidState(s) && c.rolling && s.combined.width >= 3 && s.combined.height >= 3
    ensures MapRegion.ToMap(Recentred(s, c).combined, MapRegion.WorldPoint(c.robot.x, c.robot.y)).Some?
  {
    var m := s.combined;
    RobotInBounds(MapRegion.AxisX(m), c.robot.x);
    RobotInBounds(MapRegion.AxisY(m), c.robot.y);
    hide Truncate, HalfSpan, Metres;
    var n := Recentred(s, c).combined;
    assert MapRegion.AxisX(n) == Rolled(MapRegion.AxisX(m), c.robot.x);
    assert MapRegion.AxisY(n) == Rolled(MapRegion.AxisY(m), c.robot.y);
  }

  // ---------- Filters are invisible to plugins ----------

  // d is c with other filters of the same number and the same influence on the bounds.
  ghost predicate SameButFilters(c: Cycle, d: Cycle) {
    && d == c.(filters := d.filters)
    && |c.filters| == |d.filters|
    && FoldBounds(c.filters, FoldBounds(c.plugins, Bounds(c.extreme, c.extreme, -c.extreme, -c.extreme)))
       == FoldBounds(d.filters, FoldBounds(d.plugins, Bounds(d.extreme, d.extreme, -d.extreme, -d.extreme)))
  }

  // Equal except for what filters wrote.
  ghost predicate AgreeForPlugins(s: State, t: State) {
    ValidState(s) && ValidState(t) && s.primary == t.primary && s.window == t.window && s.initialized == t.initialized
  }

  lemma FilterStep(s: State, t: State, c: Cycle, d: Cycle)
    requires AgreeForPlugins(s, t) && ValidCycle(c) && ValidCycle(d) && SameButFilters(c, d)
    ensures AgreeForPlugins(Next(s, c), Next(t, d))
  {
    NextKeepsState(s, c);
    NextKeepsState(t, d);
    hide ValidMap, Behaves, AllBehave, FoldBounds, FoldCosts, Filled, Copied, MovedTo, WindowLow, WindowHigh, HalfSpan;
    RolledAlike(s, t, c, d);
    WindowAlike(Recentred(s, c).combined, Recentred(t, d).combined, Accumulated(c));
  }

  lemma RolledAlike(s: State, t: State, c: Cycle, d: Cycle)
    requires AgreeForPlugins(s, t) && SameButFilters(c, d)
    ensures Recentred(s, c).primary == Recentred(t, d).primary
    ensures SameGeometry(Recentred(s, c).combined, Recentred(t, d).combined)
  {
    hide Truncate, Metres, HalfSpan;
  }

  lemma WindowAlike(m: Costmap, n: Costmap, b: Bounds)
    requires m.resolution > 0.0 && SameGeometry(m, n)
    ensures WindowOf(m, b) == WindowOf(n, b)
  {
    hide WindowLow, WindowHigh;
  }

  // The same event but for what filters write.
  ghost predicate AlikeButFilters(e: Event, f: Event) {
    match e
    case Update(c) => f.Update? && SameButFilters(c, f.cycle)
    case Resize(g) => e == f
  }

  lemma FilterEvent(s: State, t: State, e: Event, f: Event)
    requires AgreeForPlugins(s, t) && ValidEvent(e) && ValidEvent(f) && AlikeButFilters(e, f)
    ensures AgreeForPlugins(Advance(s, e), Advance(t, f))
  {
    hide ValidMap, Next, ValidCycle, SameButFilters, Resized;
    match e
    case Update(c) => FilterStep(s, t, c, f.cycle);
    case Resize(g) =>
      ResizeKeepsState(s, g);
      ResizeKeepsState(t, g);
  }

  ghost predicate IsRun(states: seq<State>, events: seq<Event>) {
    && |states| == |events| + 1 && ValidState(states[0])
    && forall k :: 0 <= k < |events| ==>
         ValidEvent(events[k]) && states[k].primary.resolution > 0.0 && states[k].combined.resolution > 0.0
         && states[k + 1] == Advance(states[k], events[k])
  }

  // Over whole runs the primary map, which is all that plugins ever see while filters are
  // installed, does not depend on what filters write; identity filters give the same.
  lemma {:induction false} FilterIsolation(states: seq<State>, events: seq<Event>, others: seq<State>, alt: seq<Event>, k: nat)
    requires IsRun(states, events) && IsRun(others, alt) && |events| == |alt| && k < |states|
    requires AgreeForPlugins(states[0], others[0])
    requires forall j :: 0 <= j < |events| ==> AlikeButFilters(events[j], alt[j])
    ensures AgreeForPlugins(states[k], others[k])
  {
    hide AgreeForPlugins, AlikeButFilters, Advance, ValidEvent;
    if k > 0 {
      FilterIsolation(states, events, others, alt, k - 1);
      FilterEvent(states[k - 1], others[k - 1], events[k - 1], alt[k - 1]);
    }
  }

  // The combined map after a cycle with filters: the filters folded over a map that agrees
  // with the primary inside the window and with the previous combined map outside.
  lemma CombinedIsFiltered(s: State, c: Cycle, r: Rect, base: Costmap)
    requires ValidState(s) && ValidCycle(c) && Fits(s.combined, r) && c.filters != []
    requires base == Copied(s.combined, Written(s, c, r).primary, r, r.x0, r.y0)
    ensures Written(s, c, r).combined == FoldCosts(c.filters, base, r)
    ensures forall d :: d in s.combined.cells ==>
      d in base.cells && d in Written(s, c, r).primary.cells
      && base.cells[d] == if Inside(r, d) then Written(s, c, r).primary.cells[d] else s.combined.cells[d]
  {
    WrittenOk(s, c, r);
    hide FoldCosts, Filled, Behaves, AllBehave;
    CopyInPlace(s.combined, Written(s, c, r).primary, r);
  }

  // ---------- The window is rebuilt from scratch ----------

  // s and t differ at most inside r, in the maps that the cycle resets there.
  ghost predicate DifferInside(s: State, t: State, c: Cycle, r: Rect) {
    && WroteInside(s.combined, t.combined, r)
    && (if c.filters == [] then s.primary == t.primary else WroteInside(s.primary, t.primary, r))
  }

  lemma FilledForgets(m: Costmap, n: Costmap, r: Rect, value: Cost)
    requires WroteInside(m, n, r)
    ensures Filled(m, r, value) == Filled(n, r, value)
  {
    assert Filled(m, r, value).cells == Filled(n, r, value).cells;
  }

  lemma CopiedForgets(m: Costmap, n: Costmap, src: Costmap, r: Rect)
    requires WroteInside(m, n, r) && ValidMap(m) && ValidMap(src) && SameGeometry(m, src) && Fits(m, r)
    ensures Copied(m, src, r, r.x0, r.y0) == Copied(n, src, r, r.x0, r.y0)
  {
    hide ValidMap;
    WroteKeepsMap(m, n, r);
    WroteGeometry(m, n, r);
    CopyInPlace(m, src, r);
    CopyInPlace(n, src, r);
    var a, b := Copied(m, src, r, r.x0, r.y0), Copied(n, src, r, r.x0, r.y0);
    forall d | d in a.cells
      ensures d in b.cells && a.cells[d] == b.cells[d]
    {
      assert d in m.cells && d in n.cells;
    }
    assert a.cells.Keys == b.cells.Keys;
  }

  // Whatever the window held before, the cycle leaves the same maps.
  lemma WindowRebuilt(s: State, t: State, c: Cycle, r: Rect)
    requires ValidState(s) && ValidState(t) && ValidCycle(c) && Fits(s.combined, r) && DifferInside(s, t, c, r)
    ensures Written(s, c, r).primary == Written(t, c, r).primary
    ensures Written(s, c, r).combined == Written(t, c, r).combined
  {
    hide FoldCosts, Filled, Copied, WroteInside, ValidMap, Behaves, AllBehave;
    SameDefault(s.combined, t.combined, r);
    if c.filters == [] {
      FilledForgets(s.combined, t.combined, r, s.combined.defaultValue);
    } else {
      SameDefault(s.primary, t.primary, r);
      FilledForgets(s.primary, t.primary, r, s.primary.defaultValue);
      WrittenOk(s, c, r);
      WroteGeometry(s.primary, Written(s, c, r).primary, r);
      CopiedForgets(s.combined, t.combined, Written(s, c, r).primary, r);
    }
  }

  lemma SameDefault(m: Costmap, n: Costmap, r: Rect)
    requires WroteInside(m, n, r)
    ensures m.defaultValue == n.defaultValue
  {
  }

  // A cycle that writes ends in the same state from any two states that, after the shift,
  // differ only inside its window: nothing old survives there.
  lemma NextForgets(s: State, t: State, c: Cycle)
    requires ValidState(s) && ValidState(t) && ValidCycle(c) && Writes(s, c)
    requires DifferInside(Recentred(s, c), Recentred(t, c), c, WindowOf(Recentred(s, c).combined, Accumulated(c)))
    ensures Next(s, c) == Next(t, c)
  {
    hide ValidMap, Behaves, AllBehave, FoldBounds, FoldCosts, Filled, Copied, MovedTo, WindowLow, WindowHigh, HalfSpan, WroteInside, Written;
    RolledTogether(s, c);
    RolledTogether(t, c);
    ResolutionOf(s.primary);
    ResolutionOf(s.combined);
    ResolutionOf(t.primary);
    ResolutionOf(t.combined);
    var a, b, r := Recentred(s, c), Recentred(t, c), WindowOf(Recentred(s, c).combined, Accumulated(c));
    ResolutionOf(a.combined);
    WroteGeometry(a.combined, b.combined, r);
    WindowAlike(a.combined, b.combined, Accumulated(c));
    WindowInMap(a.combined, Accumulated(c), MapRegion.WorldPoint(0.0, 0.0));
    WindowRebuilt(a, b, c, r);
    WrittenWindow(a, c, r);
    WrittenWindow(b, c, r);
  }

  lemma WrittenWindow(s: State, c: Cycle, r: Rect)
    ensures Written(s, c, r).(window := r, initialized := true) ==
      State(Written(s, c, r).primary, Written(s, c, r).combined, r, true)
  {
  }

  // Over whole runs: from the first such cycle on, the two runs are one.
  lemma {:induction false} RunsForget(states: seq<State>, others: seq<State>, events: seq<Event>, k: nat)
    requires IsRun(states, events) && IsRun(others, events) && 0 < k < |states| && events[0].Update?
    requires Writes(states[0], events[0].cycle)
    requires var c := events[0].cycle;
      DifferInside(Recentred(states[0], c), Recentred(others[0], c), c, WindowOf(Recentred(states[0], c).combined, Accumulated(c)))
    ensures states[k] == others[k]
  {
    hide ValidState, Next, Writes, DifferInside, Recentred, WindowOf, ValidCycle;
    if k == 1 {
      NextForgets(states[0], others[0], events[0].cycle);
      assert ValidEvent(events[0]);
    } else {
      RunsForget(states, others, events, k - 1);
    }
  }

  // Layers that write no costs.
  ghost predicate AllIdle(ls: seq<Layer>) {
    forall k, m, r {:trigger ls[k].costs(m, r)} :: 0 <= k < |ls| ==> ls[k].costs(m, r) == m
  }

  lemma {:induction false} FoldIdle(ls: seq<Layer>, m: Costmap, r: Rect)
    requires AllIdle(ls)
    ensures FoldCosts(ls, m, r) == m
    decreases |ls|
  {
    if ls != [] {
      var init := ls[..|ls| - 1];
      assert forall k :: 0 <= k < |init| ==> init[k] == ls[k];
      FoldIdle(init, m, r);
    }
  }

  // If no layer writes, the window of the combined map is back at the default: a cleared
  // obstacle does not stay.
  lemma IdleWindowIsCleared(s: State, c: Cycle, r: Rect, d: Cell)
    requires ValidState(s) && ValidCycle(c) && Fits(s.combined, r) && AllIdle(c.plugins) && AllIdle(c.filters)
    requires d in s.combined.cells && Inside(r, d)
    ensures d in Written(s, c, r).combined.cells
    ensures Written(s, c, r).combined.cells[d] == (if c.filters == [] then s.combined else s.primary).defaultValue
  {
    hide Copied, Behaves, AllBehave, FoldCosts, AllIdle;
    if c.filters == [] {
      FoldIdle(c.plugins, Filled(s.combined, r, s.combined.defaultValue), r);
    } else {
      var filled := Filled(s.primary, r, s.primary.defaultValue);
      FoldIdle(c.plugins, filled, r);
      FilledInside(s.primary, r, s.primary.defaultValue);
      WroteKeepsMap(s.primary, filled, r);
      CopyInPlace(s.combined, filled, r);
      FoldIdle(c.filters, Copied(s.combined, filled, r, r.x0, r.y0), r);
    }
  }

  // Layers are applied in their order: the last one has the last word.
  lemma LastLayerDecides(ls: seq<Layer>, m: Costmap, r: Rect, value: Cost, d: Cell)
    requires |ls| > 0 && AllBehave(ls) && (forall n, q {:trigger ls[|ls| - 1].costs(n, q)} :: ls[|ls| - 1].costs(n, q) == Filled(n, q, value))
    requires d in m.cells && Inside(r, d)
    ensures d in FoldCosts(ls, m, r).cells && FoldCosts(ls, m, r).cells[d] == value
  {
    hide Behaves;
    FoldWritesInside(ls[..|ls| - 1], m, r);
  }

  ghost predicate Paints(l: Layer, value: Cost) {
    forall n, q {:trigger l.costs(n, q)} :: l.costs(n, q) == Filled(n, q, value)
  }

  // Without filters what plugins write arrives in the combined map.
  lemma PluginWritesArrive(s: State, c: Cycle, r: Rect, value: Cost, d: Cell)
    requires c.filters == [] && AllBehave(c.plugins) && d in s.combined.cells && Inside(r, d)
    requires |c.plugins| > 0 && Paints(c.plugins[|c.plugins| - 1], value)
    ensures d in Written(s, c, r).combined.cells && Written(s, c, r).combined.cells[d] == value
  {
    hide Behaves, AllBehave, FoldCosts, Paints;
    PaintedLast(c.plugins, Filled(s.combined, r, s.combined.defaultValue), r, value, d);
  }

  // With filters it arrives in the primary map, and from there in the combined map unless a
  // filter writes over it.
  lemma FilteredWritesArrive(s: State, c: Cycle, r: Rect, value: Cost, d: Cell)
    requires ValidState(s) && ValidCycle(c) && Fits(s.combined, r) && c.filters != [] && d in s.combined.cells && Inside(r, d)
    requires |c.plugins| > 0 && Paints(c.plugins[|c.plugins| - 1], value)
    ensures d in Written(s, c, r).primary.cells && Written(s, c, r).primary.cells[d] == value
    ensures AllIdle(c.filters) ==> d in Written(s, c, r).combined.cells && Written(s, c, r).combined.cells[d] == value
  {
    hide Behaves, AllBehave, FoldCosts, Paints, AllIdle, Copied, WroteInside;
    WrittenOk(s, c, r);
    assert InMap(s.primary, d);
    PaintedLast(c.plugins, Filled(s.primary, r, s.primary.defaultValue), r, value, d);
    if AllIdle(c.filters) {
      var primary := Written(s, c, r).primary;
      WroteGeometry(s.primary, primary, r);
      CopyInPlace(s.combined, primary, r);
      FoldIdle(c.filters, Copied(s.combined, primary, r, r.x0, r.y0), r);
    }
  }

  // What filters write arrives in the combined map.
  lemma FilterWritesArrive(s: State, c: Cycle, r: Rect, value: Cost, d: Cell)
    requires AllBehave(c.filters) && d in s.combined.cells && Inside(r, d)
    requires |c.filters| > 0 && Paints(c.filters[|c.filters| - 1], value)
    ensures d in Written(s, c, r).combined.cells && Written(s, c, r).combined.cells[d] == value
  {
    hide Behaves, AllBehave, FoldCosts, Paints;
    PaintedLast(c.filters, Copied(s.combined, Written(s, c, r).primary, r, r.x0, r.y0), r, value, d);
  }

  lemma PaintedLast(ls: seq<Layer>, m: Costmap, r: Rect, value: Cost, d: Cell)
    requires |ls| > 0 && AllBehave(ls) && Paints(ls[|ls| - 1], value) && d in m.cells && Inside(r, d)
    ensures d in FoldCosts(ls, m, r).cells && FoldCosts(ls, m, r).cells[d] == value
  {
    LastLayerDecides(ls, m, r, value, d);
  }

  // ---------- Bounds ----------

  predicate Covers(b: Bounds, a: Bounds) {
    b.minX <= a.minX && b.minY <= a.minY && b.maxX >= a.maxX && b.maxY >= a.maxY
  }

  // No layer makes the bounds smaller (updateMap only warns about those that do).
  ghost predicate AllWiden(ls: seq<Layer>) {
    forall k, b {:trigger ls[k].bounds(b)} :: 0 <= k < |ls| ==> Covers(ls[k].bounds(b), b)
  }

  lemma {:induction false} FoldWidens(ls: seq<Layer>, b: Bounds, k: nat)
    requires AllWiden(ls) && k <= |ls|
    ensures Covers(FoldBounds(ls, b), FoldBounds(ls[..k], b))
    decreases |ls|
  {
    if k == |ls| {
      assert ls[..k] == ls;
    } else {
      var init := ls[..|ls| - 1];
      assert forall j :: 0 <= j < |init| ==> init[j] == ls[j];
      assert init[..k] == ls[..k];
      FoldWidens(init, b, k);
    }
  }

  // The window holds everything a plugin asked for: every in-map point of the bounds as
  // plugin k left them, whatever came after.
  lemma AskedIsWritten(s: State, c: Cycle, k: nat, p: MapRegion.WorldPoint)
    requires ValidState(s) && k < |c.plugins| && AllWiden(c.plugins) && AllWiden(c.filters)
    requires var asked := FoldBounds(c.plugins[..k + 1], Bounds(c.extreme, c.extreme, -c.extreme, -c.extreme));
      asked.minX <= p.x <= asked.maxX && asked.minY <= p.y <= asked.maxY
    requires MapRegion.ToMap(Recentred(s, c).combined, p).Some?
    ensures Writes(s, c)
    ensures Inside(Next(s, c).window, MapRegion.ToMap(Recentred(s, c).combined, p).value)
  {
    hide ValidMap, FoldBounds, WindowOf, MapRegion.ToMap, Written, MovedTo, HalfSpan;
    var init := Bounds(c.extreme, c.extreme, -c.extreme, -c.extreme);
    FoldWidens(c.plugins, init, k + 1);
    FoldWidens(c.filters, FoldBounds(c.plugins, init), 0);
    assert c.filters[..0] == [];
    NoLayers(FoldBounds(c.plugins, init));
    var m := Recentred(s, c).combined;
    WindowInMap(m, Accumulated(c), p);
  }

  // The same for what filter k asked for.
  lemma FilterAskedIsWritten(s: State, c: Cycle, k: nat, p: MapRegion.WorldPoint)
    requires ValidState(s) && k < |c.filters| && AllWiden(c.filters)
    requires var asked := FoldBounds(c.filters[..k + 1], FoldBounds(c.plugins, Bounds(c.extreme, c.extreme, -c.extreme, -c.extreme)));
      asked.minX <= p.x <= asked.maxX && asked.minY <= p.y <= asked.maxY
    requires MapRegion.ToMap(Recentred(s, c).combined, p).Some?
    ensures Writes(s, c)
    ensures Inside(Next(s, c).window, MapRegion.ToMap(Recentred(s, c).combined, p).value)
  {
    hide ValidMap, FoldBounds, WindowOf, MapRegion.ToMap, Written, MovedTo, HalfSpan;
    FoldWidens(c.filters, FoldBounds(c.plugins, Bounds(c.extreme, c.extreme, -c.extreme, -c.extreme)), k + 1);
    WindowInMap(Recentred(s, c).combined, Accumulated(c), p);
  }

  lemma NoLayers(b: Bounds)
    ensures FoldBounds([], b) == b
  {
  }

  ghost predicate AllQuiet(ls: seq<Layer>) {
    forall k, b {:trigger ls[k].bounds(b)} :: 0 <= k < |ls| ==> ls[k].bounds(b) == b
  }

  lemma {:induction false} FoldQuiet(ls: seq<Layer>, b: Bounds)
    requires AllQuiet(ls)
    ensures FoldBounds(ls, b) == b
    decreases |ls|
  {
    if ls != [] {
      var init := ls[..|ls| - 1];
      assert forall k :: 0 <= k < |init| ==> init[k] == ls[k];
      FoldQuiet(init, b);
    }
  }

  // If no layer asks for anything, nothing is written (on maps of at least 3 cells one way).
  lemma NobodyAsks(s: State, c: Cycle)
    requires ValidState(s) && AllQuiet(c.plugins) && AllQuiet(c.filters)
    requires s.combined.width > 0 && s.combined.height > 0 && (s.combined.width >= 3 || s.combined.height >= 3)
    requires var m := Recentred(s, c).combined;
      && c.extreme > Top(MapRegion.AxisX(m)) && c.extreme > Top(MapRegion.AxisY(m))
      && -c.extreme < m.originX && -c.extreme < m.originY
    ensures !Writes(s, c)
  {
    hide ValidMap, FoldBounds, WindowLow, WindowHigh, HalfSpan;
    ResolutionOf(s.primary);
    ResolutionOf(s.combined);
    var m := Recentred(s, c).combined;
    FoldQuiet(c.plugins, Bounds(c.extreme, c.extreme, -c.extreme, -c.extreme));
    FoldQuiet(c.filters, Bounds(c.extreme, c.extreme, -c.extreme, -c.extreme));
    UntouchedBounds(MapRegion.AxisX(m), c.extreme, -c.extreme);
    UntouchedBounds(MapRegion.AxisY(m), c.extreme, -c.extreme);
  }

  // ---------- The class ----------

  class LayeredCostmap {
    var primary: Costmap
    var combined: Costmap
    const rollingWindow: bool
    var minX: real
    var minY: real
    var maxX: real
    var maxY: real
    var bx0: int
    var by0: int
    var bxn: int
    var byn: int
    var initialized: bool

    ghost function Value(): State
      reads this
    {
      State(primary, combined, Rect(bx0, by0, bxn, byn), initialized)
    }

    ghost predicate Valid()
      reads this
    {
      ValidState(Value())
    }

    // The maps as resizeMap leaves them: one geometry, every cell at the default.
    constructor (rolling: bool, blank: Costmap)
      requires ValidMap(blank)
      ensures Valid() && rollingWindow == rolling && primary == combined == blank && !initialized
    {
      rollingWindow, primary, combined, initialized := rolling, blank, blank, false;
      minX, minY, maxX, maxY := 0.0, 0.0, 0.0, 0.0;
      bx0, bxn, by0, byn := 0, 0, 0, 0;
    }

    // resizeMap; the recorded window and bounds stay.
    method ResizeMap(g: Geometry)
      requires g.resolution > 0.0
      modifies this`primary, this`combined
      ensures Valid() && Value() == ResizedTo(old(Value()), g)
    {
      ResizeKeepsState(Value(), g);
      primary := Resized(primary, g);
      combined := Resized(combined, g);
    }

    // The two updateBounds loops.
    method AccumulateBounds(layers: seq<Layer>)
      modifies this`minX, this`minY, this`maxX, this`maxY
      ensures Bounds(minX, minY, maxX, maxY) == FoldBounds(layers, old(Bounds(minX, minY, maxX, maxY)))
    {
      ghost var start := Bounds(minX, minY, maxX, maxY);
      for i := 0 to |layers|
        invariant Bounds(minX, minY, maxX, maxY) == FoldBounds(layers[..i], start)
      {
        var b := layers[i].bounds(Bounds(minX, minY, maxX, maxY));
        assert layers[..i + 1][..i] == layers[..i];
        minX, minY, maxX, maxY := b.minX, b.minY, b.maxX, b.maxY;
      }
      assert layers[..|layers|] == layers;
    }

    // An updateCosts loop over one map.
    method ApplyCosts(layers: seq<Layer>, m: Costmap, r: Rect) returns (n: Costmap)
      ensures n == FoldCosts(layers, m, r)
    {
      n := m;
      for i := 0 to |layers|
        invariant n == FoldCosts(layers[..i], m, r)
      {
        assert layers[..i + 1][..i] == layers[..i];
        n := layers[i].costs(n, r);
      }
      assert layers[..|layers|] == layers;
    }

    // updateMap. threw reports the exception "Can not copy costmap"; it is never raised.
    method UpdateMap(c: Cycle) returns (threw: bool)
      requires Valid() && ValidCycle(c) && c.rolling == rollingWindow
      modifies this
      ensures !threw && Valid() && Value() == Next(old(Value()), c)
    {
      hide ValidMap, Behaves, AllBehave, FoldBounds, FoldCosts, Filled, Copied, MovedTo, WindowLow, WindowHigh, HalfSpan;
      ghost var s := Value();
      ResolutionOf(primary);
      ResolutionOf(combined);
      NextKeepsState(s, c);
      RolledTogether(s, c);
      threw := false;
      if rollingWindow {
        var to := NewOrigin(combined, c.robot);
        primary := MovedTo(primary, to);
        combined := MovedTo(combined, to);
      }
      ghost var t := Recentred(s, c);
      if |c.plugins| == 0 && |c.filters| == 0 {
        return;
      }
      minX, minY, maxX, maxY := c.extreme, c.extreme, -c.extreme, -c.extreme;
      AccumulateBounds(c.plugins);
      AccumulateBounds(c.filters);
      ResolutionOf(combined);
      var r := WindowOf(combined, Bounds(minX, minY, maxX, maxY));
      if r.xn < r.x0 || r.yn < r.y0 {
        return;
      }
      WindowInMap(t.combined, Accumulated(c), MapRegion.WorldPoint(0.0, 0.0));
      WrittenOk(t, c, r);
      if |c.filters| == 0 {
        combined := Filled(combined, r, combined.defaultValue);
        combined := ApplyCosts(c.plugins, combined, r);
      } else {
        primary := Filled(primary, r, primary.defaultValue);
        primary := ApplyCosts(c.plugins, primary, r);
        if !CopyFits(combined, primary, r, r.x0, r.y0) {
          return true;
        }
        combined := Copied(combined, primary, r, r.x0, r.y0);
        combined := ApplyCosts(c.filters, combined, r);
      }
      bx0, bxn, by0, byn := r.x0, r.xn, r.y0, r.yn;
      initialized := true;
    }
  }
}
