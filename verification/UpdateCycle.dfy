// mapUpdateLoop of Costmap2DROS: every turn updates the layered costmap, reports the window
// to the publisher and publishes when due. A run of it is a run of the replication protocol.
module UpdateCycle {
  import opened Wrappers
  import opened Lattice
  import opened RowMajor
  import opened GridCells
  import opened GridPatch
  import opened CostmapValue
  import L = LayeredCostmaps
  import P = CostmapProtocol
  import T = CostmapTopics
  import K = GridKernel

  // bx0_.. are unsigned.
  function Unsigned(n: int): nat {
    if n < 0 then 0 else n
  }

  function WindowBox(r: Rect): Box {
    Box(Unsigned(r.x0), Unsigned(r.xn), Unsigned(r.y0), Unsigned(r.yn))
  }

  // ---------- The combined map as the publisher sees it ----------

  // data is m's cost array.
  ghost predicate IsDataOf(data: seq<Cost>, m: Costmap) {
    |data| == RowStart(m.width, m.height) && m.cells == CellsOf(data, m.width, m.height)
  }

  ghost function DataOf(m: Costmap): (data: seq<Cost>)
    requires ValidMap(m)
    ensures IsDataOf(data, m)
  {
    var data := RawData(m);
    RawDataIs(m);
    data
  }

  function RawData(m: Costmap): (data: seq<Cost>)
    requires ValidMap(m)
    ensures |data| == RowStart(m.width, m.height)
  {
    seq(RowStart(m.width, m.height), i requires 0 <= i < RowStart(m.width, m.height) =>
      assert InMap(m, CellAt(m.width, m.height, i)); m.cells[CellAt(m.width, m.height, i)])
  }

  lemma RawDataIs(m: Costmap)
    requires ValidMap(m)
    ensures m.cells == CellsOf(RawData(m), m.width, m.height)
  {
    hide RowStart;
    var w, h, cells := m.width, m.height, CellsOf(RawData(m), m.width, m.height);
    forall c
      ensures c in m.cells <==> c in cells
      ensures c in m.cells ==> m.cells[c] == cells[c]
    {
      InGridSet(w, h, c);
      if c in m.cells {
        IndexInRange(w, h, c.x, c.y);
        var d := CellAt(w, h, Index(w, c.x, c.y));
        IndexInjective(w, c.x, c.y, d.x, d.y);
        assert d == c;
      }
    }
    assert m.cells.Keys == cells.Keys;
  }

  ghost function MapGrid(m: Costmap): (g: P.Grid)
    requires ValidMap(m)
    ensures P.WellFormed(g) && g.geom == GeometryOf(m)
  {
    P.Grid(GeometryOf(m), DataOf(m))
  }

  // What the publisher sends of a costmap object is the grid of its value.
  lemma PublishedGrid(costmap: K.Costmap2D)
    requires costmap.Valid()
    ensures ValidMap(costmap.Value()) && T.GridOf(costmap) == MapGrid(costmap.Value())
  {
    hide RowStart, CostAt, DataOf;
    var m, w, h := costmap.Value(), costmap.sizeX, costmap.sizeY;
    forall c
      ensures c in m.cells <==> InMap(m, c)
    {
      InGridSet(w, h, c);
    }
    var data := costmap.costmap[..];
    assert IsDataOf(DataOf(m), m) && IsDataOf(data, m);
    forall x, y | 0 <= x < w && 0 <= y < h
      ensures CostAt(data, w, h, Cell(x, y)) == CostAt(DataOf(m), w, h, Cell(x, y))
    {
      InGridSet(w, h, Cell(x, y));
      assert m.cells[Cell(x, y)] == CostAt(data, w, h, Cell(x, y));
      DataAt(m, Cell(x, y));
    }
    SameEverywhere(data, DataOf(m), w, h);
  }

  lemma DataAt(m: Costmap, c: Cell)
    requires ValidMap(m) && InMap(m, c)
    ensures CostAt(DataOf(m), m.width, m.height, c) == m.cells[c]
  {
    hide RowStart, CostAt, DataOf;
    InGridSet(m.width, m.height, c);
    assert IsDataOf(DataOf(m), m);
  }

  lemma WroteInsideData(m: Costmap, n: Costmap, r: Rect)
    requires ValidMap(m) && ValidMap(n) && L.WroteInside(m, n, r)
    ensures SameOutside(DataOf(m), DataOf(n), m.width, m.height, WindowBox(r))
  {
    hide RowStart, CostAt, DataOf;
    assert IsDataOf(DataOf(m), m) && IsDataOf(DataOf(n), n);
    forall x, y | 0 <= x < m.width && 0 <= y < m.height && !InBox(WindowBox(r), x, y)
      ensures CostAt(DataOf(m), m.width, m.height, Cell(x, y)) == CostAt(DataOf(n), m.width, m.height, Cell(x, y))
    {
      assert InMap(m, Cell(x, y)) && !Inside(r, Cell(x, y));
      DataAt(m, Cell(x, y));
      DataAt(n, Cell(x, y));
    }
  }

  // ---------- The loop ----------

  datatype Loop = Loop(state: L.State, sys: P.System)

  // A turn of mapUpdateLoop: pose is missing if getRobotPose fails or updates are stopped;
  // due says that publish_cycle_ has passed. A resize by parameter updates the map once,
  // without a report. Messages arrive and are read at any time.
  datatype Turn =
    | Tick(pose: Option<L.Cycle>, due: bool)
    | Resize(geometry: Geometry, pose: Option<L.Cycle>)
    | Deliver
    | Get

  predicate Ordered(r: Rect) {
    0 <= r.x0 <= r.xn && 0 <= r.y0 <= r.yn
  }

  // The publisher looks at the combined map.
  ghost predicate Linked(l: Loop) {
    L.ValidState(l.state) && P.Inv(l.sys) && l.sys.pub.grid == MapGrid(l.state.combined) && Ordered(l.state.window)
  }

  ghost predicate ValidPose(pose: Option<L.Cycle>) {
    pose.Some? ==> L.ValidCycle(pose.value)
  }

  ghost function Updated(s: L.State, pose: Option<L.Cycle>): (t: L.State)
    requires L.ValidState(s) && ValidPose(pose)
    ensures L.ValidState(t)
  {
    if pose.None? then s
    else
      L.NextKeepsState(s, pose.value);
      L.Next(s, pose.value)
  }

  // The system with the combined map of t in place.
  ghost function Exposed(l: Loop, t: L.State): P.System
    requires L.ValidState(t)
  {
    l.sys.(pub := l.sys.pub.(grid := MapGrid(t.combined)),
           moved := l.sys.moved || GeometryOf(t.combined) != GeometryOf(l.state.combined))
  }

  // updateMap, then updateBounds with whatever window is recorded.
  ghost function Told(l: Loop, t: L.State): P.System
    requires L.ValidState(t)
  {
    if t.initialized then P.Reported(Exposed(l, t), WindowBox(t.window)) else Exposed(l, t)
  }

  // What a turn needs: a publish that is due is safe.
  ghost predicate TurnOk(l: Loop, turn: Turn)
    requires L.ValidState(l.state)
  {
    match turn
    case Tick(pose, due) =>
      && ValidPose(pose)
      && var t := Updated(l.state, pose);
         t.initialized && due ==> P.PublishSafe(Told(l, t))
    case Resize(g, pose) => g.resolution > 0.0 && ValidPose(pose)
    case Deliver => l.sys.channel != []
    case Get => l.sys.sub.map_.Some?
  }

  ghost function After(l: Loop, turn: Turn): Loop
    requires Linked(l) && TurnOk(l, turn)
  {
    match turn
    case Tick(pose, due) =>
      var t := Updated(l.state, pose);
      Loop(t, if t.initialized && due then P.Published(Told(l, t)) else Told(l, t))
    case Resize(g, pose) =>
      L.ResizeKeepsState(l.state, g);
      var t := Updated(L.ResizedTo(l.state, g), pose);
      Loop(t, l.sys.(pub := l.sys.pub.(grid := MapGrid(t.combined)), moved := true))
    case Deliver =>
      P.InvIsValid(l.sys);
      l.(sys := P.Next(l.sys, P.Deliver))
    case Get =>
      P.InvIsValid(l.sys);
      l.(sys := P.Next(l.sys, P.Get))
  }

  // ---------- Turns are steps of the protocol ----------

  // The shift of the origin.
  lemma ShiftReaches(l: Loop, c: L.Cycle)
    requires Linked(l)
    ensures L.ValidState(L.Recentred(l.state, c))
    ensures P.Reaches(l.sys, Exposed(l, L.Recentred(l.state, c)))
  {
    hide P.Inv, P.Reaches, L.Recentred, ValidMap, MapGrid;
    L.RolledTogether(l.state, c);
    var t := L.Recentred(l.state, c);
    P.InvIsValid(l.sys);
    if GeometryOf(t.combined) == GeometryOf(l.state.combined) {
      L.StandsStill(l.state, c);
      P.ReachesSelf(l.sys);
    } else {
      P.ReachesStep(l.sys, P.Reshape(MapGrid(t.combined)));
    }
  }

  // A cycle that writes costs is an enabled write of the window it then reports.
  lemma CycleIsWrite(l: Loop, c: L.Cycle)
    requires Linked(l) && L.ValidCycle(c) && L.Writes(l.state, c)
    ensures var t, n := L.Recentred(l.state, c), L.Next(l.state, c);
      && L.ValidState(t) && L.ValidState(n) && P.ValidSystem(Exposed(l, t))
      && P.Enabled(Exposed(l, t), P.Write(WindowBox(n.window), DataOf(n.combined)))
      && P.Next(Exposed(l, t), P.Write(WindowBox(n.window), DataOf(n.combined))) == Told(l, n)
  {
    hide P.Inv, L.Recentred, L.Next, L.Writes, ValidMap, DataOf, SameOutside, L.WroteInside;
    ShiftReaches(l, c);
    var t, n := L.Recentred(l.state, c), L.Next(l.state, c);
    P.ReachesKeepsInv(l.sys, Exposed(l, t));
    P.InvIsValid(Exposed(l, t));
    L.NextKeepsState(l.state, c);
    L.CycleWritesWindow(l.state, c);
    L.WroteGeometry(t.combined, n.combined, n.window);
    WroteInsideData(t.combined, n.combined, n.window);
  }

  lemma UpdateReaches(l: Loop, pose: Option<L.Cycle>)
    requires Linked(l) && ValidPose(pose)
    ensures var t := Updated(l.state, pose);
      P.Reaches(l.sys, Told(l, t)) && Ordered(t.window)
  {
    hide P.Inv, P.Reaches, L.Recentred, L.Next, L.Writes, ValidMap, DataOf, MapGrid, P.Next, P.Enabled, P.ValidSystem;
    var t := Updated(l.state, pose);
    if pose.None? {
      P.ReachesSelf(l.sys);
      ReportReaches(l, t);
    } else if L.Writes(l.state, pose.value) {
      var c := pose.value;
      ShiftReaches(l, c);
      CycleIsWrite(l, c);
      L.CycleWritesWindow(l.state, c);
      var mid := Exposed(l, L.Recentred(l.state, c));
      P.ReachesStep(mid, P.Write(WindowBox(t.window), DataOf(t.combined)));
      P.ReachesOn(l.sys, mid, Told(l, t));
    } else {
      ShiftReaches(l, pose.value);
      L.CycleOnlyMoves(l.state, pose.value);
      ReportReaches(l, t);
    }
  }

  lemma ReportReaches(l: Loop, t: L.State)
    requires L.ValidState(t) && P.Inv(l.sys) && P.Reaches(l.sys, Exposed(l, t))
    ensures P.Reaches(l.sys, Told(l, t))
  {
    hide P.Inv, P.Reaches, ValidMap, MapGrid, P.Union;
    var mid := Exposed(l, t);
    if t.initialized {
      P.ReachesKeepsInv(l.sys, mid);
      P.InvIsValid(mid);
      P.ReachesStep(mid, P.Report(WindowBox(t.window)));
      P.ReachesOn(l.sys, mid, Told(l, t));
    }
  }

  lemma PublishReaches(s: P.System, t: P.System)
    requires P.Inv(s) && P.Reaches(s, t) && P.PublishSafe(t)
    ensures P.Reaches(s, P.Published(t))
  {
    hide P.Inv, P.Reaches, P.Published;
    P.ReachesKeepsInv(s, t);
    P.InvIsValid(t);
    P.ReachesStep(t, P.Publish(true));
    P.ReachesOn(s, t, P.Published(t));
  }

  lemma TickReaches(l: Loop, pose: Option<L.Cycle>, due: bool)
    requires Linked(l) && TurnOk(l, Tick(pose, due))
    ensures P.Reaches(l.sys, After(l, Tick(pose, due)).sys)
    ensures Ordered(After(l, Tick(pose, due)).state.window)
    ensures After(l, Tick(pose, due)).sys.pub.grid == MapGrid(Updated(l.state, pose).combined)
  {
    hide P.Inv, P.Reaches, ValidMap, MapGrid, P.PublishSafe, P.Outgoing, Updated;
    UpdateReaches(l, pose);
    var t := Updated(l.state, pose);
    if t.initialized && due {
      PublishReaches(l.sys, Told(l, t));
    }
  }

  lemma ResizeReaches(l: Loop, g: Geometry, pose: Option<L.Cycle>)
    requires Linked(l) && TurnOk(l, Resize(g, pose))
    ensures P.Reaches(l.sys, After(l, Resize(g, pose)).sys)
    ensures Ordered(After(l, Resize(g, pose)).state.window)
  {
    hide P.Inv, P.Reaches, ValidMap, MapGrid, Resized, L.Next, L.Recentred, L.Writes;
    L.ResizeKeepsState(l.state, g);
    var s := L.ResizedTo(l.state, g);
    var t := Updated(s, pose);
    P.InvIsValid(l.sys);
    P.ReachesStep(l.sys, P.Reshape(MapGrid(t.combined)));
    L.ResolutionOf(s.primary);
    L.ResolutionOf(s.combined);
    if pose.Some? && L.Writes(s, pose.value) {
      L.CycleWritesWindow(s, pose.value);
    } else if pose.Some? {
      L.CycleOnlyMoves(s, pose.value);
    }
  }

  // Every turn is a run of the protocol and keeps publisher and map linked.
  lemma TurnReaches(l: Loop, turn: Turn)
    requires Linked(l) && TurnOk(l, turn)
    ensures P.Reaches(l.sys, After(l, turn).sys)
    ensures Linked(After(l, turn))
  {
    hide P.Inv, P.Reaches, ValidMap, MapGrid, P.Next, P.Published, Told, Updated, Ordered;
    match turn
    case Tick(pose, due) =>
      TickReaches(l, pose, due);
      P.ReachesKeepsInv(l.sys, After(l, turn).sys);
    case Resize(g, pose) =>
      ResizeReaches(l, g, pose);
      P.ReachesKeepsInv(l.sys, After(l, turn).sys);
    case Deliver =>
      SubscriberTurn(l, P.Deliver);
    case Get =>
      SubscriberTurn(l, P.Get);
  }

  lemma SubscriberTurn(l: Loop, step: P.Step)
    requires P.Inv(l.sys) && (step.Deliver? || step.Get?) && P.Enabled(l.sys, step)
    ensures P.ValidSystem(l.sys) && P.Reaches(l.sys, P.Next(l.sys, step)) && P.Inv(P.Next(l.sys, step))
    ensures P.Next(l.sys, step).pub == l.sys.pub
  {
    P.InvIsValid(l.sys);
    P.ReachesStep(l.sys, step);
    P.ReachesKeepsInv(l.sys, P.Next(l.sys, step));
    hide P.Inv, P.Reaches, P.Receive, P.Settle;
  }

  ghost predicate IsRun(loops: seq<Loop>, turns: seq<Turn>) {
    && |loops| == |turns| + 1
    && forall k :: 0 <= k < |turns| ==> Linked(loops[k]) && TurnOk(loops[k], turns[k]) && loops[k + 1] == After(loops[k], turns[k])
  }

  // A run of the loop is a run of the protocol.
  lemma {:induction false} RunReaches(loops: seq<Loop>, turns: seq<Turn>, k: nat)
    requires IsRun(loops, turns) && Linked(loops[0]) && k < |loops|
    ensures P.Reaches(loops[0].sys, loops[k].sys) && Linked(loops[k])
  {
    hide P.Reaches, Linked, TurnOk, After;
    if k == 0 {
      P.ReachesSelf(loops[0].sys);
    } else {
      RunReaches(loops, turns, k - 1);
      TurnReaches(loops[k - 1], turns[k - 1]);
      P.ReachesOn(loops[0].sys, loops[k - 1].sys, loops[k].sys);
    }
  }

  // End to end: whatever the layers write, however the window rolls and the map is resized,
  // once what is under way has arrived the subscriber shows the combined map as it was at
  // the last publish, and no patch on its way will be refused.
  lemma EndToEnd(loops: seq<Loop>, turns: seq<Turn>, k: nat)
    requires IsRun(loops, turns) && Linked(loops[0]) && P.Initial(loops[0].sys) && k < |loops|
    ensures var s := loops[k].sys;
      && Linked(loops[k]) && s.pub.grid == MapGrid(loops[k].state.combined)
      && P.View(P.Drain(s.sub, s.channel)) == s.published
      && P.AllWelcome(s.sub, s.channel)
      && (s.channel == [] ==> P.View(s.sub) == s.published)
  {
    hide P.Reaches, P.Drain, P.AllWelcome, P.InStep, P.View;
    RunReaches(loops, turns, k);
    P.SettledView(loops[k].sys);
  }

  // ---------- When a turn is safe ----------

  // While the recorded window fits the map it goes on fitting, and reporting it keeps the
  // dirty box inside.
  lemma FittingWindow(l: Loop, pose: Option<L.Cycle>)
    requires Linked(l) && ValidPose(pose) && Fits(l.state.combined, l.state.window)
    ensures var t := Updated(l.state, pose);
      && Fits(t.combined, t.window)
      && t.combined.width == l.state.combined.width && t.combined.height == l.state.combined.height
      && (P.DirtyOk(l.sys.pub.dirty, GeometryOf(l.state.combined)) ==> P.DirtyOk(Told(l, t).pub.dirty, GeometryOf(t.combined)))
  {
    hide P.Inv, ValidMap, DataOf, L.Next, L.Writes;
    if pose.Some? {
      L.WindowStaysInMap(l.state, pose.value);
    }
  }

  // Since the last publish the geometry has not changed; the recorded window and the dirty
  // box fit it.
  ghost predicate Steady(l: Loop) {
    && Linked(l) && Fits(l.state.combined, l.state.window)
    && P.DirtyOk(l.sys.pub.dirty, GeometryOf(l.state.combined))
    && (l.sys.published.Some? ==> !l.sys.moved && l.state.initialized)
  }

  // A turn of a map that is never resized, and that either does not roll or publishes on
  // every turn, meets every condition and leaves the same true for the next: such maps are
  // replicated without further assumptions.
  lemma SteadyTurn(l: Loop, pose: Option<L.Cycle>, due: bool)
    requires Steady(l) && ValidPose(pose) && (pose.Some? && pose.value.rolling ==> due)
    ensures TurnOk(l, Tick(pose, due))
    ensures Steady(After(l, Tick(pose, due)))
  {
    hide P.Inv, ValidMap, MapGrid, L.Next, P.Reaches, P.Union, P.InStep, After;
    var t := Updated(l.state, pose);
    FittingWindow(l, pose);
    StaysInitialized(l.state, pose);
    StaysPut(l.state, pose);
    SavedGeometry(l.sys);
    assert !(t.initialized && due && P.Returned(Told(l, t)));
    assert P.Publishable(Told(l, t).pub);
    TurnReaches(l, Tick(pose, due));
    AfterTick(l, pose, due);
  }

  lemma AfterTick(l: Loop, pose: Option<L.Cycle>, due: bool)
    requires Linked(l) && TurnOk(l, Tick(pose, due))
    ensures var t, a := Updated(l.state, pose), After(l, Tick(pose, due));
      && a.state == t
      && (t.initialized && due ==> a.sys.published.Some? && !a.sys.moved && a.sys.pub.dirty == P.Clean(GeometryOf(t.combined)))
      && (!(t.initialized && due) ==> a.sys == Told(l, t))
  {
    hide P.Inv, ValidMap, L.Next, P.Union, P.InStep, Updated, P.Outgoing;
  }

  lemma StaysInitialized(s: L.State, pose: Option<L.Cycle>)
    requires L.ValidState(s) && ValidPose(pose)
    ensures s.initialized ==> Updated(s, pose).initialized
  {
    hide ValidMap, L.Writes;
    L.ResolutionOf(s.primary);
    L.ResolutionOf(s.combined);
    if pose.Some? {
      if L.Writes(s, pose.value) {
        L.CycleWritesWindow(s, pose.value);
      } else {
        L.CycleOnlyMoves(s, pose.value);
      }
    }
  }

  // A map that does not roll keeps its geometry.
  lemma StaysPut(s: L.State, pose: Option<L.Cycle>)
    requires L.ValidState(s) && ValidPose(pose)
    ensures pose.None? || !pose.value.rolling ==> GeometryOf(Updated(s, pose).combined) == GeometryOf(s.combined)
  {
    hide ValidMap, L.Writes, L.Next, L.WroteInside;
    L.ResolutionOf(s.primary);
    L.ResolutionOf(s.combined);
    if pose.Some? && !pose.value.rolling {
      if L.Writes(s, pose.value) {
        L.CycleWritesWindow(s, pose.value);
        L.WroteGeometry(s.combined, L.Next(s, pose.value).combined, L.Next(s, pose.value).window);
      } else {
        L.CycleOnlyMoves(s, pose.value);
      }
    }
  }

  lemma SavedGeometry(s: P.System)
    requires P.Inv(s)
    ensures s.published.Some? && !s.moved ==> s.pub.saved == Some(s.pub.grid.geom)
    ensures s.published.None? ==> s.pub.saved == None
  {
    hide P.AllWelcome, P.Drain, SameOutside;
  }

  // The loop right after a full grid of the map m was sent and received; r was written last.
  ghost function JustPublished(primary: Costmap, m: Costmap, r: Rect): Loop
    requires ValidMap(m)
  {
    var g := MapGrid(m);
    Loop(L.State(primary, m, r, true),
         P.System(P.Pub(g, Some(g.geom), P.Clean(g.geom), false), [], P.Sub(Some(g), None), Some(g), false))
  }

  lemma JustPublishedLinked(primary: Costmap, m: Costmap, r: Rect)
    requires ValidMap(primary) && ValidMap(m) && L.SameGeometry(primary, m) && Fits(m, r)
    ensures Linked(JustPublished(primary, m, r))
  {
    hide ValidMap, MapGrid, RowStart, SameOutside;
    var g := MapGrid(m);
    P.CleanIsInStep(P.Pub(g, Some(g.geom), P.Clean(g.geom), false), g);
  }

  // resizeMap leaves the recorded window alone. After a resize to another geometry g, with
  // no pose available, the next turn sends the new map in full; the turn after that reports
  // the window r of the old map once more. That is safe iff r lies in the new map, or has no
  // columns; otherwise a patch is due that reaches past the end of the cost array.
  lemma StaleWindowExact(primary: Costmap, m: Costmap, r: Rect, g: Geometry)
    requires ValidMap(primary) && ValidMap(m) && L.SameGeometry(primary, m) && Fits(m, r)
    requires g.resolution > 0.0 && g != GeometryOf(m)
    ensures var l := JustPublished(primary, m, r);
      && Linked(l) && TurnOk(l, Resize(g, None))
      && var l1 := After(l, Resize(g, None));
      && Linked(l1) && TurnOk(l1, Tick(None, true))
      && var l2 := After(l1, Tick(None, true));
      && Linked(l2) && l2.sys.pub.grid.geom == g
      && (TurnOk(l2, Tick(None, true)) <==> r.xn <= g.width && (r.x0 == r.xn || r.yn <= g.height))
      && (P.Publishable(Told(l2, l2.state).pub) <==> TurnOk(l2, Tick(None, true)))
  {
    hide ValidMap, MapGrid, P.Inv, Resized, P.Union, P.Outgoing, P.InStep;
    JustPublishedLinked(primary, m, r);
    var l := JustPublished(primary, m, r);
    TurnReaches(l, Resize(g, None));
    var l1 := After(l, Resize(g, None));
    L.ResizeKeepsState(l.state, g);
    ResizedIsValid(m, g);
    assert l1.sys.pub.saved != Some(g) && P.SendsFull(Told(l1, l1.state).pub);
    TurnReaches(l1, Tick(None, true));
    var l2 := After(l1, Tick(None, true));
    assert Exposed(l2, l2.state) == l2.sys;
    P.ReportExact(l2.sys, WindowBox(r));
  }

  // ---------- A geometry that returns ----------

  // A turn that writes costs and does not publish.
  lemma WritingTick(l: Loop, c: L.Cycle)
    requires Linked(l) && L.ValidCycle(c) && L.Writes(l.state, c)
    ensures TurnOk(l, Tick(Some(c), false))
    ensures var a, n := After(l, Tick(Some(c), false)), L.Next(l.state, c);
      && Linked(a) && a.state == n && a.sys == Told(l, n) && n.initialized
      && Fits(n.combined, n.window)
      && n.combined.width == l.state.combined.width && n.combined.height == l.state.combined.height
  {
    hide P.Inv, ValidMap, MapGrid, L.Next, L.Writes, Told, P.Reaches;
    TurnReaches(l, Tick(Some(c), false));
    L.CycleWritesWindow(l.state, c);
    L.WindowStaysInMap(l.state, c);
  }

  lemma DueNeedsSafe(l: Loop, c: L.Cycle)
    requires L.ValidState(l.state) && TurnOk(l, Tick(Some(c), true)) && Updated(l.state, Some(c)).initialized
    ensures P.PublishSafe(Told(l, Updated(l.state, Some(c))))
  {
    hide ValidMap, MapGrid, L.Next, L.Writes, Told, P.PublishSafe;
  }

  // A publish due in state s, where m was published last, n is the map now, and the cell d
  // changed outside the dirty box.
  lemma MissedCell(s: P.System, m: Costmap, n: Costmap, d: Cell)
    requires P.Inv(s) && P.Returned(s) && s.channel == []
    requires ValidMap(m) && ValidMap(n) && GeometryOf(m) == GeometryOf(n)
    requires s.published == Some(MapGrid(m)) && s.pub.grid == MapGrid(n) && P.BoxFits(s.pub.dirty, GeometryOf(m))
    requires InMap(m, d) && m.cells[d] != n.cells[d] && !InBox(s.pub.dirty, d.x, d.y)
    ensures !P.PublishSafe(s) && P.Publishable(s.pub) && P.ValidSub(s.sub)
    ensures P.View(P.Sent(s.sub, s.pub)) != Some(s.pub.grid)
  {
    hide ValidMap, DataOf, P.Inv, SameOutside, P.View, P.Sent;
    DataDiffers(m, n, s.pub.dirty, d);
    EmptyChannel(s);
    P.PublishSafeExact(s);
  }

  // Two cycles without a publish between them roll the window away and back. A cell d whose
  // place was outside in between has lost its cost; unless the reported windows happen to
  // cover it, the publish that is due leaves it out.
  lemma ReturnLosesCells(primary: Costmap, m: Costmap, r: Rect, c1: L.Cycle, c2: L.Cycle, d: Cell)
    requires ValidMap(primary) && ValidMap(m) && L.SameGeometry(primary, m) && Fits(m, r)
    requires L.ValidCycle(c1) && L.ValidCycle(c2)
    requires var s := L.State(primary, m, r, true);
      && L.Writes(s, c1) && L.ValidState(L.Next(s, c1)) && L.Writes(L.Next(s, c1), c2)
      && var n1, n2 := L.Next(s, c1), L.Next(L.Next(s, c1), c2);
      && GeometryOf(n1.combined) != GeometryOf(m) && GeometryOf(n2.combined) == GeometryOf(m)
      && InMap(m, d) && m.cells[d] != m.defaultValue
      && !InMap(m, Minus(d, ShiftOf(m, L.NewOrigin(m, c1.robot))))
      && !InBox(P.Union(WindowBox(n1.window), WindowBox(n2.window)), d.x, d.y)
    ensures var l := JustPublished(primary, m, r);
      && Linked(l) && TurnOk(l, Tick(Some(c1), false))
      && var l1 := After(l, Tick(Some(c1), false));
      && Linked(l1) && !TurnOk(l1, Tick(Some(c2), true))
      && TurnOk(l1, Tick(Some(c2), false))
      && var s2 := After(l1, Tick(Some(c2), false)).sys;
      && P.Publishable(s2.pub) && P.ValidSub(s2.sub)
      && P.View(P.Sent(s2.sub, s2.pub)) != Some(s2.pub.grid)
  {
    hide ValidMap, MapGrid, P.Inv, L.Next, L.Writes, P.Sent, Minus, ShiftOf, TurnOk, After, P.PublishSafe, P.Publishable, P.View, P.Union, L.NewOrigin;
    JustPublishedLinked(primary, m, r);
    var l := JustPublished(primary, m, r);
    WritingTick(l, c1);
    var l1 := After(l, Tick(Some(c1), false));
    WritingTick(l1, c2);
    var l2 := After(l1, Tick(Some(c2), false));
    ReturnedBox(l1.state.window, l2.state.window, GeometryOf(m));
    ReturnedCell(l.state, c1, c2, d);
    MissedCell(l2.sys, m, l2.state.combined, d);
    if TurnOk(l1, Tick(Some(c2), true)) {
      DueNeedsSafe(l1, c2);
    }
  }

  lemma EmptyChannel(s: P.System)
    requires P.Inv(s) && s.channel == []
    ensures P.ValidSub(s.sub) && P.Drain(s.sub, s.channel) == s.sub
  {
    hide P.InStep, P.AllWelcome;
  }

  lemma ReturnedCell(s: L.State, c1: L.Cycle, c2: L.Cycle, d: Cell)
    requires L.ValidState(s) && L.ValidCycle(c1) && L.ValidCycle(c2)
    requires L.Writes(s, c1) && L.ValidState(L.Next(s, c1)) && L.Writes(L.Next(s, c1), c2)
    requires var n1, n2 := L.Next(s, c1), L.Next(L.Next(s, c1), c2);
      && GeometryOf(n1.combined) != GeometryOf(s.combined) && GeometryOf(n2.combined) == GeometryOf(s.combined)
      && InMap(s.combined, d) && !InMap(s.combined, Minus(d, ShiftOf(s.combined, L.NewOrigin(s.combined, c1.robot))))
      && !Inside(n2.window, d)
    ensures var n2 := L.Next(L.Next(s, c1), c2).combined;
      d in n2.cells && n2.cells[d] == s.combined.defaultValue
  {
    hide L.Next, L.Writes, L.WroteInside, Shift, ShiftOf, L.NewOrigin, Minus;
    var n1 := L.Next(s, c1);
    L.CycleWritesWindow(s, c1);
    L.CycleWritesWindow(n1, c2);
    var t1, t2 := L.Recentred(s, c1).combined, L.Recentred(n1, c2).combined;
    L.WroteGeometry(t1, n1.combined, n1.window);
    L.WroteGeometry(t2, L.Next(n1, c2).combined, L.Next(n1, c2).window);
    assert c1.rolling && c2.rolling;
    ThereAndBack(s.combined, ShiftOf(s.combined, L.NewOrigin(s.combined, c1.robot)), n1.combined,
                 ShiftOf(n1.combined, L.NewOrigin(n1.combined, c2.robot)), d);
    UnwrittenCell(t2, L.Next(n1, c2).combined, L.Next(n1, c2).window, d);
    WroteDefault(t1, n1.combined, n1.window);
  }

  lemma UnwrittenCell(m: Costmap, n: Costmap, r: Rect, d: Cell)
    requires L.WroteInside(m, n, r) && d in m.cells && !Inside(r, d)
    ensures d in n.cells && n.cells[d] == m.cells[d]
  {
  }

  lemma WroteDefault(m: Costmap, n: Costmap, r: Rect)
    requires L.WroteInside(m, n, r)
    ensures n.defaultValue == m.defaultValue
  {
  }

  lemma ReturnedBox(w1: Rect, w2: Rect, g: Geometry)
    requires 0 <= w1.x0 <= w1.xn <= g.width && 0 <= w1.y0 <= w1.yn <= g.height
    requires 0 <= w2.x0 <= w2.xn <= g.width && 0 <= w2.y0 <= w2.yn <= g.height
    ensures P.Union(P.Union(P.Clean(g), WindowBox(w1)), WindowBox(w2)) == P.Union(WindowBox(w1), WindowBox(w2))
    ensures P.BoxFits(P.Union(WindowBox(w1), WindowBox(w2)), g)
    ensures forall d: Cell :: Inside(w2, d) ==> InBox(P.Union(WindowBox(w1), WindowBox(w2)), d.x, d.y)
  {
  }

  lemma DataDiffers(m: Costmap, n: Costmap, b: Box, d: Cell)
    requires ValidMap(m) && ValidMap(n) && GeometryOf(m) == GeometryOf(n)
    requires InMap(m, d) && m.cells[d] != n.cells[d] && !InBox(b, d.x, d.y)
    ensures !SameOutside(DataOf(m), DataOf(n), m.width, m.height, b)
  {
    hide RowStart, CostAt, DataOf;
    DataAt(m, d);
    DataAt(n, d);
    assert d == Cell(d.x, d.y);
  }

  // ---------- Such a run ----------

  // A 3 x 3 map with cells of 1 m at the origin, costs v in its left column, 0 elsewhere.
  function Walled(v: Cost): Costmap {
    Costmap(3, 3, 1.0, 0.0, 0.0, 0,
      map x, y | 0 <= x < 3 && 0 <= y < 3 :: Cell(x, y) := if x == 0 then v else 0)
  }

  // A layer that asks for the cell at (2.5, 1.5) and leaves costs alone.
  function Watcher(): L.Layer {
    L.Layer(b => L.Bounds(2.5, 1.5, 2.5, 1.5), (m, r) => m)
  }

  function RobotAt(x: real): L.Cycle {
    L.Cycle(true, Move(x, 1.25), [Watcher()], [], 1000.0)
  }

  lemma WalledIsValid(v: Cost)
    ensures ValidMap(Walled(v))
  {
    var m := Walled(v);
    forall c
      ensures c in m.cells <==> InMap(m, c)
    {
      assert c == Cell(c.x, c.y);
    }
  }

  lemma WatcherBehaves(x: real)
    ensures L.ValidCycle(RobotAt(x))
  {
    forall m: Costmap, r: Rect
      ensures L.WroteInside(m, Watcher().costs(m, r), r)
    {
    }
  }

  // The window for a 3 x 3 map of 1 m cells whose left edge is at x = o.
  lemma WatchedWindow(m: Costmap, o: int, x: real)
    requires m.width == 3 && m.height == 3 && m.resolution == 1.0 && m.originX == o as real && m.originY == 0.0 && 0 <= o <= 1
    ensures L.WindowOf(m, L.Accumulated(RobotAt(x))) == Rect(2 - o, 1, 3 - o, 2)
  {
    var init := L.Bounds(1000.0, 1000.0, -1000.0, -1000.0);
    assert [Watcher()][..0] == [] && L.FoldBounds([Watcher()], init) == L.Bounds(2.5, 1.5, 2.5, 1.5);
    assert L.Accumulated(RobotAt(x)) == L.Bounds(2.5, 1.5, 2.5, 1.5);
    assert (2.5 - o as real) / 1.0 == 2.5 - o as real && (1.5 - 0.0) / 1.0 == 1.5;
  }

  // The robot at x = 1.25 + o asks for the left edge at x = o.
  lemma RequestedShift(m: Costmap, o: int, to: int)
    requires m.width == 3 && m.height == 3 && m.resolution == 1.0 && m.originX == o as real && m.originY == 0.0
    ensures ShiftOf(m, L.NewOrigin(m, Move(1.25 + to as real, 1.25))) == Cell(to - o, 0)
  {
    assert (to as real - o as real) / 1.0 == (to - o) as real;
    assert (0.0 - 0.0) / 1.0 == 0.0;
  }

  lemma RollsTo(s: L.State, o: int, to: int)
    requires L.ValidState(s) && 0 <= to <= 1
    requires GeometryOf(s.combined) == Geometry(3, 3, 1.0, o as real, 0.0)
    ensures var c := RobotAt(1.25 + to as real);
      && L.Writes(s, c) && L.ValidState(L.Next(s, c))
      && L.Next(s, c).window == Rect(2 - to, 1, 3 - to, 2)
      && GeometryOf(L.Next(s, c).combined) == Geometry(3, 3, 1.0, to as real, 0.0)
  {
    hide ValidMap, L.WindowOf, L.Accumulated, L.Written, L.NewOrigin, ShiftOf, L.WroteInside;
    var c := RobotAt(1.25 + to as real);
    WatcherBehaves(1.25 + to as real);
    L.ResolutionOf(s.primary);
    RequestedShift(s.combined, o, to);
    var t := L.Recentred(s, c).combined;
    assert GeometryOf(t) == Geometry(3, 3, 1.0, to as real, 0.0);
    WatchedWindow(t, to, 1.25 + to as real);
    L.CycleWritesWindow(s, c);
    L.WroteGeometry(t, L.Next(s, c).combined, L.Next(s, c).window);
    L.NextKeepsState(s, c);
  }

  // The robot steps one cell to the right and back between two publishes. The left column
  // has been lost, the windows reported cover columns 1 and 2 of row 1, and the subscriber
  // keeps the old cost v of the cell (0, 0).
  lemma ReturnedPublishMisses(v: Cost, r: Rect)
    requires v != 0 && Fits(Walled(v), r)
    ensures ValidMap(Walled(v))
    ensures var l := JustPublished(Walled(v), Walled(v), r);
      && Linked(l) && TurnOk(l, Tick(Some(RobotAt(2.25)), false))
      && var l1 := After(l, Tick(Some(RobotAt(2.25)), false));
      && Linked(l1) && !TurnOk(l1, Tick(Some(RobotAt(1.25)), true))
      && TurnOk(l1, Tick(Some(RobotAt(1.25)), false))
      && var s2 := After(l1, Tick(Some(RobotAt(1.25)), false)).sys;
      && P.Publishable(s2.pub) && P.ValidSub(s2.sub)
      && P.View(P.Sent(s2.sub, s2.pub)) != Some(s2.pub.grid)
  {
    hide L.Next, L.Writes, L.ValidCycle, ValidMap, L.NewOrigin, ShiftOf, After, TurnOk, Linked, P.Sent;
    var m := Walled(v);
    WalledIsValid(v);
    WatcherBehaves(2.25);
    WatcherBehaves(1.25);
    var s := L.State(m, m, r, true);
    RollsTo(s, 0, 1);
    RollsTo(L.Next(s, RobotAt(2.25)), 1, 0);
    RequestedShift(m, 0, 1);
    ReturnLosesCells(m, m, r, RobotAt(2.25), RobotAt(1.25), Cell(0, 0));
  }
}
