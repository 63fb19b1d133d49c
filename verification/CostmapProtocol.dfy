// The replication of a costmap from Costmap2DPublisher to CostmapSubscriber as steps on
// values: dirty box, full grids and patches on one FIFO, a subscriber that applies a full
// grid only when it must.
module CostmapProtocol {
  import opened Wrappers
  import opened Lattice
  import opened RowMajor
  import opened GridCells
  import opened GridPatch
  import opened CostmapValue

  datatype Grid = Grid(geom: Geometry, data: seq<Cost>)

  predicate WellFormed(g: Grid) {
    |g.data| == RowStart(g.geom.width, g.geom.height) && g.geom.resolution > 0.0
  }

  datatype Message = Full(grid: Grid) | Update(patch: Patch)

  predicate ValidMessage(m: Message) {
    match m
    case Full(g) => WellFormed(g)
    case Update(p) => |p.data| == RowStart(p.sizeX, p.sizeY)
  }

  // ---------- Publisher ----------

  // saved is the geometry of the last full grid (None before the first).
  datatype Pub = Pub(grid: Grid, saved: Option<Geometry>, dirty: Box, always: bool)

  function Clean(g: Geometry): Box {
    Box(g.width, 0, g.height, 0)
  }

  function Union(b: Box, c: Box): Box {
    Box(if c.x0 < b.x0 then c.x0 else b.x0, if c.xn > b.xn then c.xn else b.xn,
        if c.y0 < b.y0 then c.y0 else b.y0, if c.yn > b.yn then c.yn else b.yn)
  }

  predicate BoxFits(b: Box, g: Geometry) {
    b.x0 <= b.xn <= g.width && b.y0 <= b.yn <= g.height
  }

  predicate SendsFull(p: Pub) {
    p.always || p.saved != Some(p.grid.geom)
  }

  predicate Publishable(p: Pub) {
    WellFormed(p.grid) && (SendsFull(p) || p.dirty.x0 >= p.dirty.xn || BoxFits(p.dirty, p.grid.geom))
  }

  // publishCostmap: what goes out.
  function Outgoing(p: Pub): (m: Option<Message>)
    requires Publishable(p)
    ensures m.Some? ==> ValidMessage(m.value)
  {
    if SendsFull(p) then Some(Full(p.grid))
    else if p.dirty.x0 < p.dirty.xn then Some(Update(Cut(p.grid.data, p.grid.geom.width, p.grid.geom.height, p.dirty)))
    else None
  }

  function AfterPublish(p: Pub): Pub {
    p.(saved := if SendsFull(p) then Some(p.grid.geom) else p.saved, dirty := Clean(p.grid.geom))
  }

  // ---------- Subscriber ----------

  datatype Sub = Sub(map_: Option<Grid>, pending: Option<Grid>)

  ghost predicate ValidSub(s: Sub) {
    && (s.map_.Some? ==> WellFormed(s.map_.value))
    && (s.pending.Some? ==> s.map_.Some? && WellFormed(s.pending.value))
  }

  function Blank(g: Geometry): Grid {
    Grid(g, seq(RowStart(g.width, g.height), _ => 0))
  }

  // processCurrentCostmapMsg: resize if the geometry changed, then copy the data.
  function Absorb(current: Grid, msg: Grid): Grid
    requires WellFormed(current) && WellFormed(msg)
  {
    var base := if current.geom == msg.geom then current else Blank(msg.geom);
    Grid(msg.geom, msg.data + base.data[|msg.data|..])
  }

  lemma AbsorbReplaces(current: Grid, msg: Grid)
    requires WellFormed(current) && WellFormed(msg)
    ensures Absorb(current, msg) == msg
  {
    hide RowStart;
  }

  function Settle(s: Sub): (r: Sub)
    requires ValidSub(s)
    ensures ValidSub(r) && r.pending.None?
    ensures r.map_ == if s.pending.Some? then s.pending else s.map_
  {
    if s.pending.Some? then
      AbsorbReplaces(s.map_.value, s.pending.value);
      Sub(Some(Absorb(s.map_.value, s.pending.value)), None)
    else
      s
  }

  predicate Fits(g: Grid, p: Patch) {
    Accepts(g.geom.width, g.geom.height, p)
  }

  function Patched(g: Grid, p: Patch): (r: Grid)
    requires WellFormed(g) && Fits(g, p) && ValidMessage(Update(p))
    ensures WellFormed(r) && r.geom == g.geom
  {
    Grid(g.geom, Lay(g.data, g.geom.width, g.geom.height, p))
  }

  // costmapCallback and costmapUpdateCallback.
  function Receive(s: Sub, m: Message): (r: Sub)
    requires ValidSub(s) && ValidMessage(m)
    ensures ValidSub(r)
  {
    match m
    case Full(g) =>
      if s.map_.None? then Settle(Sub(Some(Blank(g.geom)), Some(g))) else s.(pending := Some(g))
    case Update(p) =>
      if s.map_.None? then s
      else
        var t := Settle(s);
        if Fits(t.map_.value, p) then t.(map_ := Some(Patched(t.map_.value, p))) else t
  }

  // The first full grid is applied at once, later ones are held; a patch without a map is lost.
  lemma FirstAndLater(s: Sub, g: Grid, p: Patch)
    requires ValidSub(s) && WellFormed(g) && ValidMessage(Update(p))
    ensures s.map_.None? ==> Receive(s, Full(g)) == Sub(Some(g), None) && Receive(s, Update(p)) == s
    ensures s.map_.Some? ==> Receive(s, Full(g)) == Sub(s.map_, Some(g))
    ensures s.map_.Some? ==> Receive(s, Update(p)).pending == None
  {
    hide RowStart, Absorb, Patched;
  }

  // What getCostmap would return now (None: it would throw).
  function View(s: Sub): Option<Grid>
    requires ValidSub(s)
  {
    Settle(s).map_
  }

  // ---------- Lazy against eager ----------

  // A subscriber that applies every message at once.
  function EagerReceive(v: Option<Grid>, m: Message): (r: Option<Grid>)
    requires (v.Some? ==> WellFormed(v.value)) && ValidMessage(m)
    ensures r.Some? ==> WellFormed(r.value)
  {
    match m
    case Full(g) =>
      var base := if v.Some? then v.value else Blank(g.geom);
      AbsorbReplaces(base, g);
      Some(Absorb(base, g))
    case Update(p) =>
      if v.None? || !Fits(v.value, p) then v else Some(Patched(v.value, p))
  }

  lemma LazyStep(s: Sub, m: Message)
    requires ValidSub(s) && ValidMessage(m)
    ensures View(Receive(s, m)) == EagerReceive(View(s), m)
  {
    hide RowStart, Absorb, Patched;
    if m.Full? {
      AbsorbReplaces(if View(s).Some? then View(s).value else Blank(m.grid.geom), m.grid);
    }
  }

  datatype Event = Arrive(m: Message) | Read

  ghost predicate ValidEvents(events: seq<Event>) {
    forall k :: 0 <= k < |events| && events[k].Arrive? ==> ValidMessage(events[k].m)
  }

  // The results of the reads, in order.
  function LazyReads(s: Sub, events: seq<Event>): seq<Option<Grid>>
    requires ValidSub(s) && ValidEvents(events)
    decreases |events|
  {
    if events == [] then []
    else
      match events[0]
      case Arrive(m) => LazyReads(Receive(s, m), events[1..])
      case Read => [View(s)] + LazyReads(if s.map_.Some? then Settle(s) else s, events[1..])
  }

  function EagerReads(v: Option<Grid>, events: seq<Event>): seq<Option<Grid>>
    requires (v.Some? ==> WellFormed(v.value)) && ValidEvents(events)
    decreases |events|
  {
    if events == [] then []
    else
      match events[0]
      case Arrive(m) => EagerReads(EagerReceive(v, m), events[1..])
      case Read => [v] + EagerReads(v, events[1..])
  }

  // Whatever arrives and whenever it is read, holding a full grid back cannot be noticed.
  lemma {:induction false} LazyIsEager(s: Sub, events: seq<Event>)
    requires ValidSub(s) && ValidEvents(events)
    ensures LazyReads(s, events) == EagerReads(View(s), events)
    decreases |events|
  {
    hide Receive, EagerReceive, ValidMessage;
    if events != [] {
      match events[0]
      case Arrive(m) =>
        LazyStep(s, m);
        LazyIsEager(Receive(s, m), events[1..]);
      case Read =>
        LazyIsEager(if s.map_.Some? then Settle(s) else s, events[1..]);
    }
  }

  // ---------- The whole system ----------

  // published is the publisher's grid at the last publish; moved says that the geometry
  // was changed since then.
  datatype System = System(pub: Pub, channel: seq<Message>, sub: Sub, published: Option<Grid>, moved: bool)

  // One update cycle writes inside its window and reports that window as dirty; a cycle that
  // writes nothing reports the last window again; a resize or a shift of the origin replaces
  // the grid; a publish may find its layer disabled.
  datatype Step =
    | Write(window: Box, data: seq<Cost>)
    | Report(window: Box)
    | Reshape(grid: Grid)
    | Publish(layerEnabled: bool)
    | Deliver
    | Get

  // The geometry was changed and is back at the saved one: the next publish would send a
  // patch although cells outside the dirty box may have changed.
  predicate Returned(s: System) {
    s.moved && !SendsFull(s.pub)
  }

  // The next publish stays inside the grid and keeps the subscriber up to date: if the
  // geometry has returned, the changes lie in the dirty box all the same (PublishSafeExact).
  ghost predicate PublishSafe(s: System) {
    && Publishable(s.pub)
    && (Returned(s) ==> s.published.Some? && InStep(s.pub, s.published.value))
  }

  function Reported(s: System, win: Box): System {
    s.(pub := s.pub.(dirty := Union(s.pub.dirty, win)))
  }

  function Published(s: System): System
    requires Publishable(s.pub)
  {
    var m := Outgoing(s.pub);
    s.(pub := AfterPublish(s.pub), channel := if m.Some? then s.channel + [m.value] else s.channel,
       published := Some(s.pub.grid), moved := false)
  }

  ghost predicate Enabled(s: System, step: Step) {
    match step
    case Write(win, data) =>
      && BoxFits(win, s.pub.grid.geom)
      && SameOutside(s.pub.grid.data, data, s.pub.grid.geom.width, s.pub.grid.geom.height, win)
    case Report(win) => true
    case Reshape(grid) => WellFormed(grid)
    case Publish(layerEnabled) => layerEnabled ==> PublishSafe(s)
    case Deliver => s.channel != []
    case Get => s.sub.map_.Some?
  }

  ghost predicate ValidSystem(s: System) {
    && ValidSub(s.sub)
    && (forall k :: 0 <= k < |s.channel| ==> ValidMessage(s.channel[k]))
    && WellFormed(s.pub.grid)
  }

  function Next(s: System, step: Step): System
    requires ValidSystem(s) && Enabled(s, step)
  {
    match step
    case Write(win, data) =>
      s.(pub := s.pub.(grid := Grid(s.pub.grid.geom, data), dirty := Union(s.pub.dirty, win)))
    case Report(win) =>
      Reported(s, win)
    case Reshape(grid) =>
      s.(pub := s.pub.(grid := grid), moved := true)
    case Publish(layerEnabled) =>
      if layerEnabled then Published(s) else s
    case Deliver =>
      s.(channel := s.channel[1..], sub := Receive(s.sub, s.channel[0]))
    case Get =>
      s.(sub := Settle(s.sub))
  }

  // The subscriber once everything under way has arrived.
  function Drain(s: Sub, channel: seq<Message>): (r: Sub)
    requires ValidSub(s) && forall k :: 0 <= k < |channel| ==> ValidMessage(channel[k])
    ensures ValidSub(r)
    decreases |channel|
  {
    if channel == [] then s else Drain(Receive(s, channel[0]), channel[1..])
  }

  // A patch finds a map it fits.
  predicate Welcome(s: Sub, m: Message)
    requires ValidSub(s)
  {
    m.Update? ==> View(s).Some? && Fits(View(s).value, m.patch)
  }

  predicate AllWelcome(s: Sub, channel: seq<Message>)
    requires ValidSub(s) && forall k :: 0 <= k < |channel| ==> ValidMessage(channel[k])
    decreases |channel|
  {
    channel == [] || (Welcome(s, channel[0]) && AllWelcome(Receive(s, channel[0]), channel[1..]))
  }

  // Since the last publish only cells in the dirty box changed.
  ghost predicate InStep(p: Pub, g: Grid) {
    && p.grid.geom == g.geom
    && SameOutside(g.data, p.grid.data, g.geom.width, g.geom.height, p.dirty)
  }

  ghost predicate Inv(s: System) {
    && WellFormed(s.pub.grid)
    && ValidSub(s.sub)
    && (forall k :: 0 <= k < |s.channel| ==> ValidMessage(s.channel[k]))
    && AllWelcome(s.sub, s.channel)
    && (s.published.None? ==> s.channel == [] && s.sub.map_.None? && s.pub.saved.None?)
    && (s.published.Some? ==>
          && WellFormed(s.published.value)
          && View(Drain(s.sub, s.channel)) == s.published
          && s.pub.saved == Some(s.published.value.geom)
          && (!s.moved ==> InStep(s.pub, s.published.value)))
  }

  lemma {:induction false} DrainAppend(s: Sub, channel: seq<Message>, m: Message)
    requires ValidSub(s) && ValidMessage(m) && forall k :: 0 <= k < |channel| ==> ValidMessage(channel[k])
    ensures forall k :: 0 <= k < |channel + [m]| ==> ValidMessage((channel + [m])[k])
    ensures Drain(s, channel + [m]) == Receive(Drain(s, channel), m)
    ensures AllWelcome(s, channel + [m]) <==> AllWelcome(s, channel) && Welcome(Drain(s, channel), m)
    decreases |channel|
  {
    hide Receive, Welcome, ValidMessage;
    var all := channel + [m];
    if channel == [] {
      assert all[1..] == [];
    } else {
      assert all[1..] == channel[1..] + [m] && all[0] == channel[0];
      DrainAppend(Receive(s, channel[0]), channel[1..], m);
    }
  }

  lemma InvIsValid(s: System)
    requires Inv(s)
    ensures ValidSystem(s)
  {
    hide Drain, AllWelcome, SameOutside, ValidMessage, RowStart;
  }

  lemma UnionCovers(b: Box, win: Box)
    ensures forall x, y :: InBox(b, x, y) || InBox(win, x, y) ==> InBox(Union(b, win), x, y)
  {
  }

  lemma SameOutsideUnion(a: seq<Cost>, b: seq<Cost>, c: seq<Cost>, g: Geometry, dirty: Box, win: Box)
    requires SameOutside(a, b, g.width, g.height, dirty) && SameOutside(b, c, g.width, g.height, win)
    ensures SameOutside(a, c, g.width, g.height, Union(dirty, win))
  {
    hide RowStart, CostAt, InBox, Union;
    UnionCovers(dirty, win);
  }

  lemma WriteKeepsInv(s: System, win: Box, data: seq<Cost>)
    requires Inv(s) && ValidSystem(s) && Enabled(s, Write(win, data))
    ensures Inv(Next(s, Write(win, data)))
  {
    hide Drain, AllWelcome, ValidMessage, ValidSub, Union, BoxFits;
    assert |data| == |s.pub.grid.data| by { hide RowStart; }
    if s.published.Some? && !s.moved {
      var g := s.published.value;
      SameOutsideUnion(g.data, s.pub.grid.data, data, g.geom, s.pub.dirty, win);
    }
  }

  lemma ReportKeepsInv(s: System, win: Box)
    requires Inv(s)
    ensures Inv(Reported(s, win))
  {
    hide Drain, AllWelcome, ValidMessage, ValidSub, Union, BoxFits;
    if s.published.Some? && !s.moved {
      var g := s.published.value;
      SameOutsideItself(s.pub.grid, win);
      SameOutsideUnion(g.data, s.pub.grid.data, s.pub.grid.data, g.geom, s.pub.dirty, win);
    }
  }

  lemma ReshapeKeepsInv(s: System, grid: Grid)
    requires Inv(s) && ValidSystem(s) && WellFormed(grid)
    ensures Inv(Next(s, Reshape(grid)))
  {
    hide Drain, AllWelcome, ValidMessage, ValidSub, InStep;
  }

  lemma NothingDirty(a: seq<Cost>, c: seq<Cost>, g: Geometry, b: Box)
    requires SameOutside(a, c, g.width, g.height, b) && b.x0 >= b.xn
    ensures a == c
  {
    hide RowStart, CostAt;
    SameEverywhere(a, c, g.width, g.height);
  }

  // What a publish does to a subscriber that has the last published grid g.
  lemma PatchArrives(v: Sub, p: Pub, g: Grid)
    requires ValidSub(v) && View(v) == Some(g) && WellFormed(g) && WellFormed(p.grid) && InStep(p, g)
    requires !SendsFull(p) && p.dirty.x0 < p.dirty.xn && Publishable(p)
    ensures Welcome(v, Outgoing(p).value)
    ensures View(Receive(v, Outgoing(p).value)) == Some(p.grid)
  {
    hide RowStart, Lay, Cut, SameOutside;
    PatchUpdates(g.data, p.grid.data, g.geom.width, g.geom.height, p.dirty);
  }

  lemma FullArrives(v: Sub, g: Grid)
    requires ValidSub(v) && WellFormed(g)
    ensures View(Receive(v, Full(g))) == Some(g) && Welcome(v, Full(g))
  {
    hide RowStart, Absorb;
  }

  lemma CleanIsInStep(p: Pub, g: Grid)
    requires WellFormed(p.grid) && g == p.grid
    ensures InStep(p.(dirty := Clean(g.geom)), g)
  {
    hide RowStart, CostAt;
  }

  lemma PublishKeepsInv(s: System)
    requires Inv(s) && ValidSystem(s) && PublishSafe(s)
    ensures Inv(Next(s, Publish(true)))
  {
    hide Drain, AllWelcome, ValidMessage, ValidSub, InStep, RowStart, Receive, Welcome, View, Outgoing;
    var p := s.pub;
    var v := Drain(s.sub, s.channel);
    CleanIsInStep(AfterPublish(p), p.grid);
    if SendsFull(p) {
      FullArrives(v, p.grid);
      OutgoingIs(p);
      DrainAppend(s.sub, s.channel, Full(p.grid));
    } else {
      var g := s.published.value;
      OutgoingIs(p);
      if p.dirty.x0 < p.dirty.xn {
        PatchArrives(v, p, g);
        DrainAppend(s.sub, s.channel, Outgoing(p).value);
      } else {
        InStepNothing(p, g);
      }
    }
  }

  lemma OutgoingIs(p: Pub)
    requires Publishable(p)
    ensures SendsFull(p) ==> Outgoing(p) == Some(Full(p.grid))
    ensures !SendsFull(p) ==> (Outgoing(p).Some? <==> p.dirty.x0 < p.dirty.xn)
    ensures Outgoing(p).Some? ==> ValidMessage(Outgoing(p).value)
  {
  }

  // What a publish sends: the full grid if it always does or the geometry is not the one last
  // sent in full; otherwise a patch with exactly the cells of the dirty box, or nothing if the
  // box has no columns.
  lemma WhatIsSent(p: Pub)
    requires Publishable(p)
    ensures p.always || p.saved == None || p.saved.value != p.grid.geom ==> Outgoing(p) == Some(Full(p.grid))
    ensures !p.always && p.saved == Some(p.grid.geom) && p.dirty.x0 >= p.dirty.xn ==> Outgoing(p) == None
    ensures !p.always && p.saved == Some(p.grid.geom) && p.dirty.x0 < p.dirty.xn ==>
      && Outgoing(p).Some? && Outgoing(p).value.Update?
      && var q := Outgoing(p).value.patch;
      && q.x == p.dirty.x0 && q.y == p.dirty.y0 && q.x + q.sizeX == p.dirty.xn && q.y + q.sizeY == p.dirty.yn
      && forall x, y :: InBox(p.dirty, x, y) ==> SentCost(p, q, x, y)
  {
    hide RowStart, CostAt, Cut;
    if !p.always && p.saved == Some(p.grid.geom) && p.dirty.x0 < p.dirty.xn {
      forall x, y | InBox(p.dirty, x, y)
        ensures SentCost(p, Outgoing(p).value.patch, x, y)
      {
        CutAt(p.grid.data, p.grid.geom.width, p.grid.geom.height, p.dirty, x, y);
      }
    }
  }

  // Cell (x, y) of the grid stands at its place in the patch.
  predicate SentCost(p: Pub, q: Patch, x: int, y: int) {
    && WellFormed(p.grid) && 0 <= x < p.grid.geom.width && 0 <= y < p.grid.geom.height && q.x <= x && q.y <= y
    && Index(q.sizeX, x - q.x, y - q.y) < |q.data|
    && q.data[Index(q.sizeX, x - q.x, y - q.y)] == CostAt(p.grid.data, p.grid.geom.width, p.grid.geom.height, Cell(x, y))
  }

  predicate InsideBox(b: Box, d: Box) {
    d.x0 <= b.x0 && b.xn <= d.xn && d.y0 <= b.y0 && b.yn <= d.yn
  }

  // The dirty box becomes the smallest box around the old one and the window.
  lemma UnionIsLeast(b: Box, win: Box, d: Box)
    ensures InsideBox(Union(b, win), d) <==> InsideBox(b, d) && InsideBox(win, d)
  {
  }

  lemma InStepNothing(p: Pub, g: Grid)
    requires InStep(p, g) && p.dirty.x0 >= p.dirty.xn
    ensures g == p.grid
  {
    hide SameOutside;
    NothingDirty(g.data, p.grid.data, g.geom, p.dirty);
  }

  lemma DeliverKeepsInv(s: System)
    requires Inv(s) && ValidSystem(s) && s.channel != []
    ensures Inv(Next(s, Deliver))
  {
    hide ValidMessage, InStep, RowStart, Receive, Welcome, View;
  }

  // Subscribers with the same view stay alike.
  lemma {:induction false} SameViewDrain(s: Sub, t: Sub, channel: seq<Message>)
    requires ValidSub(s) && ValidSub(t) && View(s) == View(t)
    requires forall k :: 0 <= k < |channel| ==> ValidMessage(channel[k])
    ensures View(Drain(s, channel)) == View(Drain(t, channel))
    ensures AllWelcome(s, channel) <==> AllWelcome(t, channel)
    decreases |channel|
  {
    hide Receive, ValidMessage, EagerReceive;
    if channel != [] {
      LazyStep(s, channel[0]);
      LazyStep(t, channel[0]);
      SameViewDrain(Receive(s, channel[0]), Receive(t, channel[0]), channel[1..]);
    }
  }

  lemma GetKeepsInv(s: System)
    requires Inv(s) && ValidSystem(s) && s.sub.map_.Some?
    ensures Inv(Next(s, Get))
  {
    hide ValidMessage, InStep, RowStart, Drain, AllWelcome;
    SameViewDrain(s.sub, Settle(s.sub), s.channel);
  }

  lemma StepKeepsInv(s: System, step: Step)
    requires Inv(s) && ValidSystem(s) && Enabled(s, step)
    ensures Inv(Next(s, step))
  {
    hide Inv, Next, ValidSystem;
    match step
    case Write(win, data) => WriteKeepsInv(s, win, data);
    case Report(win) => ReportStep(s, win); ReportKeepsInv(s, win);
    case Reshape(grid) => ReshapeKeepsInv(s, grid);
    case Publish(layerEnabled) => if layerEnabled { PublishKeepsInv(s); } else { DisabledPublish(s); }
    case Deliver => DeliverKeepsInv(s);
    case Get => GetKeepsInv(s);
  }

  lemma ReportStep(s: System, win: Box)
    requires ValidSystem(s)
    ensures Next(s, Report(win)) == Reported(s, win)
  {
  }

  lemma DisabledPublish(s: System)
    requires ValidSystem(s)
    ensures Next(s, Publish(false)) == s
  {
  }

  // ---------- Runs ----------

  ghost predicate IsRun(states: seq<System>, steps: seq<Step>) {
    && |states| == |steps| + 1
    && forall k :: 0 <= k < |steps| ==> ValidSystem(states[k]) && Enabled(states[k], steps[k]) && states[k + 1] == Next(states[k], steps[k])
  }

  // t comes after s in some run.
  ghost predicate Reaches(s: System, t: System) {
    exists states, steps :: IsRun(states, steps) && states[0] == s && states[|steps|] == t
  }

  lemma ReachesSelf(s: System)
    ensures Reaches(s, s)
  {
    assert IsRun([s], []) && [s][0] == s;
  }

  lemma ReachesStep(s: System, step: Step)
    requires ValidSystem(s) && Enabled(s, step)
    ensures Reaches(s, Next(s, step))
  {
    hide ValidSystem, Enabled, Next;
    var states, steps := [s, Next(s, step)], [step];
    assert IsRun(states, steps) && states[0] == s && states[|steps|] == Next(s, step);
  }

  lemma ReachesOn(s: System, t: System, u: System)
    requires Reaches(s, t) && Reaches(t, u)
    ensures Reaches(s, u)
  {
    hide ValidSystem, Enabled, Next;
    var a, c :| IsRun(a, c) && a[0] == s && a[|c|] == t;
    var b, d :| IsRun(b, d) && b[0] == t && b[|d|] == u;
    var states, steps := a + b[1..], c + d;
    forall k | 0 <= k < |steps|
      ensures ValidSystem(states[k]) && Enabled(states[k], steps[k]) && states[k + 1] == Next(states[k], steps[k])
    {
      if k >= |c| {
        assert states[k] == b[k - |c|] && states[k + 1] == b[k - |c| + 1] && steps[k] == d[k - |c|];
      }
    }
    assert IsRun(states, steps) && states[0] == s && states[|steps|] == u;
  }

  lemma ReachesKeepsInv(s: System, t: System)
    requires Inv(s) && Reaches(s, t)
    ensures Inv(t)
  {
    hide Inv, ValidSystem, Enabled, Next;
    var states, steps :| IsRun(states, steps) && states[0] == s && states[|steps|] == t;
    RunKeepsInv(states, steps, |steps|);
  }

  // Nothing published or received; any grid, any setting of always_send_full_costmap.
  ghost predicate Initial(s: System) {
    && WellFormed(s.pub.grid) && s.pub.saved.None?
    && s.channel == [] && s.sub == Sub(None, None) && s.published.None?
  }

  lemma {:induction false} RunKeepsInv(states: seq<System>, steps: seq<Step>, k: nat)
    requires IsRun(states, steps) && Inv(states[0]) && k < |states|
    ensures Inv(states[k])
  {
    hide Inv, Enabled, Next;
    if k > 0 {
      RunKeepsInv(states, steps, k - 1);
      StepKeepsInv(states[k - 1], steps[k - 1]);
    }
  }

  lemma InitialInv(s: System)
    requires Initial(s)
    ensures Inv(s)
  {
  }

  // In every state of every run: once what is under way has arrived, the subscriber shows
  // the publisher's grid as of the last publish, and no patch on its way will be refused.
  lemma Replication(states: seq<System>, steps: seq<Step>, k: nat)
    requires IsRun(states, steps) && Initial(states[0]) && k < |states|
    ensures var s := states[k];
      && Inv(s) && ValidSystem(s)
      && View(Drain(s.sub, s.channel)) == s.published
      && AllWelcome(s.sub, s.channel)
      && (s.channel == [] ==> View(s.sub) == s.published)
  {
    hide Inv, IsRun;
    InitialInv(states[0]);
    RunKeepsInv(states, steps, k);
    InvIsValid(states[k]);
    SettledView(states[k]);
  }

  lemma SettledView(s: System)
    requires Inv(s)
    ensures View(Drain(s.sub, s.channel)) == s.published && AllWelcome(s.sub, s.channel)
    ensures s.channel == [] ==> View(s.sub) == s.published
  {
    hide AllWelcome, ValidMessage, InStep, WellFormed;
  }

  // ---------- Where it fails, and exactly when a publish brings the subscriber up to date ----------

  function Sent(v: Sub, p: Pub): Sub
    requires ValidSub(v) && Publishable(p)
  {
    if Outgoing(p).Some? then Receive(v, Outgoing(p).value) else v
  }

  // For a subscriber showing the last published grid g of the current geometry: after the
  // publish it shows the publisher's grid iff a full grid is sent or no cell outside the
  // dirty box differs from g.
  lemma PublishExact(v: Sub, p: Pub, g: Grid)
    requires ValidSub(v) && View(v) == Some(g) && WellFormed(g) && Publishable(p) && p.grid.geom == g.geom
    ensures View(Sent(v, p)) == Some(p.grid) <==>
      SendsFull(p) || SameOutside(g.data, p.grid.data, g.geom.width, g.geom.height, p.dirty)
  {
    hide RowStart, Lay, Cut, SameOutside;
    if SendsFull(p) {
      FullArrives(v, p.grid);
    } else if p.dirty.x0 < p.dirty.xn {
      PatchUpdates(g.data, p.grid.data, g.geom.width, g.geom.height, p.dirty);
    } else {
      SameOutsideItself(p.grid, p.dirty);
      if SameOutside(g.data, p.grid.data, g.geom.width, g.geom.height, p.dirty) {
        NothingDirty(g.data, p.grid.data, g.geom, p.dirty);
      }
    }
  }

  lemma SameOutsideItself(g: Grid, b: Box)
    requires WellFormed(g)
    ensures SameOutside(g.data, g.data, g.geom.width, g.geom.height, b)
  {
    hide RowStart, CostAt;
  }

  // What runs require of a publish is exactly what it needs, in every state: a patch, if one
  // is due, lies in the grid, and afterwards the subscriber shows the grid.
  lemma PublishSafeExact(s: System)
    requires Inv(s)
    ensures PublishSafe(s) <==>
      Publishable(s.pub) && View(Sent(Drain(s.sub, s.channel), s.pub)) == Some(s.pub.grid)
  {
    hide Drain, AllWelcome, ValidMessage, SameOutside, RowStart, Receive;
    var v := Drain(s.sub, s.channel);
    if Publishable(s.pub) {
      if SendsFull(s.pub) {
        FullArrives(v, s.pub.grid);
      } else {
        PublishExact(v, s.pub, s.published.value);
      }
    }
  }

  // The dirty box is clean, or covers part of the grid.
  predicate DirtyOk(b: Box, g: Geometry) {
    b == Clean(g) || BoxFits(b, g)
  }

  // The step keeps the dirty box in the grid: only reports of windows that do not fit, and
  // changes of the geometry, can spoil it.
  predicate Tidies(s: System, step: Step) {
    match step
    case Report(win) => BoxFits(win, s.pub.grid.geom)
    case Reshape(_) => false
    case _ => true
  }

  // As long as reported windows fit, a patch is never cut outside the grid: between changes
  // of the geometry every publish is safe.
  lemma TidyStep(s: System, step: Step)
    requires Inv(s) && ValidSystem(s) && Enabled(s, step) && DirtyOk(s.pub.dirty, s.pub.grid.geom) && !s.moved
    ensures PublishSafe(s)
    ensures Tidies(s, step) ==>
      var t := Next(s, step); DirtyOk(t.pub.dirty, t.pub.grid.geom) && !t.moved
  {
    hide Drain, AllWelcome, ValidMessage, SameOutside, RowStart, Receive, Outgoing;
  }

  // Reporting the window win once a full grid of the current geometry is out. After a publish
  // the next one is safe iff the window lies in the grid, or has no columns and starts inside;
  // on top of a dirty box with columns, iff it lies in the grid.
  lemma ReportExact(s: System, win: Box)
    requires Inv(s) && s.published.Some? && !s.moved && !s.pub.always && win.x0 <= win.xn && win.y0 <= win.yn
    ensures Inv(Reported(s, win))
    ensures s.pub.dirty == Clean(s.pub.grid.geom) ==>
      (PublishSafe(Reported(s, win)) <==>
         win.xn <= s.pub.grid.geom.width && (win.x0 == win.xn || win.yn <= s.pub.grid.geom.height))
    ensures BoxFits(s.pub.dirty, s.pub.grid.geom) && s.pub.dirty.x0 < s.pub.dirty.xn ==>
      (PublishSafe(Reported(s, win)) <==> BoxFits(win, s.pub.grid.geom))
  {
    hide Drain, AllWelcome, ValidMessage, ValidSub, SameOutside, RowStart;
    ReportKeepsInv(s, win);
  }

  // ---------- Two topics ----------

  ghost predicate AllUpdates(ms: seq<Message>) {
    forall k :: 0 <= k < |ms| ==> ms[k].Update? && ValidMessage(ms[k])
  }

  // The grid f once the patches us have been laid in that fit.
  function Overlaid(f: Grid, us: seq<Message>): (r: Grid)
    requires WellFormed(f) && AllUpdates(us)
    ensures WellFormed(r) && r.geom == f.geom
    decreases |us|
  {
    if us == [] then f
    else Overlaid(if Fits(f, us[0].patch) then Patched(f, us[0].patch) else f, us[1..])
  }

  lemma {:induction false} DrainUpdates(s: Sub, f: Grid, us: seq<Message>)
    requires ValidSub(s) && WellFormed(f) && View(s) == Some(f) && AllUpdates(us)
    ensures View(Drain(s, us)) == Some(Overlaid(f, us))
    decreases |us|
  {
    hide Receive, Patched, ValidMessage;
    if us != [] {
      LazyStep(s, us[0]);
      DrainUpdates(Receive(s, us[0]), if Fits(f, us[0].patch) then Patched(f, us[0].patch) else f, us[1..]);
    }
  }

  ghost predicate AllValid(ms: seq<Message>) {
    forall k :: 0 <= k < |ms| ==> ValidMessage(ms[k])
  }

  lemma {:induction false} DrainSplit(s: Sub, a: seq<Message>, b: seq<Message>)
    requires ValidSub(s) && AllValid(a) && AllValid(b)
    ensures AllValid(a + b) && Drain(s, a + b) == Drain(Drain(s, a), b)
    decreases |a|
  {
    hide Receive, ValidMessage;
    if a == [] {
      assert a + b == b;
    } else {
      assert (a + b)[0] == a[0] && (a + b)[1..] == a[1..] + b;
      DrainSplit(Receive(s, a[0]), a[1..], b);
    }
  }

  // Whatever was received before, the view is the last full grid received with the patches
  // received after it: two delivery orders matter only through these.
  lemma LastFullDecides(s: Sub, a: seq<Message>, f: Grid, us: seq<Message>)
    requires ValidSub(s) && AllValid(a) && WellFormed(f) && AllUpdates(us)
    ensures AllValid(a + [Full(f)] + us) && View(Drain(s, a + [Full(f)] + us)) == Some(Overlaid(f, us))
  {
    hide Receive, Overlaid;
    var full := [Full(f)];
    DrainSplit(s, a, full);
    DrainSplit(s, a + full, us);
    var v := Drain(s, a);
    assert full[1..] == [] && Drain(v, full) == Receive(v, Full(f));
    FullArrives(v, f);
    DrainUpdates(Receive(v, Full(f)), f, us);
  }

  // The two raw topics are separate. A full grid and a patch sent in either order: a patch
  // received before the full grid is lost, one received after it is laid in. So overtaking,
  // in either direction, is harmless iff the patch does not fit or changes nothing in the
  // full grid.
  lemma OvertakingExact(v: Sub, f: Grid, p: Patch)
    requires ValidSub(v) && WellFormed(f) && ValidMessage(Update(p))
    ensures AllValid([Full(f), Update(p)]) && AllValid([Update(p), Full(f)])
    ensures View(Drain(v, [Update(p), Full(f)])) == Some(f)
    ensures View(Drain(v, [Full(f), Update(p)])) == Some(if Fits(f, p) then Patched(f, p) else f)
    ensures View(Drain(v, [Update(p), Full(f)])) == View(Drain(v, [Full(f), Update(p)])) <==>
      (Fits(f, p) ==> Patched(f, p) == f)
  {
    hide Patched, ValidMessage, Receive, Drain;
    assert [Update(p)] + [Full(f)] + [] == [Update(p), Full(f)];
    assert [] + [Full(f)] + [Update(p)] == [Full(f), Update(p)];
    LastFullDecides(v, [Update(p)], f, []);
    LastFullDecides(v, [], f, [Update(p)]);
    assert [Update(p)][1..] == [];
  }

  // An overtaken patch that is lost: the subscriber ends with the older cost.
  lemma OvertakenPatchIsLost(g: Geometry, a: Cost, b: Cost)
    requires g.width == 1 && g.height == 1 && g.resolution > 0.0 && a != b
    ensures
      var full, update := Full(Grid(g, [a])), Update(Patch(0, 0, 1, 1, [b]));
      && ValidMessage(full) && ValidMessage(update)
      && View(Drain(Sub(None, None), [full, update])) == Some(Grid(g, [b]))
      && View(Drain(Sub(None, None), [update, full])) == Some(Grid(g, [a]))
  {
    assert RowStart(1, 1) == 1;
    OneCellPatch(a, b);
    OvertakingExact(Sub(None, None), Grid(g, [a]), Patch(0, 0, 1, 1, [b]));
  }

  lemma OneCellPatch(a: Cost, b: Cost)
    ensures RowStart(1, 1) == 1 && Lay([a], 1, 1, Patch(0, 0, 1, 1, [b])) == [b]
  {
    assert RowStart(1, 1) == 1 && RowStart(1, 0) == 0;
  }
}
