// CellData calls src "the closest obstacle" of its cell: when a finished labelling is right
// about that, as a condition on the obstacles alone.
module NearestObstacle {
  import opened Lattice
  import opened Wavefront

  ghost predicate IsNearest(sources: set<Cell>, c: Cell, t: Cell) {
    t in sources && forall s :: s in sources ==> Dist2(c, t) <= Dist2(c, s)
  }

  // Some source is within the radius of the grid cell c.
  ghost predicate InReach(p: Pass, sources: set<Cell>, c: Cell) {
    InGrid(p, c) && exists s :: s in sources && Near(p, c, s)
  }

  // What the documentation promises: every cell in reach is seen, with a nearest source.
  ghost predicate Exact(p: Pass, sources: set<Cell>, labels: Labels) {
    forall c :: InReach(p, sources, c) ==> c in labels && IsNearest(sources, c, labels[c])
  }

  // ---------- Paths along which nearest sources are handed on ----------

  // Whatever nearest source the cell q carries, it is one for its neighbour n.
  ghost predicate HandsOn(p: Pass, sources: set<Cell>, q: Cell, n: Cell) {
    && Adjacent(q, n) && InGrid(p, n)
    && forall t :: IsNearest(sources, q, t) ==> IsNearest(sources, n, t) && Near(p, n, t)
  }

  ghost predicate Leads(p: Pass, sources: set<Cell>, path: seq<Cell>) {
    && |path| > 0 && path[0] in sources
    && forall k :: 0 <= k < |path| - 1 ==> HandsOn(p, sources, path[k], path[k + 1])
  }

  ghost predicate Connected(p: Pass, sources: set<Cell>, c: Cell) {
    exists path :: Leads(p, sources, path) && path[|path| - 1] == c
  }

  lemma SourceIsNearest(sources: set<Cell>, s: Cell)
    requires s in sources
    ensures IsNearest(sources, s, s)
  {
    SelfDistance(s);
  }

  // The end of such a path carries a nearest source in every stable labelling.
  lemma {:induction false} PathGivesNearest(p: Pass, sources: set<Cell>, labels: Labels, path: seq<Cell>)
    requires Stable(p, sources, labels) && Leads(p, sources, path)
    ensures path[|path| - 1] in labels && IsNearest(sources, path[|path| - 1], labels[path[|path| - 1]])
    decreases |path|
  {
    hide Dist2, HasParent, Adjacent, Near, HandsOn, IsNearest;
    if |path| == 1 {
      SourceIsNearest(sources, path[0]);
    } else {
      var n := |path| - 1;
      PathGivesNearest(p, sources, labels, path[..n]);
      assert HandsOn(p, sources, path[n - 1], path[n - 1 + 1]);
      NearestHandedOn(p, sources, labels, path[n - 1], path[n]);
    }
  }

  lemma NearestHandedOn(p: Pass, sources: set<Cell>, labels: Labels, q: Cell, n: Cell)
    requires Stable(p, sources, labels) && HandsOn(p, sources, q, n)
    requires q in labels && IsNearest(sources, q, labels[q])
    ensures n in labels && IsNearest(sources, n, labels[n])
  {
    hide Dist2, HasParent, Adjacent, Near;
    assert Labelled(labels, n, labels[q]);
  }

  // ---------- Paths of an exact labelling ----------

  // One source s that is nearest all along the path.
  ghost predicate Shares(p: Pass, sources: set<Cell>, path: seq<Cell>, s: Cell) {
    && |path| > 0 && path[0] == s
    && (forall k :: 0 <= k < |path| ==> InGrid(p, path[k]) && IsNearest(sources, path[k], s) && Near(p, path[k], s))
    && (forall k :: 0 <= k < |path| - 1 ==> Adjacent(path[k], path[k + 1]))
  }

  ghost predicate Owned(p: Pass, sources: set<Cell>, c: Cell) {
    exists path, s :: Shares(p, sources, path, s) && path[|path| - 1] == c
  }

  lemma ExtendShared(p: Pass, sources: set<Cell>, path: seq<Cell>, s: Cell, c: Cell)
    requires Shares(p, sources, path, s)
    requires Adjacent(path[|path| - 1], c) && InGrid(p, c) && IsNearest(sources, c, s) && Near(p, c, s)
    ensures Shares(p, sources, path + [c], s)
  {
    hide IsNearest, Near, Adjacent, InGrid;
  }

  // In an exact labelling the cells from c back to its source all have that source nearest.
  lemma {:induction false} ExactHasPath(p: Pass, sources: set<Cell>, labels: Labels, c: Cell) returns (path: seq<Cell>)
    requires Stable(p, sources, labels) && Exact(p, sources, labels) && c in labels
    ensures Shares(p, sources, path, labels[c]) && path[|path| - 1] == c
    decreases Dist2(c, labels[c])
  {
    hide Dist2, IsNearest, Near, Adjacent, Labelled, Shares;
    var s := labels[c];
    assert InReach(p, sources, c);
    if c == s {
      path := [c];
      SharedStart(p, sources, s);
    } else {
      var q := ParentOf(labels, c);
      path := ExactHasPath(p, sources, labels, q);
      ExtendShared(p, sources, path, s, c);
      path := path + [c];
    }
  }

  lemma SharedStart(p: Pass, sources: set<Cell>, s: Cell)
    requires InGrid(p, s) && IsNearest(sources, s, s) && Near(p, s, s)
    ensures Shares(p, sources, [s], s)
  {
    hide IsNearest, Near;
  }

  lemma ParentOf(labels: Labels, c: Cell) returns (q: Cell)
    requires c in labels && HasParent(labels, CellData(c, labels[c])) && c != labels[c]
    ensures q in labels && labels[q] == labels[c] && Adjacent(q, c) && Dist2(q, labels[c]) < Dist2(c, labels[c])
  {
    hide Dist2, Adjacent;
    var s := labels[c];
    StepAdjacent(c, s);
    StepNearer(c, s);
    q := if StepX(c, s) != c && StepX(c, s) in labels && labels[StepX(c, s)] == s then StepX(c, s) else StepY(c, s);
  }

  // ---------- When the documentation is right ----------

  // No cell in reach has two nearest sources.
  ghost predicate NoTies(p: Pass, sources: set<Cell>) {
    forall c, s, t :: InReach(p, sources, c) && IsNearest(sources, c, s) && IsNearest(sources, c, t) ==> s == t
  }

  lemma SharedLeads(p: Pass, sources: set<Cell>, path: seq<Cell>, s: Cell)
    requires NoTies(p, sources) && Shares(p, sources, path, s)
    ensures Leads(p, sources, path)
  {
    hide IsNearest, Near, Adjacent, InGrid, HandsOn;
    SharedSource(p, sources, path, s);
    forall k | 0 <= k < |path| - 1
      ensures HandsOn(p, sources, path[k], path[k + 1])
    {
      UniqueHandsOn(p, sources, path[k], path[k + 1], s);
    }
  }

  lemma SharedSource(p: Pass, sources: set<Cell>, path: seq<Cell>, s: Cell)
    requires Shares(p, sources, path, s)
    ensures s in sources
  {
    hide Near, Adjacent, InGrid, Dist2;
  }

  lemma UniqueHandsOn(p: Pass, sources: set<Cell>, q: Cell, n: Cell, s: Cell)
    requires NoTies(p, sources) && InGrid(p, q) && InGrid(p, n) && Adjacent(q, n)
    requires IsNearest(sources, q, s) && Near(p, q, s) && IsNearest(sources, n, s) && Near(p, n, s)
    ensures HandsOn(p, sources, q, n)
  {
    hide Near, Adjacent, InGrid, Dist2;
    assert InReach(p, sources, q);
  }

  ghost predicate AllConnected(p: Pass, sources: set<Cell>) {
    forall c :: InReach(p, sources, c) ==> Connected(p, sources, c)
  }

  ghost predicate AllOwned(p: Pass, sources: set<Cell>) {
    forall c :: InReach(p, sources, c) ==> Owned(p, sources, c)
  }

  lemma ConnectedIsExact(p: Pass, sources: set<Cell>, labels: Labels)
    requires Stable(p, sources, labels) && AllConnected(p, sources)
    ensures Exact(p, sources, labels)
  {
    hide Stable, InReach, Leads, IsNearest;
    forall c | InReach(p, sources, c)
      ensures c in labels && IsNearest(sources, c, labels[c])
    {
      var path := PathTo(p, sources, c);
      PathGivesNearest(p, sources, labels, path);
    }
  }

  lemma PathTo(p: Pass, sources: set<Cell>, c: Cell) returns (path: seq<Cell>)
    requires Connected(p, sources, c)
    ensures Leads(p, sources, path) && path[|path| - 1] == c
  {
    hide HandsOn;
    path :| Leads(p, sources, path) && path[|path| - 1] == c;
  }

  lemma ExactIsOwned(p: Pass, sources: set<Cell>, labels: Labels, c: Cell)
    requires Stable(p, sources, labels) && Exact(p, sources, labels) && InReach(p, sources, c)
    ensures Owned(p, sources, c)
    ensures NoTies(p, sources) ==> Connected(p, sources, c)
  {
    hide Stable, InReach, HandsOn, IsNearest, NoTies, Shares;
    var path := ExactHasPath(p, sources, labels, c);
    if NoTies(p, sources) {
      SharedLeads(p, sources, path, labels[c]);
    }
  }

  // Every label is a nearest source if every cell in reach lies at the end of a path that
  // hands its nearest sources on, and only if it lies at the end of a path along which one
  // source stays nearest. Where no cell has two nearest sources, the two conditions are one.
  lemma PathsDecide(p: Pass, sources: set<Cell>, labels: Labels)
    requires Stable(p, sources, labels)
    ensures AllConnected(p, sources) ==> Exact(p, sources, labels)
    ensures Exact(p, sources, labels) ==> AllOwned(p, sources)
    ensures NoTies(p, sources) ==> (Exact(p, sources, labels) <==> AllConnected(p, sources))
  {
    hide Stable, InReach, Connected, Owned, NoTies, Exact;
    if AllConnected(p, sources) {
      ConnectedIsExact(p, sources, labels);
    }
    if Exact(p, sources, labels) {
      forall c | InReach(p, sources, c)
        ensures Owned(p, sources, c) && (NoTies(p, sources) ==> Connected(p, sources, c))
      {
        ExactIsOwned(p, sources, labels, c);
      }
    }
  }

  // ---------- Two obstacles ----------

  // How much farther x is from t than from s, squared, on one axis.
  function Lead(x: int, s: int, t: int): int {
    Square(Abs(x - t)) - Square(Abs(x - s))
  }

  // One step towards s does not shorten the lead of s, or leaves it at least what it is at s.
  lemma LeadStep(x: int, s: int, t: int)
    ensures Lead(Toward(x, s), s, t) >= Lead(x, s, t)
      || (Lead(Toward(x, s), s, t) >= Lead(s, s, t) && Lead(x, s, t) >= Lead(s, s, t))
    ensures Lead(s, s, t) >= 0 && (Lead(s, s, t) == 0 <==> s == t)
  {
    hide Square;
    LeadIsLinear(x, s, t);
    LeadIsLinear(Toward(x, s), s, t);
    LeadIsLinear(s, s, t);
    LeadProducts(s - Toward(x, s), s - t, Toward(x, s) - x);
  }

  // Lead(x) = (s - t)^2 - 2 (s - x) (s - t).
  lemma LeadIsLinear(x: int, s: int, t: int)
    ensures Lead(x, s, t) == (s - t) * (s - t) - 2 * ((s - x) * (s - t))
  {
    hide Square;
    SquareOf(x - t);
    SquareOf(x - s);
    var a, u := s - x, s - t;
    assert x - t == u - a && x - s == -a;
    assert (u - a) * (u - a) == u * u - 2 * (a * u) + a * a;
    assert (-a) * (-a) == a * a;
  }

  // d is what remains after a step e towards 0 from d + e.
  lemma LeadProducts(d: int, u: int, e: int)
    requires e == 0 ==> d == 0
    requires -1 <= e <= 1 && (e == 1 ==> d >= 0) && (e == -1 ==> d <= 0)
    ensures d * u <= (d + e) * u || (d * u <= 0 && (d + e) * u <= 0)
    ensures u * u >= 0 && (u * u == 0 <==> u == 0)
  {
    assert (d + e) * u == d * u + e * u;
  }

  // c is at least as near to s as to t.
  predicate Favours(c: Cell, s: Cell, t: Cell) {
    Dist2(c, s) <= Dist2(c, t)
  }

  // From a cell that favours s, a step towards s exists that favours s too, strictly if
  // the cell did.
  lemma FavouredStep(c: Cell, s: Cell, t: Cell) returns (q: Cell)
    requires c != s && s != t && Favours(c, s, t)
    ensures q == StepX(c, s) || q == StepY(c, s)
    ensures q != c && Favours(q, s, t)
    ensures !Favours(c, t, s) ==> !Favours(q, t, s)
  {
    hide Square;
    LeadStep(c.x, s.x, t.x);
    LeadStep(c.y, s.y, t.y);
    if c.x != s.x && Lead(Toward(c.x, s.x), s.x, t.x) >= Lead(c.x, s.x, t.x) {
      q := StepX(c, s);
    } else if c.y != s.y && Lead(Toward(c.y, s.y), s.y, t.y) >= Lead(c.y, s.y, t.y) {
      q := StepY(c, s);
    } else {
      q := if c.x != s.x then StepX(c, s) else StepY(c, s);
    }
    LeadTotal(c, s, t);
    LeadTotal(q, s, t);
  }

  lemma LeadTotal(c: Cell, s: Cell, t: Cell)
    ensures Dist2(c, t) - Dist2(c, s) == Lead(c.x, s.x, t.x) + Lead(c.y, s.y, t.y)
  {
    hide Square;
  }

  lemma ExtendLeads(p: Pass, sources: set<Cell>, q: Cell, c: Cell)
    requires Connected(p, sources, q) && HandsOn(p, sources, q, c)
    ensures Connected(p, sources, c)
  {
    hide HandsOn;
    var path :| Leads(p, sources, path) && path[|path| - 1] == q;
    var longer := path + [c];
    assert Leads(p, sources, longer) && longer[|longer| - 1] == c;
  }

  lemma StartLeads(p: Pass, sources: set<Cell>, s: Cell)
    requires s in sources
    ensures Connected(p, sources, s)
  {
    assert Leads(p, sources, [s]) && [s][|[s]| - 1] == s;
  }

  // With no obstacles but s and t, cells that favour s are connected.
  lemma {:induction false} TwoConnected(p: Pass, sources: set<Cell>, c: Cell, s: Cell, t: Cell)
    requires sources <= {s, t} && s in sources && s != t
    requires InGrid(p, c) && InGrid(p, s) && Near(p, c, s) && Favours(c, s, t)
    ensures Connected(p, sources, c)
    decreases Dist2(c, s)
  {
    hide Dist2, Favours, Connected, HandsOn, StepX, StepY, Near, InGrid;
    if c == s {
      StartLeads(p, sources, s);
    } else {
      var q := FavouredStep(c, s, t);
      StepNearer(c, s);
      StepAdjacent(c, s);
      StepInGrid(p, c, s);
      CloserIsNear(p, q, c, s);
      TwoConnected(p, sources, q, s, t);
      TwoHandOn(p, sources, q, c, s, t);
      ExtendLeads(p, sources, q, c);
    }
  }

  lemma CloserIsNear(p: Pass, q: Cell, c: Cell, s: Cell)
    requires Dist2(q, s) < Dist2(c, s) && Near(p, c, s)
    ensures Near(p, q, s)
  {
  }

  lemma TwoHandOn(p: Pass, sources: set<Cell>, q: Cell, c: Cell, s: Cell, t: Cell)
    requires sources <= {s, t} && s in sources && s != t
    requires Adjacent(q, c) && InGrid(p, c) && Near(p, c, s) && Favours(c, s, t)
    requires Favours(q, s, t) && (!Favours(c, t, s) ==> !Favours(q, t, s))
    ensures HandsOn(p, sources, q, c)
  {
    hide Dist2, Adjacent, InGrid;
    forall u | IsNearest(sources, q, u)
      ensures IsNearest(sources, c, u) && Near(p, c, u)
    {
      assert u == s || u == t;
    }
  }

  // On every grid with at most two obstacles the documentation is right.
  lemma TwoObstaclesExact(p: Pass, sources: set<Cell>, labels: Labels, s: Cell, t: Cell)
    requires Stable(p, sources, labels) && sources <= {s, t} && s != t
    ensures Exact(p, sources, labels)
  {
    hide Dist2, Connected, Near, InGrid, HasParent, Labelled, IsNearest;
    forall c | InReach(p, sources, c)
      ensures Connected(p, sources, c)
    {
      var u :| u in sources && Near(p, c, u);
      var v := if u == s then t else s;
      if v in sources && !Favours(c, u, v) {
        CloserObstacle(p, c, u, v);
        TwoConnected(p, sources, c, v, u);
      } else if v in sources {
        TwoConnected(p, sources, c, u, v);
      } else {
        OneConnected(p, sources, c, u);
      }
    }
    PathsDecide(p, sources, labels);
  }

  lemma CloserObstacle(p: Pass, c: Cell, u: Cell, v: Cell)
    requires Near(p, c, u) && !Favours(c, u, v)
    ensures Near(p, c, v) && Favours(c, v, u)
  {
  }

  lemma {:induction false} OneConnected(p: Pass, sources: set<Cell>, c: Cell, s: Cell)
    requires sources == {s} && InGrid(p, c) && InGrid(p, s) && Near(p, c, s)
    ensures Connected(p, sources, c)
    decreases Manhattan(c, s)
  {
    hide Dist2, Connected, HandsOn, StepTo, Near, InGrid, Manhattan;
    if c == s {
      StartLeads(p, sources, s);
    } else {
      var q := StepTo(c, s);
      StepToFacts(p, c, s);
      StepToNear(p, c, s);
      OneConnected(p, sources, q, s);
      OneHandsOn(p, sources, q, c, s);
      ExtendLeads(p, sources, q, c);
    }
  }

  lemma StepToNear(p: Pass, c: Cell, s: Cell)
    requires c != s && Near(p, c, s)
    ensures Near(p, StepTo(c, s), s)
  {
    hide Dist2;
    StepNearer(c, s);
  }

  lemma OneHandsOn(p: Pass, sources: set<Cell>, q: Cell, c: Cell, s: Cell)
    requires sources == {s} && Adjacent(q, c) && InGrid(p, c) && Near(p, c, s)
    ensures HandsOn(p, sources, q, c)
  {
    hide Dist2, Near;
  }

  lemma OnlyNear(p: Pass, sources: set<Cell>, labels: Labels, q: Cell, n: Cell, s: Cell)
    requires Stable(p, sources, labels) && q in labels && labels[q] == s
    requires Adjacent(q, n) && InGrid(p, n) && Near(p, n, s)
    requires forall t :: t in sources && t != s ==> Dist2(n, t) > Dist2(n, s)
    ensures n in labels && labels[n] == s
  {
    hide Dist2, Adjacent, HasParent, Near;
    assert Labelled(labels, n, s);
  }

  // ---------- Three obstacles are too many ----------

  const LOW: Cell := Cell(0, 0)
  const MID: Cell := Cell(2, 1)
  const HIGH: Cell := Cell(3, 3)

  lemma ExampleDistances()
    ensures Dist2(Cell(0, 1), LOW) == 1 && Dist2(Cell(0, 1), MID) == 4 && Dist2(Cell(0, 1), HIGH) == 13
    ensures Dist2(Cell(0, 2), LOW) == 4 && Dist2(Cell(0, 2), MID) == 5 && Dist2(Cell(0, 2), HIGH) == 10
    ensures Dist2(Cell(0, 3), LOW) == 9 && Dist2(Cell(0, 3), MID) == 8 && Dist2(Cell(0, 3), HIGH) == 9
    ensures Dist2(Cell(2, 3), LOW) == 13 && Dist2(Cell(2, 3), MID) == 4 && Dist2(Cell(2, 3), HIGH) == 1
    ensures Dist2(Cell(1, 3), LOW) == 10 && Dist2(Cell(1, 3), MID) == 5 && Dist2(Cell(1, 3), HIGH) == 4
    ensures Square(3) == 9
  {
    hide Square, Dist2;
    SquareIsProduct(0);
    SquareIsProduct(1);
    SquareIsProduct(2);
    SquareIsProduct(3);
    DistanceOf(Cell(0, 1), LOW, 0, 1); DistanceOf(Cell(0, 1), MID, 2, 0); DistanceOf(Cell(0, 1), HIGH, 3, 2);
    DistanceOf(Cell(0, 2), LOW, 0, 2); DistanceOf(Cell(0, 2), MID, 2, 1); DistanceOf(Cell(0, 2), HIGH, 3, 1);
    DistanceOf(Cell(0, 3), LOW, 0, 3); DistanceOf(Cell(0, 3), MID, 2, 2); DistanceOf(Cell(0, 3), HIGH, 3, 0);
    DistanceOf(Cell(2, 3), LOW, 2, 3); DistanceOf(Cell(2, 3), MID, 0, 2); DistanceOf(Cell(2, 3), HIGH, 1, 0);
    DistanceOf(Cell(1, 3), LOW, 1, 3); DistanceOf(Cell(1, 3), MID, 1, 2); DistanceOf(Cell(1, 3), HIGH, 2, 0);
  }

  lemma DistanceOf(c: Cell, s: Cell, dx: nat, dy: nat)
    requires Abs(c.x - s.x) == dx && Abs(c.y - s.y) == dy
    ensures Dist2(c, s) == Square(dx) + Square(dy)
  {
    hide Square;
  }

  lemma ExampleNeighbours(p: Pass, labels: Labels)
    requires p.width == 4 && p.height == 4 && p.radius == 3 && Stable(p, {LOW, MID, HIGH}, labels)
    ensures Cell(0, 2) in labels && labels[Cell(0, 2)] == LOW
    ensures Cell(1, 3) in labels && labels[Cell(1, 3)] == HIGH
  {
    hide Stable, Dist2;
    ExampleSources(p, labels);
    ExampleStep(p, labels, LOW, Cell(0, 1), LOW);
    ExampleStep(p, labels, Cell(0, 1), Cell(0, 2), LOW);
    ExampleStep(p, labels, HIGH, Cell(2, 3), HIGH);
    ExampleStep(p, labels, Cell(2, 3), Cell(1, 3), HIGH);
  }

  lemma ExampleStep(p: Pass, labels: Labels, q: Cell, n: Cell, s: Cell)
    requires p.width == 4 && p.height == 4 && p.radius == 3 && Stable(p, {LOW, MID, HIGH}, labels)
    requires q in labels && labels[q] == s
    requires (s == LOW && n == Cell(0, 1) && q == LOW) || (s == LOW && n == Cell(0, 2) && q == Cell(0, 1))
          || (s == HIGH && n == Cell(2, 3) && q == HIGH) || (s == HIGH && n == Cell(1, 3) && q == Cell(2, 3))
    ensures n in labels && labels[n] == s
  {
    hide Dist2, Square, HasParent, Stable;
    ExampleDistances();
    OnlyNear(p, {LOW, MID, HIGH}, labels, q, n, s);
  }

  lemma ExampleSources(p: Pass, labels: Labels)
    requires Stable(p, {LOW, MID, HIGH}, labels)
    ensures LOW in labels && labels[LOW] == LOW && HIGH in labels && labels[HIGH] == HIGH
  {
    hide HasParent, Labelled, Near;
  }

  // On this 4 x 4 grid every stable labelling gives (0, 3) a source at squared distance 9,
  // although the obstacle (2, 1) is at squared distance 8: neither neighbour of (0, 3)
  // carries it. Without one of the three, TwoObstaclesExact applies.
  lemma LabelsMayMissNearest(p: Pass, labels: Labels)
    requires p.width == 4 && p.height == 4 && p.radius == 3 && Stable(p, {LOW, MID, HIGH}, labels)
    ensures Cell(0, 3) in labels && Dist2(Cell(0, 3), labels[Cell(0, 3)]) == 9
    ensures Dist2(Cell(0, 3), MID) == 8
    ensures !Exact(p, {LOW, MID, HIGH}, labels)
  {
    hide Dist2, Square;
    ExampleDistances();
    ExampleNeighbours(p, labels);
    assert Adjacent(Cell(0, 2), Cell(0, 3)) && Labelled(labels, Cell(0, 3), LOW);
    assert labels[Cell(0, 3)] in {LOW, MID, HIGH} && HasParent(labels, CellData(Cell(0, 3), labels[Cell(0, 3)]));
    assert Near(p, Cell(0, 3), MID) && InReach(p, {LOW, MID, HIGH}, Cell(0, 3));
  }

  // ---------- A cell in reach that is never seen ----------

  lemma Known(c: Cell, s: Cell, d: int)
    requires (c.x - s.x) * (c.x - s.x) + (c.y - s.y) * (c.y - s.y) == d
    ensures Dist2(c, s) == d
  {
    hide Square;
    SquareOf(c.x - s.x);
    SquareOf(c.y - s.y);
  }

  const CORNERED: set<Cell> := {Cell(1, 5), Cell(3, 4), Cell(5, 1)}

  // The distances of the cells on the two edges of the grid.
  lemma EdgeDistances(x: int)
    requires 0 <= x <= 5
    ensures Dist2(Cell(x, 0), Cell(5, 1)) == (5 - x) * (5 - x) + 1 && Dist2(Cell(x, 0), Cell(3, 4)) == (3 - x) * (3 - x) + 16
    ensures Dist2(Cell(x, 0), Cell(1, 5)) == (1 - x) * (1 - x) + 25
    ensures Dist2(Cell(0, x), Cell(1, 5)) == (5 - x) * (5 - x) + 1 && Dist2(Cell(0, x), Cell(3, 4)) == (4 - x) * (4 - x) + 9
    ensures Dist2(Cell(0, x), Cell(5, 1)) == (1 - x) * (1 - x) + 25
  {
    hide Dist2;
    Known(Cell(x, 0), Cell(5, 1), (x - 5) * (x - 5) + 1);
    Known(Cell(x, 0), Cell(3, 4), (x - 3) * (x - 3) + 16);
    Known(Cell(x, 0), Cell(1, 5), (x - 1) * (x - 1) + 25);
    Known(Cell(0, x), Cell(1, 5), 1 + (x - 5) * (x - 5));
    Known(Cell(0, x), Cell(3, 4), 9 + (x - 4) * (x - 4));
    Known(Cell(0, x), Cell(5, 1), 25 + (x - 1) * (x - 1));
  }

  // Along both edges one obstacle is strictly nearer than the two others.
  lemma EdgeNearest(x: int)
    requires 1 <= x <= 5
    ensures forall t :: t in CORNERED && t != Cell(5, 1) ==> Dist2(Cell(x, 0), t) > Dist2(Cell(x, 0), Cell(5, 1))
    ensures forall t :: t in CORNERED && t != Cell(1, 5) ==> Dist2(Cell(0, x), t) > Dist2(Cell(0, x), Cell(1, 5))
    ensures Dist2(Cell(x, 0), Cell(5, 1)) <= 17 && Dist2(Cell(0, x), Cell(1, 5)) <= 17
  {
    hide Dist2;
    EdgeDistances(x);
    EdgeArithmetic(x);
  }

  lemma EdgeArithmetic(x: int)
    requires 1 <= x <= 5
    ensures (5 - x) * (5 - x) + 1 <= 17 && (5 - x) * (5 - x) + 1 < (3 - x) * (3 - x) + 16
    ensures (5 - x) * (5 - x) + 1 < (1 - x) * (1 - x) + 25 && (5 - x) * (5 - x) + 1 < (4 - x) * (4 - x) + 9
  {
    assert x == 1 || x == 2 || x == 3 || x == 4 || x == 5;
  }

  // One step along an edge.
  lemma EdgeStep(p: Pass, labels: Labels, q: Cell, n: Cell, s: Cell)
    requires p.width == 6 && p.height == 6 && p.radius == 5 && Stable(p, CORNERED, labels)
    requires q in labels && labels[q] == s && Adjacent(q, n)
    requires (s == Cell(5, 1) && n.y == 0 && 1 <= n.x <= 5) || (s == Cell(1, 5) && n.x == 0 && 1 <= n.y <= 5)
    ensures n in labels && labels[n] == s
  {
    hide Dist2, Square, Stable, Adjacent;
    SquareIsProduct(5);
    EdgeNearest(if n.y == 0 then n.x else n.y);
    assert n == Cell(n.x, n.y);
    OnlyNear(p, CORNERED, labels, q, n, s);
  }

  lemma CorneredSources(p: Pass, labels: Labels)
    requires Stable(p, CORNERED, labels)
    ensures Cell(1, 5) in labels && labels[Cell(1, 5)] == Cell(1, 5) && Cell(5, 1) in labels && labels[Cell(5, 1)] == Cell(5, 1)
  {
    hide HasParent, Labelled, Near;
  }

  lemma {:induction false} CorneredEdges(p: Pass, labels: Labels, x: int)
    requires p.width == 6 && p.height == 6 && p.radius == 5 && Stable(p, CORNERED, labels) && 1 <= x <= 5
    ensures Cell(x, 0) in labels && labels[Cell(x, 0)] == Cell(5, 1)
    ensures Cell(0, x) in labels && labels[Cell(0, x)] == Cell(1, 5)
    decreases 5 - x
  {
    hide Dist2, Stable;
    if x == 5 {
      CorneredSources(p, labels);
      EdgeStep(p, labels, Cell(5, 1), Cell(5, 0), Cell(5, 1));
      EdgeStep(p, labels, Cell(1, 5), Cell(0, 5), Cell(1, 5));
    } else {
      CorneredEdges(p, labels, x + 1);
      EdgeStep(p, labels, Cell(x + 1, 0), Cell(x, 0), Cell(5, 1));
      EdgeStep(p, labels, Cell(0, x + 1), Cell(0, x), Cell(1, 5));
    }
  }

  // On this 6 x 6 grid with radius 5 the cell (0, 0) is at distance exactly 5 from the obstacle
  // (3, 4), and every stable labelling leaves it out: the seen part of the disc of an obstacle
  // can be smaller than the disc.
  lemma ReachedCellUnseen(p: Pass, labels: Labels)
    requires p.width == 6 && p.height == 6 && p.radius == 5 && Stable(p, CORNERED, labels)
    ensures InReach(p, CORNERED, Cell(0, 0)) && Cell(0, 0) !in labels
  {
    hide Dist2, Square, Labelled, Adjacent;
    CorneredEdges(p, labels, 1);
    var c := Cell(0, 0);
    Known(c, Cell(1, 5), 26);
    Known(c, Cell(3, 4), 25);
    Known(c, Cell(5, 1), 26);
    SquareIsProduct(5);
    assert Cell(3, 4) in CORNERED && Near(p, c, Cell(3, 4));
    assert StepX(c, Cell(3, 4)) == Cell(1, 0) && StepY(c, Cell(3, 4)) == Cell(0, 1);
  }

  // ---------- Ties ----------

  // With three obstacles on the diagonal of a 3 x 3 grid, the corners (0, 2) and (2, 0) are
  // reached only from cells that have two nearest obstacles.
  const DIAGONAL: set<Cell> := {Cell(0, 0), Cell(1, 1), Cell(2, 2)}

  // Ties go to the middle obstacle, or away from it.
  function Label3(inward: bool, c: Cell): Cell {
    if c == Cell(1, 1) then c
    else if inward then (if c == Cell(0, 0) || c == Cell(2, 2) then c else Cell(1, 1))
    else if c.x + c.y <= 2 then Cell(0, 0) else Cell(2, 2)
  }

  function Labels3(inward: bool): Labels {
    map x, y | 0 <= x < 3 && 0 <= y < 3 :: Cell(x, y) := Label3(inward, Cell(x, y))
  }

  lemma Labels3At(inward: bool, c: Cell)
    ensures c in Labels3(inward) <==> 0 <= c.x < 3 && 0 <= c.y < 3
    ensures c in Labels3(inward) ==> Labels3(inward)[c] == Label3(inward, c)
  {
    assert c == Cell(c.x, c.y);
  }

  // The square of a difference on this grid.
  function Small(n: int): nat {
    if n == 0 then 0 else if -1 <= n <= 1 then 1 else 4
  }

  lemma SmallSquare(n: int)
    requires -2 <= n <= 2
    ensures Square(Abs(n)) == Small(n)
  {
    SquareOf(n);
  }

  lemma Distance3(c: Cell, s: Cell)
    requires 0 <= c.x < 3 && 0 <= c.y < 3 && 0 <= s.x < 3 && 0 <= s.y < 3
    ensures Dist2(c, s) == Small(c.x - s.x) + Small(c.y - s.y)
  {
    hide Square, Small;
    SmallSquare(c.x - s.x);
    SmallSquare(c.y - s.y);
  }

  lemma Distances3(c: Cell)
    requires 0 <= c.x < 3 && 0 <= c.y < 3
    ensures Dist2(c, Cell(0, 0)) == Small(c.x) + Small(c.y)
    ensures Dist2(c, Cell(1, 1)) == Small(c.x - 1) + Small(c.y - 1)
    ensures Dist2(c, Cell(2, 2)) == Small(c.x - 2) + Small(c.y - 2)
    ensures Square(2) == 4
  {
    hide Square, Small, Dist2;
    Distance3(c, Cell(0, 0));
    Distance3(c, Cell(1, 1));
    Distance3(c, Cell(2, 2));
    SquareIsProduct(2);
  }

  predicate Corner3(c: Cell) {
    c == Cell(0, 2) || c == Cell(2, 0)
  }

  // Away from the two corners, or with ties going inward, labels are nearest.
  lemma Nearest3(inward: bool, c: Cell, s: Cell)
    requires 0 <= c.x < 3 && 0 <= c.y < 3 && s in DIAGONAL && (inward || !Corner3(c))
    ensures Dist2(c, Label3(inward, c)) <= Dist2(c, s)
  {
    hide Dist2, Square;
    Distances3(c);
  }

  // The label of n is at least as near as any obstacle a neighbour could hand on.
  lemma Labelled3(inward: bool, c: Cell, n: Cell)
    requires 0 <= c.x < 3 && 0 <= c.y < 3 && 0 <= n.x < 3 && 0 <= n.y < 3 && Adjacent(c, n)
    ensures Dist2(n, Label3(inward, n)) <= Dist2(n, Label3(inward, c))
  {
    hide Dist2, Square;
    if inward || !Corner3(n) {
      Nearest3(inward, n, Label3(inward, c));
    } else {
      Distances3(n);
      BesideCorner(c, n);
    }
  }

  lemma BesideCorner(c: Cell, n: Cell)
    requires 0 <= c.x < 3 && 0 <= c.y < 3 && Corner3(n) && Adjacent(c, n)
    ensures c != Cell(1, 1)
  {
  }

  lemma Parent3(inward: bool, c: Cell)
    requires c in Labels3(inward)
    ensures HasParent(Labels3(inward), CellData(c, Label3(inward, c)))
  {
    var s := Label3(inward, c);
    Labels3At(inward, c);
    Labels3At(inward, StepX(c, s));
    Labels3At(inward, StepY(c, s));
  }

  lemma Stable3(p: Pass, inward: bool)
    requires p.width == 3 && p.height == 3 && p.radius == 2
    ensures Stable(p, DIAGONAL, Labels3(inward))
  {
    hide Dist2, HasParent, Adjacent, Label3, Labels3, Square;
    var labels := Labels3(inward);
    forall c | c in labels
      ensures InGrid(p, c) && labels[c] in DIAGONAL && Near(p, c, labels[c]) && HasParent(labels, CellData(c, labels[c]))
    {
      Labels3At(inward, c);
      Near3(p, inward, c);
      Parent3(inward, c);
    }
    forall c, n | c in labels && Adjacent(c, n) && InGrid(p, n) && Near(p, n, labels[c])
      ensures Labelled(labels, n, labels[c])
    {
      Labels3At(inward, c);
      Labels3At(inward, n);
      Labelled3(inward, c, n);
    }
    forall s | s in DIAGONAL
      ensures InGrid(p, s) && s in labels && labels[s] == s
    {
      Labels3At(inward, s);
      Own3(inward, s);
    }
  }

  lemma Near3(p: Pass, inward: bool, c: Cell)
    requires p.radius == 2 && 0 <= c.x < 3 && 0 <= c.y < 3
    ensures Label3(inward, c) in DIAGONAL && Near(p, c, Label3(inward, c))
  {
    hide Dist2, Square;
    Distances3(c);
  }

  lemma Own3(inward: bool, s: Cell)
    requires s in DIAGONAL
    ensures Label3(inward, s) == s
  {
  }

  // Two stable labellings of one grid, one exact and one not: being stable does not say how
  // ties were broken, and that can decide.
  lemma TiesDecide(p: Pass)
    requires p.width == 3 && p.height == 3 && p.radius == 2
    ensures Stable(p, DIAGONAL, Labels3(true)) && Exact(p, DIAGONAL, Labels3(true))
    ensures Stable(p, DIAGONAL, Labels3(false)) && !Exact(p, DIAGONAL, Labels3(false))
  {
    hide Dist2, Square, Stable, Labels3;
    Stable3(p, true);
    Stable3(p, false);
    forall c | InReach(p, DIAGONAL, c)
      ensures c in Labels3(true) && IsNearest(DIAGONAL, c, Labels3(true)[c])
    {
      Labels3At(true, c);
      forall s | s in DIAGONAL
        ensures Dist2(c, Labels3(true)[c]) <= Dist2(c, s)
      {
        Nearest3(true, c, s);
      }
      Near3(p, true, c);
    }
    var corner := Cell(0, 2);
    Labels3At(false, corner);
    Distances3(corner);
    assert Near(p, corner, Cell(1, 1)) && InReach(p, DIAGONAL, corner);
  }
}
