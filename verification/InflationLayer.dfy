// InflationLayer: caches, bins and the pass over the master grid, method by method.
module Inflation {
  import opened Lattice
  import opened RowMajor
  import opened DistanceRanking
  import opened Wavefront
  import opened InflationCost
  import opened GridKernel
  import opened GridCells
  import opened CostmapValue
  import opened Coordinates

  // The squared distance of every offset with coordinates below len.
  ghost predicate DistancesCached(ds: seq<nat>, len: nat) {
    && |ds| == RowStart(len, len)
    && forall i, j :: 0 <= i < len && 0 <= j < len ==>
         Index(len, j, i) < |ds| && ds[Index(len, j, i)] == Square(i) + Square(j)
  }

  ghost predicate CostsCached(cs: seq<Cost>, len: nat, m: CostModel) {
    && ValidModel(m)
    && |cs| == RowStart(len, len)
    && forall i, j :: 0 <= i < len && 0 <= j < len ==>
         Index(len, j, i) < |cs| && cs[Index(len, j, i)] == ComputeCost(m, Square(i) + Square(j))
  }

  // seen_ as the set of labelled cells.
  ghost predicate SeenMatches(seen: seq<bool>, p: Pass, labels: Labels) {
    && |seen| == RowStart(p.width, p.height)
    && forall c :: InGrid(p, c) ==>
         Index(p.width, c.x, c.y) < |seen| && (seen[Index(p.width, c.x, c.y)] <==> c in labels)
  }

  lemma SeeCell(seen: seq<bool>, p: Pass, labels: Labels, c: Cell, s: Cell)
    requires SeenMatches(seen, p, labels) && InGrid(p, c)
    ensures SeenMatches(seen[Index(p.width, c.x, c.y) := true], p, labels[c := s])
  {
    hide RowStart;
    var seen' := seen[Index(p.width, c.x, c.y) := true];
    forall d | InGrid(p, d)
      ensures Index(p.width, d.x, d.y) < |seen'| && (seen'[Index(p.width, d.x, d.y)] <==> d in labels[c := s])
    {
      if d != c {
        DistinctIndex(p.width, d, c);
      }
    }
  }

  // Writing the merged cost of a newly labelled cell.
  lemma ApplyCell(p: Pass, m: CostModel, unknown: bool, win: Window, labels: Labels, before: seq<Cost>, now: seq<Cost>,
                  c: Cell, s: Cell, now': seq<Cost>)
    requires Applied(p, m, unknown, win, labels, before, now) && InGrid(p, c) && c !in labels
    requires Index(p.width, c.x, c.y) < |now|
    requires now' == if InWindow(win, c)
      then now[Index(p.width, c.x, c.y) := Merge(unknown, now[Index(p.width, c.x, c.y)], ComputeCost(m, Dist2(c, s)))]
      else now
    ensures Applied(p, m, unknown, win, labels[c := s], before, now')
  {
    hide RowStart, Dist2, ComputeCost, Merge, ValidModel;
    assert CostAt(now, p.width, p.height, c) == Inflated(p, m, unknown, win, labels, before, c);
    forall d | InGrid(p, d)
      ensures CostAt(now', p.width, p.height, d) == Inflated(p, m, unknown, win, labels[c := s], before, d)
    {
      assert CostAt(now, p.width, p.height, d) == Inflated(p, m, unknown, win, labels, before, d);
      if d == c {
        assert CostAt(now', p.width, p.height, c) == Inflated(p, m, unknown, win, labels[c := s], before, c);
      } else {
        DistinctIndex(p.width, d, c);
        IndexInRange(p.width, p.height, d.x, d.y);
        assert CostAt(now', p.width, p.height, d) == CostAt(now, p.width, p.height, d);
      }
    }
  }

  class InflationLayer {
    var enabled: bool
    var inflateUnknown: bool
    var inflateAroundUnknown: bool
    var model: CostModel
    var cellInflationRadius: nat
    var cachedCellInflationRadius: nat
    var cacheLength: nat
    var cachedDistances: seq<nat>
    var cachedCosts: seq<Cost>
    var distanceMatrix: Matrix
    var topLevel: nat
    var inflationCells: Bins
    var seen: seq<bool>

    // The distance cache belongs to the radius it was computed for.
    ghost predicate CacheKept()
      reads this
    {
      cachedCellInflationRadius > 0 ==> DistancesCached(cachedDistances, cachedCellInflationRadius + 2)
    }

    // Caches, ranking and bins belong to the current radius, whenever it is not zero.
    ghost predicate Ready()
      reads this
    {
      cellInflationRadius > 0 ==>
        && cacheLength == cellInflationRadius + 2
        && DistancesCached(cachedDistances, cacheLength)
        && CostsCached(cachedCosts, cacheLength, model)
        && Ranks(distanceMatrix, cellInflationRadius + 2, topLevel)
        && |inflationCells| == topLevel + 1
    }

    // Between cycles the inflation list is empty.
    ghost predicate Valid()
      reads this
    {
      CacheKept() && Ready() && AllEmpty(inflationCells)
    }

    function PassOver(width: nat, height: nat): Pass
      reads this
    {
      Pass(width, height, cellInflationRadius, distanceMatrix, topLevel)
    }

    constructor (m: CostModel)
      requires ValidModel(m)
      ensures Valid() && cellInflationRadius == 0 && model == m
    {
      enabled, inflateUnknown, inflateAroundUnknown := true, false, false;
      model := m;
      cellInflationRadius, cachedCellInflationRadius, cacheLength := 0, 0, 0;
      cachedDistances, cachedCosts, distanceMatrix, topLevel := [], [], [], 0;
      inflationCells, seen := [], [];
    }

    method FillDistances()
      modifies this`cachedDistances
      ensures DistancesCached(cachedDistances, cacheLength)
    {
      var len := cacheLength;
      cachedDistances := seq(RowStart(len, len), _ => 0);
      for i := 0 to len
        invariant |cachedDistances| == RowStart(len, len)
        invariant forall a, b :: 0 <= a < i && 0 <= b < len ==>
          Index(len, b, a) < |cachedDistances| && cachedDistances[Index(len, b, a)] == Square(a) + Square(b)
      {
        for j := 0 to len
          invariant |cachedDistances| == RowStart(len, len)
          invariant forall a, b :: 0 <= a <= i && 0 <= b < len && (a < i || b < j) ==>
            Index(len, b, a) < |cachedDistances| && cachedDistances[Index(len, b, a)] == Square(a) + Square(b)
        {
          IndexInRange(len, len, j, i);
          OtherIndices(len, j, i);
          cachedDistances := cachedDistances[Index(len, j, i) := Square(i) + Square(j)];
        }
      }
    }

    method FillCosts()
      requires ValidModel(model) && DistancesCached(cachedDistances, cacheLength)
      modifies this`cachedCosts
      ensures CostsCached(cachedCosts, cacheLength, model)
    {
      hide ComputeCost, ValidModel, Square;
      var len := cacheLength;
      cachedCosts := seq(RowStart(len, len), _ => 0);
      for i := 0 to len
        invariant |cachedCosts| == RowStart(len, len)
        invariant forall a, b :: 0 <= a < i && 0 <= b < len ==>
          Index(len, b, a) < |cachedCosts| && cachedCosts[Index(len, b, a)] == ComputeCost(model, Square(a) + Square(b))
      {
        for j := 0 to len
          invariant |cachedCosts| == RowStart(len, len)
          invariant forall a, b :: 0 <= a <= i && 0 <= b < len && (a < i || b < j) ==>
            Index(len, b, a) < |cachedCosts| && cachedCosts[Index(len, b, a)] == ComputeCost(model, Square(a) + Square(b))
        {
          OtherIndices(len, j, i);
          cachedCosts := cachedCosts[Index(len, j, i) := ComputeCost(model, cachedDistances[Index(len, j, i)])];
        }
      }
    }

    // computeCaches, called whenever radius, resolution, footprint or scaling changed.
    // Distances are recomputed only for a new radius; costs, ranking and bins always.
    method ComputeCaches()
      requires CacheKept() && ValidModel(model) && AllEmpty(inflationCells)
      modifies this`cacheLength, this`cachedCosts, this`cachedDistances, this`cachedCellInflationRadius,
        this`distanceMatrix, this`topLevel, this`inflationCells
      ensures Valid()
    {
      hide DistancesCached, CostsCached, Ranks, ValidModel;
      if cellInflationRadius == 0 {
        return;
      }
      cacheLength := cellInflationRadius + 2;
      if cellInflationRadius != cachedCellInflationRadius {
        FillDistances();
        cachedCellInflationRadius := cellInflationRadius;
      }
      FillCosts();
      distanceMatrix, topLevel := GenerateIntegerDistances(cellInflationRadius + 2);
      inflationCells := seq(topLevel + 1, _ => []);
    }

    // matchSize: adopt the master's resolution (also through the model), radius and size. The
    // radius becomes the fewest cells that cover inflation_radius_.
    method MatchSize(inflationRadius: real, resolution: real, m: CostModel, width: nat, height: nat)
      requires Valid() && ValidModel(m) && resolution > 0.0
      modifies this
      ensures Valid() && model == m
      ensures inflationRadius <= Metres(cellInflationRadius, resolution)
      ensures cellInflationRadius > 0 ==> Metres(cellInflationRadius - 1, resolution) < inflationRadius
      ensures |seen| == RowStart(width, height)
      ensures enabled == old(enabled) && inflateUnknown == old(inflateUnknown)
      ensures inflateAroundUnknown == old(inflateAroundUnknown)
    {
      hide DistancesCached, CostsCached, Ranks, ValidModel;
      model := m;
      cellInflationRadius := CellDistance(inflationRadius, resolution);
      CellDistanceCovers(inflationRadius, resolution);
      ComputeCaches();
      seen := seq(RowStart(width, height), _ => false);
    }

    // distanceLookup: in range for cells up to one beyond the radius, and exact.
    method DistanceLookup(c: Cell, s: Cell) returns (d2: nat)
      requires DistancesCached(cachedDistances, cacheLength) && cacheLength == cellInflationRadius + 2
      requires Dist2(c, s) <= Square(cellInflationRadius + 1)
      ensures d2 == Dist2(c, s)
    {
      hide Square;
      OffsetWithin(Offset(c, s), cellInflationRadius + 1);
      var dx := if c.x > s.x then c.x - s.x else s.x - c.x;
      var dy := if c.y > s.y then c.y - s.y else s.y - c.y;
      assert dx < cacheLength && dy < cacheLength;
      d2 := cachedDistances[Index(cacheLength, dy, dx)];
    }

    // costLookup: the cost of the distance from c to s.
    method CostLookup(c: Cell, s: Cell) returns (cost: Cost)
      requires CostsCached(cachedCosts, cacheLength, model) && cacheLength == cellInflationRadius + 2
      requires Dist2(c, s) <= Square(cellInflationRadius)
      ensures ValidModel(model) && cost == ComputeCost(model, Dist2(c, s))
    {
      hide ComputeCost, ValidModel, Square;
      OffsetWithin(Offset(c, s), cellInflationRadius);
      var dx := if c.x > s.x then c.x - s.x else s.x - c.x;
      var dy := if c.y > s.y then c.y - s.y else s.y - c.y;
      assert dx < cacheLength && dy < cacheLength;
      cost := cachedCosts[Index(cacheLength, dy, dx)];
    }

    method EnqueueCell(index: nat, c: Cell, s: Cell, p: Pass, ghost labels: Labels)
      requires Ready() && cellInflationRadius > 0 && p == PassOver(p.width, p.height)
      requires SeenMatches(seen, p, labels) && InGrid(p, c) && index == Index(p.width, c.x, c.y)
      requires Dist2(c, s) <= Square(cellInflationRadius + 1)
      modifies this`inflationCells
      ensures inflationCells == Enqueue(p, labels, old(inflationCells), c, s)
    {
      hide DistancesCached, CostsCached, Dist2, Ranks, RowStart, Square;
      if !seen[index] {
        var distance := DistanceLookup(c, s);
        if distance > Square(cellInflationRadius) {
          return;
        }
        var r := cellInflationRadius + 2;
        BinIsLevel(p, c, s);
        BinOrder(p, c, s, c, s);
        RanksShape(p.ranks, r, p.top);
        var dist := distanceMatrix[c.x - s.x + r][c.y - s.y + r];
        assert dist == BinOf(p, c, s);
        inflationCells := inflationCells[dist := inflationCells[dist] + [CellData(c, s)]];
      }
    }

    // The four guarded calls of enqueue.
    method EnqueueAround(index: nat, c: Cell, s: Cell, p: Pass, ghost labels: Labels)
      requires Ready() && cellInflationRadius > 0 && p == PassOver(p.width, p.height)
      requires SeenMatches(seen, p, labels) && InGrid(p, c) && index == Index(p.width, c.x, c.y)
      requires Near(p, c, s)
      modifies this`inflationCells
      ensures inflationCells == EnqueueNeighbours(p, labels, old(inflationCells), c, s)
    {
      hide DistancesCached, CostsCached, Dist2, Ranks, Square, SeenMatches, Adjacent, BinOf;
      FourNeighbours(c);
      NeighbourWithin(c, Left(c), s, cellInflationRadius);
      NeighbourWithin(c, Down(c), s, cellInflationRadius);
      NeighbourWithin(c, Right(c), s, cellInflationRadius);
      NeighbourWithin(c, Up(c), s, cellInflationRadius);
      if c.x > 0 {
        EnqueueCell(index - 1, Left(c), s, p, labels);
      }
      if c.y > 0 {
        EnqueueCell(index - p.width, Down(c), s, p, labels);
      }
      if c.x < p.width - 1 {
        EnqueueCell(index + 1, Right(c), s, p, labels);
      }
      if c.y < p.height - 1 {
        EnqueueCell(index + p.width, Up(c), s, p, labels);
      }
    }

    // The write to the master grid for a newly seen cell.
    method WriteCost(master: Costmap2D, win: Window, index: nat, c: Cell, s: Cell,
                     p: Pass, ghost labels: Labels, ghost before: seq<Cost>)
      requires Ready() && cellInflationRadius > 0 && master.Valid() && p == PassOver(master.sizeX, master.sizeY)
      requires InGrid(p, c) && index == Index(p.width, c.x, c.y) && Near(p, c, s) && c !in labels
      requires Applied(p, model, inflateUnknown, win, labels, before, master.costmap[..])
      modifies master.costmap
      ensures Applied(p, model, inflateUnknown, win, labels[c := s], before, master.costmap[..])
    {
      hide DistancesCached, CostsCached, Dist2, Ranks, Square, Applied, ComputeCost, ValidModel, RowStart;
      IndexInRange(p.width, p.height, c.x, c.y);
      var cost := CostLookup(c, s);
      var oldCost := master.costmap[index];
      ghost var now := master.costmap[..];
      if InWindow(win, c) {
        if oldCost == NO_INFORMATION &&
           (if inflateUnknown then cost > FREE_SPACE else cost >= INSCRIBED_INFLATED_OBSTACLE)
        {
          master.costmap[index] := cost;
        } else {
          master.costmap[index] := if oldCost < cost then cost else oldCost;
        }
        assert master.costmap[..] == now[index := Merge(inflateUnknown, now[index], cost)];
      }
      ApplyCell(p, model, inflateUnknown, win, labels, before, now, c, s, master.costmap[..]);
    }

    // One iteration of the inner loop: entry i of bin k.
    method ProcessCell(master: Costmap2D, win: Window, k: nat, i: nat,
                       p: Pass, ghost sources: set<Cell>, ghost before: seq<Cost>, ghost w: Wave)
      requires Ready() && cellInflationRadius > 0 && master.Valid() && p == PassOver(master.sizeX, master.sizeY)
      requires Inv(p, sources, w) && HasNext(w) && w.bins == inflationCells && w.k == k && w.i == i
      requires SeenMatches(seen, p, w.labels)
      requires Applied(p, model, inflateUnknown, win, w.labels, before, master.costmap[..])
      modifies this`inflationCells, this`seen, master.costmap
      ensures inflationCells == Next(p, w).bins
      ensures SeenMatches(seen, p, Next(p, w).labels)
      ensures Applied(p, model, inflateUnknown, win, Next(p, w).labels, before, master.costmap[..])
    {
      hide DistancesCached, CostsCached, Dist2, Ranks, Square, Applied, RowStart, Inv, EnqueueNeighbours, Near, HasParent, BinOf;
      var CellData(c, s) := inflationCells[k][i];
      PoppedEntry(p, sources, w);
      IndexInRange(p.width, p.height, c.x, c.y);
      var index := Index(p.width, c.x, c.y);
      if seen[index] {
        return;
      }
      SeeCell(seen, p, w.labels, c, s);
      seen := seen[index := true];
      WriteCost(master, win, index, c, s, p, w.labels, before);
      EnqueueAround(index, c, s, p, w.labels[c := s]);
    }

    // The scan for obstacles: they make up bin 0.
    method SeedObstacles(master: Costmap2D, scan: Window, p: Pass) returns (obstacles: seq<CellData>)
      requires master.Valid() && p == PassOver(master.sizeX, master.sizeY)
      requires 0 <= scan.x0 && 0 <= scan.y0 && scan.xn <= p.width && scan.yn <= p.height
      ensures Seeds(p, Obstacles(p, inflateAroundUnknown, master.costmap[..], scan), obstacles)
    {
      ghost var grid := master.costmap[..];
      ghost var sources := Obstacles(p, inflateAroundUnknown, grid, scan);
      obstacles := [];
      var j := scan.y0;
      while j < scan.yn
        invariant SeedsUpTo(sources, scan, obstacles, scan.x0, j)
        decreases scan.yn - j
      {
        var i := scan.x0;
        while i < scan.xn
          invariant scan.x0 <= i && scan.y0 <= j < scan.yn
          invariant SeedsUpTo(sources, scan, obstacles, i, j)
          decreases scan.xn - i
        {
          IndexInRange(p.width, p.height, i, j);
          var index := Index(p.width, i, j);
          var cost := master.costmap[index];
          assert CostAt(grid, p.width, p.height, Cell(i, j)) == cost;
          SeedNext(p, inflateAroundUnknown, grid, scan, obstacles, i, j);
          if cost == LETHAL_OBSTACLE || (inflateAroundUnknown && cost == NO_INFORMATION) {
            obstacles := obstacles + [CellData(Cell(i, j), Cell(i, j))];
          }
          i := i + 1;
        }
        j := j + 1;
      }
    }

    // Drains the bins in ascending order. No iteration pushes into the bin being drained
    // or an earlier one, so the inner loop ends and nothing queued is left behind.
    method Propagate(master: Costmap2D, win: Window, p: Pass, ghost sources: set<Cell>) returns (ghost labels: Labels)
      requires Ready() && cellInflationRadius > 0 && master.Valid() && p == PassOver(master.sizeX, master.sizeY)
      requires Inv(p, sources, Wave(map[], inflationCells, 0, 0)) && SeenMatches(seen, p, map[])
      requires ValidModel(model)
      modifies this`inflationCells, this`seen, master.costmap
      ensures AllEmpty(inflationCells) && |inflationCells| == topLevel + 1
      ensures Stable(p, sources, labels)
      ensures Applied(p, model, inflateUnknown, win, labels, old(master.costmap[..]), master.costmap[..])
    {
      hide DistancesCached, CostsCached, Ranks, Applied, SeenMatches, Inv, Stable, Next, SameUpTo, ValidModel;
      ghost var before := master.costmap[..];
      ghost var w := Wave(map[], inflationCells, 0, 0);
      NothingApplied(p, model, inflateUnknown, win, before);
      var k := 0;
      while k < |inflationCells|
        invariant 0 <= k <= |inflationCells| && |inflationCells| == topLevel + 1
        invariant w.bins == inflationCells && w.k == k && w.i == 0
        invariant Inv(p, sources, w) && SeenMatches(seen, p, w.labels)
        invariant Applied(p, model, inflateUnknown, win, w.labels, before, master.costmap[..])
      {
        var i := 0;
        ghost var size := |inflationCells[k]|;
        while i < |inflationCells[k]|
          invariant |inflationCells| == topLevel + 1 && 0 <= i <= |inflationCells[k]| == size
          invariant w.bins == inflationCells && w.k == k && w.i == i
          invariant Inv(p, sources, w) && SeenMatches(seen, p, w.labels)
          invariant Applied(p, model, inflateUnknown, win, w.labels, before, master.costmap[..])
          decreases size - i
        {
          ProcessCell(master, win, k, i, p, sources, before, w);
          NextKeepsInv(p, sources, w);
          NextShape(p, w);
          w := Next(p, w);
          i := i + 1;
        }
        NextBinKeepsInv(p, sources, w);
        w := NextBin(w);
        inflationCells := inflationCells[k := []];
        k := k + 1;
      }
      FinalStable(p, sources, w);
      labels := w.labels;
    }

    // updateCosts over the window [minI, maxI) x [minJ, maxJ).
    method UpdateCosts(master: Costmap2D, minI: int, minJ: int, maxI: int, maxJ: int) returns (ghost labels: Labels)
      requires Valid() && master.Valid() && ValidModel(model)
      modifies this`inflationCells, this`seen, master.costmap
      ensures Valid()
      ensures !enabled || cellInflationRadius == 0 ==> master.costmap[..] == old(master.costmap[..])
      ensures enabled && cellInflationRadius > 0 ==>
        var p, win := PassOver(master.sizeX, master.sizeY), Window(minI, minJ, maxI, maxJ);
        && Stable(p, Obstacles(p, inflateAroundUnknown, old(master.costmap[..]), Scanned(p, win)), labels)
        && Applied(p, model, inflateUnknown, win, labels, old(master.costmap[..]), master.costmap[..])
        && CoversObstacles(p, model, inflateUnknown, inflateAroundUnknown, win, old(master.costmap[..]), master.costmap[..])
        && ChangesLocally(p, model, inflateUnknown, inflateAroundUnknown, win, old(master.costmap[..]), master.costmap[..])
    {
      hide DistancesCached, CostsCached, Ranks, Applied, Inv, Stable, Obstacles, ValidModel, Seeds, CoversObstacles, ChangesLocally;
      ghost var before := master.costmap[..];
      labels := map[];
      if !enabled || cellInflationRadius == 0 {
        return;
      }
      var p := PassOver(master.sizeX, master.sizeY);
      // seen_ is resized if the master changed size, then cleared
      seen := seq(RowStart(p.width, p.height), _ => false);
      NothingSeen(p, seen);
      var win := Window(minI, minJ, maxI, maxJ);
      var scan := Scanned(p, win);
      ghost var sources := Obstacles(p, inflateAroundUnknown, master.costmap[..], scan);
      var obstacles := SeedObstacles(master, scan, p);
      InitialInv(p, sources, inflationCells, obstacles);
      inflationCells := inflationCells[0 := obstacles];
      labels := Propagate(master, win, p, sources);
      InflationResult(p, model, inflateUnknown, inflateAroundUnknown, win, labels, before, master.costmap[..]);
    }
  }

  lemma NothingSeen(p: Pass, seen: seq<bool>)
    requires |seen| == RowStart(p.width, p.height) && forall n :: 0 <= n < |seen| ==> !seen[n]
    ensures SeenMatches(seen, p, map[])
  {
    forall c | InGrid(p, c)
      ensures Index(p.width, c.x, c.y) < |seen|
    {
      IndexInRange(p.width, p.height, c.x, c.y);
    }
  }

  lemma NothingApplied(p: Pass, m: CostModel, unknown: bool, win: Window, before: seq<Cost>)
    requires ValidModel(m) && |before| == RowStart(p.width, p.height)
    ensures Applied(p, m, unknown, win, map[], before, before)
  {
    hide ValidModel, RowStart;
  }

  lemma NextShape(p: Pass, w: Wave)
    requires HasNext(w) && SameUpTo(w.bins, Next(p, w).bins, w.k)
    ensures Next(p, w).k == w.k && Next(p, w).i == w.i + 1
    ensures |Next(p, w).bins| == |w.bins| && Next(p, w).bins[w.k] == w.bins[w.k]
  {
    hide EnqueueNeighbours;
  }

  // Obstacles of the scan before (x, y) in row order are listed, each as its own source.
  ghost predicate SeedsUpTo(sources: set<Cell>, scan: Window, seeds: seq<CellData>, x: int, y: int) {
    && scan.y0 <= y
    && (forall n :: 0 <= n < |seeds| ==> seeds[n].cell == seeds[n].src && seeds[n].src in sources)
    && (forall s :: s in sources && (s.y < y || (s.y == y && s.x < x)) ==> CellData(s, s) in seeds)
  }

  lemma SeedNext(p: Pass, around: bool, grid: seq<Cost>, scan: Window, seeds: seq<CellData>, x: int, y: int)
    requires |grid| == RowStart(p.width, p.height) && InGrid(p, Cell(x, y)) && InWindow(scan, Cell(x, y))
    requires SeedsUpTo(Obstacles(p, around, grid, scan), scan, seeds, x, y)
    ensures var sources := Obstacles(p, around, grid, scan);
      if IsObstacle(around, CostAt(grid, p.width, p.height, Cell(x, y)))
      then SeedsUpTo(sources, scan, seeds + [CellData(Cell(x, y), Cell(x, y))], x + 1, y)
      else SeedsUpTo(sources, scan, seeds, x + 1, y)
  {
    hide RowStart, CostAt, IsObstacle;
    var sources := Obstacles(p, around, grid, scan);
    var c := Cell(x, y);
    var seeds' := if IsObstacle(around, CostAt(grid, p.width, p.height, c)) then seeds + [CellData(c, c)] else seeds;
    forall s | s in sources && (s.y < y || (s.y == y && s.x < x + 1))
      ensures CellData(s, s) in seeds'
    {
      if s.y == y && s.x == x {
        assert s == c;
      }
    }
  }

  lemma OtherIndices(len: nat, j: nat, i: nat)
    requires j < len
    ensures forall a, b {:trigger Index(len, b, a)} :: 0 <= a && 0 <= b < len && (a != i || b != j) ==> Index(len, b, a) != Index(len, j, i)
  {
    forall a, b | 0 <= a && 0 <= b < len && (a != i || b != j)
      ensures Index(len, b, a) != Index(len, j, i)
    {
      if Index(len, b, a) == Index(len, j, i) {
        IndexInjective(len, b, a, j, i);
      }
    }
  }
}
