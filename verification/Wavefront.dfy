// The bucketed wavefront of the inflation layer as a step function on values: which
// cells are seen and with which source, and which entries wait in which bin.
module Wavefront {
  import opened Lattice
  import opened DistanceRanking

  datatype CellData = CellData(cell: Cell, src: Cell)

  type Bins = seq<seq<CellData>>
  type Labels = map<Cell, Cell>

  // What stays fixed during one pass: grid size, radius in cells, ranking of offsets.
  datatype Pass = Pass(width: nat, height: nat, radius: nat, ranks: Matrix, top: nat)

  // Entries bins[k][..i] and all bins below k have been processed.
  datatype Wave = Wave(labels: Labels, bins: Bins, k: nat, i: nat)

  ghost predicate ValidPass(p: Pass) {
    Ranks(p.ranks, p.radius + 2, p.top)
  }

  predicate InGrid(p: Pass, c: Cell) {
    0 <= c.x < p.width && 0 <= c.y < p.height
  }

  predicate Near(p: Pass, c: Cell, s: Cell) {
    Dist2(c, s) <= Square(p.radius)
  }

  // The bin of cell c for source s (0 for offsets outside the matrix, never looked up).
  function BinOf(p: Pass, c: Cell, s: Cell): nat {
    var r := p.radius + 2;
    if IsSquare(p.ranks, 2 * r + 1) && WithinSquare(Offset(c, s), r) then Level(p.ranks, r, Offset(c, s)) else 0
  }

  function Enqueue(p: Pass, labels: Labels, bins: Bins, n: Cell, s: Cell): (r: Bins)
    ensures |r| == |bins|
  {
    if InGrid(p, n) && n !in labels && Near(p, n, s) && BinOf(p, n, s) < |bins| then
      bins[BinOf(p, n, s) := bins[BinOf(p, n, s)] + [CellData(n, s)]]
    else
      bins
  }

  function Left(c: Cell): Cell { Cell(c.x - 1, c.y) }
  function Down(c: Cell): Cell { Cell(c.x, c.y - 1) }
  function Right(c: Cell): Cell { Cell(c.x + 1, c.y) }
  function Up(c: Cell): Cell { Cell(c.x, c.y + 1) }

  function EnqueueNeighbours(p: Pass, labels: Labels, bins: Bins, c: Cell, s: Cell): Bins {
    var b1 := Enqueue(p, labels, bins, Left(c), s);
    var b2 := Enqueue(p, labels, b1, Down(c), s);
    var b3 := Enqueue(p, labels, b2, Right(c), s);
    Enqueue(p, labels, b3, Up(c), s)
  }

  predicate HasNext(w: Wave) {
    w.k < |w.bins| && w.i < |w.bins[w.k]|
  }

  // One iteration of the inner loop of updateCosts.
  function Next(p: Pass, w: Wave): Wave
    requires HasNext(w)
  {
    var e := w.bins[w.k][w.i];
    if e.cell in w.labels then
      w.(i := w.i + 1)
    else
      var labels := w.labels[e.cell := e.src];
      Wave(labels, EnqueueNeighbours(p, labels, w.bins, e.cell, e.src), w.k, w.i + 1)
  }

  // The end of the inner loop: the drained bin is released.
  function NextBin(w: Wave): Wave
    requires w.k < |w.bins|
  {
    Wave(w.labels, w.bins[w.k := []], w.k + 1, 0)
  }

  // ---------- Invariant ----------

  function Remaining(w: Wave, b: nat): seq<CellData> {
    if b >= |w.bins| || b < w.k then []
    else if b == w.k then (if w.i <= |w.bins[b]| then w.bins[b][w.i..] else [])
    else w.bins[b]
  }

  // c carries a label at least as near as s.
  predicate Labelled(labels: Labels, c: Cell, s: Cell) {
    c in labels && Dist2(c, labels[c]) <= Dist2(c, s)
  }

  predicate Pending(p: Pass, w: Wave, c: Cell, s: Cell) {
    CellData(c, s) in Remaining(w, BinOf(p, c, s))
  }

  predicate Covered(p: Pass, w: Wave, c: Cell, s: Cell) {
    Labelled(w.labels, c, s) || Pending(p, w, c, s)
  }

  // A queued cell is a source, or was pushed by a cell nearer to its source.
  predicate HasParent(labels: Labels, e: CellData) {
    || e.cell == e.src
    || (StepX(e.cell, e.src) != e.cell && StepX(e.cell, e.src) in labels && labels[StepX(e.cell, e.src)] == e.src)
    || (StepY(e.cell, e.src) != e.cell && StepY(e.cell, e.src) in labels && labels[StepY(e.cell, e.src)] == e.src)
  }

  ghost predicate EntryOk(p: Pass, sources: set<Cell>, labels: Labels, e: CellData) {
    && InGrid(p, e.cell) && InGrid(p, e.src)
    && Near(p, e.cell, e.src)
    && e.src in sources
    && HasParent(labels, e)
  }

  ghost predicate BinsOk(p: Pass, sources: set<Cell>, labels: Labels, bins: Bins) {
    && |bins| == p.top + 1
    && forall b, n :: 0 <= b < |bins| && 0 <= n < |bins[b]| ==>
         EntryOk(p, sources, labels, bins[b][n]) && BinOf(p, bins[b][n].cell, bins[b][n].src) == b
  }

  ghost predicate LabelOk(p: Pass, sources: set<Cell>, labels: Labels, k: nat, c: Cell)
    requires c in labels
  {
    && InGrid(p, c) && InGrid(p, labels[c])
    && Near(p, c, labels[c])
    && labels[c] in sources
    && BinOf(p, c, labels[c]) <= k
    && HasParent(labels, CellData(c, labels[c]))
  }

  // The steps from c towards its source are labelled no worse than by that source.
  predicate InwardOk(labels: Labels, c: Cell, s: Cell) {
    && (StepX(c, s) != c ==> Labelled(labels, StepX(c, s), s))
    && (StepY(c, s) != c ==> Labelled(labels, StepY(c, s), s))
  }

  ghost predicate AroundOk(p: Pass, w: Wave, c: Cell, s: Cell) {
    forall n :: Adjacent(c, n) && InGrid(p, n) && Near(p, n, s) ==> Covered(p, w, n, s)
  }

  ghost predicate LabelsOk(p: Pass, sources: set<Cell>, w: Wave) {
    forall c :: c in w.labels ==>
      LabelOk(p, sources, w.labels, w.k, c) && InwardOk(w.labels, c, w.labels[c]) && AroundOk(p, w, c, w.labels[c])
  }

  ghost predicate Inv(p: Pass, sources: set<Cell>, w: Wave) {
    && ValidPass(p)
    && BinsOk(p, sources, w.labels, w.bins)
    && w.k <= |w.bins|
    && (w.k < |w.bins| ==> w.i <= |w.bins[w.k]|)
    && (forall b :: 0 <= b < w.k ==> w.bins[b] == [])
    && LabelsOk(p, sources, w)
    && (forall s :: s in sources ==> Covered(p, w, s, s))
  }

  // ---------- Bins and distances ----------

  lemma NearIsRanked(p: Pass, c: Cell, s: Cell)
    requires Dist2(c, s) <= Square(p.radius + 2)
    ensures InDisc(Offset(c, s), p.radius + 2)
  {
    OffsetWithin(Offset(c, s), p.radius + 2);
  }

  lemma BinIsLevel(p: Pass, c: Cell, s: Cell)
    requires ValidPass(p) && Near(p, c, s)
    ensures InDisc(Offset(c, s), p.radius + 2)
    ensures BinOf(p, c, s) == Level(p.ranks, p.radius + 2, Offset(c, s))
  {
    hide Norm2, Square;
    SquareMonotone(p.radius, p.radius + 2);
    NearIsRanked(p, c, s);
  }

  // Bins are ordered as distances are, and every near entry has a bin.
  lemma BinOrder(p: Pass, c: Cell, s: Cell, d: Cell, t: Cell)
    requires ValidPass(p) && Near(p, c, s) && Near(p, d, t)
    ensures BinOf(p, c, s) < BinOf(p, d, t) <==> Dist2(c, s) < Dist2(d, t)
    ensures BinOf(p, c, s) <= BinOf(p, d, t) <==> Dist2(c, s) <= Dist2(d, t)
    ensures BinOf(p, c, s) <= p.top
  {
    BinIsLevel(p, c, s);
    BinIsLevel(p, d, t);
    var r, a, b := p.radius + 2, Offset(c, s), Offset(d, t);
    RankOrder(p.ranks, r, p.top, a, b);
  }

  lemma StepInGrid(p: Pass, c: Cell, s: Cell)
    requires InGrid(p, c) && InGrid(p, s)
    ensures InGrid(p, StepX(c, s)) && InGrid(p, StepY(c, s))
  {
  }

  lemma StepNearer(c: Cell, s: Cell)
    ensures StepX(c, s) != c ==> Dist2(StepX(c, s), s) < Dist2(c, s)
    ensures StepY(c, s) != c ==> Dist2(StepY(c, s), s) < Dist2(c, s)
  {
    StepAdjacent(c, s);
    if StepX(c, s) != c { NeighbourDistance(c, StepX(c, s), s); }
    if StepY(c, s) != c { NeighbourDistance(c, StepY(c, s), s); }
  }

  // ---------- The inward neighbours are done before a cell is reached ----------

  // A covered entry below the current bin is already labelled.
  lemma CoveredBelow(p: Pass, w: Wave, n: Cell, t: Cell)
    requires Covered(p, w, n, t) && BinOf(p, n, t) < w.k
    ensures Labelled(w.labels, n, t)
  {
  }

  // The other inward neighbour n of c, given the parent par and the corner q between them.
  lemma OtherInward(p: Pass, sources: set<Cell>, w: Wave, c: Cell, s: Cell, par: Cell, n: Cell, q: Cell)
    requires Inv(p, sources, w) && InGrid(p, c) && InGrid(p, s) && Near(p, c, s) && BinOf(p, c, s) == w.k
    requires par in w.labels && w.labels[par] == s && Labelled(w.labels, q, s)
    requires InGrid(p, n) && InGrid(p, par)
    requires Adjacent(q, n) && Adjacent(q, par)
    requires Dist2(n, s) < Dist2(c, s) && Dist2(par, s) < Dist2(c, s)
    requires Dist2(n, w.labels[q]) <= Dist2(n, s) || Dist2(par, w.labels[q]) < Dist2(par, s)
    ensures Labelled(w.labels, n, s)
  {
    hide Dist2, BinOf;
    var t := w.labels[q];
    assert AroundOk(p, w, q, t);
    if Dist2(n, t) <= Dist2(n, s) {
      BinOrder(p, n, t, c, s);
      CoveredBelow(p, w, n, t);
    } else {
      BinOrder(p, par, t, c, s);
      CoveredBelow(p, w, par, t);
      assert false;
    }
  }

  // The square of c and its two steps towards s.
  lemma StepSquare(c: Cell, s: Cell)
    requires StepX(c, s) != c && StepY(c, s) != c
    ensures c.x != s.x && c.y != s.y
    ensures StepY(StepX(c, s), s) == StepX(StepY(c, s), s)
    ensures StepY(StepX(c, s), s) != StepX(c, s) && StepX(StepY(c, s), s) != StepY(c, s)
    ensures Adjacent(StepX(StepY(c, s), s), StepY(c, s)) && Adjacent(StepX(StepY(c, s), s), StepX(c, s))
  {
  }

  lemma LabelledInward(p: Pass, sources: set<Cell>, w: Wave, c: Cell)
    requires Inv(p, sources, w) && c in w.labels
    ensures InwardOk(w.labels, c, w.labels[c])
  {
    hide BinsOk, Covered, InwardOk, AroundOk, LabelOk, ValidPass;
  }

  // When the entry (c, s) comes up, both steps from c towards s are labelled with a
  // source at least as near as s.
  lemma InwardLabelled(p: Pass, sources: set<Cell>, w: Wave, c: Cell, s: Cell)
    requires Inv(p, sources, w) && InGrid(p, c) && InGrid(p, s) && Near(p, c, s) && BinOf(p, c, s) == w.k
    requires HasParent(w.labels, CellData(c, s))
    ensures InwardOk(w.labels, c, s)
  {
    hide BinsOk, Covered, AroundOk, LabelsOk, ValidPass, Dist2, BinOf, StepX, StepY, Adjacent, InGrid, Near;
    StepNearer(c, s);
    StepInGrid(p, c, s);
    var x, y := StepX(c, s), StepY(c, s);
    if x != c && x in w.labels && w.labels[x] == s {
      LabelledInward(p, sources, w, x);
      if y != c {
        StepSquare(c, s);
        var q := StepX(y, s);
        SquareArgument(c, s, w.labels[q]);
        OtherInward(p, sources, w, c, s, x, y, q);
      }
    } else if y != c && y in w.labels && w.labels[y] == s {
      LabelledInward(p, sources, w, y);
      if x != c {
        StepSquare(c, s);
        var q := StepX(y, s);
        SquareArgument(c, s, w.labels[q]);
        OtherInward(p, sources, w, c, s, y, x, q);
      }
    } else {
      SourceHasNoSteps(c);
    }
  }

  lemma SourceHasNoSteps(c: Cell)
    ensures StepX(c, c) == c && StepY(c, c) == c
  {
  }

  // ---------- Pushing neighbours ----------

  ghost predicate Extends(bins: Bins, bins': Bins) {
    && |bins| == |bins'|
    && forall b :: 0 <= b < |bins| ==> bins[b] <= bins'[b]
  }

  lemma ExtendsTransitive(a: Bins, b: Bins, c: Bins)
    requires Extends(a, b) && Extends(b, c)
    ensures Extends(a, c)
  {
  }

  // The bins up to k are as they were: nothing was pushed behind the wavefront.
  ghost predicate SameUpTo(bins: Bins, bins': Bins, k: nat) {
    && |bins| == |bins'|
    && forall b :: 0 <= b <= k && b < |bins| ==> bins[b] == bins'[b]
  }

  // A 4-neighbour of a labelled cell that is still unseen lies strictly farther from the
  // label, hence in a strictly later bin, and has that cell as its parent.
  lemma PushGoesLater(p: Pass, labels: Labels, c: Cell, s: Cell, n: Cell)
    requires ValidPass(p) && c in labels && labels[c] == s && InwardOk(labels, c, s)
    requires Adjacent(c, n) && Near(p, c, s) && Near(p, n, s) && n !in labels
    ensures BinOf(p, c, s) < BinOf(p, n, s) <= p.top
    ensures HasParent(labels, CellData(n, s))
  {
    hide Dist2, BinOf, StepX, StepY, Adjacent;
    NeighbourDistance(c, n, s);
    BinOrder(p, c, s, n, s);
    BinOrder(p, n, s, c, s);
    assert n != StepX(c, s) && n != StepY(c, s);
    StepBack(c, n, s);
  }

  lemma StepBack(c: Cell, n: Cell, s: Cell)
    requires Adjacent(c, n) && n != StepX(c, s) && n != StepY(c, s)
    ensures (StepX(n, s) == c && StepX(n, s) != n) || (StepY(n, s) == c && StepY(n, s) != n)
  {
  }

  lemma AppendKeepsBins(p: Pass, sources: set<Cell>, labels: Labels, bins: Bins, e: CellData)
    requires BinsOk(p, sources, labels, bins) && EntryOk(p, sources, labels, e)
    requires BinOf(p, e.cell, e.src) < |bins|
    ensures BinsOk(p, sources, labels, bins[BinOf(p, e.cell, e.src) := bins[BinOf(p, e.cell, e.src)] + [e]])
  {
    hide Dist2, BinOf;
  }

  // What one call of enqueue for neighbour n of c leaves true.
  ghost predicate Pushed(p: Pass, labels: Labels, bins: Bins, bins': Bins, s: Cell, n: Cell, k: nat) {
    && Extends(bins, bins')
    && SameUpTo(bins, bins', k)
    && (InGrid(p, n) && n !in labels && Near(p, n, s) ==>
          k < BinOf(p, n, s) < |bins'| && CellData(n, s) in bins'[BinOf(p, n, s)])
  }

  lemma EnqueueOne(p: Pass, sources: set<Cell>, labels: Labels, bins: Bins, c: Cell, s: Cell, n: Cell)
    requires ValidPass(p) && BinsOk(p, sources, labels, bins)
    requires c in labels && labels[c] == s && InwardOk(labels, c, s)
    requires Near(p, c, s) && InGrid(p, s) && s in sources && Adjacent(c, n)
    ensures BinsOk(p, sources, labels, Enqueue(p, labels, bins, n, s))
    ensures Pushed(p, labels, bins, Enqueue(p, labels, bins, n, s), s, n, BinOf(p, c, s))
  {
    hide Dist2, BinOf, HasParent;
    if InGrid(p, n) && n !in labels && Near(p, n, s) {
      PushGoesLater(p, labels, c, s, n);
      AppendKeepsBins(p, sources, labels, bins, CellData(n, s));
      assert CellData(n, s) in Enqueue(p, labels, bins, n, s)[BinOf(p, n, s)];
    }
  }

  ghost predicate AllPushed(p: Pass, labels: Labels, bins: Bins, bins': Bins, c: Cell, s: Cell, k: nat) {
    && Extends(bins, bins')
    && SameUpTo(bins, bins', k)
    && forall n :: Adjacent(c, n) && InGrid(p, n) && n !in labels && Near(p, n, s) ==>
         k < BinOf(p, n, s) < |bins'| && CellData(n, s) in bins'[BinOf(p, n, s)]
  }

  lemma PushedLater(p: Pass, labels: Labels, a: Bins, b: Bins, c: Bins, s: Cell, n: Cell, k: nat)
    requires Pushed(p, labels, a, b, s, n, k) && Extends(b, c) && SameUpTo(b, c, k)
    ensures Pushed(p, labels, a, c, s, n, k)
  {
    hide Dist2, BinOf;
    ExtendsTransitive(a, b, c);
    if InGrid(p, n) && n !in labels && Near(p, n, s) {
      assert b[BinOf(p, n, s)] <= c[BinOf(p, n, s)];
    }
  }

  lemma PushedBefore(p: Pass, labels: Labels, a: Bins, b: Bins, c: Bins, s: Cell, n: Cell, k: nat)
    requires Extends(a, b) && SameUpTo(a, b, k) && Pushed(p, labels, b, c, s, n, k)
    ensures Pushed(p, labels, a, c, s, n, k)
  {
    hide Dist2, BinOf;
    ExtendsTransitive(a, b, c);
  }

  lemma EnqueueAll(p: Pass, sources: set<Cell>, labels: Labels, bins: Bins, c: Cell, s: Cell)
    requires ValidPass(p) && BinsOk(p, sources, labels, bins)
    requires c in labels && labels[c] == s && InwardOk(labels, c, s)
    requires Near(p, c, s) && InGrid(p, s) && s in sources
    ensures BinsOk(p, sources, labels, EnqueueNeighbours(p, labels, bins, c, s))
    ensures AllPushed(p, labels, bins, EnqueueNeighbours(p, labels, bins, c, s), c, s, BinOf(p, c, s))
  {
    hide Dist2, BinOf, Enqueue, BinsOk, InwardOk, Near, InGrid, Extends, SameUpTo, ValidPass, Left, Down, Right, Up, Adjacent;
    FourNeighbours(c);
    var k := BinOf(p, c, s);
    var b1 := Enqueue(p, labels, bins, Left(c), s);
    EnqueueOne(p, sources, labels, bins, c, s, Left(c));
    var b2 := Enqueue(p, labels, b1, Down(c), s);
    EnqueueOne(p, sources, labels, b1, c, s, Down(c));
    var b3 := Enqueue(p, labels, b2, Right(c), s);
    EnqueueOne(p, sources, labels, b2, c, s, Right(c));
    var b4 := Enqueue(p, labels, b3, Up(c), s);
    EnqueueOne(p, sources, labels, b3, c, s, Up(c));
    PushedLater(p, labels, bins, b1, b2, s, Left(c), k);
    PushedLater(p, labels, bins, b2, b3, s, Left(c), k);
    PushedLater(p, labels, bins, b3, b4, s, Left(c), k);
    PushedBefore(p, labels, bins, b1, b2, s, Down(c), k);
    PushedLater(p, labels, bins, b2, b3, s, Down(c), k);
    PushedLater(p, labels, bins, b3, b4, s, Down(c), k);
    PushedBefore(p, labels, bins, b2, b3, s, Right(c), k);
    PushedLater(p, labels, bins, b3, b4, s, Right(c), k);
    PushedBefore(p, labels, bins, b3, b4, s, Up(c), k);
  }

  lemma FourNeighbours(c: Cell)
    ensures Adjacent(c, Left(c)) && Adjacent(c, Down(c)) && Adjacent(c, Right(c)) && Adjacent(c, Up(c))
    ensures forall n :: Adjacent(c, n) ==> n == Left(c) || n == Down(c) || n == Right(c) || n == Up(c)
  {
  }

  // ---------- One step ----------

  // Labelling the popped cell loses no coverage.
  lemma LabelKeepsCovered(p: Pass, w: Wave, c: Cell, s: Cell, bins': Bins, n: Cell, t: Cell)
    requires HasNext(w) && w.bins[w.k][w.i] == CellData(c, s) && c !in w.labels
    requires Extends(w.bins, bins') && Covered(p, w, n, t)
    ensures Covered(p, Wave(w.labels[c := s], bins', w.k, w.i + 1), n, t)
  {
    hide Dist2, BinOf;
    var w' := Wave(w.labels[c := s], bins', w.k, w.i + 1);
    if !Labelled(w.labels, n, t) {
      var b := BinOf(p, n, t);
      assert w.bins[b] <= bins'[b];
      var e := CellData(n, t);
      if b == w.k {
        assert w.bins[b][w.i..] == [CellData(c, s)] + w.bins[b][w.i + 1..];
        if e != CellData(c, s) {
          assert e in w.bins[b][w.i + 1..];
          assert w.bins[b][w.i + 1..] <= bins'[b][w.i + 1..];
          assert e in Remaining(w', b);
        }
      } else {
        assert e in Remaining(w', b);
      }
    }
  }

  lemma PoppedEntry(p: Pass, sources: set<Cell>, w: Wave)
    requires Inv(p, sources, w) && HasNext(w)
    ensures var e := w.bins[w.k][w.i];
      EntryOk(p, sources, w.labels, e) && BinOf(p, e.cell, e.src) == w.k
  {
    hide EntryOk, LabelsOk, Covered, BinOf, ValidPass;
  }

  lemma SkipKeepsCovered(p: Pass, sources: set<Cell>, w: Wave, n: Cell, t: Cell)
    requires Inv(p, sources, w) && HasNext(w) && w.bins[w.k][w.i].cell in w.labels
    requires Covered(p, w, n, t)
    ensures Covered(p, w.(i := w.i + 1), n, t)
  {
    hide Dist2, BinOf, InGrid, InwardOk, AroundOk, BinsOk, ValidPass, HasParent, LabelsOk, Near;
    var e := w.bins[w.k][w.i];
    if !Labelled(w.labels, n, t) && BinOf(p, n, t) == w.k {
      assert w.bins[w.k][w.i..] == [e] + w.bins[w.k][w.i + 1..];
      if CellData(n, t) == e {
        SeenIsNearer(p, sources, w);
      }
    }
  }

  // A popped cell that is already seen has a label no farther than the popped source.
  lemma SeenIsNearer(p: Pass, sources: set<Cell>, w: Wave)
    requires Inv(p, sources, w) && HasNext(w) && w.bins[w.k][w.i].cell in w.labels
    ensures var e := w.bins[w.k][w.i]; Labelled(w.labels, e.cell, e.src)
  {
    hide Dist2, BinOf, InGrid, InwardOk, AroundOk, BinsOk, ValidPass, HasParent;
    var e := w.bins[w.k][w.i];
    PoppedEntry(p, sources, w);
    assert LabelOk(p, sources, w.labels, w.k, e.cell);
    BinOrder(p, e.cell, w.labels[e.cell], e.cell, e.src);
  }

  lemma SkipKeepsInv(p: Pass, sources: set<Cell>, w: Wave)
    requires Inv(p, sources, w) && HasNext(w) && w.bins[w.k][w.i].cell in w.labels
    ensures Inv(p, sources, Next(p, w))
  {
    hide Dist2, BinOf, InGrid, Near, Adjacent, InwardOk, LabelOk, Covered, BinsOk, ValidPass;
    var w' := w.(i := w.i + 1);
    forall c | c in w'.labels
      ensures AroundOk(p, w', c, w'.labels[c])
    {
      var s := w.labels[c];
      forall n | Adjacent(c, n) && InGrid(p, n) && Near(p, n, s)
        ensures Covered(p, w', n, s)
      {
        assert AroundOk(p, w, c, s);
        SkipKeepsCovered(p, sources, w, n, s);
      }
    }
    forall s | s in sources
      ensures Covered(p, w', s, s)
    {
      SkipKeepsCovered(p, sources, w, s, s);
    }
  }

  lemma ParentGrow(labels: Labels, c: Cell, s: Cell, e: CellData)
    requires c !in labels && HasParent(labels, e)
    ensures HasParent(labels[c := s], e)
  {
    hide StepX, StepY;
  }

  lemma GrowLabels(p: Pass, sources: set<Cell>, labels: Labels, bins: Bins, c: Cell, s: Cell)
    requires BinsOk(p, sources, labels, bins) && c !in labels
    ensures BinsOk(p, sources, labels[c := s], bins)
  {
    hide Dist2, BinOf;
    var labels' := labels[c := s];
    forall b, n | 0 <= b < |bins| && 0 <= n < |bins[b]|
      ensures EntryOk(p, sources, labels', bins[b][n]) && BinOf(p, bins[b][n].cell, bins[b][n].src) == b
    {
      assert EntryOk(p, sources, labels, bins[b][n]);
      ParentGrow(labels, c, s, bins[b][n]);
    }
  }

  // Everything around the newly labelled cell is covered.
  lemma NewCellAround(p: Pass, sources: set<Cell>, w: Wave, c: Cell, s: Cell, w': Wave)
    requires Inv(p, sources, w) && BinOf(p, c, s) == w.k && Near(p, c, s) && InwardOk(w.labels, c, s)
    requires w'.labels == w.labels[c := s] && w'.k == w.k && c !in w.labels
    requires AllPushed(p, w'.labels, w.bins, w'.bins, c, s, w.k)
    ensures AroundOk(p, w', c, s)
  {
    hide Dist2, BinOf;
    forall n | Adjacent(c, n) && InGrid(p, n) && Near(p, n, s)
      ensures Covered(p, w', n, s)
    {
      if n in w.labels {
        NeighbourDistance(c, n, s);
        if n != StepX(c, s) && n != StepY(c, s) {
          assert LabelOk(p, sources, w.labels, w.k, n);
          BinOrder(p, n, w.labels[n], c, s);
        }
        assert Labelled(w'.labels, n, s);
      } else {
        assert n !in w'.labels;
        assert CellData(n, s) in Remaining(w', BinOf(p, n, s));
      }
    }
  }

  lemma InwardGrow(labels: Labels, c: Cell, s: Cell, d: Cell, t: Cell)
    requires c !in labels && InwardOk(labels, d, t)
    ensures InwardOk(labels[c := s], d, t)
  {
    hide Dist2, StepX, StepY;
  }

  lemma OldCellOk(p: Pass, sources: set<Cell>, w: Wave, c: Cell, s: Cell, bins': Bins, d: Cell)
    requires Inv(p, sources, w) && HasNext(w) && w.bins[w.k][w.i] == CellData(c, s) && c !in w.labels
    requires Extends(w.bins, bins') && d in w.labels
    ensures var w' := Wave(w.labels[c := s], bins', w.k, w.i + 1);
      LabelOk(p, sources, w'.labels, w'.k, d) && InwardOk(w'.labels, d, w'.labels[d]) && AroundOk(p, w', d, w'.labels[d])
  {
    hide LabelOk, InwardOk, AroundOk, Inv, Extends;
    var t := w.labels[d];
    LabelledOk(p, sources, w, d);
    InwardGrow(w.labels, c, s, d, t);
    LabelGrow(p, sources, w.labels, w.k, c, s, d);
    AroundGrow(p, w, c, s, bins', d, t);
  }

  lemma LabelledOk(p: Pass, sources: set<Cell>, w: Wave, d: Cell)
    requires Inv(p, sources, w) && d in w.labels
    ensures LabelOk(p, sources, w.labels, w.k, d) && InwardOk(w.labels, d, w.labels[d]) && AroundOk(p, w, d, w.labels[d])
  {
    hide LabelOk, InwardOk, AroundOk, BinsOk, Covered, ValidPass;
  }

  lemma LabelGrow(p: Pass, sources: set<Cell>, labels: Labels, k: nat, c: Cell, s: Cell, d: Cell)
    requires c !in labels && d in labels && LabelOk(p, sources, labels, k, d)
    ensures LabelOk(p, sources, labels[c := s], k, d)
  {
    hide BinOf, InGrid, Near;
    ParentGrow(labels, c, s, CellData(d, labels[d]));
  }

  lemma AroundGrow(p: Pass, w: Wave, c: Cell, s: Cell, bins': Bins, d: Cell, t: Cell)
    requires HasNext(w) && w.bins[w.k][w.i] == CellData(c, s) && c !in w.labels
    requires Extends(w.bins, bins') && AroundOk(p, w, d, t)
    ensures AroundOk(p, Wave(w.labels[c := s], bins', w.k, w.i + 1), d, t)
  {
    hide Adjacent, InGrid, Near, Covered, Extends;
    var w' := Wave(w.labels[c := s], bins', w.k, w.i + 1);
    forall n | Adjacent(d, n) && InGrid(p, n) && Near(p, n, t)
      ensures Covered(p, w', n, t)
    {
      LabelKeepsCovered(p, w, c, s, bins', n, t);
    }
  }

  // Labels and sources after the popped cell c is labelled and its neighbours are pushed.
  lemma NewKeepsLabels(p: Pass, sources: set<Cell>, w: Wave, c: Cell, s: Cell, w': Wave)
    requires Inv(p, sources, w) && HasNext(w) && w.bins[w.k][w.i] == CellData(c, s) && c !in w.labels
    requires w'.labels == w.labels[c := s] && w'.k == w.k && w'.i == w.i + 1 && Extends(w.bins, w'.bins)
    requires LabelOk(p, sources, w'.labels, w.k, c) && InwardOk(w'.labels, c, s) && AroundOk(p, w', c, s)
    ensures LabelsOk(p, sources, w')
    ensures forall t :: t in sources ==> Covered(p, w', t, t)
  {
    hide LabelOk, InwardOk, AroundOk, Covered, BinsOk, Extends, ValidPass;
    forall d | d in w'.labels
      ensures LabelOk(p, sources, w'.labels, w'.k, d) && InwardOk(w'.labels, d, w'.labels[d]) && AroundOk(p, w', d, w'.labels[d])
    {
      if d != c {
        OldCellOk(p, sources, w, c, s, w'.bins, d);
      }
    }
    forall t | t in sources
      ensures Covered(p, w', t, t)
    {
      LabelKeepsCovered(p, w, c, s, w'.bins, t, t);
    }
  }

  lemma NewKeepsInv(p: Pass, sources: set<Cell>, w: Wave)
    requires Inv(p, sources, w) && HasNext(w) && w.bins[w.k][w.i].cell !in w.labels
    ensures Inv(p, sources, Next(p, w))
    ensures SameUpTo(w.bins, Next(p, w).bins, w.k)
  {
    hide Dist2, BinOf, InGrid, Near, Adjacent, InwardOk, AroundOk, Covered, BinsOk, HasParent, LabelsOk, ValidPass, EnqueueNeighbours;
    var CellData(c, s) := w.bins[w.k][w.i];
    var labels := w.labels[c := s];
    PoppedEntry(p, sources, w);
    InwardLabelled(p, sources, w, c, s);
    InwardGrow(w.labels, c, s, c, s);
    ParentGrow(w.labels, c, s, CellData(c, s));
    GrowLabels(p, sources, w.labels, w.bins, c, s);
    EnqueueAll(p, sources, labels, w.bins, c, s);
    NewCellAround(p, sources, w, c, s, Next(p, w));
    NewKeepsLabels(p, sources, w, c, s, Next(p, w));
    BinCount(p, sources, labels, Next(p, w).bins);
  }

  lemma BinCount(p: Pass, sources: set<Cell>, labels: Labels, bins: Bins)
    requires BinsOk(p, sources, labels, bins)
    ensures |bins| == p.top + 1
  {
    hide EntryOk, BinOf;
  }

  // Each iteration keeps the invariant and pushes only into bins after the current one.
  lemma NextKeepsInv(p: Pass, sources: set<Cell>, w: Wave)
    requires Inv(p, sources, w) && HasNext(w)
    ensures Inv(p, sources, Next(p, w))
    ensures SameUpTo(w.bins, Next(p, w).bins, w.k)
  {
    hide Dist2, BinOf;
    if w.bins[w.k][w.i].cell in w.labels {
      SkipKeepsInv(p, sources, w);
    } else {
      NewKeepsInv(p, sources, w);
    }
  }

  lemma DrainedKeepsCovered(p: Pass, w: Wave, n: Cell, t: Cell)
    requires w.k < |w.bins| && w.i == |w.bins[w.k]| && Covered(p, w, n, t)
    ensures Covered(p, NextBin(w), n, t)
  {
  }

  lemma NextBinKeepsInv(p: Pass, sources: set<Cell>, w: Wave)
    requires Inv(p, sources, w) && w.k < |w.bins| && w.i == |w.bins[w.k]|
    ensures Inv(p, sources, NextBin(w))
  {
    hide Dist2, BinOf, InGrid, Near, Adjacent, InwardOk, Covered, EntryOk, ValidPass;
    var w' := NextBin(w);
    forall c | c in w'.labels
      ensures LabelOk(p, sources, w'.labels, w'.k, c) && AroundOk(p, w', c, w'.labels[c])
    {
      assert LabelOk(p, sources, w.labels, w.k, c) && AroundOk(p, w, c, w.labels[c]);
      forall n | Adjacent(c, n) && InGrid(p, n) && Near(p, n, w.labels[c])
        ensures Covered(p, w', n, w.labels[c])
      {
        DrainedKeepsCovered(p, w, n, w.labels[c]);
      }
    }
    forall s | s in sources
      ensures Covered(p, w', s, s)
    {
      DrainedKeepsCovered(p, w, s, s);
    }
  }

  // ---------- Whole passes ----------

  // The seeds are exactly the sources, each its own source.
  ghost predicate Seeds(p: Pass, sources: set<Cell>, seeds: seq<CellData>) {
    && (forall n :: 0 <= n < |seeds| ==> seeds[n].cell == seeds[n].src && seeds[n].src in sources)
    && (forall s :: s in sources ==> InGrid(p, s) && CellData(s, s) in seeds)
  }

  ghost predicate AllEmpty(bins: Bins) {
    forall b :: 0 <= b < |bins| ==> bins[b] == []
  }

  lemma SelfBin(p: Pass, s: Cell)
    requires ValidPass(p)
    ensures Dist2(s, s) == 0 && Near(p, s, s) && BinOf(p, s, s) == 0
  {
    hide Norm2, BinOf;
    SelfDistance(s);
    assert Offset(s, s) == Cell(0, 0);
    BinIsLevel(p, s, s);
  }

  lemma InitialInv(p: Pass, sources: set<Cell>, bins: Bins, seeds: seq<CellData>)
    requires ValidPass(p) && |bins| == p.top + 1 && AllEmpty(bins) && Seeds(p, sources, seeds)
    ensures Inv(p, sources, Wave(map[], bins[0 := seeds], 0, 0))
  {
    hide Dist2, BinOf, ValidPass;
    var w := Wave(map[], bins[0 := seeds], 0, 0);
    forall b, n | 0 <= b < |w.bins| && 0 <= n < |w.bins[b]|
      ensures EntryOk(p, sources, w.labels, w.bins[b][n]) && BinOf(p, w.bins[b][n].cell, w.bins[b][n].src) == b
    {
      SelfBin(p, w.bins[b][n].src);
    }
    forall s | s in sources
      ensures Covered(p, w, s, s)
    {
      SelfBin(p, s);
    }
  }

  // The outcome of a pass: sources label themselves, labels are real sources within the
  // radius, handed on from a neighbour, and no neighbour could improve a label.
  ghost predicate Stable(p: Pass, sources: set<Cell>, labels: Labels) {
    && (forall s :: s in sources ==> InGrid(p, s) && s in labels && labels[s] == s)
    && (forall c :: c in labels ==>
          InGrid(p, c) && labels[c] in sources && Near(p, c, labels[c]) && HasParent(labels, CellData(c, labels[c])))
    && (forall c, n :: c in labels && Adjacent(c, n) && InGrid(p, n) && Near(p, n, labels[c]) ==>
          Labelled(labels, n, labels[c]))
  }

  lemma FinalCovered(p: Pass, w: Wave, n: Cell, t: Cell)
    requires w.k == |w.bins| && Covered(p, w, n, t)
    ensures Labelled(w.labels, n, t)
  {
    hide BinOf, Dist2;
  }

  lemma FinalSource(p: Pass, sources: set<Cell>, w: Wave, s: Cell)
    requires Inv(p, sources, w) && w.k == |w.bins| && s in sources
    ensures s in w.labels && w.labels[s] == s
  {
    hide BinsOk, LabelsOk, Covered, Norm2;
    FinalCovered(p, w, s, s);
    SelfBin(p, s);
    ZeroNorm(Offset(s, w.labels[s]));
  }

  // When every bin has been drained, nothing is left queued and the labelling is stable.
  lemma FinalStable(p: Pass, sources: set<Cell>, w: Wave)
    requires Inv(p, sources, w) && w.k == |w.bins|
    ensures AllEmpty(w.bins)
    ensures Stable(p, sources, w.labels)
  {
    hide BinOf, Dist2, Covered, Labelled, HasParent, InwardOk, Near, Adjacent, BinsOk, ValidPass;
    forall c, n | c in w.labels && Adjacent(c, n) && InGrid(p, n) && Near(p, n, w.labels[c])
      ensures Labelled(w.labels, n, w.labels[c])
    {
      assert AroundOk(p, w, c, w.labels[c]);
      FinalCovered(p, w, n, w.labels[c]);
    }
    forall s | s in sources
      ensures InGrid(p, s) && s in w.labels && w.labels[s] == s
    {
      FinalSource(p, sources, w, s);
      assert LabelOk(p, sources, w.labels, w.k, s);
    }
    forall c | c in w.labels
      ensures InGrid(p, c) && w.labels[c] in sources && Near(p, c, w.labels[c]) && HasParent(w.labels, CellData(c, w.labels[c]))
    {
      assert LabelOk(p, sources, w.labels, w.k, c);
    }
  }

  // ---------- Coverage ----------

  function StepTo(c: Cell, s: Cell): Cell {
    if StepX(c, s) != c then StepX(c, s) else StepY(c, s)
  }

  lemma StepToFacts(p: Pass, c: Cell, s: Cell)
    requires InGrid(p, c) && InGrid(p, s) && c != s
    ensures InGrid(p, StepTo(c, s)) && Adjacent(StepTo(c, s), c)
    ensures Manhattan(c, s) == Manhattan(StepTo(c, s), s) + 1
  {
  }

  // Every cell within Manhattan distance m <= radius of a source is seen, with a label at
  // distance at most m.
  lemma {:induction false} Coverage(p: Pass, sources: set<Cell>, labels: Labels, c: Cell, s: Cell)
    requires Stable(p, sources, labels) && s in sources && InGrid(p, c)
    requires Manhattan(c, s) <= p.radius
    ensures c in labels && Dist2(c, labels[c]) <= Square(Manhattan(c, s))
    decreases Manhattan(c, s)
  {
    hide Dist2, Square, StepTo, HasParent, Adjacent, Manhattan;
    if c == s {
      SelfDistance(s);
    } else {
      var m, q := Manhattan(c, s), StepTo(c, s);
      StepToFacts(p, c, s);
      Coverage(p, sources, labels, q, s);
      var t := labels[q];
      NeighbourWithin(q, c, t, m - 1);
      SquareMonotone(m, p.radius);
      assert Labelled(labels, c, t);
    }
  }

  lemma SelfDistance(s: Cell)
    ensures Dist2(s, s) == 0
  {
  }
}
