// Stable labellings differ in how ties were broken, that is, in the order in which equal
// entries were queued. When labels are nearest obstacles whatever that order, exactly.
module TieBreaking {
  import opened Lattice
  import opened Wavefront
  import opened NearestObstacle

  // A partial labelling with nearest sources, each handed on from a cell that has it too.
  ghost predicate Held(p: Pass, sources: set<Cell>, m: Labels) {
    forall x :: x in m ==>
      InGrid(p, x) && IsNearest(sources, x, m[x]) && Near(p, x, m[x]) && HasParent(m, CellData(x, m[x]))
  }

  ghost predicate InGridAll(p: Pass, sources: set<Cell>) {
    forall s :: s in sources ==> InGrid(p, s)
  }

  // ---------- Growing a labelling by distance ----------

  // L labels everything that is reached at squared distance k or less, and agrees with m.
  ghost predicate Front(p: Pass, sources: set<Cell>, m: Labels, L: Labels, k: nat) {
    OwnLabels(sources, L) && AllPlaced(p, sources, L, k) && AllPassedOn(p, L, k) && AllFollowed(m, L, k)
  }

  ghost predicate AllPlaced(p: Pass, sources: set<Cell>, L: Labels, k: nat) {
    forall c :: c in L ==> Placed(p, sources, L, k, c)
  }

  ghost predicate AllPassedOn(p: Pass, L: Labels, k: nat) {
    forall c, n :: c in L && Adjacent(c, n) ==> PassedOn(p, L, k, L[c], n)
  }

  ghost predicate AllFollowed(m: Labels, L: Labels, k: nat) {
    forall x :: x in m ==> Followed(m, L, k, x)
  }

  ghost predicate OwnLabels(sources: set<Cell>, L: Labels) {
    forall s :: s in sources ==> s in L && L[s] == s
  }

  ghost predicate PassedOn(p: Pass, L: Labels, k: nat, s: Cell, n: Cell) {
    Within(p, n, s, k) ==> Labelled(L, n, s)
  }

  ghost predicate Followed(m: Labels, L: Labels, k: nat, x: Cell)
    requires x in m
  {
    Dist2(x, m[x]) <= k ==> x in L && L[x] == m[x]
  }

  ghost predicate Placed(p: Pass, sources: set<Cell>, L: Labels, k: nat, c: Cell)
    requires c in L
  {
    L[c] in sources && Within(p, c, L[c], k) && HasParent(L, CellData(c, L[c]))
  }

  // The grid cell n is within the radius of s and within squared distance k.
  predicate Within(p: Pass, n: Cell, s: Cell, k: nat) {
    InGrid(p, n) && Near(p, n, s) && Dist2(n, s) <= k
  }

  // n can take the source s at squared distance k + 1 from a neighbour.
  ghost predicate Candidate(p: Pass, L: Labels, k: nat, n: Cell, s: Cell) {
    && n !in L && InGrid(p, n) && Near(p, n, s) && Dist2(n, s) == k + 1
    && exists c :: c in L && Adjacent(c, n) && L[c] == s
  }

  ghost predicate Due(p: Pass, L: Labels, k: nat, n: Cell) {
    exists s :: Candidate(p, L, k, n, s)
  }

  // The source n takes: the one m asks for if it can.
  ghost function Taken(p: Pass, m: Labels, L: Labels, k: nat, n: Cell): (s: Cell)
    requires Due(p, L, k, n)
    ensures Candidate(p, L, k, n, s)
    ensures n in m && Candidate(p, L, k, n, m[n]) ==> s == m[n]
  {
    if n in m && Candidate(p, L, k, n, m[n]) then m[n]
    else
      var s :| Candidate(p, L, k, n, s);
      s
  }

  function GridSet(p: Pass): set<Cell> {
    set x, y | 0 <= x < p.width && 0 <= y < p.height :: Cell(x, y)
  }

  ghost function Grown(p: Pass, m: Labels, L: Labels, k: nat): Labels {
    L + map n | n in GridSet(p) && Due(p, L, k, n) :: Taken(p, m, L, k, n)
  }

  lemma GrownAt(p: Pass, m: Labels, L: Labels, k: nat, n: Cell)
    ensures n in L ==> n in Grown(p, m, L, k) && Grown(p, m, L, k)[n] == L[n]
    ensures n !in L ==> (n in Grown(p, m, L, k) <==> Due(p, L, k, n))
    ensures n !in L && Due(p, L, k, n) ==> Candidate(p, L, k, n, Grown(p, m, L, k)[n])
    ensures n !in L && n in m && Candidate(p, L, k, n, m[n]) ==> n in Grown(p, m, L, k) && Grown(p, m, L, k)[n] == m[n]
  {
    hide Near, Adjacent, Dist2;
    assert n == Cell(n.x, n.y);
    assert Due(p, L, k, n) ==> n in GridSet(p) && n !in L;
  }

  ghost predicate Extended(L: Labels, L': Labels) {
    forall c :: c in L ==> c in L' && L'[c] == L[c]
  }

  lemma ExtendedParent(L: Labels, L': Labels, e: CellData)
    requires Extended(L, L') && HasParent(L, e)
    ensures HasParent(L', e)
  {
    hide StepX, StepY;
  }

  lemma ExtendedLabel(L: Labels, L': Labels, n: Cell, s: Cell)
    requires Extended(L, L') && Labelled(L, n, s)
    ensures Labelled(L', n, s)
  {
    hide Dist2;
  }

  lemma GrownExtends(p: Pass, m: Labels, L: Labels, k: nat)
    ensures Extended(L, Grown(p, m, L, k))
  {
    hide Grown, Due;
    forall c | c in L
      ensures c in Grown(p, m, L, k) && Grown(p, m, L, k)[c] == L[c]
    {
      GrownAt(p, m, L, k, c);
    }
  }

  // A neighbour that is nearer to s is a step towards s.
  lemma NearerIsStep(n: Cell, c: Cell, s: Cell)
    requires Adjacent(c, n) && Dist2(c, s) < Dist2(n, s)
    ensures (c == StepX(n, s) && StepX(n, s) != n) || (c == StepY(n, s) && StepY(n, s) != n)
  {
    hide Dist2;
    assert Adjacent(n, c);
    NeighbourDistance(n, c, s);
  }

  lemma CandidateParent(p: Pass, sources: set<Cell>, m: Labels, L: Labels, k: nat, n: Cell, s: Cell) returns (c: Cell)
    requires Front(p, sources, m, L, k) && Candidate(p, L, k, n, s)
    ensures c in L && L[c] == s && s in sources && Dist2(c, s) <= k && InGrid(p, c) && Near(p, c, s)
    ensures (c == StepX(n, s) && StepX(n, s) != n) || (c == StepY(n, s) && StepY(n, s) != n)
  {
    hide Dist2, StepX, StepY, Near, Adjacent, InGrid, Labelled, HasParent;
    c :| c in L && Adjacent(c, n) && L[c] == s;
    assert Placed(p, sources, L, k, c);
    NearerIsStep(n, c, s);
  }

  // A cell newly labelled is placed.
  lemma NewPlaced(p: Pass, sources: set<Cell>, m: Labels, L: Labels, k: nat, n: Cell)
    requires Front(p, sources, m, L, k) && n !in L && n in Grown(p, m, L, k)
    ensures Placed(p, sources, Grown(p, m, L, k), k + 1, n)
  {
    hide Dist2, StepX, StepY, Near, Adjacent, InGrid, Front, Grown;
    var L' := Grown(p, m, L, k);
    GrownAt(p, m, L, k, n);
    var s := L'[n];
    var c := CandidateParent(p, sources, m, L, k, n, s);
    GrownAt(p, m, L, k, c);
  }

  // What an old label hands on.
  lemma OldHandsOn(p: Pass, sources: set<Cell>, m: Labels, L: Labels, k: nat, c: Cell, n: Cell)
    requires Front(p, sources, m, L, k) && c in L && Adjacent(c, n) && Within(p, n, L[c], k + 1)
    ensures Labelled(Grown(p, m, L, k), n, L[c])
  {
    hide Dist2, Near, Adjacent, InGrid, HasParent, Grown;
    GrownAt(p, m, L, k, n);
    if Dist2(n, L[c]) <= k {
      assert PassedOn(p, L, k, L[c], n);
    } else if n in L {
      assert Placed(p, sources, L, k, n);
    } else {
      assert Candidate(p, L, k, n, L[c]);
    }
  }

  // The other step towards s, given one that carries s: its label is no worse than s.
  lemma OtherStep(p: Pass, sources: set<Cell>, m: Labels, L: Labels, k: nat, n: Cell, s: Cell, par: Cell, other: Cell)
    requires Front(p, sources, m, L, k) && InGrid(p, n) && InGrid(p, s) && Near(p, n, s) && Dist2(n, s) == k + 1
    requires par in L && L[par] == s
    requires (par == StepX(n, s) && other == StepY(n, s)) || (par == StepY(n, s) && other == StepX(n, s))
    requires par != n && other != n
    ensures Labelled(L, other, s)
  {
    hide Dist2, StepX, StepY, Near, Adjacent, InGrid, HasParent, Labelled;
    StepNearer(n, s);
    StepInGrid(p, n, s);
    StepSquare(n, s);
    var q := StepX(StepY(n, s), s);
    StepInGrid(p, StepY(n, s), s);
    StepNearer(StepX(n, s), s);
    StepNearer(StepY(n, s), s);
    NearBelow(p, n, par, s);
    NearBelow(p, par, q, s);
    StillAdjacent(q, par);
    assert PassedOn(p, L, k, s, q) && Within(p, q, s, k);
    CornerServes(p, sources, m, L, k, s, par, other, q, n);
  }

  lemma StillAdjacent(a: Cell, b: Cell)
    ensures Adjacent(a, b) <==> Adjacent(b, a)
  {
  }

  lemma NearBelow(p: Pass, n: Cell, q: Cell, s: Cell)
    requires Near(p, n, s) && Dist2(q, s) < Dist2(n, s)
    ensures Near(p, q, s)
  {
  }

  lemma CornerServes(p: Pass, sources: set<Cell>, m: Labels, L: Labels, k: nat, s: Cell, par: Cell, other: Cell, q: Cell, n: Cell)
    requires Front(p, sources, m, L, k) && Labelled(L, q, s) && par in L && L[par] == s
    requires (par == StepX(n, s) && other == StepY(n, s)) || (par == StepY(n, s) && other == StepX(n, s))
    requires n.x != s.x && n.y != s.y && q == StepX(StepY(n, s), s)
    requires InGrid(p, par) && InGrid(p, other) && Adjacent(q, par) && Adjacent(q, other)
    requires Near(p, n, s) && Dist2(par, s) < Dist2(n, s) && Dist2(other, s) < Dist2(n, s) && Dist2(n, s) == k + 1
    ensures Labelled(L, other, s)
  {
    hide Dist2, StepX, StepY, Adjacent, InGrid, HasParent;
    var t := L[q];
    SquareArgument(n, s, t);
    assert PassedOn(p, L, k, t, par) && PassedOn(p, L, k, t, other);
    assert Dist2(par, t) < Dist2(par, s) ==> Within(p, par, t, k);
    assert Dist2(other, t) <= Dist2(other, s) ==> Within(p, other, t, k);
  }

  // What a new label hands on: its neighbours within the distance are labelled already.
  lemma NewHandsOn(p: Pass, sources: set<Cell>, m: Labels, L: Labels, k: nat, c: Cell, n: Cell)
    requires Front(p, sources, m, L, k) && InGridAll(p, sources) && c !in L && c in Grown(p, m, L, k)
    requires Adjacent(c, n) && Within(p, n, Grown(p, m, L, k)[c], k + 1)
    ensures Labelled(L, n, Grown(p, m, L, k)[c])
  {
    hide Dist2, StepX, StepY, Near, Adjacent, InGrid, Front, Grown, Labelled;
    GrownAt(p, m, L, k, c);
    var s := Grown(p, m, L, k)[c];
    var par := CandidateParent(p, sources, m, L, k, c, s);
    NeighbourDistance(c, n, s);
    StillAdjacent(n, c);
    NearerIsStep(c, n, s);
    if n == par {
      SelfLabelled(L, par);
    } else {
      OtherStep(p, sources, m, L, k, c, s, par, n);
    }
  }

  lemma SelfLabelled(L: Labels, c: Cell)
    requires c in L
    ensures Labelled(L, c, L[c])
  {
  }

  // m is followed: what it asks for at distance k + 1 can be taken.
  lemma FollowsHeld(p: Pass, sources: set<Cell>, m: Labels, L: Labels, k: nat, x: Cell)
    requires Front(p, sources, m, L, k) && Held(p, sources, m) && x in m && Dist2(x, m[x]) <= k + 1
    ensures x in Grown(p, m, L, k) && Grown(p, m, L, k)[x] == m[x]
  {
    hide Dist2, StepX, StepY, Near, Adjacent, InGrid, Grown, Labelled;
    GrownAt(p, m, L, k, x);
    assert Followed(m, L, k, x);
    if Dist2(x, m[x]) == k + 1 {
      PlacedWithin(p, sources, L, k);
      HeldCandidate(p, sources, m, L, k, x);
    }
  }

  lemma PlacedWithin(p: Pass, sources: set<Cell>, L: Labels, k: nat)
    requires AllPlaced(p, sources, L, k)
    ensures forall c :: c in L ==> L[c] in sources && Dist2(c, L[c]) <= k
  {
    hide Dist2, Near, InGrid, HasParent;
    forall c | c in L
      ensures L[c] in sources && Dist2(c, L[c]) <= k
    {
      assert Placed(p, sources, L, k, c);
    }
  }

  lemma HeldCandidate(p: Pass, sources: set<Cell>, m: Labels, L: Labels, k: nat, x: Cell)
    requires Front(p, sources, m, L, k) && Held(p, sources, m) && x in m && Dist2(x, m[x]) == k + 1 && x !in L
    ensures Candidate(p, L, k, x, m[x])
  {
    hide Dist2, Near, Adjacent, InGrid, Labelled;
    SelfDistance(x);
    var q := ParentOf(m, x);
    assert Followed(m, L, k, q);
  }

  lemma GrownFront(p: Pass, sources: set<Cell>, m: Labels, L: Labels, k: nat)
    requires Front(p, sources, m, L, k) && Held(p, sources, m) && InGridAll(p, sources)
    ensures Front(p, sources, m, Grown(p, m, L, k), k + 1)
  {
    hide Dist2, StepX, StepY, Near, Adjacent, InGrid, Grown, Labelled, HasParent, Held;
    var L' := Grown(p, m, L, k);
    GrownExtends(p, m, L, k);
    forall c | c in L'
      ensures Placed(p, sources, L', k + 1, c)
    {
      if c in L {
        assert Placed(p, sources, L, k, c);
        ExtendedParent(L, L', CellData(c, L[c]));
      } else {
        NewPlaced(p, sources, m, L, k, c);
      }
    }
    forall c, n | c in L' && Adjacent(c, n)
      ensures PassedOn(p, L', k + 1, L'[c], n)
    {
      if Within(p, n, L'[c], k + 1) {
        if c in L {
          OldHandsOn(p, sources, m, L, k, c, n);
        } else {
          NewHandsOn(p, sources, m, L, k, c, n);
          ExtendedLabel(L, L', n, L'[c]);
        }
      }
    }
    forall x | x in m
      ensures Followed(m, L', k + 1, x)
    {
      if Dist2(x, m[x]) <= k + 1 {
        FollowsHeld(p, sources, m, L, k, x);
      }
    }
  }

  lemma FirstFront(p: Pass, sources: set<Cell>, m: Labels)
    requires Held(p, sources, m) && InGridAll(p, sources)
    ensures Front(p, sources, m, map s | s in sources :: s, 0)
  {
    hide Adjacent, InGrid, StepX, StepY, Square, Dist2, IsNearest;
    var L := map s | s in sources :: s;
    forall c | c in L
      ensures Placed(p, sources, L, 0, c)
    {
      SelfDistance(c);
    }
    forall c, n | c in L && Adjacent(c, n)
      ensures PassedOn(p, L, 0, L[c], n)
    {
      Apart(c, n);
    }
    forall x | x in m
      ensures Followed(m, L, 0, x)
    {
      HeldZero(sources, x, m[x]);
    }
  }

  lemma HeldZero(sources: set<Cell>, x: Cell, s: Cell)
    requires IsNearest(sources, x, s)
    ensures Dist2(x, s) == 0 ==> x == s && s in sources
  {
    hide Norm2;
    ZeroNorm(Offset(x, s));
  }

  lemma Apart(c: Cell, n: Cell)
    requires Adjacent(c, n)
    ensures Dist2(n, c) > 0
  {
    hide Norm2;
    ZeroNorm(Offset(n, c));
  }

  lemma {:induction false} FrontAt(p: Pass, sources: set<Cell>, m: Labels, k: nat) returns (L: Labels)
    requires Held(p, sources, m) && InGridAll(p, sources)
    ensures Front(p, sources, m, L, k)
  {
    hide Front, Held, Grown;
    if k == 0 {
      L := map s | s in sources :: s;
      FirstFront(p, sources, m);
    } else {
      L := FrontAt(p, sources, m, k - 1);
      GrownFront(p, sources, m, L, k - 1);
      L := Grown(p, m, L, k - 1);
    }
  }

  // Every held partial labelling is part of a stable labelling: some queue order leads to it.
  lemma StableExtension(p: Pass, sources: set<Cell>, m: Labels) returns (L: Labels)
    requires Held(p, sources, m) && InGridAll(p, sources)
    ensures Stable(p, sources, L) && Extended(m, L)
  {
    hide HasParent, Adjacent, Square, Dist2, IsNearest;
    L := FrontAt(p, sources, m, Square(p.radius));
    forall c | c in L
      ensures InGrid(p, c) && L[c] in sources && Near(p, c, L[c]) && HasParent(L, CellData(c, L[c]))
    {
      assert Placed(p, sources, L, Square(p.radius), c);
    }
    forall c, n | c in L && Adjacent(c, n) && InGrid(p, n) && Near(p, n, L[c])
      ensures Labelled(L, n, L[c])
    {
      assert PassedOn(p, L, Square(p.radius), L[c], n);
    }
    forall x | x in m
      ensures x in L && L[x] == m[x]
    {
      assert Followed(m, L, Square(p.radius), x);
    }
  }

  // ---------- Trapped cells ----------

  // A nearest source of c could come to it from its neighbour q.
  ghost predicate Inlet(p: Pass, sources: set<Cell>, q: Cell, c: Cell) {
    && Adjacent(q, c) && InGrid(p, q)
    && exists s :: IsNearest(sources, c, s) && IsNearest(sources, q, s) && Dist2(q, s) < Dist2(c, s)
  }

  // Other nearest sources can hold all inlets of c, and none of them is a nearest one for c.
  ghost predicate Trapped(p: Pass, sources: set<Cell>, c: Cell) {
    c !in sources && exists m :: Traps(p, sources, c, m)
  }

  ghost predicate Traps(p: Pass, sources: set<Cell>, c: Cell, m: Labels) {
    Held(p, sources, m) && forall q :: Inlet(p, sources, q, c) ==> q in m && !IsNearest(sources, c, m[q])
  }

  // A trapped cell is missed in some stable labelling.
  lemma TrappedIsMissed(p: Pass, sources: set<Cell>, c: Cell) returns (L: Labels)
    requires InGridAll(p, sources) && InReach(p, sources, c) && Trapped(p, sources, c)
    ensures Stable(p, sources, L) && !Exact(p, sources, L)
  {
    hide Dist2, Near, Adjacent, HasParent, Held, Stable;
    var m :| Traps(p, sources, c, m);
    L := StableExtension(p, sources, m);
    if Exact(p, sources, L) {
      TrappedLabel(p, sources, c, m, L);
      assert false;
    }
  }

  lemma TrappedLabel(p: Pass, sources: set<Cell>, c: Cell, m: Labels, L: Labels)
    requires Stable(p, sources, L) && Exact(p, sources, L) && InReach(p, sources, c) && c !in sources
    requires Traps(p, sources, c, m)
    ensures !Extended(m, L)
  {
    hide Dist2, Near, Adjacent, Held, IsNearest, Labelled;
    var s := L[c];
    assert L[c] in sources;
    var q := ParentOf(L, c);
    assert InReach(p, sources, q);
    assert Inlet(p, sources, q, c);
  }

  lemma {:induction false} NearestExists(sources: set<Cell>, c: Cell) returns (t: Cell)
    requires sources != {}
    ensures IsNearest(sources, c, t)
    decreases |sources|
  {
    hide Dist2;
    var s :| s in sources;
    var rest := sources - {s};
    if rest == {} {
      t := s;
    } else {
      t := NearestExists(rest, c);
      if Dist2(c, s) < Dist2(c, t) {
        t := s;
      }
    }
    assert sources == rest + {s};
  }

  ghost predicate Missed(p: Pass, sources: set<Cell>, L: Labels, c: Cell) {
    InReach(p, sources, c) && !(c in L && IsNearest(sources, c, L[c]))
  }

  // The labels of cells nearer to obstacles than squared distance d.
  ghost function Below(sources: set<Cell>, L: Labels, d: nat): Labels {
    map x | x in L && Dist2(x, L[x]) < d :: L[x]
  }

  // A missed cell of least distance is trapped.
  lemma {:induction false} MissedIsTrapped(p: Pass, sources: set<Cell>, L: Labels, c: Cell, s: Cell) returns (e: Cell)
    requires Stable(p, sources, L) && Missed(p, sources, L, c) && IsNearest(sources, c, s)
    ensures InReach(p, sources, e) && Trapped(p, sources, e)
    decreases Dist2(c, s)
  {
    hide Stable, Dist2, IsNearest, InReach, Trapped;
    if b, t :| Missed(p, sources, L, b) && IsNearest(sources, b, t) && Dist2(b, t) < Dist2(c, s) {
      e := MissedIsTrapped(p, sources, L, b, t);
    } else {
      e := c;
      LeastIsTrapped(p, sources, L, c, s);
    }
  }

  ghost predicate LeastMissed(p: Pass, sources: set<Cell>, L: Labels, c: Cell, s: Cell) {
    && Missed(p, sources, L, c) && IsNearest(sources, c, s)
    && forall b, t :: Missed(p, sources, L, b) && IsNearest(sources, b, t) ==> Dist2(b, t) >= Dist2(c, s)
  }

  lemma LeastIsTrapped(p: Pass, sources: set<Cell>, L: Labels, c: Cell, s: Cell)
    requires Stable(p, sources, L) && LeastMissed(p, sources, L, c, s)
    ensures Trapped(p, sources, c)
  {
    hide Dist2, Stable, Held, IsNearest, InReach;
    var m := Below(sources, L, Dist2(c, s));
    BelowHeld(p, sources, L, c, s);
    forall q | Inlet(p, sources, q, c)
      ensures q in m && !IsNearest(sources, c, m[q])
    {
      InletLabel(p, sources, L, c, s, q);
    }
    assert Traps(p, sources, c, m);
    MissedNoSource(p, sources, L, c);
  }

  lemma MissedNoSource(p: Pass, sources: set<Cell>, L: Labels, c: Cell)
    requires Stable(p, sources, L) && Missed(p, sources, L, c)
    ensures c !in sources
  {
    hide Dist2, HasParent, Labelled, Adjacent, Near;
    if c in sources {
      SourceIsNearest(sources, c);
    }
  }

  // The nearest sources of one cell are at one distance.
  lemma SameDistance(sources: set<Cell>, c: Cell, s: Cell, t: Cell)
    ensures IsNearest(sources, c, s) && IsNearest(sources, c, t) ==> Dist2(c, s) == Dist2(c, t)
  {
    hide Dist2;
  }

  // Below the least missed cell all labels are nearest ones.
  lemma RightBelow(p: Pass, sources: set<Cell>, L: Labels, c: Cell, s: Cell, x: Cell)
    requires Stable(p, sources, L) && LeastMissed(p, sources, L, c, s) && x in L && Dist2(x, L[x]) < Dist2(c, s)
    ensures IsNearest(sources, x, L[x]) && InGrid(p, x) && Near(p, x, L[x])
  {
    hide Dist2, HasParent, Labelled, Adjacent, Near, InGrid;
    assert InReach(p, sources, x) by { assert L[x] in sources && Near(p, x, L[x]); }
    var t := NearestExists(sources, x);
    assert Dist2(x, t) <= Dist2(x, L[x]);
  }

  lemma BelowHeld(p: Pass, sources: set<Cell>, L: Labels, c: Cell, s: Cell)
    requires Stable(p, sources, L) && LeastMissed(p, sources, L, c, s)
    ensures Held(p, sources, Below(sources, L, Dist2(c, s)))
  {
    hide Dist2, LeastMissed, IsNearest, Near, InGrid, Adjacent, Labelled;
    var m := Below(sources, L, Dist2(c, s));
    forall x | x in m
      ensures InGrid(p, x) && IsNearest(sources, x, m[x]) && Near(p, x, m[x]) && HasParent(m, CellData(x, m[x]))
    {
      RightBelow(p, sources, L, c, s, x);
      assert HasParent(L, CellData(x, L[x]));
      StepNearer(x, L[x]);
    }
  }

  lemma InletLabel(p: Pass, sources: set<Cell>, L: Labels, c: Cell, s: Cell, q: Cell)
    requires Stable(p, sources, L) && LeastMissed(p, sources, L, c, s) && Inlet(p, sources, q, c)
    ensures q in Below(sources, L, Dist2(c, s)) && !IsNearest(sources, c, L[q])
  {
    hide Dist2, HasParent, Adjacent, Square, InGrid;
    var t :| IsNearest(sources, c, t) && IsNearest(sources, q, t) && Dist2(q, t) < Dist2(c, t);
    SameDistance(sources, c, s, t);
    var u :| u in sources && Near(p, c, u);
    assert Near(p, c, t) && Near(p, q, t);
    assert InReach(p, sources, q);
    assert q in L && IsNearest(sources, q, L[q]);
    SameDistance(sources, q, t, L[q]);
    assert Near(p, c, L[q]) ==> Labelled(L, c, L[q]);
    SameDistance(sources, c, t, L[q]);
  }

  // ---------- The theorem ----------

  ghost predicate AlwaysExact(p: Pass, sources: set<Cell>) {
    forall L :: Stable(p, sources, L) ==> Exact(p, sources, L)
  }

  ghost predicate NoneTrapped(p: Pass, sources: set<Cell>) {
    forall c :: InReach(p, sources, c) ==> !Trapped(p, sources, c)
  }

  // For all obstacles in a grid: every stable labelling, whatever the queue order it came
  // from, sees all cells in reach with a nearest obstacle iff no cell in reach is trapped.
  lemma ExactIffNoneTrapped(p: Pass, sources: set<Cell>)
    requires InGridAll(p, sources)
    ensures AlwaysExact(p, sources) <==> NoneTrapped(p, sources)
  {
    hide Stable, InReach, Trapped, IsNearest;
    if AlwaysExact(p, sources) {
      forall c | InReach(p, sources, c)
        ensures !Trapped(p, sources, c)
      {
        if Trapped(p, sources, c) {
          var L := TrappedIsMissed(p, sources, c);
        }
      }
    }
    if NoneTrapped(p, sources) {
      forall L | Stable(p, sources, L)
        ensures Exact(p, sources, L)
      {
        NoneMissed(p, sources, L);
      }
    }
  }

  lemma NoneMissed(p: Pass, sources: set<Cell>, L: Labels)
    requires Stable(p, sources, L) && NoneTrapped(p, sources)
    ensures Exact(p, sources, L)
  {
    hide Stable, Trapped, Dist2, IsNearest;
    forall c | InReach(p, sources, c)
      ensures !Missed(p, sources, L, c)
    {
      if Missed(p, sources, L, c) {
        var s := NearestExists(sources, c);
        var e := MissedIsTrapped(p, sources, L, c, s);
      }
    }
  }

  // ---------- A condition cell by cell ----------

  // t can come to hold q.
  ghost predicate Holds(p: Pass, sources: set<Cell>, q: Cell, t: Cell) {
    exists m :: Held(p, sources, m) && q in m && m[q] == t
  }

  // t holds q iff it is a nearest source there, within the radius, and q is t or a step from q
  // towards t is held by t: a table filled from the obstacles outwards.
  lemma HoldsStep(p: Pass, sources: set<Cell>, q: Cell, t: Cell)
    ensures Holds(p, sources, q, t) <==>
      && InGrid(p, q) && IsNearest(sources, q, t) && Near(p, q, t)
      && (q == t || (StepX(q, t) != q && Holds(p, sources, StepX(q, t), t)) || (StepY(q, t) != q && Holds(p, sources, StepY(q, t), t)))
  {
    hide IsNearest, Near, InGrid, StepX, StepY;
    if Holds(p, sources, q, t) {
      var m :| Held(p, sources, m) && q in m && m[q] == t;
      assert HasParent(m, CellData(q, t));
    }
    if InGrid(p, q) && IsNearest(sources, q, t) && Near(p, q, t) {
      if q == t {
        HoldsFrom(p, sources, map[], q, t);
      } else if StepX(q, t) != q && Holds(p, sources, StepX(q, t), t) {
        var m :| Held(p, sources, m) && StepX(q, t) in m && m[StepX(q, t)] == t;
        HoldsFrom(p, sources, m, q, t);
      } else if StepY(q, t) != q && Holds(p, sources, StepY(q, t), t) {
        var m :| Held(p, sources, m) && StepY(q, t) in m && m[StepY(q, t)] == t;
        HoldsFrom(p, sources, m, q, t);
      }
    }
  }

  lemma HoldsFrom(p: Pass, sources: set<Cell>, m: Labels, q: Cell, t: Cell)
    requires Held(p, sources, m) && InGrid(p, q) && IsNearest(sources, q, t) && Near(p, q, t)
    requires q == t || (StepX(q, t) != q && StepX(q, t) in m && m[StepX(q, t)] == t)
                    || (StepY(q, t) != q && StepY(q, t) in m && m[StepY(q, t)] == t)
    ensures Holds(p, sources, q, t)
  {
    hide IsNearest, Near, InGrid, StepX, StepY;
    var only := (map x | x in m && m[x] == t :: t)[q := t];
    forall x | x in only
      ensures InGrid(p, x) && IsNearest(sources, x, only[x]) && Near(p, x, only[x]) && HasParent(only, CellData(x, only[x]))
    {
      if x != q {
        assert HasParent(m, CellData(x, m[x]));
      }
    }
    assert Held(p, sources, only);
  }

  // Some inlet of c can only be held by sources that are nearest ones for c.
  ghost predicate Fed(p: Pass, sources: set<Cell>, c: Cell) {
    c in sources || exists q :: Inlet(p, sources, q, c) && forall t :: Holds(p, sources, q, t) ==> IsNearest(sources, c, t)
  }

  // Ties that no source can hold, or that do no harm at a neighbour, are harmless.
  lemma FedIsNotTrapped(p: Pass, sources: set<Cell>, c: Cell)
    requires Fed(p, sources, c)
    ensures !Trapped(p, sources, c)
  {
    hide IsNearest, Held, Inlet;
    if c !in sources {
      var q :| Inlet(p, sources, q, c) && forall t :: Holds(p, sources, q, t) ==> IsNearest(sources, c, t);
      forall m
        ensures !Traps(p, sources, c, m)
      {
        if Held(p, sources, m) && q in m {
          assert Holds(p, sources, q, m[q]);
        }
      }
    }
  }

  lemma FedIsExact(p: Pass, sources: set<Cell>)
    requires InGridAll(p, sources) && forall c :: InReach(p, sources, c) ==> Fed(p, sources, c)
    ensures AlwaysExact(p, sources)
  {
    hide InReach, Fed, Trapped, AlwaysExact;
    forall c | InReach(p, sources, c)
      ensures !Trapped(p, sources, c)
    {
      FedIsNotTrapped(p, sources, c);
    }
    ExactIffNoneTrapped(p, sources);
  }
}
