// The integer ranking of lattice offsets by length that indexes the inflation bins.
module DistanceRanking {
  import opened Lattice

  type Matrix = seq<seq<nat>>

  predicate IsSquare(m: Matrix, size: nat) {
    && |m| == size
    && forall i :: 0 <= i < |m| ==> |m[i]| == size
  }

  predicate WithinSquare(p: Cell, r: nat) {
    -(r as int) <= p.x <= r && -(r as int) <= p.y <= r
  }

  predicate InDisc(p: Cell, r: nat) {
    WithinSquare(p, r) && Norm2(p) <= Square(r)
  }

  function Level(m: Matrix, r: nat, p: Cell): nat
    requires IsSquare(m, 2 * r + 1) && WithinSquare(p, r)
  {
    m[p.x + r][p.y + r]
  }

  // m ranks the disc of radius r: levels order offsets exactly as their lengths do,
  // start at 0, and top is the largest of them.
  ghost predicate Ranks(m: Matrix, r: nat, top: nat) {
    && IsSquare(m, 2 * r + 1)
    && (forall p, q :: InDisc(p, r) && InDisc(q, r) ==>
          (Level(m, r, p) < Level(m, r, q) <==> Norm2(p) < Norm2(q)))
    && (forall p :: InDisc(p, r) ==> Level(m, r, p) <= top)
    && (exists p :: InDisc(p, r) && Level(m, r, p) == top)
    && Level(m, r, Cell(0, 0)) == 0
  }

  lemma RanksShape(m: Matrix, r: nat, top: nat)
    requires Ranks(m, r, top)
    ensures IsSquare(m, 2 * r + 1)
  {
    hide InDisc;
  }

  lemma RankOrder(m: Matrix, r: nat, top: nat, p: Cell, q: Cell)
    requires Ranks(m, r, top) && InDisc(p, r) && InDisc(q, r)
    ensures Level(m, r, p) <= Level(m, r, q) <==> Norm2(p) <= Norm2(q)
    ensures Level(m, r, p) < Level(m, r, q) <==> Norm2(p) < Norm2(q)
    ensures Level(m, r, p) <= top
  {
    hide Norm2;
  }

  // Only the origin has level 0.
  lemma RankOfOrigin(m: Matrix, r: nat, top: nat, p: Cell)
    requires Ranks(m, r, top) && InDisc(p, r)
    ensures Level(m, r, p) == 0 <==> p == Cell(0, 0)
  {
    hide Ranks, Norm2, Square;
    RanksShape(m, r, top);
    OriginRanked(m, r, top);
    ZeroNorm(p);
    ZeroNorm(Cell(0, 0));
    RankOrder(m, r, top, Cell(0, 0), p);
  }

  lemma OriginRanked(m: Matrix, r: nat, top: nat)
    requires Ranks(m, r, top)
    ensures InDisc(Cell(0, 0), r) && Level(m, r, Cell(0, 0)) == 0
  {
    hide Norm2;
    ZeroNorm(Cell(0, 0));
  }

  ghost predicate ListsDisc(s: seq<Cell>, r: nat) {
    forall p :: p in s <==> InDisc(p, r)
  }

  // The points of the disc before (x, y) in row order.
  ghost predicate ListsUpTo(s: seq<Cell>, r: nat, x: int, y: int) {
    forall p :: p in s <==> InDisc(p, r) && (p.y < y || (p.y == y && p.x < x))
  }

  lemma ListNext(s: seq<Cell>, r: nat, x: int, y: int)
    requires ListsUpTo(s, r, x, y)
    ensures InDisc(Cell(x, y), r) ==> ListsUpTo(s + [Cell(x, y)], r, x + 1, y)
    ensures !InDisc(Cell(x, y), r) ==> ListsUpTo(s, r, x + 1, y)
  {
    forall p: Cell | p.y == y && p.x == x ensures p == Cell(x, y) {
    }
  }

  lemma RowDone(s: seq<Cell>, r: nat, y: int)
    requires ListsUpTo(s, r, r + 1, y)
    ensures ListsUpTo(s, r, -(r as int), y + 1)
  {
  }

  // The offsets of the disc, row by row.
  method DiscPoints(r: nat) returns (points: seq<Cell>)
    ensures ListsDisc(points, r)
  {
    points := [];
    var y := -(r as int);
    while y <= r
      invariant -(r as int) <= y <= r + 1
      invariant ListsUpTo(points, r, -(r as int), y)
    {
      var x := -(r as int);
      while x <= r
        invariant -(r as int) <= x <= r + 1
        invariant ListsUpTo(points, r, x, y)
      {
        ListNext(points, r, x, y);
        if Norm2(Cell(x, y)) <= Square(r) {
          points := points + [Cell(x, y)];
        }
        x := x + 1;
      }
      RowDone(points, r, y);
      y := y + 1;
    }
  }

  ghost predicate SortedBy(key: Cell -> nat, s: seq<Cell>) {
    forall i, j :: 0 <= i < j < |s| ==> key(s[i]) <= key(s[j])
  }

  // Inserting p where everything before is at most p and everything after is larger.
  lemma InsertSorted(key: Cell -> nat, s: seq<Cell>, j: nat, p: Cell)
    requires SortedBy(key, s) && j <= |s|
    requires j > 0 ==> key(s[j - 1]) <= key(p)
    requires forall i :: j <= i < |s| ==> key(s[i]) > key(p)
    ensures SortedBy(key, s[..j] + [p] + s[j..])
  {
    var t := s[..j] + [p] + s[j..];
    forall a, b | 0 <= a < b < |t|
      ensures key(t[a]) <= key(t[b])
    {
      var a' := if a < j then a else if a == j then j else a - 1;
      var b' := if b < j then b else if b == j then j else b - 1;
      assert a != j ==> t[a] == s[a'];
      assert b != j ==> t[b] == s[b'];
      if a < j == b {
        assert a < j - 1 ==> key(s[a]) <= key(s[j - 1]);
      }
    }
  }

  lemma InsertMembers(s: seq<Cell>, j: nat, p: Cell)
    requires j <= |s|
    ensures multiset(s[..j] + [p] + s[j..]) == multiset(s) + multiset{p}
  {
    assert s == s[..j] + s[j..];
  }

  // Stands for the library sort: a permutation ordered by the comparator's key.
  method SortBy(key: Cell -> nat, points: seq<Cell>) returns (sorted: seq<Cell>)
    ensures SortedBy(key, sorted)
    ensures multiset(sorted) == multiset(points)
  {
    sorted := [];
    for n := 0 to |points|
      invariant SortedBy(key, sorted)
      invariant multiset(sorted) == multiset(points[..n])
    {
      var p := points[n];
      var j := |sorted|;
      while j > 0 && key(sorted[j - 1]) > key(p)
        invariant 0 <= j <= |sorted|
        invariant forall i :: j <= i < |sorted| ==> key(sorted[i]) > key(p)
      {
        j := j - 1;
      }
      InsertSorted(key, sorted, j, p);
      InsertMembers(sorted, j, p);
      assert points[..n + 1] == points[..n] + [p];
      sorted := sorted[..j] + [p] + sorted[j..];
    }
    assert points[..|points|] == points;
  }

  // Levels of a sorted list: equal for equal keys, increasing with the key, from 0.
  ghost predicate LevelsOf(key: Cell -> nat, s: seq<Cell>, lv: seq<nat>) {
    && |lv| == |s|
    && (forall i, j :: 0 <= i < j < |s| ==>
          key(s[i]) <= key(s[j]) && lv[i] <= lv[j] && (lv[i] < lv[j] <==> key(s[i]) < key(s[j])))
    && (|s| > 0 ==> lv[0] == 0)
  }

  ghost predicate Records(m: Matrix, r: nat, s: seq<Cell>, lv: seq<nat>) {
    && IsSquare(m, 2 * r + 1)
    && |s| == |lv|
    && forall i :: 0 <= i < |s| ==> WithinSquare(s[i], r) && Level(m, r, s[i]) == lv[i]
  }

  lemma RecordNext(key: Cell -> nat, m: Matrix, r: nat, s: seq<Cell>, lv: seq<nat>, p: Cell, level: nat, m': Matrix)
    requires Records(m, r, s, lv) && LevelsOf(key, s, lv) && SortedBy(key, s + [p]) && WithinSquare(p, r)
    requires |s| == 0 ==> level == 0
    requires |s| > 0 ==> level == lv[|s| - 1] + (if key(p) != key(s[|s| - 1]) then 1 else 0)
    requires IsSquare(m', 2 * r + 1)
    requires forall q :: WithinSquare(q, r) ==> Level(m', r, q) == if q == p then level else Level(m, r, q)
    ensures LevelsOf(key, s + [p], lv + [level])
    ensures Records(m', r, s + [p], lv + [level])
  {
    var s', lv' := s + [p], lv + [level];
    var n := |s|;
    assert SortedBy(key, s') ==> forall i :: 0 <= i < n ==> key(s'[i]) <= key(s'[n]);
    forall i | 0 <= i < n
      ensures lv[i] <= level && (lv[i] < level <==> key(s[i]) < key(p))
    {
      assert s'[i] == s[i] && s'[n] == p && s'[n - 1] == s[n - 1];
      assert key(s'[i]) <= key(s'[n]) && key(s'[n - 1]) <= key(s'[n]);
      assert i < n - 1 ==> key(s'[i]) <= key(s'[n - 1]);
    }
  }

  method AssignLevels(key: Cell -> nat, points: seq<Cell>, r: nat) returns (m: Matrix, level: nat, ghost lv: seq<nat>)
    requires SortedBy(key, points)
    requires forall i :: 0 <= i < |points| ==> WithinSquare(points[i], r)
    requires |points| > 0 && key(points[0]) == key(Cell(0, 0))
    ensures LevelsOf(key, points, lv) && Records(m, r, points, lv)
    ensures level == lv[|lv| - 1]
  {
    m := seq(2 * r + 1, _ => seq(2 * r + 1, _ => 0));
    level := 0;
    lv := [];
    var last := Cell(0, 0);
    for n := 0 to |points|
      invariant LevelsOf(key, points[..n], lv) && Records(m, r, points[..n], lv)
      invariant n == 0 ==> last == Cell(0, 0) && level == 0
      invariant n > 0 ==> last == points[n - 1] && level == lv[n - 1]
    {
      var p := points[n];
      if key(p) != key(last) {
        level := level + 1;
      }
      var row: seq<nat> := m[p.x + r][p.y + r := level];
      ghost var before := m;
      m := m[p.x + r := row];
      assert points[..n] + [p] == points[..n + 1];
      RecordNext(key, before, r, points[..n], lv, p, level, m);
      lv := lv + [level];
      last := p;
    }
    assert points[..|points|] == points;
  }

  lemma LevelOrder(s: seq<Cell>, lv: seq<nat>, i: nat, j: nat)
    requires LevelsOf(Norm2, s, lv) && i < |s| && j < |s|
    ensures lv[i] < lv[j] <==> Norm2(s[i]) < Norm2(s[j])
    ensures lv[i] <= lv[|s| - 1]
  {
    hide Norm2;
    if i < j {
      assert lv[i] < lv[j] <==> Norm2(s[i]) < Norm2(s[j]);
    } else if j < i {
      assert lv[j] <= lv[i] && (lv[j] < lv[i] <==> Norm2(s[j]) < Norm2(s[i]));
    }
  }

  lemma RankingFromLevels(s: seq<Cell>, r: nat, m: Matrix, top: nat, lv: seq<nat>)
    requires ListsDisc(s, r)
    requires |s| > 0 && s[0] == Cell(0, 0)
    requires LevelsOf(Norm2, s, lv) && Records(m, r, s, lv) && top == lv[|lv| - 1]
    ensures Ranks(m, r, top)
  {
    hide Norm2;
    forall p, q | InDisc(p, r) && InDisc(q, r)
      ensures Level(m, r, p) < Level(m, r, q) <==> Norm2(p) < Norm2(q)
      ensures Level(m, r, p) <= top
    {
      var i :| 0 <= i < |s| && s[i] == p;
      var j :| 0 <= j < |s| && s[j] == q;
      LevelOrder(s, lv, i, j);
    }
    assert s[|s| - 1] in s;
    assert InDisc(s[|s| - 1], r) && Level(m, r, s[|s| - 1]) == top;
  }

  method SortedDisc(r: nat) returns (sorted: seq<Cell>)
    ensures ListsDisc(sorted, r) && SortedBy(Norm2, sorted)
    ensures |sorted| > 0 && sorted[0] == Cell(0, 0)
    ensures forall i :: 0 <= i < |sorted| ==> WithinSquare(sorted[i], r)
  {
    var points := DiscPoints(r);
    sorted := SortBy(Norm2, points);
    SameMembers(points, sorted, r);
    AllInBox(sorted, r);
    HoldsOrigin(sorted, r);
    OriginFirst(sorted);
  }

  // generateIntegerDistances; the original takes r = cell_inflation_radius_ + 2.
  method GenerateIntegerDistances(r: nat) returns (m: Matrix, top: nat)
    ensures Ranks(m, r, top)
  {
    var sorted := SortedDisc(r);
    ghost var lv: seq<nat>;
    m, top, lv := AssignLevels(Norm2, sorted, r);
    RankingFromLevels(sorted, r, m, top, lv);
  }

  lemma SameMembers(s: seq<Cell>, t: seq<Cell>, r: nat)
    requires ListsDisc(s, r) && multiset(s) == multiset(t)
    ensures ListsDisc(t, r)
  {
    hide InDisc;
    forall p ensures p in t <==> InDisc(p, r) {
      assert p in s <==> p in multiset(s);
      assert p in t <==> p in multiset(t);
      assert p in s <==> InDisc(p, r);
    }
  }

  lemma AllInBox(s: seq<Cell>, r: nat)
    requires ListsDisc(s, r)
    ensures forall i :: 0 <= i < |s| ==> WithinSquare(s[i], r)
  {
    hide Norm2;
    forall i | 0 <= i < |s| ensures WithinSquare(s[i], r) {
      assert s[i] in s;
    }
  }

  lemma HoldsOrigin(s: seq<Cell>, r: nat)
    requires ListsDisc(s, r)
    ensures Cell(0, 0) in s
  {
    assert InDisc(Cell(0, 0), r);
  }

  lemma OriginFirst(s: seq<Cell>)
    requires SortedBy(Norm2, s) && Cell(0, 0) in s
    ensures s[0] == Cell(0, 0)
  {
    var z :| 0 <= z < |s| && s[z] == Cell(0, 0);
    assert z > 0 ==> Norm2(s[0]) <= Norm2(s[z]);
    ZeroNorm(s[0]);
  }
}
