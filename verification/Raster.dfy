// Bresenham lines: raytraceLine (on offsets into the map) and LineIterator (on cells)
// trace the same cells, from end to end, without gaps, inside the box of the ends.
module Raster {
  import opened Lattice
  import opened RowMajor

  // The error accumulator after i steps of the major axis: minor steps taken, error left.
  datatype Acc = Acc(minor: nat, error: nat)

  function Accumulate(den: nat, add: nat, i: nat): Acc {
    if i == 0 then Acc(0, den / 2)
    else
      var a := Accumulate(den, add, i - 1);
      if a.error + add >= den then Acc(a.minor + 1, a.error + add - den) else Acc(a.minor, a.error + add)
  }

  // What has been added is in the error or has become minor steps.
  lemma {:induction false} ErrorBalance(den: nat, add: nat, i: nat)
    requires add <= den && den > 0
    ensures Accumulate(den, add, i).error < den
    ensures Accumulate(den, add, i).minor * den + Accumulate(den, add, i).error == den / 2 + i * add
  {
    if i > 0 {
      ErrorBalance(den, add, i - 1);
      ProductNext(Accumulate(den, add, i - 1).minor, den);
      ProductNext(i - 1, add);
    }
  }

  lemma ProductNext(a: nat, b: nat)
    ensures (a + 1) * b == a * b + b
  {
  }

  // After all major steps the minor axis has arrived as well.
  lemma MinorArrives(den: nat, add: nat)
    requires add <= den
    ensures Accumulate(den, add, den).minor == add
  {
    if den > 0 {
      ErrorBalance(den, add, den);
      SameQuotient(Accumulate(den, add, den).minor, add, den, Accumulate(den, add, den).error, den / 2);
    }
  }

  lemma SameQuotient(p: nat, q: nat, den: nat, e: nat, f: nat)
    requires e < den && f < den && p * den + e == q * den + f
    ensures p == q
  {
    ProductNext(p, den);
    ProductNext(q, den);
    assert p < q ==> (p + 1) * den <= q * den;
    assert q < p ==> (q + 1) * den <= p * den;
  }

  lemma {:induction false} MinorMonotone(den: nat, add: nat, i: nat, j: nat)
    requires i <= j
    ensures Accumulate(den, add, i).minor <= Accumulate(den, add, j).minor
    decreases j
  {
    if i < j {
      MinorMonotone(den, add, i, j - 1);
    }
  }

  function Sign(n: int): int {
    if n > 0 then 1 else -1
  }

  function Major(a: Cell, b: Cell): nat {
    if Abs(b.x - a.x) >= Abs(b.y - a.y) then Abs(b.x - a.x) else Abs(b.y - a.y)
  }

  function Minor(a: Cell, b: Cell): nat {
    if Abs(b.x - a.x) >= Abs(b.y - a.y) then Abs(b.y - a.y) else Abs(b.x - a.x)
  }

  function Along(from: int, to: int, steps: nat): int {
    if to > from then from + steps else from - steps
  }

  // The i-th cell of the line from a to b.
  function Point(a: Cell, b: Cell, i: nat): Cell {
    var k := Accumulate(Major(a, b), Minor(a, b), i).minor;
    if Abs(b.x - a.x) >= Abs(b.y - a.y)
    then Cell(Along(a.x, b.x, i), Along(a.y, b.y, k))
    else Cell(Along(a.x, b.x, k), Along(a.y, b.y, i))
  }

  function Line(a: Cell, b: Cell): (r: seq<Cell>)
    ensures |r| == Major(a, b) + 1
    ensures forall i :: 0 <= i < |r| ==> r[i] == Point(a, b, i)
  {
    seq(Major(a, b) + 1, i requires i >= 0 => Point(a, b, i))
  }

  predicate Between(lo: int, hi: int, n: int) {
    (lo <= n <= hi) || (hi <= n <= lo)
  }

  predicate WithinEnds(a: Cell, b: Cell, c: Cell) {
    Between(a.x, b.x, c.x) && Between(a.y, b.y, c.y)
  }

  // No coordinate changes by more than one.
  predicate Touching(c: Cell, d: Cell) {
    Abs(c.x - d.x) <= 1 && Abs(c.y - d.y) <= 1
  }

  lemma LineEnds(a: Cell, b: Cell)
    ensures Line(a, b)[0] == a && Line(a, b)[Major(a, b)] == b
  {
    MinorArrives(Major(a, b), Minor(a, b));
  }

  lemma LineInBox(a: Cell, b: Cell, i: nat)
    requires i <= Major(a, b)
    ensures WithinEnds(a, b, Line(a, b)[i])
  {
    hide Accumulate;
    MinorArrives(Major(a, b), Minor(a, b));
    MinorMonotone(Major(a, b), Minor(a, b), i, Major(a, b));
  }

  // Every cell of the line is the nearest one to the ideal line at its step: after i of Major
  // steps the minor axis has moved i * Minor / Major, rounded to a nearest integer.
  lemma LineIsClosest(a: Cell, b: Cell, i: nat)
    requires i <= Major(a, b)
    ensures var c := Line(a, b)[i];
      var k := if Abs(b.x - a.x) >= Abs(b.y - a.y) then Abs(c.y - a.y) else Abs(c.x - a.x);
      && Abs(c.x - a.x) + Abs(c.y - a.y) == i + k
      && -(Major(a, b) as int) <= 2 * (k * Major(a, b) - i * Minor(a, b)) <= Major(a, b)
  {
    hide Accumulate;
    var den, add := Major(a, b), Minor(a, b);
    if den > 0 {
      ErrorBalance(den, add, i);
    } else {
      LineEnds(a, b);
    }
  }

  lemma LineTouching(a: Cell, b: Cell, i: nat)
    requires i < Major(a, b)
    ensures Touching(Line(a, b)[i], Line(a, b)[i + 1])
  {
    hide Major, Minor;
    var acc := Accumulate(Major(a, b), Minor(a, b), i);
    var acc' := Accumulate(Major(a, b), Minor(a, b), i + 1);
    assert acc.minor <= acc'.minor <= acc.minor + 1;
  }

  // ---------- raytraceLine ----------

  // bresenham2D: the offsets it visits, given steps along the two axes.
  function OffsetAt(den: nat, add: nat, major: int, minor: int, start: int, i: nat): int {
    if i == 0 then start
    else OffsetAt(den, add, major, minor, start, i - 1) + major
         + (if Accumulate(den, add, i - 1).error + add >= den then minor else 0)
  }

  lemma AccumulateStep(den: nat, add: nat, i: nat)
    ensures Accumulate(den, add, i + 1).error ==
      Accumulate(den, add, i).error + add - (if Accumulate(den, add, i).error + add >= den then den else 0)
  {
  }

  lemma OffsetStep(den: nat, add: nat, major: int, minor: int, start: int, i: nat)
    ensures OffsetAt(den, add, major, minor, start, i + 1) == OffsetAt(den, add, major, minor, start, i) + major
      + (if Accumulate(den, add, i).error + add >= den then minor else 0)
  {
    hide Accumulate;
  }

  lemma OffsetStart(den: nat, add: nat, major: int, minor: int, start: int)
    ensures OffsetAt(den, add, major, minor, start, 0) == start && Accumulate(den, add, 0).error == den / 2
  {
  }

  // The first maxLength steps, or all of them if there are fewer, and the cell then reached.
  method Bresenham2D(absDa: nat, absDb: nat, errorB: nat, offsetA: int, offsetB: int, start: int, maxLength: nat)
    returns (visited: seq<int>)
    requires errorB == absDa / 2
    ensures |visited| == (if maxLength < absDa then maxLength else absDa) + 1
    ensures forall i :: 0 <= i < |visited| ==> visited[i] == OffsetAt(absDa, absDb, offsetA, offsetB, start, i)
  {
    hide Accumulate, OffsetAt;
    var end := if maxLength < absDa then maxLength else absDa;
    var offset, error := start, errorB;
    visited := [];
    OffsetStart(absDa, absDb, offsetA, offsetB, start);
    for i := 0 to end
      invariant |visited| == i && error == Accumulate(absDa, absDb, i).error
      invariant offset == OffsetAt(absDa, absDb, offsetA, offsetB, start, i)
      invariant forall j :: 0 <= j < i ==> visited[j] == OffsetAt(absDa, absDb, offsetA, offsetB, start, j)
    {
      AccumulateStep(absDa, absDb, i);
      OffsetStep(absDa, absDb, offsetA, offsetB, start, i);
      visited := visited + [offset];
      offset := offset + offsetA;
      error := error + absDb;
      if error >= absDa {
        offset := offset + offsetB;
        error := error - absDa;
      }
    }
    visited := visited + [offset];
  }

  lemma IndexStepY(w: nat, x: nat, y: nat)
    ensures Index(w, x, y + 1) == Index(w, x, y) + w
  {
  }

  // The visited offsets are the indices of the cells of the line.
  lemma {:induction false} OffsetIsIndex(w: nat, a: Cell, b: Cell, i: nat)
    requires 0 <= a.x < w && 0 <= b.x < w && 0 <= a.y && 0 <= b.y && i <= Major(a, b)
    ensures WithinEnds(a, b, Line(a, b)[i])
    ensures var c := Line(a, b)[i];
      var sx, sy := Sign(b.x - a.x), if Sign(b.y - a.y) > 0 then w else -(w as int);
      Index(w, c.x, c.y) ==
        if Abs(b.x - a.x) >= Abs(b.y - a.y)
        then OffsetAt(Major(a, b), Minor(a, b), sx, sy, Index(w, a.x, a.y), i)
        else OffsetAt(Major(a, b), Minor(a, b), sy, sx, Index(w, a.x, a.y), i)
  {
    hide RowStart;
    LineInBox(a, b, i);
    if i > 0 {
      OffsetIsIndex(w, a, b, i - 1);
      LineInBox(a, b, i - 1);
      var c, d := Line(a, b)[i - 1], Line(a, b)[i];
      if d.y == c.y + 1 {
        IndexStepY(w, c.x, c.y);
      } else if d.y == c.y - 1 {
        IndexStepY(w, d.x, d.y);
      }
    } else {
      LineEnds(a, b);
    }
  }

  predicate IsOffset(w: nat, c: Cell, offset: int) {
    0 <= c.x < w && 0 <= c.y && offset == Index(w, c.x, c.y)
  }

  // raytraceLine with min_length 0. limit is max_length in steps of the dominant axis,
  // scale * abs_dx or scale * abs_dy; without a limit the scale is 1 and limit is Major(a, b).
  method RaytraceLine(a: Cell, b: Cell, stepX: nat, limit: nat) returns (visited: seq<int>)
    requires 0 <= a.x < stepX && 0 <= b.x < stepX && 0 <= a.y && 0 <= b.y
    ensures |visited| == if limit < Major(a, b) then limit + 1 else |Line(a, b)|
    ensures forall i :: 0 <= i < |visited| ==> IsOffset(stepX, Line(a, b)[i], visited[i])
  {
    hide Line, Accumulate, OffsetAt, RowStart;
    var offset := Index(stepX, a.x, a.y);
    var dx, dy := b.x - a.x, b.y - a.y;
    var absDx, absDy := Abs(dx), Abs(dy);
    var offsetDx, offsetDy := Sign(dx), if Sign(dy) > 0 then stepX else -(stepX as int);
    if absDx >= absDy {
      visited := Bresenham2D(absDx, absDy, absDx / 2, offsetDx, offsetDy, offset, limit);
    } else {
      visited := Bresenham2D(absDy, absDx, absDy / 2, offsetDy, offsetDx, offset, limit);
    }
    forall i | 0 <= i < |visited|
      ensures IsOffset(stepX, Line(a, b)[i], visited[i])
    {
      OffsetIsIndex(stepX, a, b, i);
    }
  }

  // ---------- LineIterator ----------

  // From one cell of the line to the next.
  lemma PointStep(a: Cell, b: Cell, i: nat)
    requires i < Major(a, b)
    ensures
      var step := if Accumulate(Major(a, b), Minor(a, b), i).error + Minor(a, b) >= Major(a, b) then 1 else 0;
      var sx, sy := if b.x >= a.x then 1 else -1, if b.y >= a.y then 1 else -1;
      var c := Point(a, b, i);
      Point(a, b, i + 1) ==
        if Abs(b.x - a.x) >= Abs(b.y - a.y)
        then Cell(c.x + sx, if step == 1 then c.y + sy else c.y)
        else Cell(if step == 1 then c.x + sx else c.x, c.y + sy)
  {
    ErrorBalance(Major(a, b), Minor(a, b), i);
  }

  class LineIterator {
    const start: Cell
    const end: Cell
    var x: int
    var y: int
    var curpixel: nat
    const xinc1: int
    const xinc2: int
    const yinc1: int
    const yinc2: int
    const den: nat
    var num: nat
    const numadd: nat
    const numpixels: nat

    ghost predicate Constants() {
      && numpixels == den == Major(start, end) && numadd == Minor(start, end)
      && xinc1 + xinc2 == (if end.x >= start.x then 1 else -1)
      && yinc1 + yinc2 == (if end.y >= start.y then 1 else -1)
      && (if Abs(end.x - start.x) >= Abs(end.y - start.y) then xinc1 == 0 && yinc2 == 0 else xinc2 == 0 && yinc1 == 0)
    }

    // The iterator stands on cell number curpixel of the line.
    ghost predicate Valid()
      reads this
    {
      && Constants()
      && curpixel <= numpixels + 1
      && num == Accumulate(den, numadd, curpixel).error
      && (curpixel <= numpixels ==> Cell(x, y) == Line(start, end)[curpixel])
    }

    constructor (a: Cell, b: Cell)
      ensures Valid() && start == a && end == b && curpixel == 0
    {
      start, end, x, y, curpixel := a, b, a.x, a.y, 0;
      var deltax, deltay := Abs(b.x - a.x), Abs(b.y - a.y);
      var xinc := if b.x >= a.x then 1 else -1;
      var yinc := if b.y >= a.y then 1 else -1;
      if deltax >= deltay {
        xinc1, xinc2, yinc1, yinc2 := 0, xinc, yinc, 0;
        den, num, numadd, numpixels := deltax, deltax / 2, deltay, deltax;
      } else {
        xinc1, xinc2, yinc1, yinc2 := xinc, 0, 0, yinc;
        den, num, numadd, numpixels := deltay, deltay / 2, deltax, deltay;
      }
    }

    predicate IsValid()
      reads this
    {
      curpixel <= numpixels
    }

    method Advance()
      requires Valid() && IsValid()
      modifies this
      ensures Valid() && curpixel == old(curpixel) + 1
    {
      hide Point, Major, Minor;
      if curpixel < den {
        PointStep(start, end, curpixel);
      }
      num := num + numadd;
      if num >= den {
        num := num - den;
        x := x + xinc1;
        y := y + yinc1;
      }
      x := x + xinc2;
      y := y + yinc2;
      curpixel := curpixel + 1;
    }
  }
}
