// Cost values and the row-major layout of a costmap: getIndex and indexToCells.
module RowMajor {

  type Cost = c: int | 0 <= c <= 255

  const NO_INFORMATION: Cost := 255
  const LETHAL_OBSTACLE: Cost := 254
  const INSCRIBED_INFLATED_OBSTACLE: Cost := 253
  const FREE_SPACE: Cost := 0

  // First index of row y, reached by adding the width once per row as the row loops do.
  function RowStart(w: nat, y: nat): nat {
    if y == 0 then 0 else RowStart(w, y - 1) + w
  }

  function Index(w: nat, x: nat, y: nat): nat {
    RowStart(w, y) + x
  }

  lemma {:induction false} RowStartIsProduct(w: nat, y: nat)
    ensures RowStart(w, y) == y * w
  {
    if y > 0 {
      RowStartIsProduct(w, y - 1);
      assert (y - 1) * w + w == y * w;
    }
  }

  // Rows do not overlap.
  lemma {:induction false} RowsApart(w: nat, y: nat, y': nat)
    requires y < y'
    ensures RowStart(w, y) + w <= RowStart(w, y')
    decreases y'
  {
    if y < y' - 1 {
      RowsApart(w, y, y' - 1);
    }
  }

  lemma RowsBelow(w: nat, y: nat, h: nat)
    requires y <= h
    ensures RowStart(w, y) <= RowStart(w, h)
  {
    if y < h {
      RowsApart(w, y, h);
    }
  }

  lemma IndexInRange(w: nat, h: nat, x: nat, y: nat)
    requires x < w && y < h
    ensures Index(w, x, y) < RowStart(w, h)
  {
    RowsApart(w, y, h);
  }

  lemma IndexInjective(w: nat, x: nat, y: nat, x': nat, y': nat)
    requires x < w && x' < w && Index(w, x, y) == Index(w, x', y')
    ensures x == x' && y == y'
  {
    if y < y' {
      RowsApart(w, y, y');
    } else if y' < y {
      RowsApart(w, y', y);
    }
  }

  // indexToCells inverts getIndex.
  lemma IndexToCells(w: nat, x: nat, y: nat)
    requires x < w
    ensures Index(w, x, y) / w == y && Index(w, x, y) - (Index(w, x, y) / w) * w == x
  {
    RowStartIsProduct(w, y);
    DivideRow(w, x, y);
  }

  lemma DivideRow(w: nat, x: nat, y: nat)
    requires x < w
    ensures (y * w + x) / w == y
  {
    var q := (y * w + x) / w;
    assert q * w <= y * w + x < q * w + w;
    assert q < y ==> (q + 1) * w <= y * w;
    assert q > y ==> (y + 1) * w <= q * w;
  }
}
