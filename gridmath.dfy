/** Integer facts about row-major layouts. The start of a row is defined by
    repeated addition, so that the loops' bookkeeping stays linear for the
    verifier; RowStartIsProduct ties it to the multiplication the source
    writes (`row * columns`). */
module GridMath {

  /** Position of the first slot of `row` in a row-major grid: row · columns. */
  function RowStart(columns: int, row: int): (r: int)
    ensures 0 <= columns ==> 0 <= r
    decreases row
  {
    if row <= 0 then 0 else RowStart(columns, row - 1) + columns
  }

  /** Slot of (row, col) in a row-major grid with the given number of columns. */
  function Slot(columns: int, row: int, col: int): int {
    RowStart(columns, row) + col
  }

  lemma {:induction false} RowStartIsProduct(columns: int, row: int)
    requires 0 <= row
    ensures RowStart(columns, row) == row * columns
  {
    if row > 0 {
      RowStartIsProduct(columns, row - 1);
    }
  }

  /** Every slot of a grid with `rows` rows lies inside it. */
  lemma {:induction false} SlotBelow(columns: int, rows: int, row: int, col: int)
    requires 0 <= row < rows && 0 <= col < columns
    ensures 0 <= Slot(columns, row, col) < RowStart(columns, rows)
  {
    if row < rows - 1 {
      SlotBelow(columns, rows - 1, row, col);
    }
  }

  lemma MulMonotone(x: int, y: int, d: int)
    requires x <= y && 0 <= d
    ensures x * d <= y * d
  {
    assert y * d - x * d == (y - x) * d;
  }

  /** Euclidean division is determined by any quotient/remainder pair with 0 <= r < d. */
  lemma DivModUnique(a: int, d: int, q: int, r: int)
    requires 0 < d && 0 <= r < d && a == q * d + r
    ensures a / d == q && a % d == r
  {
    var q', r' := a / d, a % d;
    assert a == q' * d + r';
    if q' < q {
      MulMonotone(q' + 1, q, d);
      assert false;
    } else if q < q' {
      MulMonotone(q + 1, q', d);
      assert false;
    }
  }

  /** Every k inside a grid with `rows` rows is the slot of one of its cells. */
  lemma CellOf(columns: int, rows: int, k: int)
    requires 0 < columns && 0 <= rows && 0 <= k < RowStart(columns, rows)
    ensures 0 <= k / columns < rows && 0 <= k % columns < columns
    ensures k == Slot(columns, k / columns, k % columns)
  {
    RowStartIsProduct(columns, rows);
    RowStartIsProduct(columns, k / columns);
    if k / columns >= rows {
      MulMonotone(rows, k / columns, columns);
      assert false;
    }
  }

  /** Position k of a six-per-cell index list over a grid with n rows of n cells falls in
      cell ((k / 6) / n, (k / 6) mod n), at offset k mod 6. */
  lemma CellOfIndex(n: int, k: int)
    requires 0 < n && 0 <= k < 6 * RowStart(n, n)
    ensures 0 <= (k / 6) / n < n && 0 <= (k / 6) % n < n
    ensures k == 6 * Slot(n, (k / 6) / n, (k / 6) % n) + k % 6
  {
    CellOf(n, n, k / 6);
  }
}
