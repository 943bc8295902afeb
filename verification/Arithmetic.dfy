/** The few facts about products and remainders that the solver does not find alone. */
module Arithmetic {

  lemma Scale(x: nat, y: nat, k: nat)
    requires x <= y
    ensures x * k <= y * k
  {
  }

  /** Quotient and remainder are unique. */
  lemma Unique(m: nat, q: nat, r: nat, q': nat, r': nat)
    requires r < m && r' < m && q * m + r == q' * m + r'
    ensures q == q' && r == r'
  {
    assert (q + 1) * m == q * m + m && (q' + 1) * m == q' * m + m;
    if q < q' {
      Scale(q + 1, q', m);
    } else if q' < q {
      Scale(q' + 1, q, m);
    }
  }

  lemma RemainderIs(q: nat, m: nat, r: nat)
    requires r < m
    ensures (q * m + r) % m == r
  {
    var x := q * m + r;
    assert x == (x / m) * m + x % m;
    Unique(m, q, r, x / m, x % m);
  }

  lemma ModuloStep(k: nat, m: nat)
    requires m > 0
    ensures (k + 1) % m == if k % m == m - 1 then 0 else k % m + 1
    ensures 0 % m == 0
  {
    var q, r := k / m, k % m;
    assert k == q * m + r;
    RemainderIs(0, m, 0);
    if r == m - 1 {
      assert (q + 1) * m == q * m + m;
      RemainderIs(q + 1, m, 0);
    } else {
      RemainderIs(q, m, r + 1);
    }
  }

  /** Adding a multiple of 16 changes no remainder. */
  lemma AlignedSum(x: nat, y: nat)
    requires x % 16 == 0
    ensures (x + y) % 16 == y % 16
  {
    assert x == x / 16 * 16 && y == y / 16 * 16 + y % 16;
    RemainderIs(x / 16 + y / 16, 16, y % 16);
  }

  /** The position of (i, j) in row-major order. */
  lemma RowMajorBelow(i: nat, rows: nat, j: nat, columns: nat)
    requires i < rows && j < columns
    ensures i * columns + j < rows * columns
  {
    assert (i + 1) * columns == i * columns + columns;
    Scale(i + 1, rows, columns);
  }
}
