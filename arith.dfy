/** Facts about row-major indexing used by the results table. */
module Arith {

  /** A positive multiple of m is at least m. */
  lemma {:induction false} MultipleAtLeast(k: int, m: int)
    requires 1 <= k && 0 < m
    ensures k * m >= m
    decreases k
  {
    if k > 1 {
      MultipleAtLeast(k - 1, m);
      assert k * m == (k - 1) * m + m;
    }
  }

  /** Index q * m + x of a table with m columns lies in row q, column x. */
  lemma DivMod(q: int, m: int, x: int)
    requires 0 < m && 0 <= q && 0 <= x < m
    ensures (q * m + x) / m == q && (q * m + x) % m == x
  {
    var a := q * m + x;
    var d, r := a / m, a % m;
    assert a == d * m + r;
    assert (q - d) * m == r - x;
    if q - d >= 1 {
      MultipleAtLeast(q - d, m);
    } else if d - q >= 1 {
      MultipleAtLeast(d - q, m);
    }
  }

  /** Cell (i, j) of an n-by-m table has a row-major index below n * m. */
  lemma CellIndex(i: int, j: int, n: int, m: int)
    requires 0 <= i < n && 0 <= j < m
    ensures 0 <= i * m + j < n * m
  {
    MultipleAtLeast(n - i, m);
    assert n * m == i * m + (n - i) * m;
    if i > 0 {
      MultipleAtLeast(i, m);
    }
  }

  /** Index k of a table with n rows of m cells lies in a row below n. */
  lemma RowOf(k: int, n: int, m: int)
    requires 0 < m && 0 <= k < n * m
    ensures 0 <= k / m < n
  {
    var d, r := k / m, k % m;
    assert k == d * m + r;
    if d >= n + 1 {
      MultipleAtLeast(d - n, m);
    } else if d == n {
    } else if d < 0 {
      MultipleAtLeast(-d, m);
    }
  }
}
