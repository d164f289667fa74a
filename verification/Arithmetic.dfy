/** The few products and quotients by variables that block numbering needs. */
module Arithmetic {

  lemma MulMonotone(a: int, b: int, n: int)
    requires a <= b && n >= 0
    ensures a * n <= b * n
  {
  }

  lemma MulSum(a: int, b: int, n: int)
    ensures (a + b) * n == a * n + b * n
  {
  }

  lemma MulNext(a: int, n: int)
    ensures a * (n + 1) == a * n + a
  {
  }

  lemma ProductNonNegative(a: int, b: int)
    requires a >= 0 && b >= 0
    ensures a * b >= 0
  {
  }

  lemma DivModSplit(x: int, n: int)
    requires n > 0
    ensures x == x / n * n + x % n && 0 <= x % n < n
  {
  }

  /** Quotient and remainder are the only pair that recomposes the number. */
  lemma DivModUnique(q: int, r: int, n: int)
    requires 0 <= r < n
    ensures (q * n + r) / n == q && (q * n + r) % n == r
  {
    var x := q * n + r;
    DivModSplit(x, n);
    var d := x / n;
    if d < q {
      MulMonotone(d + 1, q, n);
      MulSum(d, 1, n);
    } else if d > q {
      MulMonotone(q + 1, d, n);
      MulSum(q, 1, n);
    }
  }

  lemma QuotientBound(x: int, n: int, m: int)
    requires n > 0 && 0 <= x < n * m
    ensures 0 <= x / n < m
  {
    DivModSplit(x, n);
    if x / n >= m {
      MulMonotone(m, x / n, n);
    } else if x / n < 0 {
      MulMonotone(x / n, -1, n);
    }
  }

  /** A row-major position stays inside its grid. */
  lemma RowMajorBound(row: int, column: int, width: int, height: int)
    requires 0 <= row < height && 0 <= column < width
    ensures 0 <= row * width + column < width * height
  {
    ProductNonNegative(row, width);
    MulMonotone(row + 1, height, width);
    MulSum(row, 1, width);
  }
}
