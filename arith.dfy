/** Integer helpers shared by the convolution and deconvolution kernels:
    C++ truncating division, OpenCV's alignSize, ceiling division, and the
    division/multiplication facts the index arithmetic needs. */
module Arith {

  function Min(a: int, b: int): int { if a <= b then a else b }

  function Max(a: int, b: int): int { if a >= b then a else b }

  /** C++ `/` on int: the quotient is truncated toward zero (Dafny's `/` is Euclidean). */
  function TDiv(a: int, b: int): (q: int)
    requires b > 0
    ensures a >= 0 ==> 0 <= q * b <= a < q * b + b
    ensures a < 0 ==> q * b - b < a <= q * b <= 0
  {
    if a >= 0 then
      EuclidBounds(a, b);
      a / b
    else
      EuclidBounds(-a, b);
      -((-a) / b)
  }

  lemma EuclidBounds(x: nat, n: nat)
    requires n > 0
    ensures 0 <= (x / n) * n <= x < (x / n) * n + n
  {
    assert x == (x / n) * n + x % n;
  }

  /** `(a + b - 1) / b` for non-negative operands: the least multiple count that reaches `a`. */
  function CeilDiv(a: nat, b: nat): (q: nat)
    requires b > 0
    ensures q * b >= a
    ensures q == 0 || (q - 1) * b < a
  {
    var q := (a + b - 1) / b;
    assert q * b + (a + b - 1) % b == a + b - 1;
    q
  }

  /** OpenCV `alignSize(sz, n)`: `sz` rounded up to a multiple of `n`
      (the source writes it as `(sz + n - 1) & -n`, which is this value for
      the power-of-two `n` it is used with). */
  function AlignSize(sz: nat, n: nat): (r: nat)
    requires n > 0
    ensures r % n == 0
    ensures sz <= r < sz + n
  {
    var q := CeilDiv(sz, n);
    assert (q * n) % n == 0 by { ModOfMultiple(q, n); }
    q * n
  }

  lemma ModOfMultiple(q: nat, n: nat)
    requires n > 0
    ensures (q * n) % n == 0 && (q * n) / n == q
  {
    DivModUnique(q * n, n, q, 0);
  }

  /** Euclidean division is determined by its defining equation. */
  lemma DivModUnique(x: int, n: int, a: int, b: int)
    requires n > 0 && 0 <= b < n && x == a * n + b
    ensures x / n == a && x % n == b
  {
    var d, m := x / n, x % n;
    assert x == d * n + m;
    if a > d {
      assert a * n - d * n == (a - d) * n;
      MulAtLeast(a - d, n);
    } else if a < d {
      assert d * n - a * n == (d - a) * n;
      MulAtLeast(d - a, n);
    }
  }

  lemma MulAtLeast(k: int, n: nat)
    requires k >= 1
    ensures k * n >= n
  {
    assert k * n == (k - 1) * n + n;
    MulNonneg(k - 1, n);
  }

  lemma MulNonneg(a: nat, b: nat)
    ensures a * b >= 0
  {
  }

  lemma MulMonoLeft(a: int, b: int, n: nat)
    requires a <= b
    ensures a * n <= b * n
  {
    assert b * n - a * n == (b - a) * n;
    MulNonneg(b - a, n);
  }

  lemma MulComm(a: int, b: int)
    ensures a * b == b * a
  {
  }

  lemma MulAssoc(a: int, b: int, c: int)
    ensures a * b * c == a * (b * c)
  {
  }

  lemma MulSucc(a: int, n: int)
    ensures (a + 1) * n == a * n + n
  {
  }

  /** Row-major flattening of a 2-D index stays below the flattened extent. */
  lemma FlatBound(a: nat, rows: nat, b: nat, cols: nat)
    requires a < rows && b < cols
    ensures a * cols + b < rows * cols
  {
    MulMonoLeft(a, rows - 1, cols);
    assert (rows - 1) * cols + cols == rows * cols;
  }

  /** The row-major decomposition of a flat index. */
  lemma FlatSplit(a: nat, b: nat, cols: nat)
    requires b < cols
    ensures (a * cols + b) / cols == a && (a * cols + b) % cols == b
  {
    DivModUnique(a * cols + b, cols, a, b);
  }

  /** Dividing in two steps is dividing by the product. */
  lemma DivDiv(x: nat, a: nat, b: nat)
    requires a > 0 && b > 0
    ensures x / (a * b) == (x / a) / b
    ensures x % (a * b) == (x / a) % b * a + x % a
  {
    var q, r := x / a, x % a;
    var q2, r2 := q / b, q % b;
    assert x == q * a + r;
    assert q == q2 * b + r2;
    assert x == q2 * (a * b) + (r2 * a + r) by {
      assert q * a == (q2 * b + r2) * a == q2 * (a * b) + r2 * a;
    }
    assert r2 * a + r < a * b by {
      MulMonoLeft(r2, b - 1, a);
      assert (b - 1) * a + a == a * b;
    }
    MulNonneg(r2, a);
    DivModUnique(x, a * b, q2, r2 * a + r);
  }

  /** Stepping a flat index by one either stays in the same row or starts
      the next one. */
  lemma SuccDivMod(x: nat, n: nat)
    requires n > 0
    ensures x % n + 1 < n ==> (x + 1) / n == x / n && (x + 1) % n == x % n + 1
    ensures x % n + 1 == n ==> (x + 1) / n == x / n + 1 && (x + 1) % n == 0
  {
    if x % n + 1 < n {
      DivModUnique(x + 1, n, x / n, x % n + 1);
    } else {
      DivModUnique(x + 1, n, x / n + 1, 0);
    }
  }

  /** `x / n` is below `k` exactly when `x` is below `k * n`. */
  lemma DivLess(x: nat, n: nat, k: nat)
    requires n > 0
    ensures x / n < k <==> x < k * n
  {
    var q := x / n;
    if q < k {
      MulMonoLeft(q + 1, k, n);
      assert (q + 1) * n == q * n + n;
    } else {
      MulMonoLeft(k, q, n);
    }
  }
}
