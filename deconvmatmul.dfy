/** `DeConvolutionLayerImpl::MatMulInvoker` (lines 1043-1149), scalar path:
    one invocation computes the columns `[range.start*stripeSize,
    min(range.end*stripeSize, b.cols))` of `C = A*B`, two rows of `C` at a
    time and four entries of `k` at a time. */
module DeconvMatMul {
  import opened Arith
  import opened ConvKernel

  /** A row-major matrix inside a flat buffer: `rows x cols` entries from
      `base`, consecutive rows `step` apart (the header of a `Mat`, possibly
      a row or column range of a larger one). */
  datatype View = View(base: nat, rows: nat, cols: nat, step: nat)
  {
    /** The last entry lies inside a buffer of length `len`. */
    predicate Fits(len: nat)
    {
      cols <= step && (rows == 0 || base + (rows - 1) * step + cols <= len)
    }

    function Idx(r: nat, c: nat): nat
    {
      base + r * step + c
    }
  }

  lemma IdxBound(v: View, len: nat, r: nat, c: nat)
    requires v.Fits(len) && r < v.rows && c < v.cols
    ensures v.Idx(r, c) < len
  {
    MulMonoLeft(r, v.rows - 1, v.step);
  }

  /** Entry `(r, c)` of the matrix `v` over `s`. */
  function Get(v: View, s: seq<int>, r: nat, c: nat): int
    requires v.Fits(|s|) && r < v.rows && c < v.cols
  {
    IdxBound(v, |s|, r, c);
    s[v.Idx(r, c)]
  }

  /** `sum_{k < n} A[m][k] * B[k][j]`. */
  function Prod(av: View, a: seq<int>, bv: View, b: seq<int>, m: nat, j: nat, n: nat): int
    requires av.Fits(|a|) && bv.Fits(|b|) && m < av.rows && j < bv.cols && n <= av.cols && n <= bv.rows
  {
    if n == 0 then 0 else Prod(av, a, bv, b, m, j, n - 1) + Get(av, a, m, n - 1) * Get(bv, b, n - 1, j)
  }

  /** `A` is `mmax x kmax`, `B` is `kmax x bcols` and `C` is `mmax x bcols`,
      each inside its buffer. */
  predicate Operands(av: View, a: seq<int>, bv: View, b: seq<int>, cv: View, clen: nat)
  {
    av.Fits(|a|) && bv.Fits(|b|) && cv.Fits(clen) && cv.step >= 1 &&
    bv.rows == av.cols && cv.rows == av.rows && cv.cols == bv.cols
  }

  // ------------------------------------------------------------ one row pair

  /** Four coefficients `alpha0..alpha3` of one row and the four `B` rows
      `bptr0..bptr3` they multiply. */
  datatype Quad = Quad(x0: int, x1: int, x2: int, x3: int)
  datatype Rows4 = Rows4(p0: nat, p1: nat, p2: nat, p3: nat)

  predicate InB(b: seq<int>, bp: Rows4, n: nat)
  {
    bp.p0 + n <= |b| && bp.p1 + n <= |b| && bp.p2 + n <= |b| && bp.p3 + n <= |b|
  }

  /** `alpha0*b0 + alpha1*b1 + alpha2*b2 + alpha3*b3` at column `n` of the stripe. */
  function Term(al: Quad, b: seq<int>, bp: Rows4, n: nat): int
    requires InB(b, bp, n + 1)
  {
    al.x0 * b[bp.p0 + n] + al.x1 * b[bp.p1 + n] + al.x2 * b[bp.p2 + n] + al.x3 * b[bp.p3 + n]
  }

  /** Cells `[i, i + n)` of `a` are those of `o` plus their term. */
  predicate Accum(a: seq<int>, o: seq<int>, i: nat, n: nat, al: Quad, b: seq<int>, bp: Rows4)
  {
    InB(b, bp, n) &&
    forall x :: i <= x < i + n ==> x < |a| && x < |o| && a[x] == o[x] + Term(al, b, bp, x - i)
  }

  predicate Zeroed(a: seq<int>, i: nat, n: nat)
  {
    forall x :: i <= x < i + n ==> x < |a| && a[x] == 0
  }

  /** Lines 1069-1073: clear the stripe of rows `dst0` and `dst1`. */
  method ZeroPair(c: array<int>, i0: nat, i1: nat, nmax: nat)
    requires i0 + nmax <= c.Length && i1 + nmax <= c.Length
    requires i0 == i1 || i0 + nmax <= i1 || i1 + nmax <= i0
    modifies c
    ensures Zeroed(c[..], i0, nmax) && Zeroed(c[..], i1, nmax)
    ensures Untouched(c[..], old(c[..]), i0, i1, nmax)
  {
    ghost var o := c[..];
    var n := 0;
    while n < nmax
      invariant n <= nmax
      invariant Zeroed(c[..], i0, n) && Zeroed(c[..], i1, n)
      invariant Untouched(c[..], o, i0, i1, n)
    {
      ghost var before := c[..];
      c[i0 + n] := 0;
      c[i1 + n] := 0;
      assert c[..] == before[i0 + n := 0][i1 + n := 0];
      n := n + 1;
    }
  }

  /** One column of the accumulation loop: storing `d0` then `d1`. */
  lemma AccumStep(a: seq<int>, o: seq<int>, b: seq<int>, bp: Rows4, al0: Quad, al1: Quad,
                  i0: nat, i1: nat, nmax: nat, n: nat, d0: int, d1: int)
    requires n < nmax && InB(b, bp, nmax) && i0 + nmax <= |a| && i1 + nmax <= |a|
    requires i0 == i1 || i0 + nmax <= i1 || i1 + nmax <= i0
    requires i0 == i1 ==> al0 == al1
    requires Accum(a, o, i0, n, al0, b, bp) && Accum(a, o, i1, n, al1, b, bp)
    requires Untouched(a, o, i0, i1, n)
    requires d0 == a[i0 + n] + Term(al0, b, bp, n) && d1 == a[i1 + n] + Term(al1, b, bp, n)
    ensures var a' := a[i0 + n := d0][i1 + n := d1];
      Accum(a', o, i0, n + 1, al0, b, bp) && Accum(a', o, i1, n + 1, al1, b, bp) &&
      Untouched(a', o, i0, i1, n + 1)
  {
  }

  /** Lines 1139-1147: add the four coefficients' contribution to every
      column of the stripe of both rows. When the rows are one (odd `mmax`)
      both reads see the old value and both writes store the same sum. */
  method AccumPair(b: seq<int>, bp: Rows4, al0: Quad, al1: Quad, c: array<int>, i0: nat, i1: nat, nmax: nat)
    requires InB(b, bp, nmax) && i0 + nmax <= c.Length && i1 + nmax <= c.Length
    requires i0 == i1 || i0 + nmax <= i1 || i1 + nmax <= i0
    requires i0 == i1 ==> al0 == al1
    modifies c
    ensures Accum(c[..], old(c[..]), i0, nmax, al0, b, bp)
    ensures Accum(c[..], old(c[..]), i1, nmax, al1, b, bp)
    ensures Untouched(c[..], old(c[..]), i0, i1, nmax)
  {
    ghost var o := c[..];
    var n := 0;
    while n < nmax
      invariant n <= nmax
      invariant Accum(c[..], o, i0, n, al0, b, bp) && Accum(c[..], o, i1, n, al1, b, bp)
      invariant Untouched(c[..], o, i0, i1, n)
    {
      var b0, b1, b2, b3 := b[bp.p0 + n], b[bp.p1 + n], b[bp.p2 + n], b[bp.p3 + n];
      var d0 := c[i0 + n] + al0.x0 * b0 + al0.x1 * b1 + al0.x2 * b2 + al0.x3 * b3;
      var d1 := c[i1 + n] + al1.x0 * b0 + al1.x1 * b1 + al1.x2 * b2 + al1.x3 * b3;
      AccumStep(c[..], o, b, bp, al0, al1, i0, i1, nmax, n, d0, d1);
      ghost var before := c[..];
      c[i0 + n] := d0;
      c[i1 + n] := d1;
      assert c[..] == before[i0 + n := d0][i1 + n := d1];
      n := n + 1;
    }
  }

  /** The coefficients of row `m` for `k .. k + 3`, zero past `kmax`. */
  function Alphas(av: View, a: seq<int>, m: nat, k: nat): Quad
    requires av.Fits(|a|) && m < av.rows && k < av.cols
  {
    Quad(Get(av, a, m, k),
         if k + 1 < av.cols then Get(av, a, m, k + 1) else 0,
         if k + 2 < av.cols then Get(av, a, m, k + 2) else 0,
         if k + 3 < av.cols then Get(av, a, m, k + 3) else 0)
  }

  /** The `B` row a coefficient `t` multiplies: row `k + t`, or row `k`
      (`bptr0`) when `k + t` is past `kmax` (its coefficient is then 0). */
  function BRow(kmax: nat, k: nat, t: nat): nat
  {
    if k + t < kmax then k + t else k
  }

  /** The `B` rows of the four coefficients, addressed from column `lo`. */
  function BRows(bv: View, k: nat, lo: nat): Rows4
    requires k < bv.rows
  {
    Rows4(bv.Idx(k, lo), bv.Idx(BRow(bv.rows, k, 1), lo),
          bv.Idx(BRow(bv.rows, k, 2), lo), bv.Idx(BRow(bv.rows, k, 3), lo))
  }

  /** `n` entries of row `r` from column `lo` lie inside the buffer. */
  lemma RowSliceFits(v: View, len: nat, r: nat, lo: nat, n: nat)
    requires v.Fits(len) && r < v.rows && lo + n <= v.cols
    ensures v.Idx(r, lo) + n <= len
  {
    if n > 0 {
      IdxBound(v, len, r, lo + n - 1);
    }
  }

  lemma BRowsFit(bv: View, b: seq<int>, k: nat, lo: nat, n: nat)
    requires bv.Fits(|b|) && k < bv.rows && lo + n <= bv.cols
    ensures InB(b, BRows(bv, k, lo), n)
  {
    RowSliceFits(bv, |b|, k, lo, n);
    RowSliceFits(bv, |b|, BRow(bv.rows, k, 1), lo, n);
    RowSliceFits(bv, |b|, BRow(bv.rows, k, 2), lo, n);
    RowSliceFits(bv, |b|, BRow(bv.rows, k, 3), lo, n);
  }

  /** Column `j` of `B` row `r`, addressed from the stripe start `lo`. */
  lemma BEntry(bv: View, b: seq<int>, r: nat, lo: nat, j: nat)
    requires bv.Fits(|b|) && r < bv.rows && lo <= j < bv.cols
    ensures bv.Idx(r, lo) + (j - lo) == bv.Idx(r, j) < |b|
    ensures Get(bv, b, r, j) == b[bv.Idx(r, lo) + (j - lo)]
  {
    IdxBound(bv, |b|, r, j);
  }

  /** One pass of the `k` loop adds exactly the products for `k .. min(k + 4, kmax)`:
      the zero coefficients of the tail add nothing. */
  lemma QuadStep(av: View, a: seq<int>, bv: View, b: seq<int>, m: nat, j: nat, k: nat, lo: nat)
    requires av.Fits(|a|) && bv.Fits(|b|) && bv.rows == av.cols
    requires m < av.rows && k < av.cols && lo <= j < bv.cols
    ensures InB(b, BRows(bv, k, lo), j - lo + 1)
    ensures Prod(av, a, bv, b, m, j, Min(k + 4, av.cols)) ==
      Prod(av, a, bv, b, m, j, k) + Term(Alphas(av, a, m, k), b, BRows(bv, k, lo), j - lo)
  {
    TermValue(av, a, bv, b, m, j, k, lo);
    ProdQuad(av, a, bv, b, m, j, k);
  }

  /** `A[m][k'] * B[k'][j]`, or 0 past the last row of `B`. */
  function Contribution(av: View, a: seq<int>, bv: View, b: seq<int>, m: nat, j: nat, k': nat): int
    requires av.Fits(|a|) && bv.Fits(|b|) && bv.rows == av.cols && m < av.rows && j < bv.cols
  {
    if k' < av.cols then Get(av, a, m, k') * Get(bv, b, k', j) else 0
  }

  /** The four-coefficient term at column `j` is the four contributions of rows `k .. k + 3`. */
  lemma TermValue(av: View, a: seq<int>, bv: View, b: seq<int>, m: nat, j: nat, k: nat, lo: nat)
    requires av.Fits(|a|) && bv.Fits(|b|) && bv.rows == av.cols
    requires m < av.rows && k < av.cols && lo <= j < bv.cols
    ensures InB(b, BRows(bv, k, lo), j - lo + 1)
    ensures Term(Alphas(av, a, m, k), b, BRows(bv, k, lo), j - lo) ==
      Contribution(av, a, bv, b, m, j, k) + Contribution(av, a, bv, b, m, j, k + 1) +
      Contribution(av, a, bv, b, m, j, k + 2) + Contribution(av, a, bv, b, m, j, k + 3)
  {
    BRowsFit(bv, b, k, lo, j - lo + 1);
    BEntry(bv, b, k, lo, j);
    if k + 1 < av.cols { BEntry(bv, b, k + 1, lo, j); }
    if k + 2 < av.cols { BEntry(bv, b, k + 2, lo, j); }
    if k + 3 < av.cols { BEntry(bv, b, k + 3, lo, j); }
  }

  /** Four more rows of the product sum are their four contributions. */
  lemma ProdQuad(av: View, a: seq<int>, bv: View, b: seq<int>, m: nat, j: nat, k: nat)
    requires av.Fits(|a|) && bv.Fits(|b|) && bv.rows == av.cols
    requires m < av.rows && k < av.cols && j < bv.cols
    ensures Prod(av, a, bv, b, m, j, Min(k + 4, av.cols)) ==
      Prod(av, a, bv, b, m, j, k) +
      Contribution(av, a, bv, b, m, j, k) + Contribution(av, a, bv, b, m, j, k + 1) +
      Contribution(av, a, bv, b, m, j, k + 2) + Contribution(av, a, bv, b, m, j, k + 3)
  {
    var kmax := av.cols;
    assert Prod(av, a, bv, b, m, j, k + 1) == Prod(av, a, bv, b, m, j, k) + Contribution(av, a, bv, b, m, j, k);
    if k + 1 < kmax {
      assert Prod(av, a, bv, b, m, j, k + 2) ==
        Prod(av, a, bv, b, m, j, k + 1) + Contribution(av, a, bv, b, m, j, k + 1);
      if k + 2 < kmax {
        assert Prod(av, a, bv, b, m, j, k + 3) ==
          Prod(av, a, bv, b, m, j, k + 2) + Contribution(av, a, bv, b, m, j, k + 2);
        if k + 3 < kmax {
          assert Prod(av, a, bv, b, m, j, k + 4) ==
            Prod(av, a, bv, b, m, j, k + 3) + Contribution(av, a, bv, b, m, j, k + 3);
        }
      }
    }
  }


  /** Row `m` over the stripe columns `[lo, lo + n)` holds the first `k` products. */
  predicate RowProd(cv: View, s: seq<int>, av: View, a: seq<int>, bv: View, b: seq<int>,
                    m: nat, lo: nat, n: nat, k: nat)
  {
    av.Fits(|a|) && bv.Fits(|b|) && cv.Fits(|s|) && m < cv.rows && m < av.rows &&
    lo + n <= cv.cols && lo + n <= bv.cols && k <= av.cols && k <= bv.rows &&
    forall j :: lo <= j < lo + n ==> Get(cv, s, m, j) == Prod(av, a, bv, b, m, j, k)
  }

  lemma ZeroToProd(cv: View, s: seq<int>, av: View, a: seq<int>, bv: View, b: seq<int>,
                   m: nat, lo: nat, n: nat)
    requires av.Fits(|a|) && bv.Fits(|b|) && cv.Fits(|s|) && m < cv.rows && m < av.rows
    requires lo + n <= cv.cols && lo + n <= bv.cols
    requires Zeroed(s, cv.Idx(m, lo), n)
    ensures RowProd(cv, s, av, a, bv, b, m, lo, n, 0)
  {
    forall j | lo <= j < lo + n
      ensures Get(cv, s, m, j) == 0
    {
      assert cv.Idx(m, j) == cv.Idx(m, lo) + (j - lo);
    }
  }

  lemma AccumToProd(cv: View, s: seq<int>, o: seq<int>, av: View, a: seq<int>, bv: View, b: seq<int>,
                    m: nat, lo: nat, n: nat, k: nat)
    requires bv.rows == av.cols && k < av.cols && |s| == |o|
    requires RowProd(cv, o, av, a, bv, b, m, lo, n, k)
    requires Accum(s, o, cv.Idx(m, lo), n, Alphas(av, a, m, k), b, BRows(bv, k, lo))
    ensures RowProd(cv, s, av, a, bv, b, m, lo, n, Min(k + 4, av.cols))
  {
    forall j | lo <= j < lo + n
      ensures Get(cv, s, m, j) == Prod(av, a, bv, b, m, j, Min(k + 4, av.cols))
    {
      QuadStep(av, a, bv, b, m, j, k, lo);
      assert cv.Idx(m, j) == cv.Idx(m, lo) + (j - lo);
    }
  }

  /** The stripes of rows `m` and `m1 = min(m + 1, mmax - 1)` fit in `C` and
      are one row (`m1 == m`) or do not overlap. */
  lemma PairFits(cv: View, clen: nat, m: nat, m1: nat, lo: nat, n: nat)
    requires cv.Fits(clen) && m < cv.rows && m1 < cv.rows && lo + n <= cv.cols
    requires m1 == m || m1 == m + 1
    ensures cv.Idx(m, lo) + n <= clen && cv.Idx(m1, lo) + n <= clen
    ensures m1 == m + 1 ==> cv.Idx(m, lo) + n <= cv.Idx(m1, lo)
  {
    if n > 0 {
      IdxBound(cv, clen, m, lo + n - 1);
      IdxBound(cv, clen, m1, lo + n - 1);
    }
    MulSucc(m, cv.step);
  }

  /** Lines 1077-1097 for one row: `alpha0` always, `alpha1..3` only while
      `k + t < kmax`, zero otherwise. */
  method RowCoefficients(av: View, a: seq<int>, m: nat, k: nat) returns (al: Quad)
    requires av.Fits(|a|) && m < av.rows && k < av.cols
    ensures al == Alphas(av, a, m, k)
  {
    var kmax := av.cols;
    var aptr := av.Idx(m, 0);
    IdxBound(av, |a|, m, k);
    var alpha0, alpha1, alpha2, alpha3 := a[aptr + k], 0, 0, 0;
    if k + 1 < kmax {
      IdxBound(av, |a|, m, k + 1);
      alpha1 := a[aptr + k + 1];
      if k + 2 < kmax {
        IdxBound(av, |a|, m, k + 2);
        alpha2 := a[aptr + k + 2];
        if k + 3 < kmax {
          IdxBound(av, |a|, m, k + 3);
          alpha3 := a[aptr + k + 3];
        }
      }
    }
    al := Quad(alpha0, alpha1, alpha2, alpha3);
  }

  /** Lines 1083-1097: `bptr0 = bptr + k*bstep`, and each further row start one
      row on while `k + t < kmax`, else the same as the previous one. */
  method BRowStarts(bv: View, k: nat, lo: nat) returns (bp: Rows4)
    requires k < bv.rows
    ensures bp == BRows(bv, k, lo)
  {
    var kmax := bv.rows;
    var bptr0 := bv.base + lo + k * bv.step;
    var bptr1, bptr2, bptr3 := bptr0, bptr0, bptr0;
    if k + 1 < kmax {
      bptr1 := bptr0 + bv.step;
      if k + 2 < kmax {
        bptr2 := bptr1 + bv.step;
        if k + 3 < kmax {
          bptr3 := bptr2 + bv.step;
        }
      }
    }
    MulSucc(k, bv.step);
    MulSucc(k + 1, bv.step);
    MulSucc(k + 2, bv.step);
    bp := Rows4(bptr0, bptr1, bptr2, bptr3);
  }

  /** The row pair's destinations, coefficients and `B` rows meet what `AccumPair` needs. */
  lemma PairOperands(av: View, a: seq<int>, bv: View, b: seq<int>, cv: View, clen: nat,
                     m: nat, m1: nat, lo: nat, nmax: nat, k: nat,
                     dst0: nat, dst1: nat, al0: Quad, al1: Quad, bp: Rows4)
    requires Operands(av, a, bv, b, cv, clen) && m < av.rows && lo + nmax <= bv.cols && k < av.cols
    requires m1 == Min(m + 1, av.rows - 1)
    requires dst0 == cv.Idx(m, lo) && dst1 == cv.Idx(m1, lo)
    requires al0 == Alphas(av, a, m, k) && al1 == Alphas(av, a, m1, k) && bp == BRows(bv, k, lo)
    ensures InB(b, bp, nmax) && dst0 + nmax <= clen && dst1 + nmax <= clen
    ensures dst0 == dst1 || dst0 + nmax <= dst1 || dst1 + nmax <= dst0
    ensures dst0 == dst1 ==> al0 == al1
  {
    BRowsFit(bv, b, k, lo, nmax);
    PairFits(cv, clen, m, m1, lo, nmax);
  }

  /** Lines 1075-1147, one pass of the `k` loop for the row pair
      `dst0`/`dst1` (rows `m` and `min(m + 1, mmax - 1)`). */
  method KStep(av: View, a: seq<int>, bv: View, b: seq<int>, cv: View, c: array<int>,
               m: nat, lo: nat, nmax: nat, k: nat, ghost o: seq<int>)
    requires Operands(av, a, bv, b, cv, c.Length) && m < av.rows && lo + nmax <= bv.cols && k < av.cols
    requires RowProd(cv, c[..], av, a, bv, b, m, lo, nmax, k)
    requires RowProd(cv, c[..], av, a, bv, b, Min(m + 1, av.rows - 1), lo, nmax, k)
    requires Untouched(c[..], o, cv.Idx(m, lo), cv.Idx(Min(m + 1, av.rows - 1), lo), nmax)
    modifies c
    ensures RowProd(cv, c[..], av, a, bv, b, m, lo, nmax, Min(k + 4, av.cols))
    ensures RowProd(cv, c[..], av, a, bv, b, Min(m + 1, av.rows - 1), lo, nmax, Min(k + 4, av.cols))
    ensures Untouched(c[..], o, cv.Idx(m, lo), cv.Idx(Min(m + 1, av.rows - 1), lo), nmax)
  {
    var m1 := Min(m + 1, av.rows - 1);
    var dst0, dst1 := cv.Idx(m, lo), cv.Idx(m1, lo);
    var al0 := RowCoefficients(av, a, m, k);
    var al1 := RowCoefficients(av, a, m1, k);
    var bp := BRowStarts(bv, k, lo);
    PairOperands(av, a, bv, b, cv, c.Length, m, m1, lo, nmax, k, dst0, dst1, al0, al1, bp);
    ghost var before := c[..];
    AccumPair(b, bp, al0, al1, c, dst0, dst1, nmax);
    AccumToProd(cv, c[..], before, av, a, bv, b, m, lo, nmax, k);
    AccumToProd(cv, c[..], before, av, a, bv, b, m1, lo, nmax, k);
  }

  /** Lines 1064-1148 for rows `m` and `min(m + 1, mmax - 1)`: clear the
      stripe of both rows, then accumulate over `k` in steps of 4. */
  method RowPair(av: View, a: seq<int>, bv: View, b: seq<int>, cv: View, c: array<int>,
                 m: nat, lo: nat, nmax: nat)
    requires Operands(av, a, bv, b, cv, c.Length) && m < av.rows && lo + nmax <= bv.cols
    modifies c
    ensures RowProd(cv, c[..], av, a, bv, b, m, lo, nmax, av.cols)
    ensures RowProd(cv, c[..], av, a, bv, b, Min(m + 1, av.rows - 1), lo, nmax, av.cols)
    ensures Untouched(c[..], old(c[..]), cv.Idx(m, lo), cv.Idx(Min(m + 1, av.rows - 1), lo), nmax)
  {
    ghost var o := c[..];
    var m1 := Min(m + 1, av.rows - 1);
    var dst0, dst1 := cv.Idx(m, lo), cv.Idx(m1, lo);
    PairFits(cv, c.Length, m, m1, lo, nmax);
    ZeroPair(c, dst0, dst1, nmax);
    ZeroToProd(cv, c[..], av, a, bv, b, m, lo, nmax);
    ZeroToProd(cv, c[..], av, a, bv, b, m1, lo, nmax);
    var k := 0;
    while k < av.cols
      invariant k <= av.cols + 3
      invariant RowProd(cv, c[..], av, a, bv, b, m, lo, nmax, Min(k, av.cols))
      invariant RowProd(cv, c[..], av, a, bv, b, m1, lo, nmax, Min(k, av.cols))
      invariant Untouched(c[..], o, dst0, dst1, nmax)
    {
      KStep(av, a, bv, b, cv, c, m, lo, nmax, k, o);
      k := k + 4;
    }
  }

  // ------------------------------------------------------------ one stripe

  /** `idx` is an entry of `C` in one of its first `nrows` rows and in a
      column of `[lo, hi)`. */
  predicate Touched(cv: View, lo: nat, hi: nat, nrows: nat, idx: int)
    requires cv.step >= 1
  {
    cv.base <= idx && (idx - cv.base) / cv.step < nrows && lo <= (idx - cv.base) % cv.step < hi
  }

  lemma TouchedIdx(cv: View, lo: nat, hi: nat, nrows: nat, r: nat, j: nat)
    requires cv.step >= 1 && j < cv.step
    ensures Touched(cv, lo, hi, nrows, cv.Idx(r, j)) <==> r < nrows && lo <= j < hi
  {
    FlatSplit(r, j, cv.step);
  }

  /** An entry of the stripe of row `m` is entry `(m, lo + d)`. */
  lemma InRowStripe(cv: View, m: nat, lo: nat, n: nat, idx: int)
    requires cv.step >= 1 && lo + n <= cv.step && cv.Idx(m, lo) <= idx < cv.Idx(m, lo) + n
    ensures Touched(cv, lo, lo + n, m + 1, idx)
    ensures idx == cv.Idx(m, idx - cv.Idx(m, lo) + lo)
  {
    FlatSplit(m, idx - cv.Idx(m, lo) + lo, cv.step);
  }

  /** Rows `r < nrows` of `C` hold the full products over the columns
      `[lo, hi)`; every other entry of the buffer is as in `o`. */
  predicate RowsDone(cv: View, s: seq<int>, o: seq<int>, av: View, a: seq<int>, bv: View, b: seq<int>,
                     lo: nat, hi: nat, nrows: nat)
  {
    Operands(av, a, bv, b, cv, |s|) && |o| == |s| && lo <= hi <= bv.cols && nrows <= av.rows &&
    (forall r, j :: 0 <= r < nrows && lo <= j < hi ==> Get(cv, s, r, j) == Prod(av, a, bv, b, r, j, av.cols)) &&
    (forall idx :: 0 <= idx < |s| && !Touched(cv, lo, hi, nrows, idx) ==> s[idx] == o[idx])
  }

  /** One pass of the `m` loop: rows `m` and `min(m + 1, mmax - 1)` join the finished rows. */
  lemma RowsStep(cv: View, s': seq<int>, s: seq<int>, o: seq<int>, av: View, a: seq<int>, bv: View, b: seq<int>,
                 lo: nat, hi: nat, m: nat)
    requires m < av.rows && RowsDone(cv, s, o, av, a, bv, b, lo, hi, m) && |s'| == |s|
    requires RowProd(cv, s', av, a, bv, b, m, lo, hi - lo, av.cols)
    requires RowProd(cv, s', av, a, bv, b, Min(m + 1, av.rows - 1), lo, hi - lo, av.cols)
    requires Untouched(s', s, cv.Idx(m, lo), cv.Idx(Min(m + 1, av.rows - 1), lo), hi - lo)
    ensures RowsDone(cv, s', o, av, a, bv, b, lo, hi, Min(m + 2, av.rows))
  {
    var m1 := Min(m + 1, av.rows - 1);
    var n := hi - lo;
    var i0, i1 := cv.Idx(m, lo), cv.Idx(m1, lo);
    forall r, j | 0 <= r < m && lo <= j < hi
      ensures Get(cv, s', r, j) == Prod(av, a, bv, b, r, j, av.cols)
    {
      IdxBound(cv, |s|, r, j);
      OutsidePair(cv, m, m1, lo, n, r, j);
    }
    forall idx | 0 <= idx < |s'| && !Touched(cv, lo, hi, Min(m + 2, av.rows), idx)
      ensures s'[idx] == o[idx]
    {
      OutsideRows(cv, lo, hi, m, m1, Min(m + 2, av.rows), idx);
    }
  }

  /** An entry outside the first `nrows` rows of the stripe is in neither
      row `m` nor row `m1` and not in the rows before `m`. */
  lemma OutsideRows(cv: View, lo: nat, hi: nat, m: nat, m1: nat, nrows: nat, idx: int)
    requires cv.step >= 1 && lo <= hi <= cv.step && m <= m1 < nrows
    ensures !Touched(cv, lo, hi, nrows, idx) ==>
      !(cv.Idx(m, lo) <= idx < cv.Idx(m, lo) + (hi - lo)) &&
      !(cv.Idx(m1, lo) <= idx < cv.Idx(m1, lo) + (hi - lo)) &&
      !Touched(cv, lo, hi, m, idx)
  {
    if cv.Idx(m, lo) <= idx < cv.Idx(m, lo) + (hi - lo) {
      InRowStripe(cv, m, lo, hi - lo, idx);
      TouchedWider(cv, lo, hi, m + 1, nrows, idx);
    }
    if cv.Idx(m1, lo) <= idx < cv.Idx(m1, lo) + (hi - lo) {
      InRowStripe(cv, m1, lo, hi - lo, idx);
      TouchedWider(cv, lo, hi, m1 + 1, nrows, idx);
    }
    TouchedWider(cv, lo, hi, m, nrows, idx);
  }

  lemma TouchedWider(cv: View, lo: nat, hi: nat, n: nat, n': nat, idx: int)
    requires cv.step >= 1 && n <= n'
    ensures Touched(cv, lo, hi, n, idx) ==> Touched(cv, lo, hi, n', idx)
    ensures Touched(cv, lo, lo + (hi - lo), n, idx) ==> Touched(cv, lo, hi, n', idx)
  {
  }

  /** An entry of a row before `m` is not in the stripe of row `m` or `m1`. */
  lemma OutsidePair(cv: View, m: nat, m1: nat, lo: nat, n: nat, r: nat, j: nat)
    requires cv.step >= 1 && lo + n <= cv.step && j < cv.step && r < m <= m1
    ensures !(cv.Idx(m, lo) <= cv.Idx(r, j) < cv.Idx(m, lo) + n)
    ensures !(cv.Idx(m1, lo) <= cv.Idx(r, j) < cv.Idx(m1, lo) + n)
  {
    TouchedIdx(cv, lo, lo + n, m, r, j);
    TouchedIdx(cv, lo, lo + n, m1, r, j);
    if cv.Idx(m, lo) <= cv.Idx(r, j) < cv.Idx(m, lo) + n {
      InRowStripe(cv, m, lo, n, cv.Idx(r, j));
      FlatSplit(r, j, cv.step);
      FlatSplit(m, cv.Idx(r, j) - cv.Idx(m, lo) + lo, cv.step);
    }
    if cv.Idx(m1, lo) <= cv.Idx(r, j) < cv.Idx(m1, lo) + n {
      InRowStripe(cv, m1, lo, n, cv.Idx(r, j));
      FlatSplit(r, j, cv.step);
      FlatSplit(m1, cv.Idx(r, j) - cv.Idx(m1, lo) + lo, cv.step);
    }
  }

  /** Lines 1064-1148: the loop over row pairs for the columns `[lo, hi)`. */
  method MatMulRange(av: View, a: seq<int>, bv: View, b: seq<int>, cv: View, c: array<int>, lo: nat, hi: nat)
    requires Operands(av, a, bv, b, cv, c.Length) && lo <= hi <= bv.cols
    modifies c
    ensures RowsDone(cv, c[..], old(c[..]), av, a, bv, b, lo, hi, av.rows)
  {
    ghost var o := c[..];
    var m := 0;
    while m < av.rows
      invariant m <= av.rows + 1
      invariant RowsDone(cv, c[..], o, av, a, bv, b, lo, hi, Min(m, av.rows))
    {
      ghost var before := c[..];
      RowPair(av, a, bv, b, cv, c, m, lo, hi - lo);
      RowsStep(cv, c[..], before, o, av, a, bv, b, lo, hi, m);
      m := m + 2;
    }
  }

  /** `stripeSize = alignSize((b.cols + nstripes - 1)/nstripes, 16)` (line 1045). */
  function StripeSize(bcols: nat, nstripes: nat): (ss: nat)
    requires nstripes >= 1
    ensures ss % 16 == 0 && nstripes * ss >= bcols
  {
    var q := CeilDiv(bcols, nstripes);
    MulMonoLeft(q, AlignSize(q, 16), nstripes);
    AlignSize(q, 16)
  }

  /** The columns of stripes `[r0, r1)`: from `r0*stripeSize`, clipped to
      `b.cols` (line 1046); empty when the stripe starts past the last column. */
  function StripeLo(bcols: nat, nstripes: nat, r0: nat, r1: nat): nat
    requires nstripes >= 1
  {
    Min(r0 * StripeSize(bcols, nstripes), StripeHi(bcols, nstripes, r1))
  }

  function StripeHi(bcols: nat, nstripes: nat, r1: nat): nat
    requires nstripes >= 1
  {
    Min(r1 * StripeSize(bcols, nstripes), bcols)
  }

  /** Lines 1043-1149: one invocation on the stripe range `[r0, r1)`; when
      `range.start >= range.end` every inner loop is empty and `C` keeps
      its contents. */
  method MatMulStripe(av: View, a: seq<int>, bv: View, b: seq<int>, cv: View, c: array<int>,
                      nstripes: nat, r0: nat, r1: nat)
    requires Operands(av, a, bv, b, cv, c.Length) && nstripes >= 1
    modifies c
    ensures RowsDone(cv, c[..], old(c[..]), av, a, bv, b, StripeLo(bv.cols, nstripes, r0, r1),
                     StripeHi(bv.cols, nstripes, r1), av.rows)
  {
    var stripeSize := StripeSize(bv.cols, nstripes);
    var start, end := r0 * stripeSize, Min(r1 * stripeSize, bv.cols);
    if start < end {
      MatMulRange(av, a, bv, b, cv, c, start, end);
    }
  }

  /** Stripe `k` of `nstripes` owns exactly the columns `j` with
      `j / stripeSize == k`, so the stripes split the columns without overlap. */
  lemma ColumnOwner(bcols: nat, nstripes: nat, k: nat, j: nat)
    requires nstripes >= 1 && j < bcols
    ensures j / StripeSize(bcols, nstripes) < nstripes
    ensures StripeLo(bcols, nstripes, k, k + 1) <= j < StripeHi(bcols, nstripes, k + 1) <==>
      k == j / StripeSize(bcols, nstripes)
  {
    var ss := StripeSize(bcols, nstripes);
    DivLess(j, ss, nstripes);
    DivLess(j, ss, k + 1);
    if k * ss <= j {
      DivLess(j, ss, k);
    } else {
      DivLess(j, ss, k);
    }
    MulMonoLeft(k, k + 1, ss);
  }

  /** Stripes `[0, k)` then stripe `k` make stripes `[0, k + 1)`. */
  lemma RowsJoin(cv: View, s': seq<int>, s: seq<int>, o: seq<int>, av: View, a: seq<int>, bv: View, b: seq<int>,
                 x: nat, y: nat)
    requires RowsDone(cv, s, o, av, a, bv, b, 0, x, av.rows)
    requires RowsDone(cv, s', s, av, a, bv, b, x, y, av.rows)
    ensures RowsDone(cv, s', o, av, a, bv, b, 0, y, av.rows)
  {
    forall r, j | 0 <= r < av.rows && 0 <= j < x
      ensures Get(cv, s', r, j) == Prod(av, a, bv, b, r, j, av.cols)
    {
      IdxBound(cv, |s|, r, j);
      TouchedIdx(cv, x, y, av.rows, r, j);
    }
  }

  /** `parallel_for_(Range(0, nstripes), mminvoker, nstripes)` (line 1297),
      the invocations on `[k, k + 1)` taken one after the other: `C = A*B`,
      and nothing outside `C` changes. */
  method MatMul(av: View, a: seq<int>, bv: View, b: seq<int>, cv: View, c: array<int>, nstripes: nat)
    requires Operands(av, a, bv, b, cv, c.Length) && nstripes >= 1
    modifies c
    ensures RowsDone(cv, c[..], old(c[..]), av, a, bv, b, 0, bv.cols, av.rows)
  {
    ghost var o := c[..];
    var k := 0;
    while k < nstripes
      invariant k <= nstripes
      invariant RowsDone(cv, c[..], o, av, a, bv, b, 0, StripeHi(bv.cols, nstripes, k), av.rows)
    {
      ghost var before := c[..];
      MatMulStripe(av, a, bv, b, cv, c, nstripes, k, k + 1);
      MulMonoLeft(k, k + 1, StripeSize(bv.cols, nstripes));
      assert StripeLo(bv.cols, nstripes, k, k + 1) == StripeHi(bv.cols, nstripes, k);
      RowsJoin(cv, c[..], before, o, av, a, bv, b, StripeHi(bv.cols, nstripes, k), StripeHi(bv.cols, nstripes, k + 1));
      k := k + 1;
    }
  }
}

