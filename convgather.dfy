/** The im2row gather of `ParallelConv::operator()` (lines 403-476): for
    one output position and one block of at most 64 input channels, the
    `karea*ncn` input values its kernel window covers are copied into a row
    of `rowbuf`, with 0 for taps that fall into the padding. */
module ConvGather {
  import opened Arith
  import opened ConvGeometry
  import opened ConvPrep

  /** `ncn = min(cn0 + BLK_SIZE_CN, inpCn) - cn0`. */
  function BlockChannels(g: Geometry, cn0: nat): nat
    requires cn0 < g.inpCn
  {
    Min(cn0 + BlkSizeCn, g.inpCn) - cn0
  }

  /** Every position of a block row is some `(k, i, j)`. */
  lemma Decompose(g: Geometry, ncn: nat, q: nat) returns (k: nat, i: nat, j: nat)
    requires g.Valid() && q < g.Karea() * ncn
    ensures k < ncn && i < g.kernelH && j < g.kernelW
    ensures q == Pos(g, k, i, j) == (k * g.kernelH + i) * g.kernelW + j
  {
    var ka := g.Karea();
    var t := q % ka;
    k, i, j := q / ka, t / g.kernelW, t % g.kernelW;
    assert ka * ncn == ncn * ka;
    DivLess(q, ka, ncn);
    DivLess(t, g.kernelW, g.kernelH);
    assert q == k * ka + t;
    assert t == i * g.kernelW + j;
    RowMajorIndex(g, k, i, j);
  }

  /** The test of lines 445-446: the whole kernel window lies inside the image. */
  predicate Interior(g: Geometry, p: nat)
    requires g.Valid()
  {
    0 <= g.InRow(p) < g.height - (g.kernelH - 1) * g.dilationH &&
    0 <= g.InCol(p) < g.width - (g.kernelW - 1) * g.dilationW
  }

  /** `imgptr` of line 441: `data_inp0 + (cn0*height + in_i)*width + in_j` with
      `data_inp0 = data_inp0_ + subsampleIdx*inpPlaneSize*inpCn`. */
  function WindowBase(g: Geometry, s: nat, cn0: nat, p: nat): int
    requires g.Valid()
  {
    s * g.InpPlane() * g.inpCn + (cn0 * g.height + g.InRow(p)) * g.width + g.InCol(p)
  }

  lemma WindowBaseIsAddress(g: Geometry, s: nat, cn0: nat, p: nat)
    requires g.Valid()
    ensures WindowBase(g, s, cn0, p) == g.InIdx(s, cn0, g.InRow(p), g.InCol(p))
  {
    assert s * g.InpPlane() * g.inpCn == ((s * g.inpCn) * g.height) * g.width;
  }

  /** A pixel inside the image is read from its address. */
  lemma PixelInside(g: Geometry, inp: seq<int>, s: nat, c: nat, y: int, x: int)
    requires InputOk(g, inp) && s < g.BatchSize() && c < g.inpCn
    requires 0 <= y < g.height && 0 <= x < g.width
    ensures 0 <= g.InIdx(s, c, y, x) < |inp| && Pixel(g, inp, s, c, y, x) == inp[g.InIdx(s, c, y, x)]
  {
    InIdxBound(g, s, c, y, x);
  }

  /** The interior path reads the right element: through the offset table
      the address is in the input and holds the wanted tap. */
  lemma InteriorTap(g: Geometry, inp: seq<int>, s: nat, p: nat, cn0: nat, ncn: nat, q: nat)
    requires InputOk(g, inp) && s < g.BatchSize() && cn0 + ncn <= g.inpCn
    requires Interior(g, p) && q < g.Karea() * ncn
    ensures 0 <= WindowBase(g, s, cn0, p) + TapOffset(g, q) < |inp|
    ensures inp[WindowBase(g, s, cn0, p) + TapOffset(g, q)] == BlockRow(g, inp, s, p, cn0, ncn)[q]
  {
    var k, i, j := Decompose(g, ncn, q);
    TableEntry(g, ncn, k, i, j);
    InteriorInside(g.InRow(p), g.dilationH, g.height, g.kernelH, i);
    InteriorInside(g.InCol(p), g.dilationW, g.width, g.kernelW, j);
    TapRead(g, inp, s, p, cn0, ncn, k, i, j);
    OffsetForms(g, k, i, j);
  }

  /** The table's offset of tap `(k, i, j)` is the boundary path's
      `k` planes plus `i*(dilation_h*width) + j*dilation_w`. */
  lemma OffsetForms(g: Geometry, k: nat, i: nat, j: nat)
    ensures (k * g.height + i * g.dilationH) * g.width + j * g.dilationW ==
      k * (g.width * g.height) + (i * (g.dilationH * g.width) + j * g.dilationW)
  {
  }

  /** A tap inside the image is read from `imgptr` advanced by `k` planes plus
      `i*(dilation_h*width) + j*dilation_w`, and is the wanted block-row entry. */
  lemma TapRead(g: Geometry, inp: seq<int>, s: nat, p: nat, cn0: nat, ncn: nat, k: nat, i: nat, j: nat)
    requires InputOk(g, inp) && s < g.BatchSize() && cn0 + ncn <= g.inpCn && k < ncn
    requires i < g.kernelH && j < g.kernelW
    requires 0 <= g.InRow(p) + i * g.dilationH < g.height && 0 <= g.InCol(p) + j * g.dilationW < g.width
    ensures var a := WindowBase(g, s, cn0, p) + k * (g.width * g.height) + (i * (g.dilationH * g.width) + j * g.dilationW);
      0 <= a < |inp| && Pos(g, k, i, j) < g.Karea() * ncn &&
      inp[a] == BlockRow(g, inp, s, p, cn0, ncn)[Pos(g, k, i, j)]
  {
    BoundaryAddress(g, s, cn0, p, k, i, j);
    BlockRowEntry(g, inp, s, p, cn0, ncn, k, i, j);
    PixelInside(g, inp, s, cn0 + k, g.InRow(p) + i * g.dilationH, g.InCol(p) + j * g.dilationW);
  }

  /** Lines 447-450: `rowbuf[k] = imgptr[ofstab[k]]` for `k < vsz`. */
  method GatherInterior(g: Geometry, inp: array<int>, ofstab: array<int>, s: nat, p: nat,
                        cn0: nat, ncn: nat, rowbuf: array<int>, rb: nat)
    requires InputOk(g, inp[..]) && s < g.BatchSize() && p < g.OutPlane()
    requires 1 <= ncn <= BlkSizeCn && cn0 + ncn <= g.inpCn
    requires ofstab.Length == g.Karea() * TableChannels(g)
    requires forall q :: 0 <= q < ofstab.Length ==> ofstab[q] == TapOffset(g, q)
    requires Interior(g, p)
    requires rb + g.Karea() * ncn <= rowbuf.Length && rowbuf != inp && rowbuf != ofstab
    modifies rowbuf
    ensures rowbuf[rb .. rb + g.Karea() * ncn] == BlockRow(g, inp[..], s, p, cn0, ncn)
    ensures rowbuf[..rb] == old(rowbuf[..rb])
    ensures rowbuf[rb + g.Karea() * ncn ..] == old(rowbuf[rb + g.Karea() * ncn ..])
  {
    var vsz := g.Karea() * ncn;
    ghost var e := BlockRow(g, inp[..], s, p, cn0, ncn);
    assert vsz <= ofstab.Length by { MulMonoLeft(ncn, TableChannels(g), g.Karea()); }
    var imgptr := WindowBase(g, s, cn0, p);
    var k := 0;
    while k < vsz
      invariant 0 <= k <= vsz
      invariant rowbuf[rb .. rb + k] == e[..k]
      invariant rowbuf[..rb] == old(rowbuf[..rb]) && rowbuf[rb + vsz ..] == old(rowbuf[rb + vsz ..])
    {
      InteriorTap(g, inp[..], s, p, cn0, ncn, k);
      rowbuf[rb + k] := inp[imgptr + ofstab[k]];
      assert rowbuf[rb .. rb + k + 1] == rowbuf[rb .. rb + k] + [e[k]];
      k := k + 1;
    }
  }

  // ------------------------------------------------------------ boundary path

  /** The state of `rowbuf` during the boundary gather: outside the row
      `[rb, rb + |e|)` it is still `orig`; inside, it agrees with the wanted
      row `e` below `cur` and is still zero from `cur` on. */
  predicate RowState(a: seq<int>, rb: nat, e: seq<int>, cur: nat, orig: seq<int>)
  {
    |a| == |orig| && rb + |e| <= |a| && cur <= |e| &&
    a[..rb] == orig[..rb] && a[rb + |e| ..] == orig[rb + |e| ..] &&
    a[rb .. rb + cur] == e[..cur] && a[rb + cur .. rb + |e|] == Zeros(|e| - cur)
  }

  predicate AllZero(e: seq<int>, lo: nat, hi: nat)
  {
    hi <= |e| && forall x :: lo <= x < hi ==> e[x] == 0
  }

  lemma AllZeroJoin(e: seq<int>, lo: nat, mid: nat, hi: nat)
    requires lo <= mid && AllZero(e, lo, mid) && AllZero(e, mid, hi)
    ensures AllZero(e, lo, hi)
  {
  }

  /** After the row is zeroed (line 451) nothing of it is done yet. */
  lemma RowStateStart(a: seq<int>, rb: nat, e: seq<int>, orig: seq<int>)
    requires |a| == |orig| && rb + |e| <= |a|
    requires a[..rb] == orig[..rb] && a[rb + |e| ..] == orig[rb + |e| ..]
    requires a[rb .. rb + |e|] == Zeros(|e|)
    ensures RowState(a, rb, e, 0, orig)
  {
  }

  /** Skipping taps the wanted row has as zero keeps the state. */
  lemma RowStateSkip(a: seq<int>, rb: nat, e: seq<int>, cur: nat, cur': nat, orig: seq<int>)
    requires RowState(a, rb, e, cur, orig) && cur <= cur' && AllZero(e, cur, cur')
    ensures RowState(a, rb, e, cur', orig)
  {
    var z := a[rb + cur .. rb + |e|];
    assert z == Zeros(|e| - cur);
    assert a[rb + cur .. rb + cur'] == z[..cur' - cur] == Zeros(cur' - cur);
    assert a[rb + cur' .. rb + |e|] == z[cur' - cur ..] == Zeros(|e| - cur');
    assert e[cur .. cur'] == Zeros(cur' - cur);
    assert a[rb .. rb + cur'] == a[rb .. rb + cur] + a[rb + cur .. rb + cur'];
    assert e[..cur'] == e[..cur] + e[cur .. cur'];
  }

  /** Writing the wanted value at `cur` advances the state by one. */
  lemma RowStateWrite(a: seq<int>, rb: nat, e: seq<int>, cur: nat, orig: seq<int>)
    requires RowState(a, rb, e, cur, orig) && cur < |e|
    ensures RowState(a[rb + cur := e[cur]], rb, e, cur + 1, orig)
  {
    var b := a[rb + cur := e[cur]];
    assert b[..rb] == a[..rb];
    assert b[rb + |e| ..] == a[rb + |e| ..];
    assert b[rb .. rb + cur + 1] == a[rb .. rb + cur] + [e[cur]];
    assert e[..cur + 1] == e[..cur] + [e[cur]];
    assert b[rb + cur + 1 .. rb + |e|] == a[rb + cur .. rb + |e|][1..];
  }

  /** With every tap done the row is the wanted row. */
  lemma RowStateDone(a: seq<int>, rb: nat, e: seq<int>, orig: seq<int>)
    requires RowState(a, rb, e, |e|, orig)
    ensures a[rb .. rb + |e|] == e && a[..rb] == orig[..rb] && a[rb + |e| ..] == orig[rb + |e| ..]
  {
  }

  /** Taps `[jlo, jhi)` of kernel row `i` of channel `k` are padding when the
      row or all those columns fall outside the image. */
  lemma TapRowZero(g: Geometry, inp: seq<int>, s: nat, p: nat, cn0: nat, ncn: nat,
                   k: nat, i: nat, jlo: nat, jhi: nat)
    requires g.Valid() && cn0 + ncn <= g.inpCn && k < ncn && i < g.kernelH && jlo <= jhi <= g.kernelW
    requires !(TapLo(g.InRow(p), g.dilationH) <= i < TapHi(g.InRow(p), g.dilationH, g.height, g.kernelH)) ||
             jhi <= TapLo(g.InCol(p), g.dilationW) ||
             jlo >= TapHi(g.InCol(p), g.dilationW, g.width, g.kernelW) ||
             TapHi(g.InCol(p), g.dilationW, g.width, g.kernelW) <= TapLo(g.InCol(p), g.dilationW)
    ensures Pos(g, k, i, jhi) <= g.Karea() * ncn
    ensures AllZero(BlockRow(g, inp, s, p, cn0, ncn), Pos(g, k, i, jlo), Pos(g, k, i, jhi))
  {
    var e := BlockRow(g, inp, s, p, cn0, ncn);
    var a := Pos(g, k, i, 0);
    RowInBlock(g, ncn, k, i);
    TapRangeExact(g.InRow(p), g.dilationH, g.height, g.kernelH, i);
    forall x | a + jlo <= x < a + jhi
      ensures e[x] == 0
    {
      var j := x - a;
      BlockRowEntry(g, inp, s, p, cn0, ncn, k, i, j);
      TapRangeExact(g.InCol(p), g.dilationW, g.width, g.kernelW, j);
    }
  }

  /** Kernel rows `[ilo, ihi)` of channel `k` are all padding when none of
      them falls inside the image. */
  lemma {:induction false} TapRowsZero(g: Geometry, inp: seq<int>, s: nat, p: nat, cn0: nat, ncn: nat,
                                       k: nat, ilo: nat, ihi: nat)
    requires g.Valid() && cn0 + ncn <= g.inpCn && k < ncn && ilo <= ihi <= g.kernelH
    requires ihi <= TapLo(g.InRow(p), g.dilationH) ||
             ilo >= TapHi(g.InRow(p), g.dilationH, g.height, g.kernelH) ||
             TapHi(g.InRow(p), g.dilationH, g.height, g.kernelH) <= TapLo(g.InRow(p), g.dilationH)
    ensures Pos(g, k, ihi, 0) <= g.Karea() * ncn
    ensures AllZero(BlockRow(g, inp, s, p, cn0, ncn), Pos(g, k, ilo, 0), Pos(g, k, ihi, 0))
    decreases ihi - ilo
  {
    if ilo < ihi {
      TapRowsZero(g, inp, s, p, cn0, ncn, k, ilo + 1, ihi);
      TapRowZero(g, inp, s, p, cn0, ncn, k, ilo, 0, g.kernelW);
      PosNext(g, k, ilo);
      AllZeroJoin(BlockRow(g, inp, s, p, cn0, ncn), Pos(g, k, ilo, 0), Pos(g, k, ilo + 1, 0), Pos(g, k, ihi, 0));
    } else if ihi > 0 {
      RowInBlock(g, ncn, k, ihi - 1);
    } else {
      MulMonoLeft(k + 1, ncn, g.Karea());
      assert ncn * g.Karea() == g.Karea() * ncn;
    }
  }

  /** `imgptr + i*(dilation_h*width) + j*dilation_w` with `imgptr` advanced by
      `k` planes is the address of the tap. */
  lemma BoundaryAddress(g: Geometry, s: nat, cn0: nat, p: nat, k: nat, i: nat, j: nat)
    requires g.Valid()
    ensures WindowBase(g, s, cn0, p) + k * (g.width * g.height) + (i * (g.dilationH * g.width) + j * g.dilationW)
      == g.InIdx(s, cn0 + k, g.InRow(p) + i * g.dilationH, g.InCol(p) + j * g.dilationW)
  {
    WindowBaseIsAddress(g, s, cn0, p);
    MulAssoc(i, g.dilationH, g.width);
    ShiftedAddress(s * g.inpCn + cn0, k, g.height, g.width, g.InRow(p), g.InCol(p),
                   i * g.dilationH, j * g.dilationW);
  }

  /** Moving `k` planes, `dy` rows and `dx` columns from flat address `((a*h + y)*w + x)`. */
  lemma ShiftedAddress(a: int, k: int, h: int, w: int, y: int, x: int, dy: int, dx: int)
    ensures ((a + k) * h + (y + dy)) * w + (x + dx) == ((a * h + y) * w + x) + k * (w * h) + (dy * w + dx)
  {
  }


  /** A tap the boundary loop copies is inside the image and holds the wanted value. */
  lemma BoundaryTap(g: Geometry, inp: seq<int>, s: nat, p: nat, cn0: nat, ncn: nat, k: nat, i: nat, j: nat)
    requires InputOk(g, inp) && s < g.BatchSize() && cn0 + ncn <= g.inpCn && k < ncn
    requires TapLo(g.InRow(p), g.dilationH) <= i < TapHi(g.InRow(p), g.dilationH, g.height, g.kernelH)
    requires TapLo(g.InCol(p), g.dilationW) <= j < TapHi(g.InCol(p), g.dilationW, g.width, g.kernelW)
    ensures var a := WindowBase(g, s, cn0, p) + k * (g.width * g.height) + (i * (g.dilationH * g.width) + j * g.dilationW);
      0 <= a < |inp| && Pos(g, k, i, j) < g.Karea() * ncn &&
      inp[a] == BlockRow(g, inp, s, p, cn0, ncn)[Pos(g, k, i, j)]
  {
    TapRangeExact(g.InRow(p), g.dilationH, g.height, g.kernelH, i);
    TapRangeExact(g.InCol(p), g.dilationW, g.width, g.kernelW, j);
    TapRead(g, inp, s, p, cn0, ncn, k, i, j);
  }

  /** One iteration of the column loop: the source address and the row slot
      are in range, and writing the tap moves the row state one entry on. */
  lemma ColumnStep(g: Geometry, inp: seq<int>, s: nat, p: nat, cn0: nat, ncn: nat,
                   a: seq<int>, rb: nat, k: nat, i: nat, j: nat, e: seq<int>, orig: seq<int>)
    requires InputOk(g, inp) && s < g.BatchSize() && cn0 + ncn <= g.inpCn && k < ncn
    requires e == BlockRow(g, inp, s, p, cn0, ncn)
    requires TapLo(g.InRow(p), g.dilationH) <= i < TapHi(g.InRow(p), g.dilationH, g.height, g.kernelH)
    requires TapLo(g.InCol(p), g.dilationW) <= j < TapHi(g.InCol(p), g.dilationW, g.width, g.kernelW)
    requires RowState(a, rb, e, Pos(g, k, i, j), orig)
    ensures var src := WindowBase(g, s, cn0, p) + k * (g.width * g.height) + (i * (g.dilationH * g.width) + j * g.dilationW);
      var idx := rb + (k * g.kernelH + i) * g.kernelW + j;
      0 <= src < |inp| && idx < |a| && idx == rb + Pos(g, k, i, j) &&
      RowState(a[idx := inp[src]], rb, e, Pos(g, k, i, j) + 1, orig)
  {
    BoundaryTap(g, inp, s, p, cn0, ncn, k, i, j);
    RowMajorIndex(g, k, i, j);
    RowStateWrite(a, rb, e, Pos(g, k, i, j), orig);
  }

  /** Lines 460-471 for one kernel row `i` inside `[i0, i1)`: copy columns
      `[j0, j1)`, leaving the padding columns at zero. */
  method CopyTapRow(g: Geometry, inp: array<int>, s: nat, p: nat, cn0: nat, ncn: nat,
                    rowbuf: array<int>, rb: nat, k: nat, i: nat, imgptr: int,
                    ghost e: seq<int>, ghost orig: seq<int>)
    requires InputOk(g, inp[..]) && s < g.BatchSize() && cn0 + ncn <= g.inpCn && k < ncn && rowbuf != inp
    requires e == BlockRow(g, inp[..], s, p, cn0, ncn)
    requires TapLo(g.InRow(p), g.dilationH) <= i < TapHi(g.InRow(p), g.dilationH, g.height, g.kernelH)
    requires imgptr == WindowBase(g, s, cn0, p) + k * (g.width * g.height)
    requires RowState(rowbuf[..], rb, e, Pos(g, k, i, 0), orig)
    modifies rowbuf
    ensures RowState(rowbuf[..], rb, e, Pos(g, k, i + 1, 0), orig)
  {
    var kh, kw := g.kernelH, g.kernelW;
    var j0 := TapLo(g.InCol(p), g.dilationW);
    var j1 := TapHi(g.InCol(p), g.dilationW, g.width, kw);
    PosNext(g, k, i);
    // columns before j0 (the whole row when [j0, j1) is empty) are padding
    ghost var colLo := if j0 < j1 then j0 else kw;
    TapRowZero(g, inp[..], s, p, cn0, ncn, k, i, 0, colLo);
    RowStateSkip(rowbuf[..], rb, e, Pos(g, k, i, 0), Pos(g, k, i, colLo), orig);
    if j0 < j1 {
      CopyColumns(g, inp, s, p, cn0, ncn, rowbuf, rb, k, i, imgptr, e, orig);
      // columns from j1 on are padding
      TapRowZero(g, inp[..], s, p, cn0, ncn, k, i, j1, kw);
      RowStateSkip(rowbuf[..], rb, e, Pos(g, k, i, j1), Pos(g, k, i, kw), orig);
    }
  }

  /** Lines 465-470: the copy loop over the columns `[j0, j1)` of a kernel row. */
  method CopyColumns(g: Geometry, inp: array<int>, s: nat, p: nat, cn0: nat, ncn: nat,
                     rowbuf: array<int>, rb: nat, k: nat, i: nat, imgptr: int,
                     ghost e: seq<int>, ghost orig: seq<int>)
    requires InputOk(g, inp[..]) && s < g.BatchSize() && cn0 + ncn <= g.inpCn && k < ncn && rowbuf != inp
    requires e == BlockRow(g, inp[..], s, p, cn0, ncn)
    requires TapLo(g.InRow(p), g.dilationH) <= i < TapHi(g.InRow(p), g.dilationH, g.height, g.kernelH)
    requires imgptr == WindowBase(g, s, cn0, p) + k * (g.width * g.height)
    requires TapLo(g.InCol(p), g.dilationW) < TapHi(g.InCol(p), g.dilationW, g.width, g.kernelW)
    requires RowState(rowbuf[..], rb, e, Pos(g, k, i, TapLo(g.InCol(p), g.dilationW)), orig)
    modifies rowbuf
    ensures RowState(rowbuf[..], rb, e, Pos(g, k, i, TapHi(g.InCol(p), g.dilationW, g.width, g.kernelW)), orig)
  {
    var kh, kw := g.kernelH, g.kernelW;
    var j0 := TapLo(g.InCol(p), g.dilationW);
    var j1 := TapHi(g.InCol(p), g.dilationW, g.width, kw);
    ghost var cur := Pos(g, k, i, j0);
    var j := j0;
    while j < j1
      invariant j0 <= j <= j1 && cur == Pos(g, k, i, j)
      invariant RowState(rowbuf[..], rb, e, cur, orig)
    {
      CopyTap(g, inp, s, p, cn0, ncn, rowbuf, rb, k, i, j, imgptr, e, orig);
      cur := cur + 1;
      j := j + 1;
    }
  }

  /** Line 470 for column `j`: the tap's input element into the row buffer. */
  method CopyTap(g: Geometry, inp: array<int>, s: nat, p: nat, cn0: nat, ncn: nat,
                 rowbuf: array<int>, rb: nat, k: nat, i: nat, j: nat, imgptr: int,
                 ghost e: seq<int>, ghost orig: seq<int>)
    requires InputOk(g, inp[..]) && s < g.BatchSize() && cn0 + ncn <= g.inpCn && k < ncn && rowbuf != inp
    requires e == BlockRow(g, inp[..], s, p, cn0, ncn)
    requires TapLo(g.InRow(p), g.dilationH) <= i < TapHi(g.InRow(p), g.dilationH, g.height, g.kernelH)
    requires TapLo(g.InCol(p), g.dilationW) <= j < TapHi(g.InCol(p), g.dilationW, g.width, g.kernelW)
    requires imgptr == WindowBase(g, s, cn0, p) + k * (g.width * g.height)
    requires RowState(rowbuf[..], rb, e, Pos(g, k, i, j), orig)
    modifies rowbuf
    ensures RowState(rowbuf[..], rb, e, Pos(g, k, i, j) + 1, orig)
  {
    var imgofs := i * (g.dilationH * g.width) + j * g.dilationW;
    var idx := rb + (k * g.kernelH + i) * g.kernelW + j;
    ColumnStep(g, inp[..], s, p, cn0, ncn, rowbuf[..], rb, k, i, j, e, orig);
    ghost var before := rowbuf[..];
    rowbuf[idx] := inp[imgptr + imgofs];
    assert rowbuf[..] == before[idx := inp[imgptr + imgofs]];
  }

  /** Lines 458-472 for one channel `k` of the block: rows outside `[i0, i1)`
      stay zero, rows inside are copied by `CopyTapRow`. */
  method CopyChannel(g: Geometry, inp: array<int>, s: nat, p: nat, cn0: nat, ncn: nat,
                     rowbuf: array<int>, rb: nat, k: nat, imgptr: int,
                     ghost e: seq<int>, ghost orig: seq<int>)
    requires InputOk(g, inp[..]) && s < g.BatchSize() && cn0 + ncn <= g.inpCn && k < ncn && rowbuf != inp
    requires e == BlockRow(g, inp[..], s, p, cn0, ncn)
    requires imgptr == WindowBase(g, s, cn0, p) + k * (g.width * g.height)
    requires RowState(rowbuf[..], rb, e, Pos(g, k, 0, 0), orig)
    modifies rowbuf
    ensures RowState(rowbuf[..], rb, e, Pos(g, k + 1, 0, 0), orig)
  {
    var kh := g.kernelH;
    var i0 := TapLo(g.InRow(p), g.dilationH);
    var i1 := TapHi(g.InRow(p), g.dilationH, g.height, kh);
    PosNext(g, k, 0);
    // rows before i0 (all rows when [i0, i1) is empty) are padding
    ghost var rowLo := if i0 < i1 then i0 else kh;
    TapRowsZero(g, inp[..], s, p, cn0, ncn, k, 0, rowLo);
    RowStateSkip(rowbuf[..], rb, e, Pos(g, k, 0, 0), Pos(g, k, rowLo, 0), orig);
    if i0 < i1 {
      CopyRows(g, inp, s, p, cn0, ncn, rowbuf, rb, k, imgptr, e, orig);
      // rows from i1 on are padding
      TapRowsZero(g, inp[..], s, p, cn0, ncn, k, i1, kh);
      MulMonoLeft(i1, kh, g.kernelW);
      RowStateSkip(rowbuf[..], rb, e, Pos(g, k, i1, 0), Pos(g, k, kh, 0), orig);
    }
  }

  /** Lines 460-471: the loop over the kernel rows `[i0, i1)` inside the image. */
  method CopyRows(g: Geometry, inp: array<int>, s: nat, p: nat, cn0: nat, ncn: nat,
                  rowbuf: array<int>, rb: nat, k: nat, imgptr: int,
                  ghost e: seq<int>, ghost orig: seq<int>)
    requires InputOk(g, inp[..]) && s < g.BatchSize() && cn0 + ncn <= g.inpCn && k < ncn && rowbuf != inp
    requires e == BlockRow(g, inp[..], s, p, cn0, ncn)
    requires imgptr == WindowBase(g, s, cn0, p) + k * (g.width * g.height)
    requires TapLo(g.InRow(p), g.dilationH) < TapHi(g.InRow(p), g.dilationH, g.height, g.kernelH)
    requires RowState(rowbuf[..], rb, e, Pos(g, k, TapLo(g.InRow(p), g.dilationH), 0), orig)
    modifies rowbuf
    ensures RowState(rowbuf[..], rb, e, Pos(g, k, TapHi(g.InRow(p), g.dilationH, g.height, g.kernelH), 0), orig)
  {
    var i0 := TapLo(g.InRow(p), g.dilationH);
    var i1 := TapHi(g.InRow(p), g.dilationH, g.height, g.kernelH);
    var i := i0;
    while i < i1
      invariant i0 <= i <= i1 && RowState(rowbuf[..], rb, e, Pos(g, k, i, 0), orig)
    {
      CopyTapRow(g, inp, s, p, cn0, ncn, rowbuf, rb, k, i, imgptr, e, orig);
      i := i + 1;
    }
  }

  /** Lines 451-474: zero the row, then copy only the taps inside the image,
      channel by channel, over the exact ranges `[i0, i1) x [j0, j1)`. */
  method GatherBoundary(g: Geometry, inp: array<int>, s: nat, p: nat,
                        cn0: nat, ncn: nat, rowbuf: array<int>, rb: nat)
    requires InputOk(g, inp[..]) && s < g.BatchSize() && p < g.OutPlane()
    requires 1 <= ncn && cn0 + ncn <= g.inpCn
    requires rb + g.Karea() * ncn <= rowbuf.Length && rowbuf != inp
    modifies rowbuf
    ensures rowbuf[rb .. rb + g.Karea() * ncn] == BlockRow(g, inp[..], s, p, cn0, ncn)
    ensures rowbuf[..rb] == old(rowbuf[..rb])
    ensures rowbuf[rb + g.Karea() * ncn ..] == old(rowbuf[rb + g.Karea() * ncn ..])
  {
    var vsz := g.Karea() * ncn;
    ghost var e := BlockRow(g, inp[..], s, p, cn0, ncn);
    ghost var orig := rowbuf[..];
    FillZeros(rowbuf, rb, rb + vsz);
    RowStateStart(rowbuf[..], rb, e, orig);
    var imgptr := WindowBase(g, s, cn0, p);
    var k := 0;
    while k < ncn
      invariant 0 <= k <= ncn
      invariant imgptr == WindowBase(g, s, cn0, p) + k * (g.width * g.height)
      invariant RowState(rowbuf[..], rb, e, Pos(g, k, 0, 0), orig)
    {
      CopyChannel(g, inp, s, p, cn0, ncn, rowbuf, rb, k, imgptr, e, orig);
      MulSucc(k, g.width * g.height);
      imgptr := imgptr + g.width * g.height;
      k := k + 1;
    }
    ChannelsEnd(g, ncn);
    RowStateDone(rowbuf[..], rb, e, orig);
  }
}
