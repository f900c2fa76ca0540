/** `DeConvolutionLayerImpl::forward` (lines 1255-1306): for every image
    `n` and group `g`, the group's slice of the transposed weights times the
    group's input planes gives the column matrix (`MatMulInvoker`), and
    col2im scatters it into the group's output planes (`Col2ImInvoker`). */
module Deconv {
  import opened Arith
  import opened ConvShapes
  import ConvStripe
  import opened DeconvMatMul
  import opened Col2Im

  /** The extents of one deconvolution: the layer parameters, the batch, the
      groups with their input and output channels, and the input plane. */
  datatype DeconvDims = DeconvDims(p: Params, numImg: nat, ngroups: nat, igc: nat, ogc: nat, inpH: nat, inpW: nat)
  {
    /** `adj < stride` is asserted when the layer is created (lines
        1389-1390); the output extents must be positive. */
    predicate Valid()
    {
      p.Valid() && ngroups >= 1 && igc >= 1 && ogc >= 1 && inpH >= 1 && inpW >= 1 &&
      p.adjH < p.strideH && p.adjW < p.strideW &&
      DeconvOutSize(inpH, p.kernelH, p.padH, p.strideH, p.adjH) >= 1 &&
      DeconvOutSize(inpW, p.kernelW, p.padW, p.strideW, p.adjW) >= 1
    }

    function InpCn(): nat { ngroups * igc }
    function OutCn(): nat { ngroups * ogc }

    /** `outH`, `outW` of `getMemoryShapes` (lines 1009-1010). */
    function OutH(): nat
      requires Valid()
    {
      DeconvOutSize(inpH, p.kernelH, p.padH, p.strideH, p.adjH)
    }

    function OutW(): nat
      requires Valid()
    {
      DeconvOutSize(inpW, p.kernelW, p.padW, p.strideW, p.adjW)
    }

    /** `ksize = outGroupCn*kernel_h*kernel_w`: the rows of the column matrix. */
    function KSize(): nat { ogc * p.kernelH * p.kernelW }
    function InpPlane(): (r: nat)
      ensures inpH >= 1 && inpW >= 1 ==> r >= 1
    {
      inpH * inpW
    }

    function OutPlane(): (r: nat)
      requires Valid()
      ensures r >= 1
    {
      OutH() * OutW()
    }

    /** The output `[numImg, outCn, outH, outW]`. */
    function OutLen(): nat
      requires Valid()
    {
      MulNonneg(numImg, OutCn());
      MulNonneg(numImg * OutCn(), OutPlane());
      numImg * OutCn() * OutPlane()
    }

    /** One group of one image of the output: `outGroupCn` planes. */
    function BlockSize(): nat
      requires Valid()
    {
      ogc * OutPlane()
    }
  }

  // ------------------------------------------------------------ the operands

  /** The weight blob as `transpose` reads it: `inpCn x ksize`. */
  function WeightsView(d: DeconvDims): View
  {
    View(0, d.InpCn(), d.KSize(), d.KSize())
  }

  /** `weightsMat`: `ksize x inpCn`. */
  function TransposedView(d: DeconvDims): View
  {
    View(0, d.KSize(), d.InpCn(), d.InpCn())
  }

  /** The input `[numImg, inpCn, inpH, inpW]` as `convBlob`: `numImg*inpCn x inpH*inpW`. */
  function InputView(d: DeconvDims): View
  {
    View(0, d.numImg * d.InpCn(), d.InpPlane(), d.InpPlane())
  }

  lemma MatrixFits(rows: nat, cols: nat, len: nat)
    requires len == rows * cols
    ensures View(0, rows, cols, cols).Fits(len)
  {
    if rows > 0 {
      MulSucc(rows - 1, cols);
    }
  }

  /** Entry `i` of the transpose: row `i / inpCn`, column `i % inpCn`. */
  function TransposedEntry(d: DeconvDims, blob: seq<int>, i: nat): int
    requires d.Valid() && |blob| == d.InpCn() * d.KSize() && i < d.KSize() * d.InpCn()
  {
    MatrixFits(d.InpCn(), d.KSize(), |blob|);
    DivLess(i, d.InpCn(), d.KSize());
    Get(WeightsView(d), blob, i % d.InpCn(), i / d.InpCn())
  }

  /** `transpose(blobs[0].reshape(1, inpCn), weightsMat)` (line 1267). */
  function Transposed(d: DeconvDims, blob: seq<int>): (wm: seq<int>)
    requires d.Valid() && |blob| == d.InpCn() * d.KSize()
    ensures |wm| == d.KSize() * d.InpCn() && TransposedView(d).Fits(|wm|) && WeightsView(d).Fits(|blob|)
    ensures forall r, c :: 0 <= r < d.KSize() && 0 <= c < d.InpCn() ==>
      Get(TransposedView(d), wm, r, c) == Get(WeightsView(d), blob, c, r)
  {
    MatrixFits(d.KSize(), d.InpCn(), d.KSize() * d.InpCn());
    MatrixFits(d.InpCn(), d.KSize(), |blob|);
    var wm := seq(d.KSize() * d.InpCn(), i requires 0 <= i < d.KSize() * d.InpCn() => TransposedEntry(d, blob, i));
    assert forall r, c :: 0 <= r < d.KSize() && 0 <= c < d.InpCn() ==>
      Get(TransposedView(d), wm, r, c) == Get(WeightsView(d), blob, c, r) by {
      forall r, c | 0 <= r < d.KSize() && 0 <= c < d.InpCn()
        ensures Get(TransposedView(d), wm, r, c) == Get(WeightsView(d), blob, c, r)
      {
        FlatBound(r, d.KSize(), c, d.InpCn());
        FlatSplit(r, c, d.InpCn());
      }
    }
    wm
  }

  /** `wghtMat = weightsMat.colRange(g*inpGroupCn, (g + 1)*inpGroupCn)` (line 1293). */
  function AView(d: DeconvDims, g: nat): View
  {
    View(g * d.igc, d.KSize(), d.igc, d.InpCn())
  }

  /** `convMat = convBlob.rowRange((g + n*ngroups)*inpGroupCn, ...)` (line 1292). */
  function BView(d: DeconvDims, n: nat, g: nat): View
  {
    View((g + n * d.ngroups) * d.igc * d.InpPlane(), d.igc, d.InpPlane(), d.InpPlane())
  }

  /** The first entry of `dstMat = decnBlob.rowRange((g + n*ngroups)*outGroupCn, ...)` (line 1288). */
  function DstBase(d: DeconvDims, n: nat, g: nat): nat
    requires d.Valid()
  {
    (g + n * d.ngroups) * d.BlockSize()
  }

  /** `colMat`: the destination planes themselves when `is1x1`, else the
      internal buffer `internals[0]` (line 1289). */
  function CView(d: DeconvDims, n: nat, g: nat): View
    requires d.Valid()
  {
    View(if Is1x1(d.p) then DstBase(d, n, g) else 0, d.KSize(), d.InpPlane(), d.InpPlane())
  }

  /** Block `g + n*ngroups` lies inside `n*ngroups + ngroups` blocks. */
  lemma BlockIndexBound(n: nat, g: nat, numImg: nat, ngroups: nat)
    requires n < numImg && g < ngroups
    ensures g + n * ngroups + 1 <= numImg * ngroups
  {
    MulMonoLeft(n + 1, numImg, ngroups);
  }

  lemma OperandsFit(d: DeconvDims, wm: seq<int>, inp: seq<int>, clen: nat, n: nat, g: nat)
    requires d.Valid() && n < d.numImg && g < d.ngroups
    requires |wm| == d.KSize() * d.InpCn() && |inp| == d.numImg * d.InpCn() * d.InpPlane()
    requires Is1x1(d.p) ==> clen == d.OutLen()
    requires !Is1x1(d.p) ==> clen == d.KSize() * d.InpPlane()
    ensures Operands(AView(d, g), wm, BView(d, n, g), inp, CView(d, n, g), clen)
  {
    FactorsFit(d, wm, inp, n, g);
    if Is1x1(d.p) {
      DstFits(d, n, g);
    } else {
      RowBlockFits(0, d.KSize(), d.InpPlane(), d.KSize());
    }
  }

  /** In the 1x1 case `colMat` is `dstMat`, inside the output buffer. */
  lemma DstFits(d: DeconvDims, n: nat, g: nat)
    requires d.Valid() && n < d.numImg && g < d.ngroups && Is1x1(d.p)
    ensures CView(d, n, g).Fits(d.OutLen())
  {
    var plane := d.OutPlane();
    OneByOneView(d, n, g);
    BlockOfBlocks(n, g, d.numImg, d.ngroups, d.ogc, plane);
    assert DstBase(d, n, g) == (g + n * d.ngroups) * (d.ogc * plane);
    assert d.OutLen() == d.numImg * (d.ngroups * d.ogc) * plane;
  }

  /** Block `g + n*ngroups` of `numImg*ngroups` blocks of `rows` rows of `plane` entries fits. */
  lemma BlockOfBlocks(n: nat, g: nat, numImg: nat, ngroups: nat, rows: nat, plane: nat)
    requires n < numImg && g < ngroups
    ensures View((g + n * ngroups) * (rows * plane), rows, plane, plane).Fits(numImg * (ngroups * rows) * plane)
  {
    BlockIndexBound(n, g, numImg, ngroups);
    MulAssoc(numImg, ngroups, rows);
    BlockViewFits(g + n * ngroups, rows, plane, numImg * ngroups, numImg * (ngroups * rows));
  }

  /** Block `b` of `nb` blocks of `rows` rows of `plane` entries, as a view, fits. */
  lemma BlockViewFits(b: nat, rows: nat, plane: nat, nb: nat, total: nat)
    requires b + 1 <= nb && total == nb * rows
    ensures View(b * (rows * plane), rows, plane, plane).Fits(total * plane)
  {
    MulSucc(b, rows);
    MulMonoLeft(b + 1, nb, rows);
    RowBlockFits(b * rows, rows, plane, total);
    MulAssoc(b, rows, plane);
  }


  /** With a 1x1 kernel and no padding the column matrix has one row per
      output channel of the group and one column per output pixel. */
  lemma OneByOneSizes(d: DeconvDims)
    requires d.Valid() && Is1x1(d.p)
    ensures d.KSize() == d.ogc && d.InpPlane() == d.OutPlane()
  {
    Is1x1SameExtent(d.p, d.inpH, d.inpW);
  }

  lemma BlockIsColMatrix(d: DeconvDims)
    requires d.Valid() && Is1x1(d.p)
    ensures d.BlockSize() == d.KSize() * d.InpPlane()
  {
    OneByOneSizes(d);
  }

  /** A touched entry lies in the view's first `nrows` rows. */
  lemma TouchedRows(cv: View, lo: nat, hi: nat, nrows: nat, i: int)
    requires cv.step >= 1 && Touched(cv, lo, hi, nrows, i)
    ensures cv.base <= i < cv.base + nrows * cv.step
  {
    DivLess(i - cv.base, cv.step, nrows);
  }

  /** The same, as the view of `dstMat` in the 1x1 case. */
  lemma OneByOneView(d: DeconvDims, n: nat, g: nat)
    requires d.Valid() && Is1x1(d.p)
    ensures CView(d, n, g) == View(DstBase(d, n, g), d.ogc, d.OutPlane(), d.OutPlane())
  {
    OneByOneSizes(d);
  }

  // ------------------------------------------------------------ colMat as written

  /** `colMat` as line 1289 chooses it, with the shape `MatMulInvoker` writes
      (`ksize` rows of `inpH*inpW` entries): `dstMat`, whose rows are
      `outH*outW` apart, whenever `is1x1()` holds as written; else the dense
      internal buffer. */
  function AsWrittenCView(d: DeconvDims, n: nat, g: nat): View
    requires d.Valid()
  {
    if Is1x1AsWritten(d.p) then View(DstBase(d, n, g), d.KSize(), d.InpPlane(), d.OutPlane())
    else View(0, d.KSize(), d.InpPlane(), d.InpPlane())
  }

  /** Unless a 1x1 kernel is padded, the model's `colMat` is the source's. */
  lemma AsWrittenAgrees(d: DeconvDims, n: nat, g: nat)
    requires d.Valid() && (Is1x1AsWritten(d.p) ==> Is1x1(d.p))
    ensures AsWrittenCView(d, n, g) == CView(d, n, g)
  {
    if Is1x1(d.p) {
      OneByOneSizes(d);
    }
  }

  /** With a padded 1x1 kernel the output plane is smaller than the input
      plane, so the source's `colMat` has rows longer than their step (they
      overlap) and the last row of the last group of the last image ends
      past the end of the output. */
  lemma AsWrittenOverrun(d: DeconvDims)
    requires d.Valid() && d.numImg >= 1 && Is1x1AsWritten(d.p) && !Is1x1(d.p)
    ensures d.OutPlane() < d.InpPlane()
    ensures var cv := AsWrittenCView(d, d.numImg - 1, d.ngroups - 1);
      cv.cols > cv.step && cv.base + (cv.rows - 1) * cv.step + cv.cols > d.OutLen()
  {
    assert d.OutH() + 2 * d.p.padH == d.inpH && d.OutW() + 2 * d.p.padW == d.inpW;
    SmallerPlane(d.OutH(), d.OutW(), d.inpH, d.inpW);
    var nb := d.numImg * d.ngroups;
    assert d.ngroups - 1 + (d.numImg - 1) * d.ngroups == nb - 1;
    MulAtLeast(d.numImg, d.ngroups);
    LastRowPastEnd(nb, d.ogc, d.OutPlane(), d.InpPlane());
    MulAssoc(d.numImg, d.ngroups, d.ogc);
  }

  /** A plane no larger in either extent, and smaller in one, has fewer points. */
  lemma SmallerPlane(oh: nat, ow: nat, ih: nat, iw: nat)
    requires 1 <= oh <= ih && 1 <= ow <= iw && (oh < ih || ow < iw)
    ensures oh * ow < ih * iw
  {
    MulMonoLeft(oh, ih, ow);
    MulMonoLeft(ow, iw, ih);
    if oh < ih {
      assert ih * ow - oh * ow == (ih - oh) * ow;
      MulAtLeast(ih - oh, ow);
    } else {
      assert iw * ih - ow * ih == (iw - ow) * ih;
      MulAtLeast(iw - ow, ih);
    }
  }

  /** Row `rows - 1` of block `nb - 1` of `nb` blocks of `rows` rows `step`
      apart, `cols > step` entries long, ends past the `nb*rows*step` entries. */
  lemma LastRowPastEnd(nb: nat, rows: nat, step: nat, cols: nat)
    requires nb >= 1 && rows >= 1 && step < cols
    ensures (nb - 1) * (rows * step) + (rows - 1) * step + cols > nb * rows * step
  {
    MulSucc(nb - 1, rows * step);
    MulSucc(rows - 1, step);
    MulAssoc(nb, rows, step);
  }


  /** `computeColRowShape` (lines 985-995) on the layer's own blobs and input
      is `ksize x inpH*inpW`, the extent of the column buffer of the groups. */
  lemma ColRowShapeIsColBuffer(d: DeconvDims)
    requires d.Valid()
    ensures DeconvColRowShape(d.p, d.igc, d.InpCn(), d.inpH, d.inpW, d.OutCn()) == [d.KSize(), d.InpPlane()]
  {
    DivModUnique(d.InpCn(), d.igc, d.ngroups, 0);
    DivModUnique(d.OutCn(), d.ngroups, d.ogc, 0);
    MulAssoc(d.ogc, d.p.kernelH, d.p.kernelW);
  }

  /** `getMemoryShapes` (lines 997-1033) on blobs and an input of these
      extents (and a bias, if any, of one entry per output channel) succeeds;
      its output is `(numImg, outCn, outH, outW)`, and its
      column buffer is absent exactly when `is1x1()` holds as written and is
      otherwise `ksize x inpH*inpW`. */
  lemma MemoryShapesOfDims(d: DeconvDims, blobs: seq<Shape>)
    requires d.Valid()
    requires |blobs| >= 1 && blobs[0] == [d.OutCn(), d.igc, d.p.kernelH, d.p.kernelW] && BiasShapeOk(blobs)
    ensures var r := DeconvMemoryShapes(d.p, blobs, [[d.numImg, d.InpCn(), d.inpH, d.inpW]]);
      r.Success? && r.value.0 == [[d.numImg, d.OutCn(), d.OutH(), d.OutW()]] &&
      r.value.1[0] == (if Is1x1AsWritten(d.p) then [] else [d.KSize(), d.InpPlane()])
  {
    var inputs := [[d.numImg, d.InpCn(), d.inpH, d.inpW]];
    GroupsOfDims(d);
    ColRowShapeIsColBuffer(d);
    var r := DeconvMemoryShapes(d.p, blobs, inputs);
    assert r.Success?;
    var outs := r.value.0;
    assert |outs| == 1 && outs[0] == [d.numImg, d.OutCn(), d.OutH(), d.OutW()];
  }

  /** `ngroups` groups of `igc` input and `ogc` output channels pass the
      channel checks of lines 1012-1016. */
  lemma GroupsOfDims(d: DeconvDims)
    requires d.Valid()
    ensures DeconvGroupsOk(d.InpCn(), d.igc, d.OutCn())
  {
    ChannelsSplit(d.ngroups, d.igc, d.ogc);
  }

  /** `ngroups*igc` input and `ngroups*ogc` output channels split into `ngroups` groups of `igc` weights. */
  lemma ChannelsSplit(ngroups: nat, igc: nat, ogc: nat)
    requires ngroups >= 1 && igc >= 1
    ensures DeconvGroupsOk(ngroups * igc, igc, ngroups * ogc)
  {
    var inpCn, outCn := ngroups * igc, ngroups * ogc;
    ModOfMultiple(ngroups, igc);
    assert inpCn % igc == 0 && inpCn / igc == ngroups;
    MulComm(ngroups, ogc);
    ModOfMultiple(ogc, ngroups);
    assert outCn % ngroups == 0;
    MulAtLeast(ngroups, igc);
    DeconvGroupsExact(inpCn, igc, outCn);
  }




  /** `wghtMat` and `convMat` lie inside their buffers. */
  lemma FactorsFit(d: DeconvDims, wm: seq<int>, inp: seq<int>, n: nat, g: nat)
    requires d.Valid() && n < d.numImg && g < d.ngroups
    requires |wm| == d.KSize() * d.InpCn() && |inp| == d.numImg * d.InpCn() * d.InpPlane()
    ensures AView(d, g).Fits(|wm|) && BView(d, n, g).Fits(|inp|)
  {
    ColumnBlockFits(g, d.igc, d.ngroups, d.KSize());
    GroupRowsFit(n, g, d.numImg, d.ngroups, d.igc, d.InpPlane());
  }

  /** The `igc` rows of block `g + n*ngroups` of a dense `numImg*ngroups*igc x p` matrix. */
  lemma GroupRowsFit(n: nat, g: nat, numImg: nat, ngroups: nat, igc: nat, p: nat)
    requires n < numImg && g < ngroups
    ensures View((g + n * ngroups) * igc * p, igc, p, p).Fits(numImg * (ngroups * igc) * p)
  {
    var b := g + n * ngroups;
    BlockIndexBound(n, g, numImg, ngroups);
    MulSucc(b, igc);
    MulMonoLeft(b + 1, numImg * ngroups, igc);
    MulAssoc(numImg, ngroups, igc);
    MulNonneg(b, igc);
    RowBlockFits(b * igc, igc, p, numImg * (ngroups * igc));
  }

  /** Rows `[first, first + rows)` of a dense matrix of `total` rows. */
  lemma RowBlockFits(first: nat, rows: nat, cols: nat, total: nat)
    requires first + rows <= total
    ensures View(first * cols, rows, cols, cols).Fits(total * cols)
  {
    if rows > 0 {
      MulSucc(first + rows - 1, cols);
      MulMonoLeft(first + rows, total, cols);
      assert first * cols + (rows - 1) * cols == (first + rows - 1) * cols;
    }
  }

  /** Columns `[g*width, (g + 1)*width)` of a matrix of `rows` rows and
      `ngroups*width` columns. */
  lemma ColumnBlockFits(g: nat, width: nat, ngroups: nat, rows: nat)
    requires g < ngroups
    ensures View(g * width, rows, width, ngroups * width).Fits(rows * (ngroups * width))
  {
    MulMonoLeft(g + 1, ngroups, width);
    if rows > 0 {
      MulSucc(rows - 1, ngroups * width);
    }
  }

  // ------------------------------------------------------------ the expected output

  /** Geometry of the col2im stage: `outGroupCn` channels of `outH x outW`. */
  function Geom(d: DeconvDims): Col2ImGeom
    requires d.Valid()
  {
    Col2ImGeom(d.ogc, d.OutH(), d.OutW(), d.p.kernelH, d.p.kernelW, d.p.padH, d.p.padW, d.p.strideH, d.p.strideW)
  }

  /** The col2im grid is the input plane: `height_col == inpH`, `width_col == inpW`. */
  lemma GridIsInput(d: DeconvDims)
    requires d.Valid()
    ensures Geom(d).Valid() && Geom(d).HCol() == d.inpH && Geom(d).WCol() == d.inpW
    ensures Geom(d).Plane() == d.InpPlane() && Geom(d).Total() == d.BlockSize()
    ensures d.ogc * d.p.kernelH * d.p.kernelW * Geom(d).Plane() == d.KSize() * d.InpPlane()
  {
    ConvOfDeconvSize(d.inpH, d.p.kernelH, d.p.padH, d.p.strideH, d.p.adjH);
    ConvOfDeconvSize(d.inpW, d.p.kernelW, d.p.padW, d.p.strideW, d.p.adjW);
    assert Geom(d).Total() == d.ogc * (d.OutH() * d.OutW());
  }

  /** Entry `i` of the column matrix `wghtMat * convMat`. */
  function ColEntry(d: DeconvDims, blob: seq<int>, inp: seq<int>, n: nat, g: nat, i: nat): int
    requires d.Valid() && n < d.numImg && g < d.ngroups
    requires |blob| == d.InpCn() * d.KSize() && |inp| == d.numImg * d.InpCn() * d.InpPlane()
    requires i < d.KSize() * d.InpPlane()
  {
    var wm := Transposed(d, blob);
    FactorsFit(d, wm, inp, n, g);
    MulAtLeast(d.inpH, d.inpW);
    DivLess(i, d.InpPlane(), d.KSize());
    Prod(AView(d, g), wm, BView(d, n, g), inp, i / d.InpPlane(), i % d.InpPlane(), d.igc)
  }

  /** The column matrix of image `n`, group `g`: `ksize x inpH*inpW`, row-major. */
  function ColMatrix(d: DeconvDims, blob: seq<int>, inp: seq<int>, n: nat, g: nat): (cm: seq<int>)
    requires d.Valid() && n < d.numImg && g < d.ngroups
    requires |blob| == d.InpCn() * d.KSize() && |inp| == d.numImg * d.InpCn() * d.InpPlane()
    ensures |cm| == d.KSize() * d.InpPlane() && ColFits(Geom(d), cm)
  {
    GridIsInput(d);
    seq(d.KSize() * d.InpPlane(), i requires 0 <= i < d.KSize() * d.InpPlane() => ColEntry(d, blob, inp, n, g, i))
  }

  // ------------------------------------------------------------ the column matrix, directly

  /** Row `r` of the weights of input channel `ic`: `blobs[0]` is `inpCn x ksize`. */
  function WeightAt(d: DeconvDims, blob: seq<int>, ic: nat, r: nat): int
    requires |blob| == d.InpCn() * d.KSize() && ic < d.InpCn() && r < d.KSize()
  {
    MatrixFits(d.InpCn(), d.KSize(), |blob|);
    Get(WeightsView(d), blob, ic, r)
  }

  /** Channel `ic` of image `n` at plane position `q`. */
  function InputAt(d: DeconvDims, inp: seq<int>, n: nat, ic: nat, q: nat): int
    requires |inp| == d.numImg * d.InpCn() * d.InpPlane() && n < d.numImg && ic < d.InpCn() && q < d.InpPlane()
  {
    MatrixFits(d.numImg * d.InpCn(), d.InpPlane(), |inp|);
    FlatBound(n, d.numImg, ic, d.InpCn());
    Get(InputView(d), inp, n * d.InpCn() + ic, q)
  }

  /** `sum_{ic < k} W[g*inpGroupCn + ic][r] * X[n][g*inpGroupCn + ic][q]`:
      the first `k` input channels of group `g`. */
  function ChannelSum(d: DeconvDims, blob: seq<int>, inp: seq<int>, n: nat, g: nat, r: nat, q: nat, k: nat): int
    requires |blob| == d.InpCn() * d.KSize() && |inp| == d.numImg * d.InpCn() * d.InpPlane()
    requires n < d.numImg && g < d.ngroups && r < d.KSize() && q < d.InpPlane() && k <= d.igc
  {
    if k == 0 then 0
    else
      FlatBound(g, d.ngroups, k - 1, d.igc);
      ChannelSum(d, blob, inp, n, g, r, q, k - 1)
        + WeightAt(d, blob, g * d.igc + k - 1, r) * InputAt(d, inp, n, g * d.igc + k - 1, q)
  }

  /** The `k`-th factors of `wghtMat * convMat` are a weight and an input entry. */
  lemma FactorsAt(d: DeconvDims, blob: seq<int>, inp: seq<int>, n: nat, g: nat, r: nat, q: nat, k: nat)
    requires d.Valid() && |blob| == d.InpCn() * d.KSize() && |inp| == d.numImg * d.InpCn() * d.InpPlane()
    requires n < d.numImg && g < d.ngroups && r < d.KSize() && q < d.InpPlane() && k < d.igc
    ensures AView(d, g).Fits(|Transposed(d, blob)|) && BView(d, n, g).Fits(|inp|)
    ensures g * d.igc + k < d.InpCn()
    ensures Get(AView(d, g), Transposed(d, blob), r, k) == WeightAt(d, blob, g * d.igc + k, r)
    ensures Get(BView(d, n, g), inp, k, q) == InputAt(d, inp, n, g * d.igc + k, q)
  {
    var wm := Transposed(d, blob);
    FactorsFit(d, wm, inp, n, g);
    FlatBound(g, d.ngroups, k, d.igc);
    assert Get(AView(d, g), wm, r, k) == Get(TransposedView(d), wm, r, g * d.igc + k);
    InputOffset(n, g, k, q, d.ngroups, d.igc, d.InpPlane());
  }

  lemma InputOffset(n: nat, g: nat, k: nat, q: nat, ngroups: nat, igc: nat, p: nat)
    ensures (g + n * ngroups) * igc * p + k * p + q == (n * (ngroups * igc) + (g * igc + k)) * p + q
  {
    assert (g + n * ngroups) * igc == n * (ngroups * igc) + g * igc;
  }

  /** The matrix product over the first `k` channels is their channel sum. */
  lemma {:induction false} ProdIsChannelSum(d: DeconvDims, blob: seq<int>, inp: seq<int>, n: nat, g: nat,
                                            r: nat, q: nat, k: nat)
    requires d.Valid() && |blob| == d.InpCn() * d.KSize() && |inp| == d.numImg * d.InpCn() * d.InpPlane()
    requires n < d.numImg && g < d.ngroups && r < d.KSize() && q < d.InpPlane() && k <= d.igc
    ensures AView(d, g).Fits(|Transposed(d, blob)|) && BView(d, n, g).Fits(|inp|)
    ensures Prod(AView(d, g), Transposed(d, blob), BView(d, n, g), inp, r, q, k)
         == ChannelSum(d, blob, inp, n, g, r, q, k)
  {
    FactorsFit(d, Transposed(d, blob), inp, n, g);
    if k > 0 {
      ProdIsChannelSum(d, blob, inp, n, g, r, q, k - 1);
      FactorsAt(d, blob, inp, n, g, r, q, k - 1);
    }
  }

  /** Entry `(r, q)` of the column matrix of image `n`, group `g` is the sum,
      over the group's input channels `ic`, of weight `(ic, r)` times input
      channel `ic` at `q`: `wghtMat*convMat` is the group's slice of
      `W^T * X`. */
  lemma ColMatrixIsChannelSum(d: DeconvDims, blob: seq<int>, inp: seq<int>, n: nat, g: nat, r: nat, q: nat)
    requires d.Valid() && |blob| == d.InpCn() * d.KSize() && |inp| == d.numImg * d.InpCn() * d.InpPlane()
    requires n < d.numImg && g < d.ngroups && r < d.KSize() && q < d.InpPlane()
    ensures 0 <= r * d.InpPlane() && r * d.InpPlane() + q < |ColMatrix(d, blob, inp, n, g)|
    ensures ColMatrix(d, blob, inp, n, g)[r * d.InpPlane() + q] == ChannelSum(d, blob, inp, n, g, r, q, d.igc)
  {
    MulNonneg(r, d.InpPlane());
    FlatBound(r, d.KSize(), q, d.InpPlane());
    FlatSplit(r, q, d.InpPlane());
    ProdIsChannelSum(d, blob, inp, n, g, r, q, d.igc);
  }

  /** The output channels of group `g` lie inside the output channels. */
  lemma GroupSpan(d: DeconvDims, g: nat)
    requires d.Valid() && g < d.ngroups
    ensures 0 <= g * d.ogc && g * d.ogc + d.ogc <= d.OutCn()
  {
    MulSucc(g, d.ogc);
    MulMonoLeft(g + 1, d.ngroups, d.ogc);
  }

  /** `curBias`: the biases of the channels of group `g` (zeros without biases). */
  function GroupBias(d: DeconvDims, bias: seq<int>, g: nat): (cb: seq<int>)
    requires d.Valid() && g < d.ngroups
    ensures |cb| == d.ogc
    ensures forall c :: 0 <= c < d.ogc ==> g * d.ogc + c < d.OutCn() && cb[c] == ConvStripe.EffectiveBias(bias, d.OutCn())[g * d.ogc + c]
  {
    GroupSpan(d, g);
    var lo := g * d.ogc;
    ConvStripe.EffectiveBias(bias, d.OutCn())[lo .. lo + d.ogc]
  }

  /** Entry `index` of the output block of image `n`, group `g`: the
      channel's bias plus col2im of the column matrix. */
  function GroupValue(d: DeconvDims, blob: seq<int>, inp: seq<int>, bias: seq<int>, n: nat, g: nat, index: nat): int
    requires d.Valid() && n < d.numImg && g < d.ngroups && index < d.BlockSize()
    requires |blob| == d.InpCn() * d.KSize() && |inp| == d.numImg * d.InpCn() * d.InpPlane()
  {
    GridIsInput(d);
    ChanBound(Geom(d), index);
    var c := Chan(Geom(d), index);
    GroupBias(d, bias, g)[c] + ImValue(Geom(d), ColMatrix(d, blob, inp, n, g), c, PixRow(Geom(d), index), PixCol(Geom(d), index))
  }

  /** The output block of image `n`, group `g`. */
  function BlockValues(d: DeconvDims, blob: seq<int>, inp: seq<int>, bias: seq<int>, n: nat, g: nat): (v: seq<int>)
    requires d.Valid() && n < d.numImg && g < d.ngroups
    requires |blob| == d.InpCn() * d.KSize() && |inp| == d.numImg * d.InpCn() * d.InpPlane()
    ensures |v| == d.BlockSize()
  {
    seq(d.BlockSize(), index requires 0 <= index < d.BlockSize() => GroupValue(d, blob, inp, bias, n, g, index))
  }

  /** The first `k` output blocks; block `b` is image `b / ngroups`, group `b % ngroups`. */
  function Blocks(d: DeconvDims, blob: seq<int>, inp: seq<int>, bias: seq<int>, k: nat): (v: seq<int>)
    requires d.Valid() && k <= d.numImg * d.ngroups
    requires |blob| == d.InpCn() * d.KSize() && |inp| == d.numImg * d.InpCn() * d.InpPlane()
    ensures |v| == k * d.BlockSize()
  {
    if k == 0 then []
    else
      MulSucc(k - 1, d.BlockSize());
      DivLess(k - 1, d.ngroups, d.numImg);
      Blocks(d, blob, inp, bias, k - 1) + BlockValues(d, blob, inp, bias, (k - 1) / d.ngroups, (k - 1) % d.ngroups)
  }

  /** Block `b` of the first `k` blocks starts at `b * blockSize`. */
  lemma {:induction false} BlockEntry(d: DeconvDims, blob: seq<int>, inp: seq<int>, bias: seq<int>, k: nat, b: nat, index: nat)
    requires d.Valid() && b < k <= d.numImg * d.ngroups && index < d.BlockSize()
    requires |blob| == d.InpCn() * d.KSize() && |inp| == d.numImg * d.InpCn() * d.InpPlane()
    ensures b / d.ngroups < d.numImg && b * d.BlockSize() + index < k * d.BlockSize()
    ensures Blocks(d, blob, inp, bias, k)[b * d.BlockSize() + index]
         == BlockValues(d, blob, inp, bias, b / d.ngroups, b % d.ngroups)[index]
  {
    DivLess(b, d.ngroups, d.numImg);
    MulSucc(b, d.BlockSize());
    MulMonoLeft(b + 1, k, d.BlockSize());
    if b < k - 1 {
      BlockEntry(d, blob, inp, bias, k - 1, b, index);
      MulMonoLeft(b + 1, k - 1, d.BlockSize());
    }
  }
  // ------------------------------------------------------------ one group

  /** A dense `C` (`step == cols`) holding a finished product: entry `idx`
      is row `idx / cols`, column `idx % cols` of `A*B`. */
  lemma DenseEntry(cv: View, s: seq<int>, o: seq<int>, av: View, a: seq<int>, bv: View, b: seq<int>, idx: nat)
    requires RowsDone(cv, s, o, av, a, bv, b, 0, bv.cols, av.rows) && cv.step == cv.cols
    requires idx < av.rows * cv.cols
    ensures idx / cv.cols < av.rows && idx % cv.cols < bv.cols && cv.base + idx < |s|
    ensures s[cv.base + idx] == Prod(av, a, bv, b, idx / cv.cols, idx % cv.cols, av.cols)
  {
    var r, j := idx / cv.cols, idx % cv.cols;
    DivLess(idx, cv.cols, av.rows);
    IdxBound(cv, |s|, r, j);
    assert cv.Idx(r, j) == cv.base + idx;
  }

  /** After `wghtMat * convMat`, `colMat` holds the column matrix. */
  lemma HoldsColMatrix(d: DeconvDims, blob: seq<int>, inp: seq<int>, n: nat, g: nat, s: seq<int>, o: seq<int>, idx: nat)
    requires d.Valid() && n < d.numImg && g < d.ngroups
    requires |blob| == d.InpCn() * d.KSize() && |inp| == d.numImg * d.InpCn() * d.InpPlane()
    requires RowsDone(CView(d, n, g), s, o, AView(d, g), Transposed(d, blob), BView(d, n, g), inp,
                      0, d.InpPlane(), d.KSize())
    requires idx < d.KSize() * d.InpPlane()
    ensures CView(d, n, g).base + idx < |s| && s[CView(d, n, g).base + idx] == ColMatrix(d, blob, inp, n, g)[idx]
  {
    DenseEntry(CView(d, n, g), s, o, AView(d, g), Transposed(d, blob), BView(d, n, g), inp, idx);
  }

  /** In the 1x1 case the entries `MatMul` may change lie in the group's block. */
  lemma TouchedInBlock(d: DeconvDims, n: nat, g: nat, i: int)
    requires d.Valid() && Is1x1(d.p) && Touched(CView(d, n, g), 0, d.InpPlane(), d.KSize(), i)
    ensures DstBase(d, n, g) <= i < DstBase(d, n, g) + d.BlockSize()
  {
    var cv := CView(d, n, g);
    TouchedRows(cv, 0, d.InpPlane(), d.KSize(), i);
    BlockIsColMatrix(d);
  }


  /** The block of image `n`, group `g` lies inside the output. */
  lemma BlockInside(d: DeconvDims, n: nat, g: nat)
    requires d.Valid() && n < d.numImg && g < d.ngroups
    ensures DstBase(d, n, g) + d.BlockSize() <= d.OutLen()
  {
    BlockIndexBound(n, g, d.numImg, d.ngroups);
    MulSucc(g + n * d.ngroups, d.BlockSize());
    MulMonoLeft(g + n * d.ngroups + 1, d.numImg * d.ngroups, d.BlockSize());
    assert d.OutLen() == d.numImg * d.ngroups * d.BlockSize();
  }

  /** In the 1x1 case `dstMat` of image `n`, group `g` holds the column matrix. */
  predicate DirectHolds(d: DeconvDims, blob: seq<int>, inp: seq<int>, n: nat, g: nat, s: seq<int>)
    requires d.Valid() && n < d.numImg && g < d.ngroups
    requires |blob| == d.InpCn() * d.KSize() && |inp| == d.numImg * d.InpCn() * d.InpPlane()
  {
    DstBase(d, n, g) + d.BlockSize() <= |s| &&
    forall index :: 0 <= index < d.BlockSize() ==>
      index < |ColMatrix(d, blob, inp, n, g)| && s[DstBase(d, n, g) + index] == ColMatrix(d, blob, inp, n, g)[index]
  }

  /** In the 1x1 case `MatMul` writes the column matrix straight into the
      group's block and nothing else. */
  lemma DirectProduct(d: DeconvDims, blob: seq<int>, inp: seq<int>, n: nat, g: nat, s: seq<int>, o: seq<int>)
    requires d.Valid() && n < d.numImg && g < d.ngroups && Is1x1(d.p)
    requires |blob| == d.InpCn() * d.KSize() && |inp| == d.numImg * d.InpCn() * d.InpPlane()
    requires RowsDone(CView(d, n, g), s, o, AView(d, g), Transposed(d, blob), BView(d, n, g), inp,
                      0, d.InpPlane(), d.KSize())
    ensures DirectHolds(d, blob, inp, n, g, s)
    ensures DstBase(d, n, g) + d.BlockSize() <= |s|
    ensures s[..DstBase(d, n, g)] == o[..DstBase(d, n, g)]
    ensures s[DstBase(d, n, g) + d.BlockSize()..] == o[DstBase(d, n, g) + d.BlockSize()..]
  {
    DirectFrame(d, blob, inp, n, g, s, o);
    DirectValues(d, blob, inp, n, g, s, o);
  }

  /** The block has the column matrix's size. */
  lemma DirectSize(d: DeconvDims)
    requires d.Valid() && Is1x1(d.p)
    ensures d.BlockSize() == d.KSize() * d.InpPlane() && d.KSize() == d.ogc
  {
    Is1x1SameExtent(d.p, d.inpH, d.inpW);
  }

  lemma DirectValues(d: DeconvDims, blob: seq<int>, inp: seq<int>, n: nat, g: nat, s: seq<int>, o: seq<int>)
    requires d.Valid() && n < d.numImg && g < d.ngroups && Is1x1(d.p)
    requires |blob| == d.InpCn() * d.KSize() && |inp| == d.numImg * d.InpCn() * d.InpPlane()
    requires RowsDone(CView(d, n, g), s, o, AView(d, g), Transposed(d, blob), BView(d, n, g), inp,
                      0, d.InpPlane(), d.KSize())
    requires DstBase(d, n, g) + d.BlockSize() <= |s|
    ensures DirectHolds(d, blob, inp, n, g, s)
  {
    var dst, bs := DstBase(d, n, g), d.BlockSize();
    var cm := ColMatrix(d, blob, inp, n, g);
    DirectSize(d);
    assert CView(d, n, g).base == dst;
    forall index | 0 <= index < bs
      ensures index < |cm| && s[dst + index] == cm[index]
    {
      HoldsColMatrix(d, blob, inp, n, g, s, o, index);
    }
  }

  lemma DirectFrame(d: DeconvDims, blob: seq<int>, inp: seq<int>, n: nat, g: nat, s: seq<int>, o: seq<int>)
    requires d.Valid() && n < d.numImg && g < d.ngroups && Is1x1(d.p)
    requires |blob| == d.InpCn() * d.KSize() && |inp| == d.numImg * d.InpCn() * d.InpPlane()
    requires RowsDone(CView(d, n, g), s, o, AView(d, g), Transposed(d, blob), BView(d, n, g), inp,
                      0, d.InpPlane(), d.KSize())
    ensures DstBase(d, n, g) + d.BlockSize() <= |s|
    ensures s[..DstBase(d, n, g)] == o[..DstBase(d, n, g)]
    ensures s[DstBase(d, n, g) + d.BlockSize()..] == o[DstBase(d, n, g) + d.BlockSize()..]
  {
    var dst, bs := DstBase(d, n, g), d.BlockSize();
    DirectSize(d);
    DirectEnd(d, n, g, |s|);
    forall i | 0 <= i < |s| && !(dst <= i < dst + bs)
      ensures s[i] == o[i]
    {
      if Touched(CView(d, n, g), 0, d.InpPlane(), d.KSize(), i) {
        TouchedInBlock(d, n, g, i);
      }
    }
  }

  /** The 1x1 `colMat` ends where the group's block ends. */
  lemma DirectEnd(d: DeconvDims, n: nat, g: nat, len: nat)
    requires d.Valid() && Is1x1(d.p) && CView(d, n, g).Fits(len)
    ensures DstBase(d, n, g) + d.BlockSize() <= len
  {
    KSizePos(d);
    ViewEnd(CView(d, n, g), len);
    DirectSize(d);
  }

  lemma KSizePos(d: DeconvDims)
    requires d.Valid()
    ensures d.KSize() >= 1
  {
    MulAtLeast(d.ogc, d.p.kernelH);
    MulAtLeast(d.ogc * d.p.kernelH, d.p.kernelW);
    MulAtLeast(d.p.kernelH, d.ogc);
    MulAtLeast(d.p.kernelW, d.ogc * d.p.kernelH);
  }

  /** A dense view ends `rows*step` after its base. */
  lemma ViewEnd(v: View, len: nat)
    requires v.Fits(len) && v.rows >= 1 && v.cols == v.step
    ensures v.base + v.rows * v.step <= len
  {
    MulSucc(v.rows - 1, v.step);
  }

  /** col2im of the column matrix into the group's block: the block gets
      its values and the rest of the buffer stays as in `o`. */
  lemma BlockFromCol2Im(d: DeconvDims, blob: seq<int>, inp: seq<int>, bias: seq<int>, n: nat, g: nat,
                        s: seq<int>, o: seq<int>, col: seq<int>, is1x1: bool)
    requires d.Valid() && n < d.numImg && g < d.ngroups
    requires |blob| == d.InpCn() * d.KSize() && |inp| == d.numImg * d.InpCn() * d.InpPlane()
    requires ImDone(Geom(d), s, o, col, DstBase(d, n, g), GroupBias(d, bias, g), is1x1, 0, d.BlockSize())
    requires is1x1 ==> Is1x1(d.p) && DirectHolds(d, blob, inp, n, g, o)
    requires !is1x1 ==> col == ColMatrix(d, blob, inp, n, g)
    ensures DstBase(d, n, g) + d.BlockSize() <= |s|
    ensures s[DstBase(d, n, g)..DstBase(d, n, g) + d.BlockSize()] == BlockValues(d, blob, inp, bias, n, g)
    ensures s[..DstBase(d, n, g)] == o[..DstBase(d, n, g)]
    ensures s[DstBase(d, n, g) + d.BlockSize()..] == o[DstBase(d, n, g) + d.BlockSize()..]
  {
    var dst, bs := DstBase(d, n, g), d.BlockSize();
    GridIsInput(d);
    forall index | 0 <= index < bs
      ensures s[dst + index] == BlockValues(d, blob, inp, bias, n, g)[index]
    {
      Col2ImEntry(d, blob, inp, bias, n, g, s, o, col, is1x1, index);
    }
    assert s[dst..dst + bs] == BlockValues(d, blob, inp, bias, n, g);
  }

  /** One entry of the block after col2im. */
  lemma Col2ImEntry(d: DeconvDims, blob: seq<int>, inp: seq<int>, bias: seq<int>, n: nat, g: nat,
                    s: seq<int>, o: seq<int>, col: seq<int>, is1x1: bool, index: nat)
    requires d.Valid() && n < d.numImg && g < d.ngroups && index < d.BlockSize()
    requires |blob| == d.InpCn() * d.KSize() && |inp| == d.numImg * d.InpCn() * d.InpPlane()
    requires ImDone(Geom(d), s, o, col, DstBase(d, n, g), GroupBias(d, bias, g), is1x1, 0, d.BlockSize())
    requires is1x1 ==> Is1x1(d.p) && DirectHolds(d, blob, inp, n, g, o)
    requires !is1x1 ==> col == ColMatrix(d, blob, inp, n, g)
    ensures s[DstBase(d, n, g) + index] == GroupValue(d, blob, inp, bias, n, g, index)
  {
    var geo, dst, cb := Geom(d), DstBase(d, n, g), GroupBias(d, bias, g);
    var cm := ColMatrix(d, blob, inp, n, g);
    GridIsInput(d);
    ChanBound(geo, index);
    var c, y, x := Chan(geo, index), PixRow(geo, index), PixCol(geo, index);
    assert s[dst + index] == Expected(geo, o, col, dst, cb, is1x1, index);
    if is1x1 {
      Is1x1SameExtent(d.p, d.inpH, d.inpW);
      DirectCopy(geo, cm, index);
      assert Expected(geo, o, col, dst, cb, is1x1, index) == o[dst + index] + cb[c];
    } else {
      assert Expected(geo, o, col, dst, cb, is1x1, index) == ImValue(geo, cm, c, y, x) + cb[c];
    }
    assert GroupValue(d, blob, inp, bias, n, g, index) == cb[c] + ImValue(geo, cm, c, y, x);
  }

  /** `curBiasMat`: the rows of the biases that belong to group `g` (line 1293). */
  method CurBias(d: DeconvDims, bias: seq<int>, biases: seq<int>, g: nat) returns (curBias: seq<int>)
    requires d.Valid() && g < d.ngroups && biases == ConvStripe.EffectiveBias(bias, d.OutCn())
    ensures curBias == GroupBias(d, bias, g)
  {
    GroupSpan(d, g);
    var lo := g * d.ogc;
    curBias := biases[lo .. lo + d.ogc];
  }

  /** Lines 1288-1303 for image `n` and group `g`: `colMat = wghtMat*convMat`,
      then col2im of `colMat` into `dstMat` with the group's biases. The
      group's block gets its values and no other output entry changes.
      The branch is taken on `Is1x1`, which also asks for zero padding:
      `AsWrittenAgrees` shows it is the source's choice of `colMat` whenever
      that one fits, and `AsWrittenOverrun` why it does not with padding. */
  method DeconvGroup(d: DeconvDims, blob: seq<int>, wm: seq<int>, inp: seq<int>, bias: seq<int>, biases: seq<int>,
                     out: array<int>, colbuf: array<int>, n: nat, g: nat, nstripes: nat)
    requires d.Valid() && n < d.numImg && g < d.ngroups && nstripes >= 1
    requires |blob| == d.InpCn() * d.KSize() && wm == Transposed(d, blob)
    requires |inp| == d.numImg * d.InpCn() * d.InpPlane() && biases == ConvStripe.EffectiveBias(bias, d.OutCn())
    requires out.Length == d.OutLen() && (!Is1x1(d.p) ==> colbuf.Length == d.KSize() * d.InpPlane())
    requires out != colbuf
    modifies out, colbuf
    ensures DstBase(d, n, g) + d.BlockSize() <= out.Length
    ensures out[DstBase(d, n, g)..DstBase(d, n, g) + d.BlockSize()] == BlockValues(d, blob, inp, bias, n, g)
    ensures out[..DstBase(d, n, g)] == old(out[..DstBase(d, n, g)])
    ensures out[DstBase(d, n, g) + d.BlockSize()..] == old(out[DstBase(d, n, g) + d.BlockSize()..])
  {
    var curBias := CurBias(d, bias, biases, g);
    if Is1x1(d.p) {
      DirectGroup(d, blob, wm, inp, bias, curBias, out, n, g, nstripes);
    } else {
      ColumnGroup(d, blob, wm, inp, bias, curBias, out, colbuf, n, g, nstripes);
    }
  }

  /** The 1x1 case: `colMat` is `dstMat`, so col2im only adds the biases. */
  method DirectGroup(d: DeconvDims, blob: seq<int>, wm: seq<int>, inp: seq<int>, bias: seq<int>, curBias: seq<int>,
                     out: array<int>, n: nat, g: nat, nstripes: nat)
    requires d.Valid() && n < d.numImg && g < d.ngroups && nstripes >= 1 && Is1x1(d.p)
    requires |blob| == d.InpCn() * d.KSize() && wm == Transposed(d, blob)
    requires |inp| == d.numImg * d.InpCn() * d.InpPlane() && curBias == GroupBias(d, bias, g)
    requires out.Length == d.OutLen()
    modifies out
    ensures DstBase(d, n, g) + d.BlockSize() <= out.Length
    ensures out[DstBase(d, n, g)..DstBase(d, n, g) + d.BlockSize()] == BlockValues(d, blob, inp, bias, n, g)
    ensures out[..DstBase(d, n, g)] == old(out[..DstBase(d, n, g)])
    ensures out[DstBase(d, n, g) + d.BlockSize()..] == old(out[DstBase(d, n, g) + d.BlockSize()..])
  {
    ghost var o := out[..];
    OperandsFit(d, wm, inp, out.Length, n, g);
    MatMul(AView(d, g), wm, BView(d, n, g), inp, CView(d, n, g), out, nstripes);
    ghost var mm := out[..];
    DirectProduct(d, blob, inp, n, g, mm, o);
    GridIsInput(d);
    Col2ImRun(Geom(d), out[..], out, DstBase(d, n, g), curBias, true, nstripes);
    BlockFromCol2Im(d, blob, inp, bias, n, g, out[..], mm, mm, true);
  }

  /** The general case: `colMat` is the internal buffer, scattered by col2im. */
  method ColumnGroup(d: DeconvDims, blob: seq<int>, wm: seq<int>, inp: seq<int>, bias: seq<int>, curBias: seq<int>,
                     out: array<int>, colbuf: array<int>, n: nat, g: nat, nstripes: nat)
    requires d.Valid() && n < d.numImg && g < d.ngroups && nstripes >= 1 && !Is1x1(d.p)
    requires |blob| == d.InpCn() * d.KSize() && wm == Transposed(d, blob)
    requires |inp| == d.numImg * d.InpCn() * d.InpPlane() && curBias == GroupBias(d, bias, g)
    requires out.Length == d.OutLen() && colbuf.Length == d.KSize() * d.InpPlane()
    requires out != colbuf
    modifies out, colbuf
    ensures DstBase(d, n, g) + d.BlockSize() <= out.Length
    ensures out[DstBase(d, n, g)..DstBase(d, n, g) + d.BlockSize()] == BlockValues(d, blob, inp, bias, n, g)
    ensures out[..DstBase(d, n, g)] == old(out[..DstBase(d, n, g)])
    ensures out[DstBase(d, n, g) + d.BlockSize()..] == old(out[DstBase(d, n, g) + d.BlockSize()..])
  {
    ghost var o := out[..];
    OperandsFit(d, wm, inp, colbuf.Length, n, g);
    MatMul(AView(d, g), wm, BView(d, n, g), inp, CView(d, n, g), colbuf, nstripes);
    ColumnBuffer(d, blob, inp, n, g, colbuf[..], old(colbuf[..]));
    GridIsInput(d);
    BlockInside(d, n, g);
    Col2ImRun(Geom(d), colbuf[..], out, DstBase(d, n, g), curBias, false, nstripes);
    BlockFromCol2Im(d, blob, inp, bias, n, g, out[..], o, colbuf[..], false);
  }

  /** Outside the 1x1 case `colMat` is the whole internal buffer. */
  lemma ColumnBuffer(d: DeconvDims, blob: seq<int>, inp: seq<int>, n: nat, g: nat, s: seq<int>, o: seq<int>)
    requires d.Valid() && n < d.numImg && g < d.ngroups && !Is1x1(d.p)
    requires |blob| == d.InpCn() * d.KSize() && |inp| == d.numImg * d.InpCn() * d.InpPlane()
    requires |s| == d.KSize() * d.InpPlane()
    requires RowsDone(CView(d, n, g), s, o, AView(d, g), Transposed(d, blob), BView(d, n, g), inp,
                      0, d.InpPlane(), d.KSize())
    ensures s == ColMatrix(d, blob, inp, n, g)
  {
    forall idx | 0 <= idx < |s|
      ensures s[idx] == ColMatrix(d, blob, inp, n, g)[idx]
    {
      HoldsColMatrix(d, blob, inp, n, g, s, o, idx);
    }
  }

  // ------------------------------------------------------------ all groups

  /** The first `k` blocks of the output hold their values. */
  predicate PrefixDone(d: DeconvDims, blob: seq<int>, inp: seq<int>, bias: seq<int>, s: seq<int>, k: nat)
  {
    d.Valid() && |blob| == d.InpCn() * d.KSize() && |inp| == d.numImg * d.InpCn() * d.InpPlane() &&
    |s| == d.OutLen() && k <= d.numImg * d.ngroups && k * d.BlockSize() <= |s| &&
    s[..k * d.BlockSize()] == Blocks(d, blob, inp, bias, k)
  }

  /** Block `g + n*ngroups` joins the finished prefix. */
  lemma PrefixStep(d: DeconvDims, blob: seq<int>, inp: seq<int>, bias: seq<int>, s': seq<int>, s: seq<int>, n: nat, g: nat)
    requires PrefixDone(d, blob, inp, bias, s, g + n * d.ngroups) && n < d.numImg && g < d.ngroups && |s'| == |s|
    requires DstBase(d, n, g) + d.BlockSize() <= |s'|
    requires s'[DstBase(d, n, g)..DstBase(d, n, g) + d.BlockSize()] == BlockValues(d, blob, inp, bias, n, g)
    requires s'[..DstBase(d, n, g)] == s[..DstBase(d, n, g)]
    ensures PrefixDone(d, blob, inp, bias, s', g + n * d.ngroups + 1)
  {
    var b, bs := g + n * d.ngroups, d.BlockSize();
    DivModUnique(b, d.ngroups, n, g);
    BlockIndexBound(n, g, d.numImg, d.ngroups);
    MulSucc(b, bs);
    assert Blocks(d, blob, inp, bias, b + 1) == Blocks(d, blob, inp, bias, b) + BlockValues(d, blob, inp, bias, n, g);
    assert s'[..(b + 1) * bs] == s'[..b * bs] + s'[b * bs..b * bs + bs];
  }

  /** Line 1286: the loop over the groups of image `n`. */
  method DeconvImage(d: DeconvDims, blob: seq<int>, wm: seq<int>, inp: seq<int>, bias: seq<int>, biases: seq<int>,
                     out: array<int>, colbuf: array<int>, n: nat, nstripes: nat)
    requires n < d.numImg && nstripes >= 1 && PrefixDone(d, blob, inp, bias, out[..], n * d.ngroups)
    requires wm == Transposed(d, blob) && biases == ConvStripe.EffectiveBias(bias, d.OutCn())
    requires (!Is1x1(d.p) ==> colbuf.Length == d.KSize() * d.InpPlane()) && out != colbuf
    modifies out, colbuf
    ensures PrefixDone(d, blob, inp, bias, out[..], (n + 1) * d.ngroups)
  {
    var g := 0;
    while g < d.ngroups
      invariant g <= d.ngroups && PrefixDone(d, blob, inp, bias, out[..], g + n * d.ngroups)
    {
      ghost var before := out[..];
      DeconvGroup(d, blob, wm, inp, bias, biases, out, colbuf, n, g, nstripes);
      PrefixStep(d, blob, inp, bias, out[..], before, n, g);
      g := g + 1;
    }
    MulSucc(n, d.ngroups);
  }

  /** Position `(n, oc, y, x)` of the `[numImg, outCn, outH, outW]` output. */
  function OutIndex(d: DeconvDims, n: nat, oc: nat, y: nat, x: nat): nat
    requires d.Valid()
  {
    ((n * d.OutCn() + oc) * d.OutH() + y) * d.OutW() + x
  }

  /** The deconvolution's value at `(n, oc, y, x)`: the bias of `oc` (0
      without biases) plus the col2im sum, at `(y, x)` of channel
      `oc % outGroupCn`, of the column matrix of image `n`, group
      `oc / outGroupCn`. */
  function OutputValue(d: DeconvDims, blob: seq<int>, inp: seq<int>, bias: seq<int>, n: nat, oc: nat, y: nat, x: nat): int
    requires d.Valid() && n < d.numImg && oc < d.OutCn() && y < d.OutH() && x < d.OutW()
    requires |blob| == d.InpCn() * d.KSize() && |inp| == d.numImg * d.InpCn() * d.InpPlane()
  {
    GridIsInput(d);
    DivLess(oc, d.ogc, d.ngroups);
    ConvStripe.EffectiveBias(bias, d.OutCn())[oc]
      + ImValue(Geom(d), ColMatrix(d, blob, inp, n, oc / d.ogc), oc % d.ogc, y, x)
  }

  lemma BlockOffset(n: nat, g: nat, c: nat, y: nat, x: nat, ngroups: nat, ogc: nat, h: nat, w: nat)
    ensures ((n * (ngroups * ogc) + (g * ogc + c)) * h + y) * w + x
         == (g + n * ngroups) * (ogc * (h * w)) + ((c * h + y) * w + x)
  {
    var b := g + n * ngroups;
    assert n * (ngroups * ogc) + (g * ogc + c) == b * ogc + c;
    assert ((b * ogc + c) * h + y) * w == b * ogc * h * w + (c * h + y) * w;
    assert b * ogc * h * w == b * (ogc * (h * w));
  }

  /** `(n, oc, y, x)` is entry `((oc % ogc)*outH + y)*outW + x` of block
      `(n, oc / ogc)`, whose channel, row and column are `oc % ogc`, `y`, `x`. */
  lemma OutIndexInBlock(d: DeconvDims, n: nat, oc: nat, y: nat, x: nat) returns (g: nat, c: nat, index: nat)
    requires d.Valid() && n < d.numImg && oc < d.OutCn() && y < d.OutH() && x < d.OutW()
    ensures g < d.ngroups && c < d.ogc && oc == g * d.ogc + c
    ensures index < d.BlockSize() && OutIndex(d, n, oc, y, x) == DstBase(d, n, g) + index
    ensures Chan(Geom(d), index) == c && PixRow(Geom(d), index) == y && PixCol(Geom(d), index) == x
  {
    g, c := oc / d.ogc, oc % d.ogc;
    var h, w := d.OutH(), d.OutW();
    DivLess(oc, d.ogc, d.ngroups);
    MulNonneg(c, h);
    MulNonneg(c * h + y, w);
    index := (c * h + y) * w + x;
    FlatBound(c, d.ogc, y, h);
    FlatBound(c * h + y, d.ogc * h, x, w);
    assert d.BlockSize() == d.ogc * h * w;
    FlatSplit(c * h + y, x, w);
    FlatSplit(c, y, h);
    DivDiv(index, w, h);
    assert w * h == h * w;
    BlockOffset(n, g, c, y, x, d.ngroups, d.ogc, h, w);
  }

  /** In the finished output, block `(n, g)` holds its values. */
  lemma BlockAt(d: DeconvDims, blob: seq<int>, inp: seq<int>, bias: seq<int>, n: nat, g: nat, index: nat)
    requires d.Valid() && n < d.numImg && g < d.ngroups && index < d.BlockSize()
    requires |blob| == d.InpCn() * d.KSize() && |inp| == d.numImg * d.InpCn() * d.InpPlane()
    ensures DstBase(d, n, g) + index < |Blocks(d, blob, inp, bias, d.numImg * d.ngroups)|
    ensures Blocks(d, blob, inp, bias, d.numImg * d.ngroups)[DstBase(d, n, g) + index]
         == GroupValue(d, blob, inp, bias, n, g, index)
  {
    var b := g + n * d.ngroups;
    BlockIndexBound(n, g, d.numImg, d.ngroups);
    BlockEntry(d, blob, inp, bias, d.numImg * d.ngroups, b, index);
    DivModUnique(b, d.ngroups, n, g);
  }

  /** The block entry of `(n, oc, y, x)` has the output's value. */
  lemma GroupValueAt(d: DeconvDims, blob: seq<int>, inp: seq<int>, bias: seq<int>, n: nat, oc: nat, y: nat, x: nat,
                     g: nat, c: nat, index: nat)
    requires d.Valid() && n < d.numImg && oc < d.OutCn() && y < d.OutH() && x < d.OutW()
    requires |blob| == d.InpCn() * d.KSize() && |inp| == d.numImg * d.InpCn() * d.InpPlane()
    requires g < d.ngroups && c < d.ogc && oc == g * d.ogc + c && index < d.BlockSize()
    requires Chan(Geom(d), index) == c && PixRow(Geom(d), index) == y && PixCol(Geom(d), index) == x
    ensures GroupValue(d, blob, inp, bias, n, g, index) == OutputValue(d, blob, inp, bias, n, oc, y, x)
  {
    DivModUnique(oc, d.ogc, g, c);
    GridIsInput(d);
    assert GroupBias(d, bias, g)[c] == ConvStripe.EffectiveBias(bias, d.OutCn())[oc];
  }

  /** Entry `(n, oc, y, x)` of the finished output is its deconvolution value. */
  lemma OutputAt(d: DeconvDims, blob: seq<int>, inp: seq<int>, bias: seq<int>, n: nat, oc: nat, y: nat, x: nat)
    requires d.Valid() && n < d.numImg && oc < d.OutCn() && y < d.OutH() && x < d.OutW()
    requires |blob| == d.InpCn() * d.KSize() && |inp| == d.numImg * d.InpCn() * d.InpPlane()
    ensures OutIndex(d, n, oc, y, x) < |Blocks(d, blob, inp, bias, d.numImg * d.ngroups)|
    ensures Blocks(d, blob, inp, bias, d.numImg * d.ngroups)[OutIndex(d, n, oc, y, x)]
         == OutputValue(d, blob, inp, bias, n, oc, y, x)
  {
    var g, c, index := OutIndexInBlock(d, n, oc, y, x);
    GroupValueAt(d, blob, inp, bias, n, oc, y, x, g, c, index);
    BlockAt(d, blob, inp, bias, n, g, index);
  }

  /** The output holds `numImg*ngroups` blocks. */
  lemma OutputBlocks(d: DeconvDims)
    requires d.Valid()
    ensures d.OutLen() == d.numImg * d.ngroups * d.BlockSize()
  {
  }

  /** Every entry of the finished output is its deconvolution value. */
  lemma AllOutputs(d: DeconvDims, blob: seq<int>, inp: seq<int>, bias: seq<int>, s: seq<int>)
    requires PrefixDone(d, blob, inp, bias, s, d.numImg * d.ngroups)
    ensures forall n, oc, y, x :: 0 <= n < d.numImg && 0 <= oc < d.OutCn() && 0 <= y < d.OutH() && 0 <= x < d.OutW() ==>
      OutIndex(d, n, oc, y, x) < |s| && s[OutIndex(d, n, oc, y, x)] == OutputValue(d, blob, inp, bias, n, oc, y, x)
  {
    OutputBlocks(d);
    assert s == Blocks(d, blob, inp, bias, d.numImg * d.ngroups);
    forall n, oc, y, x | 0 <= n < d.numImg && 0 <= oc < d.OutCn() && 0 <= y < d.OutH() && 0 <= x < d.OutW()
      ensures OutIndex(d, n, oc, y, x) < |s| && s[OutIndex(d, n, oc, y, x)] == OutputValue(d, blob, inp, bias, n, oc, y, x)
    {
      OutputAt(d, blob, inp, bias, n, oc, y, x);
    }
  }

  /** Lines 1255-1306 for one output: `weightsMat` is the transposed weight
      blob, `biasesMat` the biases or zeros, and every group of every image
      is processed in turn. Every output element gets its deconvolution value.
      `colbuf` is `internals[0]`: it is only used, and its length only
      matters, when the kernel is not an unpadded 1x1 one. */
  method DeconvForward(d: DeconvDims, blob: seq<int>, inp: seq<int>, bias: seq<int>,
                       out: array<int>, colbuf: array<int>, nstripes: nat)
    requires d.Valid() && nstripes >= 1
    requires |blob| == d.InpCn() * d.KSize() && |inp| == d.numImg * d.InpCn() * d.InpPlane()
    requires out.Length == d.OutLen() && (!Is1x1(d.p) ==> colbuf.Length == d.KSize() * d.InpPlane())
    requires out != colbuf
    modifies out, colbuf
    ensures forall n, oc, y, x :: 0 <= n < d.numImg && 0 <= oc < d.OutCn() && 0 <= y < d.OutH() && 0 <= x < d.OutW() ==>
      OutIndex(d, n, oc, y, x) < out.Length && out[OutIndex(d, n, oc, y, x)] == OutputValue(d, blob, inp, bias, n, oc, y, x)
  {
    var wm := Transposed(d, blob);
    var biases := ConvStripe.EffectiveBias(bias, d.OutCn());
    var n := 0;
    while n < d.numImg
      invariant n <= d.numImg && PrefixDone(d, blob, inp, bias, out[..], n * d.ngroups)
    {
      DeconvImage(d, blob, wm, inp, bias, biases, out, colbuf, n, nstripes);
      n := n + 1;
    }
    AllOutputs(d, blob, inp, bias, out[..]);
  }
}
