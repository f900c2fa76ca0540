/** The geometry of one forward convolution call (`ParallelConv`) and the
    reference meaning of its output: the zero-padded, dilated, strided,
    grouped convolution of the input with the weight rows, plus bias.

    Tensors are flat row-major sequences. A "sub-sample" is one
    (image, group) pair: sub-sample `s` is image `s / ngroups`, group
    `s % ngroups`, exactly as `subsampleIdx` is used in the stripe kernel. */
module ConvGeometry {
  import opened Arith
  import opened Sums

  /** Channel counts are per group (`inpCn = input.size[1]/ngroups`,
      `outCn = output.size[1]/ngroups`). */
  datatype Geometry = Geometry(
    batch: nat, ngroups: nat,
    inpCn: nat, height: nat, width: nat,
    outCn: nat, outH: nat, outW: nat,
    kernelH: nat, kernelW: nat,
    padH: nat, padW: nat,
    strideH: nat, strideW: nat,
    dilationH: nat, dilationW: nat)
  {
    /** Extents are positive and strides and dilations non-zero (the layer
        parameters and the output shape are validated before the kernel runs). */
    predicate Valid()
    {
      batch >= 1 && ngroups >= 1 && inpCn >= 1 && height >= 1 && width >= 1 &&
      outCn >= 1 && outH >= 1 && outW >= 1 && kernelH >= 1 && kernelW >= 1 &&
      strideH >= 1 && strideW >= 1 && dilationH >= 1 && dilationW >= 1
    }

    function Karea(): nat { kernelH * kernelW }
    /** `batchSize` of the stripe kernel: images times groups. */
    function BatchSize(): nat { batch * ngroups }
    function InpPlane(): nat { height * width }
    function OutPlane(): nat { outH * outW }
    /** Length of one weight row: `inpCn * karea`. */
    function RowLen(): nat { inpCn * Karea() }
    function OutCnAll(): nat { ngroups * outCn }
    function InSize(): nat { ((BatchSize() * inpCn) * height) * width }
    function OutSize(): nat { (BatchSize() * outCn) * OutPlane() }

    /** Address of input element (sub-sample, channel, row, column). */
    function InIdx(s: int, c: int, y: int, x: int): int
    {
      ((s * inpCn + c) * height + y) * width + x
    }

    /** Address of output element (sub-sample, channel within group, plane position). */
    function OutIdx(s: int, i: int, p: int): int
    {
      (s * outCn + i) * OutPlane() + p
    }

    /** First weight row / bias entry of sub-sample `s`'s group (`startOutCn`). */
    function StartOutCn(s: nat): nat
      requires Valid()
    {
      (s % ngroups) * outCn
    }

    /** Top-left input row and column of the window of output position `p`
        (`in_i`, `in_j`). */
    function InRow(p: nat): int
      requires Valid()
    {
      (p / outW) * strideH - padH
    }

    function InCol(p: nat): int
      requires Valid()
    {
      (p % outW) * strideW - padW
    }
  }

  /** Input buffer of the right size (sub-sample-major, channel, row, column). */
  predicate InputOk(g: Geometry, inp: seq<int>)
  {
    g.Valid() && |inp| == g.InSize()
  }

  /** Weight matrix of `ngroups*outCn` rows with row stride `wstep >= inpCn*karea`,
      and a bias vector covering every output channel. */
  predicate WeightsOk(g: Geometry, wts: seq<int>, wstep: nat, bias: seq<int>)
  {
    g.Valid() && wstep >= g.RowLen() && |wts| == g.OutCnAll() * wstep &&
    |bias| >= g.OutCnAll()
  }

  lemma InIdxBound(g: Geometry, s: nat, c: nat, y: nat, x: nat)
    requires g.Valid() && s < g.BatchSize() && c < g.inpCn && y < g.height && x < g.width
    ensures 0 <= g.InIdx(s, c, y, x) < g.InSize()
  {
    FlatBound(s, g.BatchSize(), c, g.inpCn);
    FlatBound(s * g.inpCn + c, g.BatchSize() * g.inpCn, y, g.height);
    FlatBound((s * g.inpCn + c) * g.height + y, (g.BatchSize() * g.inpCn) * g.height, x, g.width);
  }

  lemma OutIdxBound(g: Geometry, s: nat, i: nat, p: nat)
    requires g.Valid() && s < g.BatchSize() && i < g.outCn && p < g.OutPlane()
    ensures 0 <= g.OutIdx(s, i, p) < g.OutSize()
  {
    FlatBound(s, g.BatchSize(), i, g.outCn);
    FlatBound(s * g.outCn + i, g.BatchSize() * g.outCn, p, g.OutPlane());
  }

  /** Distinct (sub-sample, channel, position) triples have distinct output addresses. */
  lemma OutIdxInjective(g: Geometry, s: nat, i: nat, p: nat, s': nat, i': nat, p': nat)
    requires g.Valid() && i < g.outCn && p < g.OutPlane() && i' < g.outCn && p' < g.OutPlane()
    requires g.OutIdx(s, i, p) == g.OutIdx(s', i', p')
    ensures s == s' && i == i' && p == p'
  {
    FlatSplit(s * g.outCn + i, p, g.OutPlane());
    FlatSplit(s' * g.outCn + i', p', g.OutPlane());
    FlatSplit(s, i, g.outCn);
    FlatSplit(s', i', g.outCn);
  }

  /** Every address of the output buffer is the address of exactly one triple:
      a specification over all triples fixes the whole buffer. */
  lemma OutIdxOnto(g: Geometry, x: nat)
    requires g.Valid() && x < g.OutSize()
    ensures var s, i, p := x / (g.outCn * g.OutPlane()), (x / g.OutPlane()) % g.outCn, x % g.OutPlane();
      s < g.BatchSize() && i < g.outCn && p < g.OutPlane() && g.OutIdx(s, i, p) == x
  {
    var P := g.OutPlane();
    DivDiv(x, P, g.outCn);
    assert g.outCn * P == P * g.outCn;
    var q := x / P;
    assert x == q * P + x % P;
    assert q == (q / g.outCn) * g.outCn + q % g.outCn;
    DivLess(x, P * g.outCn, g.BatchSize());
    assert g.BatchSize() * (P * g.outCn) == (g.BatchSize() * g.outCn) * P;
  }

  /** Input value at (sub-sample, channel, row, column) of the zero-padded
      input: 0 outside the image. */
  function Pixel(g: Geometry, inp: seq<int>, s: nat, c: int, y: int, x: int): int
  {
    if InputOk(g, inp) && s < g.BatchSize() && 0 <= c < g.inpCn &&
       0 <= y < g.height && 0 <= x < g.width
    then
      InIdxBound(g, s, c, y, x);
      inp[g.InIdx(s, c, y, x)]
    else 0
  }

  /** The `karea` taps of channel `c` for output position `p`, kernel row by
      kernel row: tap `t` is kernel row `t / kernelW`, kernel column
      `t % kernelW`, dilated and offset from the window's top-left corner. */
  function ChannelTaps(g: Geometry, inp: seq<int>, s: nat, p: nat, c: nat): (r: seq<int>)
    requires g.Valid()
    ensures |r| == g.Karea()
  {
    seq(g.Karea(), t requires 0 <= t < g.Karea() =>
      Pixel(g, inp, s, c, g.InRow(p) + (t / g.kernelW) * g.dilationH, g.InCol(p) + (t % g.kernelW) * g.dilationW))
  }

  /** The im2row entries of channels `[cn0, cn0 + ncn)` for output position `p`:
      the channels' taps one after the other. */
  function BlockRow(g: Geometry, inp: seq<int>, s: nat, p: nat, cn0: nat, ncn: nat): (r: seq<int>)
    requires g.Valid()
    ensures |r| == g.Karea() * ncn
    decreases ncn
  {
    if ncn == 0 then []
    else
      MulSucc(ncn - 1, g.Karea());
      BlockRow(g, inp, s, p, cn0, ncn - 1) + ChannelTaps(g, inp, s, p, cn0 + ncn - 1)
  }

  /** The whole im2row row of output position `p` over all `inpCn` channels of
      the group: the input value each weight of a weight row multiplies. */
  function Im2Row(g: Geometry, inp: seq<int>, s: nat, p: nat): (r: seq<int>)
    requires g.Valid()
    ensures |r| == g.RowLen()
  {
    BlockRow(g, inp, s, p, 0, g.inpCn)
  }

  /** The entries of input channels `[cn0, cn0 + ncn)` of a row laid out
      like the im2row row (`karea` entries per channel). */
  function ChannelSlice(g: Geometry, row: seq<int>, cn0: nat, ncn: nat): (r: seq<int>)
    requires g.Valid() && |row| == g.RowLen() && cn0 + ncn <= g.inpCn
    ensures |r| == g.Karea() * ncn
  {
    ChannelSpan(g, cn0, ncn);
    row[cn0 * g.Karea() .. cn0 * g.Karea() + g.Karea() * ncn]
  }

  lemma ChannelSpan(g: Geometry, cn0: nat, ncn: nat)
    requires g.Valid() && cn0 + ncn <= g.inpCn
    ensures 0 <= cn0 * g.Karea() && cn0 * g.Karea() + g.Karea() * ncn == (cn0 + ncn) * g.Karea() <= g.RowLen()
  {
    MulNonneg(cn0, g.Karea());
    MulMonoLeft(cn0 + ncn, g.inpCn, g.Karea());
  }

  /** Entry `(k, i, j)` of a block row lies in the row and is the pixel at
      (channel `cn0 + k`, row `in_i + i*dilation_h`, column `in_j + j*dilation_w`). */
  lemma {:induction false} BlockRowEntry(g: Geometry, inp: seq<int>, s: nat, p: nat, cn0: nat, ncn: nat,
                                         k: nat, i: nat, j: nat)
    requires g.Valid() && k < ncn && i < g.kernelH && j < g.kernelW
    ensures Pos(g, k, i, j) < g.Karea() * ncn
    ensures BlockRow(g, inp, s, p, cn0, ncn)[Pos(g, k, i, j)] ==
      Pixel(g, inp, s, cn0 + k, g.InRow(p) + i * g.dilationH, g.InCol(p) + j * g.dilationW)
    decreases ncn
  {
    var ka := g.Karea();
    var t := i * g.kernelW + j;
    FlatBound(i, g.kernelH, j, g.kernelW);
    RowInBlock(g, ncn, k, i);
    var front := BlockRow(g, inp, s, p, cn0, ncn - 1);
    var last := ChannelTaps(g, inp, s, p, cn0 + ncn - 1);
    assert BlockRow(g, inp, s, p, cn0, ncn) == front + last;
    if k < ncn - 1 {
      BlockRowEntry(g, inp, s, p, cn0, ncn - 1, k, i, j);
    } else {
      assert Pos(g, k, i, j) == |front| + t by { assert ka * (ncn - 1) == (ncn - 1) * ka; }
      FlatSplit(i, j, g.kernelW);
      assert last[t] == Pixel(g, inp, s, cn0 + k, g.InRow(p) + i * g.dilationH, g.InCol(p) + j * g.dilationW);
    }
  }

  /** A block row of `n1 + n2` channels is the block of the first `n1`
      followed by the block of the next `n2`: the stripe kernel's channel
      blocks of 64 tile the im2row row. */
  lemma {:induction false} BlockRowSplit(g: Geometry, inp: seq<int>, s: nat, p: nat, c0: nat, n1: nat, n2: nat)
    requires g.Valid()
    ensures BlockRow(g, inp, s, p, c0, n1 + n2) ==
      BlockRow(g, inp, s, p, c0, n1) + BlockRow(g, inp, s, p, c0 + n1, n2)
    decreases n2
  {
    if n2 == 0 {
      assert BlockRow(g, inp, s, p, c0 + n1, 0) == [];
    } else {
      BlockRowSplit(g, inp, s, p, c0, n1, n2 - 1);
      var a := BlockRow(g, inp, s, p, c0, n1);
      var b := BlockRow(g, inp, s, p, c0 + n1, n2 - 1);
      var c := ChannelTaps(g, inp, s, p, c0 + n1 + n2 - 1);
      assert BlockRow(g, inp, s, p, c0, n1 + n2) == (a + b) + c;
      assert BlockRow(g, inp, s, p, c0 + n1, n2) == b + c;
      assert (a + b) + c == a + (b + c);
    }
  }

  /** Weight row `row` (an output channel over all groups) without its alignment padding. */
  function WeightRow(g: Geometry, wts: seq<int>, wstep: nat, row: nat): (r: seq<int>)
    requires g.Valid() && wstep >= g.RowLen() && |wts| == g.OutCnAll() * wstep
    requires row < g.OutCnAll()
    ensures |r| == g.RowLen()
  {
    RowFits(g.OutCnAll(), wstep, row, g.RowLen());
    wts[row * wstep .. row * wstep + g.RowLen()]
  }

  lemma RowFits(rows: nat, step: nat, row: nat, len: nat)
    requires row < rows && len <= step
    ensures row * step + len <= rows * step
  {
    MulMonoLeft(row + 1, rows, step);
    assert (row + 1) * step == row * step + step;
  }

  /** Output value after the weights of the first `cn` input channels
      (`cn*karea` entries of the weight row) have been accumulated onto the bias. */
  function Partial(g: Geometry, inp: seq<int>, wts: seq<int>, wstep: nat, bias: seq<int>,
                   s: nat, i: nat, p: nat, cn: nat): int
    requires WeightsOk(g, wts, wstep, bias)
    requires s < g.BatchSize() && i < g.outCn && cn <= g.inpCn
  {
    var oc, n := g.StartOutCn(s) + i, cn * g.Karea();
    StartOutCnBound(g, s, i);
    MulMonoLeft(cn, g.inpCn, g.Karea());
    ChannelBias(g, bias, s, i) + Dot(WeightRow(g, wts, wstep, oc)[..n], Im2Row(g, inp, s, p)[..n])
  }

  /** The output channel `startOutCn + i` of sub-sample `s` is a real one. */
  lemma StartOutCnBound(g: Geometry, s: nat, i: nat)
    requires g.Valid() && i < g.outCn
    ensures g.StartOutCn(s) + i < g.OutCnAll()
  {
    FlatBound(s % g.ngroups, g.ngroups, i, g.outCn);
  }

  /** Bias of channel `i` of sub-sample `s`'s group (`biasptr[i]`). */
  function ChannelBias(g: Geometry, bias: seq<int>, s: nat, i: nat): int
    requires g.Valid() && |bias| >= g.OutCnAll() && i < g.outCn
  {
    StartOutCnBound(g, s, i);
    bias[g.StartOutCn(s) + i]
  }

  /** Element (sub-sample `s`, channel `i`, position `p`) of an output buffer. */
  function OutAt(g: Geometry, out: seq<int>, s: nat, i: nat, p: nat): int
    requires g.Valid() && |out| == g.OutSize() && s < g.BatchSize() && i < g.outCn && p < g.OutPlane()
  {
    OutIdxBound(g, s, i, p);
    out[g.OutIdx(s, i, p)]
  }

  /** The convolution output at (sub-sample `s`, channel `i` of its group,
      position `p`): bias plus the dot product of the output channel's
      weight row with the zero-padded input window. */
  function ConvOut(g: Geometry, inp: seq<int>, wts: seq<int>, wstep: nat, bias: seq<int>,
                   s: nat, i: nat, p: nat): int
    requires WeightsOk(g, wts, wstep, bias)
    requires s < g.BatchSize() && i < g.outCn
  {
    Partial(g, inp, wts, wstep, bias, s, i, p, g.inpCn)
  }

  /** `i0 = max(0, (-in_i + dilation - 1)/dilation)` with C++ truncation (lines 453, 455). */
  function TapLo(x: int, d: nat): int
    requires d >= 1
  {
    Max(0, TDiv(-x + d - 1, d))
  }

  /** `i1 = min(kernel, (size - in_i + dilation - 1)/dilation)` with C++ truncation (lines 454, 456). */
  function TapHi(x: int, d: nat, n: nat, k: nat): int
    requires d >= 1
  {
    Min(k, TDiv(n - x + d - 1, d))
  }

  /** The boundary loop's tap range is exactly the set of taps that land
      inside the image: `kr` is in `[i0, i1)` iff `0 <= kr < kernel` and
      `0 <= x + kr*dilation < size`. */
  lemma TapRangeExact(x: int, d: nat, n: nat, k: nat, kr: int)
    requires d >= 1
    ensures TapLo(x, d) <= kr < TapHi(x, d, n, k) <==> 0 <= kr < k && 0 <= x + kr * d < n
  {
    if kr >= 0 {
      TapLoExact(x, d, kr);
      TapHiExact(x, d, n, kr);
    }
  }

  lemma TapLoExact(x: int, d: nat, kr: nat)
    requires d >= 1
    ensures TDiv(-x + d - 1, d) <= kr <==> 0 <= x + kr * d
  {
    var a := -x + d - 1;
    var qa := TDiv(a, d);
    if a >= 0 {
      if kr >= qa { MulMonoLeft(qa, kr, d); } else { MulMonoLeft(kr, qa - 1, d); }
    } else {
      MulNonneg(kr, d);
    }
  }

  lemma TapHiExact(x: int, d: nat, n: nat, kr: nat)
    requires d >= 1
    ensures kr < TDiv(n - x + d - 1, d) <==> x + kr * d < n
  {
    var b := n - x + d - 1;
    var qb := TDiv(b, d);
    if b >= 0 {
      if kr < qb { MulMonoLeft(kr, qb - 1, d); } else { MulMonoLeft(qb, kr, d); }
    } else {
      MulNonneg(kr, d);
    }
  }

  /** The interior test of lines 445-446 implies that every kernel tap lies in the image. */
  lemma InteriorInside(x: int, d: nat, n: nat, k: nat, kr: nat)
    requires d >= 1 && k >= 1 && 0 <= x < n - (k - 1) * d && kr < k
    ensures 0 <= x + kr * d < n
  {
    MulMonoLeft(kr, k - 1, d);
    MulNonneg(kr, d);
  }

  /** Position `(kk*kernelH + kr)*kernelW + kc` of a block row is channel
      `kk`, kernel row `kr`, kernel column `kc`. */
  lemma TapEntry(g: Geometry, kk: nat, kr: nat, kc: nat)
    requires g.Valid() && kr < g.kernelH && kc < g.kernelW
    ensures var q := (kk * g.kernelH + kr) * g.kernelW + kc;
      q / g.Karea() == kk && (q % g.Karea()) / g.kernelW == kr && (q % g.Karea()) % g.kernelW == kc
  {
    var ka := g.Karea();
    var t := kr * g.kernelW + kc;
    FlatBound(kr, g.kernelH, kc, g.kernelW);
    assert (kk * g.kernelH + kr) * g.kernelW + kc == kk * ka + t;
    DivModUnique(kk * ka + t, ka, kk, t);
    FlatSplit(kr, kc, g.kernelW);
  }

  /** Position of (channel `k`, kernel row `i`, kernel column `j`) in a row
      laid out channel-major, as im2row rows and the offset table are. */
  function Pos(g: Geometry, k: nat, i: nat, j: nat): nat
  {
    k * g.Karea() + i * g.kernelW + j
  }

  /** `ncn` whole channels of taps end at `karea*ncn`. */
  lemma ChannelsEnd(g: Geometry, ncn: nat)
    ensures Pos(g, ncn, 0, 0) == g.Karea() * ncn
  {
    MulComm(ncn, g.Karea());
  }

  /** `(k*kernel_h + i)*kernel_w + j`, as the gather writes it, is `Pos`. */
  lemma RowMajorIndex(g: Geometry, k: nat, i: nat, j: nat)
    ensures (k * g.kernelH + i) * g.kernelW + j == Pos(g, k, i, j)
  {
    assert (k * g.kernelH) * g.kernelW == k * (g.kernelH * g.kernelW);
  }

  /** Kernel row `i` of channel `k` ends inside a row of `ncn` channels. */
  lemma RowInBlock(g: Geometry, ncn: nat, k: nat, i: nat)
    requires g.Valid() && k < ncn && i < g.kernelH
    ensures Pos(g, k, i + 1, 0) <= g.Karea() * ncn
  {
    MulMonoLeft(i + 1, g.kernelH, g.kernelW);
    MulMonoLeft(k + 1, ncn, g.Karea());
    assert ncn * g.Karea() == g.Karea() * ncn;
  }

  /** The next kernel row starts where the previous one ends; so does the next channel. */
  lemma PosNext(g: Geometry, k: nat, i: nat)
    ensures Pos(g, k, i, g.kernelW) == Pos(g, k, i + 1, 0)
    ensures Pos(g, k, g.kernelH, 0) == Pos(g, k + 1, 0, 0)
  {
    MulSucc(i, g.kernelW);
    MulSucc(k, g.Karea());
  }
}
