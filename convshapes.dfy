/** Shape computations and pure helpers of the convolution and
    deconvolution layers: output extents, the group checks, the memory
    shapes reported by `getMemoryShapes`, the im2row/col2im matrix shapes,
    the two `is1x1` predicates and the forward FLOP count.

    A shape (`MatShape`) is a sequence of extents; a failed `CV_Assert`
    is a `Failure`. */
module ConvShapes {
  import opened Arith

  datatype Result<T> = Success(value: T) | Failure(error: string)

  type Shape = seq<int>

  /** Layer parameters shared by both layers (`kernel`, `pad`, `stride`,
      `dilation`, `adjustPad`), each as (height, width). Kernel, stride and
      dilation extents are positive, as the parameter parser delivers them. */
  datatype Params = Params(
    kernelH: nat, kernelW: nat, padH: nat, padW: nat,
    strideH: nat, strideW: nat, dilationH: nat, dilationW: nat,
    adjH: nat, adjW: nat)
  {
    predicate Valid()
    {
      kernelH >= 1 && kernelW >= 1 && strideH >= 1 && strideW >= 1 &&
      dilationH >= 1 && dilationW >= 1
    }
  }

  /** `total(shape)`: the number of elements. */
  function Total(s: Shape): int
  {
    if |s| == 0 then 1 else Total(s[..|s| - 1]) * s[|s| - 1]
  }

  lemma TotalOfTwo(a: int, b: int)
    ensures Total([a, b]) == a * b
  {
    assert [a, b][..1] == [a];
    assert [a][..0] == [];
    assert Total([a]) == a;
  }

  lemma TotalOfFour(a: int, b: int, c: int, d: int)
    ensures Total([a, b, c, d]) == ((a * b) * c) * d
  {
    assert [a, b, c, d][..3] == [a, b, c];
    assert [a, b, c][..2] == [a, b];
    TotalOfTwo(a, b);
  }

  // ---------------------------------------------------------------- extents

  /** Lines 171-172: `(in + 2*pad - (dilation*(k-1) + 1))/stride + 1`, with the
      C++ quotient truncated toward zero. */
  function ConvOutSize(inp: int, k: nat, pad: nat, stride: nat, dilation: nat): int
    requires k >= 1 && stride >= 1
  {
    TDiv(inp + 2 * pad - (dilation * (k - 1) + 1), stride) + 1
  }

  /** When the padded input holds at least one dilated window, the output
      extent is exactly the number of window positions `n` (windows start
      at multiples of the stride) that fit inside the padded input. */
  lemma ConvOutSizeCountsWindows(inp: int, k: nat, pad: nat, stride: nat, dilation: nat, n: nat)
    requires k >= 1 && stride >= 1
    requires inp + 2 * pad >= dilation * (k - 1) + 1
    ensures ConvOutSize(inp, k, pad, stride, dilation) >= 1
    ensures n < ConvOutSize(inp, k, pad, stride, dilation) <==>
      n * stride + dilation * (k - 1) + 1 <= inp + 2 * pad
  {
    var x := inp + 2 * pad - (dilation * (k - 1) + 1);
    var q := TDiv(x, stride);
    if n <= q {
      MulMonoLeft(n, q, stride);
    } else {
      MulMonoLeft(q + 1, n, stride);
      assert (q + 1) * stride == q * stride + stride;
    }
  }

  /** When the padded input is shorter than one dilated window, truncation
      toward zero still reports one output position if the shortfall is
      less than a stride, and none otherwise. */
  lemma ConvOutSizeShortInput(inp: int, k: nat, pad: nat, stride: nat, dilation: nat)
    requires k >= 1 && stride >= 1
    requires inp + 2 * pad < dilation * (k - 1) + 1
    ensures var short := dilation * (k - 1) + 1 - (inp + 2 * pad);
      (short < stride ==> ConvOutSize(inp, k, pad, stride, dilation) == 1) &&
      (short >= stride ==> ConvOutSize(inp, k, pad, stride, dilation) <= 0)
  {
    var x := inp + 2 * pad - (dilation * (k - 1) + 1);
    var q := TDiv(x, stride);
    if -x < stride {
      if q < 0 { MulAtLeast(-q, stride); }
    } else {
      if q >= 0 { MulNonneg(q, stride); }
    }
  }

  /** Lines 1009-1010: `stride*(in-1) + k - 2*pad + adj`. */
  function DeconvOutSize(inp: int, k: nat, pad: nat, stride: nat, adj: nat): int
  {
    stride * (inp - 1) + k - 2 * pad + adj
  }

  /** Undoing a deconvolution: the forward extent of the deconvolution
      extent (without dilation, with `adj < stride` as the layer factory
      asserts) is the original extent. This is also `height_col == inpH` of
      `Col2ImInvoker::run` (lines 1192-1193). */
  lemma ConvOfDeconvSize(inp: nat, k: nat, pad: nat, stride: nat, adj: nat)
    requires k >= 1 && stride >= 1 && adj < stride && inp >= 1
    ensures DeconvOutSize(inp, k, pad, stride, adj) + 2 * pad - k >= 0
    ensures ConvOutSize(DeconvOutSize(inp, k, pad, stride, adj), k, pad, stride, 1) == inp
    ensures ColSize(DeconvOutSize(inp, k, pad, stride, adj), k, pad, stride) == inp
  {
    var x := DeconvOutSize(inp, k, pad, stride, adj) + 2 * pad - k;
    assert x == (inp - 1) * stride + adj;
    MulNonneg(inp - 1, stride);
    DivModUnique(x, stride, inp - 1, adj);
  }

  /** `height_col`/`width_col` of `Col2ImInvoker::run` (lines 1192-1193):
      `(size + 2*pad - k)/stride + 1`, with the quotient truncated. */
  function ColSize(size: int, k: nat, pad: nat, stride: nat): int
    requires stride >= 1
  {
    TDiv(size + 2 * pad - k, stride) + 1
  }

  // ------------------------------------------------------------ group checks

  /** Lines 178-180: `ngroups = inpCn / blobs[0].size[1]`, then
      `inpCn % ngroups == 0 && outCn % ngroups == 0` is asserted. A zero
      divisor (weights with no input channels, or fewer input channels than
      one group needs) is undefined behaviour in C++ and is a failure here. */
  function GroupCount(inpCn: nat, weightCn: nat, outCn: nat): (r: Result<nat>)
    ensures r.Success? ==> r.value >= 1 && inpCn % r.value == 0 && outCn % r.value == 0
    ensures r.Success? ==> r.value * weightCn <= inpCn < (r.value + 1) * weightCn
  {
    if weightCn == 0 || inpCn / weightCn == 0 then Result<nat>.Failure("ngroups would divide by zero")
    else
      var ngroups := inpCn / weightCn;
      assert ngroups * weightCn <= inpCn < (ngroups + 1) * weightCn by {
        assert inpCn == ngroups * weightCn + inpCn % weightCn;
      }
      if inpCn % ngroups == 0 && outCn % ngroups == 0 then Success(ngroups)
      else Result<nat>.Failure("channels are not divisible by the group count")
  }

  /** When the weights' channel count divides the input channels, the group
      check succeeds exactly when the groups also divide the output channels,
      and then every group holds exactly `weightCn` input channels. */
  lemma GroupCountExact(ngroups: nat, weightCn: nat, outCn: nat)
    requires ngroups >= 1 && weightCn >= 1
    ensures GroupCount(ngroups * weightCn, weightCn, outCn).Success? <==> outCn % ngroups == 0
    ensures GroupCount(ngroups * weightCn, weightCn, outCn).Success? ==>
      GroupCount(ngroups * weightCn, weightCn, outCn).value == ngroups
  {
    DivModUnique(ngroups * weightCn, weightCn, ngroups, 0);
    DivModUnique(ngroups * weightCn, ngroups, weightCn, 0);
  }

  /** The shape-time check is laxer than the forward-time one (line 927):
      6 input channels with 4-channel weights pass it with one group, yet
      `forward` rejects them because 6 is not a multiple of 4. */
  lemma GroupCheckLaxerThanForward()
    ensures GroupCount(6, 4, 8) == Success(1)
    ensures ForwardGroupCount(6, 4, 8).Failure?
  {
  }

  /** Lines 927-929: `inpCn % weightCn == 0` is asserted first, then
      `ngroups = inpCn/weightCn` must divide the output channels. */
  function ForwardGroupCount(inpCn: nat, weightCn: nat, outCn: nat): (r: Result<nat>)
    ensures r.Success? <==> (weightCn >= 1 && inpCn >= weightCn && inpCn % weightCn == 0 &&
      outCn % (inpCn / weightCn) == 0)
    ensures r.Success? ==> r.value * weightCn == inpCn && outCn % r.value == 0
  {
    if weightCn == 0 || inpCn % weightCn != 0 then Result<nat>.Failure("input channels are not a multiple of the weight channels")
    else if inpCn / weightCn == 0 then
      assert inpCn == 0 by { assert inpCn == (inpCn / weightCn) * weightCn + inpCn % weightCn; }
      Result<nat>.Failure("ngroups would divide by zero")
    else
      var ngroups := inpCn / weightCn;
      assert ngroups * weightCn == inpCn by { assert inpCn == ngroups * weightCn + inpCn % weightCn; }
      assert inpCn >= weightCn by { MulAtLeast(ngroups, weightCn); }
      if outCn % ngroups == 0 then Success(ngroups)
      else Result<nat>.Failure("output channels are not divisible by the group count")
  }

  // ------------------------------------------------------------ memory shapes

  /** A 4-d `(N, C, H, W)` shape with non-negative extents. */
  predicate Dims4(s: Shape)
  {
    |s| == 4 && s[0] >= 0 && s[1] >= 0 && s[2] >= 0 && s[3] >= 0
  }

  /** The layer's blobs as shapes: `blobs[0]` the 4-d weights, `blobs[1]`
      (when present) the bias. */
  predicate HasBias(blobs: seq<Shape>) { |blobs| >= 2 }

  /** Lines 155-157 and 1002: a bias, when present, has one entry per
      output channel (`blobs[0].size[0]`). */
  predicate BiasShapeOk(blobs: seq<Shape>)
    requires |blobs| >= 1 && |blobs[0]| == 4
  {
    !HasBias(blobs) || Total(blobs[1]) == blobs[0][0]
  }

  /** `ConvolutionLayerImpl::getMemoryShapes` (lines 150-186) for the explicit
      padding mode: one output of shape `(N, outCn, outH, outW)`, no internals. */
  function ConvMemoryShapes(p: Params, blobs: seq<Shape>, inputs: seq<Shape>):
    (r: Result<(seq<Shape>, seq<Shape>)>)
    requires p.Valid()
    requires |blobs| >= 1 ==> Dims4(blobs[0])
    requires |inputs| >= 1 ==> Dims4(inputs[0])
    ensures r.Success? <==> (|blobs| != 0 && BiasShapeOk(blobs) && |inputs| == 1 &&
      GroupCount(inputs[0][1], blobs[0][1], blobs[0][0]).Success?)
    ensures r.Success? ==> (r.value.1 == [] && |r.value.0| == 1 &&
      r.value.0[0] == [inputs[0][0], blobs[0][0],
                        ConvOutSize(inputs[0][2], p.kernelH, p.padH, p.strideH, p.dilationH),
                        ConvOutSize(inputs[0][3], p.kernelW, p.padW, p.strideW, p.dilationW)])
  {
    if |blobs| == 0 || !BiasShapeOk(blobs) || |inputs| != 1 then Failure("bad blobs or inputs")
    else
      var inp := inputs[0];
      var outCn := blobs[0][0];
      var outH := ConvOutSize(inp[2], p.kernelH, p.padH, p.strideH, p.dilationH);
      var outW := ConvOutSize(inp[3], p.kernelW, p.padW, p.strideW, p.dilationW);
      match GroupCount(inp[1], blobs[0][1], outCn)
      case Failure(e) => Failure(e)
      case Success(_) => Success(([[inp[0], outCn, outH, outW]], []))
  }

  /** Lines 1013-1016 for the deconvolution: the group check, and then
      `blobs[0].size[1] == inpCn/ngroups` (with `blobs[0].size[0] == outCn`
      holding by the definition of `outCn`). */
  predicate DeconvGroupsOk(inpCn: nat, weightCn: nat, outCn: nat)
  {
    match GroupCount(inpCn, weightCn, outCn)
    case Failure(_) => false
    case Success(ngroups) => weightCn == inpCn / ngroups
  }

  /** The deconvolution's check holds exactly when the input channels split
      into `ngroups` groups of `weightCn` channels each and the groups divide
      the output channels. */
  lemma DeconvGroupsExact(inpCn: nat, weightCn: nat, outCn: nat)
    ensures DeconvGroupsOk(inpCn, weightCn, outCn) <==>
      (weightCn >= 1 && inpCn % weightCn == 0 && inpCn >= weightCn && outCn % (inpCn / weightCn) == 0)
  {
    if weightCn >= 1 && inpCn % weightCn == 0 && inpCn >= weightCn {
      var ng := inpCn / weightCn;
      assert inpCn == ng * weightCn;
      assert ng >= 1;
      GroupCountExact(ng, weightCn, outCn);
      if outCn % ng == 0 {
        ExactQuotient(inpCn, ng, weightCn);
      }
    }
    match GroupCount(inpCn, weightCn, outCn)
    case Failure(_) =>
    case Success(ngroups) =>
      if weightCn == inpCn / ngroups {
        ExactQuotient(inpCn, ngroups, weightCn);
        DivModUnique(inpCn, weightCn, ngroups, 0);
      }
  }

  /** `DeConvolutionLayerImpl::getMemoryShapes` (lines 997-1033): every
      input gets an output of shape `(N, outCn, outH, outW)`; the internals
      are the col2im matrix (empty whenever `is1x1()` holds as written,
      padding or not) and, with a bias, a `1 x outH*outW` row. */
  function DeconvMemoryShapes(p: Params, blobs: seq<Shape>, inputs: seq<Shape>):
    (r: Result<(seq<Shape>, seq<Shape>)>)
    requires p.Valid()
    requires |blobs| >= 1 ==> Dims4(blobs[0])
    requires |inputs| >= 1 ==> Dims4(inputs[0])
    ensures r.Success? <==> (|blobs| != 0 && BiasShapeOk(blobs) && |inputs| != 0 &&
      DeconvGroupsOk(inputs[0][1], blobs[0][1], blobs[0][0]))
    ensures r.Success? ==> 1 <= blobs[0][1] <= inputs[0][1]
    ensures r.Success? ==>
      var outH := DeconvOutSize(inputs[0][2], p.kernelH, p.padH, p.strideH, p.adjH);
      var outW := DeconvOutSize(inputs[0][3], p.kernelW, p.padW, p.strideW, p.adjW);
      var outs := r.value.0;
      var ints := r.value.1;
      |outs| == |inputs| &&
      (forall i :: 0 <= i < |outs| ==> outs[i] == [inputs[0][0], blobs[0][0], outH, outW]) &&
      |ints| == (if HasBias(blobs) then 2 else 1) &&
      ints[0] == (if Is1x1AsWritten(p) then [] else
        DeconvColRowShape(p, blobs[0][1], inputs[0][1], inputs[0][2], inputs[0][3], blobs[0][0])) &&
      (HasBias(blobs) ==> ints[1] == [1, outH * outW])
  {
    if |blobs| == 0 || !BiasShapeOk(blobs) || |inputs| == 0 then Failure("bad blobs or inputs")
    else if !DeconvGroupsOk(inputs[0][1], blobs[0][1], blobs[0][0]) then
      Failure("channels do not split into the groups")
    else
      var inp := inputs[0];
      DeconvGroupsBounds(inp[1], blobs[0][1], blobs[0][0]);
      var outH := DeconvOutSize(inp[2], p.kernelH, p.padH, p.strideH, p.adjH);
      var outW := DeconvOutSize(inp[3], p.kernelW, p.padW, p.strideW, p.adjW);
      var dims := [inp[0], blobs[0][0], outH, outW];
      var colrow := if Is1x1AsWritten(p) then [] else DeconvColRowShape(p, blobs[0][1], inp[1], inp[2], inp[3], blobs[0][0]);
      var bias := if HasBias(blobs) then [[1, outH * outW]] else [];
      Success((seq(|inputs|, _ => dims), [colrow] + bias))
  }

  /** Channels that pass the deconvolution check have at least one weight
      channel, and no more than the input has. */
  lemma DeconvGroupsBounds(inpCn: nat, weightCn: nat, outCn: nat)
    requires DeconvGroupsOk(inpCn, weightCn, outCn)
    ensures 1 <= weightCn <= inpCn
  {
    DeconvGroupsExact(inpCn, weightCn, outCn);
  }

  lemma ExactQuotient(x: nat, n: nat, q: nat)
    requires n >= 1 && x % n == 0
    ensures x / n == q <==> q * n == x
  {
    assert x == (x / n) * n;
    if q * n == x {
      DivModUnique(x, n, q, 0);
    }
  }

  // ------------------------------------------------------------ col/row shapes

  /** Lines 143-149: the forward im2row matrix has one row per output
      position and `inpGroupCn*kernel_h*kernel_w` columns. */
  function ConvColRowShape(p: Params, weightCn: nat, outH: nat, outW: nat): (r: Shape)
    ensures |r| == 2 && Total(r) == (outH * outW) * (weightCn * (p.kernelH * p.kernelW))
  {
    TotalOfTwo(outH * outW, weightCn * p.kernelH * p.kernelW);
    [outH * outW, weightCn * p.kernelH * p.kernelW]
  }

  /** Lines 985-995: the deconvolution column matrix has one row per
      (output channel of a group, kernel tap) and one column per input
      position: `outGroupCn*kernel_h*kernel_w x inpH*inpW`. */
  function DeconvColRowShape(p: Params, weightCn: nat, inpCn: nat, inpH: nat, inpW: nat, outCn: nat): (r: Shape)
    requires weightCn >= 1 && inpCn >= weightCn
    ensures |r| == 2
    ensures r[0] == (outCn / (inpCn / weightCn)) * (p.kernelH * p.kernelW) && r[1] == inpH * inpW
  {
    var ngroups := inpCn / weightCn;
    assert ngroups >= 1 by { DivModUnique(inpCn, weightCn, inpCn / weightCn, inpCn % weightCn); }
    var outGroupCn := outCn / ngroups;
    [outGroupCn * p.kernelH * p.kernelW, inpH * inpW]
  }

  // ------------------------------------------------------------ is1x1

  /** `BaseConvolutionLayerImpl::is1x1` exactly as written (lines 92-97):
      a 1x1 kernel with unit stride and dilation; the padding is not looked at. */
  predicate Is1x1AsWritten(p: Params)
  {
    p.kernelH == 1 && p.kernelW == 1 && p.strideH == 1 && p.strideW == 1 &&
    p.dilationH == 1 && p.dilationW == 1
  }

  /** `is1x1` as the deconvolution path needs it: additionally no padding.
      Only then is the column matrix the output itself. */
  predicate Is1x1(p: Params)
  {
    Is1x1AsWritten(p) && p.padH == 0 && p.padW == 0
  }

  /** In the 1x1 case the column matrix and the output plane have the same
      extent (so `colMat` may be `dstMat`), given `adj < stride`. */
  lemma Is1x1SameExtent(p: Params, inpH: nat, inpW: nat)
    requires p.Valid() && Is1x1(p) && p.adjH < p.strideH && p.adjW < p.strideW
    ensures DeconvOutSize(inpH, p.kernelH, p.padH, p.strideH, p.adjH) == inpH
    ensures DeconvOutSize(inpW, p.kernelW, p.padW, p.strideW, p.adjW) == inpW
  {
  }

  /** The as-written predicate accepts a padded 1x1 deconvolution whose
      output plane (here 1x1) is smaller than the input plane (3x3) the
      matrix multiply writes per row: 9 columns are written into rows of 1
      element, so the rows of `dstMat` overlap and the last ones run past it. */
  lemma Is1x1IgnoresPadding()
    ensures var p := Params(1, 1, 1, 1, 1, 1, 1, 1, 0, 0);
      Is1x1AsWritten(p) && !Is1x1(p) &&
      DeconvOutSize(3, 1, 1, 1, 0) == 1 && 3 * 3 > DeconvOutSize(3, 1, 1, 1, 0) * DeconvOutSize(3, 1, 1, 1, 0)
  {
  }

  /** `ParallelConv::run`'s `is1x1_` exactly as written (line 303): a 0x0
      kernel and no padding. */
  predicate ForwardIs1x1(p: Params)
  {
    p.kernelH == 0 && p.kernelW == 0 && p.padH == 0 && p.padW == 0
  }

  /** No valid kernel is 0x0, so the forward 1x1 gather branch never runs. */
  lemma ForwardIs1x1Never(p: Params)
    requires p.Valid()
    ensures !ForwardIs1x1(p)
  {
  }

  // ------------------------------------------------------------ FLOPS

  /** The forward FLOP count of the first `n` (input, output) pairs:
      each output element costs `2*kernel.area()*inputChannels + 1`. */
  function FlopsPrefix(p: Params, inputs: seq<Shape>, outputs: seq<Shape>, n: nat): int
    requires n <= |inputs| && n <= |outputs|
    requires forall i :: 0 <= i < |inputs| ==> |inputs[i]| >= 2
  {
    if n == 0 then 0
    else
      FlopsPrefix(p, inputs, outputs, n - 1) +
      Total(outputs[n - 1]) * (2 * (p.kernelH * p.kernelW) * inputs[n - 1][1] + 1)
  }

  /** Lines 965-977: sums the per-pair counts; fails when the numbers of
      inputs and outputs differ. The `int64` accumulator is exact here. */
  method ConvFlops(p: Params, inputs: seq<Shape>, outputs: seq<Shape>) returns (r: Result<int>)
    requires forall i :: 0 <= i < |inputs| ==> |inputs[i]| >= 2
    ensures r.Success? <==> |inputs| == |outputs|
    ensures r.Success? ==> r.value == FlopsPrefix(p, inputs, outputs, |inputs|)
  {
    if |inputs| != |outputs| {
      return Failure("inputs and outputs differ in number");
    }
    var flops := 0;
    var i := 0;
    while i < |inputs|
      invariant 0 <= i <= |inputs|
      invariant flops == FlopsPrefix(p, inputs, outputs, i)
    {
      flops := flops + Total(outputs[i]) * (2 * (p.kernelH * p.kernelW) * inputs[i][1] + 1);
      i := i + 1;
    }
    return Success(flops);
  }

  /** One multiply and one add per weight, plus the bias add, per output
      element: for one `(N, outCn, outH, outW)` output over `inpCn` input
      channels the count is `N*outCn*outH*outW*(2*karea*inpCn + 1)`, and
      the count never decreases as pairs are added. */
  lemma FlopsSingleAndMonotone(p: Params, inputs: seq<Shape>, outputs: seq<Shape>, n: nat)
    requires |inputs| == |outputs| && 1 <= n <= |inputs|
    requires forall i :: 0 <= i < |inputs| ==> |inputs[i]| >= 2
    requires forall i, j :: 0 <= i < |inputs| && 0 <= j < |inputs[i]| ==> inputs[i][j] >= 0
    requires forall i :: 0 <= i < |outputs| ==> |outputs[i]| == 4 && Dims4(outputs[i])
    ensures FlopsPrefix(p, inputs, outputs, 1) ==
      (((outputs[0][0] * outputs[0][1]) * outputs[0][2]) * outputs[0][3]) *
      (2 * (p.kernelH * p.kernelW) * inputs[0][1] + 1)
    ensures FlopsPrefix(p, inputs, outputs, n - 1) <= FlopsPrefix(p, inputs, outputs, n)
  {
    var o := outputs[0];
    assert o == [o[0], o[1], o[2], o[3]];
    TotalOfFour(o[0], o[1], o[2], o[3]);
    var q := outputs[n - 1];
    assert q == [q[0], q[1], q[2], q[3]];
    TotalOfFour(q[0], q[1], q[2], q[3]);
    MulNonneg(q[0], q[1]);
    MulNonneg(q[0] * q[1], q[2]);
    MulNonneg(q[0] * q[1] * q[2], q[3]);
    MulNonneg(p.kernelH, p.kernelW);
    MulNonneg(2 * (p.kernelH * p.kernelW), inputs[n - 1][1]);
    MulNonneg(Total(q), 2 * (p.kernelH * p.kernelW) * inputs[n - 1][1] + 1);
  }
}
