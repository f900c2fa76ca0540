/** `ConvolutionLayerImpl::forward` (lines 921-963): prepare the weight
    matrix with its rows padded to a multiple of `VEC_ALIGN`, then run the
    stripe kernel. */
module ConvLayer {
  import opened Arith
  import opened ConvGeometry
  import opened ConvPrep
  import opened ConvStripe

  /** Padding the weight rows does not change any weight row the kernel reads. */
  lemma PaddedWeightRow(g: Geometry, blob: seq<int>, wstep: nat, oc: nat)
    requires g.Valid() && |blob| == g.OutCnAll() * g.RowLen() && g.RowLen() <= wstep
    requires oc < g.OutCnAll()
    ensures |PaddedRows(blob, g.RowLen(), wstep, g.OutCnAll())| == g.OutCnAll() * wstep
    ensures WeightRow(g, PaddedRows(blob, g.RowLen(), wstep, g.OutCnAll()), wstep, oc) ==
      WeightRow(g, blob, g.RowLen(), oc)
  {
    var cols := g.RowLen();
    var pr := PaddedRows(blob, cols, wstep, g.OutCnAll());
    PaddedLength(blob, cols, wstep, g.OutCnAll());
    var rs, bs := PaddedRowAt(blob, cols, wstep, g.OutCnAll(), oc);
    var row := blob[bs .. bs + cols] + Zeros(wstep - cols);
    assert pr[rs .. rs + cols] == pr[rs .. rs + wstep][..cols] == row[..cols];
    assert row[..cols] == blob[bs .. bs + cols];
  }

  /** The convolution with the padded weights is the convolution with the
      blob's own `outCn x inpCn*karea` weights. */
  lemma PaddedConvOut(g: Geometry, inp: seq<int>, blob: seq<int>, wstep: nat, bias: seq<int>,
                      s: nat, c: nat, p: nat)
    requires g.Valid() && |blob| == g.OutCnAll() * g.RowLen() && g.RowLen() <= wstep
    requires |bias| >= g.OutCnAll() && s < g.BatchSize() && c < g.outCn
    ensures |PaddedRows(blob, g.RowLen(), wstep, g.OutCnAll())| == g.OutCnAll() * wstep
    ensures ConvOut(g, inp, PaddedRows(blob, g.RowLen(), wstep, g.OutCnAll()), wstep, bias, s, c, p) ==
      ConvOut(g, inp, blob, g.RowLen(), bias, s, c, p)
  {
    StartOutCnBound(g, s, c);
    PaddedWeightRow(g, blob, wstep, g.StartOutCn(s) + c);
  }

  /** `forward` for one input: pad the weights (lines 933-947), then
      `ParallelConv::run` (line 959). Every output element is the
      convolution of the input with the blob's weights plus the bias. */
  method ConvForward(g: Geometry, inp: array<int>, blob: array<int>, bias: seq<int>,
                     out: array<int>, nstripes: nat)
    requires InputOk(g, inp[..]) && blob.Length == g.OutCnAll() * g.RowLen()
    requires |bias| == 0 || |bias| == g.OutCnAll()
    requires nstripes >= 1 && out.Length == g.OutSize() && out != inp && out != blob
    modifies out
    ensures forall s, c, p :: 0 <= s < g.BatchSize() && 0 <= c < g.outCn && 0 <= p < g.OutPlane() ==>
      OutAt(g, out[..], s, c, p) ==
        ConvOut(g, inp[..], blob[..], g.RowLen(), EffectiveBias(bias, g.OutCnAll()), s, c, p)
  {
    var wm, wstep := PadWeights(blob, g.OutCnAll(), g.RowLen());
    PaddedLength(blob[..], g.RowLen(), wstep, g.OutCnAll());
    Run(g, inp, wm[..], wstep, bias, out, nstripes);
    forall s, c, p | 0 <= s < g.BatchSize() && 0 <= c < g.outCn && 0 <= p < g.OutPlane()
      ensures OutAt(g, out[..], s, c, p) ==
        ConvOut(g, inp[..], blob[..], g.RowLen(), EffectiveBias(bias, g.OutCnAll()), s, c, p)
    {
      PaddedConvOut(g, inp[..], blob[..], wstep, EffectiveBias(bias, g.OutCnAll()), s, c, p);
    }
  }
}
