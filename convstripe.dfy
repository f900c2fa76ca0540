/** `ParallelConv::operator()` and `ParallelConv::run` (lines 272-581):
    the loops over stripes, channel blocks and tiles that drive the gather
    and the kernel, and the proof that together they compute the
    convolution of every output element exactly once. */
module ConvStripe {
  import opened Arith
  import opened Sums
  import opened ConvGeometry
  import opened ConvPrep
  import opened ConvPartition
  import opened ConvGather
  import opened ConvKernel

  // ------------------------------------------------------------ tiles of rowbuf

  /** Row `d` of the tile buffer `r`: `len` entries starting at `d*vsza`. */
  function TileRow(r: seq<int>, d: nat, vsza: nat, len: nat): seq<int>
  {
    if d * vsza + len <= |r| then r[d * vsza .. d * vsza + len] else []
  }

  /** Rows `p - ofs0` (`vsza` apart) of the tile buffer `r`, for the
      positions `p` in `[ofs0, ofs0 + n)`, are the im2row rows of channel
      block `[cn0, cn0 + ncn)`. */
  predicate TileRows(g: Geometry, inp: seq<int>, r: seq<int>, s: nat, cn0: nat, ncn: nat,
                     ofs0: nat, n: nat, vsza: nat)
  {
    g.Valid() &&
    forall p :: ofs0 <= p < ofs0 + n ==>
      (p - ofs0) * vsza + g.Karea() * ncn <= |r| &&
      TileRow(r, p - ofs0, vsza, g.Karea() * ncn) == BlockRow(g, inp, s, p, cn0, ncn)
  }

  /** A row that lies inside an unchanged prefix is unchanged. */
  lemma PrefixRow(a: seq<int>, a': seq<int>, d: nat, n: nat, vsza: nat, len: nat)
    requires d < n && len <= vsza && |a'| == |a| && n * vsza <= |a|
    requires a'[..n * vsza] == a[..n * vsza]
    ensures d * vsza + len <= n * vsza
    ensures TileRow(a', d, vsza, len) == TileRow(a, d, vsza, len)
  {
    RowFits(n, vsza, d, len);
    var lo := d * vsza;
    assert a'[lo .. lo + len] == a'[..n * vsza][lo .. lo + len];
    assert a[lo .. lo + len] == a[..n * vsza][lo .. lo + len];
  }

  /** Gathering row `n` without touching what lies before it keeps rows `[0, n)`. */
  lemma TileRowsStep(g: Geometry, inp: seq<int>, a: seq<int>, a': seq<int>, s: nat, cn0: nat, ncn: nat,
                     ofs0: nat, n: nat, vsza: nat)
    requires TileRows(g, inp, a, s, cn0, ncn, ofs0, n, vsza) && g.Karea() * ncn <= vsza
    requires |a'| == |a| && n * vsza + g.Karea() * ncn <= |a'| && a'[..n * vsza] == a[..n * vsza]
    requires TileRow(a', n, vsza, g.Karea() * ncn) == BlockRow(g, inp, s, ofs0 + n, cn0, ncn)
    ensures TileRows(g, inp, a', s, cn0, ncn, ofs0, n + 1, vsza)
  {
    var vsz := g.Karea() * ncn;
    forall p | ofs0 <= p < ofs0 + n + 1
      ensures (p - ofs0) * vsza + vsz <= |a'| &&
        TileRow(a', p - ofs0, vsza, vsz) == BlockRow(g, inp, s, p, cn0, ncn)
    {
      var i := p - ofs0;
      if i < n {
        PrefixRow(a, a', i, n, vsza, vsz);
      } else {
        assert i == n;
        assert i * vsza == n * vsza;
      }
    }
  }

  /** Lines 432-476: the im2row rows of the tile positions `[ofs0, ofs0 + bsz)`,
      each through the interior path when the window lies inside the image
      and through the boundary path otherwise. (The 1x1 branch of lines
      415-430 is never taken: see `ConvShapes.ForwardIs1x1Never`.) */
  method GatherTile(g: Geometry, inp: array<int>, ofstab: array<int>, s: nat, cn0: nat, ncn: nat,
                    ofs0: nat, bsz: nat, vsza: nat, rowbuf: array<int>)
    requires InputOk(g, inp[..]) && s < g.BatchSize() && 1 <= ncn <= BlkSizeCn && cn0 + ncn <= g.inpCn
    requires ofstab.Length == g.Karea() * TableChannels(g)
    requires forall q :: 0 <= q < ofstab.Length ==> ofstab[q] == TapOffset(g, q)
    requires ofs0 + bsz <= g.OutPlane() && g.Karea() * ncn <= vsza && bsz * vsza <= rowbuf.Length
    requires rowbuf != inp && rowbuf != ofstab
    modifies rowbuf
    ensures TileRows(g, inp[..], rowbuf[..], s, cn0, ncn, ofs0, bsz, vsza)
  {
    var ofs := ofs0;
    while ofs < ofs0 + bsz
      invariant ofs0 <= ofs <= ofs0 + bsz
      invariant TileRows(g, inp[..], rowbuf[..], s, cn0, ncn, ofs0, ofs - ofs0, vsza)
    {
      RowFits(bsz, vsza, ofs - ofs0, g.Karea() * ncn);
      var rb := (ofs - ofs0) * vsza;
      ghost var before := rowbuf[..];
      if Interior(g, ofs) {
        GatherInterior(g, inp, ofstab, s, ofs, cn0, ncn, rowbuf, rb);
      } else {
        GatherBoundary(g, inp, s, ofs, cn0, ncn, rowbuf, rb);
      }
      assert TileRow(rowbuf[..], ofs - ofs0, vsza, g.Karea() * ncn) == rowbuf[rb .. rb + g.Karea() * ncn];
      TileRowsStep(g, inp[..], before, rowbuf[..], s, cn0, ncn, ofs0, ofs - ofs0, vsza);
      ofs := ofs + 1;
    }
  }

  /** `(BLK_SIZE-1)*vsz_a + vsz` and in fact `bsz*vsz_a` stay within
      `rowbufsz = karea*BLK_SIZE_CN*BLK_SIZE`. */
  lemma RowbufFits(ka: nat, ncn: nat, bsz: nat, vsz: nat, vsza: nat, len: nat)
    requires 1 <= ncn <= BlkSizeCn && bsz <= BlkSize
    requires vsz == ka * ncn && vsza == AlignSize(vsz, VecAlign) && len >= ka * BlkSizeCn * BlkSize
    ensures vsz <= vsza && bsz * vsza <= len
  {
    RowbufFitsArith(ka, ncn, bsz);
  }

  lemma RowbufFitsArith(ka: nat, ncn: nat, bsz: nat)
    requires 1 <= ncn <= BlkSizeCn && bsz <= BlkSize
    ensures ka * ncn <= AlignSize(ka * ncn, VecAlign)
    ensures bsz * AlignSize(ka * ncn, VecAlign) <= ka * BlkSizeCn * BlkSize
  {
    var vsza := AlignSize(ka * ncn, VecAlign);
    var m := ka * BlkSizeCn;
    MulMonoLeft(ncn, BlkSizeCn, ka);
    assert ka * ncn <= m by { assert ncn * ka == ka * ncn; assert BlkSizeCn * ka == m; }
    assert m == (ka * 8) * VecAlign;
    ModOfMultiple(ka * 8, VecAlign);
    var q := vsza / VecAlign;
    assert vsza == q * VecAlign by { ModOfMultiple(CeilDiv(ka * ncn, VecAlign), VecAlign); }
    assert q * VecAlign < (ka * 8) * VecAlign + VecAlign;
    if q > ka * 8 {
      MulMonoLeft(ka * 8 + 1, q, VecAlign);
    }
    MulMonoLeft(q, ka * 8, VecAlign);
    MulMonoLeft(bsz, BlkSize, vsza);
    assert ka * BlkSizeCn * BlkSize == m * BlkSize;
  }

  // ------------------------------------------------------------ partial sums

  /** Channels `[cn0, cn0+ncn)` of the im2row row are the block row of those channels. */
  lemma Im2RowBlock(g: Geometry, inp: seq<int>, s: nat, p: nat, cn0: nat, ncn: nat)
    requires g.Valid() && cn0 + ncn <= g.inpCn
    ensures ChannelSlice(g, Im2Row(g, inp, s, p), cn0, ncn) == BlockRow(g, inp, s, p, cn0, ncn)
  {
    var ka := g.Karea();
    ChannelSpan(g, cn0, ncn);
    BlockRowThree(g, inp, s, p, cn0, ncn, g.inpCn);
    MulComm(ka, cn0);
    MiddleSlice(BlockRow(g, inp, s, p, 0, cn0), BlockRow(g, inp, s, p, cn0, ncn),
                BlockRow(g, inp, s, p, cn0 + ncn, g.inpCn - (cn0 + ncn)), cn0 * ka, ka * ncn);
  }

  /** The block row of channels `[0, total)` in three parts. */
  lemma BlockRowThree(g: Geometry, inp: seq<int>, s: nat, p: nat, cn0: nat, ncn: nat, total: nat)
    requires g.Valid() && cn0 + ncn <= total
    ensures BlockRow(g, inp, s, p, 0, total) ==
      BlockRow(g, inp, s, p, 0, cn0) + BlockRow(g, inp, s, p, cn0, ncn) +
      BlockRow(g, inp, s, p, cn0 + ncn, total - (cn0 + ncn))
  {
    var m := cn0 + ncn;
    var rest := total - m;
    BlockRowSplit(g, inp, s, p, 0, m, rest);
    assert m + rest == total;
    BlockRowSplit(g, inp, s, p, 0, cn0, ncn);
    var x, y, z := BlockRow(g, inp, s, p, 0, cn0), BlockRow(g, inp, s, p, cn0, ncn), BlockRow(g, inp, s, p, m, rest);
    assert BlockRow(g, inp, s, p, 0, total) == (x + y) + z;
  }


  lemma MiddleSlice(x: seq<int>, y: seq<int>, z: seq<int>, n: nat, m: nat)
    requires |x| == n && |y| == m
    ensures (x + y + z)[n .. n + m] == y
  {
  }


  /** The kernel's weight block is channels `[cn0, cn0+ncn)` of the weight
      row of output channel `startOutCn + c`. */
  lemma WeightBlock(g: Geometry, wts: seq<int>, wstep: nat, s: nat, c: nat, cn0: nat, ncn: nat)
    requires g.Valid() && wstep >= g.RowLen() && |wts| == g.OutCnAll() * wstep
    requires c < g.outCn && cn0 + ncn <= g.inpCn
    ensures g.StartOutCn(s) + c < g.OutCnAll()
    ensures ChannelSlice(g, WeightRow(g, wts, wstep, g.StartOutCn(s) + c), cn0, ncn) ==
      WeightBlockOf(g, wts, wstep, s, c, cn0, ncn)
  {
    var oc, n, m := g.StartOutCn(s) + c, cn0 * g.Karea(), g.Karea() * ncn;
    ChannelSpan(g, cn0, ncn);
    StartOutCnBound(g, s, c);
    RowFits(g.OutCnAll(), wstep, oc, g.RowLen());
    SubSlice(wts, oc * wstep, g.RowLen(), n, m);
  }

  lemma SubSlice(w: seq<int>, o: nat, len: nat, n: nat, m: nat)
    requires o + len <= |w| && n + m <= len
    ensures w[o .. o + len][n .. n + m] == w[o + n .. o + n + m]
  {
    var u := w[o .. o + len][n .. n + m];
    assert forall k :: 0 <= k < m ==> u[k] == w[o + n .. o + n + m][k];
  }

  /** One channel block of the dot product: the output after the first
      `cn0 + ncn` input channels is the output after the first `cn0` plus
      the kernel's weight block times the im2row row of the block. */
  lemma PartialBlock(g: Geometry, inp: seq<int>, wts: seq<int>, wstep: nat, bias: seq<int>,
                     s: nat, c: nat, p: nat, cn0: nat, ncn: nat)
    requires WeightsOk(g, wts, wstep, bias) && s < g.BatchSize() && c < g.outCn && cn0 + ncn <= g.inpCn
    ensures Partial(g, inp, wts, wstep, bias, s, c, p, cn0 + ncn) ==
      Partial(g, inp, wts, wstep, bias, s, c, p, cn0) +
      Dot(WeightBlockOf(g, wts, wstep, s, c, cn0, ncn), BlockRow(g, inp, s, p, cn0, ncn))
  {
    var ka := g.Karea();
    var n, m := cn0 * ka, ka * ncn;
    var oc := g.StartOutCn(s) + c;
    WeightBlock(g, wts, wstep, s, c, cn0, ncn);
    Im2RowBlock(g, inp, s, p, cn0, ncn);
    ChannelSpan(g, cn0, ncn);
    var w := WeightRow(g, wts, wstep, oc);
    var im := Im2Row(g, inp, s, p);
    DotSplit(w[..n + m], im[..n + m], n);
    assert w[..n + m][..n] == w[..n] && im[..n + m][..n] == im[..n];
    assert w[..n + m][n..] == w[n .. n + m] && im[..n + m][n..] == im[n .. n + m];
  }

  /** With no channel accumulated the output is the bias alone. */
  lemma PartialZero(g: Geometry, inp: seq<int>, wts: seq<int>, wstep: nat, bias: seq<int>,
                    s: nat, c: nat, p: nat)
    requires WeightsOk(g, wts, wstep, bias) && s < g.BatchSize() && c < g.outCn
    ensures Partial(g, inp, wts, wstep, bias, s, c, p, 0) == ChannelBias(g, bias, s, c)
  {
    assert 0 * g.Karea() == 0;
  }

  /** The kernel's dot product for channel `c` on a gathered tile row is the
      weight block times the block row of position `p`. */
  lemma TileEntry(g: Geometry, inp: seq<int>, wts: seq<int>, wstep: nat, r: seq<int>,
                  s: nat, c: nat, p: nat, cn0: nat, ncn: nat, ofs0: nat, vsza: nat)
    requires g.Valid() && wstep >= g.RowLen() && |wts| == g.OutCnAll() * wstep
    requires c < g.outCn && cn0 + ncn <= g.inpCn && ofs0 <= p
    requires (p - ofs0) * vsza + g.Karea() * ncn <= |r|
    requires TileRow(r, p - ofs0, vsza, g.Karea() * ncn) == BlockRow(g, inp, s, p, cn0, ncn)
    ensures TileDot(wts, WeightOfs(g, wstep, s, c, cn0), r, (p - ofs0) * vsza, g.Karea() * ncn) ==
      Dot(WeightBlockOf(g, wts, wstep, s, c, cn0, ncn), BlockRow(g, inp, s, p, cn0, ncn))
  {
    WeightOfsFits(g, wstep, s, c, cn0, ncn);
  }

  // ------------------------------------------------------------ stripes

  /** Every output of sub-sample `s`, channel `c < outCn` and position in
      `[lo, hi)` holds the partial sum over the first `cn` input channels. */
  predicate StripeAt(g: Geometry, a: seq<int>, inp: seq<int>, wts: seq<int>, wstep: nat, bias: seq<int>,
                     s: nat, lo: nat, hi: nat, cn: nat)
  {
    WeightsOk(g, wts, wstep, bias) && |a| == g.OutSize() && s < g.BatchSize() &&
    hi <= g.OutPlane() && cn <= g.inpCn &&
    forall c, p :: 0 <= c < g.outCn && lo <= p < hi ==>
      OutAt(g, a, s, c, p) == Partial(g, inp, wts, wstep, bias, s, c, p, cn)
  }

  /** One tile finished for channel block `[cn0, cn0 + ncn)`: the first
      block starts from the bias, a later block from what the earlier ones
      left, and either way the tile then holds the partial sums over the
      first `cn0 + ncn` channels. */
  lemma TileToPartial(g: Geometry, inp: seq<int>, wts: seq<int>, wstep: nat, bias: seq<int>,
                      r: seq<int>, a: seq<int>, o: seq<int>, s: nat, cn0: nat, ncn: nat,
                      ofs0: nat, bsz: nat, vsza: nat)
    requires WeightsOk(g, wts, wstep, bias) && s < g.BatchSize() && cn0 + ncn <= g.inpCn
    requires TileRows(g, inp, r, s, cn0, ncn, ofs0, bsz, vsza)
    requires TileDone(g, a, o, s, g.outCn, ofs0, bsz, cn0 == 0, bias, wts, wstep, cn0, r, vsza, g.Karea() * ncn)
    requires cn0 > 0 ==> StripeAt(g, o, inp, wts, wstep, bias, s, ofs0, ofs0 + bsz, cn0)
    ensures StripeAt(g, a, inp, wts, wstep, bias, s, ofs0, ofs0 + bsz, cn0 + ncn)
  {
    forall c, p | 0 <= c < g.outCn && ofs0 <= p < ofs0 + bsz
      ensures OutAt(g, a, s, c, p) == Partial(g, inp, wts, wstep, bias, s, c, p, cn0 + ncn)
    {
      var before := if cn0 == 0 then ChannelBias(g, bias, s, c) else OutAt(g, o, s, c, p);
      assert TileRow(r, p - ofs0, vsza, g.Karea() * ncn) == BlockRow(g, inp, s, p, cn0, ncn);
      TilePoint(g, inp, wts, wstep, bias, r, s, c, p, cn0, ncn, ofs0, vsza, OutAt(g, a, s, c, p), before);
    }
  }

  /** `TileToPartial` at one output element `(c, p)` of the tile. */
  lemma TilePoint(g: Geometry, inp: seq<int>, wts: seq<int>, wstep: nat, bias: seq<int>, r: seq<int>,
                  s: nat, c: nat, p: nat, cn0: nat, ncn: nat, ofs0: nat, vsza: nat, v: int, before: int)
    requires WeightsOk(g, wts, wstep, bias) && s < g.BatchSize() && c < g.outCn && cn0 + ncn <= g.inpCn
    requires ofs0 <= p && (p - ofs0) * vsza + g.Karea() * ncn <= |r|
    requires TileRow(r, p - ofs0, vsza, g.Karea() * ncn) == BlockRow(g, inp, s, p, cn0, ncn)
    requires before == if cn0 == 0 then ChannelBias(g, bias, s, c) else Partial(g, inp, wts, wstep, bias, s, c, p, cn0)
    requires v == before + TileDot(wts, WeightOfs(g, wstep, s, c, cn0), r, (p - ofs0) * vsza, g.Karea() * ncn)
    ensures v == Partial(g, inp, wts, wstep, bias, s, c, p, cn0 + ncn)
  {
    TileEntry(g, inp, wts, wstep, r, s, c, p, cn0, ncn, ofs0, vsza);
    PartialBlock(g, inp, wts, wstep, bias, s, c, p, cn0, ncn);
    if cn0 == 0 {
      PartialZero(g, inp, wts, wstep, bias, s, c, p);
    }
  }

  /** The loop over tiles advances by one tile: `[lo, ofs0 + bsz)` is done
      for the block, `[ofs0 + bsz, hi)` still holds the earlier blocks' sums,
      and nothing outside the stripe has changed. */
  lemma TileAdvance(g: Geometry, inp: seq<int>, wts: seq<int>, wstep: nat, bias: seq<int>,
                    r: seq<int>, a: seq<int>, b: seq<int>, o: seq<int>, s: nat, cn0: nat, ncn: nat,
                    lo: nat, hi: nat, ofs0: nat, bsz: nat, vsza: nat)
    requires WeightsOk(g, wts, wstep, bias) && s < g.BatchSize() && cn0 + ncn <= g.inpCn
    requires lo <= ofs0 && ofs0 + bsz <= hi <= g.OutPlane()
    requires StripeAt(g, b, inp, wts, wstep, bias, s, lo, ofs0, cn0 + ncn)
    requires cn0 > 0 ==> StripeAt(g, b, inp, wts, wstep, bias, s, ofs0, hi, cn0)
    requires TileUntouched(g, b, o, s, g.outCn, lo, hi - lo)
    requires TileRows(g, inp, r, s, cn0, ncn, ofs0, bsz, vsza)
    requires TileDone(g, a, b, s, g.outCn, ofs0, bsz, cn0 == 0, bias, wts, wstep, cn0, r, vsza, g.Karea() * ncn)
    requires TileUntouched(g, a, b, s, g.outCn, ofs0, bsz)
    ensures StripeAt(g, a, inp, wts, wstep, bias, s, lo, ofs0 + bsz, cn0 + ncn)
    ensures cn0 > 0 ==> StripeAt(g, a, inp, wts, wstep, bias, s, ofs0 + bsz, hi, cn0)
    ensures TileUntouched(g, a, o, s, g.outCn, lo, hi - lo)
  {
    TileToPartial(g, inp, wts, wstep, bias, r, a, b, s, cn0, ncn, ofs0, bsz, vsza);
  }

  /** Lines 405-574 for one channel block: the loop over tiles of
      `BLK_SIZE` positions, each gathered and then multiplied by the
      kernel. (`ofs0 += BLK_SIZE` and `ofs0 = ofs1` differ only once
      `ofs1 == stripeEnd`, where both leave the loop.) */
  method ChannelBlock(g: Geometry, inp: array<int>, ofstab: array<int>, wts: seq<int>, wstep: nat,
                      bias: seq<int>, rowbuf: array<int>, out: array<int>, s: nat, cn0: nat,
                      lo: nat, hi: nat, ghost o: seq<int>)
    requires InputOk(g, inp[..]) && WeightsOk(g, wts, wstep, bias) && |bias| > g.OutCnAll()
    requires s < g.BatchSize() && cn0 < g.inpCn && lo <= hi <= g.OutPlane()
    requires ofstab.Length == g.Karea() * TableChannels(g)
    requires forall q :: 0 <= q < ofstab.Length ==> ofstab[q] == TapOffset(g, q)
    requires rowbuf.Length >= g.Karea() * BlkSizeCn * BlkSize && out.Length == g.OutSize()
    requires rowbuf != inp && rowbuf != ofstab && out != rowbuf && out != inp && out != ofstab
    requires cn0 > 0 ==> StripeAt(g, out[..], inp[..], wts, wstep, bias, s, lo, hi, cn0)
    requires TileUntouched(g, out[..], o, s, g.outCn, lo, hi - lo)
    modifies rowbuf, out
    ensures StripeAt(g, out[..], inp[..], wts, wstep, bias, s, lo, hi, cn0 + BlockChannels(g, cn0))
    ensures TileUntouched(g, out[..], o, s, g.outCn, lo, hi - lo)
  {
    var ncn := BlockChannels(g, cn0);
    MulNonneg(g.Karea(), ncn);
    var vsz := g.Karea() * ncn;
    var vsza := AlignSize(vsz, VecAlign);
    var ofs0 := lo;
    while ofs0 < hi
      invariant lo <= ofs0 <= hi
      invariant StripeAt(g, out[..], inp[..], wts, wstep, bias, s, lo, ofs0, cn0 + ncn)
      invariant cn0 > 0 ==> StripeAt(g, out[..], inp[..], wts, wstep, bias, s, ofs0, hi, cn0)
      invariant TileUntouched(g, out[..], o, s, g.outCn, lo, hi - lo)
    {
      var ofs1 := Min(ofs0 + BlkSize, hi);
      var bsz := ofs1 - ofs0;
      RowbufFits(g.Karea(), ncn, bsz, vsz, vsza, rowbuf.Length);
      GatherTile(g, inp, ofstab, s, cn0, ncn, ofs0, bsz, vsza, rowbuf);
      ghost var b := out[..];
      DotKernel(g, wts, wstep, bias, rowbuf, vsza, out, s, cn0, ncn, ofs0, bsz);
      TileAdvance(g, inp[..], wts, wstep, bias, rowbuf[..], out[..], b, o, s, cn0, ncn, lo, hi, ofs0, bsz, vsza);
      ofs0 := ofs1;
    }
  }

  /** The effect of one stripe: sub-sample `s`, positions `[lo, hi)`, every
      output channel of the group now holds its convolution; everything else
      is as in `o`. */
  predicate StripeResult(g: Geometry, a: seq<int>, o: seq<int>, inp: seq<int>, wts: seq<int>, wstep: nat,
                         bias: seq<int>, s: nat, lo: nat, hi: nat)
  {
    WeightsOk(g, wts, wstep, bias) && |a| == g.OutSize() && |o| == g.OutSize() &&
    forall s', c, p :: 0 <= s' < g.BatchSize() && 0 <= c < g.outCn && 0 <= p < g.OutPlane() ==>
      OutAt(g, a, s', c, p) ==
        if s' == s && lo <= p < hi then ConvOut(g, inp, wts, wstep, bias, s', c, p) else OutAt(g, o, s', c, p)
  }

  /** Lines 404-574 for one stripe: the loop over channel blocks of
      `BLK_SIZE_CN` channels (`cn0 += BLK_SIZE_CN` and `cn0 = cn1` differ
      only on the last block). */
  method ProcessStripe(g: Geometry, inp: array<int>, ofstab: array<int>, wts: seq<int>, wstep: nat,
                       bias: seq<int>, rowbuf: array<int>, out: array<int>, s: nat, lo: nat, hi: nat)
    requires InputOk(g, inp[..]) && WeightsOk(g, wts, wstep, bias) && |bias| > g.OutCnAll()
    requires s < g.BatchSize() && lo <= hi <= g.OutPlane()
    requires ofstab.Length == g.Karea() * TableChannels(g)
    requires forall q :: 0 <= q < ofstab.Length ==> ofstab[q] == TapOffset(g, q)
    requires rowbuf.Length >= g.Karea() * BlkSizeCn * BlkSize && out.Length == g.OutSize()
    requires rowbuf != inp && rowbuf != ofstab && out != rowbuf && out != inp && out != ofstab
    modifies rowbuf, out
    ensures StripeResult(g, out[..], old(out[..]), inp[..], wts, wstep, bias, s, lo, hi)
  {
    ghost var o := out[..];
    var cn0 := 0;
    while cn0 < g.inpCn
      invariant cn0 <= g.inpCn
      invariant cn0 > 0 ==> StripeAt(g, out[..], inp[..], wts, wstep, bias, s, lo, hi, cn0)
      invariant TileUntouched(g, out[..], o, s, g.outCn, lo, hi - lo)
    {
      ChannelBlock(g, inp, ofstab, wts, wstep, bias, rowbuf, out, s, cn0, lo, hi, o);
      cn0 := cn0 + BlockChannels(g, cn0);
    }
    StripeDone(g, out[..], o, inp[..], wts, wstep, bias, s, lo, hi);
  }

  lemma StripeDone(g: Geometry, a: seq<int>, o: seq<int>, inp: seq<int>, wts: seq<int>, wstep: nat,
                   bias: seq<int>, s: nat, lo: nat, hi: nat)
    requires lo <= hi
    requires StripeAt(g, a, inp, wts, wstep, bias, s, lo, hi, g.inpCn)
    requires TileUntouched(g, a, o, s, g.outCn, lo, hi - lo)
    ensures StripeResult(g, a, o, inp, wts, wstep, bias, s, lo, hi)
  {
  }

  // ------------------------------------------------------------ invocations

  /** After the (stretched) stripes `[lo, hi)` have run: an output element
      holds its convolution exactly when its owning stripe is among them,
      and is untouched otherwise. */
  predicate StripesDone(g: Geometry, a: seq<int>, o: seq<int>, inp: seq<int>, wts: seq<int>, wstep: nat,
                        bias: seq<int>, pt: Partition, lo: nat, hi: nat)
  {
    WeightsOk(g, wts, wstep, bias) && |a| == g.OutSize() && |o| == g.OutSize() && pt.size >= 1 &&
    forall s, c, p :: 0 <= s < g.BatchSize() && 0 <= c < g.outCn && 0 <= p < g.OutPlane() ==>
      OutAt(g, a, s, c, p) ==
        if lo <= Owner(pt, s, p) < hi then ConvOut(g, inp, wts, wstep, bias, s, c, p) else OutAt(g, o, s, c, p)
  }

  /** Running stripe `st` after stripes `[lo, st)` extends the done range to
      `[lo, st + 1)`: the stripe writes exactly the elements it owns. */
  lemma StripeStep(g: Geometry, a: seq<int>, b: seq<int>, o: seq<int>, inp: seq<int>, wts: seq<int>, wstep: nat,
                   bias: seq<int>, pt: Partition, lo: nat, st: nat)
    requires pt.perSample >= 1 && pt.size >= 1 && pt.perSample * pt.size >= g.OutPlane()
    requires StripesDone(g, b, o, inp, wts, wstep, bias, pt, lo, st) && lo <= st
    requires StripeResult(g, a, b, inp, wts, wstep, bias, SubsampleOf(pt, st), StripeStart(pt, st),
                          StripeEnd(pt, st, g.OutPlane()))
    ensures StripesDone(g, a, o, inp, wts, wstep, bias, pt, lo, st + 1)
  {
    forall s, c, p | 0 <= s < g.BatchSize() && 0 <= c < g.outCn && 0 <= p < g.OutPlane()
      ensures OutAt(g, a, s, c, p) ==
        if lo <= Owner(pt, s, p) < st + 1 then ConvOut(g, inp, wts, wstep, bias, s, c, p) else OutAt(g, o, s, c, p)
    {
      CoversIffOwner(pt, g.OutPlane(), st, s, p);
    }
  }

  /** A stretched stripe that does not run leaves everything as it is. */
  lemma NoStripe(g: Geometry, b: seq<int>, inp: seq<int>, wts: seq<int>, wstep: nat, bias: seq<int>,
                 s: nat, lo: nat, hi: nat)
    requires WeightsOk(g, wts, wstep, bias) && |b| == g.OutSize() && hi <= lo
    ensures StripeResult(g, b, b, inp, wts, wstep, bias, s, lo, hi)
  {
  }

  /** Past the `break` of line 393 no stripe owns anything. */
  lemma StripesBreak(g: Geometry, a: seq<int>, o: seq<int>, inp: seq<int>, wts: seq<int>, wstep: nat,
                     bias: seq<int>, pt: Partition, lo: nat, st: nat, hi: nat)
    requires pt.perSample >= 1 && pt.size >= 1 && pt.perSample * pt.size >= g.OutPlane()
    requires st <= hi && SubsampleOf(pt, st) >= g.BatchSize()
    requires StripesDone(g, a, o, inp, wts, wstep, bias, pt, lo, st)
    ensures StripesDone(g, a, o, inp, wts, wstep, bias, pt, lo, hi)
  {
    forall s, p | 0 <= s < g.BatchSize() && 0 <= p < g.OutPlane()
      ensures Owner(pt, s, p) < st
    {
      OwnerBefore(pt, g.BatchSize(), g.OutPlane(), st, s, p);
    }
  }

  /** Every element whose sub-sample exists is owned by a stripe before
      the first one whose sub-sample index is past the end. */
  lemma OwnerBefore(pt: Partition, batchSize: nat, planeSize: nat, st: nat, s: nat, p: nat)
    requires pt.perSample >= 1 && pt.size >= 1 && pt.perSample * pt.size >= planeSize
    requires SubsampleOf(pt, st) >= batchSize && s < batchSize && p < planeSize
    ensures Owner(pt, s, p) < st
  {
    DivLess(p, pt.size, pt.perSample);
    DivModUnique(Owner(pt, s, p), pt.perSample, s, p / pt.size);
    if Owner(pt, s, p) >= st {
      PastLastSubsample(pt, batchSize, st, Owner(pt, s, p));
    }
  }

  /** Lines 330-581: one invocation of `ParallelConv::operator()` on the
      range `[r0, r1)` of stripe indices (stretched by `samplesPerStripe` in
      the second regime). The row buffer is its own. */
  method Operator(g: Geometry, inp: array<int>, ofstab: array<int>, wts: seq<int>, wstep: nat,
                  bias: seq<int>, out: array<int>, nstripes: nat, r0: nat, r1: nat)
    requires InputOk(g, inp[..]) && WeightsOk(g, wts, wstep, bias) && |bias| > g.OutCnAll()
    requires ofstab.Length == g.Karea() * TableChannels(g)
    requires forall q :: 0 <= q < ofstab.Length ==> ofstab[q] == TapOffset(g, q)
    requires nstripes >= 1 && r0 <= r1
    requires out.Length == g.OutSize() && out != inp && out != ofstab
    modifies out
    ensures var pt := MakePartition(g.BatchSize(), g.OutPlane(), nstripes);
      StripesDone(g, out[..], old(out[..]), inp[..], wts, wstep, bias, pt, r0 * pt.mult, r1 * pt.mult)
  {
    var pt := MakePartition(g.BatchSize(), g.OutPlane(), nstripes);
    var rowbuf := new int[g.Karea() * BlkSizeCn * BlkSize];
    ghost var o := out[..];
    var first, last := r0 * pt.mult, r1 * pt.mult;
    MulMonoLeft(r0, r1, pt.mult);
    var stripe := first;
    while stripe < last
      invariant first <= stripe <= last
      invariant StripesDone(g, out[..], o, inp[..], wts, wstep, bias, pt, first, stripe)
    {
      var s := SubsampleOf(pt, stripe);
      if s >= g.BatchSize() {
        StripesBreak(g, out[..], o, inp[..], wts, wstep, bias, pt, first, stripe, last);
        break;
      }
      var lo := StripeStart(pt, stripe);
      var hi := StripeEnd(pt, stripe, g.OutPlane());
      ghost var b := out[..];
      if lo < hi {
        ProcessStripe(g, inp, ofstab, wts, wstep, bias, rowbuf, out, s, lo, hi);
      } else {
        NoStripe(g, b, inp[..], wts, wstep, bias, s, lo, hi);
      }
      StripeStep(g, out[..], b, o, inp[..], wts, wstep, bias, pt, first, stripe);
      stripe := stripe + 1;
    }
  }

  /** The bias the layer adds: the bias blob, or zeros when it is empty. */
  function EffectiveBias(bias: seq<int>, n: nat): (e: seq<int>)
    ensures |e| == n
    ensures |bias| == 0 ==> forall k :: 0 <= k < n ==> e[k] == 0
    ensures |bias| >= n ==> e == bias[..n]
  {
    seq(n, k => if 0 <= k < |bias| then bias[k] else 0)
  }

  /** Lines 272-328: `ParallelConv::run`. It builds the offset table and the
      padded bias vector, then runs every stripe index of
      `parallel_for_(Range(0, nstripes))`; the stripes are taken one after
      the other here. Every output element ends up holding the convolution
      of the input with the weights plus the bias. */
  method Run(g: Geometry, inp: array<int>, wts: seq<int>, wstep: nat, bias: seq<int>,
             out: array<int>, nstripes: nat)
    requires InputOk(g, inp[..]) && wstep >= g.RowLen() && |wts| == g.OutCnAll() * wstep
    requires |bias| == 0 || |bias| == g.OutCnAll()
    requires nstripes >= 1 && out.Length == g.OutSize() && out != inp
    modifies out
    ensures forall s, c, p :: 0 <= s < g.BatchSize() && 0 <= c < g.outCn && 0 <= p < g.OutPlane() ==>
      OutAt(g, out[..], s, c, p) == ConvOut(g, inp[..], wts, wstep, EffectiveBias(bias, g.OutCnAll()), s, c, p)
  {
    var ofstab := BuildOffsetTable(g);
    var biasvec := BuildBiasVector(bias, g.OutCnAll());
    ghost var o := out[..];
    RunStripes(g, inp, ofstab, wts, wstep, biasvec, out, nstripes);
    AllOwned(g, out[..], o, inp[..], wts, wstep, biasvec[..], bias, nstripes);
  }

  /** `parallel_for_(Range(0, nstripes), p, nstripes)` (line 328), with the
      invocations on `[k, k + 1)` taken one after the other. */
  method RunStripes(g: Geometry, inp: array<int>, ofstab: array<int>, wts: seq<int>, wstep: nat,
                    biasvec: array<int>, out: array<int>, nstripes: nat)
    requires InputOk(g, inp[..]) && WeightsOk(g, wts, wstep, biasvec[..]) && biasvec.Length > g.OutCnAll()
    requires ofstab.Length == g.Karea() * TableChannels(g)
    requires forall q :: 0 <= q < ofstab.Length ==> ofstab[q] == TapOffset(g, q)
    requires nstripes >= 1
    requires out.Length == g.OutSize() && out != inp && out != ofstab && out != biasvec
    modifies out
    ensures var pt := MakePartition(g.BatchSize(), g.OutPlane(), nstripes);
      StripesDone(g, out[..], old(out[..]), inp[..], wts, wstep, biasvec[..], pt, 0, nstripes * pt.mult)
  {
    var pt := MakePartition(g.BatchSize(), g.OutPlane(), nstripes);
    ghost var o := out[..];
    var k := 0;
    ghost var done := 0;
    while k < nstripes
      invariant k <= nstripes && done == k * pt.mult
      invariant StripesDone(g, out[..], o, inp[..], wts, wstep, biasvec[..], pt, 0, done)
    {
      ghost var b := out[..];
      Operator(g, inp, ofstab, wts, wstep, biasvec[..], out, nstripes, k, k + 1);
      MulSucc(k, pt.mult);
      StripesJoin(g, out[..], b, o, inp[..], wts, wstep, biasvec[..], pt, done, done + pt.mult);
      k, done := k + 1, done + pt.mult;
    }
  }

  /** Once every stretched stripe has run, every output element holds its
      convolution with the effective bias. */
  lemma AllOwned(g: Geometry, a: seq<int>, o: seq<int>, inp: seq<int>, wts: seq<int>, wstep: nat,
                 biasvec: seq<int>, bias: seq<int>, nstripes: nat)
    requires g.Valid() && nstripes >= 1
    requires |biasvec| == g.OutCnAll() + 2
    requires forall k :: 0 <= k < |biasvec| ==> biasvec[k] == BiasOrZero(bias, Min(k, g.OutCnAll() - 1))
    requires var pt := MakePartition(g.BatchSize(), g.OutPlane(), nstripes);
      StripesDone(g, a, o, inp, wts, wstep, biasvec, pt, 0, nstripes * pt.mult)
    ensures forall s, c, p :: 0 <= s < g.BatchSize() && 0 <= c < g.outCn && 0 <= p < g.OutPlane() ==>
      OutAt(g, a, s, c, p) == ConvOut(g, inp, wts, wstep, EffectiveBias(bias, g.OutCnAll()), s, c, p)
  {
    var pt := MakePartition(g.BatchSize(), g.OutPlane(), nstripes);
    forall s, c, p | 0 <= s < g.BatchSize() && 0 <= c < g.outCn && 0 <= p < g.OutPlane()
      ensures OutAt(g, a, s, c, p) == ConvOut(g, inp, wts, wstep, EffectiveBias(bias, g.OutCnAll()), s, c, p)
    {
      OwnerInRange(pt, g.BatchSize(), g.OutPlane(), nstripes, s, p);
      BiasVectorAgrees(g, inp, wts, wstep, biasvec, bias, s, c, p);
    }
  }

  /** Stripes `[0, m)` then `[m, n)` make stripes `[0, n)`. */
  lemma StripesJoin(g: Geometry, a: seq<int>, b: seq<int>, o: seq<int>, inp: seq<int>, wts: seq<int>, wstep: nat,
                    bias: seq<int>, pt: Partition, m: nat, n: nat)
    requires m <= n
    requires StripesDone(g, b, o, inp, wts, wstep, bias, pt, 0, m)
    requires StripesDone(g, a, b, inp, wts, wstep, bias, pt, m, n)
    ensures StripesDone(g, a, o, inp, wts, wstep, bias, pt, 0, n)
  {
  }

  /** The padded bias vector gives every output channel its bias. */
  lemma BiasVectorAgrees(g: Geometry, inp: seq<int>, wts: seq<int>, wstep: nat, biasvec: seq<int>, bias: seq<int>,
                         s: nat, c: nat, p: nat)
    requires g.Valid() && wstep >= g.RowLen() && |wts| == g.OutCnAll() * wstep
    requires |biasvec| == g.OutCnAll() + 2
    requires forall k :: 0 <= k < |biasvec| ==> biasvec[k] == BiasOrZero(bias, Min(k, g.OutCnAll() - 1))
    requires s < g.BatchSize() && c < g.outCn
    ensures ConvOut(g, inp, wts, wstep, biasvec, s, c, p) ==
      ConvOut(g, inp, wts, wstep, EffectiveBias(bias, g.OutCnAll()), s, c, p)
  {
    StartOutCnBound(g, s, c);
  }
}

