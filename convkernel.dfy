/** The scalar two-output-channel kernel of `ParallelConv::operator()`
    (lines 486-571). For one channel block and one tile of positions it
    seeds every output from the bias on the first block (`cn0 == 0`) and
    otherwise accumulates onto it, adding the dot product of the block of
    the weight row with the gathered im2row row. */
module ConvKernel {
  import opened Arith
  import opened Sums
  import opened ConvGeometry

  /** `Dot` of the `n` entries of `w` from `wo` with the `n` entries of `r`
      from `ro`; 0 where a range does not fit (the kernel never asks for one). */
  function TileDot(w: seq<int>, wo: nat, r: seq<int>, ro: nat, n: nat): int
  {
    if wo + n <= |w| && ro + n <= |r| then Dot(w[wo .. wo + n], r[ro .. ro + n]) else 0
  }

  lemma TileDotStep(w: seq<int>, wo: nat, r: seq<int>, ro: nat, n: nat)
    requires wo + n < |w| && ro + n < |r|
    ensures TileDot(w, wo, r, ro, n + 1) == TileDot(w, wo, r, ro, n) + w[wo + n] * r[ro + n]
  {
    assert w[wo .. wo + n + 1] == w[wo .. wo + n] + [w[wo + n]];
    assert r[ro .. ro + n + 1] == r[ro .. ro + n] + [r[ro + n]];
    DotSnoc(w[wo .. wo + n], r[ro .. ro + n], w[wo + n], r[ro + n]);
  }

  /** Lines 562-566: one im2row row against two weight rows, accumulated
      onto the seeds `s00` and `s10`. */
  method DotPair(w: seq<int>, w0: nat, w1: nat, r: array<int>, ro: nat, vsz: nat, s00: int, s10: int)
    returns (t0: int, t1: int)
    requires w0 + vsz <= |w| && w1 + vsz <= |w| && ro + vsz <= r.Length
    ensures t0 == s00 + TileDot(w, w0, r[..], ro, vsz)
    ensures t1 == s10 + TileDot(w, w1, r[..], ro, vsz)
  {
    t0, t1 := s00, s10;
    var k := 0;
    while k < vsz
      invariant k <= vsz
      invariant t0 == s00 + TileDot(w, w0, r[..], ro, k)
      invariant t1 == s10 + TileDot(w, w1, r[..], ro, k)
    {
      var r0 := r[ro + k];
      TileDotStep(w, w0, r[..], ro, k);
      TileDotStep(w, w1, r[..], ro, k);
      t0 := t0 + w[w0 + k] * r0;
      t1 := t1 + w[w1 + k] * r0;
      k := k + 1;
    }
  }

  /** Cells `[oa, oa + n)` of `a` hold their seed (the bias on the first
      block, the old value `o[x]` otherwise) plus their tile row's dot product. */
  predicate RowDone(a: seq<int>, o: seq<int>, oa: nat, n: nat, first: bool, bias: int,
                    w: seq<int>, wo: nat, r: seq<int>, vsza: nat, vsz: nat)
  {
    forall x :: oa <= x < oa + n ==>
      x < |a| && x < |o| && a[x] == (if first then bias else o[x]) + TileDot(w, wo, r, (x - oa) * vsza, vsz)
  }

  /** Outside the first `n` cells of the rows at `oa` and `ob`, `a` is `o`. */
  predicate Untouched(a: seq<int>, o: seq<int>, oa: nat, ob: nat, n: nat)
  {
    |a| == |o| &&
    forall x :: 0 <= x < |a| && !(oa <= x < oa + n) && !(ob <= x < ob + n) ==> a[x] == o[x]
  }

  /** One position of the tile loop: storing `s00` then `s10` extends both rows by one cell. */
  lemma KernelStep(a: seq<int>, o: seq<int>, w: seq<int>, wa: nat, wb: nat, biasA: int, biasB: int,
                   first: bool, r: seq<int>, vsza: nat, vsz: nat, bsz: nat, oa: nat, ob: nat, j: nat,
                   t0: int, t1: int)
    requires j < bsz && oa + bsz <= |a| && ob + bsz <= |a|
    requires oa == ob || oa + bsz <= ob || ob + bsz <= oa
    requires oa == ob ==> wa == wb && biasA == biasB
    requires RowDone(a, o, oa, j, first, biasA, w, wa, r, vsza, vsz)
    requires RowDone(a, o, ob, j, first, biasB, w, wb, r, vsza, vsz)
    requires Untouched(a, o, oa, ob, j)
    requires t0 == (if first then biasA else a[oa + j]) + TileDot(w, wa, r, j * vsza, vsz)
    requires t1 == (if first then biasB else a[ob + j]) + TileDot(w, wb, r, j * vsza, vsz)
    ensures var a' := a[oa + j := t0][ob + j := t1];
      RowDone(a', o, oa, j + 1, first, biasA, w, wa, r, vsza, vsz) &&
      RowDone(a', o, ob, j + 1, first, biasB, w, wb, r, vsza, vsz) &&
      Untouched(a', o, oa, ob, j + 1)
  {
  }

  /** Lines 546-570: the positions `j < bsz` of a tile for the two output
      rows at `oa` and `ob`. The rows are disjoint, or the same row with the
      same weights and bias (the aliasing of lines 494-499); nothing outside
      the two rows changes. */
  method KernelRows(w: seq<int>, wa: nat, wb: nat, biasA: int, biasB: int, first: bool,
                    rowbuf: array<int>, vsza: nat, vsz: nat, bsz: nat,
                    out: array<int>, oa: nat, ob: nat)
    requires wa + vsz <= |w| && wb + vsz <= |w| && vsz <= vsza && bsz * vsza <= rowbuf.Length
    requires oa + bsz <= out.Length && ob + bsz <= out.Length && out != rowbuf
    requires oa == ob || oa + bsz <= ob || ob + bsz <= oa
    requires oa == ob ==> wa == wb && biasA == biasB
    modifies out
    ensures RowDone(out[..], old(out[..]), oa, bsz, first, biasA, w, wa, rowbuf[..], vsza, vsz)
    ensures RowDone(out[..], old(out[..]), ob, bsz, first, biasB, w, wb, rowbuf[..], vsza, vsz)
    ensures Untouched(out[..], old(out[..]), oa, ob, bsz)
  {
    ghost var o := out[..];
    var j := 0;
    while j < bsz
      invariant j <= bsz
      invariant RowDone(out[..], o, oa, j, first, biasA, w, wa, rowbuf[..], vsza, vsz)
      invariant RowDone(out[..], o, ob, j, first, biasB, w, wb, rowbuf[..], vsza, vsz)
      invariant Untouched(out[..], o, oa, ob, j)
    {
      RowFits(bsz, vsza, j, vsz);
      var rptr := j * vsza;
      var s00, s10;
      if first {
        s00, s10 := biasA, biasB;
      } else {
        s00, s10 := out[oa + j], out[ob + j];
      }
      var t0, t1 := DotPair(w, wa, wb, rowbuf, rptr, vsz, s00, s10);
      KernelStep(out[..], o, w, wa, wb, biasA, biasB, first, rowbuf[..], vsza, vsz, bsz, oa, ob, j, t0, t1);
      ghost var before := out[..];
      out[oa + j] := t0;
      out[ob + j] := t1;
      assert out[..] == before[oa + j := t0][ob + j := t1];
      j := j + 1;
    }
  }

  /** `wptr0` of output channel `i` in channel block `cn0`:
      `wptr_orig + cn0*karea + i*wstep` with `wptr_orig` at row `startOutCn`. */
  function WeightOfs(g: Geometry, wstep: nat, s: nat, i: nat, cn0: nat): nat
    requires g.Valid()
  {
    (g.StartOutCn(s) + i) * wstep + cn0 * g.Karea()
  }

  /** The block of the weight row read by the kernel lies inside the matrix. */
  lemma WeightOfsFits(g: Geometry, wstep: nat, s: nat, i: nat, cn0: nat, ncn: nat)
    requires g.Valid() && wstep >= g.RowLen() && i < g.outCn && cn0 + ncn <= g.inpCn
    ensures WeightOfs(g, wstep, s, i, cn0) + g.Karea() * ncn <= g.OutCnAll() * wstep
  {
    StartOutCnBound(g, s, i);
    MulMonoLeft(cn0 + ncn, g.inpCn, g.Karea());
    RowFits(g.OutCnAll(), wstep, g.StartOutCn(s) + i, (cn0 + ncn) * g.Karea());
  }

  /** The weight block `wptr0[0 .. vsz)` the kernel reads for output channel `i`. */
  function WeightBlockOf(g: Geometry, wts: seq<int>, wstep: nat, s: nat, i: nat, cn0: nat, ncn: nat): (w: seq<int>)
    requires g.Valid() && wstep >= g.RowLen() && |wts| == g.OutCnAll() * wstep
    requires i < g.outCn && cn0 + ncn <= g.inpCn
    ensures |w| == g.Karea() * ncn
  {
    WeightOfsFits(g, wstep, s, i, cn0, ncn);
    MulNonneg(g.Karea(), ncn);
    var lo, len := WeightOfs(g, wstep, s, i, cn0), g.Karea() * ncn;
    wts[lo .. lo + len]
  }

  /** A tile row starting at output element `(s, i, ofs0)` holds exactly
      the elements `(s, i, p)` with `p` in the tile. */
  lemma TileAddress(g: Geometry, s: nat, i: nat, ofs0: nat, bsz: nat, s': nat, c: nat, p: nat)
    requires g.Valid() && i < g.outCn && ofs0 + bsz <= g.OutPlane() && c < g.outCn && p < g.OutPlane()
    ensures g.OutIdx(s, i, ofs0) <= g.OutIdx(s', c, p) < g.OutIdx(s, i, ofs0) + bsz <==>
      s' == s && c == i && ofs0 <= p < ofs0 + bsz
  {
    var d := g.OutIdx(s', c, p) - g.OutIdx(s, i, ofs0);
    if 0 <= d < bsz {
      assert g.OutIdx(s, i, ofs0 + d) == g.OutIdx(s', c, p);
      OutIdxInjective(g, s, i, ofs0 + d, s', c, p);
    }
  }

  /** `data_out0 + ofs0 + i*outPlaneSize` is the address of element `(s, i, ofs0)`. */
  lemma OutRowAddress(g: Geometry, s: nat, i: nat, ofs0: nat)
    ensures s * g.OutPlane() * g.outCn + ofs0 + i * g.OutPlane() == g.OutIdx(s, i, ofs0)
  {
    assert (s * g.outCn + i) * g.OutPlane() == s * g.OutPlane() * g.outCn + i * g.OutPlane();
  }

  /** Channels `c < nc` of the tile `[ofs0, ofs0 + bsz)` of sub-sample `s`
      hold their seed plus the dot product of their weight block with their
      gathered row (row `p - ofs0` of `r`, `vsza` apart). */
  predicate TileDone(g: Geometry, a: seq<int>, o: seq<int>, s: nat, nc: nat, ofs0: nat, bsz: nat,
                     first: bool, bias: seq<int>, wts: seq<int>, wstep: nat, cn0: nat,
                     r: seq<int>, vsza: nat, vsz: nat)
  {
    g.Valid() && |a| == g.OutSize() && |o| == g.OutSize() && |bias| >= g.OutCnAll() &&
    s < g.BatchSize() && nc <= g.outCn && ofs0 + bsz <= g.OutPlane() &&
    forall c, p :: 0 <= c < nc && ofs0 <= p < ofs0 + bsz ==>
      OutAt(g, a, s, c, p) ==
        (if first then ChannelBias(g, bias, s, c) else OutAt(g, o, s, c, p)) +
        TileDot(wts, WeightOfs(g, wstep, s, c, cn0), r, (p - ofs0) * vsza, vsz)
  }

  /** Every output element outside channels `c < nc` of the tile is as in `o`. */
  predicate TileUntouched(g: Geometry, a: seq<int>, o: seq<int>, s: nat, nc: nat, ofs0: nat, bsz: nat)
  {
    g.Valid() && |a| == g.OutSize() && |o| == g.OutSize() &&
    forall s', c, p ::
      (0 <= s' < g.BatchSize() && 0 <= c < g.outCn && 0 <= p < g.OutPlane() &&
       !(s' == s && c < nc && ofs0 <= p < ofs0 + bsz)) ==>
      OutAt(g, a, s', c, p) == OutAt(g, o, s', c, p)
  }

  /** One iteration of the channel-pair loop (lines 486-500): the rows written
      for channels `i` and `i + 1` (or `i` alone, aliased, when it is the last)
      extend the finished channels by two (by one). */
  lemma PairStep(g: Geometry, a: seq<int>, a': seq<int>, o: seq<int>, s: nat, i: nat,
                 ofs0: nat, bsz: nat, first: bool, bias: seq<int>, wts: seq<int>, wstep: nat,
                 cn0: nat, r: seq<int>, vsza: nat, vsz: nat, oa: nat, ob: nat)
    requires i < g.outCn && |a'| == |a|
    requires TileDone(g, a, o, s, i, ofs0, bsz, first, bias, wts, wstep, cn0, r, vsza, vsz)
    requires TileUntouched(g, a, o, s, i, ofs0, bsz)
    requires oa == g.OutIdx(s, i, ofs0)
    requires ob == if i + 1 < g.outCn then g.OutIdx(s, i + 1, ofs0) else oa
    requires RowDone(a', a, oa, bsz, first, ChannelBias(g, bias, s, i),
                     wts, WeightOfs(g, wstep, s, i, cn0), r, vsza, vsz)
    requires i + 1 < g.outCn ==>
      RowDone(a', a, ob, bsz, first, ChannelBias(g, bias, s, i + 1),
              wts, WeightOfs(g, wstep, s, i + 1, cn0), r, vsza, vsz)
    requires Untouched(a', a, oa, ob, bsz)
    ensures TileDone(g, a', o, s, Min(i + 2, g.outCn), ofs0, bsz, first, bias, wts, wstep, cn0, r, vsza, vsz)
    ensures TileUntouched(g, a', o, s, Min(i + 2, g.outCn), ofs0, bsz)
  {
    PairDone(g, a, a', o, s, i, ofs0, bsz, first, bias, wts, wstep, cn0, r, vsza, vsz, oa, ob);
    PairUntouched(g, a, a', o, s, i, ofs0, bsz, first, bias, wts, wstep, cn0, r, vsza, vsz, oa, ob);
  }

  /** The two rows of the pair join the finished channels of the tile. */
  lemma PairDone(g: Geometry, a: seq<int>, a': seq<int>, o: seq<int>, s: nat, i: nat,
                 ofs0: nat, bsz: nat, first: bool, bias: seq<int>, wts: seq<int>, wstep: nat,
                 cn0: nat, r: seq<int>, vsza: nat, vsz: nat, oa: nat, ob: nat)
    requires i < g.outCn && |a'| == |a|
    requires TileDone(g, a, o, s, i, ofs0, bsz, first, bias, wts, wstep, cn0, r, vsza, vsz)
    requires TileUntouched(g, a, o, s, i, ofs0, bsz)
    requires oa == g.OutIdx(s, i, ofs0)
    requires ob == if i + 1 < g.outCn then g.OutIdx(s, i + 1, ofs0) else oa
    requires RowDone(a', a, oa, bsz, first, ChannelBias(g, bias, s, i),
                     wts, WeightOfs(g, wstep, s, i, cn0), r, vsza, vsz)
    requires i + 1 < g.outCn ==>
      RowDone(a', a, ob, bsz, first, ChannelBias(g, bias, s, i + 1),
              wts, WeightOfs(g, wstep, s, i + 1, cn0), r, vsza, vsz)
    requires Untouched(a', a, oa, ob, bsz)
    ensures TileDone(g, a', o, s, Min(i + 2, g.outCn), ofs0, bsz, first, bias, wts, wstep, cn0, r, vsza, vsz)
  {
    var nc := Min(i + 2, g.outCn);
    forall c, p | 0 <= c < nc && ofs0 <= p < ofs0 + bsz
      ensures OutAt(g, a', s, c, p) ==
        (if first then ChannelBias(g, bias, s, c) else OutAt(g, o, s, c, p)) +
        TileDot(wts, WeightOfs(g, wstep, s, c, cn0), r, (p - ofs0) * vsza, vsz)
    {
      var x := g.OutIdx(s, c, p);
      OutIdxBound(g, s, c, p);
      TileAddress(g, s, i, ofs0, bsz, s, c, p);
      if i + 1 < g.outCn {
        TileAddress(g, s, i + 1, ofs0, bsz, s, c, p);
      }
      if c == i {
        assert x == oa + (p - ofs0);
      } else if c == i + 1 {
        assert x == ob + (p - ofs0);
      }
    }
  }

  /** Outside the pair's rows nothing changed. */
  lemma PairUntouched(g: Geometry, a: seq<int>, a': seq<int>, o: seq<int>, s: nat, i: nat,
                 ofs0: nat, bsz: nat, first: bool, bias: seq<int>, wts: seq<int>, wstep: nat,
                 cn0: nat, r: seq<int>, vsza: nat, vsz: nat, oa: nat, ob: nat)
    requires i < g.outCn && |a'| == |a|
    requires TileDone(g, a, o, s, i, ofs0, bsz, first, bias, wts, wstep, cn0, r, vsza, vsz)
    requires TileUntouched(g, a, o, s, i, ofs0, bsz)
    requires oa == g.OutIdx(s, i, ofs0)
    requires ob == if i + 1 < g.outCn then g.OutIdx(s, i + 1, ofs0) else oa
    requires RowDone(a', a, oa, bsz, first, ChannelBias(g, bias, s, i),
                     wts, WeightOfs(g, wstep, s, i, cn0), r, vsza, vsz)
    requires i + 1 < g.outCn ==>
      RowDone(a', a, ob, bsz, first, ChannelBias(g, bias, s, i + 1),
              wts, WeightOfs(g, wstep, s, i + 1, cn0), r, vsza, vsz)
    requires Untouched(a', a, oa, ob, bsz)
    ensures TileUntouched(g, a', o, s, Min(i + 2, g.outCn), ofs0, bsz)
  {
    var nc := Min(i + 2, g.outCn);
    forall s', c, p | 0 <= s' < g.BatchSize() && 0 <= c < g.outCn && 0 <= p < g.OutPlane() &&
      !(s' == s && c < nc && ofs0 <= p < ofs0 + bsz)
      ensures OutAt(g, a', s', c, p) == OutAt(g, o, s', c, p)
    {
      OutIdxBound(g, s', c, p);
      TileAddress(g, s, i, ofs0, bsz, s', c, p);
      if i + 1 < g.outCn {
        TileAddress(g, s, i + 1, ofs0, bsz, s', c, p);
      }
    }
  }

  /** `wptr_orig + cn0*karea + i*wstep` is `WeightOfs`, and `wptr1 = wptr0 + wstep`
      is the next channel's. */
  lemma WeightAddress(g: Geometry, wstep: nat, s: nat, i: nat, cn0: nat)
    requires g.Valid()
    ensures wstep * g.StartOutCn(s) + cn0 * g.Karea() + i * wstep == WeightOfs(g, wstep, s, i, cn0)
    ensures WeightOfs(g, wstep, s, i, cn0) + wstep == WeightOfs(g, wstep, s, i + 1, cn0)
  {
    MulSucc(g.StartOutCn(s) + i, wstep);
    assert (g.StartOutCn(s) + i) * wstep == wstep * g.StartOutCn(s) + i * wstep;
  }

  /** The two output rows of one iteration fit in the buffer and do not
      overlap: row `i + 1` starts one plane after row `i`. */
  lemma PairRows(g: Geometry, s: nat, i: nat, ofs0: nat, bsz: nat)
    requires g.Valid() && s < g.BatchSize() && i < g.outCn && 1 <= bsz && ofs0 + bsz <= g.OutPlane()
    ensures g.OutIdx(s, i, ofs0) + bsz <= g.OutSize()
    ensures i + 1 < g.outCn ==>
      g.OutIdx(s, i + 1, ofs0) == g.OutIdx(s, i, ofs0) + g.OutPlane() &&
      g.OutIdx(s, i + 1, ofs0) + bsz <= g.OutSize()
  {
    OutIdxBound(g, s, i, ofs0 + bsz - 1);
    if i + 1 < g.outCn {
      OutIdxBound(g, s, i + 1, ofs0 + bsz - 1);
      MulSucc(s * g.outCn + i, g.OutPlane());
    }
  }

  /** Lines 488-499 for the channel pair `(i, i + 1)` of sub-sample `s`: the
      weight rows, output rows and biases of both channels. `bias1` is read
      from the bias vector even for the last channel (it has one entry past
      the channels, so the read stays inside), and is then replaced, like the
      second rows, by channel `i`'s when `i` is the last channel. */
  method PairAddresses(g: Geometry, wts: seq<int>, wstep: nat, bias: seq<int>,
                      s: nat, cn0: nat, ncn: nat, ofs0: nat, bsz: nat, i: nat)
    returns (wptr0: nat, wptr1: nat, outptr0: nat, outptr1: nat, bias0: int, bias1: int)
    requires g.Valid() && wstep >= g.RowLen() && |wts| == g.OutCnAll() * wstep && |bias| > g.OutCnAll()
    requires s < g.BatchSize() && cn0 + ncn <= g.inpCn && i < g.outCn
    requires 1 <= bsz && ofs0 + bsz <= g.OutPlane()
    ensures wptr0 == WeightOfs(g, wstep, s, i, cn0) && wptr0 + g.Karea() * ncn <= |wts|
    ensures outptr0 == g.OutIdx(s, i, ofs0) && outptr0 + bsz <= g.OutSize()
    ensures bias0 == ChannelBias(g, bias, s, i)
    ensures g.StartOutCn(s) + i + 1 < |bias|
    ensures i + 1 < g.outCn ==>
      wptr1 == WeightOfs(g, wstep, s, i + 1, cn0) && wptr1 + g.Karea() * ncn <= |wts| &&
      outptr1 == g.OutIdx(s, i + 1, ofs0) && outptr0 + bsz <= outptr1 && outptr1 + bsz <= g.OutSize() &&
      bias1 == ChannelBias(g, bias, s, i + 1)
    ensures i + 1 >= g.outCn ==> wptr1 == wptr0 && outptr1 == outptr0 && bias1 == bias0
  {
    var outPlane := g.OutPlane();
    var startOutCn := g.StartOutCn(s);
    var wptr := wstep * startOutCn + cn0 * g.Karea();
    var dataOut := s * outPlane * g.outCn;
    WeightAddress(g, wstep, s, i, cn0);
    WeightOfsFits(g, wstep, s, i, cn0, ncn);
    OutRowAddress(g, s, i, ofs0);
    PairRows(g, s, i, ofs0, bsz);
    StartOutCnBound(g, s, i);
    wptr0 := wptr + i * wstep;
    wptr1 := wptr0 + wstep;
    outptr0 := dataOut + ofs0 + i * outPlane;
    outptr1 := outptr0 + outPlane;
    bias0, bias1 := bias[startOutCn + i], bias[startOutCn + i + 1];
    if i + 1 >= g.outCn {
      wptr1, outptr1, bias1 := wptr0, outptr0, bias0;
    } else {
      WeightOfsFits(g, wstep, s, i + 1, cn0, ncn);
      StartOutCnBound(g, s, i + 1);
    }
  }

  method KernelPair(g: Geometry, wts: seq<int>, wstep: nat, bias: seq<int>,
                    rowbuf: array<int>, vsza: nat, out: array<int>,
                    s: nat, cn0: nat, ncn: nat, ofs0: nat, bsz: nat, i: nat, ghost o: seq<int>)
    requires g.Valid() && wstep >= g.RowLen() && |wts| == g.OutCnAll() * wstep && |bias| > g.OutCnAll()
    requires s < g.BatchSize() && cn0 + ncn <= g.inpCn && i < g.outCn
    requires g.Karea() * ncn <= vsza && bsz * vsza <= rowbuf.Length
    requires 1 <= bsz && ofs0 + bsz <= g.OutPlane() && out.Length == g.OutSize() && out != rowbuf
    requires TileDone(g, out[..], o, s, i, ofs0, bsz, cn0 == 0, bias, wts, wstep, cn0,
                      rowbuf[..], vsza, g.Karea() * ncn)
    requires TileUntouched(g, out[..], o, s, i, ofs0, bsz)
    modifies out
    ensures TileDone(g, out[..], o, s, Min(i + 2, g.outCn), ofs0, bsz, cn0 == 0, bias, wts, wstep, cn0,
                     rowbuf[..], vsza, g.Karea() * ncn)
    ensures TileUntouched(g, out[..], o, s, Min(i + 2, g.outCn), ofs0, bsz)
  {
    var vsz := g.Karea() * ncn;
    var wptr0, wptr1, outptr0, outptr1, bias0, bias1 :=
      PairAddresses(g, wts, wstep, bias, s, cn0, ncn, ofs0, bsz, i);
    ghost var before := out[..];
    KernelRows(wts, wptr0, wptr1, bias0, bias1, cn0 == 0, rowbuf, vsza, vsz, bsz, out, outptr0, outptr1);
    PairStep(g, before, out[..], o, s, i, ofs0, bsz, cn0 == 0, bias, wts, wstep, cn0,
             rowbuf[..], vsza, vsz, outptr0, outptr1);
  }

  /** Lines 486-571: every output channel of sub-sample `s` over the tile
      `[ofs0, ofs0 + bsz)`, for the channel block `[cn0, cn0 + ncn)`, two
      channels at a time; the rest of the output is left alone. */
  method DotKernel(g: Geometry, wts: seq<int>, wstep: nat, bias: seq<int>,
                   rowbuf: array<int>, vsza: nat, out: array<int>,
                   s: nat, cn0: nat, ncn: nat, ofs0: nat, bsz: nat)
    requires g.Valid() && wstep >= g.RowLen() && |wts| == g.OutCnAll() * wstep && |bias| > g.OutCnAll()
    requires s < g.BatchSize() && cn0 + ncn <= g.inpCn
    requires g.Karea() * ncn <= vsza && bsz * vsza <= rowbuf.Length
    requires 1 <= bsz && ofs0 + bsz <= g.OutPlane() && out.Length == g.OutSize() && out != rowbuf
    modifies out
    ensures TileDone(g, out[..], old(out[..]), s, g.outCn, ofs0, bsz, cn0 == 0, bias, wts, wstep, cn0,
                     rowbuf[..], vsza, g.Karea() * ncn)
    ensures TileUntouched(g, out[..], old(out[..]), s, g.outCn, ofs0, bsz)
  {
    ghost var o := out[..];
    var i := 0;
    while i < g.outCn
      invariant i <= g.outCn + 1
      invariant TileDone(g, out[..], o, s, Min(i, g.outCn), ofs0, bsz, cn0 == 0, bias, wts, wstep, cn0,
                         rowbuf[..], vsza, g.Karea() * ncn)
      invariant TileUntouched(g, out[..], o, s, Min(i, g.outCn), ofs0, bsz)
    {
      KernelPair(g, wts, wstep, bias, rowbuf, vsza, out, s, cn0, ncn, ofs0, bsz, i, o);
      i := i + 2;
    }
  }
}
