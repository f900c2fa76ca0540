/** The work partition of `ParallelConv::operator()` (lines 353-401): how
    the `nstripes` invocations split the `batchSize x outPlaneSize` pairs of
    (sub-sample, output position) among themselves. */
module ConvPartition {
  import opened Arith
  import opened ConvPrep

  /** `stripesPerSample`, `stripeSize`, and the factor by which the
      invocation range is stretched (`samplesPerStripe` in the second
      regime, 1 in the first). */
  datatype Partition = Partition(perSample: nat, size: nat, mult: nat)

  /** Lines 353-367. With at least two stripes per sub-sample each sub-sample's
      plane is cut into `stripesPerSample` aligned pieces; otherwise each
      invocation takes `samplesPerStripe` whole sub-samples. */
  function MakePartition(batchSize: nat, planeSize: nat, nstripes: nat): (pt: Partition)
    requires batchSize >= 1 && planeSize >= 1 && nstripes >= 1
    ensures pt.perSample >= 1 && pt.size >= 1 && pt.mult >= 1
    ensures batchSize * pt.perSample <= nstripes * pt.mult
    ensures pt.perSample * pt.size >= planeSize
  {
    if nstripes >= batchSize * 2 then
      var sps := nstripes / batchSize;
      SamplesPerStripe(batchSize, nstripes);
      var ss := Min(AlignSize(CeilDiv(planeSize, sps), VecAlign), planeSize);
      StripeCover(planeSize, sps);
      Partition(sps, ss, 1)
    else
      BatchCover(batchSize, nstripes);
      Partition(1, planeSize, Max(CeilDiv(batchSize, nstripes), 1))
  }

  /** With at least two stripes per sample, `nstripes / batchSize` stripes
      per sample fit in the stripes. */
  lemma SamplesPerStripe(batchSize: nat, nstripes: nat)
    requires batchSize >= 1 && nstripes >= batchSize * 2
    ensures nstripes / batchSize >= 2 && batchSize * (nstripes / batchSize) <= nstripes
  {
    var sps := nstripes / batchSize;
    assert nstripes == sps * batchSize + nstripes % batchSize;
    if sps < 2 { MulMonoLeft(sps + 1, 2, batchSize); }
    MulComm(sps, batchSize);
  }

  /** `sps` stripes of `min(alignSize(ceil(planeSize/sps), VEC_ALIGN), planeSize)` cover the plane. */
  lemma StripeCover(planeSize: nat, sps: nat)
    requires planeSize >= 1 && sps >= 1
    ensures sps * Min(AlignSize(CeilDiv(planeSize, sps), VecAlign), planeSize) >= planeSize
  {
    var ss := Min(AlignSize(CeilDiv(planeSize, sps), VecAlign), planeSize);
    if ss != planeSize {
      MulMonoLeft(CeilDiv(planeSize, sps), ss, sps);
      MulComm(CeilDiv(planeSize, sps), sps);
      MulComm(ss, sps);
    } else {
      MulAtLeast(sps, planeSize);
    }
  }

  /** `ceil(batchSize/nstripes)` samples per stripe cover the batch. */
  lemma BatchCover(batchSize: nat, nstripes: nat)
    requires batchSize >= 1 && nstripes >= 1
    ensures batchSize * 1 <= nstripes * Max(CeilDiv(batchSize, nstripes), 1)
  {
    var q := CeilDiv(batchSize, nstripes);
    MulComm(q, nstripes);
    MulMonoLeft(q, Max(q, 1), nstripes);
    MulComm(Max(q, 1), nstripes);
  }


  /** `subsampleIdx` of (stretched) stripe `st`. */
  function SubsampleOf(pt: Partition, st: nat): nat
    requires pt.perSample >= 1
  {
    st / pt.perSample
  }

  /** `stripeStart = (stripe - subsampleIdx*stripesPerSample)*stripeSize`. */
  function StripeStart(pt: Partition, st: nat): nat
    requires pt.perSample >= 1
  {
    (st - SubsampleOf(pt, st) * pt.perSample) * pt.size
  }

  /** `stripeEnd = min(stripeStart + stripeSize, outPlaneSize)`. */
  function StripeEnd(pt: Partition, st: nat, planeSize: nat): nat
    requires pt.perSample >= 1
  {
    Min(StripeStart(pt, st) + pt.size, planeSize)
  }

  /** Stripe `st` handles position `p` of sub-sample `s`. */
  predicate Covers(pt: Partition, planeSize: nat, st: nat, s: nat, p: nat)
    requires pt.perSample >= 1
  {
    SubsampleOf(pt, st) == s && StripeStart(pt, st) <= p < StripeEnd(pt, st, planeSize)
  }

  /** The one stripe that handles (s, p). */
  function Owner(pt: Partition, s: nat, p: nat): nat
    requires pt.size >= 1
  {
    s * pt.perSample + p / pt.size
  }

  /** Exact cover: stripe `st` handles (s, p) if and only if it is its owner,
      so no pair is handled twice and none is skipped. */
  lemma CoversIffOwner(pt: Partition, planeSize: nat, st: nat, s: nat, p: nat)
    requires pt.perSample >= 1 && pt.size >= 1 && pt.perSample * pt.size >= planeSize
    requires p < planeSize
    ensures Covers(pt, planeSize, st, s, p) <==> st == Owner(pt, s, p)
  {
    if Covers(pt, planeSize, st, s, p) {
      CoversOwner(pt, planeSize, st, s, p);
    }
    if st == Owner(pt, s, p) {
      OwnerCovers(pt, planeSize, st, s, p);
    }
  }

  lemma CoversOwner(pt: Partition, planeSize: nat, st: nat, s: nat, p: nat)
    requires pt.perSample >= 1 && pt.size >= 1 && Covers(pt, planeSize, st, s, p)
    ensures st == Owner(pt, s, p)
  {
    var sps, ss := pt.perSample, pt.size;
    var j := st % sps;
    assert st == SubsampleOf(pt, st) * sps + j;
    assert StripeStart(pt, st) == j * ss;
    DivModUnique(p, ss, j, p - j * ss);
  }

  lemma OwnerCovers(pt: Partition, planeSize: nat, st: nat, s: nat, p: nat)
    requires pt.perSample >= 1 && pt.size >= 1 && pt.perSample * pt.size >= planeSize
    requires p < planeSize && st == Owner(pt, s, p)
    ensures Covers(pt, planeSize, st, s, p)
  {
    var sps, ss := pt.perSample, pt.size;
    DivLess(p, ss, sps);
    DivModUnique(st, sps, s, p / ss);
    var j := st % sps;
    assert j == p / ss;
    assert StripeStart(pt, st) == j * ss;
    assert p == j * ss + p % ss;
  }


  /** Every owner lies among the `nstripes*mult` stretched stripes. */
  lemma OwnerInRange(pt: Partition, batchSize: nat, planeSize: nat, nstripes: nat, s: nat, p: nat)
    requires pt.perSample >= 1 && pt.size >= 1 && pt.perSample * pt.size >= planeSize
    requires batchSize * pt.perSample <= nstripes * pt.mult
    requires s < batchSize && p < planeSize
    ensures Owner(pt, s, p) < nstripes * pt.mult
    ensures SubsampleOf(pt, Owner(pt, s, p)) == s
  {
    DivLess(p, pt.size, pt.perSample);
    FlatBound(s, batchSize, p / pt.size, pt.perSample);
    DivModUnique(Owner(pt, s, p), pt.perSample, s, p / pt.size);
  }

  /** A stretched stripe whose sub-sample index reaches `batchSize` (the
      loop `break`s there) owns nothing, and neither does any later one. */
  lemma PastLastSubsample(pt: Partition, batchSize: nat, st: nat, st': nat)
    requires pt.perSample >= 1 && SubsampleOf(pt, st) >= batchSize && st <= st'
    ensures SubsampleOf(pt, st') >= batchSize
  {
    DivMonotone(st, st', pt.perSample);
  }

  lemma DivMonotone(x: nat, y: nat, n: nat)
    requires n >= 1 && x <= y
    ensures x / n <= y / n
  {
    DivLess(x, n, y / n + 1);
    assert y < (y / n + 1) * n by { assert y == (y / n) * n + y % n; }
  }
}
