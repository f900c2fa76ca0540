/** Layouts prepared before the forward stripes run: the tap offset table
    and the bias vector built by `ParallelConv::run`, and the zero-padded
    weight matrix built once by `ConvolutionLayerImpl::forward`. */
module ConvPrep {
  import opened Arith
  import opened ConvGeometry

  /** `VEC_ALIGN`: weight rows and im2row rows are padded to multiples of 8 floats. */
  const VecAlign: nat := 8
  /** `BLK_SIZE_CN`: input channels gathered per block. */
  const BlkSizeCn: nat := 64
  /** `BLK_SIZE`: output positions gathered per tile. */
  const BlkSize: nat := 32

  /** Address of element (r, c) of a matrix with row stride `step`. */
  function MatIdx(step: nat, r: int, c: int): int { r * step + c }

  lemma RowBefore(step: nat, r': nat, c: nat, r: nat)
    requires r' < r && c < step
    ensures MatIdx(step, r', c) < r * step
  {
    MulMonoLeft(r' + 1, r, step);
  }

  /** Number of table channels: `ncn = min(inpCn, BLK_SIZE_CN)` (line 306). */
  function TableChannels(g: Geometry): nat { Min(g.inpCn, BlkSizeCn) }

  /** Entry `q` of `ofstab`: the element distance, inside one sub-sample, from
      a window's top-left input address to tap `q` of the block (channel
      `q / karea`, kernel row and column from `q % karea`). */
  function TapOffset(g: Geometry, q: nat): int
    requires g.Valid()
  {
    var t := q % g.Karea();
    ((q / g.Karea()) * g.height + (t / g.kernelW) * g.dilationH) * g.width + (t % g.kernelW) * g.dilationW
  }

  /** The address identity the interior gather relies on: the window's
      top-left address plus `TapOffset(q)` is the address of the tap itself. */
  lemma OffsetIsTapAddress(g: Geometry, s: nat, cn0: nat, y: int, x: int, q: nat)
    requires g.Valid()
    ensures var t := q % g.Karea();
      g.InIdx(s, cn0, y, x) + TapOffset(g, q) ==
      g.InIdx(s, cn0 + q / g.Karea(), y + (t / g.kernelW) * g.dilationH, x + (t % g.kernelW) * g.dilationW)
  {
    var t := q % g.Karea();
    var c, kr, kc := q / g.Karea(), t / g.kernelW, t % g.kernelW;
    var a := s * g.inpCn + cn0;
    calc {
      g.InIdx(s, cn0, y, x) + TapOffset(g, q);
      ((a * g.height + y) * g.width + x) + ((c * g.height + kr * g.dilationH) * g.width + kc * g.dilationW);
      { assert (a * g.height + y) * g.width + (c * g.height + kr * g.dilationH) * g.width
            == ((a + c) * g.height + (y + kr * g.dilationH)) * g.width; }
      (((a + c) * g.height + (y + kr * g.dilationH)) * g.width + (x + kc * g.dilationW));
      { assert a + c == s * g.inpCn + (cn0 + c); }
      g.InIdx(s, cn0 + c, y + kr * g.dilationH, x + kc * g.dilationW);
    }
  }

  /** The offset table the stripe kernel needs: `TapOffset` of every tap of
      the first `min(inpCn, 64)` channels. */
  function OffsetTable(g: Geometry): (t: seq<int>)
    requires g.Valid()
    ensures |t| == g.Karea() * TableChannels(g)
  {
    seq(g.Karea() * TableChannels(g), q requires 0 <= q < g.Karea() * TableChannels(g) => TapOffset(g, q))
  }

  /** Lines 306-314: fills `ofstab[(k*kernel_h + k_r)*kernel_w + k_c]` for the
      first `min(inpCn, 64)` channels, in increasing index order. */
  method BuildOffsetTable(g: Geometry) returns (ofstab: array<int>)
    requires g.Valid()
    ensures fresh(ofstab)
    ensures ofstab.Length == g.Karea() * TableChannels(g)
    ensures forall q :: 0 <= q < ofstab.Length ==> ofstab[q] == TapOffset(g, q)
  {
    var ncn := TableChannels(g);
    MulNonneg(g.Karea(), ncn);
    ofstab := new int[g.Karea() * ncn];
    ghost var expected := OffsetTable(g);
    var k := 0;
    while k < ncn
      invariant 0 <= k <= ncn && Pos(g, k, 0, 0) <= ofstab.Length
      invariant ofstab[..Pos(g, k, 0, 0)] == expected[..Pos(g, k, 0, 0)]
    {
      FillOffsetChannel(g, ofstab, k);
      k := k + 1;
    }
    ChannelsEnd(g, ncn);
    assert ofstab[..] == ofstab[..Pos(g, ncn, 0, 0)];
  }

  /** Row `kr` of channel `k` starts at `pos` and ends inside a table of `len == karea*ncn` entries;
      after the last row comes the next channel. */
  lemma RowPos(g: Geometry, ncn: nat, len: nat, k: nat, kr: nat, pos: nat)
    requires g.Valid() && len == g.Karea() * ncn && k < ncn && kr < g.kernelH && pos == Pos(g, k, kr, 0)
    ensures pos + g.kernelW == Pos(g, k, kr + 1, 0) <= len
    ensures kr + 1 == g.kernelH ==> pos + g.kernelW == Pos(g, k + 1, 0, 0)
  {
    RowInBlock(g, ncn, k, kr);
    PosNext(g, k, kr);
  }

  /** The middle loop of lines 306-314: the `karea` entries of channel `k`. */
  method FillOffsetChannel(g: Geometry, ofstab: array<int>, k: nat)
    requires g.Valid() && ofstab.Length == g.Karea() * TableChannels(g) && k < TableChannels(g)
    requires ofstab[..Pos(g, k, 0, 0)] == OffsetTable(g)[..Pos(g, k, 0, 0)]
    modifies ofstab
    ensures Pos(g, k + 1, 0, 0) <= ofstab.Length
    ensures ofstab[..Pos(g, k + 1, 0, 0)] == OffsetTable(g)[..Pos(g, k + 1, 0, 0)]
  {
    ghost var pos := Pos(g, k, 0, 0);
    ghost var last := Pos(g, k + 1, 0, 0);
    RowPos(g, TableChannels(g), ofstab.Length, k, 0, pos);
    var kr := 0;
    while kr < g.kernelH
      invariant 0 <= kr <= g.kernelH && pos == Pos(g, k, kr, 0) && pos <= ofstab.Length
      invariant kr == g.kernelH ==> pos == last
      invariant ofstab[..pos] == OffsetTable(g)[..pos]
    {
      RowPos(g, TableChannels(g), ofstab.Length, k, kr, pos);
      FillOffsetRow(g, ofstab, k, kr, pos);
      kr, pos := kr + 1, pos + g.kernelW;
    }
  }

  /** The innermost loop of lines 306-314: the `kernel_w` entries of kernel
      row `k_r` of channel `k`, which start at `pos`. */
  method FillOffsetRow(g: Geometry, ofstab: array<int>, k: nat, kr: nat, ghost pos: nat)
    requires g.Valid() && ofstab.Length == g.Karea() * TableChannels(g)
    requires k < TableChannels(g) && kr < g.kernelH
    requires pos == Pos(g, k, kr, 0) && pos + g.kernelW <= ofstab.Length
    requires ofstab[..pos] == OffsetTable(g)[..pos]
    modifies ofstab
    ensures ofstab[..pos + g.kernelW] == OffsetTable(g)[..pos + g.kernelW]
  {
    var kh, kw := g.kernelH, g.kernelW;
    ghost var expected := OffsetTable(g);
    ghost var cur := pos;
    var kc := 0;
    while kc < kw
      invariant 0 <= kc <= kw && cur == pos + kc
      invariant ofstab[..cur] == expected[..cur]
    {
      var q := (k * kh + kr) * kw + kc;
      var v := (k * g.height + kr * g.dilationH) * g.width + kc * g.dilationW;
      RowEntry(g, expected, k, kr, kc, cur, q, v);
      ofstab[q] := v;
      assert ofstab[..cur + 1] == ofstab[..cur] + [ofstab[cur]];
      assert expected[..cur + 1] == expected[..cur] + [expected[cur]];
      cur := cur + 1;
      kc := kc + 1;
    }
  }

  /** Entry `k_c` of kernel row `k_r` of channel `k` lands at `cur` and holds the table's value. */
  lemma RowEntry(g: Geometry, expected: seq<int>, k: nat, kr: nat, kc: nat, cur: nat, q: int, v: int)
    requires g.Valid() && expected == OffsetTable(g)
    requires k < TableChannels(g) && kr < g.kernelH && kc < g.kernelW && cur == Pos(g, k, kr, 0) + kc
    requires q == (k * g.kernelH + kr) * g.kernelW + kc
    requires v == (k * g.height + kr * g.dilationH) * g.width + kc * g.dilationW
    ensures q == cur < |expected| && expected[cur] == v
  {
    TableEntry(g, TableChannels(g), k, kr, kc);
  }

  lemma TableEntry(g: Geometry, ncn: nat, k: nat, kr: nat, kc: nat)
    requires g.Valid() && k < ncn && kr < g.kernelH && kc < g.kernelW
    ensures var q := (k * g.kernelH + kr) * g.kernelW + kc;
      q == k * g.Karea() + kr * g.kernelW + kc && q < g.Karea() * ncn &&
      TapOffset(g, q) == (k * g.height + kr * g.dilationH) * g.width + kc * g.dilationW
  {
    TapEntry(g, k, kr, kc);
    FlatBound(kr, g.kernelH, kc, g.kernelW);
    FlatBound(k, ncn, kr * g.kernelW + kc, g.Karea());
    assert g.Karea() * ncn == ncn * g.Karea();
  }

  /** The bias of output channel `k`: the given bias, or 0 when none is given. */
  function BiasOrZero(bias: seq<int>, k: nat): int
  {
    if k < |bias| then bias[k] else 0
  }

  /** Lines 316-328: `outCn` bias entries (zeros when there is no bias blob)
      followed by two copies of the last one. */
  method BuildBiasVector(bias: seq<int>, outCn: nat) returns (biasvec: array<int>)
    requires outCn >= 1 && (|bias| == 0 || |bias| == outCn)
    ensures fresh(biasvec)
    ensures biasvec.Length == outCn + 2
    ensures forall k :: 0 <= k < biasvec.Length ==> biasvec[k] == BiasOrZero(bias, Min(k, outCn - 1))
  {
    biasvec := new int[outCn + 2];
    var k := 0;
    if |bias| == 0 {
      while k < outCn
        invariant 0 <= k <= outCn
        invariant forall j :: 0 <= j < k ==> biasvec[j] == 0
      {
        biasvec[k] := 0;
        k := k + 1;
      }
    } else {
      while k < outCn
        invariant 0 <= k <= outCn
        invariant forall j :: 0 <= j < k ==> biasvec[j] == bias[j]
      {
        biasvec[k] := bias[k];
        k := k + 1;
      }
    }
    biasvec[outCn + 1] := biasvec[outCn - 1];
    biasvec[outCn] := biasvec[outCn + 1];
  }

  /** The tail duplication makes every read `biasptr[i+1]` of the 2-channel
      kernel land inside the vector, and the two tail slots repeat the last bias. */
  lemma BiasTail(biasvec: seq<int>, bias: seq<int>, outCn: nat, start: nat, i: nat)
    requires outCn >= 1 && |biasvec| == outCn + 2
    requires forall k :: 0 <= k < |biasvec| ==> biasvec[k] == BiasOrZero(bias, Min(k, outCn - 1))
    requires start + i < outCn
    ensures start + i + 1 < |biasvec|
    ensures biasvec[outCn] == biasvec[outCn + 1] == biasvec[outCn - 1]
  {
    assert biasvec[outCn] == BiasOrZero(bias, outCn - 1);
  }

  /** Row stride of the prepared weight matrix (lines 936-938). */
  function WeightStep(cols: nat): (step: nat)
    ensures step % VecAlign == 0 || step == cols
  {
    if cols % VecAlign != 0 then AlignSize(cols, VecAlign) else cols
  }

  function Zeros(n: nat): (z: seq<int>)
    ensures |z| == n && forall i :: 0 <= i < n ==> z[i] == 0
  {
    seq(n, _ => 0)
  }

  /** The first `r` rows of the padded weight matrix: each `cols`-long row of
      `blob` followed by `wstep - cols` zeros. */
  function PaddedRows(blob: seq<int>, cols: nat, wstep: nat, r: nat): seq<int>
    requires cols <= wstep && r * cols <= |blob|
  {
    if r == 0 then []
    else
      MulMonoLeft(r - 1, r, cols);
      PaddedRows(blob, cols, wstep, r - 1) + blob[(r - 1) * cols .. r * cols] + Zeros(wstep - cols)
  }

  /** Element (r', c) of the padded matrix is weight (r', c), or 0 in a padding column. */
  lemma PaddedEntry(blob: seq<int>, cols: nat, wstep: nat, r: nat, r': nat, c: nat)
    requires cols <= wstep && r * cols <= |blob| && r' < r && c < wstep
    ensures c < cols ==> MatIdx(cols, r', c) < |blob|
    ensures MatIdx(wstep, r', c) < |PaddedRows(blob, cols, wstep, r)| &&
      PaddedRows(blob, cols, wstep, r)[MatIdx(wstep, r', c)] ==
      if c < cols then blob[MatIdx(cols, r', c)] else 0
  {
    var rs, bs := PaddedRowAt(blob, cols, wstep, r, r');
    var p := PaddedRows(blob, cols, wstep, r);
    var row := blob[bs .. bs + cols] + Zeros(wstep - cols);
    assert p[rs + c] == p[rs .. rs + wstep][c] == row[c];
  }

  /** `PaddedRowSlice` with the row offsets named. */
  lemma PaddedRowAt(blob: seq<int>, cols: nat, wstep: nat, r: nat, r': nat) returns (rs: nat, bs: nat)
    requires cols <= wstep && r * cols <= |blob| && r' < r
    ensures rs == r' * wstep && bs == r' * cols
    ensures bs + cols <= |blob| && rs + wstep <= |PaddedRows(blob, cols, wstep, r)|
    ensures PaddedRows(blob, cols, wstep, r)[rs .. rs + wstep] == blob[bs .. bs + cols] + Zeros(wstep - cols)
  {
    PaddedRowSlice(blob, cols, wstep, r, r');
    rs, bs := r' * wstep, r' * cols;
  }


  /** Row `r'` of the padded matrix is row `r'` of the blob followed by zeros. */
  lemma {:induction false} PaddedRowSlice(blob: seq<int>, cols: nat, wstep: nat, r: nat, r': nat)
    requires cols <= wstep && r * cols <= |blob| && r' < r
    ensures r' * cols + cols <= |blob|
    ensures r' * wstep + wstep <= |PaddedRows(blob, cols, wstep, r)|
    ensures PaddedRows(blob, cols, wstep, r)[r' * wstep .. r' * wstep + wstep] ==
      blob[r' * cols .. r' * cols + cols] + Zeros(wstep - cols)
    decreases r
  {
    var lastb, last := PaddedUnfold(blob, cols, wstep, r);
    var rs, _ := RowOffsets(r, r', wstep);
    var bs, _ := RowOffsets(r, r', cols);
    var p := PaddedRows(blob, cols, wstep, r - 1);
    var rz := blob[lastb .. lastb + cols] + Zeros(wstep - cols);
    if r' < r - 1 {
      PaddedRowSlice(blob, cols, wstep, r - 1, r');
      SlicePrefix(p, rz, rs, wstep);
    } else {
      SliceSuffix(p, rz);
    }
  }

  /** One more row: the blob row, then its zero padding. */
  lemma PaddedStep(blob: seq<int>, cols: nat, wstep: nat, r: nat, bbase: nat)
    requires cols <= wstep && bbase == r * cols && bbase + cols <= |blob|
    ensures (r + 1) * cols <= |blob|
    ensures PaddedRows(blob, cols, wstep, r + 1) ==
      PaddedRows(blob, cols, wstep, r) + blob[bbase .. bbase + cols] + Zeros(wstep - cols)
  {
    MulSucc(r, cols);
  }

  /** Row offset `base` of row `r` advanced by one row of `n` stays within `rows` rows. */
  lemma RowAdvance(r: nat, rows: nat, n: nat, base: nat)
    requires r < rows && base == r * n
    ensures base + n == (r + 1) * n <= rows * n
  {
    MulMonoLeft(r + 1, rows, n);
  }

  /** Advancing a row offset by one row stays within `rows` rows. */
  lemma RowStep(r: nat, rows: nat, n: nat)
    requires r < rows
    ensures r * n + n == (r + 1) * n <= rows * n
  {
    MulMonoLeft(r + 1, rows, n);
  }

  /** The products the row recursion needs, for row `r'` below `r`. */
  lemma RowArith(r: nat, r': nat, n: nat)
    requires r' < r
    ensures r' * n + n <= r * n && (r - 1) * n + n == r * n && (r - 1) * n <= r * n
    ensures r' < r - 1 ==> r' * n + n <= (r - 1) * n
    ensures r' == r - 1 ==> r' * n == (r - 1) * n
  {
    MulMonoLeft(r' + 1, r, n);
    MulMonoLeft(r - 1, r, n);
    if r' < r - 1 { MulMonoLeft(r' + 1, r - 1, n); }
  }

  /** The last row of an `r`-row padded matrix, at offset `last` of it and `lastb` of the blob. */
  lemma PaddedUnfold(blob: seq<int>, cols: nat, wstep: nat, r: nat) returns (lastb: nat, last: nat)
    requires cols <= wstep && r * cols <= |blob| && r >= 1
    ensures lastb == (r - 1) * cols && lastb + cols == r * cols <= |blob|
    ensures last == (r - 1) * wstep == |PaddedRows(blob, cols, wstep, r - 1)|
    ensures PaddedRows(blob, cols, wstep, r) ==
      PaddedRows(blob, cols, wstep, r - 1) + (blob[lastb .. lastb + cols] + Zeros(wstep - cols))
  {
    MulSucc(r - 1, cols);
    MulMonoLeft(r - 1, r, cols);
    PaddedLength(blob, cols, wstep, r - 1);
    lastb, last := (r - 1) * cols, (r - 1) * wstep;
  }

  lemma SlicePrefix(p: seq<int>, q: seq<int>, a: nat, n: nat)
    requires a + n <= |p|
    ensures (p + q)[a .. a + n] == p[a .. a + n]
  {
  }

  lemma SliceSuffix(p: seq<int>, q: seq<int>)
    ensures (p + q)[|p| .. |p| + |q|] == q
  {
  }

  /** The offsets of row `r'` and of the last row `r - 1` of an `r`-row matrix with rows of `n`. */
  lemma RowOffsets(r: nat, r': nat, n: nat) returns (a: nat, b: nat)
    requires r' < r
    ensures a == r' * n && b == (r - 1) * n && a + n <= b + n && b + n == r * n
    ensures r' < r - 1 ==> a + n <= b
    ensures r' == r - 1 ==> a == b
  {
    RowArith(r, r', n);
    a, b := r' * n, (r - 1) * n;
  }

  lemma {:induction false} PaddedLength(blob: seq<int>, cols: nat, wstep: nat, r: nat)
    requires cols <= wstep && r * cols <= |blob|
    ensures |PaddedRows(blob, cols, wstep, r)| == r * wstep
    decreases r
  {
    if r > 0 {
      MulMonoLeft(r - 1, r, cols);
      PaddedLength(blob, cols, wstep, r - 1);
      assert (r - 1) * wstep + wstep == r * wstep;
      assert (r - 1) * cols + cols == r * cols;
    }
  }

  /** Without padding columns the padded matrix is the weights themselves. */
  lemma {:induction false} PaddedNoPadding(blob: seq<int>, cols: nat, r: nat)
    requires r * cols <= |blob|
    ensures PaddedRows(blob, cols, cols, r) == blob[..r * cols]
    decreases r
  {
    if r > 0 {
      MulMonoLeft(r - 1, r, cols);
      PaddedNoPadding(blob, cols, r - 1);
      assert (r - 1) * cols + cols == r * cols;
      assert blob[..r * cols] == blob[..(r - 1) * cols] + blob[(r - 1) * cols .. r * cols];
    }
  }

  /** Lines 933-947: when the row length `cols` is not a multiple of 8, copy
      the `rows x cols` weights into a `rows x alignSize(cols, 8)` buffer
      whose padding columns are zero; otherwise use the weights as they are. */
  method PadWeights(blob: array<int>, rows: nat, cols: nat) returns (wm: array<int>, wstep: nat)
    requires blob.Length == rows * cols
    ensures wstep == WeightStep(cols)
    ensures wstep % VecAlign == 0 && cols <= wstep < cols + VecAlign
    ensures wm[..] == PaddedRows(blob[..], cols, wstep, rows)
    ensures cols % VecAlign == 0 ==> wm == blob
    ensures cols % VecAlign != 0 ==> fresh(wm)
  {
    if cols % VecAlign == 0 {
      wm, wstep := blob, cols;
      PaddedNoPadding(blob[..], cols, rows);
      assert blob[..][..rows * cols] == blob[..];
    } else {
      wstep := AlignSize(cols, VecAlign);
      wm := PadMatrix(blob[..], rows, cols, wstep);
    }
  }

  /** The copy into the aligned buffer, row by row. */
  method PadMatrix(blob: seq<int>, rows: nat, cols: nat, wstep: nat) returns (wm: array<int>)
    requires |blob| == rows * cols && cols <= wstep
    ensures fresh(wm)
    ensures wm[..] == PaddedRows(blob, cols, wstep, rows)
  {
    MulNonneg(rows, wstep);
    wm := new int[rows * wstep];
    var r := 0;
    var base, bbase := 0, 0;  // r*newcols and r*cols
    while r < rows
      invariant 0 <= r <= rows && base == r * wstep && bbase == r * cols
      invariant base <= wm.Length && bbase <= |blob|
      invariant wm[..base] == PaddedRows(blob, cols, wstep, r)
    {
      PadNextRow(blob, rows, cols, wstep, wm, r, base, bbase);
      r, base, bbase := r + 1, base + wstep, bbase + cols;
    }
    assert r == rows;
    assert base == rows * wstep;
    assert wm[..] == wm[..base];
  }

  /** One iteration of the row loop: row `r` appended to the first `r` padded rows. */
  method PadNextRow(blob: seq<int>, rows: nat, cols: nat, wstep: nat, wm: array<int>, r: nat, base: nat, bbase: nat)
    requires |blob| == rows * cols && cols <= wstep && wm.Length == rows * wstep
    requires r < rows && base == r * wstep && bbase == r * cols
    requires wm[..base] == PaddedRows(blob, cols, wstep, r)
    modifies wm
    ensures base + wstep == (r + 1) * wstep <= wm.Length && bbase + cols == (r + 1) * cols <= |blob|
    ensures wm[..base + wstep] == PaddedRows(blob, cols, wstep, r + 1)
  {
    RowAdvance(r, rows, cols, bbase);
    RowAdvance(r, rows, wstep, base);
    PadRow(blob, bbase, cols, wm, base, wstep);
    PaddedStep(blob, cols, wstep, r, bbase);
  }

  /** Row `r` of the aligned matrix: `wm_padding.setTo(0)` on its columns
      `[cols, newcols)` and `wm.copyTo(wm_aligned)` on columns `[0, cols)`. */
  method PadRow(blob: seq<int>, bbase: nat, cols: nat, wm: array<int>, base: nat, wstep: nat)
    requires cols <= wstep && bbase + cols <= |blob| && base + wstep <= wm.Length
    modifies wm
    ensures wm[..base + wstep] == old(wm[..base]) + blob[bbase .. bbase + cols] + Zeros(wstep - cols)
  {
    ghost var done := wm[..base];
    FillZeros(wm, base + cols, base + wstep);
    ghost var mid := wm[..];
    assert mid[..base] == mid[..base + cols][..base] == done;
    assert mid[base + cols .. base + wstep] == Zeros(wstep - cols);
    CopyRange(blob, bbase, wm, base, cols);
    assert wm[..base] == mid[..base];
    assert wm[base + cols ..] == mid[base + cols ..];
    assert wm[base + cols .. base + wstep] == wm[base + cols ..][..wstep - cols] == mid[base + cols ..][..wstep - cols];
    assert wm[..base + wstep] == wm[..base] + wm[base .. base + cols] + wm[base + cols .. base + wstep];
  }

  /** `dst[lo..hi]` set to zero, everything else kept. */
  method FillZeros(dst: array<int>, lo: nat, hi: nat)
    requires lo <= hi <= dst.Length
    modifies dst
    ensures dst[lo..hi] == Zeros(hi - lo)
    ensures dst[..lo] == old(dst[..lo]) && dst[hi..] == old(dst[hi..])
  {
    var x := lo;
    while x < hi
      invariant lo <= x <= hi
      invariant dst[lo..x] == Zeros(x - lo)
      invariant dst[..lo] == old(dst[..lo]) && dst[hi..] == old(dst[hi..])
    {
      dst[x] := 0;
      assert dst[lo..x + 1] == dst[lo..x] + [0];
      x := x + 1;
    }
  }

  /** `n` elements of `src` from `from` copied to `dst` at `to`, everything else kept. */
  method CopyRange(src: seq<int>, from: nat, dst: array<int>, to: nat, n: nat)
    requires from + n <= |src| && to + n <= dst.Length
    modifies dst
    ensures dst[to..to + n] == src[from..from + n]
    ensures dst[..to] == old(dst[..to]) && dst[to + n..] == old(dst[to + n..])
  {
    var k := 0;
    while k < n
      invariant 0 <= k <= n
      invariant dst[to..to + k] == src[from..from + k]
      invariant dst[..to] == old(dst[..to]) && dst[to + n..] == old(dst[to + n..])
    {
      dst[to + k] := src[from + k];
      assert dst[to..to + k + 1] == dst[to..to + k] + [src[from + k]];
      assert src[from..from + k + 1] == src[from..from + k] + [src[from + k]];
      k := k + 1;
    }
  }
}
