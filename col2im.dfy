/** `Col2ImInvoker` (lines 1158-1253): the scatter-accumulate stage of the
    deconvolution. Each element of the output image is the sum of the
    entries of the column matrix whose kernel window covers it, plus its
    channel's bias. */
module Col2Im {
  import opened Arith
  import opened ConvShapes

  /** The scalar arguments of `Col2ImInvoker::run` (lines 1174-1180). */
  datatype Col2ImGeom = Col2ImGeom(channels: nat, height: nat, width: nat, kh: nat, kw: nat,
                                   padh: nat, padw: nat, sh: nat, sw: nat)
  {
    predicate Valid() { height >= 1 && width >= 1 && kh >= 1 && kw >= 1 && sh >= 1 && sw >= 1 }

    /** `height_col` (line 1192); it can be 0 or negative for a kernel
        taller than the padded image. */
    function HCol(): int
      requires Valid()
    {
      ColSize(height, kh, padh, sh)
    }

    /** `width_col` (line 1193). */
    function WCol(): int
      requires Valid()
    {
      ColSize(width, kw, padw, sw)
    }

    /** `plane_size_col` (line 1216). */
    function Plane(): int
      requires Valid()
    {
      HCol() * WCol()
    }

    /** `total = channels*height*width` (line 1207). */
    function Total(): nat { channels * height * width }
  }

  /** `coeff_h` and `coeff_w` (lines 1205-1206). */
  function CoeffH(g: Col2ImGeom): int
    requires g.Valid()
  {
    (1 - g.sh * g.kw * g.HCol()) * g.WCol()
  }

  function CoeffW(g: Col2ImGeom): int
    requires g.Valid()
  {
    1 - g.sw * g.HCol() * g.WCol()
  }

  /** `offset = (c*kernel_h*kernel_w + h*kernel_w + w)*plane_size_col`. */
  function Offset(g: Col2ImGeom, c: int, h: int, w: int): int
    requires g.Valid()
  {
    (c * g.kh * g.kw + h * g.kw + w) * g.Plane()
  }

  /** Where column matrix row `(c, i, j)` (channel, kernel row, kernel
      column) and column `(hc, wc)` live: rows of `plane_size_col`. */
  function ColIndex(g: Col2ImGeom, c: int, i: int, j: int, hc: int, wc: int): int
    requires g.Valid()
  {
    ((c * g.kh + i) * g.kw + j) * g.Plane() + hc * g.WCol() + wc
  }

  /** The column matrix holds `channels*kh*kw` rows of `plane_size_col`. */
  predicate ColFits(g: Col2ImGeom, col: seq<int>)
    requires g.Valid()
  {
    g.HCol() >= 1 && g.WCol() >= 1 ==> |col| >= g.channels * g.kh * g.kw * g.Plane()
  }

  lemma ColIndexBound(g: Col2ImGeom, c: nat, i: nat, j: nat, hc: nat, wc: nat)
    requires g.Valid() && c < g.channels && i < g.kh && j < g.kw && hc < g.HCol() && wc < g.WCol()
    ensures 0 <= ColIndex(g, c, i, j, hc, wc) < g.channels * g.kh * g.kw * g.Plane()
  {
    FlatBound4(c, g.channels, i, g.kh, j, g.kw, hc, g.HCol(), wc, g.WCol());
  }

  /** Four nested row-major indices stay inside the product of their extents. */
  lemma FlatBound4(c: nat, nc: nat, i: nat, ni: nat, j: nat, nj: nat, y: nat, ny: nat, x: nat, nx: nat)
    requires c < nc && i < ni && j < nj && y < ny && x < nx
    ensures 0 <= ((c * ni + i) * nj + j) * (ny * nx) + y * nx + x < nc * ni * nj * (ny * nx)
  {
    FlatBound(y, ny, x, nx);
    FlatBound(c, nc, i, ni);
    FlatBound(c * ni + i, nc * ni, j, nj);
    FlatBound((c * ni + i) * nj + j, nc * ni * nj, y * nx + x, ny * nx);
  }

  // ------------------------------------------------------------ the reference

  /** The contribution of column `(hc, wc)` to padded image point `(h, w)`
      of channel `c`: the column-matrix entry of the kernel tap
      `(h - hc*stride_h, w - wc*stride_w)` when that tap exists, else 0. */
  function Tap(g: Col2ImGeom, col: seq<int>, c: nat, h: int, w: int, hc: int, wc: int): int
    requires g.Valid() && ColFits(g, col) && c < g.channels
  {
    if 0 <= hc < g.HCol() && 0 <= wc < g.WCol() && 0 <= h - hc * g.sh < g.kh && 0 <= w - wc * g.sw < g.kw then
      ColIndexBound(g, c, h - hc * g.sh, w - wc * g.sw, hc, wc);
      col[ColIndex(g, c, h - hc * g.sh, w - wc * g.sw, hc, wc)]
    else
      0
  }

  /** The contributions of columns `(hc, wc)`, `wc` in `[lo, hi)`. */
  function RowSum(g: Col2ImGeom, col: seq<int>, c: nat, h: int, w: int, hc: int, lo: int, hi: int): int
    requires g.Valid() && ColFits(g, col) && c < g.channels
    decreases hi - lo
  {
    if hi <= lo then 0 else RowSum(g, col, c, h, w, hc, lo, hi - 1) + Tap(g, col, c, h, w, hc, hi - 1)
  }

  /** The contributions of columns `(hc, wc)`, `hc` in `[hlo, hhi)`, `wc` in `[wlo, whi)`. */
  function WindowSum(g: Col2ImGeom, col: seq<int>, c: nat, h: int, w: int, hlo: int, hhi: int, wlo: int, whi: int): int
    requires g.Valid() && ColFits(g, col) && c < g.channels
    decreases hhi - hlo
  {
    if hhi <= hlo then 0
    else WindowSum(g, col, c, h, w, hlo, hhi - 1, wlo, whi) + RowSum(g, col, c, h, w, hhi - 1, wlo, whi)
  }

  /** Image point `(y, x)` of channel `c`: the sum over every column
      position of the contributions it makes there. */
  function ImValue(g: Col2ImGeom, col: seq<int>, c: nat, y: nat, x: nat): int
    requires g.Valid() && ColFits(g, col) && c < g.channels
  {
    WindowSum(g, col, c, y + g.padh, x + g.padw, 0, g.HCol(), 0, g.WCol())
  }

  // ------------------------------------------------------------ window bounds

  /** `h_col_start = (h < kernel_h) ? 0 : (h - kernel_h)/stride_h + 1`. */
  function ColStart(h: nat, k: nat, s: nat): nat
    requires s >= 1
  {
    if h < k then 0 else (h - k) / s + 1
  }

  /** `h_col_end = min(h/stride_h + 1, height_col)`. */
  function ColEnd(h: nat, s: nat, n: int): int
    requires s >= 1
  {
    Min(h / s + 1, n)
  }

  /** The window bounds select exactly the columns `hc < n` whose kernel tap
      `h - hc*s` lies in `[0, k)`. */
  lemma ColRange(h: nat, k: nat, s: nat, n: int, hc: int)
    requires k >= 1 && s >= 1
    ensures ColStart(h, k, s) <= hc < ColEnd(h, s, n) <==> 0 <= hc < n && 0 <= h - hc * s < k
  {
    if hc >= 0 {
      DivLess(h, s, hc);
      MulNonneg(hc, s);
      if h >= k {
        DivLess(h - k, s, hc);
      }
    }
  }

  /** The summand address of line 1235 is the column-matrix entry of tap
      `(h - hc*stride_h, w - wc*stride_w)` at column `(hc, wc)`. */
  lemma Address(g: Col2ImGeom, c: int, h: int, w: int, hc: int, wc: int)
    requires g.Valid()
    ensures Offset(g, c, h, w) + hc * CoeffH(g) + wc * CoeffW(g) == ColIndex(g, c, h - hc * g.sh, w - wc * g.sw, hc, wc)
  {
    AddressArith(c, h, w, hc, wc, g.kh, g.kw, g.sh, g.sw, g.HCol(), g.WCol());
  }

  lemma AddressArith(c: int, h: int, w: int, hc: int, wc: int, kh: int, kw: int, sh: int, sw: int, hcol: int, wcol: int)
    ensures (c * kh * kw + h * kw + w) * (hcol * wcol) + hc * ((1 - sh * kw * hcol) * wcol) + wc * (1 - sw * hcol * wcol)
         == ((c * kh + (h - hc * sh)) * kw + (w - wc * sw)) * (hcol * wcol) + hc * wcol + wc
  {
    var p := hcol * wcol;
    var r := c * kh * kw + h * kw + w;
    var hs, ws := hc * sh, wc * sw;
    assert hc * ((1 - sh * kw * hcol) * wcol) == hc * wcol - hs * kw * p;
    assert wc * (1 - sw * hcol * wcol) == wc - ws * p;
    assert (c * kh + (h - hs)) * kw + (w - ws) == r - hs * kw - ws;
    assert (r - hs * kw - ws) * p == r * p - hs * kw * p - ws * p;
  }

  /** The summand read at `(hc, wc)` inside the window is in bounds and is
      that column's contribution. */
  lemma Summand(g: Col2ImGeom, col: seq<int>, c: nat, h: nat, w: nat, hc: int, wc: int)
    requires g.Valid() && ColFits(g, col) && c < g.channels
    requires ColStart(h, g.kh, g.sh) <= hc < ColEnd(h, g.sh, g.HCol())
    requires ColStart(w, g.kw, g.sw) <= wc < ColEnd(w, g.sw, g.WCol())
    ensures 0 <= Offset(g, c, h, w) + hc * CoeffH(g) + wc * CoeffW(g) < |col|
    ensures col[Offset(g, c, h, w) + hc * CoeffH(g) + wc * CoeffW(g)] == Tap(g, col, c, h, w, hc, wc)
  {
    ColRange(h, g.kh, g.sh, g.HCol(), hc);
    ColRange(w, g.kw, g.sw, g.WCol(), wc);
    Address(g, c, h, w, hc, wc);
    ColIndexBound(g, c, h - hc * g.sh, w - wc * g.sw, hc, wc);
  }

  // ------------------------------------------------------------ sums over the window

  lemma {:induction false} RowSumSplit(g: Col2ImGeom, col: seq<int>, c: nat, h: int, w: int, hc: int, lo: int, m: int, hi: int)
    requires g.Valid() && ColFits(g, col) && c < g.channels && lo <= m <= hi
    ensures RowSum(g, col, c, h, w, hc, lo, hi) == RowSum(g, col, c, h, w, hc, lo, m) + RowSum(g, col, c, h, w, hc, m, hi)
    decreases hi - m
  {
    if m < hi {
      RowSumSplit(g, col, c, h, w, hc, lo, m, hi - 1);
    }
  }

  /** A row of columns none of whose taps exist sums to 0. */
  lemma {:induction false} RowSumZero(g: Col2ImGeom, col: seq<int>, c: nat, h: int, w: int, hc: int, lo: int, hi: int)
    requires g.Valid() && ColFits(g, col) && c < g.channels
    requires forall wc :: lo <= wc < hi ==> Tap(g, col, c, h, w, hc, wc) == 0
    ensures RowSum(g, col, c, h, w, hc, lo, hi) == 0
    decreases hi - lo
  {
    if lo < hi {
      RowSumZero(g, col, c, h, w, hc, lo, hi - 1);
    }
  }

  /** The row `hc` summed over the columns `[wcs, wce)` of the window is the
      row summed over every column. */
  lemma RowWindow(g: Col2ImGeom, col: seq<int>, c: nat, h: nat, w: nat, hc: int)
    requires g.Valid() && ColFits(g, col) && c < g.channels
    ensures RowSum(g, col, c, h, w, hc, 0, g.WCol())
         == (if ColStart(h, g.kh, g.sh) <= hc < ColEnd(h, g.sh, g.HCol())
             then RowSum(g, col, c, h, w, hc, ColStart(w, g.kw, g.sw), ColEnd(w, g.sw, g.WCol()))
             else 0)
  {
    var lo, hi, n := ColStart(w, g.kw, g.sw), ColEnd(w, g.sw, g.WCol()), g.WCol();
    ColRange(h, g.kh, g.sh, g.HCol(), hc);
    forall wc | true
      ensures lo <= wc < hi <==> 0 <= wc < n && 0 <= w - wc * g.sw < g.kw
    {
      ColRange(w, g.kw, g.sw, n, wc);
    }
    if !(ColStart(h, g.kh, g.sh) <= hc < ColEnd(h, g.sh, g.HCol())) || hi <= lo {
      RowSumZero(g, col, c, h, w, hc, 0, n);
      RowSumZero(g, col, c, h, w, hc, lo, hi);
    } else {
      RowSumSplit(g, col, c, h, w, hc, 0, lo, n);
      RowSumSplit(g, col, c, h, w, hc, lo, hi, n);
      RowSumZero(g, col, c, h, w, hc, 0, lo);
      RowSumZero(g, col, c, h, w, hc, hi, n);
    }
  }

  lemma {:induction false} WindowSumSplit(g: Col2ImGeom, col: seq<int>, c: nat, h: int, w: int,
                                          hlo: int, m: int, hhi: int, wlo: int, whi: int)
    requires g.Valid() && ColFits(g, col) && c < g.channels && hlo <= m <= hhi
    ensures WindowSum(g, col, c, h, w, hlo, hhi, wlo, whi)
         == WindowSum(g, col, c, h, w, hlo, m, wlo, whi) + WindowSum(g, col, c, h, w, m, hhi, wlo, whi)
    decreases hhi - m
  {
    if m < hhi {
      WindowSumSplit(g, col, c, h, w, hlo, m, hhi - 1, wlo, whi);
    }
  }

  lemma {:induction false} WindowSumZero(g: Col2ImGeom, col: seq<int>, c: nat, h: int, w: int,
                                         hlo: int, hhi: int, wlo: int, whi: int)
    requires g.Valid() && ColFits(g, col) && c < g.channels
    requires forall hc :: hlo <= hc < hhi ==> RowSum(g, col, c, h, w, hc, wlo, whi) == 0
    ensures WindowSum(g, col, c, h, w, hlo, hhi, wlo, whi) == 0
    decreases hhi - hlo
  {
    if hlo < hhi {
      WindowSumZero(g, col, c, h, w, hlo, hhi - 1, wlo, whi);
    }
  }

  /** Replacing each row of the window by the full row leaves the sum unchanged. */
  lemma {:induction false} WindowRows(g: Col2ImGeom, col: seq<int>, c: nat, h: nat, w: nat, hlo: int, hhi: int)
    requires g.Valid() && ColFits(g, col) && c < g.channels
    requires ColStart(h, g.kh, g.sh) <= hlo && hhi <= ColEnd(h, g.sh, g.HCol())
    ensures WindowSum(g, col, c, h, w, hlo, hhi, ColStart(w, g.kw, g.sw), ColEnd(w, g.sw, g.WCol()))
         == WindowSum(g, col, c, h, w, hlo, hhi, 0, g.WCol())
    decreases hhi - hlo
  {
    if hlo < hhi {
      WindowRows(g, col, c, h, w, hlo, hhi - 1);
      RowWindow(g, col, c, h, w, hhi - 1);
    }
  }

  /** The double loop over the window `[h_col_start, h_col_end) x
      [w_col_start, w_col_end)` sums every contribution to the point. */
  lemma Window(g: Col2ImGeom, col: seq<int>, c: nat, y: nat, x: nat)
    requires g.Valid() && ColFits(g, col) && c < g.channels
    ensures ImValue(g, col, c, y, x)
         == WindowSum(g, col, c, y + g.padh, x + g.padw,
                      ColStart(y + g.padh, g.kh, g.sh), ColEnd(y + g.padh, g.sh, g.HCol()),
                      ColStart(x + g.padw, g.kw, g.sw), ColEnd(x + g.padw, g.sw, g.WCol()))
  {
    var h, w := y + g.padh, x + g.padw;
    var lo, hi, n := ColStart(h, g.kh, g.sh), ColEnd(h, g.sh, g.HCol()), g.HCol();
    var wlo, whi := ColStart(w, g.kw, g.sw), ColEnd(w, g.sw, g.WCol());
    forall hc | 0 <= hc < n && !(lo <= hc < hi)
      ensures RowSum(g, col, c, h, w, hc, 0, g.WCol()) == 0
    {
      RowWindow(g, col, c, h, w, hc);
    }
    if hi <= lo {
      WindowSumZero(g, col, c, h, w, 0, n, 0, g.WCol());
      WindowSumZero(g, col, c, h, w, lo, hi, wlo, whi);
    } else {
      ColRange(h, g.kh, g.sh, n, lo);
      WindowRows(g, col, c, h, w, lo, hi);
      WindowSumSplit(g, col, c, h, w, 0, lo, n, 0, g.WCol());
      WindowSumSplit(g, col, c, h, w, lo, hi, n, 0, g.WCol());
      WindowSumZero(g, col, c, h, w, 0, lo, 0, g.WCol());
      WindowSumZero(g, col, c, h, w, hi, n, 0, g.WCol());
    }
  }

  // ------------------------------------------------------------ the flat image index

  /** Channel, row and column of flat image index `index`. */
  function Chan(g: Col2ImGeom, index: nat): nat
    requires g.Valid()
  {
    index / (g.width * g.height)
  }

  function PixRow(g: Col2ImGeom, index: nat): nat
    requires g.Valid()
  {
    (index / g.width) % g.height
  }

  function PixCol(g: Col2ImGeom, index: nat): nat
    requires g.Valid()
  {
    index % g.width
  }

  lemma ChanBound(g: Col2ImGeom, index: nat)
    requires g.Valid() && index < g.Total()
    ensures Chan(g, index) < g.channels
  {
    assert g.Total() == g.channels * (g.width * g.height);
    DivLess(index, g.width * g.height, g.channels);
  }

  /** A flat image index is `(c*height + y)*width + x`. */
  lemma Unflatten(g: Col2ImGeom, index: nat)
    requires g.Valid()
    ensures index == (Chan(g, index) * g.height + PixRow(g, index)) * g.width + PixCol(g, index)
  {
    DivDiv(index, g.width, g.height);
    var q := index / g.width;
    assert q == (q / g.height) * g.height + q % g.height;
    assert index == q * g.width + index % g.width;
  }

  /** The value stripe processing leaves at flat index `index`: on the
      copy path (`is1x1`) the value already there, otherwise the column
      sum, plus the channel's `biasvec` entry. */
  function Expected(g: Col2ImGeom, o: seq<int>, col: seq<int>, dst: nat, bias: seq<int>, is1x1: bool, index: nat): int
    requires g.Valid() && ColFits(g, col) && index < g.Total() && dst + g.Total() <= |o| && |bias| >= g.channels
  {
    ChanBound(g, index);
    var c := Chan(g, index);
    (if is1x1 then o[dst + index] else ImValue(g, col, c, PixRow(g, index), PixCol(g, index))) + bias[c]
  }

  /** The image entries `[lo, hi)` (counted from `dst`) hold their expected
      values and every other entry of the buffer is as in `o`. */
  predicate ImDone(g: Col2ImGeom, s: seq<int>, o: seq<int>, col: seq<int>, dst: nat, bias: seq<int>, is1x1: bool,
                   lo: nat, hi: nat)
  {
    g.Valid() && ColFits(g, col) && |s| == |o| && dst + g.Total() <= |s| && |bias| >= g.channels &&
    lo <= hi <= g.Total() &&
    (forall index :: lo <= index < hi ==> s[dst + index] == Expected(g, o, col, dst, bias, is1x1, index)) &&
    (forall i :: 0 <= i < |s| && !(dst + lo <= i < dst + hi) ==> s[i] == o[i])
  }

  /** Writing the expected value at `index` extends the finished range by one. */
  lemma ImStep(g: Col2ImGeom, s': seq<int>, s: seq<int>, o: seq<int>, col: seq<int>, dst: nat, bias: seq<int>,
               is1x1: bool, lo: nat, index: nat)
    requires ImDone(g, s, o, col, dst, bias, is1x1, lo, index) && index < g.Total()
    requires s' == s[dst + index := Expected(g, o, col, dst, bias, is1x1, index)]
    ensures ImDone(g, s', o, col, dst, bias, is1x1, lo, index + 1)
  {
  }

  // ------------------------------------------------------------ the cursor

  /** The loop's incremental state at flat index `index` (lines 1211-1217,
      1241-1250): padded column `w`, padded row `h`, channel `c`, the row
      offset of `(c, h, w)` and the `h_col` window. */
  predicate Cursor(g: Col2ImGeom, index: nat, w: nat, h: nat, c: nat, offset: int, hcs: int, hce: int)
    requires g.Valid()
  {
    w == PixCol(g, index) + g.padw && h == PixRow(g, index) + g.padh && c == Chan(g, index) &&
    offset == Offset(g, c, h, w) && hcs == ColStart(h, g.kh, g.sh) && hce == ColEnd(h, g.sh, g.HCol())
  }

  /** `offset += plane_size_col; ++w` while `w` stays below `width + pad_w`
      follows the next index. */
  lemma CursorStep(g: Col2ImGeom, index: nat, w: nat, h: nat, c: nat, offset: int, hcs: int, hce: int)
    requires g.Valid() && Cursor(g, index, w, h, c, offset, hcs, hce) && w + 1 < g.width + g.padw
    ensures Cursor(g, index + 1, w + 1, h, c, offset + g.Plane(), hcs, hce)
  {
    SuccDivMod(index, g.width);
    DivDiv(index, g.width, g.height);
    DivDiv(index + 1, g.width, g.height);
    assert Offset(g, c, h, w + 1) == Offset(g, c, h, w) + g.Plane() by {
      MulSucc(c * g.kh * g.kw + h * g.kw + w, g.Plane());
    }
  }

  /** Lines 1232-1237: the sum of the window's summands, `val` starting at 0. */
  method ColumnSum(g: Col2ImGeom, col: seq<int>, c: nat, y: nat, x: nat, offset: int, coeffH: int, coeffW: int,
                   hcs: int, hce: int, wcs: int, wce: int) returns (val: int)
    requires g.Valid() && ColFits(g, col) && c < g.channels
    requires offset == Offset(g, c, y + g.padh, x + g.padw) && coeffH == CoeffH(g) && coeffW == CoeffW(g)
    requires hcs == ColStart(y + g.padh, g.kh, g.sh) && hce == ColEnd(y + g.padh, g.sh, g.HCol())
    requires wcs == ColStart(x + g.padw, g.kw, g.sw) && wce == ColEnd(x + g.padw, g.sw, g.WCol())
    ensures val == ImValue(g, col, c, y, x)
  {
    val := 0;
    var hc := hcs;
    if hcs < hce {
      while hc < hce
        invariant hcs <= hc <= hce
        invariant val == WindowSum(g, col, c, y + g.padh, x + g.padw, hcs, hc, wcs, wce)
      {
        val := AddRow(g, col, c, y + g.padh, x + g.padw, offset, coeffH, coeffW, hc, wcs, wce, val);
        hc := hc + 1;
      }
    }
    Window(g, col, c, y, x);
  }

  /** The inner loop over `w_col` (lines 1234-1236) for one `h_col` of the window. */
  method AddRow(g: Col2ImGeom, col: seq<int>, c: nat, h: nat, w: nat, offset: int, coeffH: int, coeffW: int,
                hc: int, wcs: int, wce: int, val0: int) returns (val: int)
    requires g.Valid() && ColFits(g, col) && c < g.channels
    requires offset == Offset(g, c, h, w) && coeffH == CoeffH(g) && coeffW == CoeffW(g)
    requires ColStart(h, g.kh, g.sh) <= hc < ColEnd(h, g.sh, g.HCol())
    requires wcs == ColStart(w, g.kw, g.sw) && wce == ColEnd(w, g.sw, g.WCol())
    ensures val == val0 + RowSum(g, col, c, h, w, hc, wcs, wce)
  {
    val := val0;
    var wc := wcs;
    if wcs < wce {
      while wc < wce
        invariant wcs <= wc <= wce
        invariant val == val0 + RowSum(g, col, c, h, w, hc, wcs, wc)
      {
        Summand(g, col, c, h, w, hc, wc);
        val := val + col[offset + hc * coeffH + wc * coeffW];
        wc := wc + 1;
      }
    }
  }

  // ------------------------------------------------------------ stripes

  /** `stripeSize = (total + nstripes - 1)/nstripes` (line 1208). */
  function StripeSize(total: nat, nstripes: nat): nat
    requires nstripes >= 1
  {
    CeilDiv(total, nstripes)
  }

  /** `endIndex = min(r.end*stripeSize, total)` (line 1210). */
  function StripeHi(total: nat, nstripes: nat, r1: nat): nat
    requires nstripes >= 1
  {
    Min(r1 * StripeSize(total, nstripes), total)
  }

  /** `startIndex = r.start*stripeSize` (line 1209), clipped to the end so
      that a stripe beyond `total` is the empty range. */
  function StripeLo(total: nat, nstripes: nat, r0: nat, r1: nat): nat
    requires nstripes >= 1
  {
    Min(r0 * StripeSize(total, nstripes), StripeHi(total, nstripes, r1))
  }

  /** Lines 1201-1252: one invocation on the stripe range `[r0, r1)`. Every
      image entry of `[startIndex, endIndex)` gets its expected value, and
      no other entry of the buffer changes. */
  method Col2ImStripe(g: Col2ImGeom, col: seq<int>, im: array<int>, dst: nat, bias: seq<int>, is1x1: bool,
                      nstripes: nat, r0: nat, r1: nat)
    requires g.Valid() && ColFits(g, col) && nstripes >= 1
    requires dst + g.Total() <= im.Length && |bias| >= g.channels
    modifies im
    ensures ImDone(g, im[..], old(im[..]), col, dst, bias, is1x1,
                   StripeLo(g.Total(), nstripes, r0, r1), StripeHi(g.Total(), nstripes, r1))
  {
    var coeffH := (1 - g.sh * g.kw * g.HCol()) * g.WCol();
    var coeffW := 1 - g.sw * g.HCol() * g.WCol();
    var total := g.Total();
    var stripeSize := CeilDiv(total, nstripes);
    var startIndex, endIndex := r0 * stripeSize, Min(r1 * stripeSize, total);
    var w: nat := PixCol(g, startIndex) + g.padw;
    var h: nat := PixRow(g, startIndex) + g.padh;
    var c: nat := Chan(g, startIndex);
    var hcs, hce := ColStart(h, g.kh, g.sh), ColEnd(h, g.sh, g.HCol());
    var plane := g.Plane();
    var offset := Offset(g, c, h, w);
    if startIndex < endIndex {
      ghost var o := im[..];
      var index := startIndex;
      while index < endIndex
        invariant startIndex <= index <= endIndex
        invariant Cursor(g, index, w, h, c, offset, hcs, hce)
        invariant ImDone(g, im[..], o, col, dst, bias, is1x1, startIndex, index)
      {
        ChanBound(g, index);
        var wcs, wce := ColStart(w, g.kw, g.sw), ColEnd(w, g.sw, g.WCol());
        var val;
        if is1x1 {
          val := im[dst + index];
        } else {
          val := ColumnSum(g, col, c, h - g.padh, w - g.padw, offset, coeffH, coeffW, hcs, hce, wcs, wce);
        }
        ghost var before := im[..];
        im[dst + index] := val + bias[c];
        ImStep(g, im[..], before, o, col, dst, bias, is1x1, startIndex, index);
        w, h, c, offset, hcs, hce := Advance(g, index, w, h, c, offset, hcs, hce, plane);
        index := index + 1;
      }
    }
  }

  /** Lines 1241-1250: `offset += plane_size_col`, `++w`, and once `w`
      reaches `width + pad_w` everything recomputed from `index + 1`. */
  method Advance(g: Col2ImGeom, index: nat, w: nat, h: nat, c: nat, offset: int, hcs: int, hce: int, plane: int)
      returns (w': nat, h': nat, c': nat, offset': int, hcs': int, hce': int)
    requires g.Valid() && Cursor(g, index, w, h, c, offset, hcs, hce) && plane == g.Plane()
    ensures Cursor(g, index + 1, w', h', c', offset', hcs', hce')
  {
    w', h', c', offset', hcs', hce' := w, h, c, offset + plane, hcs, hce;
    if w + 1 >= g.width + g.padw {
      w' := PixCol(g, index + 1) + g.padw;
      h' := PixRow(g, index + 1) + g.padh;
      c' := Chan(g, index + 1);
      hcs', hce' := ColStart(h', g.kh, g.sh), ColEnd(h', g.sh, g.HCol());
      offset' := Offset(g, c', h', w');
    } else {
      CursorStep(g, index, w, h, c, offset, hcs, hce);
      w' := w + 1;
    }
  }

  /** Stripes `[0, k)` then stripe `k` make stripes `[0, k + 1)`. */
  lemma ImJoin(g: Col2ImGeom, s': seq<int>, s: seq<int>, o: seq<int>, col: seq<int>, dst: nat, bias: seq<int>,
               is1x1: bool, x: nat, y: nat)
    requires ImDone(g, s, o, col, dst, bias, is1x1, 0, x)
    requires ImDone(g, s', s, col, dst, bias, is1x1, x, y)
    ensures ImDone(g, s', o, col, dst, bias, is1x1, 0, y)
  {
    forall index | x <= index < y
      ensures s'[dst + index] == Expected(g, o, col, dst, bias, is1x1, index)
    {
      assert Expected(g, s, col, dst, bias, is1x1, index) == Expected(g, o, col, dst, bias, is1x1, index);
    }
  }

  /** Stripe `k` of `nstripes` owns exactly the indices `j` with
      `j / stripeSize == k`, so the stripes split `[0, total)` without overlap. */
  lemma IndexOwner(total: nat, nstripes: nat, k: nat, j: nat)
    requires nstripes >= 1 && j < total
    ensures j / StripeSize(total, nstripes) < nstripes
    ensures StripeLo(total, nstripes, k, k + 1) <= j < StripeHi(total, nstripes, k + 1) <==>
      k == j / StripeSize(total, nstripes)
  {
    var ss := StripeSize(total, nstripes);
    DivLess(j, ss, nstripes);
    DivLess(j, ss, k + 1);
    DivLess(j, ss, k);
    MulMonoLeft(k, k + 1, ss);
  }

  /** `Col2ImInvoker::run` (lines 1174-1199): the invocations on `[k, k + 1)`
      one after another; every image entry gets its expected value. */
  method Col2ImRun(g: Col2ImGeom, col: seq<int>, im: array<int>, dst: nat, bias: seq<int>, is1x1: bool, nstripes: nat)
    requires g.Valid() && ColFits(g, col) && nstripes >= 1
    requires dst + g.Total() <= im.Length && |bias| >= g.channels
    modifies im
    ensures ImDone(g, im[..], old(im[..]), col, dst, bias, is1x1, 0, g.Total())
  {
    ghost var o := im[..];
    var k := 0;
    while k < nstripes
      invariant k <= nstripes
      invariant ImDone(g, im[..], o, col, dst, bias, is1x1, 0, StripeHi(g.Total(), nstripes, k))
    {
      ghost var before := im[..];
      Col2ImStripe(g, col, im, dst, bias, is1x1, nstripes, k, k + 1);
      MulMonoLeft(k, k + 1, StripeSize(g.Total(), nstripes));
      ImJoin(g, im[..], before, o, col, dst, bias, is1x1,
             StripeHi(g.Total(), nstripes, k), StripeHi(g.Total(), nstripes, k + 1));
      k := k + 1;
    }
    assert nstripes * StripeSize(g.Total(), nstripes) >= g.Total();
  }

  /** With a 1x1 kernel, unit stride and no padding, the column sum at a
      point is the single column entry at the same flat index, so the copy
      path (`is1x1`, line 1228) computes the same image as the general path
      when the column matrix is the image itself. */
  lemma DirectCopy(g: Col2ImGeom, col: seq<int>, index: nat)
    requires g.Valid() && g.kh == 1 && g.kw == 1 && g.sh == 1 && g.sw == 1 && g.padh == 0 && g.padw == 0
    requires ColFits(g, col) && index < g.Total()
    ensures g.HCol() == g.height && g.WCol() == g.width && index < |col| && Chan(g, index) < g.channels
    ensures ImValue(g, col, Chan(g, index), PixRow(g, index), PixCol(g, index)) == col[index]
  {
    UnitBounds(g, col, index);
    UnitTap(g, col, Chan(g, index), PixRow(g, index), PixCol(g, index));
    UnitTapAt(g, col, index);
  }

  lemma UnitTapAt(g: Col2ImGeom, col: seq<int>, index: nat)
    requires g.Valid() && g.kh == 1 && g.kw == 1 && g.sh == 1 && g.sw == 1 && g.padh == 0 && g.padw == 0
    requires ColFits(g, col) && index < g.Total()
    ensures index < |col| && Chan(g, index) < g.channels
    ensures Tap(g, col, Chan(g, index), PixRow(g, index), PixCol(g, index), PixRow(g, index), PixCol(g, index)) == col[index]
  {
    UnitBounds(g, col, index);
    Unflatten(g, index);
    UnitTapIndex(g, col, Chan(g, index), PixRow(g, index), PixCol(g, index), index);
  }

  lemma UnitBounds(g: Col2ImGeom, col: seq<int>, index: nat)
    requires g.Valid() && g.kh == 1 && g.kw == 1 && g.sh == 1 && g.sw == 1 && g.padh == 0 && g.padw == 0
    requires ColFits(g, col) && index < g.Total()
    ensures g.HCol() == g.height && g.WCol() == g.width && index < |col| && Chan(g, index) < g.channels
    ensures PixRow(g, index) < g.height && PixCol(g, index) < g.width
  {
    UnitGeometry(g);
    assert g.HCol() >= 1 && g.WCol() >= 1;
    assert |col| >= g.Total();
    ChanBound(g, index);
  }

  /** With a unit kernel only column `(y, x)` contributes to `(y, x)`. */
  lemma UnitTap(g: Col2ImGeom, col: seq<int>, c: nat, y: nat, x: nat)
    requires g.Valid() && g.kh == 1 && g.kw == 1 && g.sh == 1 && g.sw == 1 && g.padh == 0 && g.padw == 0
    requires ColFits(g, col) && c < g.channels && y < g.height && x < g.width
    ensures ImValue(g, col, c, y, x) == Tap(g, col, c, y, x, y, x)
  {
    UnitCols(g);
    UnitBounds1(y, g.height);
    UnitBounds1(x, g.width);
    Window(g, col, c, y, x);
    assert WindowSum(g, col, c, y, x, y, y + 1, x, x + 1) == Tap(g, col, c, y, x, y, x) by {
      assert RowSum(g, col, c, y, x, y, x, x + 1) == Tap(g, col, c, y, x, y, x);
    }
  }

  /** With a unit kernel the tap of `(y, x)` is entry `(c*height + y)*width + x`. */
  lemma UnitTapIndex(g: Col2ImGeom, col: seq<int>, c: nat, y: nat, x: nat, index: nat)
    requires g.Valid() && g.kh == 1 && g.kw == 1 && g.sh == 1 && g.sw == 1 && g.padh == 0 && g.padw == 0
    requires ColFits(g, col) && c < g.channels && y < g.height && x < g.width
    requires index == (c * g.height + y) * g.width + x
    ensures index < |col| && Tap(g, col, c, y, x, y, x) == col[index]
  {
    UnitGeometry(g);
    var idx := ColIndex(g, c, 0, 0, y, x);
    assert idx == ((c * 1 + 0) * 1 + 0) * g.Plane() + y * g.WCol() + x;
    UnitIndex(c, y, x, g.height, g.width);
    ColIndexBound(g, c, 0, 0, y, x);
  }

  /** With a unit kernel and stride, the window of `h` is `[h, h + 1)`. */
  lemma UnitBounds1(h: nat, n: nat)
    requires h < n
    ensures ColStart(h, 1, 1) == h && ColEnd(h, 1, n) == h + 1
  {
  }

  lemma UnitCols(g: Col2ImGeom)
    requires g.Valid() && g.kh == 1 && g.kw == 1 && g.sh == 1 && g.sw == 1 && g.padh == 0 && g.padw == 0
    ensures g.HCol() == g.height && g.WCol() == g.width
  {
  }

  lemma UnitGeometry(g: Col2ImGeom)
    requires g.Valid() && g.kh == 1 && g.kw == 1 && g.sh == 1 && g.sw == 1 && g.padh == 0 && g.padw == 0
    ensures g.HCol() == g.height && g.WCol() == g.width && g.Plane() == g.height * g.width
    ensures g.channels * g.kh * g.kw * g.Plane() == g.Total()
  {
  }

  lemma UnitIndex(c: int, y: int, x: int, height: int, width: int)
    ensures ((c * 1 + 0) * 1 + 0) * (height * width) + y * width + x == (c * height + y) * width + x
  {
  }
}
