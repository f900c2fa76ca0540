# OpenCV DNN convolution and deconvolution layers, modelled in Dafny

This project models the CPU path of OpenCV's `Convolution` and
`Deconvolution` layers (`modules/dnn/src/layers/convolution_layer.cpp`) and
proves what each stage computes.

The forward convolution is modelled end to end:

- the output and internal shapes, the group checks and the FLOP count;
- the preparation in `ParallelConv::run`: the tap offset table `ofstab`, the
  bias vector `biasvec` with its two duplicated tail entries, and the padding
  of every weight row to a multiple of `VEC_ALIGN = 8`;
- the partition of the output plane into stripes, stretched when there are
  fewer stripes than samples;
- the im2row gather of a tile of `BLK_SIZE = 32` output positions over a
  block of `BLK_SIZE_CN = 64` input channels, both the interior path through
  the offset table and the boundary path that copies only the taps inside
  the image;
- the scalar two-output-channel dot-product kernel.

Stripes run one after another. The proof shows that they write disjoint sets
of output elements that together cover the whole output. The final contract:
every output element `(sample, channel, y, x)` is the bias plus the dot
product of its weight row with the zero-padded, dilated input window.

The deconvolution is modelled the same way:

- its shapes;
- `MatMulInvoker`, the scalar path of `wghtMat * convMat` with its row pairs,
  its four-coefficient steps and its column stripes, including the aliased
  rows at odd row counts and at the last coefficients;
- `Col2ImInvoker`, which sums, for every output point, the column-matrix
  entries whose kernel taps land on it, plus the group's bias;
- the slicing of `forward` into per-image, per-group blocks of
  `weightsMat`, `convMat`, `colMat` and `dstMat`.

The final contract: every output element is its channel's bias plus the
col2im sum of the group's column matrix. The column matrix is proved to be
the channel sum of weights times inputs.

Conventions of the model:

- Tensor elements are exact integers. `float` arithmetic is not modelled.
- Tensors are flat row-major sequences or arrays, the layout `Mat` gives them.
- Index arithmetic uses C++ truncating division (`Arith.TDiv`) where the
  source divides a value that can be negative.
- Thread counts are a parameter `nstripes >= 1`.

Where the layer's documentation and the code differ, the model follows the
code:

- The forward fast path for 1x1 kernels is never taken. `ParallelConv::run`
  sets `is1x1_` only for a `0x0` kernel (line 303).
- The forward output extent uses C++ `/`. An input shorter than one dilated
  window still gives extent 1, or a non-positive extent, rather than the
  floor.
- `is1x1()` ignores padding (reported below). The deconvolution shapes
  follow it as written: a padded 1x1 kernel gets no column buffer. The
  deconvolution forward pass does not: it writes straight into the output
  only when the padding is also zero, because with padding the source's
  direct path writes past the output (see "Left out").

## Model

| member | source | states |
|---|---|---|
| Arith.TDiv | modules/dnn/src/layers/convolution_layer.cpp:168-169 | C++ `/` on int rounds toward zero: for `a >= 0`, `q*b` is the largest multiple of `b` not above `a`; for `a < 0`, the smallest not below it |
| Arith.CeilDiv | modules/dnn/src/layers/convolution_layer.cpp:356 | `(a + b - 1)/b` is the least `q` with `q*b >= a` |
| Arith.AlignSize | modules/dnn/src/layers/convolution_layer.cpp:356 | `alignSize(sz, n)` is the least multiple of `n` that is at least `sz` |
| ConvShapes.ConvOutSizeCountsWindows | modules/dnn/src/layers/convolution_layer.cpp:168-169 | when the padded input holds a dilated window, output position `n` exists exactly when its window `n*stride + dilation*(k-1) + 1` fits in the padded input |
| ConvShapes.ConvOutSizeShortInput | modules/dnn/src/layers/convolution_layer.cpp:168-169 | an input shorter than one window gives extent 1 when it is less than a stride short, and a non-positive extent otherwise |
| ConvShapes.ConvOfDeconvSize | modules/dnn/src/layers/convolution_layer.cpp:1009-1010 | with `adj < stride`, the forward extent of the deconvolution extent is back to the input extent, and so is col2im's `height_col` |
| ConvShapes.GroupCount | modules/dnn/src/layers/convolution_layer.cpp:178-180 | a successful group count divides both channel counts, and `ngroups*weightCn <= inpCn < (ngroups+1)*weightCn` |
| ConvShapes.GroupCountExact | modules/dnn/src/layers/convolution_layer.cpp:178-180 | for `inpCn == ngroups*weightCn`, the check succeeds exactly when the groups divide `outCn`, and then it yields `ngroups` |
| ConvShapes.ForwardGroupCount | modules/dnn/src/layers/convolution_layer.cpp:927-929 | `forward` accepts exactly when `weightCn` divides and does not exceed `inpCn` and the quotient divides `outCn`; each group then has `weightCn` channels |
| ConvShapes.GroupCheckLaxerThanForward | modules/dnn/src/layers/convolution_layer.cpp:178-180 | 6 input channels with 4-channel weights pass the shape check but fail the forward check at line 927 |
| ConvShapes.ConvMemoryShapes | modules/dnn/src/layers/convolution_layer.cpp:151-186 | succeeds exactly when there are blobs, the bias has `outCn` entries, there is one input and the groups check out; the one output is `(N, outCn, outH, outW)` and there are no internals |
| ConvShapes.DeconvGroupsExact | modules/dnn/src/layers/convolution_layer.cpp:1013-1016 | the deconvolution check holds exactly when `weightCn` divides and does not exceed `inpCn` and `inpCn/weightCn` divides `outCn` |
| ConvShapes.DeconvMemoryShapes | modules/dnn/src/layers/convolution_layer.cpp:997-1029 | succeeds exactly under the bias, input and group conditions; every input gets `(N, outCn, outH, outW)`; the internals are the column matrix (none whenever `is1x1()` holds as written, padding or not) and, with a bias, a `1 x outH*outW` row |
| ConvShapes.ConvColRowShape | modules/dnn/src/layers/convolution_layer.cpp:143-149 | the im2row matrix is two-dimensional, with one row per output position and one column per weight of an output channel |
| ConvShapes.Is1x1SameExtent | modules/dnn/src/layers/convolution_layer.cpp:1009-1010 | with the corrected `is1x1`, the output plane equals the input plane, so `colMat` can be `dstMat` |
| ConvShapes.Is1x1IgnoresPadding | modules/dnn/src/layers/convolution_layer.cpp:92-97 | the as-written predicate accepts a padded 1x1 kernel whose output plane is smaller than the input plane |
| ConvShapes.ForwardIs1x1Never | modules/dnn/src/layers/convolution_layer.cpp:303 | no valid kernel makes the forward `is1x1_` true |
| ConvShapes.ConvFlops | modules/dnn/src/layers/convolution_layer.cpp:965-977 | fails exactly when the numbers of inputs and outputs differ; otherwise returns the sum over pairs of output elements times `2*karea*inpCn + 1` |
| ConvShapes.FlopsSingleAndMonotone | modules/dnn/src/layers/convolution_layer.cpp:971-975 | one pair costs `N*outCn*outH*outW*(2*karea*inpCn + 1)`; adding pairs never lowers the count |
| ConvPartition.MakePartition | modules/dnn/src/layers/convolution_layer.cpp:350-367 | stripes per sample, stripe size and stretch factor are at least 1; the stripes of one sample cover the plane, and the stretched stripes cover every sample |
| ConvPartition.SamplesPerStripe | modules/dnn/src/layers/convolution_layer.cpp:353-356 | with at least two stripes per sample, `batchSize*(nstripes/batchSize) <= nstripes` |
| ConvPartition.StripeCover | modules/dnn/src/layers/convolution_layer.cpp:356-357 | `sps` stripes of the aligned, capped stripe size cover the plane |
| ConvPartition.BatchCover | modules/dnn/src/layers/convolution_layer.cpp:362-366 | `ceil(batchSize/nstripes)` samples per stripe cover the batch |
| ConvPartition.CoversIffOwner | modules/dnn/src/layers/convolution_layer.cpp:391-396 | stripe `st` handles `(s, p)` if and only if it is that pair's one owner: no pair is processed twice or skipped |
| ConvPartition.OwnerInRange | modules/dnn/src/layers/convolution_layer.cpp:365-393 | every pair's owner is among the `nstripes*mult` stretched stripes and has that pair's sample |
| ConvPartition.PastLastSubsample | modules/dnn/src/layers/convolution_layer.cpp:392-393 | once a stripe's sample index passes the batch, so does every later stripe's, so the `break` skips no work |
| ConvGeometry.OutIdxInjective | modules/dnn/src/layers/convolution_layer.cpp:398-400 | distinct (sub-sample, channel, position) triples have distinct output addresses |
| ConvGeometry.OutIdxOnto | modules/dnn/src/layers/convolution_layer.cpp:398-400 | every output address is the address of some (sub-sample, channel, position) triple |
| ConvGeometry.BlockRowEntry | modules/dnn/src/layers/convolution_layer.cpp:432-474 | entry `(k, i, j)` of an im2row block row is the input pixel at channel `cn0+k`, dilated row `in_i + i*dilation_h`, dilated column `in_j + j*dilation_w`, or 0 outside the image |
| ConvGeometry.BlockRowSplit | modules/dnn/src/layers/convolution_layer.cpp:403-407 | a block row of `n1 + n2` channels is the `n1`-channel block followed by the next `n2`-channel block, so 64-channel blocks tile the im2row row |
| ConvGeometry.TapRangeExact | modules/dnn/src/layers/convolution_layer.cpp:453-457 | `i0 <= kr < i1` holds exactly for the kernel rows whose dilated tap lands inside the image, and likewise for columns |
| ConvGeometry.TapLoExact | modules/dnn/src/layers/convolution_layer.cpp:453 | kernel row `kr` reaches the bound `(-in_i + dilation - 1)/dilation` of line 453 exactly when its tap lies at image row 0 or later |
| ConvGeometry.TapHiExact | modules/dnn/src/layers/convolution_layer.cpp:454 | kernel row `kr` is below the bound of line 454 exactly when its tap lies before the image's last row ends |
| ConvGeometry.InteriorInside | modules/dnn/src/layers/convolution_layer.cpp:442-446 | when the interior test holds, every tap of the window is in the image |
| ConvGeometry.StartOutCnBound | modules/dnn/src/layers/convolution_layer.cpp:398-401 | `startOutCn + i` is a real output channel, for every sub-sample and every channel of its group |
| ConvPrep.OffsetIsTapAddress | modules/dnn/src/layers/convolution_layer.cpp:306-314 | the window's top-left address plus `ofstab[q]` is the input address of tap `q` |
| ConvPrep.BuildOffsetTable | modules/dnn/src/layers/convolution_layer.cpp:306-314 | a fresh table of `karea*min(inpCn, 64)` entries, entry `q` being the tap offset of tap `q` |
| ConvPrep.FillOffsetChannel | modules/dnn/src/layers/convolution_layer.cpp:309-314 | after channel `k` the table agrees with the tap offsets up to the start of channel `k+1` |
| ConvPrep.FillOffsetRow | modules/dnn/src/layers/convolution_layer.cpp:311-314 | after kernel row `k_r` the table agrees with the tap offsets through that row |
| ConvPrep.RowEntry | modules/dnn/src/layers/convolution_layer.cpp:313-314 | the entry written for `(k, k_r, k_c)` lands at the running table position and holds that tap's offset |
| ConvPrep.BuildBiasVector | modules/dnn/src/layers/convolution_layer.cpp:316-328 | `outCn + 2` entries: the bias (or 0 when there is none) of each channel, then two copies of the last channel's |
| ConvPrep.BiasTail | modules/dnn/src/layers/convolution_layer.cpp:328 | every read `biasptr[i+1]` of the 2-channel kernel is inside the vector, and past the last channel it repeats the last bias |
| ConvPrep.PaddedEntry | modules/dnn/src/layers/convolution_layer.cpp:936-944 | element `(r, c)` of the padded matrix is weight `(r, c)` for `c < cols` and 0 in the padding columns |
| ConvPrep.PaddedRowSlice | modules/dnn/src/layers/convolution_layer.cpp:940-943 | row `r` of the padded matrix is blob row `r` followed by `wstep - cols` zeros |
| ConvPrep.PaddedLength | modules/dnn/src/layers/convolution_layer.cpp:936-944 | the padded matrix has `rows*wstep` elements |
| ConvPrep.PaddedNoPadding | modules/dnn/src/layers/convolution_layer.cpp:936 | with no padding columns, the padded matrix is the weights themselves |
| ConvPrep.PadWeights | modules/dnn/src/layers/convolution_layer.cpp:933-947 | the row step is a multiple of 8 with `cols <= wstep < cols + 8`; the matrix holds every weight row followed by its zero padding; when `cols % 8 == 0` it is the blob itself, otherwise a fresh buffer |
| ConvPrep.PadMatrix | modules/dnn/src/layers/convolution_layer.cpp:937-944 | the fresh buffer holds every blob row followed by its zero padding |
| ConvPrep.PadNextRow | modules/dnn/src/layers/convolution_layer.cpp:940-943 | appending row `r` to `r` padded rows gives `r + 1` padded rows |
| ConvPrep.PadRow | modules/dnn/src/layers/convolution_layer.cpp:940-943 | the row's padding columns become 0 and its first `cols` columns become the blob row; the rows before it are kept |
| ConvGather.InteriorTap | modules/dnn/src/layers/convolution_layer.cpp:442-450 | on the interior path, `imgptr + ofstab[k]` lies in the input and holds entry `k` of the im2row block row |
| ConvGather.GatherInterior | modules/dnn/src/layers/convolution_layer.cpp:447-450 | the row buffer slot of the position holds exactly the im2row block row; every other slot is unchanged |
| ConvGather.BoundaryTap | modules/dnn/src/layers/convolution_layer.cpp:458-470 | each element the boundary loop copies lies in the input and is the block row's entry for that tap |
| ConvGather.TapRowZero | modules/dnn/src/layers/convolution_layer.cpp:451-457 | taps whose kernel row or column falls outside the image are 0 in the block row, which is what the zeroed buffer holds |
| ConvGather.CopyTap | modules/dnn/src/layers/convolution_layer.cpp:470 | copying tap `(k, i, j)` extends the finished prefix of the row by one entry |
| ConvGather.CopyColumns | modules/dnn/src/layers/convolution_layer.cpp:465-470 | after columns `[j0, j1)` the row is finished through tap `(k, i, j1)`, with the padding columns left at zero |
| ConvGather.CopyTapRow | modules/dnn/src/layers/convolution_layer.cpp:460-471 | kernel row `i` inside the image leaves the row finished through the start of row `i + 1` |
| ConvGather.CopyRows | modules/dnn/src/layers/convolution_layer.cpp:460-471 | after kernel rows `[i0, i1)` the row is finished through the start of row `i1` |
| ConvGather.CopyChannel | modules/dnn/src/layers/convolution_layer.cpp:458-472 | after channel `k` the row is finished through the start of channel `k + 1` |
| ConvGather.GatherBoundary | modules/dnn/src/layers/convolution_layer.cpp:451-474 | the row buffer slot holds exactly the block row, zeros at the padding taps; every other slot is unchanged |
| ConvKernel.DotPair | modules/dnn/src/layers/convolution_layer.cpp:560-566 | `s00` and `s10` become their seeds plus the dot products of the im2row row with the two weight rows |
| ConvKernel.KernelRows | modules/dnn/src/layers/convolution_layer.cpp:546-570 | the two output rows of the tile hold seed plus dot product at every position, also when the second row aliases the first past the last channel; nothing else changes |
| ConvKernel.PairAddresses | modules/dnn/src/layers/convolution_layer.cpp:488-499 | the weight rows, output rows and biases of channels `i` and `i+1` are those channels' own and the two rows do not overlap; `biasptr[i+1]` is read even for the last channel and lies inside the bias vector; past the last channel the second row and bias repeat the first |
| ConvKernel.PairStep | modules/dnn/src/layers/convolution_layer.cpp:486-500 | the two rows written join the finished channels of the tile, which grow by two (or by one at the end) |
| ConvKernel.KernelPair | modules/dnn/src/layers/convolution_layer.cpp:486-571 | one channel pair extends the finished channels of the tile to `min(i + 2, outCn)` and leaves everything else alone |
| ConvKernel.DotKernel | modules/dnn/src/layers/convolution_layer.cpp:486-571 | every output channel over the tile gets its bias (first block) or its old value (later blocks) plus the block's dot product; nothing else changes |
| ConvStripe.GatherTile | modules/dnn/src/layers/convolution_layer.cpp:432-476 | each tile position's buffer row is its im2row block row, by whichever path the interior test chooses |
| ConvStripe.RowbufFits | modules/dnn/src/layers/convolution_layer.cpp:375-407 | every row the tile gathers fits in `rowbufsz = karea*BLK_SIZE_CN*BLK_SIZE` |
| ConvStripe.Im2RowBlock | modules/dnn/src/layers/convolution_layer.cpp:403-407 | channels `[cn0, cn0+ncn)` of the im2row row are the block row of those channels |
| ConvStripe.WeightBlock | modules/dnn/src/layers/convolution_layer.cpp:484-488 | the kernel's weight block is channels `[cn0, cn0+ncn)` of the output channel's weight row |
| ConvStripe.PartialBlock | modules/dnn/src/layers/convolution_layer.cpp:403-574 | the output after `cn0 + ncn` input channels is the output after `cn0` plus that block's dot product |
| ConvStripe.TileToPartial | modules/dnn/src/layers/convolution_layer.cpp:546-570 | a finished tile holds, at every channel and position, the partial convolution through channel `cn0 + ncn` |
| ConvStripe.ChannelBlock | modules/dnn/src/layers/convolution_layer.cpp:405-574 | over the whole stripe, the output holds the partial convolution through channel `cn0 + ncn`; nothing outside the stripe changes |
| ConvStripe.ProcessStripe | modules/dnn/src/layers/convolution_layer.cpp:388-576 | the stripe's elements end up as the full convolution plus bias; everything else is unchanged |
| ConvStripe.StripeStep | modules/dnn/src/layers/convolution_layer.cpp:388-576 | running one more stripe adds exactly the elements it owns to the finished set |
| ConvStripe.StripesBreak | modules/dnn/src/layers/convolution_layer.cpp:392-393 | stripes past the one whose sample index reaches the batch own nothing, so breaking out loses nothing |
| ConvStripe.Operator | modules/dnn/src/layers/convolution_layer.cpp:332-581 | one invocation on `[r0, r1)` finishes exactly the elements owned by the stretched stripes `[r0*mult, r1*mult)` |
| ConvStripe.RunStripes | modules/dnn/src/layers/convolution_layer.cpp:329 | after the invocations `[k, k+1)` for every `k < nstripes`, every element owned by a stretched stripe is finished |
| ConvStripe.AllOwned | modules/dnn/src/layers/convolution_layer.cpp:329 | once every stripe has run, every output element is its convolution plus the effective bias |
| ConvStripe.BiasVectorAgrees | modules/dnn/src/layers/convolution_layer.cpp:316-328 | the convolution with the padded bias vector is the convolution with the effective bias |
| ConvStripe.EffectiveBias | modules/dnn/src/layers/convolution_layer.cpp:318-327 | the bias blob for each output channel, or zeros when there is none |
| ConvStripe.Run | modules/dnn/src/layers/convolution_layer.cpp:273-329 | every output element `(s, c, p)` is the bias plus the dot product of its weight row with the zero-padded window |
| ConvLayer.PaddedWeightRow | modules/dnn/src/layers/convolution_layer.cpp:936-946 | padding the weight rows leaves every weight row the kernel reads unchanged |
| ConvLayer.PaddedConvOut | modules/dnn/src/layers/convolution_layer.cpp:933-960 | the convolution with the padded weights is the convolution with the blob's own weights |
| ConvLayer.ConvForward | modules/dnn/src/layers/convolution_layer.cpp:921-963 | every output element is the convolution of the input with the blob's `outCn x inpCn*karea` weights plus the effective bias |
| DeconvMatMul.ZeroPair | modules/dnn/src/layers/convolution_layer.cpp:1069-1073 | the stripe of both destination rows becomes zero and nothing else changes |
| DeconvMatMul.RowCoefficients | modules/dnn/src/layers/convolution_layer.cpp:1077-1097 | `alpha_t` is `A[m, k+t]` while `k + t < kmax` and 0 otherwise, for both rows |
| DeconvMatMul.BRowStarts | modules/dnn/src/layers/convolution_layer.cpp:1083-1097 | `bptr_t` is the start of `B` row `k+t` while `k + t < kmax`, otherwise it repeats the previous row; all are in bounds |
| DeconvMatMul.QuadStep | modules/dnn/src/layers/convolution_layer.cpp:1139-1147 | one `k` pass adds exactly the products for rows `k .. min(k+4, kmax)`, since the zero coefficients cancel the repeated rows |
| DeconvMatMul.AccumPair | modules/dnn/src/layers/convolution_layer.cpp:1139-1147 | every column of the stripe of both rows gains its four-term contribution, also when the two rows coincide; nothing else changes |
| DeconvMatMul.KStep | modules/dnn/src/layers/convolution_layer.cpp:1075-1147 | after the pass, both rows' stripes hold the product sum through `min(k+4, kmax)` |
| DeconvMatMul.RowPair | modules/dnn/src/layers/convolution_layer.cpp:1064-1148 | rows `m` and `min(m+1, mmax-1)` of the stripe hold their full rows of `A*B`; nothing else changes |
| DeconvMatMul.RowsStep | modules/dnn/src/layers/convolution_layer.cpp:1064-1148 | a row pair joins the finished rows, which grow to `min(m+2, mmax)` |
| DeconvMatMul.MatMulRange | modules/dnn/src/layers/convolution_layer.cpp:1064-1148 | columns `[lo, hi)` of every row of `C` hold `A*B`; everything outside them is unchanged |
| DeconvMatMul.StripeSize | modules/dnn/src/layers/convolution_layer.cpp:1045 | the stripe size is a multiple of 16, and `nstripes` stripes of it cover the columns of `B` |
| DeconvMatMul.MatMulStripe | modules/dnn/src/layers/convolution_layer.cpp:1043-1149 | an invocation on `[r0, r1)` computes exactly the columns of those stripes, and an empty range changes nothing |
| DeconvMatMul.ColumnOwner | modules/dnn/src/layers/convolution_layer.cpp:1046-1050 | column `j` belongs to stripe `k` exactly when `j / stripeSize == k`, so the stripes split the columns |
| DeconvMatMul.RowsJoin | modules/dnn/src/layers/convolution_layer.cpp:1043-1149 | the columns of stripes `[0, k)` and of stripe `k` make the columns of stripes `[0, k+1)` |
| DeconvMatMul.MatMul | modules/dnn/src/layers/convolution_layer.cpp:1296-1297 | after all stripes, every row and column of `C` holds `A*B`; no entry outside `C` changes |
| Col2Im.ColRange | modules/dnn/src/layers/convolution_layer.cpp:1221-1226 | `[h_col_start, h_col_end)` is exactly the set of columns `hc` whose tap `h - hc*stride` lies in `[0, kernel)` |
| Col2Im.Address | modules/dnn/src/layers/convolution_layer.cpp:1235 | `offset + h_col*coeff_h + w_col*coeff_w` is the column-matrix entry of tap `(h - hc*stride_h, w - wc*stride_w)` at column `(hc, wc)` |
| Col2Im.Summand | modules/dnn/src/layers/convolution_layer.cpp:1235 | each summand read inside the window is in bounds and is that column's contribution to the point |
| Col2Im.Window | modules/dnn/src/layers/convolution_layer.cpp:1232-1237 | for each column row `hc`, the contributions of all its columns equal those inside the window when `hc` is in the window and are 0 otherwise, so the window misses no contribution |
| Col2Im.AddRow | modules/dnn/src/layers/convolution_layer.cpp:1234-1236 | `val` gains the contributions of one window row |
| Col2Im.ColumnSum | modules/dnn/src/layers/convolution_layer.cpp:1232-1237 | the value is the full col2im sum at the point |
| Col2Im.CursorStep | modules/dnn/src/layers/convolution_layer.cpp:1241-1250 | the incremental `offset`, `w`, `h`, `c` follow the next flat index |
| Col2Im.Advance | modules/dnn/src/layers/convolution_layer.cpp:1241-1250 | after the step, the cursor describes the next index, also across row and channel ends |
| Col2Im.Col2ImStripe | modules/dnn/src/layers/convolution_layer.cpp:1201-1252 | every image entry of the stripe becomes its bias plus its col2im sum (in the 1x1 case, bias plus the entry itself); nothing else changes |
| Col2Im.IndexOwner | modules/dnn/src/layers/convolution_layer.cpp:1203-1204 | index `j` belongs to stripe `k` exactly when `j / stripeSize == k`, so the stripes split `[0, total)` |
| Col2Im.ImJoin | modules/dnn/src/layers/convolution_layer.cpp:1198 | the finished ranges of stripes `[0, k)` and stripe `k` join |
| Col2Im.Col2ImRun | modules/dnn/src/layers/convolution_layer.cpp:1174-1199 | every image entry is its channel's bias plus its col2im sum |
| Col2Im.DirectCopy | modules/dnn/src/layers/convolution_layer.cpp:1228-1230 | with a 1x1 kernel, unit stride and no padding, the col2im sum at a point is the one column entry at that point, so the 1x1 branch agrees with the general one |
| Deconv.Transposed | modules/dnn/src/layers/convolution_layer.cpp:1265-1269 | `weightsMat` entry `(r, c)` is weight blob entry `(c, r)` |
| Deconv.GridIsInput | modules/dnn/src/layers/convolution_layer.cpp:1192-1193 | col2im's `height_col x width_col` grid is the input plane |
| Deconv.ColMatrixIsChannelSum | modules/dnn/src/layers/convolution_layer.cpp:1294-1297 | column-matrix entry `(r, q)` is the sum over the group's input channels of weight times input |
| Deconv.HoldsColMatrix | modules/dnn/src/layers/convolution_layer.cpp:1294-1297 | after `MatMul`, `colMat` holds the column matrix |
| Deconv.GroupsOfDims | modules/dnn/src/layers/convolution_layer.cpp:1012-1016 | `ngroups` groups of `igc` input and `ogc` output channels pass the deconvolution channel checks |
| Deconv.ColRowShapeIsColBuffer | modules/dnn/src/layers/convolution_layer.cpp:985-995 | `computeColRowShape` on the layer's blobs and input is `outGroupCn*kernel_h*kernel_w x inpH*inpW`, the extent of the column buffer the forward pass uses |
| Deconv.MemoryShapesOfDims | modules/dnn/src/layers/convolution_layer.cpp:997-1029 | on blobs and an input of these extents `getMemoryShapes` succeeds with the output `(numImg, outCn, outH, outW)` the forward pass fills; the column buffer is absent exactly when `is1x1()` holds as written, otherwise `ksize x inpH*inpW` |
| Deconv.AsWrittenAgrees | modules/dnn/src/layers/convolution_layer.cpp:1288-1289 | unless a 1x1 kernel is padded, the model's `colMat` is the one the source picks with `is1x1()` as written |
| Deconv.AsWrittenOverrun | modules/dnn/src/layers/convolution_layer.cpp:1288-1297 | with a padded 1x1 kernel the source's `colMat = dstMat` has rows of `inpH*inpW` entries only `outH*outW` apart, and the last row of the last block ends past the output |
| Deconv.DirectProduct | modules/dnn/src/layers/convolution_layer.cpp:1289-1297 | in the 1x1 case `MatMul` writes the column matrix straight into the group's block of `dstMat`, and nothing else |
| Deconv.BlockFromCol2Im | modules/dnn/src/layers/convolution_layer.cpp:1299-1302 | col2im of the column matrix gives the group's block its values and leaves the rest of the output unchanged |
| Deconv.CurBias | modules/dnn/src/layers/convolution_layer.cpp:1293 | `curBiasMat` is the biases of the group's output channels |
| Deconv.DeconvGroup | modules/dnn/src/layers/convolution_layer.cpp:1288-1303 | the block of image `n`, group `g` gets its deconvolution values; the output before and after it is unchanged |
| Deconv.DirectGroup | modules/dnn/src/layers/convolution_layer.cpp:1289-1303 | the same, for an unpadded 1x1 kernel, where `colMat` is `dstMat` |
| Deconv.ColumnGroup | modules/dnn/src/layers/convolution_layer.cpp:1289-1303 | the same, for the path through the internal buffer |
| Deconv.DeconvImage | modules/dnn/src/layers/convolution_layer.cpp:1286-1304 | after image `n`, the blocks of images `[0, n]` are done |
| Deconv.OutputAt | modules/dnn/src/layers/convolution_layer.cpp:1277-1289 | output entry `(n, oc, y, x)` lies in block `(n, oc / outGroupCn)` and holds its deconvolution value |
| Deconv.AllOutputs | modules/dnn/src/layers/convolution_layer.cpp:1277-1305 | once every block is done, every output entry holds its deconvolution value |
| Deconv.DeconvForward | modules/dnn/src/layers/convolution_layer.cpp:1255-1306 | every output entry `(n, oc, y, x)` is the channel's bias plus the col2im sum of its group's column matrix (a padded 1x1 kernel: see "Left out") |

## Left out

- SIMD paths (the AVX2 kernel and the vectorised loops) are not modelled. They compute the same values as the scalar code the model follows.
- The `memset` at line 388 zeroes a buffer that is overwritten before any read. It is not modelled.
- Concurrency is not modelled. `parallel_for_` becomes a loop over the stripes in order, and the proofs show the stripes write disjoint parts of the output. `getNumThreads()` becomes a parameter `nstripes >= 1`.
- The fused activation (lines 576-579) is not modelled. It is a call into another layer.
- The Halide backend and its scheduler are left out. They are a separate backend.
- The DFT convolution is left out. It is disabled in the source.
- Padding modes other than explicit padding (`getConvPoolOutParams`, `getConvPoolPaddings`) are left out. They live in another file.
- The deconvolution `getFLOPS` is left out, as is the parsing of layer parameters beyond the `adj < stride` requirement.
- Floating point is replaced by exact integers. So are the `CV_32F`/`CV_64F` type checks.
- Integer widths are not modelled: `int` and `size_t` overflow are ignored, and every index is an unbounded integer.
- The forward 1x1 gather (lines 415-430) is not modelled. It is unreachable (`ConvShapes.ForwardIs1x1Never`).
- `internals[1].setTo(1)` (line 1258) is not modelled. The buffer only serves the Halide and GEMM bias paths, which are not modelled.
- The caching of `weightsMat` and `biasesMat` across calls (`weightsMat.empty()`) is not modelled. Each call prepares them afresh, which gives the same values.
- Deconv.DeconvForward models one output of the loop over `ii`. Every output is computed the same way and independently.
- The internals of `Mat` (`reshape`, `rowRange`, `colRange`, `transpose`, `copyTo`) are not modelled. They become index arithmetic on flat sequences.
- The `CV_Assert` conditions of the forward paths become preconditions. The shape functions report their failures as `Failure`.
- Deconv.DeconvForward: takes the direct path on `ConvShapes.Is1x1` (1x1 kernel, unit stride and dilation, and no padding), not on the source's `is1x1()`. With a padded 1x1 kernel the source multiplies into `dstMat` with overlapping rows and past the end of the output (`Deconv.AsWrittenOverrun`), which defines no result. The model sends that case through the column buffer and col2im instead, and then needs a column buffer that `getMemoryShapes` does not allocate. In every other case the two choices agree (`Deconv.AsWrittenAgrees`).
- Deconv.DeconvImage: takes `Deconv.DeconvGroup`'s branch, so a padded 1x1 kernel goes through the column buffer, unlike the source.
- Deconv.DeconvGroup: branches on `ConvShapes.Is1x1`, not on `is1x1()` as written. A padded 1x1 kernel takes `Deconv.ColumnGroup`, where the source overruns `dstMat`.
- Deconv.DirectGroup: covers the unpadded 1x1 kernel only. The source also takes this path for a padded 1x1 kernel, which `Deconv.AsWrittenOverrun` describes and this member does not model.
- ConvShapes.ConvColRowShape: states the rank and the total number of elements of `shape(out.area(), ksize)` rather than its two entries.

## Findings

| source | as written | input that shows it | evidently intended | confidence | as-written member | corrected member |
|---|---|---|---|---|---|---|
| modules/dnn/src/layers/convolution_layer.cpp:92-97 | `is1x1()` checks kernel, stride and dilation but not padding, and the deconvolution uses it (lines 1022 and 1289) to write the matrix product straight into `dstMat` | kernel 1x1, stride 1, dilation 1, pad 1, input 3x3: the output plane is 1x1 (`1*(3-1) + 1 - 2 + 0`), yet `MatMulInvoker` writes rows of 9 columns into rows of 1 element | the 1x1 path only when the padding is also 0, so the column matrix and the output have the same extent | not executed | Deconv.AsWrittenOverrun | ConvShapes.Is1x1SameExtent |
