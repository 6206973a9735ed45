# QNNPACK weight pre-packing, modelled in Dafny

This project models the weight pre-packing layer of QNNPACK's C++ wrapper:

- **`conv_param_t` construction** (module `ConvUtils`, file `conv_utils.dfy`). This is a pure function. It validates a convolution's shape, derives the per-group channel counts and picks the micro-kernel type (`dwconv`, `xzp_gemm`, `gemm` or `conv`). It returns the parameter record plus the diagnostics the constructor logs.
  - Errors are logged for a zero kernel, subsampling or dilation dimension and for a scale that is not a positive normal float.
  - Advisories are logged for disproportionate subsampling or padding.
  - Every check only logs: the code asserts a string literal, which is never null. So construction always completes.
- **`PrePackConvWeights`** (module `ConvPrepack`, file `conv_prepack.dfy`). This is a class with a byte array.
  - Its constructor allocates a buffer whose size depends on the micro-kernel type.
  - It fills the buffer with 0 (`xzp_gemm`), with the kernel zero point (`gemm`, `conv`), or not at all (depthwise).
  - It then makes the packing calls: one per group at `g * packed_group_weights_size`, or one or three depthwise calls.
  - The per-group loop carries the invariant that the buffer equals the pre-fill after the calls for groups `0 .. g-1`.
- **`PackBMatrix`** (module `FcPrepack`, file `fc_prepack.dfy`). This is the fully-connected packer. It checks the scale, sizes one 1x1 group with the `q8conv` tiles, fills the buffer with the kernel zero point and makes one packing call.

Shared definitions:

- **Module `Bits`** (file `bits.dfy`) holds the fixed-width integers and the tile round-up idiom `(x + (t - 1)) & -t`.
  - The idiom is computed on integers with an explicit bitwise AND, with every `uint32_t` wrap-around written out. Only the low 32 bits of a `size_t` operand reach the result.
  - It is the least multiple of `t` that is at least `x` when `t` is a power of two and `x + t - 1 < 2^32`. The same statement on `bv32` words is `Bits.RoundUpMaskBv`.
- **Module `Packing`** (file `packing.dfy`) holds the buffer and the packing routines of `qnnpack/pack.h`.
  - `qnnpack/pack.h` is not part of this model. Each routine is a parameter `prim`, a function that gives the byte the routine stores at each offset of the region it is handed, or nothing.
  - A routine writes nothing outside its region.
  - The per-call region is assigned by the model. A group call gets its group's slice. Each depthwise call gets the span up to the next call's destination, or to the end of the buffer.

The tile widths `cr`, `nr`, `kr` and `kc` of the global `qnnp_params` table are parameters (`ConvPrepack.Tiles`; two arguments for `PackBMatrix`).

The kernel scale is represented by its IEEE-754 binary32 bit pattern. `kernel_scale <= 0.0f || !isnormal(kernel_scale)` is false exactly when the pattern lies in `[0x00800000, 0x7F800000)`.

Two details of the code are easy to misread:

- **Second and third 5x5 depthwise calls.** The code passes destinations `(10 + 4) * c_stride` and `(20 + 4) * c_stride` bytes past the buffer start. The model's regions are therefore `[0, 14c)`, `[14c, 24c)` and `[24c, 29c)`, and the last one ends exactly at the buffer size `(25 + 4) * c`. These spans are sized for a kernel of five rows (two, two and one columns of five rows each, plus the bias in the first).
- **Argument roles of the three calls.** All three pass the range `[0, kernel_height)` followed by the ranges `[0, 2)`, `[2, 4)` and `[4, 5)`. The model reads the first range as rows and the second as column slices, and proves that the slices tile `[0, 5)`.

Facts the model makes visible:

- The kernel area is a `uint32_t` product, so a 5 x 858993461 kernel has area 9 and is classified as depthwise (`ConvUtils.KernelAreaWrapsExample`). Its buffer is then sized for 9 taps per channel, while the packing call is passed the real 858993461 x 5 shape.
- Any kernel of area 25, including 1x25 and 25x1, takes the three-call 5x5 path, although the destinations suit only a kernel of five rows.
- `xzp_gemm` is chosen only for `input_channels == SIZE_MAX` with one group. There the rounded `k_stride` wraps to 0 for every `kr >= 2` (`ConvPrepack.XzpKStrideWraps`).

## Model

| member | source | states |
|---|---|---|
| `Bits.BitOr` | include/conv_utils.h:181-182 | The bitwise OR of two unsigned values is 0 exactly when both are 0, and is at least each of them. |
| `Bits.RoundUpTile` | src/conv-prepack.cc:23 | The rounded `uint32_t` value never exceeds the 32-bit mask `-t`, so a zero tile yields 0. Lines 102-103 and 141-142 and src/fc-prepack.cc:25-26 use the same idiom. |
| `Bits.RoundUpTileIsLeastMultiple` | src/conv-prepack.cc:141-142 | For a power-of-two tile `t` and `x + t - 1 < 2^32`, the `uint32_t` value of `(x + (t-1)) & -t` is a multiple of `t`, lies in `[x, x + t)`, and is at most every multiple of `t` that reaches `x`. The same idiom is used at lines 23 and 102-103 and in src/fc-prepack.cc:25-26. |
| `Bits.RoundUpMaskBv` | src/conv-prepack.cc:23 | The same idiom on 32-bit words: with `t` a power of two and no carry out of `x + (t-1)`, the result has no bits below `t`, is at least `x` and exceeds `x` by less than `t`. |
| `Bits.ToInt64` | src/conv-prepack.cc:13 | Storing a `size_t` into the `int64_t` field keeps channel counts below 2^63 and maps larger ones to the negative value congruent modulo 2^64. |
| `ConvUtils.IsPositiveNormal` | include/conv_utils.h:96 | A scale passes the check iff its sign bit is 0 and its 8-bit exponent field is neither all zeros (zero, subnormal) nor all ones (infinity, NaN). |
| `ConvUtils.KernelSizeIsArea` | include/conv_utils.h:178 | `KernelSize` is the plain product `kernel_height * kernel_width` whenever that fits in 32 bits, and 0 when either dimension is 0. |
| `ConvUtils.AnyPadding` | include/conv_utils.h:181-182 | `any_padding`, computed as the bitwise OR of the four padding sides compared with 0, is false exactly when all four padding sides are 0. |
| `ConvUtils.Classify` | include/conv_utils.h:180-191 | The chain never yields `none`. `dwconv` needs area 9 or 25 and more than one group. `xzp_gemm` and `gemm` need area 1, unit subsampling and no padding, and `xzp_gemm` also needs `SIZE_MAX` per-group input channels. `conv` is chosen only when that pointwise condition fails. |
| `ConvUtils.ErrorDiagnostics` | include/conv_utils.h:67-102 | At most four diagnostics, all of them errors. |
| `ConvUtils.SubsamplingInfos` | include/conv_utils.h:104-128 | At most two diagnostics, none of them an error. |
| `ConvUtils.PaddingInfos` | include/conv_utils.h:130-176 | At most four diagnostics, none of them an error. |
| `ConvUtils.InfoDiagnostics` | include/conv_utils.h:104-176 | At most six advisories, none an error. There are none iff subsampling is within the kernel and every padding side is below the matching kernel extent. |
| `ConvUtils.NewConvParam` | include/conv_utils.h:32-192 | Always completes for a non-zero group count. It copies every argument into its field. The per-group channels are the truncating quotients. The type is the first match of the classification chain and never `none`. The log is the error diagnostics followed by the advisories. |
| `ConvUtils.ErrorDiagnosticsReport` | include/conv_utils.h:67-102 | A zero-kernel, zero-subsampling, zero-dilation or invalid-scale error is logged iff its condition holds. All of them are errors. There are none iff every dimension is non-zero and the scale is a positive normal. |
| `ConvUtils.SubsamplingInfosReport` | include/conv_utils.h:104-128 | The height (width) subsampling advisory is logged iff subsampling exceeds the kernel height (width). Neither is an error. |
| `ConvUtils.PaddingInfosReport` | include/conv_utils.h:130-176 | Each of the top, bottom, right and left advisories is logged iff that padding is at least the matching kernel extent. None is an error. |
| `ConvUtils.InfoDiagnosticsReport` | include/conv_utils.h:104-176 | All six advisory iffs together for the whole advisory log. No advisory is an error. |
| `ConvUtils.ConstructionCompletesWithErrors` | include/conv_utils.h:67-102 | The constructed log holds an error iff some kernel, subsampling or dilation dimension is zero or the scale is invalid. Every error precedes every advisory. |
| `ConvUtils.QuotientIsOne` | include/conv_utils.h:64-65 | A truncating per-group quotient is 1 exactly when `groups <= channels < 2 * groups`. |
| `ConvUtils.DwConvIff` | include/conv_utils.h:184-186 | `dwconv` iff the kernel area is 9 or 25, `groups > 1`, and both channel counts lie in `[groups, 2 * groups)`. So any other area, group count or channel count with area 9 or 25 is not `dwconv`. |
| `ConvUtils.DwConvExactGroups` | include/conv_utils.h:184-186 | With channel counts divisible by `groups`: `dwconv` iff area 9 or 25, `groups > 1`, and both channel counts equal `groups`. |
| `ConvUtils.XzpGemmIff` | include/conv_utils.h:187-188 | `xzp_gemm` iff area 1, unit subsampling, no padding, `input_channels == SIZE_MAX` and one group. |
| `ConvUtils.QuotientBelow` | include/conv_utils.h:188 | A quotient `x / g` stays below `b` when `x < g * b`. This is why `group_input_channels >= SIZE_MAX` needs a single group. |
| `ConvUtils.GemmIff` | include/conv_utils.h:187-188 | `gemm` iff area 1, unit subsampling and no padding, except the `SIZE_MAX`-channel single-group corner. |
| `ConvUtils.ConvOtherwise` | include/conv_utils.h:180-191 | The type is never `none`. `dwconv` implies area 9 or 25. `conv` iff neither the depthwise nor the pointwise condition holds. |
| `ConvUtils.ClassificationDependsOnShapeOnly` | include/conv_utils.h:178-191 | Two constructed parameter sets that agree on kernel area, subsampling, padding, groups and per-group channel counts get the same type, whatever their total channel counts, dilation, zero point, scale and clamp bounds. |
| `ConvUtils.GroupChannelsMultiplyBack` | include/conv_utils.h:64-65 | When the channel counts are multiples of `groups`, multiplying the per-group counts back by `groups` recovers them. |
| `ConvUtils.ErrorsFirst` | include/conv_utils.h:67-176 | In an error log followed by an advisory log, an error occurs iff the error part is non-empty, and no advisory precedes an error. |
| `ConvUtils.ZeroKernelExample` | include/conv_utils.h:67-74 | A 0x3 kernel logs the zero-kernel error and is still classified `conv`. |
| `ConvUtils.StridedPointwiseExample` | include/conv_utils.h:187-191 | A 1x1 kernel with subsampling (2, 2) is `conv`. |
| `ConvUtils.DepthwiseExample` | include/conv_utils.h:184-186 | A 3x3 kernel with 4 groups, with 4 input and 4 output channels in all (one per group), is `dwconv`. |
| `ConvUtils.KernelAreaWrapsExample` | include/conv_utils.h:178 | The area is computed modulo 2^32: a 5 x 858993461 kernel has area 9 and, with two one-channel groups, is `dwconv`. |
| `Packing.Filled` | src/conv-prepack.cc:154-157 | A buffer of `n` bytes, each equal to the fill value. |
| `Packing.Overlay` | src/conv-prepack.cc:119-133 | One packing call leaves a buffer of the same length, with every byte outside the call's region unchanged. |
| `Packing.ApplyWrites` | src/conv-prepack.cc:118-134 | The calls, made in order, leave a buffer of the same length. What each byte then holds is stated by `ApplyWritesOutside` and `ApplyWritesInside`. |
| `Packing.Memset` | src/conv-prepack.cc:116 | After the loop, every byte of the array equals the fill value. |
| `Packing.Pack` | src/conv-prepack.cc:119-133 | One packing call changes the array exactly as `Overlay` says: inside its region, each byte the routine stores; everywhere else, the old byte. |
| `Packing.ApplyWritesSnoc` | src/conv-prepack.cc:118 | The buffer after calls `0..g` is the buffer after calls `0..g-1` with call `g` applied. |
| `Packing.ApplyWritesOutside` | src/conv-prepack.cc:118-134 | A byte that no call's region contains keeps its value from before packing. |
| `Packing.ApplyWritesInside` | src/conv-prepack.cc:161-177 | With pairwise disjoint regions, a byte in call `j`'s region holds what call `j` stores there, or its pre-packing value where the call stores nothing, whatever the other calls do. |
| `ConvPrepack.ChannelStride` | src/conv-prepack.cc:22-23 | With a power-of-two `cr` and `groups + cr - 1 < 2^32`, `c_stride` is a multiple of `cr` in `[groups, groups + cr)`. |
| `ConvPrepack.Nr` | src/conv-prepack.cc:99 | `xzp_gemm` reads `nr` from the `q8conv_xzp` entry; `gemm` and `conv` read it from `q8conv` (line 139). |
| `ConvPrepack.Kr` | src/conv-prepack.cc:100 | `xzp_gemm` reads `kr` from the `q8conv_xzp` entry; `gemm` and `conv` read it from `q8conv` (line 140). |
| `ConvPrepack.NStride` | src/conv-prepack.cc:102 | With a power-of-two `nr` and no 32-bit overflow, `n_stride` is a multiple of `nr` in `[group_output_channels, group_output_channels + nr)`. Line 141 computes it the same way. |
| `ConvPrepack.KStride` | src/conv-prepack.cc:103 | With a power-of-two `kr` and no 32-bit overflow, `k_stride` is a multiple of `kr` in `[group_input_channels, group_input_channels + kr)`. Line 142 computes it the same way. |
| `ConvPrepack.GroupWeightsSize` | src/conv-prepack.cc:105-107 | A group's packed size leaves at least the 4 bytes of an `int32_t` bias for each of its `n_stride` output rows. Lines 144-146 compute it the same way. |
| `ConvPrepack.BufferSize` | src/conv-prepack.cc:24-25 | Every packing call of `Writes` is given a region that ends inside the allocated buffer, for every type. Lines 108 and 147 give the per-group size. |
| `ConvPrepack.FillValue` | src/conv-prepack.cc:116 | No fill iff the type is `dwconv`. The fill is 0 for `xzp_gemm` and the kernel zero point for `gemm` and `conv` (lines 154-157). |
| `ConvPrepack.Prefilled` | src/conv-prepack.cc:154-157 | The pre-packing buffer has `malloc`'s length. It is `malloc`'s bytes unchanged when there is no fill, and every byte is the fill value otherwise. |
| `ConvPrepack.DepthwiseWrites` | src/conv-prepack.cc:34-95 | Area 9 makes one call and area 25 three. The regions start at 0, are consecutive, and end at `(kernel_size + 4) * c_stride`. Every call is a depthwise packing routine. |
| `ConvPrepack.GroupWrite` | src/conv-prepack.cc:119-133 | Group `g` is given `packed_group_weights_size` bytes at `g * packed_group_weights_size`. Its routine is the one the type selects: `pack_swizzle_q8gemm_b`, or `pack_q8gemm_w` and `pack_q8conv_w` at lines 162-176 and 181-195. |
| `ConvPrepack.Writes` | src/conv-prepack.cc:20-205 | A per-group type makes one call per group. Every call uses the packing routine the `switch` selects for the type. |
| `ConvPrepack.PrePackConvWeights.constructor` | src/conv-prepack.cc:9-206 | `output_channels_` is the `int64_t` conversion of the output channels. The buffer has `BufferSize` bytes. Every call's region lies inside it. The contents are the pre-fill (`malloc`'s bytes, 0, or the kernel zero point, by type) after every packing call of `Writes`, in order. |
| `ConvPrepack.PackNext` | src/conv-prepack.cc:49-91 | Making call `g` after calls `0..g-1` leaves the buffer after calls `0..g`. |
| `ConvPrepack.PackGroups` | src/conv-prepack.cc:161-177 | The group loop leaves the buffer after every call in `ws`, applied in order to the buffer it started from. |
| `ConvPrepack.DepthwiseSizing` | src/conv-prepack.cc:22-25 | With a power-of-two `cr` and no 32-bit overflow, `c_stride` is a multiple of `cr` in `[groups, groups + cr)`. The buffer is `(kernel_size + 4) * c_stride` bytes. |
| `ConvPrepack.Depthwise3x3Layout` | src/conv-prepack.cc:35-48 | Area 9 makes exactly one call. It starts at 0, ends at the buffer end, and passes `(kernel_height, kernel_width, groups, cr, 0, kernel_zero_point)`. |
| `ConvPrepack.Depthwise5x5Layout` | src/conv-prepack.cc:49-91 | Area 25 makes three calls with consecutive regions at 0, `14*c_stride` and `24*c_stride`. The last ends at `29*c_stride`, the buffer size. All pass rows `[0, kernel_height)`. Their column slices are non-empty and tile `[0, 5)` as `[0,2)`, `[2,4)`, `[4,5)`. Only the first packs the bias. |
| `ConvPrepack.TiledLayout` | src/conv-prepack.cc:118-133 | `n` regions of `s` bytes at `g * s` lie inside `n * s` bytes, are pairwise disjoint, and together contain exactly the bytes `[0, n * s)`. |
| `ConvPrepack.GroupRegions` | src/conv-prepack.cc:133 | Call `g` of a per-group type is given `packed_group_weights_size` bytes at `g * packed_group_weights_size`, one call per group. |
| `ConvPrepack.GroupLayout` | src/conv-prepack.cc:105-195 | For `xzp_gemm`, `gemm` and `conv`, the buffer is `groups * packed_group_weights_size` bytes. There is one call per group at `g * packed_group_weights_size`. The regions are disjoint, in bounds, and cover the whole buffer. |
| `ConvPrepack.WritesInBounds` | src/conv-prepack.cc:20-205 | For every type a constructed `conv_param_t` can have, every call's assigned region lies inside the buffer and the regions are pairwise disjoint, so no `default:` branch is needed. |
| `ConvPrepack.OwnerHolds` | src/conv-prepack.cc:118-195 | Every byte of the buffer lies in the region of the call `Owner` names. |
| `ConvPrepack.PackedBytes` | src/conv-prepack.cc:98-201 | Every byte of the packed buffer belongs to exactly one call's region. It holds that call's byte, or the pre-fill where the call stores none: 0 for `xzp_gemm`, the kernel zero point for `gemm`/`conv`, and what `malloc` returned for depthwise. |
| `ConvPrepack.GroupCallArguments` | src/conv-prepack.cc:98-196 | Group `g`'s call, with every scalar argument. `xzp_gemm`: `pack_swizzle_q8gemm_b(goc, gic, nr, kr, kc)` with the `q8conv_xzp` tiles. `gemm`: `pack_q8gemm_w(goc, gic, nr, nr, kr)` with the `q8conv` tiles. `conv`: `pack_q8conv_w(goc, kernel_size, gic, nr, kr)` with the `q8conv` tiles. Each passes input zero point 0 and the kernel zero point, reads the kernel from `g*goc*gic` (`g*goc*kernel_size*gic` for `conv`), and reads the bias from `g*goc`. |
| `ConvPrepack.SourceSlices` | src/conv-prepack.cc:172-194 | Group `g` reads the kernel from `g*goc*gic` (`gemm`, `xzp_gemm`) or `g*goc*kernel_size*gic` (`conv`), and the bias from `g*goc`. Its kernel and bias slices stay within `output_channels * kernel_size * gic` and `output_channels` elements. |
| `ConvPrepack.XzpKStrideWraps` | src/conv-prepack.cc:98-107 | `xzp_gemm` implies `SIZE_MAX` input channels in one group. For any power-of-two `kr >= 2` the `uint32_t` `k_stride` is then 0 and the group size is `4 * n_stride`. |
| `ConvPrepack.DepthwiseBufferExample` | src/conv-prepack.cc:21-25 | A 3x3 kernel with four one-channel groups and `cr = 8` is depthwise, with `c_stride = 8`, a 104-byte buffer and one packing call. |
| `FcPrepack.FcSize` | src/fc-prepack.cc:25-31 | The allocated size leaves at least 4 bytes of bias for each of the `n_stride` output rows. |
| `FcPrepack.FcWrite` | src/fc-prepack.cc:44-52 | The single `pack_q8gemm_wrq` call gets the whole buffer from offset 0. It passes the output and input channels unchanged, `nr` twice, and `kr`. |
| `FcPrepack.ScaleDiagnostics` | src/fc-prepack.cc:14-20 | The logged list is empty iff the scale is a positive normal float. Otherwise it is the single invalid-scale error. |
| `FcPrepack.PackBMatrix.constructor` | src/fc-prepack.cc:7-53 | The constructor stores the channel counts unchanged and records the scale diagnostics without stopping. It allocates `n_stride * (k_stride + 4)` bytes and fills them with the kernel zero point. It makes one `pack_q8gemm_wrq(output_channels, input_channels, nr, nr, kr)` call given the whole buffer from offset 0. |
| `FcPrepack.FcStrides` | src/fc-prepack.cc:22-26 | With power-of-two tiles and no 32-bit overflow, `n_stride` (`k_stride`) is a multiple of `nr` (`kr`) in `[channels, channels + tile)`. The buffer is `n_stride * (k_stride + 4)` bytes. |
| `FcPrepack.FcSizeExample` | src/fc-prepack.cc:30-31 | K = N = 8 with `kr = nr = 8` gives a 96-byte buffer. |
| `FcPrepack.FcMatchesConvGemm` | src/fc-prepack.cc:25-41 | For a one-group `gemm` convolution with the same channels and `q8conv` tiles, the fully-connected buffer has the convolution packer's size and fill value, and its single call gets the same region as the convolution packer's single call. |

## Left out

- The packing routines of `qnnpack/pack.h` are not part of this model. Their byte layouts are the parameter `prim`. Each call's region is assigned by the model, as described above. A routine that wrote beyond that region is not modelled.
- `qnnp_params` is a global table; its tiles are parameters. The constructors accept any tile values, as the code does. Only the least-multiple lemmas require powers of two.
- `malloc` failure and its `qnnp_log_error`, the null checks, `free`, the destructors and the getters of include/qnnpack_func.h are not modelled. The model's allocation always succeeds. After a failed `malloc` the code would `memset` through `NULL`.
- `qnnpackLinear` and `qnnpackConv` are inference entry points whose bodies are not part of this model.
- Only the build without `QNNPACK_RUNTIME_QUANTIZATION` is modelled: the zero-point arguments are passed. Log message text is replaced by diagnostic records.
- The float comparison `kernel_scale <= 0.0f || !isnormal(kernel_scale)` is modelled on the scale's bit pattern, not on floating-point values.
- `size_t` arithmetic for buffer sizes and source offsets is unbounded: 64-bit wrap-around is not modelled. `uint32_t` arithmetic (kernel area, strides) does wrap in the model.
- `ConvPrepack.PrePackConvWeights.constructor`: requires a `conv_param_t` whose derived fields are the ones its constructor computes (`ConvUtils.Classified`). A hand-edited struct with a `none` type or another depthwise area would reach `QNNP_UNREACHABLE` in the code.
- `Bits.RoundUpTileIsLeastMultiple`: stated only when `x + t - 1 < 2^32`. Past that, the stored `uint32_t` wraps and is not a multiple reaching `x`; `ConvPrepack.XzpKStrideWraps` shows one such case.
- `ConvPrepack.DepthwiseSizing`: stated only when `groups + cr - 1 < 2^32`, for the same reason.
- `FcPrepack.FcStrides`: stated only when `channels + tile - 1 < 2^32`, for the same reason.
- `ConvPrepack.DepthwiseWrites`: the three area-25 region lengths `14c`, `10c` and `5c` are what a kernel of five rows needs. For a 1x25 or 25x1 kernel the calls still pass rows `[0, kernel_height)`, and the bytes the routine would then touch (up to 25 rows per column instead of 5) are not modelled: the model gives each call only its assigned region. The single area-9 call is given the whole buffer, which holds any kernel whose true area is 9. A kernel whose `uint32_t` area wraps to 9 or 25 (such as 5 x 858993461) passes its real height and width to the routine, into a buffer sized by the wrapped area; what the routine writes there is not modelled either.
