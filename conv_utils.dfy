/**
 * The `conv_param_t` constructor: per-group channel counts, validation and
 * advisory diagnostics, and the choice of micro-kernel type.
 */
module ConvUtils {
  import opened Bits

  /** A (width, height) pair, as `std::array<uint32_t, 2>`. */
  datatype Dims = Dims(width: u32, height: u32)

  /** Input padding in the source's order: top, left, bottom, right. */
  datatype Padding = Padding(top: u32, left: u32, bottom: u32, right: u32)

  datatype UKernelType = KernelNone | DwConv | XzpGemm | Gemm | Conv

  /**
   * What the constructor logs. The first four are `qnnp_log_error` (the
   * following `assert` is on a string literal, so construction goes on); the
   * others are `qnnp_log_info`.
   */
  datatype Diagnostic =
    | KernelDimsZero(kernel: Dims)
    | SubsamplingZero(subsampling: Dims)
    | DilationZero(dilation: Dims)
    | InvalidKernelScale(scaleBits: u32)
    | HeightSubsamplingExceedsKernel(kernel: Dims, subsampling: Dims)
    | WidthSubsamplingExceedsKernel(kernel: Dims, subsampling: Dims)
    | TopPaddingNotBelowKernel(kernel: Dims, first: u32, second: u32)
    | BottomPaddingNotBelowKernel(kernel: Dims, first: u32, second: u32)
    | RightPaddingNotBelowKernel(kernel: Dims, first: u32, second: u32)
    | LeftPaddingNotBelowKernel(kernel: Dims, first: u32, second: u32)
  {
    predicate IsError()
    {
      KernelDimsZero? || SubsamplingZero? || DilationZero? || InvalidKernelScale?
    }
  }

  /**
   * `conv_param_t`: the stored arguments and the three derived fields. The
   * kernel scale is the bit pattern of the IEEE-754 `float`.
   */
  datatype ConvParam = ConvParam(
    kernelDims: Dims,
    subsamplingDims: Dims,
    dilation: Dims,
    pad: Padding,
    groups: u32,
    inputChannels: usize,
    outputChannels: usize,
    kernelZeroPoint: u8,
    kernelScale: u32,
    outputMin: u8,
    outputMax: u8,
    ukernelType: UKernelType,
    groupInputChannels: usize,
    groupOutputChannels: usize)

  /** A constructed `conv_param_t` together with what its constructor logged. */
  datatype Constructed = Constructed(param: ConvParam, log: seq<Diagnostic>)

  /**
   * `kernel_scale <= 0.0f || !isnormal(kernel_scale)` is false exactly when
   * the sign bit is clear and the exponent field is neither 0 (zero or
   * subnormal) nor 255 (infinity or NaN).
   */
  predicate IsPositiveNormal(scaleBits: u32): (r: bool)
    ensures r <==> scaleBits / 0x8000_0000 == 0 && 0 < (scaleBits / 0x80_0000) % 0x100 < 0xFF
  {
    0x0080_0000 <= scaleBits < 0x7F80_0000
  }

  /** `kernel_height * kernel_width`, a product of two `uint32_t` (it wraps). */
  function KernelSize(kernel: Dims): u32
  {
    (kernel.height * kernel.width) % TWO32
  }

  /** The area is the plain product when it fits in 32 bits, and 0 for an empty kernel. */
  lemma KernelSizeIsArea(kernel: Dims)
    ensures kernel.height * kernel.width < TWO32 ==> KernelSize(kernel) == kernel.height * kernel.width
    ensures kernel.height == 0 || kernel.width == 0 ==> KernelSize(kernel) == 0
  {
    MulZero(kernel.height, kernel.width);
    MulZero(kernel.width, kernel.height);
  }

  /** `(left | top | right | bottom) != 0`: some side is padded. */
  predicate AnyPadding(pad: Padding): (r: bool)
    ensures !r <==> pad.left == pad.top == pad.right == pad.bottom == 0
  {
    BitOr(BitOr(BitOr(pad.left, pad.top), pad.right), pad.bottom) != 0
  }

  /** The first-match chain that picks the micro-kernel type. */
  function Classify(kernelSize: u32, subsampling: Dims, pad: Padding, groups: u32,
                    groupInputChannels: usize, groupOutputChannels: usize): (r: UKernelType)
    ensures r != KernelNone
    ensures r == DwConv ==> (kernelSize == 9 || kernelSize == 25) && groups > 1
    ensures r == XzpGemm || r == Gemm ==>
              kernelSize == 1 && subsampling == Dims(1, 1) && !AnyPadding(pad)
    ensures r == XzpGemm ==> groupInputChannels == SIZE_MAX
    ensures r == Conv ==> !(kernelSize == 1 && subsampling == Dims(1, 1) && !AnyPadding(pad))
  {
    if (kernelSize == 9 || kernelSize == 25)
       && groupInputChannels == 1 && groupOutputChannels == 1 && groups > 1 then
      DwConv
    else if kernelSize == 1 && subsampling.height == 1 && subsampling.width == 1
            && !AnyPadding(pad) then
      if groupInputChannels >= SIZE_MAX then XzpGemm else Gemm
    else
      Conv
  }

  /** The error diagnostics, in the order the constructor emits them. */
  function ErrorDiagnostics(kernel: Dims, subsampling: Dims, dil: Dims, kernelScale: u32)
    : (r: seq<Diagnostic>)
    ensures |r| <= 4 && forall d :: d in r ==> d.IsError()
  {
    (if kernel.width == 0 || kernel.height == 0 then [KernelDimsZero(kernel)] else [])
    + (if subsampling.width == 0 || subsampling.height == 0 then [SubsamplingZero(subsampling)] else [])
    + (if dil.width == 0 || dil.height == 0 then [DilationZero(dil)] else [])
    + (if !IsPositiveNormal(kernelScale) then [InvalidKernelScale(kernelScale)] else [])
  }

  /** The advisory diagnostics, in the order the constructor emits them. */
  function InfoDiagnostics(kernel: Dims, subsampling: Dims, pd: Padding): (r: seq<Diagnostic>)
    ensures |r| <= 6 && forall d :: d in r ==> !d.IsError()
    ensures r == [] <==> subsampling.height <= kernel.height && subsampling.width <= kernel.width
                         && pd.top < kernel.height && pd.bottom < kernel.height
                         && pd.right < kernel.width && pd.left < kernel.width
  {
    SubsamplingInfos(kernel, subsampling) + PaddingInfos(kernel, pd)
  }

  function SubsamplingInfos(kernel: Dims, subsampling: Dims): (r: seq<Diagnostic>)
    ensures |r| <= 2 && forall d :: d in r ==> !d.IsError()
  {
    (if subsampling.height > kernel.height
     then [HeightSubsamplingExceedsKernel(kernel, subsampling)] else [])
    + (if subsampling.width > kernel.width
       then [WidthSubsamplingExceedsKernel(kernel, subsampling)] else [])
  }

  function PaddingInfos(kernel: Dims, pd: Padding): (r: seq<Diagnostic>)
    ensures |r| <= 4 && forall d :: d in r ==> !d.IsError()
  {
    (if pd.top >= kernel.height then [TopPaddingNotBelowKernel(kernel, pd.top, pd.bottom)] else [])
    + (if pd.bottom >= kernel.height
       then [BottomPaddingNotBelowKernel(kernel, pd.top, pd.bottom)] else [])
    + (if pd.right >= kernel.width then [RightPaddingNotBelowKernel(kernel, pd.left, pd.right)] else [])
    + (if pd.left >= kernel.width then [LeftPaddingNotBelowKernel(kernel, pd.left, pd.right)] else [])
  }

  /**
   * A `conv_param_t` as its constructor leaves it: the derived fields agree
   * with the stored ones. (Division by `groups == 0` is undefined in C.)
   */
  predicate Classified(p: ConvParam)
  {
    && p.groups > 0
    && p.groupInputChannels == p.inputChannels / p.groups
    && p.groupOutputChannels == p.outputChannels / p.groups
    && p.ukernelType == Classify(KernelSize(p.kernelDims), p.subsamplingDims, p.pad, p.groups,
                                 p.groupInputChannels, p.groupOutputChannels)
  }

  /** The `conv_param_t` constructor. */
  function NewConvParam(kernel: Dims, subsampling: Dims, dil: Dims, pd: Padding, grp: u32,
                        inCh: usize, outCh: usize, kernelZp: u8, kernelScale: u32,
                        outMin: u8, outMax: u8): (r: Constructed)
    requires grp > 0
    ensures Classified(r.param)
    ensures r.param.kernelDims == kernel && r.param.subsamplingDims == subsampling
    ensures r.param.dilation == dil && r.param.pad == pd && r.param.groups == grp
    ensures r.param.inputChannels == inCh && r.param.outputChannels == outCh
    ensures r.param.kernelZeroPoint == kernelZp && r.param.kernelScale == kernelScale
    ensures r.param.outputMin == outMin && r.param.outputMax == outMax
    ensures r.param.ukernelType != KernelNone
    ensures r.log == ErrorDiagnostics(kernel, subsampling, dil, kernelScale)
                     + InfoDiagnostics(kernel, subsampling, pd)
  {
    var gic := inCh / grp;
    var goc := outCh / grp;
    var param := ConvParam(kernel, subsampling, dil, pd, grp, inCh, outCh, kernelZp, kernelScale,
                           outMin, outMax,
                           Classify(KernelSize(kernel), subsampling, pd, grp, gic, goc), gic, goc);
    Constructed(param, ErrorDiagnostics(kernel, subsampling, dil, kernelScale)
                       + InfoDiagnostics(kernel, subsampling, pd))
  }

  lemma ErrorDiagnosticsReport(kernel: Dims, subsampling: Dims, dil: Dims, kernelScale: u32)
    ensures var e := ErrorDiagnostics(kernel, subsampling, dil, kernelScale);
      && (KernelDimsZero(kernel) in e <==> kernel.width == 0 || kernel.height == 0)
      && (SubsamplingZero(subsampling) in e <==> subsampling.width == 0 || subsampling.height == 0)
      && (DilationZero(dil) in e <==> dil.width == 0 || dil.height == 0)
      && (InvalidKernelScale(kernelScale) in e <==> !IsPositiveNormal(kernelScale))
      && (forall d :: d in e ==> d.IsError())
      && (e == [] <==> kernel.width != 0 && kernel.height != 0 && subsampling.width != 0
                       && subsampling.height != 0 && dil.width != 0 && dil.height != 0
                       && IsPositiveNormal(kernelScale))
  {
  }

  lemma SubsamplingInfosReport(kernel: Dims, subsampling: Dims)
    ensures var n := SubsamplingInfos(kernel, subsampling);
      && (HeightSubsamplingExceedsKernel(kernel, subsampling) in n
          <==> subsampling.height > kernel.height)
      && (WidthSubsamplingExceedsKernel(kernel, subsampling) in n
          <==> subsampling.width > kernel.width)
      && (forall d :: d in n ==> !d.IsError())
  {
  }

  lemma PaddingInfosReport(kernel: Dims, pd: Padding)
    ensures var n := PaddingInfos(kernel, pd);
      && (TopPaddingNotBelowKernel(kernel, pd.top, pd.bottom) in n <==> pd.top >= kernel.height)
      && (BottomPaddingNotBelowKernel(kernel, pd.top, pd.bottom) in n
          <==> pd.bottom >= kernel.height)
      && (RightPaddingNotBelowKernel(kernel, pd.left, pd.right) in n <==> pd.right >= kernel.width)
      && (LeftPaddingNotBelowKernel(kernel, pd.left, pd.right) in n <==> pd.left >= kernel.width)
      && (forall d :: d in n ==> !d.IsError())
  {
  }

  /** An advisory is logged exactly when subsampling or a padding side is out of proportion. */
  lemma InfoDiagnosticsReport(kernel: Dims, subsampling: Dims, pd: Padding)
    ensures var n := InfoDiagnostics(kernel, subsampling, pd);
      && (HeightSubsamplingExceedsKernel(kernel, subsampling) in n
          <==> subsampling.height > kernel.height)
      && (WidthSubsamplingExceedsKernel(kernel, subsampling) in n
          <==> subsampling.width > kernel.width)
      && (TopPaddingNotBelowKernel(kernel, pd.top, pd.bottom) in n <==> pd.top >= kernel.height)
      && (BottomPaddingNotBelowKernel(kernel, pd.top, pd.bottom) in n
          <==> pd.bottom >= kernel.height)
      && (RightPaddingNotBelowKernel(kernel, pd.left, pd.right) in n <==> pd.right >= kernel.width)
      && (LeftPaddingNotBelowKernel(kernel, pd.left, pd.right) in n <==> pd.left >= kernel.width)
      && (forall d :: d in n ==> !d.IsError())
  {
    SubsamplingInfosReport(kernel, subsampling);
    PaddingInfosReport(kernel, pd);
    var a, b := SubsamplingInfos(kernel, subsampling), PaddingInfos(kernel, pd);
    assert forall d :: d in a + b <==> d in a || d in b;
  }

  /**
   * The constructor always completes: it logs an error exactly when a kernel,
   * subsampling or dilation dimension is zero or the scale is not a positive
   * normal number, errors come before advisories, and the derived fields do
   * not depend on what was logged.
   */
  lemma ConstructionCompletesWithErrors(kernel: Dims, subsampling: Dims, dil: Dims, pd: Padding,
                                        grp: u32, inCh: usize, outCh: usize, kernelZp: u8,
                                        kernelScale: u32, outMin: u8, outMax: u8)
    requires grp > 0
    ensures var r := NewConvParam(kernel, subsampling, dil, pd, grp, inCh, outCh, kernelZp,
                                  kernelScale, outMin, outMax);
      && ((exists d :: d in r.log && d.IsError()) <==>
            kernel.width == 0 || kernel.height == 0 || subsampling.width == 0
            || subsampling.height == 0 || dil.width == 0 || dil.height == 0
            || !IsPositiveNormal(kernelScale))
      && (forall i, j :: 0 <= i < j < |r.log| && r.log[j].IsError() ==> r.log[i].IsError())
  {
    ErrorDiagnosticsReport(kernel, subsampling, dil, kernelScale);
    InfoDiagnosticsReport(kernel, subsampling, pd);
    ErrorsFirst(ErrorDiagnostics(kernel, subsampling, dil, kernelScale),
                InfoDiagnostics(kernel, subsampling, pd));
  }

  /** In `e + n`, with only errors in `e` and none in `n`, errors are exactly the first `|e|`. */
  lemma ErrorsFirst(e: seq<Diagnostic>, n: seq<Diagnostic>)
    requires forall d :: d in e ==> d.IsError()
    requires forall d :: d in n ==> !d.IsError()
    ensures (exists d :: d in e + n && d.IsError()) <==> e != []
    ensures forall i, j :: 0 <= i < j < |e + n| && (e + n)[j].IsError() ==> (e + n)[i].IsError()
  {
    var log := e + n;
    forall k | 0 <= k < |log|
      ensures log[k].IsError() <==> k < |e|
    {
      if k < |e| {
        assert log[k] == e[k] && e[k] in e;
      } else {
        assert log[k] == n[k - |e|] && n[k - |e|] in n;
      }
    }
    if e != [] {
      assert e[0] in log;
    }
  }

  /** `x / g == 1` exactly when `g <= x < 2 * g`. */
  lemma QuotientIsOne(x: nat, g: nat)
    requires g > 0
    ensures x / g == 1 <==> g <= x < 2 * g
  {
    if g <= x < 2 * g {
      ModUnique(x, g, 1, x - g);
    } else if x < g {
      ModUnique(x, g, 0, x);
    } else {
      var q := x / g;
      assert x == g * q + x % g;
      MulMono(g, q, 2);
    }
  }

  /** Depthwise exactly for a 9- or 25-tap kernel with one channel per group and several groups. */
  lemma DwConvIff(p: ConvParam)
    requires Classified(p)
    ensures p.ukernelType == DwConv <==>
              && (KernelSize(p.kernelDims) == 9 || KernelSize(p.kernelDims) == 25)
              && p.groups > 1
              && p.groups <= p.inputChannels < 2 * p.groups
              && p.groups <= p.outputChannels < 2 * p.groups
  {
    QuotientIsOne(p.inputChannels, p.groups);
    QuotientIsOne(p.outputChannels, p.groups);
  }

  /** With channels that are multiples of the group count, depthwise means one channel per group. */
  lemma DwConvExactGroups(p: ConvParam)
    requires Classified(p)
    requires p.inputChannels % p.groups == 0 && p.outputChannels % p.groups == 0
    ensures p.ukernelType == DwConv <==>
              && (KernelSize(p.kernelDims) == 9 || KernelSize(p.kernelDims) == 25)
              && p.groups > 1 && p.inputChannels == p.groups && p.outputChannels == p.groups
  {
    DwConvIff(p);
    if p.groups <= p.inputChannels < 2 * p.groups {
      ModUnique(p.inputChannels, p.groups, 1, p.inputChannels - p.groups);
    }
    if p.groups <= p.outputChannels < 2 * p.groups {
      ModUnique(p.outputChannels, p.groups, 1, p.outputChannels - p.groups);
    }
  }

  /**
   * `group_input_channels >= SIZE_MAX` holds only for `SIZE_MAX` input channels
   * in one group, so `xzp_gemm` is chosen for nothing else.
   */
  lemma XzpGemmIff(p: ConvParam)
    requires Classified(p)
    ensures p.ukernelType == XzpGemm <==>
              && KernelSize(p.kernelDims) == 1
              && p.subsamplingDims == Dims(1, 1) && !AnyPadding(p.pad)
              && p.inputChannels == SIZE_MAX && p.groups == 1
  {
    if p.groups > 1 {
      assert p.inputChannels / p.groups < SIZE_MAX by {
        assert p.inputChannels < p.groups * SIZE_MAX;
        QuotientBelow(p.inputChannels, p.groups, SIZE_MAX);
      }
    }
  }

  lemma QuotientBelow(x: nat, g: nat, b: nat)
    requires g > 0 && x < g * b
    ensures x / g < b
  {
    var q := x / g;
    assert x == g * q + x % g;
    if q >= b {
      MulMono(g, b, q);
    }
  }

  /** A 1x1 kernel, unit subsampling and no padding give `gemm`, but for the `xzp_gemm` corner. */
  lemma GemmIff(p: ConvParam)
    requires Classified(p)
    ensures p.ukernelType == Gemm <==>
              && KernelSize(p.kernelDims) == 1
              && p.subsamplingDims == Dims(1, 1) && !AnyPadding(p.pad)
              && !(p.inputChannels == SIZE_MAX && p.groups == 1)
  {
    XzpGemmIff(p);
  }

  /** Everything else is `conv`: the type is never `none`, and depthwise implies 9 or 25 taps. */
  lemma ConvOtherwise(p: ConvParam)
    requires Classified(p)
    ensures p.ukernelType != KernelNone
    ensures p.ukernelType == DwConv ==> KernelSize(p.kernelDims) in {9, 25}
    ensures p.ukernelType == Conv <==>
              && p.ukernelType != DwConv
              && !(KernelSize(p.kernelDims) == 1 && p.subsamplingDims == Dims(1, 1)
                   && !AnyPadding(p.pad))
  {
  }

  /**
   * The type is a function of kernel area, subsampling, padding, groups and
   * per-group channel counts: total channel counts, dilation, zero point,
   * scale and output bounds play no part.
   */
  lemma ClassificationDependsOnShapeOnly(p: ConvParam, q: ConvParam)
    requires Classified(p) && Classified(q)
    requires KernelSize(p.kernelDims) == KernelSize(q.kernelDims)
    requires p.subsamplingDims == q.subsamplingDims && p.pad == q.pad && p.groups == q.groups
    requires p.groupInputChannels == q.groupInputChannels
    requires p.groupOutputChannels == q.groupOutputChannels
    ensures p.ukernelType == q.ukernelType
  {
  }

  /** Multiplying the per-group counts back by `groups` recovers divisible channel counts. */
  lemma GroupChannelsMultiplyBack(p: ConvParam)
    requires Classified(p)
    ensures p.inputChannels % p.groups == 0 ==> p.groupInputChannels * p.groups == p.inputChannels
    ensures p.outputChannels % p.groups == 0 ==> p.groupOutputChannels * p.groups == p.outputChannels
  {
    assert p.inputChannels == p.groups * (p.inputChannels / p.groups) + p.inputChannels % p.groups;
    assert p.outputChannels == p.groups * (p.outputChannels / p.groups) + p.outputChannels % p.groups;
  }

  /** A 0x3 kernel has area 0: an error is logged and the type is `conv`. */
  lemma ZeroKernelExample()
    ensures var r := NewConvParam(Dims(0, 3), Dims(1, 1), Dims(1, 1), Padding(0, 0, 0, 0), 1, 8, 8,
                                  0, 0x3F80_0000, 0, 255);
      KernelDimsZero(Dims(0, 3)) in r.log && r.param.ukernelType == Conv
  {
    ErrorDiagnosticsReport(Dims(0, 3), Dims(1, 1), Dims(1, 1), 0x3F80_0000);
  }

  /** A 1x1 kernel with subsampling (2, 2) is `conv`, not `gemm`. */
  lemma StridedPointwiseExample()
    ensures NewConvParam(Dims(1, 1), Dims(2, 2), Dims(1, 1), Padding(0, 0, 0, 0), 1, 16, 16,
                         0, 0x3F80_0000, 0, 255).param.ukernelType == Conv
  {
  }

  /** 3x3 kernel, four groups of one channel: depthwise. */
  lemma DepthwiseExample()
    ensures NewConvParam(Dims(3, 3), Dims(1, 1), Dims(1, 1), Padding(0, 0, 0, 0), 4, 4, 4,
                         0, 0x3F80_0000, 0, 255).param.ukernelType == DwConv
  {
  }

  /**
   * The kernel area is a 32-bit product: a 5-wide, 858993461-tall kernel has
   * area 9 and is classified as a depthwise kernel.
   */
  lemma KernelAreaWrapsExample()
    ensures KernelSize(Dims(5, 858993461)) == 9
    ensures NewConvParam(Dims(5, 858993461), Dims(1, 1), Dims(1, 1), Padding(0, 0, 0, 0), 2, 2, 2,
                         0, 0x3F80_0000, 0, 255).param.ukernelType == DwConv
  {
  }
}
