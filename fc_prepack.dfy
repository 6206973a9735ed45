/**
 * `PackBMatrix`: the fully-connected weight packer. It checks the kernel
 * scale, sizes one 1x1 group with the `q8conv` tiles, fills it with the
 * kernel zero point and makes a single packing call.
 */
module FcPrepack {
  import opened Bits
  import opened ConvUtils
  import opened Packing
  import ConvPrepack

  /** `n_stride * (k_stride * sizeof(uint8_t) + sizeof(int32_t))`. */
  function FcSize(inCh: usize, outCh: usize, nr: u32, kr: u32): (r: nat)
    ensures r >= 4 * RoundUpTile(outCh, nr)
  {
    var nStride := RoundUpTile(outCh, nr);
    var kStride := RoundUpTile(inCh, kr);
    MulNonneg(nStride, kStride + 4);
    MulLe(4, kStride + 4, nStride);
    nStride * (kStride + 4)
  }

  /** The single `pack_q8gemm_wrq` call, given the whole buffer. */
  function FcWrite(inCh: usize, outCh: usize, nr: u32, kr: u32): (r: Write)
    ensures r.dst == 0 && r.End() == FcSize(inCh, outCh, nr, kr)
    ensures r.call.PackQ8GemmWrq? && r.call.np == r.call.nr == nr && r.call.kr == kr
    ensures r.call.outputChannels == outCh && r.call.inputChannels == inCh
  {
    Write(PackQ8GemmWrq(outCh, inCh, nr, nr, kr), 0, FcSize(inCh, outCh, nr, kr))
  }

  /** The scale check: one error when the scale is not a positive normal float. */
  function ScaleDiagnostics(kernelScale: u32): (r: seq<Diagnostic>)
    ensures |r| <= 1
    ensures r == [] <==> IsPositiveNormal(kernelScale)
    ensures forall d :: d in r ==> d.IsError() && d == InvalidKernelScale(kernelScale)
  {
    if IsPositiveNormal(kernelScale) then [] else [InvalidKernelScale(kernelScale)]
  }

  class PackBMatrix {
    var packedWeights: array<u8>
    var inputChannels: usize
    var outputChannels: usize
    /** What the constructor reported through `qnnp_log_error`. */
    var diagnostics: seq<Diagnostic>

    /**
     * Packs an `output_channels x input_channels` kernel and its bias. An
     * invalid scale is reported and construction goes on.
     */
    constructor(inCh: usize, outCh: usize, kernelZeroPoint: u8, kernelScale: u32,
                kernel: seq<u8>, bias: seq<i32>, nr: u32, kr: u32, prim: Primitive)
      ensures inputChannels == inCh && outputChannels == outCh
      ensures diagnostics == ScaleDiagnostics(kernelScale)
      ensures fresh(packedWeights) && packedWeights.Length == FcSize(inCh, outCh, nr, kr)
      ensures packedWeights[..]
              == Overlay(Filled(FcSize(inCh, outCh, nr, kr), kernelZeroPoint),
                         FcWrite(inCh, outCh, nr, kr), prim, kernel, bias)
    {
      diagnostics := ScaleDiagnostics(kernelScale);
      inputChannels := inCh;
      outputChannels := outCh;
      var a := new u8[FcSize(inCh, outCh, nr, kr)];
      Memset(a, kernelZeroPoint);
      Pack(a, FcWrite(inCh, outCh, nr, kr), prim, kernel, bias);
      packedWeights := a;
    }
  }

  /**
   * With power-of-two tiles and channel counts that leave room below 2^32,
   * `n_stride` and `k_stride` are the least multiples of `nr` and `kr` that
   * reach the channel counts.
   */
  lemma FcStrides(inCh: usize, outCh: usize, nr: u32, kr: u32)
    requires IsPow2(nr) && IsPow2(kr)
    requires outCh + nr - 1 < TWO32 && inCh + kr - 1 < TWO32
    ensures var n, k := RoundUpTile(outCh, nr), RoundUpTile(inCh, kr);
            && n % nr == 0 && outCh <= n < outCh + nr
            && k % kr == 0 && inCh <= k < inCh + kr
            && FcSize(inCh, outCh, nr, kr) == n * (k + 4)
  {
    RoundUpTileIsLeastMultiple(outCh, nr);
    RoundUpTileIsLeastMultiple(inCh, kr);
  }

  /** 8 input and 8 output channels with 8-wide tiles take 8 * (8 + 4) bytes. */
  lemma FcSizeExample()
    ensures FcSize(8, 8, 8, 8) == 96
  {
    assert IsPow2(8) by {
      assert IsPow2(4) && IsPow2(2);
    }
    RoundUpTileIsLeastMultiple(8, 8);
    var n: nat := RoundUpTile(8, 8);
    assert n == 8;
    assert FcSize(8, 8, 8, 8) == n * (n + 4);
  }

  /**
   * The fully-connected buffer is the convolution packer's single `gemm`
   * group for the same channels and tiles: same size, same fill, one call
   * given the whole buffer.
   */
  lemma FcMatchesConvGemm(p: ConvParam, tiles: ConvPrepack.Tiles)
    requires Classified(p) && p.ukernelType == Gemm && p.groups == 1
    ensures FcSize(p.inputChannels, p.outputChannels, tiles.convNr, tiles.convKr)
            == ConvPrepack.BufferSize(p, tiles)
    ensures ConvPrepack.FillValue(p) == Some(p.kernelZeroPoint)
    ensures var w := FcWrite(p.inputChannels, p.outputChannels, tiles.convNr, tiles.convKr);
            var ws := ConvPrepack.Writes(p, tiles);
            |ws| == 1 && ws[0].dst == w.dst && ws[0].len == w.len
  {
    GemmSize(p, tiles);
    ConvPrepack.GroupRegions(p, tiles);
    var ws := ConvPrepack.Writes(p, tiles);
    assert ws[0].dst == 0 * ConvPrepack.GroupWeightsSize(p, tiles);
  }

  /** The single `gemm` group's packed size is the fully-connected size. */
  lemma GemmSize(p: ConvParam, tiles: ConvPrepack.Tiles)
    requires Classified(p) && p.ukernelType == Gemm && p.groups == 1
    ensures FcSize(p.inputChannels, p.outputChannels, tiles.convNr, tiles.convKr)
            == ConvPrepack.GroupWeightsSize(p, tiles) == ConvPrepack.BufferSize(p, tiles)
  {
    assert p.groupInputChannels == p.inputChannels && p.groupOutputChannels == p.outputChannels;
    var n: nat := RoundUpTile(p.outputChannels, tiles.convNr);
    var k: nat := RoundUpTile(p.inputChannels, tiles.convKr);
    assert ConvPrepack.NStride(p, tiles) == n && ConvPrepack.KStride(p, tiles) == k;
    assert KernelSize(p.kernelDims) == 1;
    var size := ConvPrepack.GroupWeightsSize(p, tiles);
    assert size == (k + 4) * n;
    assert FcSize(p.inputChannels, p.outputChannels, tiles.convNr, tiles.convKr) == n * (k + 4);
    assert ConvPrepack.BufferSize(p, tiles) == size * 1;
  }
}
