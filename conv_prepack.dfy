/**
 * `PrePackConvWeights`: sizes a buffer for the micro-kernel type chosen by
 * `conv_param_t`, pre-fills it, and hands each group (or, for depthwise
 * kernels, each column slice) to a packing routine at computed offsets.
 */
module ConvPrepack {
  import opened Bits
  import opened ConvUtils
  import opened Packing

  /** The tile widths the packer reads from the global `qnnp_params` table. */
  datatype Tiles = Tiles(dwCr: u32, xzpNr: u32, xzpKr: u32, xzpKc: u32, convNr: u32, convKr: u32)

  /** `c_stride`: the group count rounded up to the depthwise channel tile `cr`. */
  function ChannelStride(p: ConvParam, tiles: Tiles): (r: u32)
    ensures IsPow2(tiles.dwCr) && p.groups + tiles.dwCr - 1 < TWO32 ==>
              r % tiles.dwCr == 0 && p.groups <= r < p.groups + tiles.dwCr
  {
    var c := RoundUpTile(p.groups, tiles.dwCr);
    if IsPow2(tiles.dwCr) && p.groups + tiles.dwCr - 1 < TWO32 then
      RoundUpTileIsLeastMultiple(p.groups, tiles.dwCr);
      c
    else c
  }

  /** The `nr` tile of the type's table entry (`q8conv_xzp` or `q8conv`). */
  function Nr(p: ConvParam, tiles: Tiles): (r: u32)
    ensures p.ukernelType == XzpGemm ==> r == tiles.xzpNr
    ensures p.ukernelType != XzpGemm ==> r == tiles.convNr
  {
    if p.ukernelType == XzpGemm then tiles.xzpNr else tiles.convNr
  }

  /** The `kr` tile of the type's table entry. */
  function Kr(p: ConvParam, tiles: Tiles): (r: u32)
    ensures p.ukernelType == XzpGemm ==> r == tiles.xzpKr
    ensures p.ukernelType != XzpGemm ==> r == tiles.convKr
  {
    if p.ukernelType == XzpGemm then tiles.xzpKr else tiles.convKr
  }

  /** `n_stride`: the per-group output channels rounded up to `nr`. */
  function NStride(p: ConvParam, tiles: Tiles): (r: u32)
    ensures var goc, nr := p.groupOutputChannels, Nr(p, tiles);
            IsPow2(nr) && goc + nr - 1 < TWO32 ==> r % nr == 0 && goc <= r < goc + nr
  {
    var n := RoundUpTile(p.groupOutputChannels, Nr(p, tiles));
    if IsPow2(Nr(p, tiles)) && p.groupOutputChannels + Nr(p, tiles) - 1 < TWO32 then
      RoundUpTileIsLeastMultiple(p.groupOutputChannels, Nr(p, tiles));
      n
    else n
  }

  /** `k_stride`: the per-group input channels rounded up to `kr`. */
  function KStride(p: ConvParam, tiles: Tiles): (r: u32)
    ensures var gic, kr := p.groupInputChannels, Kr(p, tiles);
            IsPow2(kr) && gic + kr - 1 < TWO32 ==> r % kr == 0 && gic <= r < gic + kr
  {
    var k := RoundUpTile(p.groupInputChannels, Kr(p, tiles));
    if IsPow2(Kr(p, tiles)) && p.groupInputChannels + Kr(p, tiles) - 1 < TWO32 then
      RoundUpTileIsLeastMultiple(p.groupInputChannels, Kr(p, tiles));
      k
    else k
  }

  /** `packed_group_weights_size`: packed kernel bytes plus one `int32_t` bias per output row. */
  function GroupWeightsSize(p: ConvParam, tiles: Tiles): (r: nat)
    ensures r >= 4 * NStride(p, tiles)
  {
    MulNonneg(KernelSize(p.kernelDims), KStride(p, tiles));
    var rowBytes: nat := KernelSize(p.kernelDims) * KStride(p, tiles) + 4;
    MulNonneg(rowBytes, NStride(p, tiles));
    MulLe(4, rowBytes, NStride(p, tiles));
    rowBytes * NStride(p, tiles)
  }

  /** The number of bytes allocated for `packed_weights_`. */
  function BufferSize(p: ConvParam, tiles: Tiles): (r: nat)
    ensures InBounds(Writes(p, tiles), r)
  {
    MulNonneg(KernelSize(p.kernelDims) + 4, ChannelStride(p, tiles));
    MulNonneg(GroupWeightsSize(p, tiles), p.groups);
    if p.ukernelType == DwConv then (KernelSize(p.kernelDims) + 4) * ChannelStride(p, tiles)
    else if PerGroup(p) then
      GroupRegions(p, tiles);
      TiledLayout(Writes(p, tiles), GroupWeightsSize(p, tiles), p.groups);
      GroupWeightsSize(p, tiles) * p.groups
    else GroupWeightsSize(p, tiles) * p.groups
  }

  /** The `memset` value: none for depthwise, 0 for `xzp_gemm`, the kernel zero point otherwise. */
  function FillValue(p: ConvParam): (r: Option<u8>)
    ensures r == None <==> p.ukernelType == DwConv
    ensures p.ukernelType == XzpGemm ==> r == Some(0)
    ensures p.ukernelType == Gemm || p.ukernelType == Conv ==> r == Some(p.kernelZeroPoint)
  {
    match p.ukernelType
    case DwConv => None
    case XzpGemm => Some(0)
    case _ => Some(p.kernelZeroPoint)
  }

  /** The buffer once filled, given the bytes `malloc` returned. */
  function Prefilled(p: ConvParam, initial: seq<u8>): (r: seq<u8>)
    ensures |r| == |initial|
    ensures FillValue(p) == None ==> r == initial
    ensures forall i :: 0 <= i < |r| && FillValue(p).Some? ==> r[i] == FillValue(p).value
  {
    match FillValue(p)
    case None => initial
    case Some(v) => Filled(|initial|, v)
  }

  /**
   * The depthwise calls. A 3x3-area kernel is one call over the whole buffer;
   * a 25-area kernel is three calls over the column slices [0,2), [2,4) and
   * [4,5), at `(10 + 4) * c_stride` and `(20 + 4) * c_stride` bytes, and only
   * the first packs the bias.
   */
  function DepthwiseWrites(p: ConvParam, tiles: Tiles): (r: seq<Write>)
    ensures |r| == (if KernelSize(p.kernelDims) == 9 then 1
                    else if KernelSize(p.kernelDims) == 25 then 3 else 0)
    ensures r != [] ==> r[0].dst == 0
                        && r[|r| - 1].End() == (KernelSize(p.kernelDims) + 4) * ChannelStride(p, tiles)
    ensures forall j :: 0 < j < |r| ==> r[j - 1].End() == r[j].dst
    ensures forall j :: 0 <= j < |r| ==> PacksFor(DwConv, r[j].call)
  {
    var kw, kh := p.kernelDims.width, p.kernelDims.height;
    var c := ChannelStride(p, tiles);
    var cr := tiles.dwCr;
    if KernelSize(p.kernelDims) == 9 then
      [Write(PackQ8DwW(kh, kw, p.groups, cr, 0, p.kernelZeroPoint), 0, (9 + 4) * c)]
    else if KernelSize(p.kernelDims) == 25 then
      [ Write(PackQ8DwWDilation(kh, kw, p.groups, cr, 0, kh, 0, 2, true), 0, (10 + 4) * c),
        Write(PackQ8DwWDilation(kh, kw, p.groups, cr, 0, kh, 2, 4, false), (10 + 4) * c, 10 * c),
        Write(PackQ8DwWDilation(kh, kw, p.groups, cr, 0, kh, 4, 5, false), (20 + 4) * c, 5 * c) ]
    else
      []
  }

  /** The call for group `g` of a `xzp_gemm`, `gemm` or `conv` packing. */
  function GroupWrite(p: ConvParam, tiles: Tiles, g: nat): (r: Write)
    ensures r.dst == g * GroupWeightsSize(p, tiles) && r.len == GroupWeightsSize(p, tiles)
    ensures PerGroup(p) ==> PacksFor(p.ukernelType, r.call)
  {
    var goc, gic := p.groupOutputChannels, p.groupInputChannels;
    var ks := KernelSize(p.kernelDims);
    var nr, kr := Nr(p, tiles), Kr(p, tiles);
    var size := GroupWeightsSize(p, tiles);
    MulNonneg(g, goc);
    var rows: nat := g * goc;
    MulNonneg(rows, gic);
    MulNonneg(rows, ks);
    MulNonneg(rows * ks, gic);
    MulNonneg(g, size);
    var call :=
      match p.ukernelType
      case XzpGemm =>
        PackSwizzleQ8GemmB(goc, gic, nr, kr, tiles.xzpKc, 0, p.kernelZeroPoint, g * goc * gic, g * goc)
      case Gemm =>
        PackQ8GemmW(goc, gic, nr, nr, kr, 0, p.kernelZeroPoint, g * goc * gic, g * goc)
      case _ =>
        PackQ8ConvW(goc, ks, gic, nr, kr, 0, p.kernelZeroPoint, rows * ks * gic, g * goc);
    Write(call, g * size, size)
  }

  /** Every packing call of the constructor, in order. */
  function Writes(p: ConvParam, tiles: Tiles): (r: seq<Write>)
    ensures PerGroup(p) ==> |r| == p.groups
    ensures forall j :: 0 <= j < |r| ==> PacksFor(p.ukernelType, r[j].call)
  {
    match p.ukernelType
    case KernelNone => []
    case DwConv => DepthwiseWrites(p, tiles)
    case _ => seq(p.groups, g requires 0 <= g => GroupWrite(p, tiles, g))
  }

  predicate PerGroup(p: ConvParam)
  {
    p.ukernelType == XzpGemm || p.ukernelType == Gemm || p.ukernelType == Conv
  }

  /** The packing routine the constructor's `switch` calls for each type. */
  predicate PacksFor(t: UKernelType, c: PackCall)
  {
    match t
    case DwConv => c.PackQ8DwW? || c.PackQ8DwWDilation?
    case XzpGemm => c.PackSwizzleQ8GemmB?
    case Gemm => c.PackQ8GemmW?
    case Conv => c.PackQ8ConvW?
    case KernelNone => false
  }

  class PrePackConvWeights {
    var packedWeights: array<u8>
    var outputChannels: i64
    /** The bytes `malloc` returned, which the model leaves unspecified. */
    ghost var initial: seq<u8>

    /**
     * Packs `kernel` and `bias` for the micro-kernel type `p` was classified
     * with. The result is the pre-filled buffer after every call of `Writes`.
     */
    constructor(p: ConvParam, kernel: seq<u8>, bias: seq<i32>, tiles: Tiles, prim: Primitive)
      requires Classified(p)
      ensures outputChannels == ToInt64(p.outputChannels)
      ensures fresh(packedWeights)
      ensures packedWeights.Length == |initial| == BufferSize(p, tiles)
      ensures InBounds(Writes(p, tiles), BufferSize(p, tiles))
      ensures packedWeights[..]
              == ApplyWrites(Prefilled(p, initial), Writes(p, tiles), prim, kernel, bias)
    {
      outputChannels := ToInt64(p.outputChannels);
      ConvOtherwise(p);
      WritesInBounds(p, tiles);
      var ws := Writes(p, tiles);
      var a := new u8[BufferSize(p, tiles)];
      ghost var fresh0 := a[..];
      initial := fresh0;
      match p.ukernelType {
        case DwConv =>
          if KernelSize(p.kernelDims) == 9 {
            PackNext(a, ws, 0, fresh0, prim, kernel, bias);
          } else {
            PackNext(a, ws, 0, fresh0, prim, kernel, bias);
            PackNext(a, ws, 1, fresh0, prim, kernel, bias);
            PackNext(a, ws, 2, fresh0, prim, kernel, bias);
          }
          assert ws[..|ws|] == ws;
        case XzpGemm =>
          Memset(a, 0);
          PackGroups(a, ws, prim, kernel, bias);
        case Gemm =>
          Memset(a, p.kernelZeroPoint);
          PackGroups(a, ws, prim, kernel, bias);
        case Conv =>
          Memset(a, p.kernelZeroPoint);
          PackGroups(a, ws, prim, kernel, bias);
        case KernelNone =>
          assert false;
      }
      packedWeights := a;
    }
  }

  /** Call `g` of `ws`, made after calls `0 .. g-1`. */
  method PackNext(a: array<u8>, ws: seq<Write>, g: nat, ghost start: seq<u8>, prim: Primitive,
                  kernel: seq<u8>, bias: seq<i32>)
    requires |start| == a.Length && InBounds(ws, a.Length) && g < |ws|
    requires a[..] == ApplyWrites(start, ws[..g], prim, kernel, bias)
    modifies a
    ensures a[..] == ApplyWrites(start, ws[..g + 1], prim, kernel, bias)
  {
    ApplyWritesSnoc(start, ws, g, prim, kernel, bias);
    Pack(a, ws[g], prim, kernel, bias);
  }

  /** `for (group = 0; group < groups; group++)`: one call per group region. */
  method PackGroups(a: array<u8>, ws: seq<Write>, prim: Primitive, kernel: seq<u8>, bias: seq<i32>)
    requires InBounds(ws, a.Length)
    modifies a
    ensures a[..] == ApplyWrites(old(a[..]), ws, prim, kernel, bias)
  {
    ghost var start := a[..];
    var g := 0;
    while g < |ws|
      invariant 0 <= g <= |ws|
      invariant a[..] == ApplyWrites(start, ws[..g], prim, kernel, bias)
    {
      PackNext(a, ws, g, start, prim, kernel, bias);
      g := g + 1;
    }
    assert ws[..|ws|] == ws;
  }

  // ---------------------------------------------------------------------------
  // Layout lemmas
  // ---------------------------------------------------------------------------

  lemma GroupOffsetsOrdered(s: nat, j: nat, k: nat)
    requires j < k
    ensures j * s + s <= k * s
  {
    MulMono(s, j, k);
  }

  /** Byte `i` of a buffer of `n` groups of `s` bytes lies in group `i / s`. */
  lemma GroupOfByte(s: nat, n: nat, i: nat)
    requires i < n * s
    ensures s > 0 && i / s < n && (i / s) * s <= i < (i / s) * s + s
  {
    MulZero(n, s);
    var q := i / s;
    assert i == s * q + i % s;
    MulMono(s, q, n);
  }

  /** `n` consecutive regions of `s` bytes each, starting at 0. */
  predicate Tiled(ws: seq<Write>, s: nat, n: nat)
  {
    |ws| == n && forall g :: 0 <= g < |ws| ==> ws[g].dst == g * s && ws[g].len == s
  }

  lemma TiledLayout(ws: seq<Write>, s: nat, n: nat)
    requires Tiled(ws, s, n)
    ensures InBounds(ws, n * s)
    ensures PairwiseDisjoint(ws)
    ensures forall i :: 0 <= i < n * s <==> Covered(ws, i)
  {
    forall g | 0 <= g < |ws|
      ensures ws[g].End() <= n * s
    {
      GroupOffsetsOrdered(s, g, n);
    }
    forall j, k | 0 <= j < k < |ws|
      ensures Disjoint(ws[j], ws[k])
    {
      GroupOffsetsOrdered(s, j, k);
    }
    forall i | 0 <= i < n * s
      ensures Covered(ws, i)
    {
      GroupOfByte(s, n, i);
      assert ws[i / s].Holds(i);
    }
  }

  lemma GroupRegions(p: ConvParam, tiles: Tiles)
    requires PerGroup(p)
    ensures Tiled(Writes(p, tiles), GroupWeightsSize(p, tiles), p.groups)
  {
  }

  /**
   * A per-group type makes `groups` calls; call `g` is given the bytes
   * `[g * packed_group_weights_size, (g + 1) * packed_group_weights_size)`;
   * the regions are pairwise disjoint and exactly tile the buffer.
   */
  lemma GroupLayout(p: ConvParam, tiles: Tiles)
    requires Classified(p) && PerGroup(p)
    ensures var ws, s := Writes(p, tiles), GroupWeightsSize(p, tiles);
            && |ws| == p.groups
            && BufferSize(p, tiles) == p.groups * s
            && (forall g :: 0 <= g < |ws| ==> ws[g].dst == g * s && ws[g].len == s)
            && InBounds(ws, BufferSize(p, tiles))
            && PairwiseDisjoint(ws)
            && (forall i :: 0 <= i < BufferSize(p, tiles) <==> Covered(ws, i))
  {
    GroupRegions(p, tiles);
    TiledLayout(Writes(p, tiles), GroupWeightsSize(p, tiles), p.groups);
  }

  /**
   * The scalar arguments of group `g`'s call: `xzp_gemm` reads the
   * `q8conv_xzp` tiles `(nr, kr, kc)`, `gemm` and `conv` the `q8conv` tiles
   * `(nr, kr)`, with `nr` passed twice to `pack_q8gemm_w`; input zero point 0,
   * the kernel zero point, and the group's kernel and bias offsets.
   */
  lemma GroupCallArguments(p: ConvParam, tiles: Tiles, g: nat)
    requires PerGroup(p) && g < p.groups
    ensures var call, goc, gic, ks, kzp :=
              Writes(p, tiles)[g].call, p.groupOutputChannels, p.groupInputChannels,
              KernelSize(p.kernelDims), p.kernelZeroPoint;
            && (p.ukernelType == XzpGemm ==>
                  call == PackSwizzleQ8GemmB(goc, gic, tiles.xzpNr, tiles.xzpKr, tiles.xzpKc,
                                             0, kzp, g * goc * gic, g * goc))
            && (p.ukernelType == Gemm ==>
                  call == PackQ8GemmW(goc, gic, tiles.convNr, tiles.convNr, tiles.convKr,
                                      0, kzp, g * goc * gic, g * goc))
            && (p.ukernelType == Conv ==>
                  call == PackQ8ConvW(goc, ks, gic, tiles.convNr, tiles.convKr,
                                      0, kzp, g * goc * ks * gic, g * goc))
  {
    assert Writes(p, tiles)[g] == GroupWrite(p, tiles, g);
  }

  /** The depthwise channel stride is the least multiple of `cr` at least `groups`. */
  lemma DepthwiseSizing(p: ConvParam, tiles: Tiles)
    requires Classified(p) && p.ukernelType == DwConv
    requires IsPow2(tiles.dwCr) && p.groups + tiles.dwCr - 1 < TWO32
    ensures var c := ChannelStride(p, tiles);
            && c % tiles.dwCr == 0 && p.groups <= c < p.groups + tiles.dwCr
            && BufferSize(p, tiles) == (KernelSize(p.kernelDims) + 4) * c
  {
  }

  /** A 9-area depthwise kernel is packed by one call given the whole buffer. */
  lemma Depthwise3x3Layout(p: ConvParam, tiles: Tiles)
    requires Classified(p) && p.ukernelType == DwConv && KernelSize(p.kernelDims) == 9
    ensures var ws := Writes(p, tiles);
            && |ws| == 1 && ws[0].dst == 0 && ws[0].End() == BufferSize(p, tiles)
            && ws[0].call == PackQ8DwW(p.kernelDims.height, p.kernelDims.width, p.groups,
                                       tiles.dwCr, 0, p.kernelZeroPoint)
  {
  }

  /**
   * A 25-area depthwise kernel is packed by three calls over rows
   * `[0, kernel_height)`: consecutive regions at 0, `14 * c_stride` and
   * `24 * c_stride`, the last ending at the buffer end `29 * c_stride`;
   * column slices that tile `[0, 5)`; only the first call packs the bias.
   */
  lemma Depthwise5x5Layout(p: ConvParam, tiles: Tiles)
    requires Classified(p) && p.ukernelType == DwConv && KernelSize(p.kernelDims) == 25
    ensures var ws, c := Writes(p, tiles), ChannelStride(p, tiles);
            && |ws| == 3
            && ws[0].dst == 0 && ws[1].dst == 14 * c && ws[2].dst == 24 * c
            && ws[0].End() == ws[1].dst && ws[1].End() == ws[2].dst
            && ws[2].End() == 29 * c == BufferSize(p, tiles)
            && (forall j :: 0 <= j < 3 ==>
                  && ws[j].call.PackQ8DwWDilation?
                  && ws[j].call.kernelHeight == p.kernelDims.height
                  && ws[j].call.kernelWidth == p.kernelDims.width
                  && ws[j].call.groups == p.groups && ws[j].call.cr == tiles.dwCr
                  && ws[j].call.rowStart == 0 && ws[j].call.rowEnd == p.kernelDims.height
                  && ws[j].call.colStart < ws[j].call.colEnd
                  && (ws[j].call.withBias <==> j == 0))
            && ws[0].call.colStart == 0 && ws[0].call.colEnd == ws[1].call.colStart
            && ws[1].call.colEnd == ws[2].call.colStart && ws[2].call.colEnd == 5
  {
  }

  /**
   * Whatever the type, the calls stay inside the buffer and their regions are
   * pairwise disjoint.
   */
  lemma WritesInBounds(p: ConvParam, tiles: Tiles)
    requires Classified(p)
    ensures InBounds(Writes(p, tiles), BufferSize(p, tiles))
    ensures PairwiseDisjoint(Writes(p, tiles))
  {
    ConvOtherwise(p);
    if PerGroup(p) {
      GroupLayout(p, tiles);
    } else if KernelSize(p.kernelDims) == 9 {
      Depthwise3x3Layout(p, tiles);
    } else {
      Depthwise5x5Layout(p, tiles);
    }
  }

  /** The call whose region holds byte `i`. */
  function Owner(p: ConvParam, tiles: Tiles, i: nat): nat
  {
    if p.ukernelType == DwConv then
      var c := ChannelStride(p, tiles);
      if KernelSize(p.kernelDims) == 9 || i < 14 * c then 0 else if i < 24 * c then 1 else 2
    else GroupIndex(i, GroupWeightsSize(p, tiles))
  }

  function GroupIndex(i: nat, s: nat): nat
  {
    if s == 0 then 0 else i / s
  }

  lemma OwnerHolds(p: ConvParam, tiles: Tiles, i: nat)
    requires Classified(p) && i < BufferSize(p, tiles)
    ensures Owner(p, tiles, i) < |Writes(p, tiles)|
    ensures Writes(p, tiles)[Owner(p, tiles, i)].Holds(i)
  {
    ConvOtherwise(p);
    if PerGroup(p) {
      GroupOfByte(GroupWeightsSize(p, tiles), p.groups, i);
    } else if KernelSize(p.kernelDims) == 9 {
      Depthwise3x3Layout(p, tiles);
    } else {
      Depthwise5x5Layout(p, tiles);
    }
  }

  /**
   * Each byte of the packed buffer belongs to exactly one call's region and
   * holds the byte that call stores there, or, where the call stores none,
   * the pre-fill: 0 for `xzp_gemm`, the kernel zero point for `gemm` and
   * `conv`, and whatever `malloc` returned for depthwise.
   */
  lemma PackedBytes(p: ConvParam, tiles: Tiles, initial: seq<u8>, prim: Primitive,
                    kernel: seq<u8>, bias: seq<i32>, i: nat)
    requires Classified(p) && |initial| == BufferSize(p, tiles) && i < |initial|
    ensures InBounds(Writes(p, tiles), BufferSize(p, tiles))
    ensures var ws, o := Writes(p, tiles), Owner(p, tiles, i);
            && o < |ws| && ws[o].Holds(i)
            && (forall j :: 0 <= j < |ws| && ws[j].Holds(i) ==> j == o)
            && ApplyWrites(Prefilled(p, initial), ws, prim, kernel, bias)[i]
               == Placed(Prefilled(p, initial)[i], ws[o], prim, kernel, bias, i)
    ensures p.ukernelType == XzpGemm ==> Prefilled(p, initial)[i] == 0
    ensures p.ukernelType in {Gemm, Conv} ==> Prefilled(p, initial)[i] == p.kernelZeroPoint
    ensures p.ukernelType == DwConv ==> Prefilled(p, initial)[i] == initial[i]
  {
    var ws, o := Writes(p, tiles), Owner(p, tiles, i);
    WritesInBounds(p, tiles);
    OwnerHolds(p, tiles, i);
    forall j | 0 <= j < |ws| && ws[j].Holds(i)
      ensures j == o
    {
      DisjointExcludes(ws[j], ws[o], i);
      DisjointExcludes(ws[o], ws[j], i);
    }
    ApplyWritesInside(Prefilled(p, initial), ws, prim, kernel, bias, o, i);
  }

  lemma DisjointExcludes(a: Write, b: Write, i: int)
    ensures Disjoint(a, b) && a.Holds(i) ==> !b.Holds(i)
  {
  }

  /**
   * Group `g` reads the kernel from element `g*goc*gic` (`gemm`, `xzp_gemm`)
   * or `g*goc*kernel_size*gic` (`conv`) and the bias from element `g*goc`; its
   * slices stay inside a kernel of `output_channels * kernel_size * gic`
   * elements and a bias of `output_channels` elements.
   */
  lemma SourceSlices(p: ConvParam, tiles: Tiles, g: nat)
    requires Classified(p) && PerGroup(p) && g < p.groups
    ensures var call, goc, gic, ks :=
              Writes(p, tiles)[g].call, p.groupOutputChannels, p.groupInputChannels,
              KernelSize(p.kernelDims);
            && !call.PackQ8DwW? && !call.PackQ8DwWDilation? && !call.PackQ8GemmWrq?
            && (p.ukernelType == Conv ==> call.kernelOffset == g * goc * ks * gic)
            && (p.ukernelType != Conv ==> call.kernelOffset == g * goc * gic)
            && call.kernelOffset + goc * ks * gic <= p.outputChannels * ks * gic
            && call.biasOffset == g * goc
            && call.biasOffset + goc <= p.outputChannels
  {
    var goc, gic, ks := p.groupOutputChannels, p.groupInputChannels, KernelSize(p.kernelDims);
    var w := Writes(p, tiles)[g];
    assert w == GroupWrite(p, tiles, g);
    var r := ks * gic;
    var rows := g * goc;
    assert w.call.kernelOffset == rows * r by {
      MulAssoc(rows, ks, gic);
      if p.ukernelType != Conv {
        GemmIff(p);
        XzpGemmIff(p);
        assert ks == 1;
      }
    }
    GroupChannelsFit(p.outputChannels, p.groups);
    GroupSliceFits(g, p.groups, goc, p.outputChannels, r);
    MulAssoc(goc, ks, gic);
    MulAssoc(p.outputChannels, ks, gic);
  }

  /** Group `g` of `goc` rows of `r` elements ends within `out` rows. */
  lemma GroupSliceFits(g: nat, groups: nat, goc: nat, out: nat, r: nat)
    requires g < groups && groups * goc <= out
    ensures g * goc + goc <= out
    ensures (g * goc) * r + goc * r <= out * r
  {
    GroupOffsetsOrdered(goc, g, groups);
    MulDistrib(g * goc, goc, r);
    MulLe(g * goc + goc, groups * goc, r);
    MulLe(groups * goc, out, r);
  }

  lemma GroupChannelsFit(out: nat, groups: nat)
    requires groups > 0
    ensures groups * (out / groups) <= out
  {
    assert out == groups * (out / groups) + out % groups;
  }

  /**
   * `xzp_gemm` is only chosen for `input_channels == SIZE_MAX` (and one group),
   * whose low 32 bits are all ones: for any `kr >= 2` the rounded `k_stride`
   * wraps to 0, so the group weight size is `4 * n_stride`.
   */
  lemma XzpKStrideWraps(p: ConvParam, tiles: Tiles)
    requires Classified(p) && p.ukernelType == XzpGemm && IsPow2(tiles.xzpKr) && tiles.xzpKr >= 2
    ensures p.inputChannels == SIZE_MAX && p.groups == 1
    ensures KStride(p, tiles) == 0
    ensures GroupWeightsSize(p, tiles) == 4 * NStride(p, tiles)
  {
    XzpGemmIff(p);
    var kr := tiles.xzpKr;
    ModUnique(kr + TWO32 - 1, TWO32, 1, kr - 1);
    ModUnique(SIZE_MAX + kr - 1, TWO32, 0x1_0000_0000, kr - 2);
    ClearLow32(kr - 2, kr);
    ClearAll(kr - 2, kr);
    ModUnique(TWO32 - kr, TWO32, 0, TWO32 - kr);
  }

  /**
   * 3x3 kernel, four groups of one channel, `cr = 8`: depthwise, with
   * `c_stride = 8` and a buffer of `(9 + 4) * 8` bytes.
   */
  lemma DepthwiseBufferExample(tiles: Tiles)
    requires tiles.dwCr == 8
    ensures var p := NewConvParam(Dims(3, 3), Dims(1, 1), Dims(1, 1), Padding(0, 0, 0, 0), 4, 4, 4,
                                  0, 0x3F80_0000, 0, 255).param;
            && p.ukernelType == DwConv
            && ChannelStride(p, tiles) == 8
            && BufferSize(p, tiles) == 104
            && |Writes(p, tiles)| == 1
  {
    var p := NewConvParam(Dims(3, 3), Dims(1, 1), Dims(1, 1), Padding(0, 0, 0, 0), 4, 4, 4,
                          0, 0x3F80_0000, 0, 255).param;
    assert KernelSize(p.kernelDims) == 9;
    assert p.groupInputChannels == 1 && p.groupOutputChannels == 1;
    assert p.ukernelType == DwConv;
    assert IsPow2(8) by {
      assert IsPow2(4) && IsPow2(2);
    }
    DepthwiseSizing(p, tiles);
    Depthwise3x3Layout(p, tiles);
    var c: nat := ChannelStride(p, tiles);
    assert c == 8;
  }
}
