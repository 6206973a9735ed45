/**
 * The packed-weights byte buffer and the packing routines of `qnnpack/pack.h`
 * that write into it. The routines' layouts are not modelled: a routine is a
 * function saying which byte it stores at each offset of the region it is
 * handed, or that it leaves that byte alone; it writes nothing outside that
 * region.
 */
module Packing {
  import opened Bits

  datatype Option<T> = None | Some(value: T)

  /**
   * One call to a packing routine, with its scalar arguments. Offsets are
   * element offsets into the caller's kernel (`uint8_t`) and bias (`int32_t`)
   * arrays; the depthwise and fully-connected calls pass both arrays unshifted.
   */
  datatype PackCall =
    | PackQ8DwW(kernelHeight: u32, kernelWidth: u32, groups: u32, cr: u32,
                inputZeroPoint: u8, kernelZeroPoint: u8)
    | PackQ8DwWDilation(kernelHeight: u32, kernelWidth: u32, groups: u32, cr: u32,
                        rowStart: u32, rowEnd: u32, colStart: u32, colEnd: u32, withBias: bool)
    | PackSwizzleQ8GemmB(outputChannels: usize, inputChannels: usize, nr: u32, kr: u32, sr: u32,
                         inputZeroPoint: u8, kernelZeroPoint: u8,
                         kernelOffset: nat, biasOffset: nat)
    | PackQ8GemmW(outputChannels: usize, inputChannels: usize, nr: u32, np: u32, kr: u32,
                  inputZeroPoint: u8, kernelZeroPoint: u8, kernelOffset: nat, biasOffset: nat)
    | PackQ8ConvW(outputChannels: usize, kernelSize: nat, inputChannels: usize, nr: u32, kr: u32,
                  inputZeroPoint: u8, kernelZeroPoint: u8, kernelOffset: nat, biasOffset: nat)
    | PackQ8GemmWrq(outputChannels: usize, inputChannels: usize, nr: u32, np: u32, kr: u32)

  /** A call together with the region `[dst, dst + len)` of the buffer it is given. */
  datatype Write = Write(call: PackCall, dst: nat, len: nat)
  {
    function End(): nat
    {
      dst + len
    }

    predicate Holds(i: int)
    {
      dst <= i < dst + len
    }
  }

  /**
   * What a packing routine stores: given the call, the kernel and bias arrays
   * and an offset inside its region, the byte written there, or `None` where
   * the routine leaves the byte as it was.
   */
  type Primitive = (PackCall, seq<u8>, seq<i32>, nat) -> Option<u8>

  function Filled(n: nat, v: u8): (r: seq<u8>)
    ensures |r| == n && forall i :: 0 <= i < n ==> r[i] == v
  {
    seq(n, _ => v)
  }

  /** The byte at `i` after write `w`, given the byte `before` it. */
  function Placed(before: u8, w: Write, prim: Primitive, kernel: seq<u8>, bias: seq<i32>,
                  i: nat): u8
  {
    if w.Holds(i) then
      match prim(w.call, kernel, bias, i - w.dst)
      case Some(b) => b
      case None => before
    else
      before
  }

  /** The buffer after one call of a packing routine. */
  function Overlay(buf: seq<u8>, w: Write, prim: Primitive, kernel: seq<u8>, bias: seq<i32>)
    : (r: seq<u8>)
    requires w.End() <= |buf|
    ensures |r| == |buf|
    ensures forall i :: 0 <= i < |buf| && !w.Holds(i) ==> r[i] == buf[i]
  {
    seq(|buf|, i requires 0 <= i < |buf| => Placed(buf[i], w, prim, kernel, bias, i))
  }

  predicate InBounds(ws: seq<Write>, n: nat)
  {
    forall j :: 0 <= j < |ws| ==> ws[j].End() <= n
  }

  predicate Disjoint(a: Write, b: Write)
  {
    a.End() <= b.dst || b.End() <= a.dst
  }

  predicate PairwiseDisjoint(ws: seq<Write>)
  {
    forall j, k :: 0 <= j < k < |ws| ==> Disjoint(ws[j], ws[k])
  }

  /** Some write of `ws` is given byte `i`. */
  predicate Covered(ws: seq<Write>, i: int)
  {
    exists j :: 0 <= j < |ws| && ws[j].Holds(i)
  }

  /** The buffer after the calls `ws`, made in order. */
  function ApplyWrites(buf: seq<u8>, ws: seq<Write>, prim: Primitive, kernel: seq<u8>,
                       bias: seq<i32>): (r: seq<u8>)
    requires InBounds(ws, |buf|)
    ensures |r| == |buf|
    decreases |ws|
  {
    if ws == [] then buf
    else
      Overlay(ApplyWrites(buf, ws[..|ws| - 1], prim, kernel, bias), ws[|ws| - 1], prim, kernel, bias)
  }

  /** Applying one more write to the result of a prefix. */
  lemma ApplyWritesSnoc(buf: seq<u8>, ws: seq<Write>, g: nat, prim: Primitive, kernel: seq<u8>,
                        bias: seq<i32>)
    requires InBounds(ws, |buf|) && g < |ws|
    ensures InBounds(ws[..g], |buf|) && InBounds(ws[..g + 1], |buf|)
    ensures ApplyWrites(buf, ws[..g + 1], prim, kernel, bias)
            == Overlay(ApplyWrites(buf, ws[..g], prim, kernel, bias), ws[g], prim, kernel, bias)
  {
    assert ws[..g + 1][..g] == ws[..g];
  }

  /** A byte that no call is given keeps the value it had before packing. */
  lemma {:induction false} ApplyWritesOutside(buf: seq<u8>, ws: seq<Write>, prim: Primitive,
                                              kernel: seq<u8>, bias: seq<i32>, i: nat)
    requires InBounds(ws, |buf|) && i < |buf| && !Covered(ws, i)
    ensures ApplyWrites(buf, ws, prim, kernel, bias)[i] == buf[i]
    decreases |ws|
  {
    if ws != [] {
      var init := ws[..|ws| - 1];
      forall j | 0 <= j < |init|
        ensures !init[j].Holds(i)
      {
        assert init[j] == ws[j];
      }
      ApplyWritesOutside(buf, init, prim, kernel, bias, i);
      assert !ws[|ws| - 1].Holds(i);
    }
  }

  /**
   * With pairwise disjoint regions, a byte given to call `j` holds what that
   * call stores there, or the value from before packing where it stores nothing.
   */
  lemma {:induction false} ApplyWritesInside(buf: seq<u8>, ws: seq<Write>, prim: Primitive,
                                             kernel: seq<u8>, bias: seq<i32>, j: nat, i: nat)
    requires InBounds(ws, |buf|) && PairwiseDisjoint(ws) && i < |buf|
    requires j < |ws| && ws[j].Holds(i)
    ensures ApplyWrites(buf, ws, prim, kernel, bias)[i] == Placed(buf[i], ws[j], prim, kernel, bias, i)
    decreases |ws|
  {
    var init := ws[..|ws| - 1];
    var last := ws[|ws| - 1];
    if j == |ws| - 1 {
      forall k | 0 <= k < |init|
        ensures !init[k].Holds(i)
      {
        assert init[k] == ws[k] && Disjoint(ws[k], ws[j]);
      }
      ApplyWritesOutside(buf, init, prim, kernel, bias, i);
    } else {
      assert Disjoint(ws[j], last);
      assert init[j] == ws[j];
      ApplyWritesInside(buf, init, prim, kernel, bias, j, i);
    }
  }

  /** `memset(a, v, a.Length)`. */
  method Memset(a: array<u8>, v: u8)
    modifies a
    ensures a[..] == Filled(a.Length, v)
  {
    var i := 0;
    while i < a.Length
      invariant 0 <= i <= a.Length
      invariant forall k :: 0 <= k < i ==> a[k] == v
    {
      a[i] := v;
      i := i + 1;
    }
  }

  /** One call of a packing routine into region `[w.dst, w.End())` of `a`. */
  method Pack(a: array<u8>, w: Write, prim: Primitive, kernel: seq<u8>, bias: seq<i32>)
    requires w.End() <= a.Length
    modifies a
    ensures a[..] == Overlay(old(a[..]), w, prim, kernel, bias)
  {
    var k := 0;
    while k < w.len
      invariant 0 <= k <= w.len
      invariant forall i :: 0 <= i < a.Length && !(w.dst <= i < w.dst + k) ==> a[i] == old(a[i])
      invariant forall i :: w.dst <= i < w.dst + k ==> a[i] == Placed(old(a[i]), w, prim, kernel, bias, i)
    {
      a[w.dst + k] := Placed(a[w.dst + k], w, prim, kernel, bias, w.dst + k);
      k := k + 1;
    }
  }
}
