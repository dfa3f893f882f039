/**
 * The integer bookkeeping of the Direct3D 12 renderer: descriptor-heap
 * sizing, constant-buffer alignment, descriptor counters and indices, the
 * shader-resource-view element count, and the classification and numbering
 * of shader bindings into root parameters. Device objects, command lists
 * and the D3D descriptor structures are abstracted to the numbers the code
 * computes for them.
 */
module D3D12 {
  import opened Wrappers

  // ---------------------------------------------------------------------
  // Unsigned 32-bit arithmetic
  // ---------------------------------------------------------------------

  const U32_LIMIT: int := 0x1_0000_0000
  type u32 = x: int | 0 <= x < 0x1_0000_0000

  /** Wrap-around of an unsigned 32-bit result. */
  function Wrap(x: nat): (r: u32)
    ensures x < U32_LIMIT ==> r == x
  {
    x % U32_LIMIT
  }

  // ---------------------------------------------------------------------
  // Descriptor-heap size
  // ---------------------------------------------------------------------

  predicate IsPow2(v: bv32) {
    v != 0 && v & (v - 1) == 0
  }

  /**
   * `roundUpToPowerOf2`: smear the highest set bit of `value - 1` into every
   * lower bit, then add one. Zero rounds up to one; an input above 2^31 has
   * no 32-bit power of two above it and wraps to zero.
   */
  function RoundUpToPowerOf2(value: bv32): (r: bv32)
    ensures value == 0 ==> r == 1
    ensures 1 <= value <= 0x8000_0000 ==> IsPow2(r) && value <= r && r >> 1 < value
    ensures value > 0x8000_0000 ==> r == 0
  {
    if value == 0 then 1
    else
      var v0 := value - 1;
      var v1 := v0 | (v0 >> 1);
      var v2 := v1 | (v1 >> 2);
      var v3 := v2 | (v2 >> 4);
      var v4 := v3 | (v3 >> 8);
      var v5 := v4 | (v4 >> 16);
      v5 + 1
  }

  /** The result is the least power of two at or above the input. */
  lemma RoundUpIsLeast(value: bv32, p: bv32)
    requires 1 <= value <= 0x8000_0000
    requires IsPow2(p) && value <= p
    ensures RoundUpToPowerOf2(value) <= p
  {
    var r := RoundUpToPowerOf2(value);
    if p < r {
      PowersOfTwoBelow(p, r);
    }
  }

  /** Of two distinct powers of two, the smaller is at most half the larger. */
  lemma PowersOfTwoBelow(p: bv32, r: bv32)
    requires IsPow2(p) && IsPow2(r) && p < r
    ensures p <= r >> 1
  {
  }

  /** The descriptors the renderer has reserved so far. */
  datatype DescriptorCounts = DescriptorCounts(cbvCount: u32, srvCount: u32, uavCount: u32, samplerCount: u32)

  /** The sum of the four counts, in 32 bits. */
  function TotalDescriptors(c: DescriptorCounts): u32 {
    Wrap(c.cbvCount + c.srvCount + c.uavCount + c.samplerCount)
  }

  /** The padding added to a total: a tenth of it, at least 4. */
  function Padding(total: u32): (p: u32)
    ensures p >= 4 && p >= total / 10
    ensures p == 4 || p == total / 10
  {
    if 4 >= total / 10 then 4 else total / 10
  }

  /** The padded total handed to the rounding. */
  function PaddedTotal(c: DescriptorCounts): u32 {
    var total := TotalDescriptors(c);
    Wrap(total + Padding(total))
  }

  /** The number of descriptors of the shader-visible heap: the padded total rounded up to a power of two. */
  function HeapSize(c: DescriptorCounts): bv32 {
    RoundUpToPowerOf2(PaddedTotal(c) as bv32)
  }

  /**
   * Without overflow the padded total exceeds the counted descriptors by at
   * least 4 and by at least a tenth, and the heap size is the least power of
   * two at or above it.
   */
  lemma HeapSizeCovers(c: DescriptorCounts)
    requires c.cbvCount + c.srvCount + c.uavCount + c.samplerCount < U32_LIMIT
    requires var total := c.cbvCount + c.srvCount + c.uavCount + c.samplerCount;
             total + Padding(total) <= 0x8000_0000
    ensures var total := c.cbvCount + c.srvCount + c.uavCount + c.samplerCount;
            PaddedTotal(c) >= total + 4 && PaddedTotal(c) >= total + total / 10
    ensures var h := HeapSize(c);
            IsPow2(h) && PaddedTotal(c) as bv32 <= h && h >> 1 < PaddedTotal(c) as bv32
  {
    assert 1 <= PaddedTotal(c) <= 0x8000_0000;
    assert 1 <= PaddedTotal(c) as bv32 <= 0x8000_0000;
  }

  // ---------------------------------------------------------------------
  // Constant-buffer alignment
  // ---------------------------------------------------------------------

  /**
   * `(size + 255) & ~255` in 32-bit unsigned arithmetic: the sum wraps at
   * 2^32, and the mask clears its eight low bits, that is, subtracts its
   * remainder modulo 256.
   */
  function Align256(size: nat): (r: u32)
    ensures r % 256 == 0
    ensures size <= 0xFFFF_FF00 ==> size <= r < size + 256
  {
    var s := Wrap(size + 255);
    s - s % 256
  }

  /** It is the least multiple of 256 at or above the size. */
  lemma Align256IsLeast(size: nat, m: nat)
    requires size <= 0xFFFF_FF00
    requires m % 256 == 0 && size <= m
    ensures Align256(size) <= m
  {
  }

  /** Sizes above the last 32-bit multiple of 256 wrap to zero. */
  lemma Align256Wraps(size: nat)
    requires 0xFFFF_FF00 < size < U32_LIMIT
    ensures Align256(size) == 0
  {
  }

  // ---------------------------------------------------------------------
  // Shader-resource views of the per-type buffers
  // ---------------------------------------------------------------------

  /** The buffer usages of the renderer interface, numbered as declared. */
  const MODEL_MATRIX: int := 0
  const CUBE_MATRICES: int := 4
  const RING_MATRICES: int := 7
  const CUBE_COLORS: int := 8
  const RING_COLORS: int := 11

  /** Bytes of one matrices record (two 4x4 and one 3x4 float matrix) and of one colour. */
  const MATRICES_STRIDE: nat := 176
  const COLOR_STRIDE: nat := 16

  datatype SrvView = SrvView(stride: nat, numElements: u32)

  /**
   * The view `recreateSSBODescriptor` builds for a buffer of `newSize` bytes:
   * matrices and colour buffers get their record size as stride and the
   * number of whole records as element count; any other usage is an error.
   */
  function SsboView(usage: int, newSize: nat): (r: Result<SrvView>)
    requires newSize < 0x1_0000_0000_0000_0000
    ensures r.Success? <==> CUBE_MATRICES <= usage <= RING_COLORS
    ensures r.Success? ==> (r.value.stride == MATRICES_STRIDE <==> usage <= RING_MATRICES)
    ensures r.Success? ==> (r.value.stride == COLOR_STRIDE <==> CUBE_COLORS <= usage)
    ensures r.Success? && newSize / r.value.stride < U32_LIMIT ==>
              r.value.numElements * r.value.stride <= newSize < (r.value.numElements + 1) * r.value.stride
  {
    if CUBE_MATRICES <= usage <= RING_MATRICES then
      Success(SrvView(MATRICES_STRIDE, (newSize / MATRICES_STRIDE) % U32_LIMIT))
    else if CUBE_COLORS <= usage <= RING_COLORS then
      Success(SrvView(COLOR_STRIDE, (newSize / COLOR_STRIDE) % U32_LIMIT))
    else
      Failure("Unknown SSBO type")
  }

  // ---------------------------------------------------------------------
  // Descriptor bookkeeping of the renderer
  // ---------------------------------------------------------------------

  /** Frames in flight; every storage buffer has one copy per frame. */
  const FRAME_COUNT: nat := 2

  /** A storage buffer's place in the heap and its size in bytes. */
  datatype SsboSlot = SsboSlot(descriptorIndex: u32, size: nat)

  /**
   * The part of the renderer that reserves descriptors: the counters, the
   * constant buffers by usage, the per-frame storage buffers by usage, and
   * the heap, created once.
   */
  class DescriptorBook {
    var counts: DescriptorCounts
    /** The aligned size of the constant buffer of each usage. */
    var uboSize: map<int, nat>
    /** For each frame, the storage buffer of each usage. */
    var ssbo: seq<map<int, SsboSlot>>
    var heapCreated: bool
    var heapSize: bv32

    ghost predicate Valid()
      reads this
    {
      |ssbo| == FRAME_COUNT
    }

    /**
     * No storage-buffer descriptor index has been handed out at or above
     * `cbvCount + srvCount`, so the next one handed out is new.
     */
    ghost predicate IndicesBelowCounts()
      reads this
    {
      && |ssbo| == FRAME_COUNT
      && forall f, u | 0 <= f < FRAME_COUNT && u in ssbo[f] ::
           ssbo[f][u].descriptorIndex < counts.cbvCount + counts.srvCount
    }

    constructor()
      ensures Valid() && IndicesBelowCounts()
      ensures counts == DescriptorCounts(0, 0, 0, 0) && uboSize == map[] && ssbo == [map[], map[]]
      ensures !heapCreated
    {
      counts := DescriptorCounts(0, 0, 0, 0);
      uboSize := map[];
      ssbo := [map[], map[]];
      heapCreated := false;
      heapSize := 0;
    }

    /**
     * `createUBO`: records the 256-byte-aligned size under the usage and
     * reserves one constant-buffer descriptor.
     */
    method CreateUbo(binding: nat, usage: int, size: u32)
      modifies this
      ensures uboSize == old(uboSize)[usage := Align256(size)]
      ensures counts == old(counts).(cbvCount := Wrap(old(counts).cbvCount + 1))
      ensures ssbo == old(ssbo) && heapCreated == old(heapCreated) && heapSize == old(heapSize)
      ensures old(IndicesBelowCounts()) && old(counts.cbvCount) + 1 < U32_LIMIT ==> IndicesBelowCounts()
    {
      var alignedSize := Align256(size);
      for i := 0 to FRAME_COUNT
        invariant uboSize == if i == 0 then old(uboSize) else old(uboSize)[usage := alignedSize]
        invariant counts == old(counts) && ssbo == old(ssbo)
        invariant heapCreated == old(heapCreated) && heapSize == old(heapSize)
      {
        uboSize := uboSize[usage := alignedSize];
      }
      counts := counts.(cbvCount := Wrap(counts.cbvCount + 1));
    }

    /**
     * `createSSBO`: frame i's buffer of this usage gets descriptor index
     * `cbvCount + srvCount + i`, and `FRAME_COUNT` shader-resource
     * descriptors are reserved.
     */
    method CreateSsbo(binding: nat, usage: int, size: u32)
      requires Valid()
      modifies this
      ensures Valid()
      ensures forall f | 0 <= f < FRAME_COUNT ::
                ssbo[f] == old(ssbo[f])[usage := SsboSlot(Wrap(Wrap(old(counts.cbvCount + counts.srvCount)) + f), size)]
      ensures counts == old(counts).(srvCount := Wrap(old(counts).srvCount + FRAME_COUNT))
      ensures uboSize == old(uboSize) && heapCreated == old(heapCreated) && heapSize == old(heapSize)
      ensures old(IndicesBelowCounts()) && old(counts.cbvCount + counts.srvCount) + FRAME_COUNT < U32_LIMIT ==>
                IndicesBelowCounts()
    {
      var start := Wrap(counts.cbvCount + counts.srvCount);
      for i := 0 to FRAME_COUNT
        invariant |ssbo| == FRAME_COUNT
        invariant forall f | 0 <= f < i :: ssbo[f] == old(ssbo[f])[usage := SsboSlot(Wrap(start + f), size)]
        invariant forall f | i <= f < FRAME_COUNT :: ssbo[f] == old(ssbo[f])
        invariant counts == old(counts) && uboSize == old(uboSize)
        invariant heapCreated == old(heapCreated) && heapSize == old(heapSize)
      {
        ssbo := ssbo[i := ssbo[i][usage := SsboSlot(Wrap(start + i), size)]];
      }
      counts := counts.(srvCount := Wrap(counts.srvCount + FRAME_COUNT));
    }

    /** `createDescriptorHeaps`: sizes the heap from the counts, the first time only. */
    method CreateDescriptorHeaps()
      modifies this
      ensures heapCreated
      ensures heapSize == if old(heapCreated) then old(heapSize) else HeapSize(counts)
      ensures counts == old(counts) && uboSize == old(uboSize) && ssbo == old(ssbo)
    {
      if heapCreated {
        return;
      }
      heapCreated := true;
      heapSize := HeapSize(counts);
    }
  }
}
