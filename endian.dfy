/**
 * Byte-order conversions of include/xcp-ng/generic/endian.h.
 *
 * The unsigned swaps are the header's mask-and-shift expressions on
 * bit-vectors.  A C `intN_t` is modelled by its two's-complement bit pattern
 * (`Int16`, `Int32`, `Int64`), so the casts between `intN_t` and `uintN_t`
 * that the signed variants perform reinterpret the bits, as they do with the
 * compilers the header accepts.  The header accepts only x86 targets, so the
 * host byte order is fixed to little-endian; a load of N bytes from memory is
 * then `LoadLe16/32/64` of those bytes.
 */
module XcpEndian {
  import opened Wrappers

  datatype ByteOrder = LittleEndian | BigEndian

  /** `XCP_BYTE_ORDER` on every target the header accepts. */
  const HostByteOrder: ByteOrder := LittleEndian

  /** An `int16_t`, held as its bit pattern. */
  datatype Int16 = Int16(bits: bv16) {
    function Value(): (v: int)
      ensures -0x8000 <= v < 0x8000
      ensures v < 0 <==> bits >= 0x8000
      ensures (v - bits as int) % 0x1_0000 == 0
    {
      var u := bits as int;
      assert u < 0x1_0000;
      assert bits < 0x8000 <==> u < 0x8000;
      if u < 0x8000 then u else u - 0x1_0000
    }
  }

  /** An `int32_t`, held as its bit pattern. */
  datatype Int32 = Int32(bits: bv32) {
    function Value(): (v: int)
      ensures -0x8000_0000 <= v < 0x8000_0000
      ensures v < 0 <==> bits >= 0x8000_0000
      ensures (v - bits as int) % 0x1_0000_0000 == 0
    {
      var u := bits as int;
      assert u < 0x1_0000_0000;
      assert bits < 0x8000_0000 <==> u < 0x8000_0000;
      if u < 0x8000_0000 then u else u - 0x1_0000_0000
    }
  }

  /** An `int64_t`, held as its bit pattern. */
  datatype Int64 = Int64(bits: bv64) {
    function Value(): (v: int)
      ensures -0x8000_0000_0000_0000 <= v < 0x8000_0000_0000_0000
      ensures v < 0 <==> bits >= 0x8000_0000_0000_0000
      ensures (v - bits as int) % 0x1_0000_0000_0000_0000 == 0
    {
      var u := bits as int;
      Bv64Bound(bits);
      SignBit64(bits);
      if u < 0x8000_0000_0000_0000 then u else u - 0x1_0000_0000_0000_0000
    }
  }

  lemma {:induction false} Bv64Bound(x: bv64)
    ensures 0 <= x as int < 0x1_0000_0000_0000_0000
  {
  }

  /** The sign bit of a 64-bit pattern is set iff its unsigned reading is at least 2^63. */
  lemma {:induction false} SignBit64(x: bv64)
    ensures x >= 0x8000_0000_0000_0000 <==> x as int >= 0x8000_0000_0000_0000
  {
    if x >= 0x8000_0000_0000_0000 {
      SignBitSet(x);
    } else {
      SignBitClear(x);
    }
  }

  lemma {:induction false} SignBitSet(x: bv64)
    requires x >= 0x8000_0000_0000_0000
    ensures x as int >= 0x8000_0000_0000_0000
  {
  }

  lemma {:induction false} SignBitClear(x: bv64)
    requires x < 0x8000_0000_0000_0000
    ensures x as int < 0x8000_0000_0000_0000
  {
    var low := x as bv63;
    assert low as int < 0x8000_0000_0000_0000;
  }

  // ---------------------------------------------------------------------------
  // Byte `i` of a value, byte 0 being the least significant one.

  function Byte16(x: bv16, i: nat): bv16
    requires i < 2
  {
    (if i == 0 then x else x >> 8) & 0xFF
  }

  function Byte32(x: bv32, i: nat): bv32
    requires i < 4
  {
    var s := if i == 0 then x else if i == 1 then x >> 8
             else if i == 2 then x >> 16 else x >> 24;
    s & 0xFF
  }

  function Byte64(x: bv64, i: nat): bv64
    requires i < 8
  {
    var s := if i == 0 then x else if i == 1 then x >> 8
             else if i == 2 then x >> 16 else if i == 3 then x >> 24
             else if i == 4 then x >> 32 else if i == 5 then x >> 40
             else if i == 6 then x >> 48 else x >> 56;
    s & 0xFF
  }

  // ---------------------------------------------------------------------------
  // Loads of bytes laid out in memory, `b[0]` at the lowest address.

  function LoadLe16(b: seq<bv8>): bv16
    requires |b| == 2
  {
    (b[0] as bv16) | ((b[1] as bv16) << 8)
  }

  function LoadBe16(b: seq<bv8>): bv16
    requires |b| == 2
  {
    (b[1] as bv16) | ((b[0] as bv16) << 8)
  }

  function LoadLe32(b: seq<bv8>): bv32
    requires |b| == 4
  {
    (b[0] as bv32) | ((b[1] as bv32) << 8) | ((b[2] as bv32) << 16) | ((b[3] as bv32) << 24)
  }

  function LoadBe32(b: seq<bv8>): bv32
    requires |b| == 4
  {
    (b[3] as bv32) | ((b[2] as bv32) << 8) | ((b[1] as bv32) << 16) | ((b[0] as bv32) << 24)
  }

  function LoadLe64(b: seq<bv8>): bv64
    requires |b| == 8
  {
    (b[0] as bv64) | ((b[1] as bv64) << 8) | ((b[2] as bv64) << 16) | ((b[3] as bv64) << 24)
    | ((b[4] as bv64) << 32) | ((b[5] as bv64) << 40) | ((b[6] as bv64) << 48) | ((b[7] as bv64) << 56)
  }

  function LoadBe64(b: seq<bv8>): bv64
    requires |b| == 8
  {
    (b[7] as bv64) | ((b[6] as bv64) << 8) | ((b[5] as bv64) << 16) | ((b[4] as bv64) << 24)
    | ((b[3] as bv64) << 32) | ((b[2] as bv64) << 40) | ((b[1] as bv64) << 48) | ((b[0] as bv64) << 56)
  }

  /** What a native load of `b` yields on a host of byte order `order`. */
  function Load16(b: seq<bv8>, order: ByteOrder): bv16
    requires |b| == 2
  {
    if order == LittleEndian then LoadLe16(b) else LoadBe16(b)
  }

  function Load32(b: seq<bv8>, order: ByteOrder): bv32
    requires |b| == 4
  {
    if order == LittleEndian then LoadLe32(b) else LoadBe32(b)
  }

  function Load64(b: seq<bv8>, order: ByteOrder): bv64
    requires |b| == 8
  {
    if order == LittleEndian then LoadLe64(b) else LoadBe64(b)
  }

  // ---------------------------------------------------------------------------
  // Swaps (endian.h:42-74).

  /** `xcp_swap_endian_u16`: the two bytes trade places. */
  function SwapU16(src: bv16): (r: bv16)
    ensures Byte16(r, 0) == Byte16(src, 1) && Byte16(r, 1) == Byte16(src, 0)
  {
    ((src & 0x00FF) << 8) | ((src & 0xFF00) >> 8)
  }

  /** `xcp_swap_endian_16`: the unsigned swap on the bit pattern. */
  function Swap16(src: Int16): (r: Int16)
    ensures Byte16(r.bits, 0) == Byte16(src.bits, 1) && Byte16(r.bits, 1) == Byte16(src.bits, 0)
  {
    Int16(SwapU16(src.bits))
  }

  /** `xcp_swap_endian_u32`; `SwapU32Bytes` says what it computes. */
  function SwapU32(src: bv32): bv32
  {
    ((src & 0x000000FF) << 24) |
    ((src & 0x0000FF00) << 8) |
    ((src & 0x00FF0000) >> 8) |
    ((src & 0xFF000000) >> 24)
  }

  /** `xcp_swap_endian_32`. */
  function Swap32(src: Int32): Int32
  {
    Int32(SwapU32(src.bits))
  }

  /** `xcp_swap_endian_u64`; `SwapU64Bytes` says what it computes. */
  function SwapU64(src: bv64): bv64
  {
    ((src & 0x00000000000000FF) << 56) |
    ((src & 0x000000000000FF00) << 40) |
    ((src & 0x0000000000FF0000) << 24) |
    ((src & 0x00000000FF000000) << 8) |
    ((src & 0x000000FF00000000) >> 8) |
    ((src & 0x0000FF0000000000) >> 24) |
    ((src & 0x00FF000000000000) >> 40) |
    ((src & 0xFF00000000000000) >> 56)
  }

  /** `xcp_swap_endian_64`. */
  function Swap64(src: Int64): Int64
  {
    Int64(SwapU64(src.bits))
  }

  lemma {:induction false} SwapU32Bytes(src: bv32)
    ensures forall i :: 0 <= i < 4 ==> Byte32(SwapU32(src), i) == Byte32(src, 3 - i)
  {
  }

  lemma {:induction false} SwapU64Bytes(src: bv64)
    ensures forall i :: 0 <= i < 8 ==> Byte64(SwapU64(src), i) == Byte64(src, 7 - i)
  {
  }

  lemma {:induction false} Swap32Bytes(src: Int32)
    ensures forall i :: 0 <= i < 4 ==> Byte32(Swap32(src).bits, i) == Byte32(src.bits, 3 - i)
  {
    SwapU32Bytes(src.bits);
  }

  lemma {:induction false} Swap64Bytes(src: Int64)
    ensures forall i :: 0 <= i < 8 ==> Byte64(Swap64(src).bits, i) == Byte64(src.bits, 7 - i)
  {
    SwapU64Bytes(src.bits);
  }

  lemma {:induction false} SwapU16Involution(x: bv16)
    ensures SwapU16(SwapU16(x)) == x
  {
  }

  lemma {:induction false} SwapU32Involution(x: bv32)
    ensures SwapU32(SwapU32(x)) == x
  {
  }

  lemma {:induction false} SwapU64Involution(x: bv64)
    ensures SwapU64(SwapU64(x)) == x
  {
  }

  lemma {:induction false} Swap16Involution(x: Int16)
    ensures Swap16(Swap16(x)) == x
  {
    SwapU16Involution(x.bits);
  }

  lemma {:induction false} Swap32Involution(x: Int32)
    ensures Swap32(Swap32(x)) == x
  {
    SwapU32Involution(x.bits);
  }

  lemma {:induction false} Swap64Involution(x: Int64)
    ensures Swap64(Swap64(x)) == x
  {
    SwapU64Involution(x.bits);
  }

  /** The swap turns a load in one byte order into a load in the other. */
  lemma {:induction false} SwapU16ReordersLoad(b: seq<bv8>)
    requires |b| == 2
    ensures SwapU16(LoadLe16(b)) == LoadBe16(b)
    ensures SwapU16(LoadBe16(b)) == LoadLe16(b)
  {
  }

  lemma {:induction false} SwapU32ReordersLoad(b: seq<bv8>)
    requires |b| == 4
    ensures SwapU32(LoadLe32(b)) == LoadBe32(b)
    ensures SwapU32(LoadBe32(b)) == LoadLe32(b)
  {
  }

  lemma {:induction false} SwapU64ReordersLoad(b: seq<bv8>)
    requires |b| == 8
    ensures SwapU64(LoadLe64(b)) == LoadBe64(b)
    ensures SwapU64(LoadBe64(b)) == LoadLe64(b)
  {
  }

  // ---------------------------------------------------------------------------
  // Conversions from little-endian (endian.h:78-112).

  function FromLeU16(src: bv16): bv16 {
    if HostByteOrder == BigEndian then SwapU16(src) else src
  }

  function FromLe16(src: Int16): Int16 {
    Int16(FromLeU16(src.bits))
  }

  function FromLeU32(src: bv32): bv32 {
    if HostByteOrder == BigEndian then SwapU32(src) else src
  }

  function FromLe32(src: Int32): Int32 {
    Int32(FromLeU32(src.bits))
  }

  function FromLeU64(src: bv64): bv64 {
    if HostByteOrder == BigEndian then SwapU64(src) else src
  }

  function FromLe64(src: Int64): Int64 {
    Int64(FromLeU64(src.bits))
  }

  // ---------------------------------------------------------------------------
  // Conversions from big-endian (endian.h:116-150).

  function FromBeU16(src: bv16): bv16 {
    if HostByteOrder == LittleEndian then SwapU16(src) else src
  }

  function FromBe16(src: Int16): Int16 {
    Int16(FromBeU16(src.bits))
  }

  function FromBeU32(src: bv32): bv32 {
    if HostByteOrder == LittleEndian then SwapU32(src) else src
  }

  function FromBe32(src: Int32): Int32 {
    Int32(FromBeU32(src.bits))
  }

  function FromBeU64(src: bv64): bv64 {
    if HostByteOrder == LittleEndian then SwapU64(src) else src
  }

  function FromBe64(src: Int64): Int64 {
    Int64(FromBeU64(src.bits))
  }

  /**
   * Reading N bytes natively and converting from little-endian yields the
   * little-endian interpretation of the bytes; converting from big-endian
   * yields the big-endian one.
   */
  lemma {:induction false} FromLeBeDecode16(b: seq<bv8>)
    requires |b| == 2
    ensures FromLeU16(Load16(b, HostByteOrder)) == LoadLe16(b)
    ensures FromBeU16(Load16(b, HostByteOrder)) == LoadBe16(b)
    ensures FromLe16(Int16(Load16(b, HostByteOrder))).bits == LoadLe16(b)
    ensures FromBe16(Int16(Load16(b, HostByteOrder))).bits == LoadBe16(b)
  {
    SwapU16ReordersLoad(b);
  }

  lemma {:induction false} FromLeBeDecode32(b: seq<bv8>)
    requires |b| == 4
    ensures FromLeU32(Load32(b, HostByteOrder)) == LoadLe32(b)
    ensures FromBeU32(Load32(b, HostByteOrder)) == LoadBe32(b)
    ensures FromLe32(Int32(Load32(b, HostByteOrder))).bits == LoadLe32(b)
    ensures FromBe32(Int32(Load32(b, HostByteOrder))).bits == LoadBe32(b)
  {
    SwapU32ReordersLoad(b);
  }

  lemma {:induction false} FromLeBeDecode64(b: seq<bv8>)
    requires |b| == 8
    ensures FromLeU64(Load64(b, HostByteOrder)) == LoadLe64(b)
    ensures FromBeU64(Load64(b, HostByteOrder)) == LoadBe64(b)
    ensures FromLe64(Int64(Load64(b, HostByteOrder))).bits == LoadLe64(b)
    ensures FromBe64(Int64(Load64(b, HostByteOrder))).bits == LoadBe64(b)
  {
    SwapU64ReordersLoad(b);
  }

  /** On this host `from_le` is the identity and `from_be` is the swap. */
  lemma {:induction false} FromLeBeOnHost(x16: bv16, x32: bv32, x64: bv64, a16: Int16, a32: Int32, a64: Int64)
    ensures FromLeU16(x16) == x16 && FromBeU16(x16) == SwapU16(x16)
    ensures FromLeU32(x32) == x32 && FromBeU32(x32) == SwapU32(x32)
    ensures FromLeU64(x64) == x64 && FromBeU64(x64) == SwapU64(x64)
    ensures FromLe16(a16) == a16 && FromBe16(a16) == Swap16(a16)
    ensures FromLe32(a32) == a32 && FromBe32(a32) == Swap32(a32)
    ensures FromLe64(a64) == a64 && FromBe64(a64) == Swap64(a64)
  {
  }

  // ---------------------------------------------------------------------------
  // In-place variants (endian.h:154-202): `*src` is overwritten with the
  // converted value, which is also returned.

  method FromLeU16P(src: Cell<bv16>) returns (r: bv16)
    modifies src
    ensures src.value == FromLeU16(old(src.value)) && r == src.value
  {
    src.value := FromLeU16(src.value);
    r := src.value;
  }

  method FromLe16P(src: Cell<Int16>) returns (r: Int16)
    modifies src
    ensures src.value == FromLe16(old(src.value)) && r == src.value
  {
    src.value := FromLe16(src.value);
    r := src.value;
  }

  method FromLeU32P(src: Cell<bv32>) returns (r: bv32)
    modifies src
    ensures src.value == FromLeU32(old(src.value)) && r == src.value
  {
    src.value := FromLeU32(src.value);
    r := src.value;
  }

  method FromLe32P(src: Cell<Int32>) returns (r: Int32)
    modifies src
    ensures src.value == FromLe32(old(src.value)) && r == src.value
  {
    src.value := FromLe32(src.value);
    r := src.value;
  }

  method FromLeU64P(src: Cell<bv64>) returns (r: bv64)
    modifies src
    ensures src.value == FromLeU64(old(src.value)) && r == src.value
  {
    src.value := FromLeU64(src.value);
    r := src.value;
  }

  method FromLe64P(src: Cell<Int64>) returns (r: Int64)
    modifies src
    ensures src.value == FromLe64(old(src.value)) && r == src.value
  {
    src.value := FromLe64(src.value);
    r := src.value;
  }

  method FromBeU16P(src: Cell<bv16>) returns (r: bv16)
    modifies src
    ensures src.value == FromBeU16(old(src.value)) && r == src.value
  {
    src.value := FromBeU16(src.value);
    r := src.value;
  }

  method FromBe16P(src: Cell<Int16>) returns (r: Int16)
    modifies src
    ensures src.value == FromBe16(old(src.value)) && r == src.value
  {
    src.value := FromBe16(src.value);
    r := src.value;
  }

  method FromBeU32P(src: Cell<bv32>) returns (r: bv32)
    modifies src
    ensures src.value == FromBeU32(old(src.value)) && r == src.value
  {
    src.value := FromBeU32(src.value);
    r := src.value;
  }

  method FromBe32P(src: Cell<Int32>) returns (r: Int32)
    modifies src
    ensures src.value == FromBe32(old(src.value)) && r == src.value
  {
    src.value := FromBe32(src.value);
    r := src.value;
  }

  method FromBeU64P(src: Cell<bv64>) returns (r: bv64)
    modifies src
    ensures src.value == FromBeU64(old(src.value)) && r == src.value
  {
    src.value := FromBeU64(src.value);
    r := src.value;
  }

  method FromBe64P(src: Cell<Int64>) returns (r: Int64)
    modifies src
    ensures src.value == FromBe64(old(src.value)) && r == src.value
  {
    src.value := FromBe64(src.value);
    r := src.value;
  }

  /** Two big-endian conversions in place restore the original value. */
  method FromBeU64PTwice(src: Cell<bv64>)
    modifies src
    ensures src.value == old(src.value)
  {
    var _ := FromBeU64P(src);
    var _ := FromBeU64P(src);
    SwapU64Involution(old(src.value));
  }
}
