/** Fixed-width unsigned integers as they sit in a disk image, and their
    little-endian byte encodings (FAT stores every multi-byte field
    little-endian, whatever the host). */
module Bytes {

  type byte = x: int | 0 <= x < 0x100
  type u16 = x: int | 0 <= x < 0x1_0000
  type u32 = x: int | 0 <= x < 0x1_0000_0000

  /** The uint16_t whose little-endian bytes start at `off`. */
  function U16At(b: seq<byte>, off: nat): u16
    requires off + 2 <= |b|
  {
    b[off] as int + 0x100 * (b[off + 1] as int)
  }

  /** The uint32_t whose little-endian bytes start at `off`. */
  function U32At(b: seq<byte>, off: nat): u32
    requires off + 4 <= |b|
  {
    U16At(b, off) + 0x1_0000 * U16At(b, off + 2)
  }

  /** The two bytes a uint16_t occupies in memory on a little-endian machine. */
  function Le16(v: u16): (b: seq<byte>)
    ensures |b| == 2
  {
    [v % 0x100, v / 0x100]
  }

  /** The four bytes a uint32_t occupies in memory on a little-endian machine. */
  function Le32(v: u32): (b: seq<byte>)
    ensures |b| == 4
  {
    Le16(v % 0x1_0000) + Le16(v / 0x1_0000)
  }

  lemma Le16RoundTrip(v: u16)
    ensures U16At(Le16(v), 0) == v
  {
  }

  lemma U16RoundTrip(b: seq<byte>, off: nat)
    requires off + 2 <= |b|
    ensures Le16(U16At(b, off)) == b[off..off + 2]
  {
  }

  lemma Le32RoundTrip(v: u32)
    ensures U32At(Le32(v), 0) == v
  {
    var e := Le32(v);
    Le16RoundTrip(v % 0x1_0000);
    Le16RoundTrip(v / 0x1_0000);
    assert e[0..2] == Le16(v % 0x1_0000);
    assert U16At(e, 0) == U16At(Le16(v % 0x1_0000), 0);
    assert U16At(e, 2) == U16At(Le16(v / 0x1_0000), 0);
  }

  /** Splitting lo + 0x1_0000 * hi at 16 bits gives back lo and hi. */
  lemma Split16(lo: int, hi: int)
    requires 0 <= lo < 0x1_0000 && 0 <= hi < 0x1_0000
    ensures (lo + 0x1_0000 * hi) % 0x1_0000 == lo
    ensures (lo + 0x1_0000 * hi) / 0x1_0000 == hi
  {
  }

  lemma U32RoundTrip(b: seq<byte>, off: nat)
    requires off + 4 <= |b|
    ensures Le32(U32At(b, off)) == b[off..off + 4]
  {
    var lo: int, hi: int := U16At(b, off), U16At(b, off + 2);
    Split16(lo, hi);
    U16RoundTrip(b, off);
    U16RoundTrip(b, off + 2);
    assert Le32(lo + 0x1_0000 * hi) == Le16(lo) + Le16(hi);
    assert b[off..off + 4] == b[off..off + 2] + b[off + 2..off + 4];
  }
}
