/** Bytes, and UTF-8 sequences as the source computes them with shifts and masks. */
module Bytes {
  type Byte = b: int | 0 <= b < 256

  /** The bytes of an ASCII text. */
  function Ascii(s: string): (b: seq<Byte>)
    requires forall i :: 0 <= i < |s| ==> s[i] as int < 128
    ensures |b| == |s|
  {
    seq(|s|, i requires 0 <= i < |s| => s[i] as int)
  }

  /**
   * `cp >> 6k` is `cp / 64^k`, `& 0x3F` is `% 64`, and or-ing a prefix whose
   * low bits are clear is adding it.
   */
  function Utf8(cp: nat): (b: seq<Byte>)
    requires cp < 0x110000
    ensures 1 <= |b| <= 4
  {
    if cp < 0x80 then [cp]
    else if cp < 0x800 then [0xC0 + cp / 64, 0x80 + cp % 64]
    else if cp < 0x10000 then [0xE0 + cp / 4096, 0x80 + cp / 64 % 64, 0x80 + cp % 64]
    else [0xF0 + cp / 262144, 0x80 + cp / 4096 % 64, 0x80 + cp / 64 % 64, 0x80 + cp % 64]
  }
}
