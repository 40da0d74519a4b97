/** Bytes, 512-byte blocks and the little-endian fields that overlay them. */
module Bytes {

  type byte = x: int | 0 <= x < 256

  const BLOCK_SIZE: nat := 512

  /** The contents of one device block. */
  type Block = s: seq<byte> | |s| == BLOCK_SIZE witness seq(BLOCK_SIZE, _ => 0)

  function ZeroBlock(): Block { seq(BLOCK_SIZE, _ => 0) }

  const ZERO_BLOCK: Block := ZeroBlock()

  predicate IsZeroBlock(b: Block) { forall i :: 0 <= i < BLOCK_SIZE ==> b[i] == 0 }

  /** `s` with the elements from index `at` on replaced by `t`. */
  function Overwrite(s: seq<byte>, at: nat, t: seq<byte>): (r: seq<byte>)
    requires at + |t| <= |s|
    ensures |r| == |s|
    ensures forall i :: 0 <= i < |s| ==> r[i] == if at <= i < at + |t| then t[i - at] else s[i]
  {
    s[..at] + t + s[at + |t|..]
  }

  /** A 16-bit little-endian field. */
  function GetU16(s: seq<byte>, at: nat): (v: nat)
    requires at + 2 <= |s|
    ensures v < 0x1_0000
  {
    var lo: int, hi: int := s[at], s[at + 1];
    lo + 0x100 * hi
  }

  /** The two bytes that storing `v` in a `uint16_t` leaves: wider values are cut. */
  function PutU16(v: nat): (r: seq<byte>)
    ensures |r| == 2
  {
    [v % 0x100, v / 0x100 % 0x100]
  }

  /** A 32-bit little-endian field. */
  function GetU32(s: seq<byte>, at: nat): (v: nat)
    requires at + 4 <= |s|
    ensures v < 0x1_0000_0000
  {
    GetU16(s, at) + 0x1_0000 * GetU16(s, at + 2)
  }

  function PutU32(v: nat): (r: seq<byte>)
    ensures |r| == 4
  {
    PutU16(v) + PutU16(v / 0x1_0000)
  }

  /** Storing a 16-bit field and reading it back gives the value modulo 2^16. */
  lemma U16RoundTrip(s: seq<byte>, at: nat, v: nat)
    requires at + 2 <= |s|
    ensures GetU16(Overwrite(s, at, PutU16(v)), at) == v % 0x1_0000
  {
    ByteDigits(v);
  }

  /** Storing a 32-bit field and reading it back gives the value modulo 2^32. */
  lemma U32RoundTrip(s: seq<byte>, at: nat, v: nat)
    requires at + 4 <= |s|
    ensures GetU32(Overwrite(s, at, PutU32(v)), at) == v % 0x1_0000_0000
  {
    var r := Overwrite(s, at, PutU32(v));
    assert r[at] == PutU16(v)[0] && r[at + 1] == PutU16(v)[1];
    assert r[at + 2] == PutU16(v / 0x1_0000)[0] && r[at + 3] == PutU16(v / 0x1_0000)[1];
    assert GetU16(r, at) == v % 0x1_0000 by { ByteDigits(v); }
    assert GetU16(r, at + 2) == v / 0x1_0000 % 0x1_0000 by { ByteDigits(v / 0x1_0000); }
    WordDigits(v);
  }

  /** Splitting a number into two base-256 digits loses nothing below 2^16. */
  lemma ByteDigits(v: nat)
    ensures v % 0x100 + 0x100 * (v / 0x100 % 0x100) == v % 0x1_0000
  {
    var q := v / 0x100;
    var q2, r2, r := q / 0x100, q % 0x100, v % 0x100;
    assert v == 0x1_0000 * q2 + (0x100 * r2 + r) && 0 <= 0x100 * r2 + r < 0x1_0000;
  }

  /** Splitting a number into two base-65536 digits loses nothing below 2^32. */
  lemma WordDigits(v: nat)
    ensures v % 0x1_0000 + 0x1_0000 * (v / 0x1_0000 % 0x1_0000) == v % 0x1_0000_0000
  {
    var q := v / 0x1_0000;
    var q2, r2, r := q / 0x1_0000, q % 0x1_0000, v % 0x1_0000;
    assert v == 0x1_0000_0000 * q2 + (0x1_0000 * r2 + r) && 0 <= 0x1_0000 * r2 + r < 0x1_0000_0000;
  }

  /** Cutting to 32 bits first does not change the low 28 bits. */
  lemma LowBits(v: nat)
    ensures v % 0x1_0000_0000 % 0x1000_0000 == v % 0x1000_0000
  {
    assert v == 0x1000_0000 * (16 * (v / 0x1_0000_0000)) + v % 0x1_0000_0000;
  }
}
