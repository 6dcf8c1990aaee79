/** Bytes as small numbers, and integers as little-endian bytes. */
module Octets {
  type Byte = n: nat | n < 0x100

  const BYTE: nat := 0x100
  const U16: nat := 0x1_0000
  const U32: nat := 0x1_0000_0000
  const U64: nat := 0x1_0000_0000_0000_0000

  // Widths as named constants, so that the recursive functions stay folded.
  const TWO: nat := 2
  const FOUR: nat := 4
  const EIGHT: nat := 8

  function Power256(n: nat): nat {
    if n == 0 then 1 else BYTE * Power256(n - 1)
  }

  function LittleEndian(n: nat, width: nat): (bytes: seq<Byte>)
    ensures |bytes| == width
  {
    if width == 0 then [] else [n % BYTE] + LittleEndian(n / BYTE, width - 1)
  }

  function FromLittleEndian(bytes: seq<Byte>): nat {
    if bytes == [] then 0 else bytes[0] + BYTE * FromLittleEndian(bytes[1..])
  }

  lemma {:induction false} LittleEndianRoundTrip(n: nat, width: nat)
    requires n < Power256(width)
    ensures FromLittleEndian(LittleEndian(n, width)) == n
    decreases width
  {
    if width == 0 {
    } else {
      LittleEndianRoundTrip(n / BYTE, width - 1);
    }
  }

  lemma Widths()
    ensures Power256(TWO) == U16 && Power256(FOUR) == U32 && Power256(EIGHT) == U64
  {
    assert Power256(2) == U16;
    assert Power256(4) == U16 * U16;
    assert Power256(8) == U32 * U32;
  }

  /** The integer of `width` bytes at `offset`. */
  function FieldAt(blob: seq<Byte>, offset: nat, width: nat): nat
    requires offset + width <= |blob|
  {
    FromLittleEndian(blob[offset..offset + width])
  }

  /** A field written at a known place is read back. */
  lemma FieldReads(blob: seq<Byte>, before: seq<Byte>, n: nat, width: nat, after: seq<Byte>)
    requires blob == before + LittleEndian(n, width) + after && n < Power256(width)
    ensures |before| + width <= |blob| && FieldAt(blob, |before|, width) == n
  {
    assert blob[|before|..|before| + width] == LittleEndian(n, width);
    LittleEndianRoundTrip(n, width);
  }

  /** The bytes of an integer that fits are its base-256 digits. */
  lemma FourDigits(n: nat)
    ensures LittleEndian(n, FOUR) == [n % 0x100, n / 0x100 % 0x100, n / 0x1_0000 % 0x100, n / 0x100_0000 % 0x100]
  {
    hide LittleEndian;
    var a, b, c := n / BYTE, n / BYTE / BYTE, n / BYTE / BYTE / BYTE;
    assert b == n / 0x1_0000 && c == n / 0x100_0000;
    FirstDigit(n, 4);
    FirstDigit(a, 3);
    FirstDigit(b, 2);
    FirstDigit(c, 1);
  }

  lemma FirstDigit(n: nat, width: nat)
    requires width > 0
    ensures LittleEndian(n, width) == [n % BYTE] + LittleEndian(n / BYTE, width - 1)
    ensures LittleEndian(n, 0) == []
  {
  }
}
