/**
 * The CRC-32 of packets (section 5.6.2 of the USB Power Delivery Specification R3.x) and the errors it cannot
 * miss. A 32-bit register is kept as its bits, least significant first: `>> 1` drops the first bit and
 * adds a zero at the end, and XOR is bit by bit.
 */
module Crc {
  import opened Bits
  import opened Octets

  const WIDTH: nat := 32

  type Register = r: seq<bool> | |r| == WIDTH witness Zeros(WIDTH)

  /** The reflected form of the polynomial 0x04C11DB7. */
  const POLYNOMIAL: nat := 0xEDB8_8320

  function Polynomial(): Register {
    LowBits(POLYNOMIAL, WIDTH)
  }

  function AllOnes(): Register {
    seq(32, i => true)
  }

  function Xor(a: Register, b: Register): Register {
    seq(32, i requires 0 <= i < 32 => a[i] != b[i])
  }

  function Complement(a: Register): Register {
    Xor(a, AllOnes())
  }

  function ShiftRight(crc: Register): Register {
    crc[1..] + [false]
  }

  /** One step: shift out a bit and apply the polynomial if it was set. */
  function Step(crc: Register): Register {
    if crc[0] then Xor(ShiftRight(crc), Polynomial()) else ShiftRight(crc)
  }

  function Steps(crc: Register, n: nat): Register
    decreases n
  {
    if n == 0 then crc else Steps(Step(crc), n - 1)
  }

  /** A short run of bits as a register value. */
  function Load(bits: seq<bool>): Register
    requires |bits| <= 32
  {
    bits + Zeros(32 - |bits|)
  }

  function UpdateByte(crc: Register, datum: Byte): Register {
    Steps(Xor(crc, Load(LowBits(datum, 8))), 8)
  }

  function Fold(crc: Register, data: seq<Byte>): Register
    decreases data
  {
    if data == [] then crc else Fold(UpdateByte(crc, data[0]), data[1..])
  }

  function Checksum(data: seq<Byte>): Register {
    Complement(Fold(AllOnes(), data))
  }

  /** A register's bytes in transmission order, least significant first. */
  function RegisterBytes(r: Register): (bytes: seq<Byte>)
    ensures |bytes| == 4
  {
    [ByteAt(r, 0), ByteAt(r, 1), ByteAt(r, 2), ByteAt(r, 3)]
  }

  function ByteAt(r: Register, i: nat): Byte
    requires i < 4
  {
    ValueBound(r[8 * i..8 * i + 8]);
    Pow2Values();
    Value(r[8 * i..8 * i + 8])
  }

  function BytesRegister(a: Byte, b: Byte, c: Byte, d: Byte): Register {
    LowBits(a, 8) + LowBits(b, 8) + LowBits(c, 8) + LowBits(d, 8)
  }

  /** A packet of at least a header and a CRC whose last four bytes are the checksum of the rest. */
  predicate Validates(data: seq<Byte>) {
    var n := |data|;
    && n >= 6
    && Checksum(data[..n - 4]) == BytesRegister(data[n - 4], data[n - 3], data[n - 2], data[n - 1])
  }

  lemma PolynomialTopBit()
    ensures Polynomial()[31]
  {
    Pow2Values();
    TopBit(POLYNOMIAL, 31);
  }

  lemma {:induction false} TopBit(w: nat, n: nat)
    requires Pow2(n) <= w < 2 * Pow2(n)
    ensures LowBits(w, n + 1)[n]
  {
    if n == 0 {
    } else {
      TopBit(w / 2, n - 1);
    }
  }

  lemma RegisterBytesRoundTrip(r: Register)
    ensures var b := RegisterBytes(r); BytesRegister(b[0], b[1], b[2], b[3]) == r
  {
    LowBitsOfValue(r[0..8]);
    LowBitsOfValue(r[8..16]);
    LowBitsOfValue(r[16..24]);
    LowBitsOfValue(r[24..32]);
    assert r == r[0..8] + r[8..16] + r[16..24] + r[24..32];
  }

  /** Appending the checksum to two or more bytes makes a packet that validates. */
  lemma ChecksumValidates(data: seq<Byte>)
    requires |data| >= 2
    ensures Validates(data + RegisterBytes(Checksum(data)))
  {
    var packet := data + RegisterBytes(Checksum(data));
    assert packet[..|packet| - 4] == data;
    RegisterBytesRoundTrip(Checksum(data));
  }

  lemma {:induction false} FoldConcat(crc: Register, a: seq<Byte>, b: seq<Byte>)
    ensures Fold(crc, a + b) == Fold(Fold(crc, a), b)
    decreases a
  {
    if a == [] {
      assert a + b == b;
    } else {
      assert (a + b)[1..] == a[1..] + b;
      FoldConcat(UpdateByte(crc, a[0]), a[1..], b);
    }
  }

  // ----- The step as a linear, invertible map -----

  lemma StepLinear(a: Register, b: Register)
    ensures Step(Xor(a, b)) == Xor(Step(a), Step(b))
  {
  }

  /** The polynomial's top bit records the bit shifted out, so a step loses nothing. */
  lemma StepInjective(a: Register, b: Register)
    requires Step(a) == Step(b)
    ensures a == b
  {
    StepBit(a, 31);
    StepBit(b, 31);
    PolynomialTopBit();
    forall i | 0 <= i < 32
      ensures a[i] == b[i]
    {
      if i > 0 {
        StepBit(a, i - 1);
        StepBit(b, i - 1);
      }
    }
  }

  lemma StepBit(a: Register, i: nat)
    requires i < 32
    ensures Step(a)[i] == ((i < 31 && a[i + 1]) != (a[0] && Polynomial()[i]))
  {
  }

  lemma {:induction false} StepsInjective(a: Register, b: Register, n: nat)
    requires Steps(a, n) == Steps(b, n)
    ensures a == b
    decreases n
  {
    if n == 0 {
    } else {
      StepsInjective(Step(a), Step(b), n - 1);
      StepInjective(a, b);
    }
  }

  // ----- The register bit by bit, in the order the bits are sent -----

  function FoldBits(crc: Register, bits: seq<bool>): Register
    decreases bits
  {
    if bits == [] then crc else FoldBits(Step(crc[0 := crc[0] != bits[0]]), bits[1..])
  }

  function MessageBits(data: seq<Byte>): (bits: seq<bool>)
    ensures |bits| == 8 * |data|
  {
    if data == [] then [] else LowBits(data[0], 8) + MessageBits(data[1..])
  }

  /** Feeding up to 32 bits one at a time is loading them at once and stepping as many times. */
  lemma {:induction false} FoldBitsIsLoad(crc: Register, bits: seq<bool>)
    requires |bits| <= 32
    ensures FoldBits(crc, bits) == Steps(Xor(crc, Load(bits)), |bits|)
    decreases bits
  {
    if bits == [] {
      assert Xor(crc, Load([])) == crc;
    } else {
      var next := Step(crc[0 := crc[0] != bits[0]]);
      FoldBitsIsLoad(next, bits[1..]);
      LoadStep(crc, bits);
    }
  }

  lemma LoadStep(crc: Register, bits: seq<bool>)
    requires 1 <= |bits| <= 32
    ensures Step(Xor(crc, Load(bits))) == Xor(Step(crc[0 := crc[0] != bits[0]]), Load(bits[1..]))
  {
    var x, y := Xor(crc, Load(bits)), crc[0 := crc[0] != bits[0]];
    assert x[0] == y[0];
    forall i | 0 <= i < 32
      ensures ShiftRight(x)[i] == (ShiftRight(y)[i] != Load(bits[1..])[i])
    {
      if i < 31 {
        assert x[i + 1] == (y[i + 1] != Load(bits)[i + 1]);
      }
    }
  }

  lemma {:induction false} FoldBitsConcat(crc: Register, a: seq<bool>, b: seq<bool>)
    ensures FoldBits(crc, a + b) == FoldBits(FoldBits(crc, a), b)
    decreases a
  {
    if a == [] {
      assert a + b == b;
    } else {
      assert (a + b)[1..] == a[1..] + b;
      FoldBitsConcat(Step(crc[0 := crc[0] != a[0]]), a[1..], b);
    }
  }

  /** The byte-wise computation is the bit-wise one on the bits as they are sent. */
  lemma {:induction false} FoldIsFoldBits(crc: Register, data: seq<Byte>)
    ensures Fold(crc, data) == FoldBits(crc, MessageBits(data))
    decreases data
  {
    if data == [] {
    } else {
      FoldBitsIsLoad(crc, LowBits(data[0], 8));
      FoldBitsConcat(crc, LowBits(data[0], 8), MessageBits(data[1..]));
      FoldIsFoldBits(UpdateByte(crc, data[0]), data[1..]);
    }
  }

  // ----- Validation as a residue -----

  /** What the register holds after a packet that validates, received CRC included. */
  function Residue(): Register {
    Steps(AllOnes(), WIDTH)
  }

  lemma FourBytes(a: Byte, b: Byte, c: Byte, d: Byte)
    ensures MessageBits([a, b, c, d]) == BytesRegister(a, b, c, d)
  {
    assert [a, b, c, d][1..] == [b, c, d];
    assert [b, c, d][1..] == [c, d];
    assert [c, d][1..] == [d];
    assert [d][1..] == [];
    assert MessageBits([d]) == LowBits(d, 8);
    assert MessageBits([c, d]) == LowBits(c, 8) + LowBits(d, 8);
    assert MessageBits([b, c, d]) == LowBits(b, 8) + (LowBits(c, 8) + LowBits(d, 8));
  }

  lemma FoldFourBytes(crc: Register, a: Byte, b: Byte, c: Byte, d: Byte)
    ensures Fold(crc, [a, b, c, d]) == Steps(Xor(crc, BytesRegister(a, b, c, d)), WIDTH)
  {
    var received := BytesRegister(a, b, c, d);
    FoldIsFoldBits(crc, [a, b, c, d]);
    FourBytes(a, b, c, d);
    FoldBitsIsLoad(crc, received);
    assert Load(received) == received;
  }

  /** A packet validates exactly when running every byte, CRC included, leaves one fixed residue. */
  lemma ValidatesIffResidue(data: seq<Byte>)
    requires |data| >= 6
    ensures Validates(data) <==> Fold(AllOnes(), data) == Residue()
  {
    hide Fold, Steps, Xor, Complement, BytesRegister;
    var k := |data| - 4;
    var crc, tail := Fold(AllOnes(), data[..k]), [data[k], data[k + 1], data[k + 2], data[k + 3]];
    var received := BytesRegister(data[k], data[k + 1], data[k + 2], data[k + 3]);
    assert data == data[..k] + tail;
    FoldConcat(AllOnes(), data[..k], tail);
    FoldFourBytes(crc, data[k], data[k + 1], data[k + 2], data[k + 3]);
    ComplementMatches(crc, received);
    if Fold(AllOnes(), data) == Residue() {
      StepsInjective(Xor(crc, received), AllOnes(), WIDTH);
    }
  }

  lemma ComplementMatches(crc: Register, received: Register)
    ensures Complement(crc) == received <==> Xor(crc, received) == AllOnes()
  {
    if Xor(crc, received) == AllOnes() {
      forall i | 0 <= i < 32
        ensures Complement(crc)[i] == received[i]
      {
        assert Xor(crc, received)[i];
      }
    }
  }

  // ----- Bursts -----

  /** Where two equally long bit sequences differ. */
  function Difference(a: seq<bool>, b: seq<bool>): (d: seq<bool>)
    requires |a| == |b|
    ensures |d| == |a|
  {
    seq(|a|, i requires 0 <= i < |a| => a[i] != b[i])
  }

  lemma {:induction false} FoldBitsLinear(x: Register, y: Register, a: seq<bool>, b: seq<bool>)
    requires |a| == |b|
    ensures Xor(FoldBits(x, a), FoldBits(y, b)) == FoldBits(Xor(x, y), Difference(a, b))
    decreases a
  {
    if a == [] {
    } else {
      var u, v := x[0 := x[0] != a[0]], y[0 := y[0] != b[0]];
      var z := Xor(x, y);
      assert Xor(u, v) == z[0 := z[0] != Difference(a, b)[0]];
      StepLinear(u, v);
      FoldBitsLinear(Step(u), Step(v), a[1..], b[1..]);
      assert Difference(a, b)[1..] == Difference(a[1..], b[1..]);
    }
  }

  predicate AllZero(bits: seq<bool>) {
    forall i :: 0 <= i < |bits| ==> !bits[i]
  }

  lemma {:induction false} FoldZeros(crc: Register, bits: seq<bool>)
    requires AllZero(bits)
    ensures FoldBits(crc, bits) == Steps(crc, |bits|)
    decreases bits
  {
    if bits == [] {
    } else {
      assert crc[0 := crc[0] != bits[0]] == crc;
      FoldZeros(Step(crc), bits[1..]);
    }
  }

  lemma {:induction false} StepsOfZero(n: nat)
    ensures Steps(Zeros(WIDTH), n) == Zeros(WIDTH)
  {
    if n == 0 {
    } else {
      assert Step(Zeros(WIDTH)) == Zeros(WIDTH);
      StepsOfZero(n - 1);
    }
  }

  /** A nonzero error confined to 32 consecutive bits never leaves the register at zero. */
  lemma BurstIsSeen(before: seq<bool>, burst: seq<bool>, after: seq<bool>)
    requires |burst| <= 32 && AllZero(before) && AllZero(after)
    requires FoldBits(Zeros(WIDTH), before + burst + after) == Zeros(WIDTH)
    ensures AllZero(burst)
  {
    var zero := Zeros(WIDTH);
    FoldBitsConcat(zero, before + burst, after);
    FoldBitsConcat(zero, before, burst);
    FoldZeros(zero, before);
    StepsOfZero(|before|);
    FoldZeros(FoldBits(zero, burst), after);
    StepsOfZero(|after|);
    StepsInjective(FoldBits(zero, burst), zero, |after|);
    BurstLoads(burst);
  }

  lemma BurstLoads(burst: seq<bool>)
    requires |burst| <= 32 && FoldBits(Zeros(WIDTH), burst) == Zeros(WIDTH)
    ensures AllZero(burst)
  {
    FoldBitsIsLoad(Zeros(WIDTH), burst);
    assert Xor(Zeros(WIDTH), Load(burst)) == Load(burst);
    StepsOfZero(|burst|);
    StepsInjective(Load(burst), Zeros(WIDTH), |burst|);
    forall i | 0 <= i < |burst|
      ensures !burst[i]
    {
      assert burst[i] == Load(burst)[i];
    }
  }

  lemma {:induction false} MessageBitsInjective(a: seq<Byte>, b: seq<Byte>)
    requires |a| == |b| && MessageBits(a) == MessageBits(b)
    ensures a == b
  {
    if a == [] {
    } else {
      var x, y := MessageBits(a), MessageBits(b);
      assert x[..8] == LowBits(a[0], 8) && y[..8] == LowBits(b[0], 8);
      assert x[8..] == MessageBits(a[1..]) && y[8..] == MessageBits(b[1..]);
      ByteOfBits(a[0]);
      ByteOfBits(b[0]);
      MessageBitsInjective(a[1..], b[1..]);
      assert a == [a[0]] + a[1..] && b == [b[0]] + b[1..];
    }
  }

  lemma ByteOfBits(b: Byte)
    ensures Value(LowBits(b, 8)) == b
  {
    ValueOfLowBits(b, 8);
    Pow2Values();
  }

  /**
   * Two packets of one length that both validate never differ inside only 32 consecutive bits, whatever
   * the length and the position, byte-aligned or not.
   */
  lemma NoUndetectedBurst(a: seq<Byte>, b: seq<Byte>, at: nat, length: nat)
    requires |a| == |b| && at + length <= 8 * |a| && length <= 32
    ensures Validates(a) && Validates(b) && DifferOnlyWithin(a, b, at, length) ==> a == b
  {
    hide Validates;
    if Validates(a) && Validates(b) && DifferOnlyWithin(a, b, at, length) {
      BurstIsDetected(a, b, at, length);
    }
  }

  /** Outside the `length` bits from `at` on, the two are the same on the wire. */
  predicate DifferOnlyWithin(a: seq<Byte>, b: seq<Byte>, at: nat, length: nat)
    requires |a| == |b| && at + length <= 8 * |a|
  {
    MessageBits(a)[..at] == MessageBits(b)[..at] && MessageBits(a)[at + length..] == MessageBits(b)[at + length..]
  }

  lemma BurstIsDetected(a: seq<Byte>, b: seq<Byte>, at: nat, length: nat)
    requires |a| == |b| && Validates(a) && Validates(b)
    requires length <= 32 && at + length <= 8 * |a| && DifferOnlyWithin(a, b, at, length)
    ensures a == b
  {
    hide Validates, FoldBits;
    var x, y := MessageBits(a), MessageBits(b);
    var error := Difference(x, y);
    ErrorFoldsToZero(a, b);
    EqualMeansNoDifference(x, y, 0, at);
    EqualMeansNoDifference(x, y, at + length, |x|);
    ShortErrorIsZero(error, at, at + length);
    NoDifferenceMeansEqual(x, y);
    MessageBitsInjective(a, b);
  }

  lemma ShortErrorIsZero(error: seq<bool>, from: nat, to: nat)
    requires from <= to <= |error| && to - from <= 32
    requires AllZero(error[..from]) && AllZero(error[to..])
    requires FoldBits(Zeros(WIDTH), error) == Zeros(WIDTH)
    ensures AllZero(error)
  {
    assert error == error[..from] + error[from..to] + error[to..];
    BurstIsSeen(error[..from], error[from..to], error[to..]);
    ZeroInThreeParts(error, from, to);
  }

  lemma NoDifferenceMeansEqual(x: seq<bool>, y: seq<bool>)
    requires |x| == |y| && AllZero(Difference(x, y))
    ensures x == y
  {
    forall i | 0 <= i < |x|
      ensures x[i] == y[i]
    {
      assert !Difference(x, y)[i];
    }
  }

  lemma ZeroInThreeParts(bits: seq<bool>, from: nat, to: nat)
    requires from <= to <= |bits|
    requires AllZero(bits[..from]) && AllZero(bits[from..to]) && AllZero(bits[to..])
    ensures AllZero(bits)
  {
    forall i | 0 <= i < |bits|
      ensures !bits[i]
    {
      if i < from {
        assert !bits[..from][i];
      } else if i < to {
        assert !bits[from..to][i - from];
      } else {
        assert !bits[to..][i - to];
      }
    }
  }

  lemma EqualMeansNoDifference(x: seq<bool>, y: seq<bool>, from: nat, to: nat)
    requires |x| == |y| && from <= to <= |x| && x[from..to] == y[from..to]
    ensures AllZero(Difference(x, y)[from..to])
  {
    forall i | 0 <= i < to - from
      ensures !Difference(x, y)[from..to][i]
    {
      assert x[from..to][i] == y[from..to][i];
    }
  }

  lemma ErrorFoldsToZero(a: seq<Byte>, b: seq<Byte>)
    requires |a| == |b| && Validates(a) && Validates(b)
    ensures FoldBits(Zeros(WIDTH), Difference(MessageBits(a), MessageBits(b))) == Zeros(WIDTH)
  {
    ValidatesIffResidue(a);
    ValidatesIffResidue(b);
    FoldIsFoldBits(AllOnes(), a);
    FoldIsFoldBits(AllOnes(), b);
    FoldBitsLinear(AllOnes(), AllOnes(), MessageBits(a), MessageBits(b));
    assert Xor(AllOnes(), AllOnes()) == Zeros(WIDTH);
    assert Xor(Residue(), Residue()) == Zeros(WIDTH);
  }
}
