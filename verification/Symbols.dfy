/**
 * The 4b5b line code and the start-of-packet ordered sets (section 5.3 of the USB Power Delivery Specification
 * R3.x).
 */
module Symbols {
  import opened Bits
  import opened Octets

  const INVALID_5B := 0xFF
  const EOP_5B := 0x0D

  const FOUR_TO_FIVE: seq<nat> := [
    0x1E, 0x09, 0x14, 0x15, 0x0A, 0x0B, 0x0E, 0x0F,
    0x12, 0x13, 0x16, 0x17, 0x1A, 0x1B, 0x1C, 0x1D
  ]

  const FIVE_TO_FOUR: seq<nat> := [
    0xFF, 0xFF, 0xFF, 0xFF, 0xFF, 0xFF, 0xFF, 0xFF,
    0xFF, 0x01, 0x04, 0x05, 0xFF, 0xFF, 0x06, 0x07,
    0xFF, 0xFF, 0x08, 0x09, 0x02, 0x03, 0x0A, 0x0B,
    0xFF, 0xFF, 0x0C, 0x0D, 0x0E, 0x0F, 0x00, 0xFF
  ]

  function Nibble(code: nat): nat {
    if code < 32 then FIVE_TO_FOUR[code] else INVALID_5B
  }

  /** The two tables are inverse to each other, and no data symbol is the end-of-packet code. */
  lemma TablesInvert()
    ensures forall n :: 0 <= n < 16 ==> FOUR_TO_FIVE[n] < 32 && FIVE_TO_FOUR[FOUR_TO_FIVE[n]] == n
    ensures forall n :: 0 <= n < 16 ==> FOUR_TO_FIVE[n] != EOP_5B
    ensures forall c :: 0 <= c < 32 && FIVE_TO_FOUR[c] != INVALID_5B ==>
      FIVE_TO_FOUR[c] < 16 && FOUR_TO_FIVE[FIVE_TO_FOUR[c]] == c
  {
  }

  /** The symbols of a byte, low nibble first. */
  function ByteCodes(b: Byte): seq<nat> {
    [FOUR_TO_FIVE[b % 16], FOUR_TO_FIVE[b / 16]]
  }

  function DataCodes(data: seq<Byte>): (codes: seq<nat>)
    ensures |codes| == 2 * |data|
  {
    if data == [] then [] else ByteCodes(data[0]) + DataCodes(data[1..])
  }

  /** Symbols in the order their bits are sent, least significant bit first. */
  function CodeBits(codes: seq<nat>): (bits: seq<bool>)
    ensures |bits| == 5 * |codes|
  {
    if codes == [] then [] else LowBits(codes[0], 5) + CodeBits(codes[1..])
  }

  lemma {:induction false} CodeBitsConcat(a: seq<nat>, b: seq<nat>)
    ensures CodeBits(a + b) == CodeBits(a) + CodeBits(b)
  {
    if a == [] {
      assert a + b == b;
    } else {
      assert (a + b)[1..] == a[1..] + b;
      CodeBitsConcat(a[1..], b);
    }
  }

  lemma {:induction false} DataCodesConcat(a: seq<Byte>, b: seq<Byte>)
    ensures DataCodes(a + b) == DataCodes(a) + DataCodes(b)
  {
    if a == [] {
      assert a + b == b;
    } else {
      assert (a + b)[1..] == a[1..] + b;
      DataCodesConcat(a[1..], b);
    }
  }

  lemma CodeBitsSnoc(codes: seq<nat>, code: nat)
    ensures CodeBits(codes + [code]) == CodeBits(codes) + LowBits(code, 5)
  {
    CodeBitsConcat(codes, [code]);
    assert [code][1..] == [];
  }

  lemma DataCodesSnoc(codes: seq<nat>, data: seq<Byte>, b: Byte)
    ensures codes + DataCodes(data + [b]) == codes + DataCodes(data) + [FOUR_TO_FIVE[b % 16]] + [FOUR_TO_FIVE[b / 16]]
  {
    DataCodesConcat(data, [b]);
    assert [b][1..] == [];
    assert DataCodes([b]) == ByteCodes(b);
  }

  // ----- Start-of-packet ordered sets -----

  const SYNC_1 := 0x18
  const SYNC_2 := 0x11
  const SYNC_3 := 0x06
  const RST_1 := 0x07
  const RST_2 := 0x19

  datatype SOPType = SOP | SOPPrime | SOPDoublePrime | SOPDebug | SOPPrimeDebug | SOPDoublePrimeDebug
    | HardReset | CableReset | Invalid

  /** The K-codes a message of this type is sent with; types without an ordered set get zeros. */
  function KCodes(t: SOPType): (codes: seq<nat>)
    ensures |codes| == 4 && forall i :: 0 <= i < 4 ==> codes[i] < 32
  {
    match t
    case SOP => [SYNC_1, SYNC_1, SYNC_1, SYNC_2]
    case SOPPrime => [SYNC_1, SYNC_1, SYNC_3, SYNC_3]
    case SOPDoublePrime => [SYNC_1, SYNC_3, SYNC_1, SYNC_3]
    case SOPPrimeDebug => [SYNC_1, RST_2, RST_2, SYNC_3]
    case SOPDoublePrimeDebug => [SYNC_1, RST_2, SYNC_3, SYNC_2]
    case HardReset => [RST_1, RST_1, RST_1, RST_2]
    case CableReset => [RST_1, SYNC_1, RST_1, SYNC_3]
    case SOPDebug => [0, 0, 0, 0]
    case Invalid => [0, 0, 0, 0]
  }

  /** How many of four received codes agree with an ordered set. */
  function Agreement(codes: seq<nat>, expected: seq<nat>): nat
    requires |codes| == 4 && |expected| == 4
  {
    (if codes[0] == expected[0] then 1 else 0) + (if codes[1] == expected[1] then 1 else 0)
    + (if codes[2] == expected[2] then 1 else 0) + (if codes[3] == expected[3] then 1 else 0)
  }

  predicate Accepts(codes: seq<nat>, t: SOPType)
    requires |codes| == 4
  {
    Agreement(codes, KCodes(t)) >= 3
  }

  /** Classification by at least three agreeing codes; the order of the tests settles ties. */
  function Classify(codes: seq<nat>): SOPType
    requires |codes| == 4
  {
    if Accepts(codes, SOP) then SOP
    else if Accepts(codes, SOPPrime) then SOPPrime
    else if Accepts(codes, SOPDoublePrime) then SOPDoublePrime
    else if Accepts(codes, SOPPrimeDebug) then SOPPrimeDebug
    else if Accepts(codes, SOPDoublePrimeDebug) then SOPDoublePrimeDebug
    else if Accepts(codes, HardReset) then HardReset
    else if Accepts(codes, CableReset) then CableReset
    else Invalid
  }

  /** Every type with an ordered set is recognised from it; the two without one read as Invalid. */
  lemma ClassifyInvertsKCodes(t: SOPType)
    ensures Classify(KCodes(t)) == if t.SOPDebug? then Invalid else t
  {
  }

  /** A hard reset is recognised in any codes agreeing with it in three places, and in no others. */
  lemma HardResetIffThreeAgree(codes: seq<nat>)
    requires |codes| == 4
    ensures Classify(codes) == HardReset <==> Agreement(codes, KCodes(HardReset)) >= 3
  {
  }
}
