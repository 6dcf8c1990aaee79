/**
 * Rendering a message as the bit stream of a USB Power Delivery packet (section 5.6 of the USB Power Delivery
 * Specification R3.x).
 */
module BmcEncoding {
  import opened Bits
  import opened Crc
  import opened Symbols
  import opened BitPacking
  import opened Octets

  /** PHY_BMC_ENCODED_MESSAGE_MAX_BODY_BYTES */
  const MAX_BODY_BYTES := 262

  const PREAMBLE_WORD: nat := 0xAAAA_AAAA

  type RawHeader = h: nat | h < 0x1_0000

  function Preamble(): seq<bool> {
    LowBits(PREAMBLE_WORD, 32) + LowBits(PREAMBLE_WORD, 32)
  }

  /** The bytes the CRC covers. */
  function Covered(header: RawHeader, body: seq<Byte>): seq<Byte> {
    [header % 256, header / 256] + body
  }

  /** Header, body and CRC. */
  function Packet(header: RawHeader, body: seq<Byte>): seq<Byte> {
    Covered(header, body) + RegisterBytes(Checksum(Covered(header, body)))
  }

  function FrameCodes(sop: SOPType, header: RawHeader, body: seq<Byte>): seq<nat> {
    KCodes(sop) + DataCodes(Packet(header, body)) + [EOP_5B]
  }

  /** Everything that goes on the wire. */
  function FrameBits(sop: SOPType, header: RawHeader, body: seq<Byte>): (bits: seq<bool>)
    ensures |bits| == 149 + 10 * |body|
  {
    Preamble() + CodeBits(FrameCodes(sop, header, body))
  }

  class BMCEncodedMessage {
    const rawBody: array<Byte>
    var sop: SOPType
    var header: RawHeader
    var rawBodyLength: nat
    var crc32: Register

    ghost predicate Valid()
      reads this`rawBodyLength
    {
      rawBody.Length == MAX_BODY_BYTES && rawBodyLength <= MAX_BODY_BYTES
    }

    ghost function Body(): seq<Byte>
      requires Valid()
      reads this`rawBodyLength, rawBody
    {
      rawBody[..rawBodyLength]
    }

    /** Copies as much of the message body as fits and sets the two header fields that depend on it. */
    constructor (sopType: SOPType, body: seq<Byte>, messageType: nat, numDataObjects: nat)
      ensures Valid() && fresh(rawBody)
      ensures sop == sopType
      ensures header == messageType % 32 + 0x1000 * (numDataObjects % 8)
      ensures Body() == body[..if |body| <= MAX_BODY_BYTES then |body| else MAX_BODY_BYTES]
    {
      var length := if |body| <= MAX_BODY_BYTES then |body| else MAX_BODY_BYTES;
      rawBody := new Byte[MAX_BODY_BYTES](i => 0);
      rawBodyLength := length;
      sop := sopType;
      header := messageType % 32 + 0x1000 * (numDataObjects % 8);
      crc32 := Zeros(32);
      new;
      for i := 0 to length
        invariant rawBody[..i] == body[..i] && rawBodyLength == length && sop == sopType
        invariant header == messageType % 32 + 0x1000 * (numDataObjects % 8)
      {
        rawBody[i] := body[i];
      }
    }

    /** The caller fills in the other header fields through the header reference. */
    method SetHeader(raw: RawHeader)
      modifies this`header
      ensures header == raw
    {
      header := raw;
    }

    method UpdateCRC(datum: Byte)
      modifies this`crc32
      ensures crc32 == UpdateByte(old(crc32), datum)
    {
      hide LowBits, Load, Xor;
      crc32 := Xor(crc32, Load(LowBits(datum, 8)));
      ghost var loaded := crc32;
      for i := 0 to 8
        invariant Steps(crc32, 8 - i) == Steps(loaded, 8)
      {
        if crc32[0] {
          crc32 := Xor(ShiftRight(crc32), Polynomial());
        } else {
          crc32 := ShiftRight(crc32);
        }
      }
    }

    /** Appends a byte that the CRC covers. */
    method SendCovered(packer: BitPacker, b: Byte, ghost codes: seq<nat>, ghost covered: seq<Byte>)
      requires |codes| + 2 * |covered| < 800
      requires packer.Valid() && Sent(packer, codes + DataCodes(covered)) && crc32 == Fold(AllOnes(), covered)
      modifies packer, packer.buffer, this`crc32
      ensures packer.Valid() && Sent(packer, codes + DataCodes(covered + [b]))
      ensures crc32 == Fold(AllOnes(), covered + [b])
    {
      SendByte(packer, b, codes, covered);
      FoldConcat(AllOnes(), covered, [b]);
      UpdateCRC(b);
    }

    /** Appends header and body, computing their CRC on the way. */
    method SendMessage(packer: BitPacker, ghost codes: seq<nat>)
      requires Valid() && packer.Valid() && Sent(packer, codes) && |codes| < 10
      modifies packer, packer.buffer, this`crc32
      ensures packer.Valid() && Sent(packer, codes + DataCodes(Covered(header, Body())))
      ensures crc32 == Fold(AllOnes(), Covered(header, Body()))
    {
      hide BitPacker.Valid, DataCodes, Sent, Fold;
      crc32 := AllOnes();
      NothingCovered();
      assert codes + DataCodes([]) == codes;
      SendCovered(packer, header % 256, codes, []);
      assert [] + [header % 256] == [header % 256];
      SendCovered(packer, header / 256, codes, [header % 256]);
      ghost var covered := Covered(header, []);
      assert [header % 256] + [header / 256] == covered;
      SendBody(packer, codes, covered);
    }

    /** Appends the body to the header sent before it. */
    method SendBody(packer: BitPacker, ghost codes: seq<nat>, ghost head: seq<Byte>)
      requires Valid() && packer.Valid() && |codes| < 10 && head == Covered(header, [])
      requires Sent(packer, codes + DataCodes(head)) && crc32 == Fold(AllOnes(), head)
      modifies packer, packer.buffer, this`crc32
      ensures packer.Valid() && Sent(packer, codes + DataCodes(Covered(header, Body())))
      ensures crc32 == Fold(AllOnes(), Covered(header, Body()))
    {
      hide BitPacker.Valid, DataCodes, Sent, Fold;
      ghost var covered := head;
      for i := 0 to rawBodyLength
        invariant packer.Valid() && covered == Covered(header, rawBody[..i])
        invariant Sent(packer, codes + DataCodes(covered)) && crc32 == Fold(AllOnes(), covered)
      {
        SendCovered(packer, rawBody[i], codes, covered);
        covered := covered + [rawBody[i]];
        assert rawBody[..i + 1] == rawBody[..i] + [rawBody[i]];
      }
    }

    /** The packed stream is the frame followed by zero padding, and its reported length the frame's. */
    method Encoded() returns (packer: BitPacker)
      requires Valid()
      modifies this`crc32
      ensures fresh(packer) && fresh(packer.buffer) && packer.Valid() && packer.bitsInCurrentWord == 0
      ensures exists pad :: 0 <= pad < 32 && packer.Written == FrameBits(sop, header, Body()) + Zeros(pad)
      ensures packer.totalBitsWritten == 149 + 10 * rawBodyLength
    {
      hide BitPacker.Valid, FrameBits, Body, Zeros;
      packer := new BitPacker();
      SendFrame(packer);
      packer.Flush();
    }

    /** Everything from the preamble to EOP. */
    method SendFrame(packer: BitPacker)
      requires Valid() && packer.Valid() && packer.Written == [] && packer.totalBitsWritten == 0
      modifies packer, packer.buffer, this`crc32
      ensures packer.Valid() && packer.Written == FrameBits(sop, header, Body())
      ensures packer.totalBitsWritten == 149 + 10 * rawBodyLength
    {
      hide BitPacker.Valid, Sent, KCodes, DataCodes, Packet, Covered, Fold, RegisterBytes, Complement, FrameBits;
      hide Body, Valid;
      SendPreamble(packer);
      ShortKCodes(sop);
      SendSOP(packer, KCodes(sop));
      ghost var covered := Covered(header, Body());
      SendMessage(packer, KCodes(sop));
      BodyLength();
      ShortPacket(header, Body());
      SendChecksum(packer, Complement(crc32), KCodes(sop), covered);
      ChecksumEndsPacket(header, Body(), crc32);
      SendCode(packer, EOP_5B, KCodes(sop) + DataCodes(Packet(header, Body())));
      SentFrame(packer, sop, header, Body());
    }

    lemma BodyLength()
      requires Valid()
      ensures |Body()| == rawBodyLength <= MAX_BODY_BYTES
    {
    }
  }

  /** The packer holds the preamble and these symbols, and has counted them. */
  ghost predicate Sent(packer: BitPacker, codes: seq<nat>)
    reads packer
  {
    && packer.Written == Preamble() + CodeBits(codes)
    && packer.totalBitsWritten == 64 + 5 * |codes| < 0x1_0000
  }

  lemma ShortKCodes(sop: SOPType)
    ensures |KCodes(sop)| == 4 && forall i :: 0 <= i < 4 ==> KCodes(sop)[i] < 32
  {
  }

  lemma ShortPacket(header: RawHeader, body: seq<Byte>)
    ensures |Covered(header, body)| == |body| + 2
    ensures |DataCodes(Packet(header, body))| == 12 + 2 * |body|
  {
  }

  lemma ChecksumEndsPacket(header: RawHeader, body: seq<Byte>, crc: Register)
    requires crc == Fold(AllOnes(), Covered(header, body))
    ensures Covered(header, body) + RegisterBytes(Complement(crc)) == Packet(header, body)
  {
    hide Fold, RegisterBytes, Complement, AllOnes;
  }

  /** The symbols of the whole frame are the frame. */
  lemma SentFrame(packer: BitPacker, sop: SOPType, header: RawHeader, body: seq<Byte>)
    requires Sent(packer, KCodes(sop) + DataCodes(Packet(header, body)) + [EOP_5B])
    ensures packer.Written == FrameBits(sop, header, body)
    ensures packer.totalBitsWritten == 149 + 10 * |body|
  {
    hide DataCodes, CodeBits, Packet, Preamble;
    ShortPacket(header, body);
  }

  lemma NothingCovered()
    ensures DataCodes([]) == [] && Fold(AllOnes(), []) == AllOnes()
  {
  }

  method SendPreamble(packer: BitPacker)
    requires packer.Valid() && packer.Written == [] && packer.totalBitsWritten == 0
    modifies packer, packer.buffer
    ensures packer.Valid() && Sent(packer, [])
  {
    packer.AddBits(PREAMBLE_WORD, 32);
    packer.AddBits(PREAMBLE_WORD, 32);
  }

  method SendCode(packer: BitPacker, code: nat, ghost codes: seq<nat>)
    requires packer.Valid() && Sent(packer, codes) && code < 32 && |codes| < 1000
    modifies packer, packer.buffer
    ensures packer.Valid() && Sent(packer, codes + [code])
  {
    hide BitPacker.Valid, LowBits, CodeBits;
    CodeBitsSnoc(codes, code);
    packer.AddBits(code, 5);
  }

  method SendSOP(packer: BitPacker, kCodes: seq<nat>)
    requires |kCodes| == 4 && forall i :: 0 <= i < 4 ==> kCodes[i] < 32
    requires packer.Valid() && Sent(packer, [])
    modifies packer, packer.buffer
    ensures packer.Valid() && Sent(packer, kCodes)
  {
    hide BitPacker.Valid, Sent;
    assert kCodes[..0] == [];
    for i := 0 to 4
      invariant packer.Valid() && Sent(packer, kCodes[..i])
    {
      SendCode(packer, kCodes[i], kCodes[..i]);
      assert kCodes[..i + 1] == kCodes[..i] + [kCodes[i]];
    }
    assert kCodes[..4] == kCodes;
  }

  /** Appends a byte's two symbols, low nibble first. */
  method SendByte(packer: BitPacker, b: Byte, ghost codes: seq<nat>, ghost data: seq<Byte>)
    requires packer.Valid() && Sent(packer, codes + DataCodes(data)) && |codes| + 2 * |data| < 900
    modifies packer, packer.buffer
    ensures packer.Valid() && Sent(packer, codes + DataCodes(data + [b]))
  {
    TablesInvert();
    DataCodesSnoc(codes, data, b);
    SendCode(packer, FOUR_TO_FIVE[b % 16], codes + DataCodes(data));
    SendCode(packer, FOUR_TO_FIVE[b / 16], codes + DataCodes(data) + [FOUR_TO_FIVE[b % 16]]);
  }

  method SendChecksum(packer: BitPacker, crcFinal: Register, ghost codes: seq<nat>, ghost covered: seq<Byte>)
    requires packer.Valid() && Sent(packer, codes + DataCodes(covered)) && |codes| + 2 * |covered| < 800
    modifies packer, packer.buffer
    ensures packer.Valid() && Sent(packer, codes + DataCodes(covered + RegisterBytes(crcFinal)))
  {
    hide *;
    var bytes := RegisterBytes(crcFinal);
    assert covered + bytes[..0] == covered;
    for i := 0 to 4
      invariant packer.Valid() && Sent(packer, codes + DataCodes(covered + bytes[..i]))
    {
      SendByte(packer, bytes[i], codes, covered + bytes[..i]);
      assert covered + bytes[..i + 1] == covered + bytes[..i] + [bytes[i]];
    }
    assert bytes[..4] == bytes;
  }
}
