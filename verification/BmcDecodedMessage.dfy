/**
 * Decoding the measured pulse widths of one packet (sections 5.6 and 5.8.1 of the USB Power Delivery
 * Specification R3.x). `Decoder` is the whole state of a message being received and `Feed` what one pulse
 * does to it; the class BMCDecodedMessage keeps the same state in fields and buffers and refines it.
 */
module BmcDecoding {
  import opened Bits
  import opened Crc
  import opened Symbols
  import opened Octets

  /**
   * PHY_BMC_DECODER_TIMEOUT_PULSE_WIDTH_NS and _RUNT_PULSE_WIDTH_NS at the 200 MHz PIO clock, two operations a
   * count.
   */
  const TIMEOUT_WIDTH := 1000
  const RUNT_WIDTH := 100

  const PREAMBLE_PULSES := 96
  /** PHY_BMC_DECODER_PREAMBLE_START_MIN_PULSES */
  const PREAMBLE_START_PULSES := 4
  /** PHY_BMC_DECODER_MAX_MESSAGE_DATA_SIZE */
  const MAX_DATA := 262
  /** PHY_BMC_DECODER_MAX_MESSAGE_PULSE_BUFFER_SIZE */
  const MAX_PULSES := 5600

  datatype Event = NoEvent | PreambleStart | SOPStart | HeaderStart | DataStart
    | MessageComplete | HardResetReceived
    | RuntPulseError | TimeoutBeforeStartError | TimeoutError | InvalidKCodeError | CRCError
  {
    predicate IsError() {
      RuntPulseError? || TimeoutBeforeStartError? || TimeoutError? || InvalidKCodeError? || CRCError?
    }

    predicate IsCompletion() {
      MessageComplete? || HardResetReceived? || IsError()
    }
  }

  datatype Result = Success | InvalidKCode | BadCRC | Timeout | RuntPulse | Incomplete

  datatype Phase = ReadingPreamble | ReadingSOP | ReadingData

  datatype Decoder = Decoder(
    result: Result,
    pulses: seq<nat>,
    phase: Phase,
    carrierSum: nat,
    carrierCount: nat,
    threshold: nat,
    code: nat,
    codeBits: nat,
    secondHalf: bool,
    sop: seq<nat>,
    data: seq<Byte>,
    lowNibble: nat,
    expectLow: bool)

  const RESET := Decoder(Incomplete, [], ReadingPreamble, 0, 0, 0, 0, 0, false, [], [], 0, true)

  /** The PIO counts down from the timeout, in 32-bit arithmetic. */
  function Width(raw: nat): nat
    requires raw < 0x1_0000_0000
  {
    if raw <= TIMEOUT_WIDTH then TIMEOUT_WIDTH - raw else 0x1_0000_0000 + TIMEOUT_WIDTH - raw
  }

  /** Two thirds of a ninety-sixth of the weighted preamble, each quotient rounded down. */
  function Threshold(carrierSum: nat): nat {
    carrierSum / 96 * 2 / 3
  }

  function Fail(d: Decoder, result: Result, event: Event): (Decoder, Event) {
    (d.(result := result), event)
  }

  /** The whole effect of one pulse of the given width. */
  function Feed(d: Decoder, width: nat): (Decoder, Event) {
    if |d.pulses| >= MAX_PULSES then
      Fail(d, InvalidKCode, InvalidKCodeError)
    else
      var e := d.(pulses := d.pulses + [width % 0x1_0000]);
      if width >= TIMEOUT_WIDTH then
        Fail(e, Timeout, if d.data == [] then TimeoutBeforeStartError else TimeoutError)
      else if width < RUNT_WIDTH then
        Fail(e, RuntPulse, RuntPulseError)
      else
        match d.phase
        case ReadingPreamble => FeedPreamble(e, width)
        case ReadingSOP => FeedSOP(e, width)
        case ReadingData => FeedData(e, width)
  }

  function FeedPreamble(d: Decoder, width: nat): (Decoder, Event) {
    var sum := d.carrierSum + (if d.carrierCount % 3 == 0 then 2 * width else width);
    var e := d.(carrierSum := sum, carrierCount := d.carrierCount + 1);
    if e.carrierCount == PREAMBLE_PULSES then
      (e.(phase := ReadingSOP, threshold := Threshold(sum)), SOPStart)
    else if e.carrierCount == PREAMBLE_START_PULSES then
      (e, PreambleStart)
    else
      (e, NoEvent)
  }

  /** Starts a new symbol if the last one is complete. */
  function FreshCode(d: Decoder): Decoder {
    if d.codeBits >= 5 then d.(code := 0, codeBits := 0) else d
  }

  /** Appends a bit to the symbol being read. */
  function AddBit(d: Decoder, bit: bool): Decoder {
    d.(code := d.code + (if bit then Pow2(d.codeBits) else 0), codeBits := d.codeBits + 1)
  }

  /** A short pulse announces a one, which the pulse after it completes; a long pulse is a zero. */
  function FeedBit(d: Decoder, width: nat): Decoder {
    var e := FreshCode(d);
    if e.secondHalf then AddBit(e, true).(secondHalf := false)
    else if width < e.threshold then e.(secondHalf := true)
    else AddBit(e, false)
  }

  function FeedSOP(d: Decoder, width: nat): (Decoder, Event) {
    var e := FeedBit(d, width);
    if e.codeBits == 5 then SOPCode(e) else (e, NoEvent)
  }

  /** A complete symbol while reading the start of packet. */
  function SOPCode(d: Decoder): (Decoder, Event) {
    var e := d.(sop := d.sop + [d.code]);
    if |e.sop| == 4 then
      if Classify(e.sop) == HardReset then
        (e.(result := Success), HardResetReceived)
      else
        (e.(phase := ReadingData), HeaderStart)
    else
      (e, NoEvent)
  }

  function FeedData(d: Decoder, width: nat): (Decoder, Event) {
    var e := FeedBit(d, width);
    if e.codeBits == 5 then DataCode(e) else (e, NoEvent)
  }

  /** A complete symbol while reading data. */
  function DataCode(d: Decoder): (Decoder, Event) {
    if d.code == EOP_5B then
      if Validates(d.data) then (d.(result := Success), MessageComplete)
      else Fail(d, BadCRC, CRCError)
    else if Nibble(d.code) == INVALID_5B then
      Fail(d, InvalidKCode, InvalidKCodeError)
    else
      DataNibble(d.(code := 0, codeBits := 0), Nibble(d.code))
  }

  function DataNibble(d: Decoder, nibble: nat): (Decoder, Event) {
    if d.expectLow then
      (d.(lowNibble := nibble, expectLow := false), NoEvent)
    else if |d.data| >= MAX_DATA then
      Fail(d, InvalidKCode, InvalidKCodeError)
    else
      var e := d.(data := d.data + [(d.lowNibble + 16 * nibble) % 256], expectLow := true);
      (e, if |e.data| == 2 && NumDataObjects(e.data) > 0 then DataStart else NoEvent)
  }

  /** The header is sent low byte first. */
  function HeaderOf(data: seq<Byte>): nat
    requires |data| >= 2
  {
    var low: nat, high: nat := data[0], data[1];
    low + 256 * high
  }

  /** Bits 14 to 12 of the header. */
  function NumDataObjects(data: seq<Byte>): nat
    requires |data| >= 2
  {
    HeaderOf(data) / 0x1000 % 8
  }

  // ----- Runs -----

  function After(d: Decoder, widths: seq<nat>): Decoder
    decreases widths
  {
    if widths == [] then d else After(Feed(d, widths[0]).0, widths[1..])
  }

  /** No pulse of the run completes the attempt. */
  predicate Quiet(d: Decoder, widths: seq<nat>)
    decreases widths
  {
    widths == [] || (!Feed(d, widths[0]).1.IsCompletion() && Quiet(Feed(d, widths[0]).0, widths[1..]))
  }

  /** The attempt starting from a reset decoder completes with `event` on the last pulse and not before. */
  predicate CompletesWith(widths: seq<nat>, event: Event) {
    && widths != []
    && event.IsCompletion()
    && Quiet(RESET, widths[..|widths| - 1])
    && Feed(After(RESET, widths[..|widths| - 1]), widths[|widths| - 1]).1 == event
  }

  lemma {:induction false} AfterConcat(d: Decoder, a: seq<nat>, b: seq<nat>)
    ensures After(d, a + b) == After(After(d, a), b)
    decreases a
  {
    if a == [] {
      assert a + b == b;
    } else {
      assert (a + b)[1..] == a[1..] + b;
      AfterConcat(Feed(d, a[0]).0, a[1..], b);
    }
  }

  lemma {:induction false} QuietConcat(d: Decoder, a: seq<nat>, b: seq<nat>)
    ensures Quiet(d, a + b) <==> Quiet(d, a) && Quiet(After(d, a), b)
    decreases a
  {
    if a == [] {
      assert a + b == b;
    } else {
      assert (a + b)[1..] == a[1..] + b;
      QuietConcat(Feed(d, a[0]).0, a[1..], b);
    }
  }

  // ----- The message object -----

  class BMCDecodedMessage {
    var result: Result
    var carrierPulseLength: nat
    var carrierPulseHighBitThreshold: nat
    const sop: array<nat>
    const data: array<Byte>
    var dataLength: nat
    const pulseBuffer: array<nat>
    var pulseBufferLength: nat

    var state: Phase
    var carrierAccumulator: nat
    var carrierEntryCount: nat
    var kCodeAccumulator: nat
    var kCodeBitCount: nat
    var skipNextPulse: bool
    var sopIndex: nat
    var currentByte: nat
    var processingLSNibble: bool

    var decodedSOP: SOPType
    var decodedHeader: nat

    ghost predicate Valid()
      reads this, sop, data
    {
      && sop.Length == 4 && data.Length == MAX_DATA && pulseBuffer.Length == MAX_PULSES
      && sopIndex <= 4 && dataLength <= MAX_DATA && pulseBufferLength <= MAX_PULSES
      && currentByte < 16
      && kCodeBitCount <= 5 && kCodeAccumulator < Pow2(kCodeBitCount)
      && (result == Incomplete && state != ReadingData ==> sopIndex < 4)
      && (sopIndex == 4 ==> decodedSOP == Classify(sop[..]))
      && (dataLength >= 2 ==> decodedHeader == HeaderOf(data[..dataLength]))
    }

    ghost function State(): Decoder
      requires Valid()
      reads this, sop, data, pulseBuffer
    {
      Decoder(result, pulseBuffer[..pulseBufferLength], state, carrierAccumulator, carrierEntryCount,
              carrierPulseHighBitThreshold, kCodeAccumulator, kCodeBitCount, skipNextPulse, sop[..sopIndex],
              data[..dataLength], currentByte, processingLSNibble)
    }

    constructor ()
      ensures Valid() && fresh(sop) && fresh(data) && fresh(pulseBuffer)
      ensures State() == RESET
    {
      sop := new nat[4](i => 0);
      data := new Byte[MAX_DATA](i => 0);
      pulseBuffer := new nat[MAX_PULSES](i => 0);
      decodedSOP := Invalid;
      decodedHeader := 0;
      new;
      ResetFields();
      for i := 0 to 4
        invariant Cleared()
      {
        sop[i] := 0;
      }
      ClearedIsReset();
    }

    method Reset()
      requires Valid()
      modifies this, sop
      ensures Valid() && State() == RESET
    {
      ResetFields();
      for i := 0 to 4
        invariant Cleared()
      {
        sop[i] := 0;
      }
      ClearedIsReset();
    }

    ghost predicate Cleared()
      reads this
    {
      && result == Incomplete && state == ReadingPreamble
      && carrierPulseHighBitThreshold == carrierAccumulator == carrierEntryCount == 0
      && dataLength == pulseBufferLength == sopIndex == 0
      && kCodeAccumulator == kCodeBitCount == 0 && !skipNextPulse
      && currentByte == 0 && processingLSNibble
    }

    lemma ClearedIsReset()
      requires sop.Length == 4 && data.Length == MAX_DATA && pulseBuffer.Length == MAX_PULSES && Cleared()
      ensures Valid() && State() == RESET
    {
      assert sop[..0] == [] && data[..0] == [] && pulseBuffer[..0] == [];
    }

    method ResetFields()
      modifies this
      ensures Cleared()
    {
      result := Incomplete;
      carrierPulseLength, carrierPulseHighBitThreshold := 0, 0;
      dataLength, pulseBufferLength := 0, 0;
      state := ReadingPreamble;
      carrierAccumulator, carrierEntryCount := 0, 0;
      kCodeAccumulator, kCodeBitCount := 0, 0;
      skipNextPulse := false;
      sopIndex := 0;
      currentByte, processingLSNibble := 0, true;
    }

    /** Feeds one pulse, as measured by a counter running down from the timeout, to an unfinished message. */
    method FeedPulse(raw: nat) returns (event: Event)
      requires Valid() && result == Incomplete && raw < 0x1_0000_0000
      modifies this, sop, data, pulseBuffer
      ensures Valid() && (State(), event) == Feed(old(State()), Width(raw))
      ensures result != Incomplete <==> event.IsCompletion()
    {
      hide FeedPreamble, FeedSOP, FeedData, Classify, Pow2, HeaderOf, Width;
      var pulseWidth := Width(raw);
      if pulseBufferLength >= MAX_PULSES {
        result := InvalidKCode;
        return InvalidKCodeError;
      }
      StorePulse(pulseWidth);
      if pulseWidth >= TIMEOUT_WIDTH {
        result := Timeout;
        return if dataLength == 0 then TimeoutBeforeStartError else TimeoutError;
      } else if pulseWidth < RUNT_WIDTH {
        result := RuntPulse;
        return RuntPulseError;
      }
      match state {
        case ReadingPreamble => event := ProcessEdgeInPreambleState(pulseWidth);
        case ReadingSOP => event := ProcessEdgeInReadingSOPState(pulseWidth);
        case ReadingData => event := ProcessEdgeInReadingDataState(pulseWidth);
      }
    }

    method StorePulse(pulseWidth: nat)
      requires Valid() && pulseBufferLength < MAX_PULSES
      modifies this`pulseBufferLength, pulseBuffer
      ensures Valid() && State() == old(State()).(pulses := old(State()).pulses + [pulseWidth % 0x1_0000])
    {
      pulseBuffer[pulseBufferLength] := pulseWidth % 0x1_0000;
      pulseBufferLength := pulseBufferLength + 1;
    }

    method ProcessEdgeInPreambleState(edge: nat) returns (event: Event)
      requires Valid() && state == ReadingPreamble && result == Incomplete
      modifies this
      ensures Valid() && (State(), event) == FeedPreamble(old(State()), edge)
      ensures result == Incomplete && !event.IsCompletion()
    {
      hide Classify, HeaderOf, Pow2;
      AccumulateCarrier(edge);
      if carrierEntryCount == PREAMBLE_PULSES {
        LearnThreshold();
        return SOPStart;
      }
      if carrierEntryCount == PREAMBLE_START_PULSES {
        return PreambleStart;
      }
      return NoEvent;
    }

    method AccumulateCarrier(edge: nat)
      requires Valid()
      modifies this`carrierAccumulator, this`carrierEntryCount
      ensures Valid() && carrierEntryCount == old(carrierEntryCount) + 1
      ensures State() == old(State()).(carrierSum := old(carrierAccumulator)
        + (if old(carrierEntryCount) % 3 == 0 then 2 * edge else edge), carrierCount := carrierEntryCount)
    {
      hide Classify, HeaderOf, Pow2;
      carrierAccumulator := carrierAccumulator + (if carrierEntryCount % 3 == 0 then 2 * edge else edge);
      carrierEntryCount := carrierEntryCount + 1;
    }

    /** Ends the preamble. */
    method LearnThreshold()
      requires Valid() && state == ReadingPreamble && result == Incomplete
      modifies this`state, this`carrierPulseLength, this`carrierPulseHighBitThreshold
      ensures Valid()
      ensures State() == old(State()).(phase := ReadingSOP, threshold := Threshold(carrierAccumulator))
    {
      hide Classify, HeaderOf, Pow2;
      state := ReadingSOP;
      carrierPulseLength := carrierAccumulator / 96;
      carrierPulseHighBitThreshold := carrierPulseLength * 2 / 3;
    }

    /** Takes in one pulse of a bit; true when it completes a symbol. */
    method ProcessBit(edge: nat) returns (complete: bool)
      requires Valid()
      modifies this`kCodeAccumulator, this`kCodeBitCount, this`skipNextPulse
      ensures Valid() && State() == FeedBit(old(State()), edge)
      ensures complete <==> kCodeBitCount == 5
    {
      hide Classify, HeaderOf;
      if kCodeBitCount >= 5 {
        kCodeBitCount := 0;
        kCodeAccumulator := 0;
      }
      if skipNextPulse {
        // The bit at this position is still zero, so the OR is a sum.
        kCodeAccumulator := kCodeAccumulator + Pow2(kCodeBitCount);
        kCodeBitCount := kCodeBitCount + 1;
        skipNextPulse := false;
        return kCodeBitCount == 5;
      }
      if edge < carrierPulseHighBitThreshold {
        skipNextPulse := true;
      } else {
        kCodeBitCount := kCodeBitCount + 1;
      }
      return kCodeBitCount == 5;
    }

    method ProcessEdgeInReadingSOPState(edge: nat) returns (event: Event)
      requires Valid() && state == ReadingSOP && result == Incomplete
      modifies this, sop
      ensures Valid() && (State(), event) == FeedSOP(old(State()), edge)
      ensures result != Incomplete <==> event.IsCompletion()
    {
      var complete := ProcessBit(edge);
      if !complete {
        return NoEvent;
      }
      event := StoreSOPCode();
    }

    method StoreSOPCode() returns (event: Event)
      requires Valid() && state == ReadingSOP && result == Incomplete
      modifies this, sop
      ensures Valid() && (State(), event) == SOPCode(old(State()))
      ensures result != Incomplete <==> event.IsCompletion()
    {
      hide Classify, Pow2, HeaderOf;
      AppendSOPCode();
      if sopIndex == 4 {
        assert sop[..] == sop[..4];
        decodedSOP := Classify(sop[..]);
        if decodedSOP == HardReset {
          result := Success;
          return HardResetReceived;
        }
        state := ReadingData;
        return HeaderStart;
      }
      return NoEvent;
    }

    method AppendSOPCode()
      requires sopIndex < sop.Length
      modifies this`sopIndex, sop
      ensures sopIndex == old(sopIndex) + 1 && sop[..sopIndex] == old(sop[..sopIndex]) + [kCodeAccumulator]
    {
      sop[sopIndex] := kCodeAccumulator;
      sopIndex := sopIndex + 1;
    }

    method ProcessEdgeInReadingDataState(edge: nat) returns (event: Event)
      requires Valid() && state == ReadingData && result == Incomplete
      modifies this, data
      ensures Valid() && (State(), event) == FeedData(old(State()), edge)
      ensures result != Incomplete <==> event.IsCompletion()
    {
      var complete := ProcessBit(edge);
      if !complete {
        return NoEvent;
      }
      event := ProcessDataCode();
    }

    method ProcessDataCode() returns (event: Event)
      requires Valid() && state == ReadingData && result == Incomplete && kCodeBitCount == 5
      modifies this, data
      ensures Valid() && (State(), event) == DataCode(old(State()))
      ensures result != Incomplete <==> event.IsCompletion()
    {
      hide Classify, HeaderOf, Validates, DataNibble;
      if kCodeAccumulator == EOP_5B {
        var valid := ValidateCRC();
        if !valid {
          result := BadCRC;
          return CRCError;
        }
        result := Success;
        return MessageComplete;
      }
      assert Pow2(5) == 32;
      var decodedNibble := FIVE_TO_FOUR[kCodeAccumulator];
      if decodedNibble == INVALID_5B {
        result := InvalidKCode;
        return InvalidKCodeError;
      }
      TablesInvert();
      kCodeAccumulator := 0;
      kCodeBitCount := 0;
      event := StoreNibble(decodedNibble);
    }

    method StoreNibble(decodedNibble: nat) returns (event: Event)
      requires Valid() && state == ReadingData && result == Incomplete && decodedNibble < 16
      modifies this, data
      ensures Valid() && (State(), event) == DataNibble(old(State()), decodedNibble)
      ensures result != Incomplete <==> event.IsCompletion()
    {
      hide Classify, Pow2, HeaderOf;
      if processingLSNibble {
        currentByte := decodedNibble;
        processingLSNibble := false;
        return NoEvent;
      }
      if dataLength >= MAX_DATA {
        result := InvalidKCode;
        return InvalidKCodeError;
      }
      StoreByte((currentByte + 16 * decodedNibble) % 256);
      if dataLength == 2 && decodedHeader / 0x1000 % 8 > 0 {
        return DataStart;
      }
      return NoEvent;
    }

    /** Stores a complete byte and, once there are two, the header they make. */
    method StoreByte(value: Byte)
      requires Valid() && dataLength < MAX_DATA
      modifies this`dataLength, this`processingLSNibble, this`decodedHeader, data
      ensures Valid() && State() == old(State()).(data := old(State()).data + [value], expectLow := true)
    {
      hide Classify, Pow2;
      data[dataLength] := value;
      dataLength := dataLength + 1;
      processingLSNibble := true;
      assert data[..dataLength] == old(State()).data + [value];
      if dataLength == 2 {
        decodedHeader := HeaderOf(data[..2]);
      }
    }

    /** Recomputes the CRC over all but the last four bytes and compares it with those. */
    method ValidateCRC() returns (valid: bool)
      requires Valid()
      ensures valid <==> Validates(data[..dataLength])
    {
      hide Steps, Xor, Load, LowBits, Pow2, Classify, HeaderOf, BytesRegister, Complement;
      if dataLength < 6 {
        return false;
      }
      var n := dataLength - 4;
      var receivedCRC := BytesRegister(data[n], data[n + 1], data[n + 2], data[n + 3]);
      var crc := AllOnes();
      for i := 0 to n
        invariant crc == Fold(AllOnes(), data[..i])
      {
        FoldOneMore(AllOnes(), data[..], i);
        crc := Xor(crc, Load(LowBits(data[i], 8)));
        crc := EightSteps(crc);
      }
      assert data[..dataLength][..n] == data[..n];
      return Complement(crc) == receivedCRC;
    }
  }

  lemma FoldOneMore(crc: Register, data: seq<Byte>, n: nat)
    requires n < |data|
    ensures Fold(crc, data[..n + 1]) == UpdateByte(Fold(crc, data[..n]), data[n])
  {
    hide UpdateByte;
    FoldConcat(crc, data[..n], [data[n]]);
    assert data[..n + 1] == data[..n] + [data[n]];
    assert [data[n]][1..] == [];
  }

  method EightSteps(start: Register) returns (crc: Register)
    ensures crc == Steps(start, 8)
  {
    crc := start;
    for bit := 0 to 8
      invariant Steps(crc, 8 - bit) == Steps(start, 8)
    {
      if crc[0] {
        crc := Xor(ShiftRight(crc), Polynomial());
      } else {
        crc := ShiftRight(crc);
      }
    }
  }
}
