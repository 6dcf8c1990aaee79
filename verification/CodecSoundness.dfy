/** Every run of pulses keeps the decoder in step with the bits shown so far. */
module CodecSoundness {
  import opened Bits
  import opened Crc
  import opened Symbols
  import opened BmcDecoding
  import opened CodecGrammar
  import opened Octets

  function Unpaired(d: Decoder): seq<nat> {
    if d.expectLow || d.lowNibble >= 16 then [] else [FOUR_TO_FIVE[d.lowNibble]]
  }

  /** The symbols the decoder has taken in. */
  function ReadCodes(d: Decoder): seq<nat> {
    PacketCodes(d.sop, d.data, Unpaired(d))
  }

  /** The bits of the symbol it is in the middle of. */
  function PartialBits(d: Decoder): seq<bool> {
    if d.codeBits >= 5 then [] else LowBits(d.code, d.codeBits)
  }

  predicate Shape(d: Decoder) {
    && d.codeBits <= 5 && d.lowNibble < 16
    && (d.codeBits < 5 ==> d.code < Pow2(d.codeBits))
    && (forall i :: 0 <= i < |d.sop| ==> d.sop[i] < 32)
    && |d.data| <= MAX_DATA
  }

  predicate PhaseShape(d: Decoder) {
    match d.phase
    case ReadingPreamble => false
    case ReadingSOP => |d.sop| < 4 && d.data == [] && d.expectLow
    case ReadingData => |d.sop| == 4 && Classify(d.sop) != HardReset
  }

  /** Past the preamble: the bits shown are the symbols taken in and the partial one. */
  predicate InPacket(d: Decoder, r: Reading) {
    && Shape(d) && PhaseShape(d)
    && d.secondHalf == r.half
    && r.bits == CodeBits(ReadCodes(d)) + PartialBits(d)
  }

  predicate InPreamble(d: Decoder, widths: seq<nat>) {
    d == RESET.(pulses := widths, carrierCount := |widths|, carrierSum := WeightedSum(widths))
  }

  /** The state after exactly these pulses, none of which completed the attempt. */
  predicate HasRead(d: Decoder, widths: seq<nat>) {
    && d.result == Incomplete
    && d.pulses == widths && |widths| <= MAX_PULSES && InRange(widths)
    && if |widths| < PREAMBLE_PULSES then InPreamble(d, widths)
       else
         && d.threshold == Threshold(WeightedSum(widths[..PREAMBLE_PULSES]))
         && InPacket(d, Demodulate(widths[PREAMBLE_PULSES..], d.threshold))
  }

  // ----- One bit -----

  /** What the symbol looks like once the pulse's bit, if any, is in; before it is acted on. */
  predicate Between(d: Decoder, r: Reading) {
    && d.codeBits <= 5 && d.code < Pow2(d.codeBits)
    && d.secondHalf == r.half
    && r.bits == CodeBits(ReadCodes(d)) + LowBits(d.code, d.codeBits)
  }

  lemma FreshCodeReads(d: Decoder, r: Reading)
    requires InPacket(d, r)
    ensures Between(FreshCode(d), r) && FreshCode(d).codeBits < 5
  {
    assert LowBits(0, 0) == [];
  }

  lemma AddBitReads(d: Decoder, r: Reading, bit: bool)
    requires Between(d, r) && d.codeBits < 5
    ensures Between(AddBit(d, bit).(secondHalf := false), Reading(r.bits + [bit], false))
  {
    hide CodeBits, DataCodes, Pow2, LowBits;
    AppendDigit(d.code, d.codeBits, bit);
    assert ReadCodes(AddBit(d, bit).(secondHalf := false)) == ReadCodes(d);
  }

  lemma AppendDigit(code: nat, n: nat, bit: bool)
    requires code < Pow2(n)
    ensures var c := code + (if bit then Pow2(n) else 0);
      c < Pow2(n + 1) && LowBits(c, n + 1) == LowBits(code, n) + [bit]
  {
    var bits := LowBits(code, n);
    ValueOfLowBits(code, n);
    SmallModulus(code, Pow2(n));
    ValueSnoc(bits, bit);
    LowBitsOfValue(bits + [bit]);
  }

  lemma SmallModulus(x: nat, m: nat)
    requires x < m
    ensures x % m == x
  {
  }

  lemma FeedBitReads(d: Decoder, r: Reading, width: nat)
    requires InPacket(d, r)
    ensures Between(FeedBit(d, width), Extend(r, width, d.threshold))
    ensures var e := FeedBit(d, width);
      e == d.(code := e.code, codeBits := e.codeBits, secondHalf := e.secondHalf)
  {
    hide Between, InPacket, ReadCodes;
    FreshCodeReads(d, r);
    var e := FreshCode(d);
    HalfAgrees(e, r);
    if e.secondHalf {
      AddBitReads(e, r, true);
    } else if width < e.threshold {
      HalfStarts(e, r);
    } else {
      AddBitReads(e, r, false);
    }
  }

  lemma HalfAgrees(d: Decoder, r: Reading)
    requires Between(d, r)
    ensures d.secondHalf == r.half
  {
  }

  lemma HalfStarts(d: Decoder, r: Reading)
    requires Between(d, r)
    ensures Between(d.(secondHalf := true), Reading(r.bits, true))
  {
    assert ReadCodes(d.(secondHalf := true)) == ReadCodes(d);
  }

  // ----- One symbol -----

  predicate SameRun(d: Decoder, e: Decoder) {
    e.result == d.result && e.pulses == d.pulses && e.threshold == d.threshold
  }

  /** A complete symbol joins the ones taken in. */
  lemma CompleteCode(d: Decoder, r: Reading)
    requires Between(d, r) && d.codeBits == 5
    ensures d.code < 32 && r.bits == CodeBits(ReadCodes(d) + [d.code])
  {
    assert Pow2(5) == 32;
    CodeBitsSnoc(ReadCodes(d), d.code);
  }

  lemma SOPCodeReads(d: Decoder, r: Reading)
    requires Between(d, r) && Shape(d) && d.phase == ReadingSOP && PhaseShape(d) && d.codeBits == 5
    ensures var (e, event) := SOPCode(d);
      event == HardResetReceived || (!event.IsCompletion() && SameRun(d, e) && InPacket(e, r))
  {
    hide Classify, CodeBits;
    CompleteCode(d, r);
    var sop := d.sop + [d.code];
    assert ReadCodes(d) == d.sop && sop + DataCodes([]) + [] == sop;
    assert r.bits == CodeBits(sop) + [];
  }

  /** A data symbol is its nibble's, so taking in the nibble takes in the symbol. */
  lemma DataNibbleReads(d: Decoder, code: nat)
    requires Shape(d) && code < 32 && Nibble(code) != INVALID_5B
    ensures var (e, event) := DataNibble(d, Nibble(code));
      event == InvalidKCodeError || (!event.IsCompletion() && SameRun(d, e) && Shape(e)
        && e == d.(data := e.data, lowNibble := e.lowNibble, expectLow := e.expectLow)
        && ReadCodes(e) == ReadCodes(d) + [code])
  {
    hide Nibble, ReadCodes, NumDataObjects;
    NibbleOfCode(code);
    if d.expectLow {
      LowNibbleReads(d, code);
    } else if |d.data| < MAX_DATA {
      HighNibbleReads(d, code);
    }
  }

  lemma LowNibbleReads(d: Decoder, code: nat)
    requires Shape(d) && d.expectLow && Nibble(code) < 16 && FOUR_TO_FIVE[Nibble(code)] == code
    ensures var e := d.(lowNibble := Nibble(code), expectLow := false);
      Shape(e) && ReadCodes(e) == ReadCodes(d) + [code]
  {
    hide DataCodes, Nibble;
  }

  lemma HighNibbleReads(d: Decoder, code: nat)
    requires Shape(d) && !d.expectLow && Nibble(code) < 16 && FOUR_TO_FIVE[Nibble(code)] == code && |d.data| < MAX_DATA
    ensures var e := d.(data := d.data + [(d.lowNibble + 16 * Nibble(code)) % 256], expectLow := true);
      Shape(e) && ReadCodes(e) == ReadCodes(d) + [code]
  {
    hide DataCodes, Nibble;
    JoinNibbles(d.lowNibble, Nibble(code));
    var b: Byte := d.lowNibble + 16 * Nibble(code);
    DataCodesSnoc(d.sop, d.data, b);
    var e := d.(data := d.data + [b], expectLow := true);
    assert ReadCodes(e) == d.sop + DataCodes(d.data + [b]);
  }

  lemma NibbleOfCode(code: nat)
    requires code < 32 && Nibble(code) != INVALID_5B
    ensures Nibble(code) < 16 && FOUR_TO_FIVE[Nibble(code)] == code
  {
    TablesInvert();
  }

  lemma JoinNibbles(low: nat, high: nat)
    requires low < 16 && high < 16
    ensures var b := low + 16 * high; b < 256 && b % 256 == b && b % 16 == low && b / 16 == high
  {
  }

  lemma DataCodeReads(d: Decoder, r: Reading)
    requires Between(d, r) && Shape(d) && d.phase == ReadingData && PhaseShape(d) && d.codeBits == 5
    ensures var (e, event) := DataCode(d);
      event.IsCompletion() || (SameRun(d, e) && InPacket(e, r))
    ensures DataCode(d).1 == MessageComplete ==>
      Validates(d.data) && d.code == EOP_5B && DataCode(d).0 == d.(result := Success)
  {
    hide Validates, Pow2;
    CompleteCode(d, r);
    if d.code != EOP_5B && Nibble(d.code) != INVALID_5B {
      var f := d.(code := 0, codeBits := 0);
      ShapeOfFresh(d);
      assert ReadCodes(f) == ReadCodes(d);
      DataNibbleReads(f, d.code);
      var e := DataNibble(f, Nibble(d.code)).0;
      assert PartialBits(e) == [] by { assert LowBits(0, 0) == []; }
      assert CodeBits(ReadCodes(e)) + [] == CodeBits(ReadCodes(e));
    }
  }

  lemma ShapeOfFresh(d: Decoder)
    requires Shape(d)
    ensures Shape(d.(code := 0, codeBits := 0))
  {
  }

  // ----- One pulse -----

  lemma FeedSOPReads(d: Decoder, r: Reading, width: nat)
    requires InPacket(d, r) && d.phase == ReadingSOP
    ensures var (e, event) := FeedSOP(d, width);
      event == HardResetReceived ||
      (!event.IsCompletion() && SameRun(d, e) && InPacket(e, Extend(r, width, d.threshold)))
  {
    FeedBitReads(d, r, width);
    var e := FeedBit(d, width);
    var next := Extend(r, width, d.threshold);
    BetweenShape(d, e, r, next);
    if e.codeBits == 5 {
      SOPCodeReads(e, next);
    }
  }

  lemma BetweenShape(d: Decoder, e: Decoder, r: Reading, next: Reading)
    requires InPacket(d, r) && Between(e, next)
    requires e == d.(code := e.code, codeBits := e.codeBits, secondHalf := e.secondHalf)
    ensures Shape(e) && PhaseShape(e)
    ensures e.codeBits < 5 ==> InPacket(e, next)
  {
  }

  lemma FeedDataReads(d: Decoder, r: Reading, width: nat)
    requires InPacket(d, r) && d.phase == ReadingData
    ensures var (e, event) := FeedData(d, width);
      event.IsCompletion() || (SameRun(d, e) && InPacket(e, Extend(r, width, d.threshold)))
    ensures var (e, event) := FeedData(d, width);
      event == MessageComplete ==>
        e.result == Success && IsPacketEnd(e, Extend(r, width, d.threshold))
  {
    hide Validates;
    FeedBitReads(d, r, width);
    var e := FeedBit(d, width);
    var next := Extend(r, width, d.threshold);
    BetweenShape(d, e, r, next);
    if e.codeBits == 5 {
      DataCodeReads(e, next);
      if DataCode(e).1 == MessageComplete {
        CompleteCode(e, next);
        HalfAgrees(e, next);
        NoHalfAfterBit(d, width);
        assert ReadCodes(e.(result := Success)) == ReadCodes(e);
      }
    }
  }

  /** What holds when a message completes. */
  predicate IsPacketEnd(d: Decoder, r: Reading) {
    && Shape(d) && |d.sop| == 4 && Classify(d.sop) != HardReset
    && Validates(d.data) && !r.half
    && r.bits == CodeBits(ReadCodes(d) + [EOP_5B])
  }

  /** A symbol can only complete on the pulse that completes a bit. */
  lemma NoHalfAfterBit(d: Decoder, width: nat)
    requires FeedBit(d, width).codeBits == 5
    ensures !FeedBit(d, width).secondHalf
  {
  }

  lemma WeightedSumSnoc(widths: seq<nat>, width: nat)
    ensures WeightedSum(widths + [width])
         == WeightedSum(widths) + (if |widths| % 3 == 0 then 2 * width else width)
  {
    assert (widths + [width])[..|widths|] == widths;
  }

  lemma DemodulateSnoc(widths: seq<nat>, width: nat, threshold: nat)
    ensures Demodulate(widths + [width], threshold) == Extend(Demodulate(widths, threshold), width, threshold)
  {
    assert (widths + [width])[..|widths|] == widths;
  }

  lemma FeedPreambleReads(d: Decoder, widths: seq<nat>, width: nat)
    requires HasRead(d, widths) && |widths| < PREAMBLE_PULSES && RUNT_WIDTH <= width < TIMEOUT_WIDTH
    ensures var (e, event) := Feed(d, width);
      !event.IsCompletion() && HasRead(e, widths + [width])
  {
    hide FeedSOP, FeedData, InPacket, Demodulate, Threshold, WeightedSum;
    WeightedSumSnoc(widths, width);
    var more := widths + [width];
    if |more| == PREAMBLE_PULSES {
      assert more[..PREAMBLE_PULSES] == more && more[PREAMBLE_PULSES..] == [];
      NothingShown(d.threshold);
      NothingShown(Threshold(WeightedSum(more)));
      PreambleEnds(Feed(d, width).0);
    }
  }

  lemma NothingShown(threshold: nat)
    ensures Demodulate([], threshold) == Reading([], false)
  {
  }

  lemma PreambleEnds(e: Decoder)
    requires e.sop == [] && e.data == [] && e.expectLow && e.codeBits == 0 && e.code == 0 && e.lowNibble == 0
    requires !e.secondHalf && e.phase == ReadingSOP
    ensures InPacket(e, Reading([], false))
  {
  }

  lemma AfterPreamble(widths: seq<nat>, width: nat)
    requires |widths| >= PREAMBLE_PULSES
    ensures (widths + [width])[..PREAMBLE_PULSES] == widths[..PREAMBLE_PULSES]
    ensures (widths + [width])[PREAMBLE_PULSES..] == widths[PREAMBLE_PULSES..] + [width]
  {
  }

  /** A complete message, as the decoder sees it. */
  predicate HasMessage(d: Decoder, widths: seq<nat>) {
    && d.result == Success
    && PREAMBLE_PULSES <= |widths| <= MAX_PULSES && InRange(widths)
    && IsPacketEnd(d, Demodulate(widths[PREAMBLE_PULSES..], Threshold(WeightedSum(widths[..PREAMBLE_PULSES]))))
  }

  lemma FeedPacketReads(d: Decoder, widths: seq<nat>, width: nat)
    requires HasRead(d, widths) && |widths| >= PREAMBLE_PULSES
    requires |widths| < MAX_PULSES && RUNT_WIDTH <= width < TIMEOUT_WIDTH
    ensures var (e, event) := Feed(d, width);
      && (event.IsCompletion() || HasRead(e, widths + [width]))
      && (event == MessageComplete ==> HasMessage(e, widths + [width]))
  {
    hide FeedSOP, FeedData, FeedPreamble, IsPacketEnd, Demodulate, WeightedSum, Threshold, ReadCodes, PartialBits;
    var f := d.(pulses := d.pulses + [width % 0x1_0000]);
    var r := Demodulate(widths[PREAMBLE_PULSES..], d.threshold);
    assert InPacket(f, r) by { PulsesDoNotMatter(d, f, r); }
    AfterPreamble(widths, width);
    DemodulateSnoc(widths[PREAMBLE_PULSES..], width, d.threshold);
    if d.phase == ReadingSOP {
      FeedSOPReads(f, r, width);
    } else {
      FeedDataReads(f, r, width);
    }
  }

  lemma PulsesDoNotMatter(d: Decoder, f: Decoder, r: Reading)
    requires InPacket(d, r) && f == d.(pulses := f.pulses)
    ensures InPacket(f, r)
  {
    assert ReadCodes(f) == ReadCodes(d) && PartialBits(f) == PartialBits(d);
  }

  lemma FeedReads(d: Decoder, widths: seq<nat>, width: nat)
    requires HasRead(d, widths)
    ensures var (e, event) := Feed(d, width);
      && (event.IsCompletion() || HasRead(e, widths + [width]))
      && (event == MessageComplete ==> HasMessage(e, widths + [width]))
  {
    hide HasRead, HasMessage;
    if RUNT_WIDTH <= width < TIMEOUT_WIDTH {
      PulseCount(d, widths);
      if |widths| < PREAMBLE_PULSES {
        FeedPreambleReads(d, widths, width);
      } else if |widths| < MAX_PULSES {
        FeedPacketReads(d, widths, width);
      }
    }
  }

  lemma PulseCount(d: Decoder, widths: seq<nat>)
    requires HasRead(d, widths)
    ensures d.pulses == widths
  {
  }

  // ----- Whole runs -----

  lemma {:induction false} RunReads(widths: seq<nat>)
    requires Quiet(RESET, widths)
    ensures HasRead(After(RESET, widths), widths)
  {
    hide Feed, HasRead;
    if widths == [] {
      ResetHasReadNothing();
    } else {
      var n := |widths| - 1;
      assert widths == widths[..n] + [widths[n]];
      QuietConcat(RESET, widths[..n], [widths[n]]);
      AfterConcat(RESET, widths[..n], [widths[n]]);
      RunReads(widths[..n]);
      FeedReads(After(RESET, widths[..n]), widths[..n], widths[n]);
      OnePulse(After(RESET, widths[..n]), widths[n]);
    }
  }

  lemma ResetHasReadNothing()
    ensures HasRead(RESET, [])
  {
  }

  lemma OnePulse(d: Decoder, width: nat)
    ensures After(d, [width]) == Feed(d, width).0
    ensures Quiet(d, [width]) <==> !Feed(d, width).1.IsCompletion()
  {
    hide Feed;
    assert [width][1..] == [];
  }

  /**
   * An attempt that has not completed has stored every pulse, overrun no buffer, and will complete by the
   * time the pulse buffer is full.
   */
  lemma QuietRunsAreBounded(widths: seq<nat>)
    requires Quiet(RESET, widths)
    ensures var d := After(RESET, widths);
      d.pulses == widths && |widths| <= MAX_PULSES && |d.data| <= MAX_DATA && |d.sop| <= 4
  {
    RunReads(widths);
  }

  /** A completed message was on the wire: the pulses are a packet carrying the decoded bytes. */
  lemma CompleteMessagesAreSound(widths: seq<nat>)
    requires CompletesWith(widths, MessageComplete)
    ensures var d := After(RESET, widths);
      d.result == Success && exists unpaired :: IsPacket(widths, d.sop, d.data, unpaired)
  {
    hide Feed, HasRead;
    var n := |widths| - 1;
    assert widths == widths[..n] + [widths[n]];
    AfterConcat(RESET, widths[..n], [widths[n]]);
    OnePulse(After(RESET, widths[..n]), widths[n]);
    RunReads(widths[..n]);
    FeedReads(After(RESET, widths[..n]), widths[..n], widths[n]);
    MessageIsPacket(After(RESET, widths), widths);
  }

  lemma MessageIsPacket(d: Decoder, widths: seq<nat>)
    requires HasMessage(d, widths)
    ensures d.result == Success && IsPacket(widths, d.sop, d.data, Unpaired(d))
  {
    hide Validates;
    var threshold := Threshold(WeightedSum(widths[..PREAMBLE_PULSES]));
    DemodulateShows(widths[PREAMBLE_PULSES..], threshold);
  }
}
