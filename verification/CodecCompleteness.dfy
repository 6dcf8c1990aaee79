/** Every packet is accepted: the decoder completes on its last pulse with the bytes it carries. */
module CodecCompleteness {
  import opened Bits
  import opened Crc
  import opened Symbols
  import opened BmcDecoding
  import opened CodecGrammar
  import opened CodecSoundness
  import opened Octets

  predicate AreCodes(codes: seq<nat>) {
    forall i :: 0 <= i < |codes| ==> codes[i] < 32
  }

  lemma FiveBitsInjective(a: nat, b: nat)
    requires a < 32 && b < 32 && LowBits(a, 5) == LowBits(b, 5)
    ensures a == b
  {
    hide LowBits, Value, Pow2;
    ValueOfLowBits(a, 5);
    ValueOfLowBits(b, 5);
    Pow2OfFive();
  }

  lemma Pow2OfFive()
    ensures Pow2(5) == 32
  {
    assert Pow2(3) == 8;
  }

  /** Whole symbols at the start of a bit stream can be read in one way only. */
  lemma {:induction false} CodesAreDetermined(read: seq<nat>, all: seq<nat>)
    requires AreCodes(read) && AreCodes(all) && CodeBits(read) <= CodeBits(all)
    ensures read <= all
  {
    if read == [] {
    } else {
      var x, y := CodeBits(read), CodeBits(all);
      assert x[..5] == LowBits(read[0], 5) && y[..5] == LowBits(all[0], 5);
      assert x[..5] == y[..5];
      FiveBitsInjective(read[0], all[0]);
      assert x[5..] == CodeBits(read[1..]) && y[5..] == CodeBits(all[1..]);
      assert x[5..] <= y[5..];
      CodesAreDetermined(read[1..], all[1..]);
    }
  }

  lemma {:induction false} DataAreDetermined(a: seq<Byte>, b: seq<Byte>)
    requires DataCodes(a) <= DataCodes(b)
    ensures a <= b
  {
    if a == [] {
    } else {
      var x, y := DataCodes(a), DataCodes(b);
      assert x[..2] == y[..2];
      assert x[..2] == ByteCodes(a[0]) && y[..2] == ByteCodes(b[0]);
      ByteCodesInjective(a[0], b[0]);
      assert x[2..] == DataCodes(a[1..]) && y[2..] == DataCodes(b[1..]);
      assert x[2..] <= y[2..];
      DataAreDetermined(a[1..], b[1..]);
    }
  }

  lemma ByteCodesInjective(a: Byte, b: Byte)
    requires ByteCodes(a) == ByteCodes(b)
    ensures a == b
  {
    TablesInvert();
    assert ByteCodes(a)[0] == ByteCodes(b)[0] && ByteCodes(a)[1] == ByteCodes(b)[1];
    assert a % 16 == b % 16 && a / 16 == b / 16;
  }

  lemma {:induction false} DataCodesAreDataSymbols(data: seq<Byte>, i: nat)
    requires i < 2 * |data|
    ensures DataCodes(data)[i] < 32 && DataCodes(data)[i] != EOP_5B && Nibble(DataCodes(data)[i]) < 16
  {
    TablesInvert();
    if i < 2 {
    } else {
      DataCodesAreDataSymbols(data[1..], i - 2);
    }
  }

  /** After the start of packet, everything before the last symbol is a data symbol. */
  lemma PacketSymbol(sop: seq<nat>, data: seq<Byte>, unpaired: seq<nat>, i: nat)
    requires |sop| == 4 && IsUnpaired(unpaired) && 4 <= i < |PacketCodes(sop, data, unpaired)|
    ensures var c := PacketCodes(sop, data, unpaired)[i]; c < 32 && c != EOP_5B && Nibble(c) < 16
  {
    TablesInvert();
    if i < 4 + 2 * |data| {
      DataCodesAreDataSymbols(data, i - 4);
    }
  }

  lemma PacketIsCodes(sop: seq<nat>, data: seq<Byte>, unpaired: seq<nat>)
    requires IsSOP(sop) && IsUnpaired(unpaired)
    ensures AreCodes(PacketCodes(sop, data, unpaired) + [EOP_5B])
  {
    var all := PacketCodes(sop, data, unpaired) + [EOP_5B];
    forall i | 0 <= i < |all|
      ensures all[i] < 32
    {
      if 4 <= i < |all| - 1 {
        PacketSymbol(sop, data, unpaired, i);
      }
    }
  }

  /** The decoder's view of a packet's symbols is the packet's. */
  lemma PacketIsDetermined(d: Decoder, sop: seq<nat>, data: seq<Byte>, unpaired: seq<nat>)
    requires |d.sop| == 4 && |sop| == 4 && |unpaired| <= 1
    requires ReadCodes(d) == PacketCodes(sop, data, unpaired)
    ensures d.sop == sop && d.data == data
  {
    var x, y := ReadCodes(d), PacketCodes(sop, data, unpaired);
    assert x[..4] == d.sop && y[..4] == sop;
    assert x[4..4 + 2 * |d.data|] == DataCodes(d.data);
    assert y[4..4 + 2 * |data|] == DataCodes(data);
    assert |d.data| == |data|;
    DataAreDetermined(d.data, data);
  }

  // ----- Progress -----

  function Progress(r: Reading): nat {
    2 * |r.bits| + (if r.half then 1 else 0)
  }

  /** Every pulse makes progress, so a stream shows a given number of whole bits at one point only. */
  lemma {:induction false} ProgressGrows(widths: seq<nat>, n: nat, threshold: nat)
    requires n < |widths|
    ensures Progress(Demodulate(widths[..n], threshold)) < Progress(Demodulate(widths, threshold))
    decreases |widths| - n
  {
    if n + 1 < |widths| {
      ProgressGrows(widths, n + 1, threshold);
      assert widths[..n + 1][..n] == widths[..n];
    } else {
      assert widths[..n + 1] == widths;
    }
  }

  // ----- One symbol of a packet -----

  lemma ReadCodesAreCodes(d: Decoder)
    requires Shape(d)
    ensures AreCodes(ReadCodes(d))
  {
    TablesInvert();
    var codes := ReadCodes(d);
    forall i | 0 <= i < |codes|
      ensures codes[i] < 32
    {
      if |d.sop| <= i < |d.sop| + 2 * |d.data| {
        DataCodesAreDataSymbols(d.data, i - |d.sop|);
      }
    }
  }

  lemma CodeOnTrack(e: Decoder, next: Reading, all: seq<nat>)
    requires Between(e, next) && Shape(e) && e.codeBits == 5
    requires AreCodes(all) && next.bits <= CodeBits(all)
    ensures ReadCodes(e) + [e.code] <= all
  {
    hide ReadCodes, Shape;
    ReadCodesAreCodes(e);
    CompleteCode(e, next);
    CodesAreDetermined(ReadCodes(e) + [e.code], all);
  }

  lemma SOPCodeOnTrack(e: Decoder, sop: seq<nat>, later: seq<nat>)
    requires IsSOP(sop) && e.phase == ReadingSOP && PhaseShape(e)
    requires ReadCodes(e) + [e.code] <= sop + later
    ensures !SOPCode(e).1.IsCompletion()
  {
    hide Classify;
    assert ReadCodes(e) == e.sop;
    var codes := e.sop + [e.code];
    if |codes| == 4 {
      assert codes == (sop + later)[..4] == sop;
    }
  }

  lemma DataCodeOnTrack(e: Decoder, sop: seq<nat>, data: seq<Byte>, unpaired: seq<nat>)
    requires Shape(e) && e.phase == ReadingData && PhaseShape(e)
    requires IsSOP(sop) && IsUnpaired(unpaired) && |data| <= MAX_DATA && Validates(data)
    requires ReadCodes(e) + [e.code] <= PacketCodes(sop, data, unpaired) + [EOP_5B]
    ensures var event := DataCode(e).1;
      if |ReadCodes(e)| == |PacketCodes(sop, data, unpaired)| then event == MessageComplete && e.sop == sop
        && e.data == data
      else !event.IsCompletion()
  {
    hide Validates, Nibble, DataCodes;
    var codes := PacketCodes(sop, data, unpaired);
    var k := |ReadCodes(e)|;
    assert (ReadCodes(e) + [e.code])[k] == (codes + [EOP_5B])[k] == e.code;
    if k == |codes| {
      assert ReadCodes(e) == codes by {
        assert (ReadCodes(e) + [e.code])[..k] == (codes + [EOP_5B])[..k];
      }
      PacketIsDetermined(e, sop, data, unpaired);
    } else {
      PacketSymbol(sop, data, unpaired, k);
      NoOverflow(e, data, unpaired, sop);
    }
  }

  lemma NoOverflow(e: Decoder, data: seq<Byte>, unpaired: seq<nat>, sop: seq<nat>)
    requires Shape(e) && |e.sop| == 4 && |sop| == 4 && |data| <= MAX_DATA && |unpaired| <= 1
    requires |ReadCodes(e)| < |PacketCodes(sop, data, unpaired)|
    ensures e.expectLow || |e.data| < MAX_DATA
  {
  }

  // ----- One pulse of a packet -----

  ghost predicate Carries(sop: seq<nat>, data: seq<Byte>, unpaired: seq<nat>) {
    IsSOP(sop) && IsUnpaired(unpaired) && |data| <= MAX_DATA && Validates(data)
  }

  /** What a packet's next pulse must do: complete the message if it is the last, and nothing otherwise. */
  ghost predicate OnTrack(outcome: (Decoder, Event), isLast: bool, sop: seq<nat>, data: seq<Byte>) {
    if isLast then outcome.1 == MessageComplete && outcome.0.sop == sop && outcome.0.data == data
    else !outcome.1.IsCompletion()
  }

  lemma SymbolOnTrack(e: Decoder, next: Reading, sop: seq<nat>, data: seq<Byte>, unpaired: seq<nat>)
    requires Between(e, next) && Shape(e) && PhaseShape(e) && e.codeBits == 5
    requires Carries(sop, data, unpaired)
    requires next.bits <= CodeBits(PacketCodes(sop, data, unpaired) + [EOP_5B])
    ensures OnTrack(if e.phase == ReadingSOP then SOPCode(e) else DataCode(e),
                    next.bits == CodeBits(PacketCodes(sop, data, unpaired) + [EOP_5B]), sop, data)
  {
    hide Validates, Nibble, DataCodes, Between, Shape, SOPCode, DataCode, ReadCodes, PacketCodes, Classify;
    var codes := PacketCodes(sop, data, unpaired);
    var all := codes + [EOP_5B];
    PacketIsCodes(sop, data, unpaired);
    CodeOnTrack(e, next, all);
    CompleteCode(e, next);
    assert next.bits == CodeBits(all) <==> |ReadCodes(e)| == |codes| by {
      assert ReadCodes(e) + [e.code] == all[..|ReadCodes(e)| + 1];
    }
    if e.phase == ReadingSOP {
      SOPTooShort(e, sop, data, unpaired);
      SOPFirst(sop, data, unpaired);
      SOPCodeOnTrack(e, sop, DataCodes(data) + unpaired + [EOP_5B]);
    } else {
      DataCodeOnTrack(e, sop, data, unpaired);
      KeepsSOPAndData(e);
    }
  }

  lemma SOPFirst(sop: seq<nat>, data: seq<Byte>, unpaired: seq<nat>)
    ensures PacketCodes(sop, data, unpaired) + [EOP_5B] == sop + (DataCodes(data) + unpaired + [EOP_5B])
  {
  }

  lemma KeepsSOPAndData(e: Decoder)
    ensures DataCode(e).1 == MessageComplete ==> DataCode(e).0.sop == e.sop && DataCode(e).0.data == e.data
  {
    hide Validates;
  }

  lemma PulseOnTrack(d: Decoder, r: Reading, width: nat, sop: seq<nat>, data: seq<Byte>, unpaired: seq<nat>)
    requires InPacket(d, r) && Carries(sop, data, unpaired)
    requires Extend(r, width, d.threshold).bits <= CodeBits(PacketCodes(sop, data, unpaired) + [EOP_5B])
    ensures OnTrack(if d.phase == ReadingSOP then FeedSOP(d, width) else FeedData(d, width),
      Extend(r, width, d.threshold) == Reading(CodeBits(PacketCodes(sop, data, unpaired) + [EOP_5B]), false), sop, data)
  {
    hide Between, InPacket, Shape, PhaseShape, Carries, PacketCodes, SOPCode, DataCode, FeedBit, Extend;
    var next := Extend(r, width, d.threshold);
    FeedBitReads(d, r, width);
    var e := FeedBit(d, width);
    BetweenShape(d, e, r, next);
    if e.codeBits == 5 {
      HalfAgrees(e, next);
      NoHalfAfterBit(d, width);
      SymbolOnTrack(e, next, sop, data, unpaired);
    } else {
      AtMostFive(e, next);
      MidSymbol(d, e, next, width, PacketCodes(sop, data, unpaired) + [EOP_5B]);
    }
  }

  lemma AtMostFive(e: Decoder, next: Reading)
    requires Between(e, next)
    ensures e.codeBits <= 5
  {
  }

  lemma SOPTooShort(e: Decoder, sop: seq<nat>, data: seq<Byte>, unpaired: seq<nat>)
    requires e.phase == ReadingSOP && PhaseShape(e) && IsSOP(sop)
    ensures |ReadCodes(e)| < |PacketCodes(sop, data, unpaired)|
  {
  }

  /** Between symbol ends, the bits shown are not whole symbols or a one is half read. */
  lemma MidSymbol(d: Decoder, e: Decoder, next: Reading, width: nat, all: seq<nat>)
    requires e == FeedBit(d, width) && e.codeBits < 5 && Between(e, next)
    ensures next != Reading(CodeBits(all), false)
  {
    hide ReadCodes, LowBits, Pow2;
    if !e.secondHalf {
      BitIsIn(d, width);
      NotWhole(|ReadCodes(e)|, |all|, e.codeBits);
    }
  }

  lemma BitIsIn(d: Decoder, width: nat)
    requires !FeedBit(d, width).secondHalf
    ensures FeedBit(d, width).codeBits >= 1
  {
  }

  lemma NotWhole(m: nat, n: nat, extra: nat)
    requires 1 <= extra < 5
    ensures 5 * m + extra != 5 * n
  {
  }

  // ----- Whole packets -----

  /** The next pulse of a packet, once the preamble is over. */
  lemma PacketPulse(widths: seq<nat>, n: nat, sop: seq<nat>, data: seq<Byte>, unpaired: seq<nat>)
    requires IsPacket(widths, sop, data, unpaired) && PREAMBLE_PULSES <= n < |widths|
    requires Quiet(RESET, widths[..n])
    ensures OnTrack(Feed(After(RESET, widths[..n]), widths[n]), n + 1 == |widths|, sop, data)
  {
    hide Quiet, After, FeedSOP, FeedData, FeedPreamble, Demodulate, Carries, CodeBits, PacketCodes, Extend,
      Progress, Validates, WeightedSum, Shows, InPacket;
    RunReads(widths[..n]);
    var d := After(RESET, widths[..n]);
    assert widths[..n][..PREAMBLE_PULSES] == widths[..PREAMBLE_PULSES];
    var threshold := Threshold(WeightedSum(widths[..PREAMBLE_PULSES]));
    var tail := widths[PREAMBLE_PULSES..];
    var k := n - PREAMBLE_PULSES;
    assert widths[..n][PREAMBLE_PULSES..] == tail[..k] && tail[..k] + [widths[n]] == tail[..k + 1];
    var r := Demodulate(tail[..k], threshold);
    DemodulateSnoc(tail[..k], widths[n], threshold);
    var next := Extend(r, widths[n], threshold);
    TailOnTrack(tail, k + 1, threshold, CodeBits(PacketCodes(sop, data, unpaired) + [EOP_5B]));
    var f := d.(pulses := d.pulses + [widths[n] % 0x1_0000]);
    PulsesDoNotMatter(d, f, r);
    assert Carries(sop, data, unpaired) by { PacketCarries(widths, sop, data, unpaired); }
    PulseOnTrack(f, r, widths[n], sop, data, unpaired);
    NotPreamble(d, r);
  }

  lemma PacketCarries(widths: seq<nat>, sop: seq<nat>, data: seq<Byte>, unpaired: seq<nat>)
    requires IsPacket(widths, sop, data, unpaired)
    ensures Carries(sop, data, unpaired)
  {
  }

  lemma NotPreamble(d: Decoder, r: Reading)
    requires InPacket(d, r)
    ensures d.phase != ReadingPreamble
  {
  }

  lemma TailOnTrack(tail: seq<nat>, n: nat, threshold: nat, bits: seq<bool>)
    requires Shows(tail, threshold, bits) && n <= |tail|
    ensures Demodulate(tail[..n], threshold).bits <= bits
    ensures Demodulate(tail[..n], threshold) == Reading(bits, false) <==> n == |tail|
  {
    ShowsDemodulates(tail, threshold, bits);
    DemodulateGrows(tail, n, threshold);
    if n < |tail| {
      ProgressGrows(tail, n, threshold);
    } else {
      assert tail[..n] == tail;
    }
  }

  lemma {:induction false} PacketIsQuiet(widths: seq<nat>, n: nat, sop: seq<nat>, data: seq<Byte>, unpaired: seq<nat>)
    requires IsPacket(widths, sop, data, unpaired) && n < |widths|
    ensures Quiet(RESET, widths[..n])
    decreases n
  {
    hide Feed, IsPacket;
    if n == 0 {
    } else {
      var before := widths[..n - 1];
      PacketIsQuiet(widths, n - 1, sop, data, unpaired);
      assert widths[..n] == before + [widths[n - 1]];
      QuietConcat(RESET, before, [widths[n - 1]]);
      OnePulse(After(RESET, before), widths[n - 1]);
      if n - 1 < PREAMBLE_PULSES {
        PreamblePulse(widths, n - 1, sop, data, unpaired);
      } else {
        PacketPulse(widths, n - 1, sop, data, unpaired);
      }
    }
  }

  lemma PreamblePulse(widths: seq<nat>, n: nat, sop: seq<nat>, data: seq<Byte>, unpaired: seq<nat>)
    requires IsPacket(widths, sop, data, unpaired) && n < PREAMBLE_PULSES && n < |widths|
    requires Quiet(RESET, widths[..n])
    ensures !Feed(After(RESET, widths[..n]), widths[n]).1.IsCompletion()
  {
    hide Feed, Validates, HasRead, Shows;
    RunReads(widths[..n]);
    FeedPreambleReads(After(RESET, widths[..n]), widths[..n], widths[n]);
  }

  /** A packet completes with MessageComplete on its last pulse, carrying exactly its codes and bytes. */
  lemma PacketsComplete(widths: seq<nat>, sop: seq<nat>, data: seq<Byte>, unpaired: seq<nat>)
    requires IsPacket(widths, sop, data, unpaired)
    ensures CompletesWith(widths, MessageComplete)
    ensures After(RESET, widths).sop == sop && After(RESET, widths).data == data
  {
    hide Feed, Validates, Shows, HasRead, Quiet, After;
    var n := |widths| - 1;
    PacketIsQuiet(widths, n, sop, data, unpaired);
    LastIsNotPreamble(widths, sop, data, unpaired);
    PacketPulse(widths, n, sop, data, unpaired);
    assert widths == widths[..n] + [widths[n]];
    AfterConcat(RESET, widths[..n], [widths[n]]);
    OnePulse(After(RESET, widths[..n]), widths[n]);
  }

  lemma LastIsNotPreamble(widths: seq<nat>, sop: seq<nat>, data: seq<Byte>, unpaired: seq<nat>)
    requires IsPacket(widths, sop, data, unpaired)
    ensures |widths| > PREAMBLE_PULSES
  {
    var bits := CodeBits(PacketCodes(sop, data, unpaired) + [EOP_5B]);
    assert |bits| > 0;
  }

  /** The decoder completes a message on a run of pulses exactly when the run is a packet. */
  lemma CompletesIffPacket(widths: seq<nat>)
    ensures CompletesWith(widths, MessageComplete)
      <==> exists sop, data, unpaired :: IsPacket(widths, sop, data, unpaired)
  {
    hide IsPacket, CompletesWith;
    if CompletesWith(widths, MessageComplete) {
      CompleteMessagesAreSound(widths);
      var d := After(RESET, widths);
      var unpaired :| IsPacket(widths, d.sop, d.data, unpaired);
    }
    if exists sop, data, unpaired :: IsPacket(widths, sop, data, unpaired) {
      var sop, data, unpaired :| IsPacket(widths, sop, data, unpaired);
      PacketsComplete(widths, sop, data, unpaired);
    }
  }
}
