/** The other way an attempt succeeds: a hard reset, which ends with its start-of-packet codes. */
module CodecHardReset {
  import opened Crc
  import opened Symbols
  import opened BmcDecoding
  import opened CodecGrammar
  import opened CodecSoundness
  import opened CodecCompleteness
  import opened BmcEncoding
  import opened CodecRoundTrip
  import opened Octets

  predicate IsResetCodes(sop: seq<nat>) {
    |sop| == 4 && AreCodes(sop) && Classify(sop) == HardReset
  }

  /** A preamble and then the bits of four codes that read as hard reset, and nothing more. */
  predicate IsHardReset(widths: seq<nat>, sop: seq<nat>) {
    && PREAMBLE_PULSES <= |widths| <= MAX_PULSES && InRange(widths) && IsResetCodes(sop)
    && Shows(widths[PREAMBLE_PULSES..], Threshold(WeightedSum(widths[..PREAMBLE_PULSES])), CodeBits(sop))
  }

  /** The pulse dealt with once the preamble is over. */
  function FeedBody(d: Decoder, width: nat): (Decoder, Event) {
    if d.phase == ReadingSOP then FeedSOP(d, width) else FeedData(d, width)
  }

  // ----- A hard reset was on the wire -----

  lemma ResetCodeEnds(e: Decoder, next: Reading)
    requires Between(e, next) && Shape(e) && PhaseShape(e) && e.codeBits == 5 && !next.half
    requires e.phase == ReadingSOP && SOPCode(e).1 == HardResetReceived
    ensures IsResetCodes(SOPCode(e).0.sop) && next == Reading(CodeBits(SOPCode(e).0.sop), false)
  {
    hide Classify, CodeBits, DataCodes;
    CompleteCode(e, next);
    assert ReadCodes(e) == e.sop by { NoDataCodes(e); }
  }

  lemma NoDataCodes(e: Decoder)
    requires e.data == [] && e.expectLow
    ensures ReadCodes(e) == e.sop
  {
    assert DataCodes([]) == [];
  }

  lemma DataNeverResets(d: Decoder, width: nat)
    ensures FeedData(d, width).1 != HardResetReceived
  {
    hide Validates;
  }

  lemma ResetPulseEnds(d: Decoder, r: Reading, width: nat)
    requires InPacket(d, r) && FeedBody(d, width).1 == HardResetReceived
    ensures var e := FeedBody(d, width).0;
      IsResetCodes(e.sop) && Extend(r, width, d.threshold) == Reading(CodeBits(e.sop), false)
  {
    hide FeedData, FeedBit, Classify, Between, Shape, PhaseShape, InPacket, IsResetCodes, CodeBits, Extend;
    DataNeverResets(d, width);
    var next := Extend(r, width, d.threshold);
    FeedBitReads(d, r, width);
    var e := FeedBit(d, width);
    BetweenShape(d, e, r, next);
    HalfAgrees(e, next);
    NoHalfAfterBit(d, width);
    hide SOPCode;
    ResetCodeEnds(e, next);
  }

  // ----- A hard reset on the wire is received -----

  predicate ResetOnTrack(event: Event, isLast: bool) {
    if isLast then event == HardResetReceived else !event.IsCompletion()
  }

  lemma ResetCodeOnTrack(e: Decoder, next: Reading, sop: seq<nat>)
    requires Between(e, next) && Shape(e) && PhaseShape(e) && e.codeBits == 5 && e.phase == ReadingSOP
    requires IsResetCodes(sop) && next.bits <= CodeBits(sop)
    ensures ResetOnTrack(SOPCode(e).1, next.bits == CodeBits(sop))
  {
    hide Classify, Between, Shape;
    CodeOnTrack(e, next, sop);
    CompleteCode(e, next);
    NoDataCodes(e);
    var codes := e.sop + [e.code];
    if |codes| == 4 {
      assert codes == sop;
    }
  }

  /** Four codes are already more than a hard reset leaves room for after them. */
  lemma ResetNeedsNoData(d: Decoder, r: Reading, sop: seq<nat>)
    requires InPacket(d, r) && IsResetCodes(sop) && r.bits <= CodeBits(sop)
    ensures d.phase == ReadingSOP
  {
    hide Classify, CodeBits, DataCodes;
    if d.phase == ReadingData {
      ReadCodesAreCodes(d);
      assert CodeBits(ReadCodes(d)) <= r.bits;
      CodesAreDetermined(ReadCodes(d), sop);
      FourCodesAreTheSOP(d, sop);
    }
  }

  lemma FourCodesAreTheSOP(d: Decoder, sop: seq<nat>)
    requires |d.sop| == 4 && |sop| == 4 && ReadCodes(d) <= sop
    ensures d.sop == sop
  {
    assert ReadCodes(d)[..4] == d.sop;
  }

  lemma ResetPulseOnTrack(d: Decoder, r: Reading, width: nat, sop: seq<nat>)
    requires InPacket(d, r) && IsResetCodes(sop)
    requires r.bits <= Extend(r, width, d.threshold).bits <= CodeBits(sop)
    ensures d.phase == ReadingSOP
    ensures ResetOnTrack(FeedBody(d, width).1, Extend(r, width, d.threshold) == Reading(CodeBits(sop), false))
  {
    hide Between, InPacket, Shape, PhaseShape, IsResetCodes, SOPCode, FeedData, FeedBit, Extend, CodeBits;
    var next := Extend(r, width, d.threshold);
    ResetNeedsNoData(d, r, sop);
    FeedBitReads(d, r, width);
    var e := FeedBit(d, width);
    BetweenShape(d, e, r, next);
    if e.codeBits == 5 {
      HalfAgrees(e, next);
      NoHalfAfterBit(d, width);
      ResetCodeOnTrack(e, next, sop);
    } else {
      AtMostFive(e, next);
      MidSymbol(d, e, next, width, sop);
    }
  }

  /** One more pulse of a run, as the body of the decoder sees it. */
  lemma BodyPulse(widths: seq<nat>, n: nat)
    requires PREAMBLE_PULSES <= n < |widths| <= MAX_PULSES && InRange(widths) && Quiet(RESET, widths[..n])
    ensures var d, tail, k := After(RESET, widths[..n]), widths[PREAMBLE_PULSES..], n - PREAMBLE_PULSES;
      var f := d.(pulses := d.pulses + [widths[n] % 0x1_0000]);
      var threshold := Threshold(WeightedSum(widths[..PREAMBLE_PULSES]));
      && Feed(d, widths[n]) == FeedBody(f, widths[n])
      && f.threshold == threshold && InPacket(f, Demodulate(tail[..k], threshold))
      && Demodulate(tail[..k + 1], threshold) == Extend(Demodulate(tail[..k], threshold), widths[n], threshold)
  {
    hide Quiet, After, FeedSOP, FeedData, FeedPreamble, Demodulate, WeightedSum, InPacket, Extend, Threshold;
    RunReads(widths[..n]);
    var d := After(RESET, widths[..n]);
    assert widths[..n][..PREAMBLE_PULSES] == widths[..PREAMBLE_PULSES];
    var tail, k := widths[PREAMBLE_PULSES..], n - PREAMBLE_PULSES;
    assert widths[..n][PREAMBLE_PULSES..] == tail[..k] && tail[..k] + [widths[n]] == tail[..k + 1];
    var r := Demodulate(tail[..k], d.threshold);
    DemodulateSnoc(tail[..k], widths[n], d.threshold);
    var f := d.(pulses := d.pulses + [widths[n] % 0x1_0000]);
    PulsesDoNotMatter(d, f, r);
    NotPreamble(d, r);
  }

  lemma ResetPulse(widths: seq<nat>, n: nat, sop: seq<nat>)
    requires IsHardReset(widths, sop) && PREAMBLE_PULSES <= n < |widths| && Quiet(RESET, widths[..n])
    ensures ResetOnTrack(Feed(After(RESET, widths[..n]), widths[n]).1, n + 1 == |widths|)
  {
    hide Quiet, After, Feed, FeedBody, Demodulate, WeightedSum, InPacket, Extend, Threshold, Shows, IsResetCodes,
      CodeBits;
    BodyPulse(widths, n);
    var tail, k := widths[PREAMBLE_PULSES..], n - PREAMBLE_PULSES;
    var threshold := Threshold(WeightedSum(widths[..PREAMBLE_PULSES]));
    TailOnTrack(tail, k + 1, threshold, CodeBits(sop));
    var d := After(RESET, widths[..n]);
    var f := d.(pulses := d.pulses + [widths[n] % 0x1_0000]);
    DemodulateGrows(tail[..k + 1], k, threshold);
    assert tail[..k + 1][..k] == tail[..k];
    ResetPulseOnTrack(f, Demodulate(tail[..k], threshold), widths[n], sop);
  }

  lemma {:induction false} ResetIsQuiet(widths: seq<nat>, n: nat, sop: seq<nat>)
    requires IsHardReset(widths, sop) && n < |widths|
    ensures Quiet(RESET, widths[..n])
    decreases n
  {
    hide Feed, IsResetCodes, Shows, WeightedSum, Threshold, HasRead;
    if n == 0 {
    } else {
      var before := widths[..n - 1];
      ResetIsQuiet(widths, n - 1, sop);
      assert widths[..n] == before + [widths[n - 1]];
      QuietConcat(RESET, before, [widths[n - 1]]);
      OnePulse(After(RESET, before), widths[n - 1]);
      if n - 1 < PREAMBLE_PULSES {
        RunReads(before);
        FeedPreambleReads(After(RESET, before), before, widths[n - 1]);
      } else {
        ResetPulse(widths, n - 1, sop);
      }
    }
  }

  lemma HardResetsComplete(widths: seq<nat>, sop: seq<nat>)
    requires IsHardReset(widths, sop)
    ensures CompletesWith(widths, HardResetReceived)
  {
    hide Feed, Shows, Quiet, After, Classify, WeightedSum, Threshold;
    var n := |widths| - 1;
    ResetIsLonger(widths, sop);
    ResetIsQuiet(widths, n, sop);
    ResetPulse(widths, n, sop);
  }

  lemma ResetIsLonger(widths: seq<nat>, sop: seq<nat>)
    requires IsHardReset(widths, sop)
    ensures |widths| > PREAMBLE_PULSES
  {
    assert |CodeBits(sop)| == 20;
  }

  lemma ResetsAreSound(widths: seq<nat>)
    requires CompletesWith(widths, HardResetReceived)
    ensures IsHardReset(widths, After(RESET, widths).sop)
  {
    hide Feed, FeedBody, HasRead, IsResetCodes, Extend, Demodulate, InPacket, Shows, Quiet, After, Threshold,
      WeightedSum, CodeBits;
    var n := |widths| - 1;
    var d := After(RESET, widths[..n]);
    RunReads(widths[..n]);
    ResetComesLate(d, widths[..n], widths[n]);
    InRangeLast(widths, n);
    BodyPulse(widths, n);
    var tail, k := widths[PREAMBLE_PULSES..], n - PREAMBLE_PULSES;
    assert tail[..k + 1] == tail;
    var threshold := Threshold(WeightedSum(widths[..PREAMBLE_PULSES]));
    var f := d.(pulses := d.pulses + [widths[n] % 0x1_0000]);
    ResetPulseEnds(f, Demodulate(tail[..k], threshold), widths[n]);
    DemodulateShows(tail, threshold);
    assert widths == widths[..n] + [widths[n]];
    AfterConcat(RESET, widths[..n], [widths[n]]);
    OnePulse(d, widths[n]);
  }

  lemma ResetComesLate(d: Decoder, widths: seq<nat>, width: nat)
    requires HasRead(d, widths) && Feed(d, width).1 == HardResetReceived
    ensures |widths| >= PREAMBLE_PULSES && |widths| < MAX_PULSES && InRange(widths)
      && RUNT_WIDTH <= width < TIMEOUT_WIDTH
  {
    hide FeedSOP, FeedData, InPacket, WeightedSum;
    assert |widths| < MAX_PULSES && RUNT_WIDTH <= width < TIMEOUT_WIDTH;
    if |widths| < PREAMBLE_PULSES {
      FeedPreambleReads(d, widths, width);
    }
  }

  lemma InRangeLast(widths: seq<nat>, n: nat)
    requires |widths| == n + 1 && InRange(widths[..n]) && RUNT_WIDTH <= widths[n] < TIMEOUT_WIDTH
    ensures InRange(widths)
  {
    forall i | 0 <= i < n ensures RUNT_WIDTH <= widths[i] < TIMEOUT_WIDTH {
      assert widths[..n][i] == widths[i];
    }
  }

  /** The decoder reports a hard reset on a run of pulses exactly when the run shows one. */
  lemma ResetsIffHardReset(widths: seq<nat>)
    ensures CompletesWith(widths, HardResetReceived) <==> exists sop :: IsHardReset(widths, sop)
  {
    hide CompletesWith, IsHardReset, After;
    if CompletesWith(widths, HardResetReceived) {
      ResetsAreSound(widths);
    }
    if sop :| IsHardReset(widths, sop) {
      HardResetsComplete(widths, sop);
    }
  }

  // ----- A hard reset frame that was sent -----

  lemma {:induction false} ShowsPrefix(widths: seq<nat>, threshold: nat, a: seq<bool>, b: seq<bool>) returns (n: nat)
    requires Shows(widths, threshold, a + b)
    ensures n <= |widths| && Shows(widths[..n], threshold, a)
    decreases |b|
  {
    if b == [] {
      assert a + b == a && widths[..|widths|] == widths;
      n := |widths|;
    } else {
      var bits, last := a + b, |widths| - (if b[|b| - 1] then 2 else 1);
      assert bits[..|bits| - 1] == a + b[..|b| - 1];
      n := ShowsPrefix(widths[..last], threshold, a, b[..|b| - 1]);
      assert widths[..last][..n] == widths[..n];
    }
  }

  lemma {:induction false} ShowsCount(widths: seq<nat>, threshold: nat, bits: seq<bool>)
    requires Shows(widths, threshold, bits)
    ensures |widths| <= 2 * |bits|
    decreases |bits|
  {
    if bits == [] {
    } else {
      ShowsCount(widths[..|widths| - (if bits[|bits| - 1] then 2 else 1)], threshold, bits[..|bits| - 1]);
    }
  }

  lemma ResetCodes()
    ensures IsResetCodes(KCodes(HardReset))
  {
    ClassifyInvertsKCodes(HardReset);
  }

  lemma PartInRange(widths: seq<nat>, n: nat)
    requires n <= |widths| && InRange(widths)
    ensures InRange(widths[..n])
  {
  }

  /** A run that shows hard reset codes and more has a part that is a hard reset and no more. */
  lemma ResetWithinRun(widths: seq<nat>, sop: seq<nat>, later: seq<bool>) returns (n: nat)
    requires PREAMBLE_PULSES <= |widths| && InRange(widths) && IsResetCodes(sop)
    requires Shows(widths[PREAMBLE_PULSES..], Threshold(WeightedSum(widths[..PREAMBLE_PULSES])), CodeBits(sop) + later)
    ensures n <= |widths| && IsHardReset(widths[..n], sop)
  {
    hide Shows, CodeBits, WeightedSum, Threshold, Classify, InRange;
    var threshold := Threshold(WeightedSum(widths[..PREAMBLE_PULSES]));
    var k := ShowsPrefix(widths[PREAMBLE_PULSES..], threshold, CodeBits(sop), later);
    n := PREAMBLE_PULSES + k;
    assert widths[..n][PREAMBLE_PULSES..] == widths[PREAMBLE_PULSES..][..k];
    assert widths[..n][..PREAMBLE_PULSES] == widths[..PREAMBLE_PULSES];
    ShowsCount(widths[..n][PREAMBLE_PULSES..], threshold, CodeBits(sop));
    PartInRange(widths, n);
  }

  /** The codes of a frame, its start of packet apart. */
  lemma FrameInTwo(sop: SOPType, header: RawHeader, body: seq<Byte>) returns (later: seq<bool>)
    ensures CodeBits(FrameCodes(sop, header, body)) == CodeBits(KCodes(sop)) + later
  {
    hide CodeBits, DataCodes, KCodes, Packet;
    var codes := DataCodes(Packet(header, body)) + [EOP_5B];
    assert FrameCodes(sop, header, body) == KCodes(sop) + codes;
    CodeBitsConcat(KCodes(sop), codes);
    later := CodeBits(codes);
  }

  /**
   * A hard reset sent with tolerable jitter is reported at the end of its codes, whatever the encoder sends
   * after them.
   */
  lemma HardResetFramesAreReported(header: RawHeader, body: seq<Byte>, widths: seq<nat>, half: nat, jitter: nat)
    requires Tolerable(half, jitter) && Renders(widths, FrameBits(HardReset, header, body), half, jitter)
    ensures exists n :: 0 <= n <= |widths| && CompletesWith(widths[..n], HardResetReceived)
  {
    hide *;
    FrameBitsAre(header, body);
    FrameShows(widths, FrameCodes(HardReset, header, body), half, jitter);
    var later := FrameInTwo(HardReset, header, body);
    ResetCodes();
    var n := ResetWithinRun(widths, KCodes(HardReset), later);
    HardResetsComplete(widths[..n], KCodes(HardReset));
  }

  lemma FrameBitsAre(header: RawHeader, body: seq<Byte>)
    ensures FrameBits(HardReset, header, body) == Preamble() + CodeBits(FrameCodes(HardReset, header, body))
  {
  }
}
