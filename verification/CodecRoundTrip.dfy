/**
 * Encoding a message, sending it as bi-phase mark pulses of imperfect width (section 5.8.1 of the USB Power
 * Delivery Specification R3.x) and decoding the pulses gives the message back.
 */
module CodecRoundTrip {
  import opened Bits
  import opened Crc
  import opened Symbols
  import opened BmcEncoding
  import opened BmcDecoding
  import opened CodecGrammar
  import opened CodecSoundness
  import opened CodecCompleteness
  import opened Octets

  predicate Near(width: nat, nominal: nat, jitter: nat) {
    nominal <= width + jitter && width <= nominal + jitter
  }

  /** A zero is sent as one pulse of about 2 * half, a one as two of about half. */
  predicate Renders(widths: seq<nat>, bits: seq<bool>, half: nat, jitter: nat) {
    if bits == [] then widths == []
    else
      var n, rest := |widths|, bits[..|bits| - 1];
      if bits[|bits| - 1] then
        n >= 2 && Near(widths[n - 1], half, jitter) && Near(widths[n - 2], half, jitter)
        && Renders(widths[..n - 2], rest, half, jitter)
      else
        n >= 1 && Near(widths[n - 1], 2 * half, jitter) && Renders(widths[..n - 1], rest, half, jitter)
  }

  /** How many pulses the bits take. */
  function Pulses(bits: seq<bool>): (n: nat)
    ensures |bits| <= n <= 2 * |bits|
  {
    if bits == [] then 0 else Pulses(bits[..|bits| - 1]) + (if bits[|bits| - 1] then 2 else 1)
  }

  lemma {:induction false} RendersSplit(widths: seq<nat>, a: seq<bool>, b: seq<bool>, half: nat, jitter: nat)
    requires Renders(widths, a + b, half, jitter)
    ensures |widths| == Pulses(a) + Pulses(b)
    ensures Renders(widths[..Pulses(a)], a, half, jitter) && Renders(widths[Pulses(a)..], b, half, jitter)
    decreases b
  {
    hide Renders;
    var k := Pulses(a);
    if b == [] {
      assert a + b == a;
      RendersCount(widths, a, half, jitter);
      assert widths[..k] == widths && widths[k..] == [];
      NothingRenders(half, jitter);
    } else {
      var n, c := |widths|, b[..|b| - 1];
      assert (a + b)[..|a + b| - 1] == a + c;
      RendersLast(widths, a + b, half, jitter);
      var shorter := widths[..if b[|b| - 1] then n - 2 else n - 1];
      RendersSplit(shorter, a, c, half, jitter);
      assert shorter[..k] == widths[..k];
      assert widths[k..][..|shorter| - k] == shorter[k..];
      RendersLast(widths[k..], b, half, jitter);
    }
  }

  lemma NothingRenders(half: nat, jitter: nat)
    ensures Renders([], [], half, jitter)
  {
  }

  lemma RendersLast(widths: seq<nat>, bits: seq<bool>, half: nat, jitter: nat)
    requires bits != []
    ensures Renders(widths, bits, half, jitter) <==>
      var n, last := |widths|, bits[|bits| - 1];
      var step := if last then 2 else 1;
      n >= step && Near(widths[n - 1], if last then half else 2 * half, jitter)
      && (last ==> Near(widths[n - 2], half, jitter))
      && Renders(widths[..n - step], bits[..|bits| - 1], half, jitter)
  {
  }

  lemma {:induction false} RendersCount(widths: seq<nat>, bits: seq<bool>, half: nat, jitter: nat)
    requires Renders(widths, bits, half, jitter)
    ensures |widths| == Pulses(bits)
    decreases bits
  {
    if bits == [] {
    } else {
      var n := |widths|;
      RendersCount(widths[..if bits[|bits| - 1] then n - 2 else n - 1], bits[..|bits| - 1], half, jitter);
    }
  }

  lemma {:induction false} RendersInRange(widths: seq<nat>, bits: seq<bool>, half: nat, jitter: nat)
    requires Renders(widths, bits, half, jitter)
    requires RUNT_WIDTH + jitter <= half && 2 * half + jitter < TIMEOUT_WIDTH
    ensures InRange(widths)
    decreases bits
  {
    if bits == [] {
    } else {
      var n := |widths|;
      RendersInRange(widths[..if bits[|bits| - 1] then n - 2 else n - 1], bits[..|bits| - 1], half, jitter);
    }
  }

  /** If the threshold lies above every short pulse and not above any long one, every bit is recovered. */
  lemma {:induction false} RenderedBitsShow(widths: seq<nat>, bits: seq<bool>, half: nat, jitter: nat, threshold: nat)
    requires Renders(widths, bits, half, jitter)
    requires half + jitter < threshold && threshold + jitter <= 2 * half
    ensures Shows(widths, threshold, bits)
    decreases bits
  {
    if bits == [] {
    } else {
      var n := |widths|;
      var rest := widths[..if bits[|bits| - 1] then n - 2 else n - 1];
      RenderedBitsShow(rest, bits[..|bits| - 1], half, jitter, threshold);
    }
  }

  // ----- The preamble -----

  function Alternating(n: nat): (bits: seq<bool>)
    ensures |bits| == 2 * n
  {
    if n == 0 then [] else Alternating(n - 1) + [false, true]
  }

  lemma {:induction false} AlternatingConcat(m: nat, n: nat)
    ensures Alternating(m + n) == Alternating(m) + Alternating(n)
  {
    if n == 0 {
    } else {
      AlternatingConcat(m, n - 1);
    }
  }

  function AlternatingValue(n: nat): nat {
    if n == 0 then 0 else 2 + 4 * AlternatingValue(n - 1)
  }

  lemma {:induction false} AlternatingBits(n: nat)
    ensures LowBits(AlternatingValue(n), 2 * n) == Alternating(n)
  {
    if n == 0 {
    } else {
      hide Alternating, LowBits, AlternatingValue;
      AlternatingBits(n - 1);
      AlternatingFirst(n);
      PairBits(AlternatingValue(n - 1), 2 * (n - 1));
    }
  }

  lemma AlternatingFirst(n: nat)
    requires n > 0
    ensures AlternatingValue(n) == 2 + 4 * AlternatingValue(n - 1)
    ensures Alternating(n) == [false, true] + Alternating(n - 1)
  {
    AlternatingConcat(1, n - 1);
    assert Alternating(0) == [];
    assert Alternating(1) == [false, true];
  }

  lemma PairBits(v: nat, n: nat)
    ensures LowBits(2 + 4 * v, n + 2) == [false, true] + LowBits(v, n)
  {
    hide LowBits;
    var half := 1 + 2 * v;
    Halves(half, v);
    FirstBit(2 * half, half, n + 2, false);
    FirstBit(half, v, n + 1, true);
  }

  lemma Halves(half: nat, v: nat)
    requires half == 1 + 2 * v
    ensures 2 * half == 2 + 4 * v && 2 * half % 2 == 0 && 2 * half / 2 == half && half % 2 == 1 && half / 2 == v
  {
  }

  lemma FirstBit(data: nat, rest: nat, n: nat, bit: bool)
    requires n > 0 && rest == data / 2 && bit == (data % 2 == 1)
    ensures LowBits(data, n) == [bit] + LowBits(rest, n - 1)
  {
  }

  lemma PreambleIsAlternating()
    ensures Preamble() == Alternating(32)
  {
    assert AlternatingValue(4) == 0xAA;
    assert AlternatingValue(8) == 0xAAAA;
    assert AlternatingValue(12) == 0xAA_AAAA;
    assert AlternatingValue(16) == 0xAAAA_AAAA;
    AlternatingBits(16);
    AlternatingConcat(16, 16);
  }

  lemma {:induction false} AlternatingPulses(n: nat)
    ensures Pulses(Alternating(n)) == 3 * n
  {
    if n == 0 {
    } else {
      AlternatingPulses(n - 1);
      LastPair(n);
    }
  }

  lemma LastPair(n: nat)
    requires n > 0
    ensures var bits := Alternating(n);
      bits[..|bits| - 1][..|bits| - 2] == Alternating(n - 1) && bits[|bits| - 1] && !bits[|bits| - 2]
  {
  }

  /** A weighted sum that stands for `n` triples of pulses. */
  predicate SumsTo(sum: nat, n: nat, half: nat, jitter: nat) {
    (6 * half) * n - (4 * jitter) * n <= sum <= (6 * half) * n + (4 * jitter) * n
  }

  lemma OneMoreTriple(sum: nat, n: nat, half: nat, jitter: nat, a: nat, b: nat, c: nat)
    requires n > 0 && SumsTo(sum, n - 1, half, jitter)
    requires Near(a, 2 * half, jitter) && Near(b, half, jitter) && Near(c, half, jitter)
    ensures SumsTo(sum + 2 * a + b + c, n, half, jitter)
  {
    Distribute(6 * half, n);
    Distribute(4 * jitter, n);
  }

  /** The weights make each long-short-short triple count three long pulses. */
  lemma {:induction false} PreambleSum(widths: seq<nat>, n: nat, half: nat, jitter: nat)
    requires Renders(widths, Alternating(n), half, jitter)
    ensures |widths| == 3 * n && SumsTo(WeightedSum(widths), n, half, jitter)
  {
    if n == 0 {
      assert widths == [];
    } else {
      hide Renders, WeightedSum, Alternating, SumsTo, Near;
      LastPair(n);
      LastTriple(widths, Alternating(n), half, jitter);
      PreambleSum(widths[..|widths| - 3], n - 1, half, jitter);
      SumWithTriple(widths, n, half, jitter);
    }
  }

  lemma SumWithTriple(widths: seq<nat>, n: nat, half: nat, jitter: nat)
    requires n > 0 && |widths| == 3 * n && SumsTo(WeightedSum(widths[..|widths| - 3]), n - 1, half, jitter)
    requires var m := |widths|;
      Near(widths[m - 3], 2 * half, jitter) && Near(widths[m - 2], half, jitter) && Near(widths[m - 1], half, jitter)
    ensures SumsTo(WeightedSum(widths), n, half, jitter)
  {
    hide WeightedSum, SumsTo, Near;
    var m := |widths|;
    var rest, a, b, c := widths[..m - 3], widths[m - 3], widths[m - 2], widths[m - 1];
    assert widths == rest + [a, b, c];
    SumOfTriple(rest, a, b, c);
    OneMoreTriple(WeightedSum(rest), n, half, jitter, a, b, c);
  }

  lemma LastTriple(widths: seq<nat>, bits: seq<bool>, half: nat, jitter: nat)
    requires |bits| >= 2 && bits[|bits| - 1] && !bits[|bits| - 2] && Renders(widths, bits, half, jitter)
    ensures var m := |widths|;
      m >= 3 && Near(widths[m - 1], half, jitter) && Near(widths[m - 2], half, jitter)
      && Near(widths[m - 3], 2 * half, jitter)
      && Renders(widths[..m - 3], bits[..|bits| - 1][..|bits| - 2], half, jitter)
  {
    var m := |widths|;
    assert bits[..|bits| - 1][|bits| - 2] == bits[|bits| - 2];
    assert Renders(widths[..m - 2], bits[..|bits| - 1], half, jitter);
    assert widths[..m - 2][..m - 3] == widths[..m - 3];
  }

  lemma SumOfTriple(widths: seq<nat>, a: nat, b: nat, c: nat)
    requires |widths| % 3 == 0
    ensures WeightedSum(widths + [a, b, c]) == WeightedSum(widths) + 2 * a + b + c
  {
    hide WeightedSum;
    WeightedSumSnoc(widths, a);
    WeightedSumSnoc(widths + [a], b);
    WeightedSumSnoc(widths + [a] + [b], c);
    assert widths + [a] + [b] + [c] == widths + [a, b, c];
  }

  lemma Distribute(x: nat, n: nat)
    requires n > 0
    ensures x * n == x * (n - 1) + x
  {
  }

  /** The learned threshold separates short pulses from long ones when 17 * jitter + 12 <= 3 * half. */
  lemma ThresholdSeparates(sum: nat, half: nat, jitter: nat)
    requires 17 * jitter + 12 <= 3 * half
    requires 192 * half - 128 * jitter <= sum <= 192 * half + 128 * jitter
    ensures half + jitter < Threshold(sum) && Threshold(sum) + jitter <= 2 * half
  {
  }

  // ----- Round trip -----

  /** Pulse widths the decoder can tell apart: no runts, no timeouts, and little enough jitter. */
  predicate Tolerable(half: nat, jitter: nat) {
    && RUNT_WIDTH + jitter <= half
    && 2 * half + jitter < TIMEOUT_WIDTH
    && 17 * jitter + 12 <= 3 * half
  }

  /** A frame sent within tolerance: its threshold reads back every bit after the preamble. */
  lemma FrameShows(widths: seq<nat>, codes: seq<nat>, half: nat, jitter: nat)
    requires Tolerable(half, jitter) && Renders(widths, Preamble() + CodeBits(codes), half, jitter)
    ensures PREAMBLE_PULSES <= |widths| <= PREAMBLE_PULSES + 10 * |codes| && InRange(widths)
    ensures Shows(widths[PREAMBLE_PULSES..], Threshold(WeightedSum(widths[..PREAMBLE_PULSES])), CodeBits(codes))
  {
    hide Renders, CodeBits, Threshold, WeightedSum, Pulses, Shows, Alternating;
    PreambleIsAlternating();
    AlternatingPulses(32);
    RendersSplit(widths, Preamble(), CodeBits(codes), half, jitter);
    RendersInRange(widths, Preamble() + CodeBits(codes), half, jitter);
    PreambleSum(widths[..PREAMBLE_PULSES], 32, half, jitter);
    ThresholdSeparates(WeightedSum(widths[..PREAMBLE_PULSES]), half, jitter);
    RenderedBitsShow(widths[PREAMBLE_PULSES..], CodeBits(codes), half, jitter,
                     Threshold(WeightedSum(widths[..PREAMBLE_PULSES])));
  }

  lemma FrameCodesArePacket(sop: SOPType, header: RawHeader, body: seq<Byte>)
    ensures FrameCodes(sop, header, body) == PacketCodes(KCodes(sop), Packet(header, body), []) + [EOP_5B]
  {
  }

  lemma PacketValidates(header: RawHeader, body: seq<Byte>)
    ensures Validates(Packet(header, body)) && |Packet(header, body)| == 6 + |body|
  {
    ChecksumValidates(Covered(header, body));
  }

  /**
   * The round trip: a message of any type but hard reset, with any header and up to 256 bytes of body, sent
   * with tolerable jitter, completes once, on the last pulse, with its own codes, header, body and CRC.
   */
  lemma RoundTrip(sop: SOPType, header: RawHeader, body: seq<Byte>, widths: seq<nat>, half: nat, jitter: nat)
    requires sop != HardReset && |body| <= MAX_DATA - 6
    requires Tolerable(half, jitter) && Renders(widths, FrameBits(sop, header, body), half, jitter)
    ensures CompletesWith(widths, MessageComplete)
    ensures var d := After(RESET, widths); d.sop == KCodes(sop) && d.data == Packet(header, body)
  {
    hide Renders, Shows, Validates, CompletesWith, After, Packet, Tolerable, InRange, Classify, KCodes, DataCodes,
      CodeBits, Threshold, WeightedSum;
    var codes := FrameCodes(sop, header, body);
    FrameShows(widths, codes, half, jitter);
    FrameCodesArePacket(sop, header, body);
    PacketValidates(header, body);
    ClassifyInvertsKCodes(sop);
    PacketsComplete(widths, KCodes(sop), Packet(header, body), []);
  }

  /** What the accessors of a decoded message give for a packet: the header and the body that were sent. */
  lemma PacketFields(header: RawHeader, body: seq<Byte>)
    ensures var data := Packet(header, body);
      HeaderOf(data) == header && data[2..|data| - 4] == body
  {
    var data := Packet(header, body);
    assert data[2..|data| - 4] == body;
  }

  /**
   * The limit is exact. The encoder accepts bodies of up to 262 bytes, but the decoder's buffer of 262 holds
   * header and CRC too: a frame sent within tolerance completes as a message if and only if it is not a
   * hard reset and its body is at most 256 bytes long.
   */
  lemma RoundTripIffFits(sop: SOPType, header: RawHeader, body: seq<Byte>, widths: seq<nat>, half: nat, jitter: nat)
    requires Tolerable(half, jitter) && Renders(widths, FrameBits(sop, header, body), half, jitter)
    ensures CompletesWith(widths, MessageComplete) <==> sop != HardReset && |body| <= MAX_DATA - 6
  {
    hide Renders, Shows, CompletesWith, Tolerable, InRange, IsPacket, Classify;
    if sop != HardReset && |body| <= MAX_DATA - 6 {
      RoundTrip(sop, header, body, widths, half, jitter);
    }
    if CompletesWith(widths, MessageComplete) {
      CompletesIffPacket(widths);
      var sop', data, unpaired :| IsPacket(widths, sop', data, unpaired);
      FrameShows(widths, FrameCodes(sop, header, body), half, jitter);
      FrameIsPacket(sop, header, body, widths, sop', data, unpaired);
    }
  }

  /** The packet a frame's pulses show can only be that frame. */
  lemma FrameIsPacket(sop: SOPType, header: RawHeader, body: seq<Byte>,
                      widths: seq<nat>, sop': seq<nat>, data: seq<Byte>, unpaired: seq<nat>)
    requires IsPacket(widths, sop', data, unpaired)
    requires Shows(widths[PREAMBLE_PULSES..], Threshold(WeightedSum(widths[..PREAMBLE_PULSES])),
                   CodeBits(FrameCodes(sop, header, body)))
    ensures sop != HardReset && |body| <= MAX_DATA - 6
  {
    hide Shows, InRange, Validates, Classify, Packet, CodeBits, DataCodes;
    var tail, threshold := widths[PREAMBLE_PULSES..], Threshold(WeightedSum(widths[..PREAMBLE_PULSES]));
    var codes := FrameCodes(sop, header, body);
    var codes' := PacketCodes(sop', data, unpaired) + [EOP_5B];
    ShowsDemodulates(tail, threshold, CodeBits(codes));
    ShowsDemodulates(tail, threshold, CodeBits(codes'));
    PacketIsCodes(sop', data, unpaired);
    FrameIsCodes(sop, header, body);
    CodesAreDetermined(codes, codes');
    FrameCodesArePacket(sop, header, body);
    PacketValidates(header, body);
    SamePacket(KCodes(sop), Packet(header, body), [], sop', data, unpaired);
    ClassifyInvertsKCodes(sop);
  }

  lemma FrameIsCodes(sop: SOPType, header: RawHeader, body: seq<Byte>)
    ensures AreCodes(FrameCodes(sop, header, body))
  {
    hide Packet;
    var codes := FrameCodes(sop, header, body);
    FrameCodesArePacket(sop, header, body);
    forall i | 0 <= i < |codes|
      ensures codes[i] < 32
    {
      if 4 <= i < |codes| - 1 {
        PacketSymbol(KCodes(sop), Packet(header, body), [], i);
      }
    }
  }

  lemma SamePacket(sop: seq<nat>, data: seq<Byte>, unpaired: seq<nat>, sop': seq<nat>, data': seq<Byte>,
    unpaired': seq<nat>)
    requires |sop| == |sop'| == 4 && |unpaired| <= 1 && |unpaired'| <= 1
    requires PacketCodes(sop, data, unpaired) + [EOP_5B] == PacketCodes(sop', data', unpaired') + [EOP_5B]
    ensures sop == sop' && data == data'
  {
    var x, y := PacketCodes(sop, data, unpaired), PacketCodes(sop', data', unpaired');
    assert x == (x + [EOP_5B])[..|x|] && y == (y + [EOP_5B])[..|y|];
    assert x[..4] == sop && y[..4] == sop';
    assert |data| == |data'|;
    assert x[4..4 + 2 * |data|] == DataCodes(data) && y[4..4 + 2 * |data|] == DataCodes(data');
    DataAreDetermined(data, data');
  }
}
