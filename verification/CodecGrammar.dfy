/**
 * What the decoder accepts, stated without the decoder: a packet is a run of pulses whose widths show the
 * bits of four start-of-packet codes, the symbols of some bytes, possibly one unpaired symbol, and the
 * end-of-packet code. The decoder completes a message on exactly these runs, with exactly these bytes.
 */
module CodecGrammar {
  import opened Crc
  import opened Symbols
  import opened BmcDecoding
  import opened Octets

  predicate InRange(widths: seq<nat>) {
    forall i :: 0 <= i < |widths| ==> RUNT_WIDTH <= widths[i] < TIMEOUT_WIDTH
  }

  /** The preamble's widths, every third one counted twice. */
  function WeightedSum(widths: seq<nat>): nat {
    if widths == [] then 0
    else
      var last := |widths| - 1;
      WeightedSum(widths[..last]) + (if last % 3 == 0 then 2 * widths[last] else widths[last])
  }

  /**
   * The widths show the bits: a zero is one pulse at least as long as the threshold, a one is a shorter
   * pulse and the pulse after it, whatever its width.
   */
  predicate Shows(widths: seq<nat>, threshold: nat, bits: seq<bool>) {
    if bits == [] then widths == []
    else
      var n, rest := |widths|, bits[..|bits| - 1];
      if bits[|bits| - 1] then n >= 2 && widths[n - 2] < threshold && Shows(widths[..n - 2], threshold, rest)
      else n >= 1 && widths[n - 1] >= threshold && Shows(widths[..n - 1], threshold, rest)
  }

  /** The symbols of a packet between its preamble and its end-of-packet code. */
  function PacketCodes(sop: seq<nat>, data: seq<Byte>, unpaired: seq<nat>): seq<nat> {
    sop + DataCodes(data) + unpaired
  }

  ghost predicate IsUnpaired(unpaired: seq<nat>) {
    unpaired == [] || exists n :: 0 <= n < 16 && unpaired == [FOUR_TO_FIVE[n]]
  }

  predicate IsSOP(sop: seq<nat>) {
    && |sop| == 4
    && (forall i :: 0 <= i < 4 ==> sop[i] < 32)
    && Classify(sop) != HardReset
  }

  /** A complete run of pulses that carries these bytes. */
  ghost predicate IsPacket(widths: seq<nat>, sop: seq<nat>, data: seq<Byte>, unpaired: seq<nat>) {
    && PREAMBLE_PULSES <= |widths| <= MAX_PULSES
    && InRange(widths)
    && IsSOP(sop)
    && |data| <= MAX_DATA
    && IsUnpaired(unpaired)
    && Validates(data)
    && Shows(widths[PREAMBLE_PULSES..], Threshold(WeightedSum(widths[..PREAMBLE_PULSES])),
             CodeBits(PacketCodes(sop, data, unpaired) + [EOP_5B]))
  }

  // ----- Reading bits from pulses -----

  datatype Reading = Reading(bits: seq<bool>, half: bool)

  /** The bits shown so far and whether the first half of a one is waiting for the second. */
  function Demodulate(widths: seq<nat>, threshold: nat): Reading {
    if widths == [] then Reading([], false)
    else Extend(Demodulate(widths[..|widths| - 1], threshold), widths[|widths| - 1], threshold)
  }

  function Extend(r: Reading, width: nat, threshold: nat): Reading {
    if r.half then Reading(r.bits + [true], false)
    else if width < threshold then Reading(r.bits, true)
    else Reading(r.bits + [false], false)
  }

  lemma {:induction false} DemodulateShows(widths: seq<nat>, threshold: nat)
    ensures var r := Demodulate(widths, threshold);
      if r.half then
        |widths| >= 1 && widths[|widths| - 1] < threshold && Shows(widths[..|widths| - 1], threshold, r.bits)
      else Shows(widths, threshold, r.bits)
  {
    if widths == [] {
    } else {
      var n := |widths|;
      DemodulateShows(widths[..n - 1], threshold);
      var r := Demodulate(widths[..n - 1], threshold);
      assert (r.bits + [true])[..|r.bits|] == r.bits && (r.bits + [false])[..|r.bits|] == r.bits;
      if r.half {
        assert widths[..n - 1][..n - 2] == widths[..n - 2];
      }
    }
  }

  lemma {:induction false} ShowsDemodulates(widths: seq<nat>, threshold: nat, bits: seq<bool>)
    requires Shows(widths, threshold, bits)
    ensures Demodulate(widths, threshold) == Reading(bits, false)
  {
    if bits == [] {
    } else {
      var n, rest := |widths|, bits[..|bits| - 1];
      assert bits == rest + [bits[|bits| - 1]];
      if bits[|bits| - 1] {
        ShowsDemodulates(widths[..n - 2], threshold, rest);
        assert widths[..n - 1][..n - 2] == widths[..n - 2];
        assert Demodulate(widths[..n - 1], threshold) == Reading(rest, true);
      } else {
        ShowsDemodulates(widths[..n - 1], threshold, rest);
      }
    }
  }

  /** Later pulses only add bits. */
  lemma {:induction false} DemodulateGrows(widths: seq<nat>, n: nat, threshold: nat)
    requires n <= |widths|
    ensures Demodulate(widths[..n], threshold).bits <= Demodulate(widths, threshold).bits
    decreases |widths| - n
  {
    if n < |widths| {
      DemodulateGrows(widths, n + 1, threshold);
      assert widths[..n + 1][..n] == widths[..n];
    } else {
      assert widths[..n] == widths;
    }
  }
}
