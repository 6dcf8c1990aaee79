/**
 * A capture record as the bytes of one block, and the host's reading of the block. Integers are little-endian:
 * two 64-bit timestamps, the 32-bit result, four start-of-packet codes, the 32-bit count of 16-bit pulse
 * widths and the widths, the 32-bit count of data bytes and the bytes.
 */
module CaptureBlock {
  import opened Octets
  import opened Options

  const MIN_SIZE: nat := 32
  const FIXED_SIZE: nat := 28
  const EVENT_RESULT: nat := 0xFFFF_FFFF
  /** The greatest decoding result, that of an incomplete message. */
  const LAST_RESULT: nat := 5

  // ----- Records -----

  datatype Record =
    | Message(start: nat, end: nat, result: nat, sop: seq<Byte>, pulses: seq<nat>, data: seq<Byte>)
    | Event(timestamp: nat, eventType: nat, text: seq<Byte>)

  /** The widths of the fields, and vectors whose sizes fit their counts. */
  predicate WellFormed(r: Record) {
    match r
    case Message(start, end, result, sop, pulses, data) =>
      && start < U64 && end < U64 && result <= LAST_RESULT && |sop| == 4
      && (forall i :: 0 <= i < |pulses| ==> pulses[i] < U16)
      && FIXED_SIZE + 2 * |pulses| + 4 + |data| < U32
    case Event(timestamp, eventType, text) =>
      timestamp < U64 && eventType < U32 && FIXED_SIZE + 8 + |text| < U32
  }

  function PulseBytes(pulses: seq<nat>): (bytes: seq<Byte>)
    ensures |bytes| == 2 * |pulses|
  {
    if pulses == [] then [] else PulseBytes(pulses[..|pulses| - 1]) + LittleEndian(pulses[|pulses| - 1], TWO)
  }

  function Head(start: nat, end: nat, result: nat, sop: seq<Byte>, pulseCount: nat): seq<Byte> {
    LittleEndian(start, EIGHT) + LittleEndian(end, EIGHT) + LittleEndian(result, FOUR) + sop
      + LittleEndian(pulseCount, FOUR)
  }

  function Body(pulses: seq<nat>, data: seq<Byte>): seq<Byte> {
    PulseBytes(pulses) + LittleEndian(|data|, FOUR) + data
  }

  /** An event travels as a message with no codes and no pulses, its type in front of its text. */
  function EventData(eventType: nat, text: seq<Byte>): seq<Byte> {
    LittleEndian(eventType, FOUR) + text
  }

  function Payload(r: Record): seq<Byte> {
    match r
    case Message(start, end, result, sop, pulses, data) => Head(start, end, result, sop, |pulses|) + Body(pulses, data)
    case Event(timestamp, eventType, text) =>
      Head(timestamp, timestamp, EVENT_RESULT, [0, 0, 0, 0], 0) + Body([], EventData(eventType, text))
  }

  function PayloadSize(r: Record): nat {
    match r
    case Message(_, _, _, _, pulses, data) => 8 + 8 + 4 + 4 + 4 + 2 * |pulses| + 4 + |data|
    case Event(_, _, text) => 8 + 8 + 4 + 4 + 4 + 4 + 4 + |text|
  }

  /** The size announced ahead of a block is the block's size. */
  lemma PayloadHasItsSize(r: Record)
    requires WellFormed(r)
    ensures |Payload(r)| == PayloadSize(r)
  {
  }

  // ----- The host -----

  datatype Parsed = Parsed(start: nat, end: nat, result: nat, sop: seq<Byte>, pulseCount: nat, data: seq<Byte>)

  function Parse(blob: seq<Byte>): Option<Parsed> {
    if |blob| < MIN_SIZE then None
    else
      var pulseCount := FieldAt(blob, 24, FOUR);
      var offset := FIXED_SIZE + 2 * pulseCount;
      if offset + 4 > |blob| then None
      else
        var length := FieldAt(blob, offset, FOUR);
        if offset + 4 + length > |blob| then None
        else Some(Parsed(FieldAt(blob, 0, EIGHT), FieldAt(blob, 8, EIGHT), FieldAt(blob, 16, FOUR), blob[20..24],
                         pulseCount, blob[offset + 4..offset + 4 + length]))
  }

  /** What the host should read from a record's block. */
  function Meaning(r: Record): Parsed {
    match r
    case Message(start, end, result, sop, pulses, data) => Parsed(start, end, result, sop, |pulses|, data)
    case Event(timestamp, eventType, text) =>
      Parsed(timestamp, timestamp, EVENT_RESULT, [0, 0, 0, 0], 0, EventData(eventType, text))
  }

  lemma HeadReads(blob: seq<Byte>, start: nat, end: nat, result: nat, sop: seq<Byte>, pulseCount: nat)
    requires start < U64 && end < U64 && result < U32 && |sop| == 4 && pulseCount < U32
    requires Head(start, end, result, sop, pulseCount) <= blob
    ensures |blob| >= FIXED_SIZE
    ensures FieldAt(blob, 0, EIGHT) == start && FieldAt(blob, 8, EIGHT) == end && FieldAt(blob, 16, FOUR) == result
    ensures blob[20..24] == sop && FieldAt(blob, 24, FOUR) == pulseCount
  {
    Widths();
    hide Power256, FieldAt, LittleEndian;
    var head := Head(start, end, result, sop, pulseCount);
    assert |head| == FIXED_SIZE;
    assert blob == head + blob[FIXED_SIZE..];
    FieldReads(blob, [], start, EIGHT, blob[8..]);
    FieldReads(blob, blob[..8], end, EIGHT, blob[16..]);
    FieldReads(blob, blob[..16], result, FOUR, blob[20..]);
    FieldReads(blob, blob[..24], pulseCount, FOUR, blob[28..]);
  }

  lemma BlockReads(blob: seq<Byte>, p: Parsed, pulses: seq<nat>, cut: nat)
    requires p.start < U64 && p.end < U64 && p.result < U32 && |p.sop| == 4 && p.pulseCount == |pulses|
    requires FIXED_SIZE + 2 * |pulses| + 4 + |p.data| < U32
    requires var whole := Head(p.start, p.end, p.result, p.sop, p.pulseCount) + Body(pulses, p.data);
      cut <= |whole| && blob == whole[..cut]
    ensures Parse(blob) == if |blob| == FIXED_SIZE + 2 * |pulses| + 4 + |p.data| then Some(p) else None
  {
    hide FieldAt, LittleEndian, PulseBytes;
    var head := Head(p.start, p.end, p.result, p.sop, p.pulseCount);
    assert |head| == FIXED_SIZE;
    if |blob| >= MIN_SIZE {
      assert head <= blob;
      HeadReads(blob, p.start, p.end, p.result, p.sop, p.pulseCount);
      var offset := FIXED_SIZE + 2 * |pulses|;
      if offset + 4 <= |blob| {
        LengthReads(blob, head + PulseBytes(pulses), |p.data|);
        if |blob| == offset + 4 + |p.data| {
          assert blob == head + PulseBytes(pulses) + LittleEndian(|p.data|, FOUR) + p.data;
          assert blob[offset + 4..offset + 4 + |p.data|] == p.data;
        }
      }
    }
  }

  lemma LengthReads(blob: seq<Byte>, before: seq<Byte>, length: nat)
    requires length < U32 && before + LittleEndian(length, FOUR) <= blob
    ensures FieldAt(blob, |before|, FOUR) == length
  {
    Widths();
    hide Power256, FieldAt, LittleEndian;
    FieldReads(blob, before, length, FOUR, blob[|before| + 4..]);
  }

  /** The host reads every record back, and no block cut short is taken for one. */
  lemma HostReadsBlocks(r: Record, cut: nat)
    requires WellFormed(r) && cut <= |Payload(r)|
    ensures Parse(Payload(r)[..cut]) == if cut == PayloadSize(r) then Some(Meaning(r)) else None
  {
    hide Head, Body, Parse, EventData;
    PayloadHasItsSize(r);
    match r
    case Message(start, end, result, sop, pulses, data) =>
      BlockReads(Payload(r)[..cut], Meaning(r), pulses, cut);
    case Event(timestamp, eventType, text) =>
      EventDataLength(eventType, text);
      BlockReads(Payload(r)[..cut], Meaning(r), [], cut);
  }

  lemma EventDataLength(eventType: nat, text: seq<Byte>)
    ensures |EventData(eventType, text)| == 4 + |text|
  {
  }

  lemma {:induction false} PulseBytesDetermine(a: seq<nat>, b: seq<nat>)
    requires PulseBytes(a) == PulseBytes(b)
    requires (forall i :: 0 <= i < |a| ==> a[i] < U16) && (forall i :: 0 <= i < |b| ==> b[i] < U16)
    ensures a == b
  {
    if a == [] {
    } else {
      var n := |a| - 1;
      Widths();
      var s, t := PulseBytes(a[..n]), PulseBytes(b[..n]);
      assert s == PulseBytes(a)[..2 * n] == PulseBytes(b)[..2 * n] == t;
      assert LittleEndian(a[n], TWO) == PulseBytes(a)[2 * n..] == LittleEndian(b[n], TWO);
      hide PulseBytes, LittleEndian, Power256;
      PulseBytesDetermine(a[..n], b[..n]);
      LittleEndianRoundTrip(a[n], TWO);
      LittleEndianRoundTrip(b[n], TWO);
      assert a == a[..n] + [a[n]] && b == b[..n] + [b[n]];
    }
  }

  /** A block determines its record, pulse widths included: no two records share one. */
  lemma BlocksDetermineRecords(a: Record, b: Record)
    requires WellFormed(a) && WellFormed(b) && Payload(a) == Payload(b)
    ensures a == b
  {
    hide Head, Parse, EventData, PulseBytes, LittleEndian;
    var blob := Payload(a);
    assert blob[..|blob|] == blob;
    PayloadHasItsSize(a);
    PayloadHasItsSize(b);
    HostReadsBlocks(a, |blob|);
    HostReadsBlocks(b, |blob|);
    if a.Message? && b.Message? {
      HeadLength(a.start, a.end, a.result, a.sop, |a.pulses|);
      PulsesAre(a);
      PulsesAre(b);
      PulseBytesDetermine(a.pulses, b.pulses);
    } else if a.Event? && b.Event? {
      EventDataDetermines(a, b);
    }
  }

  lemma HeadLength(start: nat, end: nat, result: nat, sop: seq<Byte>, pulseCount: nat)
    ensures |Head(start, end, result, sop, pulseCount)| == 24 + |sop|
  {
  }

  lemma PulsesAre(m: Record)
    requires m.Message? && |m.sop| == 4
    ensures |Payload(m)| >= FIXED_SIZE + 2 * |m.pulses|
    ensures Payload(m)[FIXED_SIZE..FIXED_SIZE + 2 * |m.pulses|] == PulseBytes(m.pulses)
  {
    hide Head, PulseBytes, LittleEndian;
    HeadLength(m.start, m.end, m.result, m.sop, |m.pulses|);
    var p := Payload(m);
    assert p[FIXED_SIZE..] == Body(m.pulses, m.data);
  }

  lemma EventDataDetermines(a: Record, b: Record)
    requires a.Event? && b.Event? && WellFormed(a) && WellFormed(b)
    requires EventData(a.eventType, a.text) == EventData(b.eventType, b.text)
    ensures a.eventType == b.eventType && a.text == b.text
  {
    Widths();
    var d := EventData(a.eventType, a.text);
    assert LittleEndian(a.eventType, FOUR) == d[..4] == LittleEndian(b.eventType, FOUR);
    assert a.text == d[4..] == b.text;
    hide LittleEndian, Power256;
    LittleEndianRoundTrip(a.eventType, FOUR);
    LittleEndianRoundTrip(b.eventType, FOUR);
  }

  // ----- In place -----

  /** The byte vector a block is built up in. */
  class ByteVector {
    var bytes: seq<Byte>

    constructor ()
      ensures bytes == []
    {
      bytes := [];
    }

    method AppendBytes(n: nat, width: nat)
      modifies this
      ensures bytes == old(bytes) + LittleEndian(n, width)
    {
      bytes := bytes + LittleEndian(n, width);
    }

    method AppendCapturedMessagePayload(message: Record)
      requires message.Message?
      modifies this
      ensures bytes == old(bytes) + Payload(message)
    {
      hide LittleEndian, PulseBytes;
      AppendBytes(message.start, EIGHT);
      AppendBytes(message.end, EIGHT);
      AppendBytes(message.result, FOUR);
      bytes := bytes + message.sop;
      AppendBytes(|message.pulses|, FOUR);
      if message.pulses != [] {
        AppendPulses(message.pulses);
      } else {
        NoPulses(message.pulses);
      }
      AppendBytes(|message.data|, FOUR);
      bytes := bytes + message.data;
    }

    method AppendPulses(pulses: seq<nat>)
      modifies this
      ensures bytes == old(bytes) + PulseBytes(pulses)
    {
      hide LittleEndian;
      for i := 0 to |pulses|
        invariant bytes == old(bytes) + PulseBytes(pulses[..i])
      {
        assert pulses[..i + 1][..i] == pulses[..i];
        AppendBytes(pulses[i], TWO);
      }
      assert pulses[..|pulses|] == pulses;
    }

    method AppendCapturedEventPayload(event: Record)
      requires event.Event?
      modifies this
      ensures bytes == old(bytes) + Payload(event)
    {
      hide LittleEndian, PulseBytes;
      NoPulses([]);
      AppendBytes(event.timestamp, EIGHT);
      AppendBytes(event.timestamp, EIGHT);
      AppendBytes(EVENT_RESULT, FOUR);
      bytes := bytes + [0, 0, 0, 0];
      AppendBytes(0, FOUR);
      AppendBytes(4 + |event.text|, FOUR);
      AppendBytes(event.eventType, FOUR);
      bytes := bytes + event.text;
      EventDataLength(event.eventType, event.text);
    }
  }

  lemma NoPulses(pulses: seq<nat>)
    requires pulses == []
    ensures PulseBytes(pulses) == []
  {
  }

  /** The host's parser, advancing an offset through the block. */
  method ParseCapturedMessage(blob: seq<Byte>) returns (parsed: Option<Parsed>)
    ensures parsed == Parse(blob)
  {
    if |blob| < MIN_SIZE {
      return None;
    }
    var start, end, result := FieldAt(blob, 0, EIGHT), FieldAt(blob, 8, EIGHT), FieldAt(blob, 16, FOUR);
    var sop, pulseCount := blob[20..24], FieldAt(blob, 24, FOUR);
    var offset := FIXED_SIZE;
    if offset + 2 * pulseCount + 4 > |blob| {
      return None;
    }
    offset := offset + 2 * pulseCount;
    var length := FieldAt(blob, offset, FOUR);
    offset := offset + 4;
    if offset + length > |blob| {
      return None;
    }
    return Some(Parsed(start, end, result, sop, pulseCount, blob[offset..offset + length]));
  }
}
