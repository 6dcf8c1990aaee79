/**
 * The WinUSB byte stream: bytes arrive in transfers of any size, are collected, and complete frames are taken
 * off the front and dispatched; each request is answered with frames of the same layout.
 */
module WinUsbFraming {
  import opened Octets

  const HEADER_SIZE: nat := 12
  const MAGIC_0: Byte := 0x57
  const MAGIC_1: Byte := 0x55
  const VERSION: Byte := 1
  const SIZE_LIMIT := 0x1_0000_0000

  const COMMAND_REQUEST: Byte := 0x01
  const SESSION_RESET_REQUEST: Byte := 0x02
  const QUERY_REQUEST: Byte := 0x03
  const COMMAND_ACK: Byte := 0x80
  const TEXT_RESPONSE: Byte := 0x81
  const BINARY_RESPONSE: Byte := 0x82
  const ERROR_RESPONSE: Byte := 0x83
  const SESSION_RESET_ACK: Byte := 0x84

  datatype Frame = Frame(kind: Byte, tag: Byte, payload: seq<Byte>)

  predicate Encodable(f: Frame) {
    |f.payload| + HEADER_SIZE < SIZE_LIMIT
  }

  // ----- Layout -----

  function Header(f: Frame, status: Byte): (bytes: seq<Byte>)
    ensures |bytes| == HEADER_SIZE
  {
    [MAGIC_0, MAGIC_1, VERSION, f.kind, f.tag, status, 0, 0] + LittleEndian(|f.payload| % SIZE_LIMIT, FOUR)
  }

  function Encode(f: Frame, status: Byte): seq<Byte> {
    Header(f, status) + f.payload
  }

  // ----- Taking one frame off the stream -----

  datatype Next = Incomplete | BadMagic | Oversize | Complete(frame: Frame, rest: seq<Byte>)

  predicate HasMagic(bytes: seq<Byte>)
    requires |bytes| >= HEADER_SIZE
  {
    bytes[0] == MAGIC_0 && bytes[1] == MAGIC_1 && bytes[2] == VERSION
  }

  /** What the drain loop finds at the front. An oversize length would wrap the 32-bit frame length. */
  function Take(bytes: seq<Byte>): (next: Next)
    ensures next.Complete? ==> |next.rest| < |bytes|
  {
    if |bytes| < HEADER_SIZE then Incomplete
    else if !HasMagic(bytes) then BadMagic
    else
      var end := HEADER_SIZE + FieldAt(bytes, 8, FOUR);
      if end >= SIZE_LIMIT then Oversize
      else if |bytes| < end then Incomplete
      else Complete(Frame(bytes[3], bytes[4], bytes[HEADER_SIZE..end]), bytes[end..])
  }

  lemma TakeInvertsEncode(f: Frame, status: Byte, rest: seq<Byte>)
    requires Encodable(f)
    ensures Take(Encode(f, status) + rest) == Complete(f, rest)
  {
    hide LittleEndian, FieldAt, Power256;
    var bytes, header := Encode(f, status) + rest, Header(f, status);
    assert bytes == header + f.payload + rest;
    HeaderReads(f, status, bytes);
    var end := HEADER_SIZE + |f.payload|;
    Slices(header, f.payload, rest);
  }

  lemma Slices(a: seq<Byte>, b: seq<Byte>, c: seq<Byte>)
    ensures (a + b + c)[|a|..|a| + |b|] == b && (a + b + c)[|a| + |b|..] == c
  {
  }

  /** What a frame's header gives, whatever follows it. */
  lemma HeaderReads(f: Frame, status: Byte, bytes: seq<Byte>)
    requires Encodable(f) && Header(f, status) <= bytes
    ensures HasMagic(bytes) && bytes[3] == f.kind && bytes[4] == f.tag
    ensures FieldAt(bytes, 8, FOUR) == |f.payload|
  {
    hide LittleEndian, FieldAt, Power256;
    var length := LittleEndian(|f.payload|, FOUR);
    assert bytes == bytes[..8] + length + bytes[12..];
    Widths();
    FieldReads(bytes, bytes[..8], |f.payload|, FOUR, bytes[12..]);
  }

  /** What has been recognised does not change when more bytes arrive. */
  lemma TakeIsStable(bytes: seq<Byte>, more: seq<Byte>)
    requires Take(bytes) != Incomplete
    ensures Take(bytes).Complete? ==> Take(bytes + more) == Complete(Take(bytes).frame, Take(bytes).rest + more)
    ensures !Take(bytes).Complete? ==> Take(bytes + more) == Take(bytes)
  {
    var all := bytes + more;
    assert all[8..12] == bytes[8..12];
    var end := HEADER_SIZE + FieldAt(bytes, 8, FOUR);
    if end <= |bytes| {
      assert all[HEADER_SIZE..end] == bytes[HEADER_SIZE..end];
      assert all[end..] == bytes[end..] + more;
    }
  }

  // ----- Requests and replies -----

  /** What a SCPI handler sends while a request is interpreted. */
  datatype Output = Text(text: seq<Byte>, addNewline: bool) | Binary(bytes: seq<Byte>)

  /** The interpreter's part in one request: what its handlers sent and the error queue they left. */
  datatype Effect = Effect(outputs: seq<Output>, errors: seq<seq<Byte>>)

  datatype Owner = Free | USBTMC | WinUSB

  const BUSY: seq<Byte> := [68, 101, 118, 105, 99, 101, 32, 98, 117, 115, 121]
  const UNSUPPORTED: seq<Byte> := [85, 110, 115, 117, 112, 112, 111, 114, 116, 101, 100, 32, 102, 114, 97, 109, 101]
  const PRODUCED_DATA: seq<Byte> :=
    [67, 111, 109, 109, 97, 110, 100, 32, 114, 101, 113, 117, 101, 115, 116, 32, 112, 114, 111, 100, 117, 99, 101, 100,
     32,
     100, 97, 116, 97, 32, 114, 101, 115, 112, 111, 110, 115, 101]
  const MISSING_RESPONSE: seq<Byte> :=
    [77, 105, 115, 115, 105, 110, 103, 32, 113, 117, 101, 114, 121, 32, 114, 101, 115, 112, 111, 110, 115, 101]

  /** The text waiting for its newline after some outputs of a query. */
  function PendingText(outputs: seq<Output>): seq<Byte> {
    if outputs == [] then []
    else
      var pending, last := PendingText(outputs[..|outputs| - 1]), outputs[|outputs| - 1];
      if last.Binary? then pending else if last.addNewline then [] else pending + last.text
  }

  /** The data frames some outputs of a query make. */
  function DataReplies(tag: Byte, outputs: seq<Output>): seq<Frame> {
    if outputs == [] then []
    else
      var rest, last := outputs[..|outputs| - 1], outputs[|outputs| - 1];
      if last.Binary? then DataReplies(tag, rest) + [Frame(BINARY_RESPONSE, tag, last.bytes)]
      else if last.addNewline then
        DataReplies(tag, rest) + [Frame(TEXT_RESPONSE, tag, PendingText(rest) + last.text + [10])]
      else DataReplies(tag, rest)
  }

  /** The frame that closes a request after its data, if one is due. */
  function Closing(tag: Byte, query: bool, effect: Effect): seq<Frame> {
    if effect.errors != [] then [Frame(ERROR_RESPONSE, tag, effect.errors[0])]
    else if !query then
      [if effect.outputs == [] then Frame(COMMAND_ACK, tag, []) else Frame(ERROR_RESPONSE, tag, PRODUCED_DATA)]
    else if DataReplies(tag, effect.outputs) == [] then [Frame(ERROR_RESPONSE, tag, MISSING_RESPONSE)]
    else []
  }

  function RequestReplies(tag: Byte, query: bool, effect: Effect): seq<Frame> {
    (if query then DataReplies(tag, effect.outputs) else []) + Closing(tag, query, effect)
  }

  /** Everything sent in answer to one frame. */
  function Replies(f: Frame, owner: Owner, effect: Effect): seq<Frame> {
    if f.kind == COMMAND_REQUEST || f.kind == QUERY_REQUEST then
      if owner == USBTMC then [Frame(ERROR_RESPONSE, f.tag, BUSY)]
      else RequestReplies(f.tag, f.kind == QUERY_REQUEST, effect)
    else if f.kind == SESSION_RESET_REQUEST then
      if owner == USBTMC then [Frame(ERROR_RESPONSE, f.tag, BUSY)] else [Frame(SESSION_RESET_ACK, f.tag, [])]
    else [Frame(ERROR_RESPONSE, f.tag, UNSUPPORTED)]
  }

  lemma {:induction false} DataRepliesBearTheTag(tag: Byte, outputs: seq<Output>)
    ensures forall r :: r in DataReplies(tag, outputs) ==> r.tag == tag && r.kind in {TEXT_RESPONSE, BINARY_RESPONSE}
  {
    if outputs == [] {
    } else {
      DataRepliesBearTheTag(tag, outputs[..|outputs| - 1]);
    }
  }

  /**
   * Every reply bears the tag of its request and every frame gets one at least; a frame that is not a query gets
   * one exactly. A query gets exactly one if and only if it made one data frame and no error, or no data frame.
   */
  lemma RepliesMatchRequests(f: Frame, owner: Owner, effect: Effect)
    ensures var r := Replies(f, owner, effect);
      && r != [] && (forall i :: 0 <= i < |r| ==> r[i].tag == f.tag)
      && (f.kind != QUERY_REQUEST || owner == USBTMC ==> |r| == 1)
      && (f.kind == QUERY_REQUEST && owner != USBTMC ==>
            (|r| == 1 <==> |DataReplies(f.tag, effect.outputs)| == (if effect.errors == [] then 1 else 0)
                           || |DataReplies(f.tag, effect.outputs)| == 0))
  {
    var data := DataReplies(f.tag, effect.outputs);
    DataRepliesBearTheTag(f.tag, effect.outputs);
    var r := Replies(f, owner, effect);
    forall i | 0 <= i < |r| ensures r[i].tag == f.tag {
      assert i < |data| && f.kind == QUERY_REQUEST && owner != USBTMC ==> r[i] == data[i];
    }
  }

  // ----- Draining -----

  /** `dispatched` is the history of the frames taken off the stream. */
  datatype Link = Link(buffer: seq<Byte>, dispatched: seq<Frame>, sent: seq<Frame>)

  predicate ClearsBuffer(f: Frame, owner: Owner) {
    f.kind == SESSION_RESET_REQUEST && owner != USBTMC
  }

  function Dispatch(l: Link, f: Frame, rest: seq<Byte>, owner: Owner, effect: Effect): Link {
    Link(if ClearsBuffer(f, owner) then [] else rest, l.dispatched + [f], l.sent + Replies(f, owner, effect))
  }

  /** `effects` tells what the interpreter does with the n-th frame. */
  function Drain(l: Link, owner: Owner, effects: nat -> Effect): Link
    decreases |l.buffer|
  {
    match Take(l.buffer)
    case Incomplete => l
    case BadMagic => l.(buffer := [])
    case Oversize => l
    case Complete(f, rest) => Drain(Dispatch(l, f, rest, owner, effects(|l.dispatched|)), owner, effects)
  }

  function Receive(l: Link, data: seq<Byte>, owner: Owner, effects: nat -> Effect): Link {
    Drain(l.(buffer := l.buffer + data), owner, effects)
  }

  function ReceiveAll(l: Link, transfers: seq<seq<Byte>>, owner: Owner, effects: nat -> Effect): Link {
    if transfers == [] then l
    else
      var rest, last := transfers[..|transfers| - 1], transfers[|transfers| - 1];
      Receive(ReceiveAll(l, rest, owner, effects), last, owner, effects)
  }

  function Joined(transfers: seq<seq<Byte>>): seq<Byte> {
    if transfers == [] then [] else Joined(transfers[..|transfers| - 1]) + transfers[|transfers| - 1]
  }

  /** Nothing in the stream clears the buffer, except with nothing left after it. */
  predicate ClearsLast(bytes: seq<Byte>, owner: Owner)
    decreases |bytes|
  {
    match Take(bytes)
    case Incomplete => true
    case BadMagic => |bytes| == HEADER_SIZE
    case Oversize => true
    case Complete(f, rest) => if ClearsBuffer(f, owner) then rest == [] else ClearsLast(rest, owner)
  }

  /** Draining early and then again comes to the same as draining once. */
  lemma {:induction false} DrainTwice(l: Link, more: seq<Byte>, owner: Owner, effects: nat -> Effect)
    requires ClearsLast(l.buffer + more, owner)
    ensures Receive(Drain(l, owner, effects), more, owner, effects) == Receive(l, more, owner, effects)
    decreases |l.buffer|
  {
    hide Take, Replies;
    if Take(l.buffer) == Incomplete {
    } else {
      TakeIsStable(l.buffer, more);
      if Take(l.buffer).Complete? && !ClearsBuffer(Take(l.buffer).frame, owner) {
        var f, rest := Take(l.buffer).frame, Take(l.buffer).rest;
        DrainTwice(Dispatch(l, f, rest, owner, effects(|l.dispatched|)), more, owner, effects);
      } else if !Take(l.buffer).Oversize? {
        ClearsWithNothingAfter(l.buffer, more, owner);
        TakeNothing();
      }
    }
  }

  /** What ends a drain for good leaves no more bytes to come, unless it is an oversize length. */
  lemma ClearsWithNothingAfter(bytes: seq<Byte>, more: seq<Byte>, owner: Owner)
    requires ClearsLast(bytes + more, owner)
    requires Take(bytes).BadMagic? || (Take(bytes).Complete? && ClearsBuffer(Take(bytes).frame, owner))
    ensures more == [] && bytes + more == bytes
  {
    TakeIsStable(bytes, more);
  }

  lemma {:induction false} ClearsLastPrefix(bytes: seq<Byte>, more: seq<Byte>, owner: Owner)
    requires ClearsLast(bytes + more, owner)
    ensures ClearsLast(bytes, owner)
    decreases |bytes|
  {
    if Take(bytes) == Incomplete {
    } else {
      TakeIsStable(bytes, more);
      if Take(bytes).Complete? && !ClearsBuffer(Take(bytes).frame, owner) {
        ClearsLastPrefix(Take(bytes).rest, more, owner);
      }
    }
  }

  /**
   * However a stream is cut into transfers, if nothing in it clears the buffer before its end then the frames
   * dispatched, the replies and the bytes left over are the same.
   */
  lemma {:induction false} TransfersDoNotMatter(l: Link, transfers: seq<seq<Byte>>, owner: Owner,
                                                effects: nat -> Effect)
    requires Take(l.buffer) == Incomplete
    requires ClearsLast(l.buffer + Joined(transfers), owner)
    ensures ReceiveAll(l, transfers, owner, effects) == Receive(l, Joined(transfers), owner, effects)
  {
    hide Take, ClearsLast;
    if transfers == [] {
      assert l.buffer + [] == l.buffer;
    } else {
      var rest, last := transfers[..|transfers| - 1], transfers[|transfers| - 1];
      assert l.buffer + Joined(transfers) == l.buffer + Joined(rest) + last;
      ClearsLastPrefix(l.buffer + Joined(rest), last, owner);
      TransfersDoNotMatter(l, rest, owner, effects);
      DrainTwice(l.(buffer := l.buffer + Joined(rest)), last, owner, effects);
    }
  }

  /** A frame that does not end the stream is still found with the last byte missing. */
  lemma TakeWithoutLast(bytes: seq<Byte>)
    requires Take(bytes).Complete? && Take(bytes).rest != []
    ensures var rest := Take(bytes).rest;
      Take(bytes[..|bytes| - 1]) == Complete(Take(bytes).frame, rest[..|rest| - 1])
  {
    var short, end := bytes[..|bytes| - 1], HEADER_SIZE + FieldAt(bytes, 8, FOUR);
    assert short[8..12] == bytes[8..12];
    assert short[HEADER_SIZE..end] == bytes[HEADER_SIZE..end];
    assert short[end..] == bytes[end..][..|bytes| - end - 1];
  }

  lemma BadMagicWithoutLast(bytes: seq<Byte>)
    requires Take(bytes) == BadMagic
    ensures |bytes| >= HEADER_SIZE
    ensures |bytes| > HEADER_SIZE ==> Take(bytes[..|bytes| - 1]) == BadMagic
  {
  }

  lemma TakeShrinks(bytes: seq<Byte>)
    requires Take(bytes).Complete?
    ensures |bytes| >= HEADER_SIZE + |Take(bytes).rest|
  {
  }

  /** Where the buffer is cleared too soon, it is cleared with and without the stream's last byte. */
  lemma {:induction false} ClearsWithoutLast(l: Link, owner: Owner, effects: nat -> Effect)
    requires !ClearsLast(l.buffer, owner)
    ensures |l.buffer| > HEADER_SIZE
    ensures Drain(l, owner, effects).buffer == []
    ensures Drain(l.(buffer := l.buffer[..|l.buffer| - 1]), owner, effects).buffer == []
    decreases |l.buffer|
  {
    hide Replies, Take;
    TakeNothing();
    if Take(l.buffer) == BadMagic {
      BadMagicWithoutLast(l.buffer);
    } else {
      var f, rest := Take(l.buffer).frame, Take(l.buffer).rest;
      TakeShrinks(l.buffer);
      TakeWithoutLast(l.buffer);
      if !ClearsBuffer(f, owner) {
        ClearsWithoutLast(Dispatch(l, f, rest, owner, effects(|l.dispatched|)), owner, effects);
      }
    }
  }

  /** All the ways to cut the data into transfers come to the same. */
  predicate CutDoesNotMatter(l: Link, data: seq<Byte>, transfers: seq<seq<Byte>>, owner: Owner,
                             effects: nat -> Effect)
  {
    Joined(transfers) == data ==> ReceiveAll(l, transfers, owner, effects) == Receive(l, data, owner, effects)
  }

  /** The cut into transfers matters exactly when something clears the buffer before the end of the stream. */
  lemma CutsDoNotMatterIff(l: Link, data: seq<Byte>, owner: Owner, effects: nat -> Effect)
    requires Take(l.buffer) == Incomplete
    ensures ClearsLast(l.buffer + data, owner)
      <==> forall transfers :: CutDoesNotMatter(l, data, transfers, owner, effects)
  {
    if ClearsLast(l.buffer + data, owner) {
      forall transfers
        ensures CutDoesNotMatter(l, data, transfers, owner, effects)
      {
        if Joined(transfers) == data {
          TransfersDoNotMatter(l, transfers, owner, effects);
        }
      }
    } else {
      EarlyClearShows(l, data, owner, effects);
    }
  }

  /** Holding back the last byte then leaves that byte, where one transfer leaves none. */
  lemma EarlyClearShows(l: Link, data: seq<Byte>, owner: Owner, effects: nat -> Effect)
    requires Take(l.buffer) == Incomplete && !ClearsLast(l.buffer + data, owner)
    ensures exists transfers :: !CutDoesNotMatter(l, data, transfers, owner, effects)
  {
    assert data != [] by {
      assert data == [] ==> l.buffer + data == l.buffer;
    }
    hide Take, ClearsLast, Drain;
    var n := |data| - 1;
    var transfers := [data[..n], data[n..]];
    JoinedTwo(data[..n], data[n..]);
    assert data[..n] + data[n..] == data;
    var all := l.(buffer := l.buffer + data);
    ClearsWithoutLast(all, owner, effects);
    assert all.buffer[..|all.buffer| - 1] == l.buffer + data[..n];
    var held := Receive(l, data[..n], owner, effects);
    ReceiveTwo(l, data[..n], data[n..], owner, effects);
    ByteStays(held, data[n..], owner, effects);
    assert !CutDoesNotMatter(l, data, transfers, owner, effects);
  }

  lemma JoinedTwo(a: seq<Byte>, b: seq<Byte>)
    ensures Joined([a, b]) == a + b
  {
    assert [a, b][..1] == [a] && [a][..0] == [];
    assert Joined([a]) == a;
  }

  lemma ReceiveTwo(l: Link, a: seq<Byte>, b: seq<Byte>, owner: Owner, effects: nat -> Effect)
    ensures ReceiveAll(l, [a, b], owner, effects) == Receive(Receive(l, a, owner, effects), b, owner, effects)
  {
    hide Receive;
    assert [a, b][..1] == [a] && [a][..0] == [];
    assert ReceiveAll(l, [a], owner, effects) == Receive(l, a, owner, effects);
  }

  lemma ByteStays(l: Link, b: seq<Byte>, owner: Owner, effects: nat -> Effect)
    requires l.buffer == [] && |b| == 1
    ensures Receive(l, b, owner, effects).buffer == b
  {
    assert l.buffer + b == b;
  }

  // ----- Owners that change between transfers -----

  /** The frames of a stream and the bytes left over, if nothing clears the buffer early. */
  function Frames(bytes: seq<Byte>): seq<Frame>
    decreases |bytes|
  {
    match Take(bytes)
    case Complete(f, rest) => [f] + Frames(rest)
    case _ => []
  }

  function LeftOver(bytes: seq<Byte>): seq<Byte>
    decreases |bytes|
  {
    match Take(bytes)
    case Complete(f, rest) => LeftOver(rest)
    case BadMagic => []
    case _ => bytes
  }

  /** The byte stream together with who owns the interpreter. */
  datatype Connection = Connection(link: Link, owner: Owner)

  const IDLE_CONNECTION := Connection(Link([], [], []), Free)

  /** What reaches the application: WinUSB bytes, USBTMC data, and the USBTMC requests that abort or clear. */
  datatype Arrival = Transfers(data: seq<Byte>, effects: nat -> Effect) | SendsUSBTMC(complete: bool) | ClearsUSBTMC

  /** A USBTMC clear drops what WinUSB has collected, unless WinUSB owns the interpreter. */
  function Serve(c: Connection, a: Arrival): Connection {
    match a
    case Transfers(data, effects) => c.(link := Receive(c.link, data, c.owner, effects))
    case SendsUSBTMC(complete) => if c.owner == WinUSB then c else c.(owner := if complete then Free else USBTMC)
    case ClearsUSBTMC => if c.owner == WinUSB then c else Connection(c.link.(buffer := []), Free)
  }

  function ServeAll(c: Connection, arrivals: seq<Arrival>): Connection {
    if arrivals == [] then c
    else Serve(ServeAll(c, arrivals[..|arrivals| - 1]), arrivals[|arrivals| - 1])
  }

  /** The WinUSB bytes of a run, in order. */
  function WinUSBData(arrivals: seq<Arrival>): seq<Byte> {
    if arrivals == [] then []
    else
      var last := arrivals[|arrivals| - 1];
      WinUSBData(arrivals[..|arrivals| - 1]) + (if last.Transfers? then last.data else [])
  }

  /** The frames dispatched and the bytes left over are those of the bytes so far. */
  predicate Parsed(arrivals: seq<Arrival>) {
    var l, bytes := ServeAll(IDLE_CONNECTION, arrivals).link, WinUSBData(arrivals);
    l.dispatched == Frames(bytes) && l.buffer == LeftOver(bytes)
  }

  predicate AlwaysParsed(arrivals: seq<Arrival>) {
    Parsed(arrivals) && (arrivals != [] ==> AlwaysParsed(arrivals[..|arrivals| - 1]))
  }

  /** Every USBTMC clear comes when the bytes so far end with a whole frame. */
  predicate ClearsBetweenFrames(arrivals: seq<Arrival>) {
    arrivals != [] ==>
      var rest := arrivals[..|arrivals| - 1];
      && ClearsBetweenFrames(rest)
      && (arrivals[|arrivals| - 1].ClearsUSBTMC? ==> LeftOver(WinUSBData(rest)) == [])
  }

  lemma {:induction false} DrainParses(l: Link, owner: Owner, effects: nat -> Effect)
    requires ClearsLast(l.buffer, Free)
    ensures var d := Drain(l, owner, effects);
      d.buffer == LeftOver(l.buffer) && d.dispatched == l.dispatched + Frames(l.buffer)
    decreases |l.buffer|
  {
    hide Replies, Take;
    TakeNothing();
    if !Take(l.buffer).Complete? {
    } else {
      var f, rest := Take(l.buffer).frame, Take(l.buffer).rest;
      DrainParses(Dispatch(l, f, rest, owner, effects(|l.dispatched|)), owner, effects);
    }
  }

  lemma {:induction false} ParseTwice(bytes: seq<Byte>, more: seq<Byte>)
    requires ClearsLast(bytes + more, Free)
    ensures ClearsLast(LeftOver(bytes) + more, Free)
    ensures Frames(bytes + more) == Frames(bytes) + Frames(LeftOver(bytes) + more)
    ensures LeftOver(bytes + more) == LeftOver(LeftOver(bytes) + more)
    decreases |bytes|
  {
    hide Take;
    if Take(bytes) == Incomplete {
    } else {
      TakeIsStable(bytes, more);
      TakeNothing();
      if Take(bytes).Complete? && !ClearsBuffer(Take(bytes).frame, Free) {
        ParseTwice(Take(bytes).rest, more);
      } else if !Take(bytes).Oversize? {
        ClearsWithNothingAfter(bytes, more, Free);
        assert LeftOver(bytes) + more == LeftOver(bytes);
      }
    }
  }

  /** Between two callbacks WinUSB never owns the interpreter. */
  lemma {:induction false} NeverLeftToWinUSB(arrivals: seq<Arrival>)
    ensures ServeAll(IDLE_CONNECTION, arrivals).owner != WinUSB
  {
    hide Receive;
    if arrivals == [] {
    } else {
      NeverLeftToWinUSB(arrivals[..|arrivals| - 1]);
    }
  }

  /** One more arrival: what holds of the bytes so far goes on holding, except over a clear in mid-frame. */
  lemma ParsedGoesOnIff(arrivals: seq<Arrival>)
    requires arrivals != [] && Parsed(arrivals[..|arrivals| - 1])
    requires ClearsLast(WinUSBData(arrivals), Free)
    ensures Parsed(arrivals)
      <==> (arrivals[|arrivals| - 1].ClearsUSBTMC? ==> LeftOver(WinUSBData(arrivals[..|arrivals| - 1])) == [])
  {
    hide Take, ClearsLast, Frames, LeftOver, Drain;
    var rest, last := arrivals[..|arrivals| - 1], arrivals[|arrivals| - 1];
    var c := ServeAll(IDLE_CONNECTION, rest);
    NeverLeftToWinUSB(rest);
    if last.Transfers? {
      ParseTwice(WinUSBData(rest), last.data);
      DrainParses(c.link.(buffer := c.link.buffer + last.data), c.owner, last.effects);
    } else {
      assert WinUSBData(arrivals) == WinUSBData(rest);
    }
  }

  /**
   * Whoever owns the interpreter when bytes arrive, and whatever it does: if no frame in the stream can clear the
   * buffer before the end, the frames dispatched and the bytes left over depend on the stream alone exactly when
   * no USBTMC clear comes in the middle of a frame.
   */
  lemma {:induction false} FramesDependOnStreamIff(arrivals: seq<Arrival>)
    requires ClearsLast(WinUSBData(arrivals), Free)
    ensures AlwaysParsed(arrivals) <==> ClearsBetweenFrames(arrivals)
  {
    hide Take, ClearsLast, Frames, LeftOver, Drain, ServeAll;
    if arrivals == [] {
      NothingParses();
      assert ServeAll(IDLE_CONNECTION, []) == IDLE_CONNECTION by { ServeNothing(); }
    } else {
      var rest, last := arrivals[..|arrivals| - 1], arrivals[|arrivals| - 1];
      ClearsLastPrefix(WinUSBData(rest), if last.Transfers? then last.data else [], Free);
      FramesDependOnStreamIff(rest);
      if AlwaysParsed(rest) {
        ParsedGoesOnIff(arrivals);
      }
    }
  }

  lemma ServeNothing()
    ensures ServeAll(IDLE_CONNECTION, []) == IDLE_CONNECTION
  {
  }

  /** An empty query cut after five bytes, with a clear in the middle: no frame is dispatched. */
  lemma ClearSplitsAFrame(effects: nat -> Effect)
    ensures var query := Encode(Frame(QUERY_REQUEST, 1, []), 0);
      var arrivals := [Transfers(query[..5], effects), ClearsUSBTMC, Transfers(query[5..], effects)];
      && WinUSBData(arrivals) == query && ClearsLast(query, Free)
      && Frames(query) == [Frame(QUERY_REQUEST, 1, [])] && LeftOver(query) == []
      && ServeAll(IDLE_CONNECTION, arrivals).link == Link(query[5..], [], [])
  {
    hide Encode;
    var f := Frame(QUERY_REQUEST, 1, []);
    var query := Encode(f, 0);
    assert |query| == HEADER_SIZE by { EncodingLength(f, 0); }
    var first, clear, last := Transfers(query[..5], effects), ClearsUSBTMC, Transfers(query[5..], effects);
    assert [first, clear, last][..2] == [first, clear] && [first, clear][..1] == [first] && [first][..0] == [];
    assert WinUSBData([first]) == query[..5] && WinUSBData([first, clear]) == query[..5];
    assert query[..5] + query[5..] == query;
    assert query + [] == query;
    TakeInvertsEncode(f, 0, []);
    NothingParses();
    TakeNothing();
    ServeNothing();
    ShortTransferWaits(IDLE_CONNECTION, query[..5], effects);
    assert ServeAll(IDLE_CONNECTION, [first]) == Connection(Link(query[..5], [], []), Free);
    assert ServeAll(IDLE_CONNECTION, [first, clear]) == IDLE_CONNECTION;
    ShortTransferWaits(IDLE_CONNECTION, query[5..], effects);
  }

  lemma EncodingLength(f: Frame, status: Byte)
    ensures |Encode(f, status)| == HEADER_SIZE + |f.payload|
  {
  }

  lemma ShortTransferWaits(c: Connection, data: seq<Byte>, effects: nat -> Effect)
    requires c.link.buffer == [] && |data| < HEADER_SIZE
    ensures Serve(c, Transfers(data, effects)) == c.(link := c.link.(buffer := data))
  {
    assert [] + data == data;
  }

  lemma NothingParses()
    ensures Frames([]) == [] && LeftOver([]) == []
  {
  }

  // ----- Streams of encoded frames -----

  function EncodeAll(frames: seq<Frame>, status: Byte): seq<Byte> {
    if frames == [] then [] else Encode(frames[0], status) + EncodeAll(frames[1..], status)
  }

  /** Frames whose lengths fit, with nothing after one that clears the buffer. */
  predicate Sendable(frames: seq<Frame>, rest: seq<Byte>, owner: Owner) {
    forall i :: 0 <= i < |frames| ==>
      Encodable(frames[i]) && (ClearsBuffer(frames[i], owner) ==> i == |frames| - 1 && rest == [])
  }

  /** The replies to a list of frames of which the first is the n-th of the session. */
  function AllReplies(frames: seq<Frame>, n: nat, owner: Owner, effects: nat -> Effect): seq<Frame> {
    if frames == [] then [] else Replies(frames[0], owner, effects(n)) + AllReplies(frames[1..], n + 1, owner, effects)
  }

  lemma {:induction false} DrainDecodes(l: Link, frames: seq<Frame>, status: Byte, rest: seq<Byte>, owner: Owner,
                                        effects: nat -> Effect)
    requires Sendable(frames, rest, owner) && Take(rest) == Incomplete
    requires l.buffer == EncodeAll(frames, status) + rest
    ensures Drain(l, owner, effects)
      == Link(rest, l.dispatched + frames, l.sent + AllReplies(frames, |l.dispatched|, owner, effects))
    decreases |frames|
  {
    hide Take, Encode, EncodeAll, Replies, ClearsBuffer;
    TakeFirst(frames, status, rest);
    if frames == [] {
    } else {
      var tail := EncodeAll(frames[1..], status) + rest;
      var next := Dispatch(l, frames[0], tail, owner, effects(|l.dispatched|));
      assert next.buffer == tail by { AllClearLast(frames, status, rest, owner); }
      DrainDecodes(next, frames[1..], status, rest, owner, effects);
      assert l.dispatched + frames == next.dispatched + frames[1..];
    }
  }

  /** What is at the front of a stream of encoded frames. */
  lemma TakeFirst(frames: seq<Frame>, status: Byte, rest: seq<Byte>)
    requires frames != [] ==> Encodable(frames[0])
    ensures var bytes := EncodeAll(frames, status) + rest;
      if frames == [] then bytes == rest
      else Take(bytes) == Complete(frames[0], EncodeAll(frames[1..], status) + rest)
  {
    hide Take, Encode;
    if frames != [] {
      var tail := EncodeAll(frames[1..], status) + rest;
      assert EncodeAll(frames, status) + rest == Encode(frames[0], status) + tail;
      TakeInvertsEncode(frames[0], status, tail);
    }
  }

  lemma {:induction false} AllClearLast(frames: seq<Frame>, status: Byte, rest: seq<Byte>, owner: Owner)
    requires Sendable(frames, rest, owner) && Take(rest) == Incomplete
    ensures ClearsLast(EncodeAll(frames, status) + rest, owner)
    ensures frames != [] && ClearsBuffer(frames[0], owner) ==> EncodeAll(frames[1..], status) + rest == []
    decreases |frames|
  {
    hide Take, EncodeAll, ClearsBuffer;
    TakeFirst(frames, status, rest);
    if frames == [] {
    } else {
      NothingEncoded(status);
      AllClearLast(frames[1..], status, rest, owner);
    }
  }

  lemma NothingEncoded(status: Byte)
    ensures EncodeAll([], status) == []
  {
  }

  /**
   * Frames encoded, joined and cut into any transfers are dispatched in order with their type, tag and payload,
   * and answered in order; what is left is the last, unfinished frame.
   */
  lemma StreamsDecode(frames: seq<Frame>, status: Byte, rest: seq<Byte>, transfers: seq<seq<Byte>>, owner: Owner,
                      effects: nat -> Effect)
    requires Sendable(frames, rest, owner) && Take(rest) == Incomplete
    requires Joined(transfers) == EncodeAll(frames, status) + rest
    ensures ReceiveAll(Link([], [], []), transfers, owner, effects)
      == Link(rest, frames, AllReplies(frames, 0, owner, effects))
  {
    hide Drain, ClearsLast, Take, EncodeAll, AllReplies, ReceiveAll, Joined;
    var l := Link([], [], []);
    assert l.buffer + Joined(transfers) == Joined(transfers);
    DrainDecodes(Link(Joined(transfers), [], []), frames, status, rest, owner, effects);
    AllClearLast(frames, status, rest, owner);
    assert Take([]) == Incomplete by { TakeNothing(); }
    TransfersDoNotMatter(l, transfers, owner, effects);
    assert [] + frames == frames;
    assert [] + AllReplies(frames, 0, owner, effects) == AllReplies(frames, 0, owner, effects);
  }

  lemma TakeNothing()
    ensures Take([]) == Incomplete
  {
  }

  /** A stream of commands is answered one for one, in order, tag for tag. */
  lemma {:induction false} CommandsAreAnsweredInOrder(frames: seq<Frame>, n: nat, owner: Owner, effects: nat -> Effect)
    requires forall i :: 0 <= i < |frames| ==> frames[i].kind == COMMAND_REQUEST
    ensures var r := AllReplies(frames, n, owner, effects);
      |r| == |frames| && forall i :: 0 <= i < |frames| ==>
        r[i].tag == frames[i].tag && r[i].kind in {COMMAND_ACK, ERROR_RESPONSE}
    decreases |frames|
  {
    if frames == [] {
    } else {
      CommandsAreAnsweredInOrder(frames[1..], n + 1, owner, effects);
    }
  }

  /** Without the proviso it fails: a command joined to a session reset is lost, one sent after it is not. */
  lemma ResetsDependOnTransfers(effects: nat -> Effect)
    ensures var reset := Encode(Frame(SESSION_RESET_REQUEST, 1, []), 0);
      var command := Encode(Frame(COMMAND_REQUEST, 2, []), 0);
      && |Receive(Link([], [], []), reset + command, Free, effects).dispatched| == 1
      && |Receive(Receive(Link([], [], []), reset, Free, effects), command, Free, effects).dispatched| == 2
  {
    hide Encode, Take, Replies;
    var r, c := Frame(SESSION_RESET_REQUEST, 1, []), Frame(COMMAND_REQUEST, 2, []);
    var reset, command := Encode(r, 0), Encode(c, 0);
    var l := Link([], [], []);
    assert [] + (reset + command) == reset + command && [] + reset == reset + [] == reset
      && [] + command == command + [] == command;
    TakeInvertsEncode(r, 0, command);
    TakeInvertsEncode(r, 0, []);
    TakeInvertsEncode(c, 0, []);
    TakeNothing();
    var first := Dispatch(l.(buffer := reset + command), r, command, Free, effects(0));
    assert Receive(l, reset + command, Free, effects) == Drain(first, Free, effects);
    var after := Receive(l, reset, Free, effects);
    assert after == Link([], [r], Replies(r, Free, effects(0)));
    var last := Dispatch(after.(buffer := command), c, [], Free, effects(1));
    assert Receive(after, command, Free, effects) == Drain(last, Free, effects) == last;
  }

  // ----- The application's side in place -----

  /** The source's own reading and writing of a length, byte by byte. */
  method ReadLE32(data: seq<Byte>, offset: nat) returns (n: nat)
    requires offset + 4 <= |data|
    ensures n == FieldAt(data, offset, FOUR)
  {
    var bytes := data[offset..offset + 4];
    var b0: nat, b1: nat, b2: nat, b3: nat := bytes[0], bytes[1], bytes[2], bytes[3];
    FourBytes(bytes);
    return b0 + 0x100 * b1 + 0x1_0000 * b2 + 0x100_0000 * b3;
  }

  lemma FourBytes(bytes: seq<Byte>)
    requires |bytes| == 4
    ensures FromLittleEndian(bytes) == bytes[0] as nat + 0x100 * bytes[1] as nat + 0x1_0000 * bytes[2] as nat
      + 0x100_0000 * bytes[3] as nat
  {
    assert bytes[1..][1..] == bytes[2..] && bytes[2..][1..] == bytes[3..] && bytes[3..][1..] == [];
    assert FromLittleEndian(bytes[3..]) == bytes[3];
    assert FromLittleEndian(bytes[2..]) == bytes[2] as nat + BYTE * bytes[3];
  }

  method EncodeFrame(f: Frame, srqPending: bool) returns (bytes: seq<Byte>)
    ensures bytes == Encode(f, if srqPending then 1 else 0)
  {
    var n := |f.payload| % SIZE_LIMIT;
    FourDigits(n);
    var header := [MAGIC_0, MAGIC_1, VERSION, f.kind, f.tag, if srqPending then 1 else 0, 0, 0,
                   n % 0x100, n / 0x100 % 0x100, n / 0x1_0000 % 0x100, n / 0x100_0000 % 0x100];
    return header + f.payload;
  }

  class App {
    var winusbRxBuffer: seq<Byte>
    var commandOwner: Owner
    var activeTag: Byte
    var activeQueryRequest: bool
    var pendingTextResponse: seq<Byte>
    var dataResponseSent: bool
    var protocolMismatch: bool
    var errorQueue: seq<seq<Byte>>
    var srqPending: bool
    /** The bulk transfers handed to the USB interface. */
    var sentTransfers: seq<seq<Byte>>
    /** History: the frames taken off the stream and the frames sent. */
    var dispatched: seq<Frame>
    ghost var sent: seq<Frame>

    ghost predicate Valid()
      reads this
    {
      commandOwner != WinUSB && SentAsEncoded()
    }

    ghost predicate SentAsEncoded()
      reads this`sentTransfers, this`sent
    {
      && |sentTransfers| == |sent|
      && forall i :: 0 <= i < |sent| ==> IsEncoding(sentTransfers[i], sent[i])
    }

    ghost function State(): Link
      reads this`winusbRxBuffer, this`dispatched, this`sent
    {
      Link(winusbRxBuffer, dispatched, sent)
    }

    ghost function Serving(): Connection
      reads this`winusbRxBuffer, this`dispatched, this`sent, this`commandOwner
    {
      Connection(State(), commandOwner)
    }

    constructor ()
      ensures Valid() && Serving() == IDLE_CONNECTION
    {
      winusbRxBuffer, commandOwner, activeTag, activeQueryRequest := [], Free, 0, false;
      pendingTextResponse, dataResponseSent, protocolMismatch := [], false, false;
      errorQueue, srqPending, sentTransfers, dispatched, sent := [], false, [], [], [];
    }

    method OnBulkDataReceived(data: seq<Byte>, effects: nat -> Effect)
      requires Valid()
      modifies this
      ensures Valid() && Serving() == Serve(old(Serving()), Transfers(data, effects))
    {
      hide Drain, SentAsEncoded;
      winusbRxBuffer := winusbRxBuffer + data;
      DrainRxBuffer(effects);
    }

    /** USBTMC data is interpreted as it comes; `errors` is the error queue the interpreter leaves. */
    method OnUSBTMCDataReceived(transferComplete: bool, errors: seq<seq<Byte>>)
      requires Valid()
      modifies this`commandOwner, this`activeTag, this`activeQueryRequest, this`pendingTextResponse,
        this`dataResponseSent, this`protocolMismatch, this`errorQueue
      ensures Valid() && Serving() == Serve(old(Serving()), SendsUSBTMC(transferComplete))
      ensures activeTag == 0 && !activeQueryRequest && pendingTextResponse == []
      ensures !dataResponseSent && !protocolMismatch && errorQueue == errors
    {
      hide SentAsEncoded;
      var acquired := TryAcquireCommandOwner(USBTMC);
      if !acquired {
        return;
      }
      activeTag, activeQueryRequest, pendingTextResponse := 0, false, [];
      dataResponseSent, protocolMismatch := false, false;
      errorQueue := errors;
      if transferComplete {
        ReleaseCommandOwner(USBTMC);
      }
    }

    /** What a USBTMC abort of either direction and a USBTMC clear all do. */
    method ResetUSBTMCRequestStateIfOwned()
      requires Valid()
      modifies this`commandOwner, this`errorQueue, this`pendingTextResponse, this`winusbRxBuffer,
        this`dataResponseSent, this`protocolMismatch
      ensures Valid() && Serving() == Serve(old(Serving()), ClearsUSBTMC)
      ensures errorQueue == [] && pendingTextResponse == [] && !dataResponseSent && !protocolMismatch
    {
      hide SentAsEncoded;
      if commandOwner == WinUSB {
        return;
      }
      ResetCommandState();
      ReleaseCommandOwner(USBTMC);
    }

    method DrainRxBuffer(effects: nat -> Effect)
      requires Valid()
      modifies this
      ensures Valid() && commandOwner == old(commandOwner)
      ensures State() == Drain(old(State()), old(commandOwner), effects)
    {
      hide SentAsEncoded, Replies;
      while |winusbRxBuffer| >= HEADER_SIZE
        invariant Valid() && commandOwner == old(commandOwner)
        invariant Drain(State(), commandOwner, effects) == Drain(old(State()), old(commandOwner), effects)
        decreases |winusbRxBuffer|
      {
        if !HasMagic(winusbRxBuffer) {
          ResetCommandState();
          return;
        }
        var payloadLength := ReadLE32(winusbRxBuffer, 8);
        var end := HEADER_SIZE + payloadLength;
        if end >= SIZE_LIMIT || |winusbRxBuffer| < end {
          return;
        }
        var frame := Frame(winusbRxBuffer[3], winusbRxBuffer[4], winusbRxBuffer[HEADER_SIZE..end]);
        assert Take(winusbRxBuffer) == Complete(frame, winusbRxBuffer[end..]);
        winusbRxBuffer := winusbRxBuffer[end..];
        DispatchFrame(frame, effects(|dispatched|));
      }
    }

    method DispatchFrame(frame: Frame, effect: Effect)
      requires Valid()
      modifies this
      ensures Valid() && commandOwner == old(commandOwner)
      ensures State() == Dispatch(old(State()), frame, old(winusbRxBuffer), old(commandOwner), effect)
    {
      hide SentAsEncoded, RequestReplies;
      dispatched := dispatched + [frame];
      if frame.kind == COMMAND_REQUEST || frame.kind == QUERY_REQUEST {
        HandleRequest(frame, effect);
      } else if frame.kind == SESSION_RESET_REQUEST {
        ResetSession(frame.tag);
      } else {
        activeTag, pendingTextResponse := frame.tag, [];
        SendFrame(ERROR_RESPONSE, frame.tag, UNSUPPORTED);
      }
    }

    method HandleRequest(frame: Frame, effect: Effect)
      requires Valid() && (frame.kind == COMMAND_REQUEST || frame.kind == QUERY_REQUEST)
      modifies this
      ensures Valid() && commandOwner == old(commandOwner)
      ensures State() == old(State()).(sent := old(sent) + Replies(frame, old(commandOwner), effect))
    {
      hide SentAsEncoded, RequestReplies;
      var acquired := TryAcquireCommandOwner(WinUSB);
      if !acquired {
        SendFrame(ERROR_RESPONSE, frame.tag, BUSY);
        return;
      }
      activeTag, activeQueryRequest, pendingTextResponse := frame.tag, frame.kind == QUERY_REQUEST, [];
      ProcessRequest(effect);
      ReleaseCommandOwner(WinUSB);
    }

    method TryAcquireCommandOwner(owner: Owner) returns (acquired: bool)
      requires owner != Free
      modifies this`commandOwner
      ensures acquired <==> old(commandOwner) in {Free, owner}
      ensures commandOwner == if acquired then owner else old(commandOwner)
    {
      acquired := commandOwner == Free || commandOwner == owner;
      if acquired {
        commandOwner := owner;
      }
    }

    method ReleaseCommandOwner(owner: Owner)
      modifies this`commandOwner
      ensures commandOwner == if old(commandOwner) == owner then Free else old(commandOwner)
    {
      if commandOwner == owner {
        commandOwner := Free;
      }
    }

    method ResetCommandState()
      modifies this`errorQueue, this`pendingTextResponse, this`winusbRxBuffer, this`dataResponseSent,
        this`protocolMismatch
      ensures winusbRxBuffer == [] && errorQueue == [] && pendingTextResponse == []
      ensures !dataResponseSent && !protocolMismatch
    {
      errorQueue, pendingTextResponse, winusbRxBuffer := [], [], [];
      dataResponseSent, protocolMismatch := false, false;
    }

    method ResetSession(tag: Byte)
      requires Valid()
      modifies this
      ensures Valid() && commandOwner == old(commandOwner)
      ensures State() == if old(commandOwner) == USBTMC
        then old(State()).(sent := old(sent) + [Frame(ERROR_RESPONSE, tag, BUSY)])
        else old(State()).(buffer := [], sent := old(sent) + [Frame(SESSION_RESET_ACK, tag, [])])
    {
      hide SentAsEncoded;
      var acquired := TryAcquireCommandOwner(WinUSB);
      if !acquired {
        SendFrame(ERROR_RESPONSE, tag, BUSY);
        return;
      }
      activeTag, activeQueryRequest := tag, false;
      ResetCommandState();
      SendFrame(SESSION_RESET_ACK, tag, []);
      ReleaseCommandOwner(WinUSB);
    }

    method SendFrame(kind: Byte, tag: Byte, payload: seq<Byte>)
      requires SentAsEncoded()
      modifies this`sentTransfers, this`sent
      ensures SentAsEncoded() && sent == old(sent) + [Frame(kind, tag, payload)]
    {
      hide Encode;
      var frame := Frame(kind, tag, payload);
      var bytes := EncodeFrame(frame, srqPending);
      sentTransfers := sentTransfers + [bytes];
      sent := sent + [frame];
    }

    /** A handler's text: held back until its newline, refused in a command. */
    method SendTextResponse(text: seq<Byte>, addNewline: bool)
      requires SentAsEncoded()
      modifies this`pendingTextResponse, this`dataResponseSent, this`protocolMismatch, this`sentTransfers, this`sent
      ensures SentAsEncoded()
      ensures protocolMismatch == (old(protocolMismatch) || !activeQueryRequest)
      ensures var whole := activeQueryRequest && addNewline;
        && dataResponseSent == (old(dataResponseSent) || whole)
        && sent == old(sent)
           + (if whole then [Frame(TEXT_RESPONSE, activeTag, old(pendingTextResponse) + text + [10])] else [])
      ensures pendingTextResponse == if !activeQueryRequest then old(pendingTextResponse)
                                     else if addNewline then [] else old(pendingTextResponse) + text
    {
      hide SentAsEncoded;
      if !activeQueryRequest {
        protocolMismatch := true;
        return;
      }
      pendingTextResponse := pendingTextResponse + text;
      if !addNewline {
        return;
      }
      pendingTextResponse := pendingTextResponse + [10];
      SendFrame(TEXT_RESPONSE, activeTag, pendingTextResponse);
      pendingTextResponse := [];
      dataResponseSent := true;
    }

    method SendBinaryResponse(data: seq<Byte>)
      requires SentAsEncoded()
      modifies this`dataResponseSent, this`protocolMismatch, this`sentTransfers, this`sent
      ensures SentAsEncoded()
      ensures protocolMismatch == (old(protocolMismatch) || !activeQueryRequest)
      ensures dataResponseSent == (old(dataResponseSent) || activeQueryRequest)
      ensures sent == old(sent) + (if activeQueryRequest then [Frame(BINARY_RESPONSE, activeTag, data)] else [])
    {
      hide SentAsEncoded;
      if !activeQueryRequest {
        protocolMismatch := true;
        return;
      }
      SendFrame(BINARY_RESPONSE, activeTag, data);
      dataResponseSent := true;
    }

    /** Interprets a request and closes it. */
    method ProcessRequest(effect: Effect)
      requires SentAsEncoded() && pendingTextResponse == []
      modifies this`pendingTextResponse, this`dataResponseSent, this`protocolMismatch, this`errorQueue,
        this`sentTransfers, this`sent
      ensures SentAsEncoded()
      ensures sent == old(sent) + RequestReplies(activeTag, activeQueryRequest, effect)
      ensures errorQueue == if effect.errors == [] then [] else effect.errors[1..]
    {
      hide SentAsEncoded, DataReplies, PendingText;
      dataResponseSent, protocolMismatch := false, false;
      Interpret(effect.outputs);
      errorQueue := effect.errors;
      if errorQueue != [] {
        var error := errorQueue[0];
        errorQueue := errorQueue[1..];
        SendFrame(ERROR_RESPONSE, activeTag, error);
        return;
      }
      if protocolMismatch {
        SendFrame(ERROR_RESPONSE, activeTag, PRODUCED_DATA);
        return;
      }
      if activeQueryRequest && dataResponseSent {
        return;
      }
      if !activeQueryRequest {
        SendFrame(COMMAND_ACK, activeTag, []);
        return;
      }
      SendFrame(ERROR_RESPONSE, activeTag, MISSING_RESPONSE);
    }

    /** The handlers' outputs, one by one. */
    method Interpret(outputs: seq<Output>)
      requires SentAsEncoded() && pendingTextResponse == [] && !dataResponseSent && !protocolMismatch
      modifies this`pendingTextResponse, this`dataResponseSent, this`protocolMismatch, this`sentTransfers, this`sent
      ensures SentAsEncoded()
      ensures sent == old(sent) + (if activeQueryRequest then DataReplies(activeTag, outputs) else [])
      ensures protocolMismatch <==> !activeQueryRequest && outputs != []
      ensures dataResponseSent <==> activeQueryRequest && DataReplies(activeTag, outputs) != []
    {
      hide SentAsEncoded;
      for i := 0 to |outputs|
        invariant SentAsEncoded()
        invariant pendingTextResponse == if activeQueryRequest then PendingText(outputs[..i]) else []
        invariant sent == old(sent) + (if activeQueryRequest then DataReplies(activeTag, outputs[..i]) else [])
        invariant protocolMismatch <==> !activeQueryRequest && i > 0
        invariant dataResponseSent <==> activeQueryRequest && DataReplies(activeTag, outputs[..i]) != []
      {
        assert outputs[..i + 1][..i] == outputs[..i];
        match outputs[i]
        case Text(text, addNewline) => SendTextResponse(text, addNewline);
        case Binary(bytes) => SendBinaryResponse(bytes);
      }
      assert outputs[..|outputs|] == outputs;
    }
  }

  ghost predicate IsEncoding(bytes: seq<Byte>, f: Frame) {
    bytes == Encode(f, 0) || bytes == Encode(f, 1)
  }
}
