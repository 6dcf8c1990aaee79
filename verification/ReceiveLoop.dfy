/**
 * Core 1's receive loop: it reads the circular buffer the DMA fills, gives each frame marker its timestamp,
 * feeds every other word to the message being decoded and publishes the attempts that complete. `Receiver`
 * is its state with the history of the attempts; the class BMCDecoder refines it.
 */
module ReceiveLoop {
  import I = IngressTimestamps
  import opened BmcDecoding
  import opened CodecGrammar
  import opened CodecSoundness
  import opened CodecCompleteness
  import opened MessageHandoff
  import opened Octets
  import opened Options

  type Word = n: nat | n < 0x1_0000_0000
  const FRAME_START_MARKER: Word := 0xFFFF_FFFF

  /** PHY_BMC_DECODER_CIRCULAR_BUFFER_SIZE */
  const BUFFER_SIZE: nat := 2000

  datatype Ingress = Unmarked | Missing | At(timestamp: nat)

  /** A finished attempt, as the callbacks and the message queue get it. */
  datatype Message = Message(event: Event, result: Result, sop: seq<nat>, data: seq<Byte>, pulses: seq<nat>,
    ingress: Ingress)
  {
    predicate IsPublished() { ingress != Unmarked || data != [] }

    /** Delivered to core 1's callback at once. */
    predicate IsDelivered() { IsPublished() && (event == MessageComplete || event == HardResetReceived) }
  }

  /** A finished attempt with the number of its last marker and the pulses it took. */
  datatype Attempt = Attempt(message: Message, markers: nat, widths: seq<nat>)

  const BLANK := MessageOf(RESET, NoEvent, Unmarked)
  const BLANKS: seq<Message> := [BLANK, BLANK, BLANK, BLANK, BLANK, BLANK, BLANK, BLANK, BLANK, BLANK]

  type Messages = h: Handoff<Message> | Shaped(h) witness Begin(BLANKS)

  datatype Receiver = Receiver(
    ring: I.Ring,
    current: Decoder,
    ingress: Ingress,
    attempt: seq<nat>,
    markers: nat,
    finished: seq<Attempt>,
    handoff: Messages)

  const INITIAL := Receiver(I.EMPTY, RESET, Unmarked, [], 0, [], Begin(BLANKS))

  function IngressOf(answer: Option<nat>): Ingress {
    if answer.Some? then At(answer.value) else Missing
  }

  function Mark(r: Receiver): Receiver {
    var (ring, answer) := I.Consume(r.ring);
    r.(ring := ring, ingress := IngressOf(answer), markers := r.markers + 1)
  }

  function MessageOf(d: Decoder, event: Event, ingress: Ingress): Message {
    Message(event, d.result, d.sop, d.data, d.pulses, ingress)
  }

  function Finish(r: Receiver, event: Event): Receiver {
    var message := MessageOf(r.current, event, r.ingress);
    r.(finished := r.finished + [Attempt(message, r.markers, r.attempt)],
       handoff := if message.IsPublished() then Publish(r.handoff, message) else r.handoff,
       current := RESET, ingress := Unmarked, attempt := [])
  }

  function TakePulse(r: Receiver, width: nat): Receiver {
    var (d, event) := Feed(r.current, width);
    var e := r.(current := d, attempt := r.attempt + [width]);
    if event.IsCompletion() then Finish(e, event) else e
  }

  /** One word of the circular buffer. */
  function Receive(r: Receiver, word: Word): Receiver {
    if word == FRAME_START_MARKER then Mark(r) else TakePulse(r, Width(word))
  }

  function ReceiveAll(r: Receiver, words: seq<Word>): Receiver {
    if words == [] then r
    else Receive(ReceiveAll(r, words[..|words| - 1]), words[|words| - 1])
  }

  function Published(finished: seq<Attempt>): seq<Message> {
    if finished == [] then []
    else
      var rest, last := Published(finished[..|finished| - 1]), finished[|finished| - 1].message;
      if last.IsPublished() then rest + [last] else rest
  }

  // ----- Runs: interrupts between any two words -----

  datatype Step = FrameStart(timestamp: nat) | Read(word: Word) | TakesMessage | PutsMessageDown

  function Apply(r: Receiver, s: Step): Receiver {
    match s
    case FrameStart(timestamp) => r.(ring := I.Latch(r.ring, timestamp))
    case Read(word) => Receive(r, word)
    case TakesMessage => r.(handoff := Take(r.handoff))
    case PutsMessageDown => r.(handoff := PutDown(r.handoff))
  }

  function Run(steps: seq<Step>): Receiver {
    if steps == [] then INITIAL
    else Apply(Run(steps[..|steps| - 1]), steps[|steps| - 1])
  }

  /** The pulse widths of the run. */
  function Pulses(steps: seq<Step>): seq<nat> {
    if steps == [] then []
    else
      var rest, last := Pulses(steps[..|steps| - 1]), steps[|steps| - 1];
      if last.Read? && last.word != FRAME_START_MARKER then rest + [Width(last.word)] else rest
  }

  /** The interrupts and markers of the run. */
  function Marks(steps: seq<Step>): seq<I.Step> {
    if steps == [] then []
    else
      var rest, last := Marks(steps[..|steps| - 1]), steps[|steps| - 1];
      if last.FrameStart? then rest + [I.FrameStart(last.timestamp)]
      else if last.Read? && last.word == FRAME_START_MARKER then rest + [I.Marker]
      else rest
  }

  function Consumed(finished: seq<Attempt>): seq<nat> {
    if finished == [] then []
    else Consumed(finished[..|finished| - 1]) + finished[|finished| - 1].widths
  }

  /** An attempt is one whole decoding, from reset to the pulse that completed it. */
  predicate WholeAttempt(a: Attempt) {
    && CompletesWith(a.widths, a.message.event)
    && a.message == MessageOf(After(RESET, a.widths), a.message.event, a.message.ingress)
  }

  predicate Sound(r: Receiver) {
    && r.current == After(RESET, r.attempt)
    && Quiet(RESET, r.attempt)
    && forall i :: 0 <= i < |r.finished| ==> WholeAttempt(r.finished[i])
  }

  lemma PulseKeepsSound(r: Receiver, width: nat)
    requires Sound(r)
    ensures Sound(TakePulse(r, width))
  {
    hide Feed;
    var w := r.attempt + [width];
    AfterOne(RESET, r.attempt, width);
    QuietConcat(RESET, r.attempt, [width]);
    assert w[..|w| - 1] == r.attempt;
  }

  lemma AfterOne(d: Decoder, widths: seq<nat>, width: nat)
    ensures After(d, widths + [width]) == Feed(After(d, widths), width).0
  {
    hide Feed;
    AfterConcat(d, widths, [width]);
    assert [width][1..] == [];
  }

  /** The loop never feeds a message that has completed, and cuts the pulses into attempts without loss. */
  lemma {:induction false} RunsAreSound(steps: seq<Step>)
    ensures Sound(Run(steps))
    ensures Consumed(Run(steps).finished) + Run(steps).attempt == Pulses(steps)
  {
    hide Feed, Sound, I.Consume, Width;
    if steps == [] {
      SoundInitially();
    } else {
      var rest, last := steps[..|steps| - 1], steps[|steps| - 1];
      RunsAreSound(rest);
      var r := Run(rest);
      if !last.Read? || last.word == FRAME_START_MARKER {
        SoundIgnoresMarks(r, Run(steps));
      } else {
        PulseKeepsSound(r, Width(last.word));
        PulseIsConsumed(r, Width(last.word));
      }
    }
  }

  lemma SoundInitially()
    ensures Sound(INITIAL)
  {
  }

  lemma SoundIgnoresMarks(r: Receiver, s: Receiver)
    requires Sound(r) && s == r.(ring := s.ring, ingress := s.ingress, markers := s.markers, handoff := s.handoff)
    ensures Sound(s)
  {
  }

  lemma PulseIsConsumed(r: Receiver, width: nat)
    ensures var t := TakePulse(r, width); Consumed(t.finished) + t.attempt == Consumed(r.finished) + r.attempt + [width]
  {
    hide Feed;
    var (d, event) := Feed(r.current, width);
    if event.IsCompletion() {
      var e := r.(current := d, attempt := r.attempt + [width]);
      var t := Finish(e, event);
      assert t.finished[..|r.finished|] == r.finished;
      assert t.attempt == [];
    }
  }

  /** Every message reported complete was on the wire: its stretch of pulses is a packet with its bytes. */
  lemma CompletedMessagesArePackets(steps: seq<Step>, i: nat)
    requires i < |Run(steps).finished| && Run(steps).finished[i].message.event == MessageComplete
    ensures var a := Run(steps).finished[i];
      && a.message.result == Success
      && exists unpaired :: IsPacket(a.widths, a.message.sop, a.message.data, unpaired)
  {
    hide Run, CompletesWith, IsPacket, After;
    RunsAreSound(steps);
    CompleteMessagesAreSound(Run(steps).finished[i].widths);
  }

  /** No attempt goes on for more pulses than the pulse buffer holds. */
  lemma AttemptsAreBounded(steps: seq<Step>)
    ensures |Run(steps).attempt| <= MAX_PULSES
    ensures Run(steps).current.pulses == Run(steps).attempt
  {
    hide Run, After, Quiet;
    RunsAreSound(steps);
    QuietRunsAreBounded(Run(steps).attempt);
  }

  // ----- Delivery -----

  /** The widths these words measure; a marker is not among them. */
  predicate Measures(words: seq<Word>, widths: seq<nat>) {
    && |words| == |widths|
    && forall i :: 0 <= i < |words| ==> words[i] != FRAME_START_MARKER && Width(words[i]) == widths[i]
  }

  /** A quiet run of pulses only builds up the attempt. */
  lemma {:induction false} QuietPulsesBuildUp(r: Receiver, words: seq<Word>, widths: seq<nat>)
    requires r.current == RESET && r.attempt == [] && Measures(words, widths) && Quiet(RESET, widths)
    ensures ReceiveAll(r, words) == r.(current := After(RESET, widths), attempt := widths)
    decreases |words|
  {
    hide Feed, Width;
    if words == [] {
    } else {
      var n := |words| - 1;
      assert widths == widths[..n] + [widths[n]];
      QuietConcat(RESET, widths[..n], [widths[n]]);
      QuietPulsesBuildUp(r, words[..n], widths[..n]);
      AfterOne(RESET, widths[..n], widths[n]);
    }
  }

  /**
   * A frame on the wire is delivered: from any state between attempts, its marker and pulses add exactly one
   * finished attempt, a complete message with the packet's codes and bytes and the marker's timestamp, which is
   * published and given to core 1, and the loop is between attempts again.
   */
  lemma FramesAreDelivered(r: Receiver, words: seq<Word>, widths: seq<nat>, sop: seq<nat>, data: seq<Byte>,
    unpaired: seq<nat>)
    requires r.current == RESET && r.attempt == [] && Measures(words, widths) && IsPacket(widths, sop, data, unpaired)
    ensures var s, (ring, answer) := ReceiveAll(Mark(r), words), I.Consume(r.ring);
      var m := Message(MessageComplete, Success, sop, data, After(RESET, widths).pulses, IngressOf(answer));
      && s == Receiver(ring, RESET, Unmarked, [], r.markers + 1, r.finished + [Attempt(m, r.markers + 1, widths)],
                       Publish(r.handoff, m))
      && m.IsDelivered()
  {
    hide Feed, IsPacket, After, Quiet, I.Consume, Width;
    PacketsComplete(widths, sop, data, unpaired);
    CompleteMessagesAreSound(widths);
    var n := |widths| - 1;
    QuietPulsesBuildUp(Mark(r), words[..n], widths[..n]);
    assert widths == widths[..n] + [widths[n]];
    AfterOne(RESET, widths[..n], widths[n]);
  }

  /** Between attempts, whatever happened before. */
  predicate BetweenAttempts(r: Receiver) {
    r.current == RESET && r.attempt == [] && r.ingress == Unmarked
  }

  /** From every state one timeout, or any pulse on a full pulse buffer, ends the attempt. */
  lemma Resynchronises(r: Receiver, word: Word)
    requires word != FRAME_START_MARKER
    requires Width(word) >= TIMEOUT_WIDTH || |r.current.pulses| >= MAX_PULSES
    ensures BetweenAttempts(Receive(r, word)) && Receive(r, word).ring == r.ring
    ensures |Receive(r, word).finished| == |r.finished| + 1
  {
  }

  /** The word the hardware sends for a timeout is one. */
  lemma ZeroIsATimeout()
    ensures Width(0) >= TIMEOUT_WIDTH
  {
  }

  /**
   * After any run, whatever was received and however badly, a timeout is enough for the next frame to be delivered:
   * its marker and pulses add exactly one message, with the packet's codes and bytes.
   */
  lemma FrameAfterTimeoutIsDelivered(steps: seq<Step>, words: seq<Word>, widths: seq<nat>, sop: seq<nat>,
                                     data: seq<Byte>, unpaired: seq<nat>)
    requires Measures(words, widths) && IsPacket(widths, sop, data, unpaired)
    ensures var r := Run(steps + [Read(0)]); var s := ReceiveAll(Mark(r), words);
      && |r.finished| == |Run(steps).finished| + 1
      && |s.finished| == |r.finished| + 1 && s.finished[..|r.finished|] == r.finished && BetweenAttempts(s)
      && var m := s.finished[|r.finished|].message;
         m.IsDelivered() && m.event == MessageComplete && m.sop == sop && m.data == data
  {
    hide Receive, IsPacket, Measures, Mark, ReceiveAll, I.Consume, After;
    assert (steps + [Read(0)])[..|steps|] == steps;
    ZeroIsATimeout();
    Resynchronises(Run(steps), 0);
    FramesAreDelivered(Run(steps + [Read(0)]), words, widths, sop, data, unpaired);
  }

  // ----- Timestamps -----

  /** The stamp an attempt carries is the answer to its last marker. */
  ghost predicate Stamped(r: Receiver, marks: seq<I.Step>) {
    && r.ring == I.After(marks)
    && r.markers == I.Markers(marks) == |I.Answers(marks)|
    && Carries(r.ingress, r.markers, marks)
    && forall i :: 0 <= i < |r.finished| ==> Carries(r.finished[i].message.ingress, r.finished[i].markers, marks)
  }

  ghost predicate Carries(ingress: Ingress, markers: nat, marks: seq<I.Step>) {
    ingress != Unmarked ==> 0 < markers <= |I.Answers(marks)| && ingress == IngressOf(I.Answers(marks)[markers - 1])
  }

  lemma {:induction false} RunsAreStamped(steps: seq<Step>)
    ensures Stamped(Run(steps), Marks(steps))
  {
    hide Feed, Width, I.Consume, I.Latch, Stamped;
    if steps == [] {
      InitiallyStamped();
    } else {
      var rest, last := steps[..|steps| - 1], steps[|steps| - 1];
      RunsAreStamped(rest);
      var r, marks := Run(rest), Marks(rest);
      match last
      case FrameStart(timestamp) => LatchKeepsStamped(r, marks, timestamp);
      case Read(word) =>
        if word == FRAME_START_MARKER {
          MarkKeepsStamped(r, marks);
        } else {
          PulseKeepsStamped(r, marks, Width(word));
        }
      case TakesMessage => HandingKeepsStamped(r, marks, Take(r.handoff));
      case PutsMessageDown => HandingKeepsStamped(r, marks, PutDown(r.handoff));
    }
  }

  lemma InitiallyStamped()
    ensures Stamped(INITIAL, [])
  {
  }

  lemma LatchKeepsStamped(r: Receiver, marks: seq<I.Step>, timestamp: nat)
    requires Stamped(r, marks)
    ensures Stamped(r.(ring := I.Latch(r.ring, timestamp)), marks + [I.FrameStart(timestamp)])
  {
    var all := marks + [I.FrameStart(timestamp)];
    assert all[..|marks|] == marks;
  }

  lemma MarkKeepsStamped(r: Receiver, marks: seq<I.Step>)
    requires Stamped(r, marks)
    ensures Stamped(Mark(r), marks + [I.Marker])
  {
    var all := marks + [I.Marker];
    assert all[..|marks|] == marks;
    assert I.Answers(all) == I.Answers(marks) + [I.Consume(r.ring).1];
    hide I.Consume;
  }

  lemma HandingKeepsStamped(r: Receiver, marks: seq<I.Step>, handoff: Messages)
    requires Stamped(r, marks)
    ensures Stamped(r.(handoff := handoff), marks)
  {
  }

  lemma PulseKeepsStamped(r: Receiver, marks: seq<I.Step>, width: nat)
    requires Stamped(r, marks)
    ensures Stamped(TakePulse(r, width), marks)
  {
    hide Feed;
  }

  /**
   * However interrupts and reads interleave, if every frame's interrupt precedes its marker then the timestamp
   * a message carries is the one latched for the frame of its last marker.
   */
  lemma MessagesGetTheirOwnTimestamp(steps: seq<Step>, i: nat)
    requires I.Orderly(Marks(steps)) && i < |Run(steps).finished|
    ensures var a, stamps := Run(steps).finished[i], I.Stamps(Marks(steps));
      a.message.ingress.At? ==> 0 < a.markers <= |stamps| && a.message.ingress.timestamp == stamps[a.markers - 1]
  {
    hide Run;
    RunsAreStamped(steps);
    var a := Run(steps).finished[i];
    if a.message.ingress.At? {
      I.MarkersGetTheirOwn(Marks(steps), a.markers - 1);
    }
  }

  // ----- Handing messages to core 0 -----

  /** What the run does to the message buffers and the queue. */
  function HandoffSteps(steps: seq<Step>): seq<MessageHandoff.Step<Message>> {
    if steps == [] then []
    else
      var rest, last := steps[..|steps| - 1], steps[|steps| - 1];
      HandoffSteps(rest) + StepsOf(Run(rest), last)
  }

  function StepsOf(r: Receiver, step: Step): seq<MessageHandoff.Step<Message>> {
    if step.TakesMessage? then [Takes]
    else if step.PutsMessageDown? then [PutsDown]
    else
      var before, after := r.finished, Apply(r, step).finished;
      if |after| > |before| && after[|before|].message.IsPublished() then [Publishes(after[|before|].message)] else []
  }

  lemma {:induction false} RunsHandOff(steps: seq<Step>)
    ensures Run(steps).handoff == MessageHandoff.Run(INITIAL.handoff, HandoffSteps(steps))
    ensures Run(steps).handoff.published == Published(Run(steps).finished)
  {
    if steps == [] {
    } else {
      hide Apply, MessageHandoff.Publish;
      var rest, last := steps[..|steps| - 1], steps[|steps| - 1];
      RunsHandOff(rest);
      StepHandsOff(Run(rest), last, HandoffSteps(rest));
    }
  }

  lemma StepHandsOff(r: Receiver, step: Step, before: seq<MessageHandoff.Step<Message>>)
    requires r.handoff == MessageHandoff.Run(INITIAL.handoff, before) && r.handoff.published == Published(r.finished)
    ensures Apply(r, step).handoff == MessageHandoff.Run(INITIAL.handoff, before + StepsOf(r, step))
    ensures Apply(r, step).handoff.published == Published(Apply(r, step).finished)
  {
    hide Apply, MessageHandoff.Run, Published;
    var more := StepsOf(r, step);
    StepHandsOver(r, step);
    if more == [] {
      assert before + more == before;
    } else {
      OneMoreHandoff(before, more[0]);
    }
  }

  lemma OneMoreHandoff(before: seq<MessageHandoff.Step<Message>>, step: MessageHandoff.Step<Message>)
    ensures MessageHandoff.Run(INITIAL.handoff, before + [step])
      == Advance(MessageHandoff.Run(INITIAL.handoff, before), step)
  {
    hide Advance;
    assert (before + [step])[..|before|] == before;
  }

  /** What one step of the receiver does to the handoff: a publication, a taking, a putting down or nothing. */
  lemma StepHandsOver(r: Receiver, step: Step)
    requires r.handoff.published == Published(r.finished)
    ensures var more, t := StepsOf(r, step), Apply(r, step);
      && t.handoff == (if more == [] then r.handoff else Advance(r.handoff, more[0])) && |more| <= 1
      && t.handoff.published == Published(t.finished)
  {
    hide Receive, Publish, I.Latch;
    match step
    case Read(word) => ReadHandsOver(r, word);
    case TakesMessage => TakePublishesNone(r.handoff);
    case PutsMessageDown =>
    case FrameStart(_) =>
  }

  lemma ReadHandsOver(r: Receiver, word: Word)
    requires r.handoff.published == Published(r.finished)
    ensures var t := Receive(r, word);
      && (if |t.finished| <= |r.finished| then t.finished == r.finished && t.handoff == r.handoff
          else
            var m := t.finished[|r.finished|].message;
            t.handoff == if m.IsPublished() then Publish(r.handoff, m) else r.handoff)
      && t.handoff.published == Published(t.finished)
  {
    hide Feed, Width, I.Consume, Publish, Published;
    if word != FRAME_START_MARKER {
      var (d, event) := Feed(r.current, Width(word));
      var message := MessageOf(d, event, r.ingress);
      PublishedOneMore(r.finished, Attempt(message, r.markers, r.attempt + [Width(word)]));
      PublishRecords(r.handoff, message);
    }
  }

  /**
   * Over every run, each published message is intact until core 0 is done with it if and only if those waiting and
   * the one in hand never come to ten.
   */
  lemma PublishedMessagesStayIntactIff(steps: seq<Step>)
    ensures Run(steps).handoff == MessageHandoff.Run(INITIAL.handoff, HandoffSteps(steps))
    ensures AlwaysIntact(INITIAL.handoff.buffers, HandoffSteps(steps))
      <==> NeverTen(INITIAL.handoff.buffers, HandoffSteps(steps))
  {
    RunsHandOff(steps);
    IntactIffNeverTen(INITIAL.handoff.buffers, HandoffSteps(steps));
  }

  /** A frame that never gets past its first edge: its marker, and the timeout after it. */
  const FALSE_START: seq<Step> := [Read(FRAME_START_MARKER), Read(0)]

  const FALSE_MESSAGE := Message(TimeoutBeforeStartError, Timeout, [], [], [TIMEOUT_WIDTH], Missing)

  /** Between attempts, and with no frame's timestamp waiting or owed. */
  predicate Quiescent(r: Receiver) {
    r.current == RESET && r.attempt == [] && r.ingress == Unmarked && r.ring.queue == [] && r.ring.pendingMissing == 0
  }

  lemma OneMoreStep(steps: seq<Step>, step: Step)
    ensures Run(steps + [step]) == Apply(Run(steps), step)
    ensures HandoffSteps(steps + [step]) == HandoffSteps(steps) + StepsOf(Run(steps), step)
  {
    assert (steps + [step])[..|steps|] == steps;
  }

  lemma LostMarker(r: Receiver)
    requires Quiescent(r)
    ensures var t := Apply(r, Read(FRAME_START_MARKER));
      Quiescent(t.(ingress := Unmarked)) && t.ingress == Missing && StepsOf(r, Read(FRAME_START_MARKER)) == []
  {
  }

  lemma LostFrame(r: Receiver)
    requires Quiescent(r.(ingress := Unmarked)) && r.ingress == Missing
    ensures Quiescent(Apply(r, Read(0))) && StepsOf(r, Read(0)) == [Publishes(FALSE_MESSAGE)]
  {
    assert Width(0) == TIMEOUT_WIDTH && TIMEOUT_WIDTH % 0x1_0000 == TIMEOUT_WIDTH;
    var timedOut := RESET.(pulses := [TIMEOUT_WIDTH], result := Timeout);
    assert Feed(r.current, TIMEOUT_WIDTH) == (timedOut, TimeoutBeforeStartError) by {
      assert RESET.pulses + [TIMEOUT_WIDTH] == [TIMEOUT_WIDTH];
    }
    assert r.attempt + [TIMEOUT_WIDTH] == [TIMEOUT_WIDTH];
    hide Feed;
    var t := Apply(r, Read(0));
    assert t.finished == r.finished + [Attempt(FALSE_MESSAGE, r.markers, [TIMEOUT_WIDTH])];
  }

  lemma FalseStartPublishes(steps: seq<Step>)
    requires Quiescent(Run(steps))
    ensures Quiescent(Run(steps + FALSE_START))
    ensures HandoffSteps(steps + FALSE_START) == HandoffSteps(steps) + [Publishes(FALSE_MESSAGE)]
  {
    hide Run, HandoffSteps, StepsOf, Apply, Quiescent;
    var marked := steps + [Read(FRAME_START_MARKER)];
    assert steps + FALSE_START == marked + [Read(0)];
    OneMoreStep(steps, Read(FRAME_START_MARKER));
    OneMoreStep(marked, Read(0));
    LostMarker(Run(steps));
    LostFrame(Run(marked));
  }

  function FalseStarts(n: nat): seq<Step> {
    if n == 0 then [] else FalseStarts(n - 1) + FALSE_START
  }

  lemma {:induction false} FalseStartsPublish(steps: seq<Step>, n: nat)
    requires Quiescent(Run(steps))
    ensures Quiescent(Run(steps + FalseStarts(n)))
    ensures HandoffSteps(steps + FalseStarts(n)) == HandoffSteps(steps) + Many(FALSE_MESSAGE, n)
  {
    hide Run, HandoffSteps, Quiescent;
    if n == 0 {
      assert steps + FalseStarts(n) == steps;
    } else {
      FalseStartsPublish(steps, n - 1);
      assert steps + FalseStarts(n) == steps + FalseStarts(n - 1) + FALSE_START;
      FalseStartPublishes(steps + FalseStarts(n - 1));
      assert Many(FALSE_MESSAGE, n) == Many(FALSE_MESSAGE, n - 1) + [Publishes(FALSE_MESSAGE)];
    }
  }

  predicate ReadsOverHand(h: Messages) {
    |h.queue| == 9 && h.hand == [h.index]
  }

  /**
   * With one message in hand and nine more frames begun and lost, core 0 is reading the buffer being received into.
   */
  lemma MessageInHandIsReceivedOver()
    ensures exists steps :: ReadsOverHand(Run(steps).handoff)
  {
    hide MessageHandoff.Run, Run, HandoffSteps, StepsOf, Apply, Quiescent, FalseStarts;
    StartsQuiescent();
    FalseStartPublishes([]);
    assert [] + FALSE_START == FALSE_START;
    var taken := FALSE_START + [TakesMessage];
    OneMoreStep(FALSE_START, TakesMessage);
    TakingStaysQuiescent(Run(FALSE_START));
    FalseStartsPublish(taken, 9);
    var steps := taken + FalseStarts(9);
    assert HandoffSteps(steps) == [Publishes(FALSE_MESSAGE), Takes] + Many(FALSE_MESSAGE, 9);
    RunsHandOff(steps);
    NineWaitingLoseTheOneInHand(INITIAL.handoff.buffers, FALSE_MESSAGE);
    assert ReadsOverHand(Run(steps).handoff);
  }

  lemma StartsQuiescent()
    ensures Quiescent(Run([])) && HandoffSteps([]) == []
  {
  }

  lemma TakingStaysQuiescent(r: Receiver)
    requires Quiescent(r)
    ensures Quiescent(Apply(r, TakesMessage)) && StepsOf(r, TakesMessage) == [Takes]
  {
  }

  // ----- The loop in place -----

  /** The words from one position of the circular buffer up to another. */
  function Unread(buffer: seq<Word>, from: nat, to: nat): seq<Word>
    requires from < |buffer| && to < |buffer|
  {
    if from <= to then buffer[from..to] else buffer[from..] + buffer[..to]
  }

  lemma UnreadHead(buffer: seq<Word>, from: nat, to: nat)
    requires from < |buffer| && to < |buffer|
    ensures var next := if from + 1 < |buffer| then from + 1 else 0;
      Unread(buffer, from, to) == if from == to then [] else [buffer[from]] + Unread(buffer, next, to)
  {
  }

  function ApplyAll(r: Receiver, steps: seq<Step>): Receiver {
    if steps == [] then r else Apply(ApplyAll(r, steps[..|steps| - 1]), steps[|steps| - 1])
  }

  lemma {:induction false} RunAppliesAll(steps: seq<Step>)
    ensures Run(steps) == ApplyAll(INITIAL, steps)
  {
    if steps == [] {
    } else {
      RunAppliesAll(steps[..|steps| - 1]);
    }
  }

  lemma {:induction false} ApplyBoth(r: Receiver, a: seq<Step>, b: seq<Step>)
    ensures ApplyAll(r, a + b) == ApplyAll(ApplyAll(r, a), b)
  {
    hide Apply;
    if b == [] {
      assert a + b == a;
    } else {
      ApplyBoth(r, a, b[..|b| - 1]);
      assert (a + b)[..|a + b| - 1] == a + b[..|b| - 1];
    }
  }

  /** Calls of the loop continue a run by their words and interrupts: what holds over runs holds after any calls. */
  lemma RunGoesOn(steps: seq<Step>, more: seq<Step>)
    ensures ApplyAll(Run(steps), more) == Run(steps + more)
  {
    RunAppliesAll(steps);
    RunAppliesAll(steps + more);
    ApplyBoth(INITIAL, steps, more);
  }

  function Starts(stamps: seq<nat>): (steps: seq<Step>)
    ensures |steps| == |stamps|
  {
    seq(|stamps|, i requires 0 <= i < |stamps| => FrameStart(stamps[i]))
  }

  /** The frame starts before each word, if any, and then the word. */
  function StepsAt(words: seq<Word>, interrupts: seq<seq<nat>>, i: nat): seq<Step>
    requires i < |words|
  {
    (if i < |interrupts| then Starts(interrupts[i]) else []) + [Read(words[i])]
  }

  /** The first `n` words with the interrupts that come among them. */
  function Interleaved(words: seq<Word>, interrupts: seq<seq<nat>>, n: nat): seq<Step>
    requires n <= |words|
  {
    if n == 0 then [] else Interleaved(words, interrupts, n - 1) + StepsAt(words, interrupts, n - 1)
  }

  lemma NothingInterleaved(r: Receiver, words: seq<Word>, interrupts: seq<seq<nat>>)
    ensures ApplyAll(r, Interleaved(words, interrupts, 0)) == r
  {
  }

  lemma OneMoreInterleaved(r: Receiver, words: seq<Word>, interrupts: seq<seq<nat>>, n: nat)
    requires n < |words|
    ensures var s := ApplyAll(r, Interleaved(words, interrupts, n));
      ApplyAll(r, Interleaved(words, interrupts, n + 1))
        == Apply(ApplyAll(s, Starts(if n < |interrupts| then interrupts[n] else [])), Read(words[n]))
  {
    hide Apply;
    var before := Interleaved(words, interrupts, n);
    var starts := Starts(if n < |interrupts| then interrupts[n] else []);
    assert Interleaved(words, interrupts, n + 1) == before + (starts + [Read(words[n])]);
    ApplyBoth(r, before, starts + [Read(words[n])]);
    ApplyBoth(ApplyAll(r, before), starts, [Read(words[n])]);
    ApplyOne(ApplyAll(ApplyAll(r, before), starts), Read(words[n]));
  }

  lemma ApplyOne(r: Receiver, step: Step)
    ensures ApplyAll(r, [step]) == Apply(r, step) && ApplyAll(r, []) == r
  {
    assert [step][..0] == [];
  }

  lemma AllBlank(i: nat)
    requires i < BUFFERS
    ensures BLANKS[i] == BLANK
  {
  }

  lemma PublishRecords(h: Messages, message: Message)
    ensures Publish(h, message).published == h.published + [message]
  {
  }

  lemma PublishedOneMore(finished: seq<Attempt>, last: Attempt)
    ensures Published(finished + [last])
      == Published(finished) + (if last.message.IsPublished() then [last.message] else [])
  {
    assert (finished + [last])[..|finished|] == finished;
  }

  // ----- The message buffers -----

  ghost predicate Within(message: BMCDecodedMessage, footprint: set<object>) {
    message in footprint && message.sop in footprint && message.data in footprint && message.pulseBuffer in footprint
  }

  ghost predicate Apart(a: BMCDecodedMessage, b: BMCDecodedMessage) {
    && a != b && a.sop != b.sop && a.data != b.data && a.pulseBuffer != b.pulseBuffer
    && a.sop != b.pulseBuffer && a.pulseBuffer != b.sop
  }

  ghost predicate Buffers(messages: seq<BMCDecodedMessage>, footprint: set<object>) {
    && (forall i :: 0 <= i < |messages| ==> Within(messages[i], footprint))
    && (forall i, j :: 0 <= i < |messages| && 0 <= j < |messages| && i != j ==> Apart(messages[i], messages[j]))
  }

  method MessageBuffers() returns (messages: seq<BMCDecodedMessage>, ghost footprint: set<object>)
    ensures |messages| == BUFFERS && Buffers(messages, footprint) && fresh(footprint)
    ensures forall i :: 0 <= i < BUFFERS ==>
      messages[i].Valid() && messages[i].State() == RESET && messages[i].result == Incomplete
  {
    messages, footprint := [], {};
    for n := 0 to BUFFERS
      invariant |messages| == n && Buffers(messages, footprint) && fresh(footprint)
      invariant forall i :: 0 <= i < n ==>
        messages[i].Valid() && messages[i].State() == RESET && messages[i].result == Incomplete
    {
      var message := new BMCDecodedMessage();
      footprint := footprint + {message, message.sop, message.data, message.pulseBuffer};
      messages := messages + [message];
    }
  }

  class BMCDecoder {
    const circularBuffer: array<Word>
    const timestamps: I.TimestampQueue
    const messageBuffer: seq<BMCDecodedMessage>
    ghost const footprint: set<object>
    /** The start timestamp of each message in the buffers. */
    const ingresses: array<Ingress>
    var currentMessageIndex: nat
    var messageQueue: seq<nat>
    var messageInHand: Option<nat>
    var transferCount: nat
    ghost var attempt: seq<nat>
    ghost var markers: nat
    ghost var finished: seq<Attempt>
    ghost var handoff: Messages

    ghost predicate Arranged()
      reads this`currentMessageIndex
    {
      && circularBuffer.Length == BUFFER_SIZE
      && |messageBuffer| == ingresses.Length == BUFFERS && currentMessageIndex < BUFFERS
      && Buffers(messageBuffer, footprint)
      && this !in footprint && timestamps !in footprint && timestamps.queue !in footprint && ingresses !in footprint
      && circularBuffer !in footprint
      && circularBuffer as object != timestamps.queue && circularBuffer as object != ingresses
    }

    /** A buffer holds the message that was published from it. */
    ghost predicate Keeps(i: nat)
      requires Arranged() && i < BUFFERS
      reads this`currentMessageIndex, this`handoff, ingresses, footprint
    {
      messageBuffer[i].Valid() &&
      handoff.buffers[i] == MessageOf(messageBuffer[i].State(), handoff.buffers[i].event, ingresses[i])
    }

    /** Everything but the message being received. */
    ghost predicate Others()
      reads this, timestamps, timestamps.queue, ingresses, footprint
    {
      && Arranged() && timestamps.Valid()
      && transferCount < BUFFER_SIZE && Kept() && handoff.published == Published(finished)
    }

    /** The handoff is what the buffers and the queue are in. */
    ghost predicate Kept()
      requires Arranged()
      reads this`currentMessageIndex, this`handoff, this`messageQueue, this`messageInHand, ingresses, footprint
    {
      && handoff.index == currentMessageIndex && handoff.queue == messageQueue
      && handoff.hand == (if messageInHand.Some? then [messageInHand.value] else [])
      && forall i :: 0 <= i < BUFFERS && i != currentMessageIndex ==> Keeps(i)
    }

    /** The message being received has the decoder's own invariant. */
    ghost predicate CurrentValid()
      requires Arranged()
      reads this`currentMessageIndex, footprint
    {
      messageBuffer[currentMessageIndex].Valid()
    }

    ghost predicate Valid()
      reads this, timestamps, timestamps.queue, ingresses, footprint
    {
      Others() && CurrentValid() && messageBuffer[currentMessageIndex].result == Incomplete
    }

    ghost function State(): Receiver
      requires Arranged() && timestamps.Valid() && CurrentValid()
      reads this, timestamps, timestamps.queue, ingresses, footprint
    {
      Receiver(timestamps.State(), messageBuffer[currentMessageIndex].State(), ingresses[currentMessageIndex],
               attempt, markers, finished, handoff)
    }

    constructor ()
      ensures Valid() && State() == INITIAL
    {
      hide BMCDecodedMessage.State, BMCDecodedMessage.Valid, I.TimestampQueue.State, I.TimestampQueue.Contents;
      hide Kept, Published;
      circularBuffer := new Word[BUFFER_SIZE](i => 0);
      timestamps := new I.TimestampQueue();
      ingresses := new Ingress[BUFFERS](i => Unmarked);
      currentMessageIndex, messageQueue, messageInHand, transferCount := 0, [], None, 0;
      attempt, markers, finished, handoff := [], 0, [], INITIAL.handoff;
      var messages;
      ghost var parts;
      messages, parts := MessageBuffers();
      messageBuffer, footprint := messages, parts;
      new;
      BlankIsValid();
    }

    lemma BlankIsValid()
      requires Arranged() && timestamps.Valid() && currentMessageIndex == 0 && transferCount == 0
      requires messageQueue == [] && messageInHand == None
      requires forall i :: 0 <= i < BUFFERS ==>
        messageBuffer[i].Valid() && messageBuffer[i].State() == RESET && messageBuffer[i].result == Incomplete
      requires forall i :: 0 <= i < BUFFERS ==> ingresses[i] == Unmarked
      requires finished == [] && handoff == INITIAL.handoff
      ensures Valid()
    {
      hide BMCDecodedMessage.State, BMCDecodedMessage.Valid;
      forall i | 0 <= i < BUFFERS
        ensures Keeps(i)
      {
        AllBlank(i);
      }
    }

    /**
     * Reads every word up to the one the DMA will write next. `interrupts` are the frame starts latched just before
     * each word is read.
     */
    method LoopCore1(completedTransferCount: nat, interrupts: seq<seq<nat>>)
      requires Valid() && completedTransferCount < BUFFER_SIZE
      modifies this, timestamps, timestamps.queue, ingresses, footprint
      ensures Valid() && transferCount == completedTransferCount
      ensures var words := Unread(circularBuffer[..], old(transferCount), completedTransferCount);
        State() == ApplyAll(old(State()), Interleaved(words, interrupts, |words|))
    {
      hide Unread, Kept, Interleaved, ApplyAll, Apply;
      ghost var buffer := circularBuffer[..];
      ghost var words := Unread(buffer, transferCount, completedTransferCount);
      var done := 0;
      NothingInterleaved(State(), words, interrupts);
      while transferCount != completedTransferCount
        invariant Valid() && done <= |words| && circularBuffer[..] == buffer
        invariant words[done..] == Unread(buffer, transferCount, completedTransferCount)
        invariant State() == ApplyAll(old(State()), Interleaved(words, interrupts, done))
        decreases |words| - done
      {
        UnreadHead(buffer, transferCount, completedTransferCount);
        OneMoreInterleaved(old(State()), words, interrupts, done);
        assert words[done] == buffer[transferCount];
        ReadNextWord(if done < |interrupts| then interrupts[done] else []);
        done := done + 1;
      }
      UnreadHead(buffer, transferCount, completedTransferCount);
    }

    method ReadNextWord(stamps: seq<nat>)
      requires Valid()
      modifies this, timestamps, timestamps.queue, ingresses, footprint
      ensures Valid() && circularBuffer[..] == old(circularBuffer[..])
      ensures State() == Apply(ApplyAll(old(State()), Starts(stamps)), Read(circularBuffer[old(transferCount)]))
      ensures transferCount == if old(transferCount) + 1 < BUFFER_SIZE then old(transferCount) + 1 else 0
    {
      hide Receive, Published, Kept, ApplyAll;
      ServiceInterrupts(stamps);
      ReadWord(circularBuffer[transferCount]);
      transferCount := (transferCount + 1) % BUFFER_SIZE;
    }

    method ServiceInterrupts(stamps: seq<nat>)
      requires Valid()
      modifies timestamps, timestamps.queue
      ensures Valid() && State() == ApplyAll(old(State()), Starts(stamps))
    {
      hide Published, Kept, I.Latch;
      for i := 0 to |stamps|
        invariant Valid() && State() == ApplyAll(old(State()), Starts(stamps[..i]))
      {
        var starts := Starts(stamps[..i + 1]);
        assert starts[..i] == Starts(stamps[..i]);
        timestamps.HandleFrameStartIRQ(stamps[i]);
      }
      assert stamps[..|stamps|] == stamps;
    }

    /** Core 0 takes the next queued message, if there is one, and keeps it in hand while its callback reads it. */
    method TakeNext()
      requires Valid() && messageInHand == None
      modifies this`messageQueue, this`messageInHand, this`handoff
      ensures Valid() && State() == Apply(old(State()), TakesMessage)
      ensures messageInHand == if old(messageQueue) == [] then None else Some(old(messageQueue[0]))
      ensures messageInHand.Some? ==>
        messageInHand.value < BUFFERS && (messageInHand.value != currentMessageIndex ==> Keeps(messageInHand.value))
    {
      hide BMCDecodedMessage.State, BMCDecodedMessage.Valid;
      if messageQueue == [] {
        return;
      }
      messageInHand := Some(messageQueue[0]);
      messageQueue := messageQueue[1..];
      handoff := Take(handoff);
      forall i | 0 <= i < BUFFERS && i != currentMessageIndex
        ensures Keeps(i)
      {
        assert old(Keeps(i));
      }
    }

    /** The callback has returned. */
    method PutDownMessage()
      requires Valid()
      modifies this`messageInHand, this`handoff
      ensures Valid() && State() == Apply(old(State()), PutsMessageDown) && messageInHand == None
    {
      hide BMCDecodedMessage.State, BMCDecodedMessage.Valid;
      messageInHand := None;
      handoff := PutDown(handoff);
      forall i | 0 <= i < BUFFERS && i != currentMessageIndex
        ensures Keeps(i)
      {
        assert old(Keeps(i));
      }
    }

    method ReadWord(word: Word)
      requires Valid()
      modifies this, timestamps, timestamps.queue, ingresses, footprint
      ensures Valid() && transferCount == old(transferCount) && State() == Receive(old(State()), word)
      ensures circularBuffer[..] == old(circularBuffer[..])
    {
      hide Feed, Published, Kept;
      if word == FRAME_START_MARKER {
        MarkFrame();
        return;
      }
      var event := FeedCurrent(word);
      attempt := attempt + [Width(word)];
      if event.IsCompletion() {
        FinishMessage(event);
      }
    }

    method MarkFrame()
      requires Valid()
      modifies this`markers, timestamps, ingresses
      ensures Valid() && State() == Mark(old(State())) && transferCount == old(transferCount)
    {
      hide Published;
      var timestamp := timestamps.ConsumeFrameStartTimestamp();
      ingresses[currentMessageIndex] := IngressOf(timestamp);
      markers := markers + 1;
      forall i | 0 <= i < BUFFERS && i != currentMessageIndex
        ensures Keeps(i)
      {
        assert old(Keeps(i));
      }
    }

    method FeedCurrent(word: Word) returns (event: Event)
      requires Valid()
      modifies footprint
      ensures Others() && CurrentValid()
      ensures messageBuffer[currentMessageIndex].result == Incomplete <==> !event.IsCompletion()
      ensures State() == old(State()).(current := Feed(old(State()).current, Width(word)).0)
      ensures event == Feed(old(State()).current, Width(word)).1
    {
      hide Feed, Published;
      var message := messageBuffer[currentMessageIndex];
      event := message.FeedPulse(word);
      forall i | 0 <= i < BUFFERS && i != currentMessageIndex
        ensures Keeps(i)
      {
        assert Apart(messageBuffer[i], message);
        assert old(Keeps(i));
      }
    }

    method FinishMessage(event: Event)
      requires Others() && CurrentValid()
      modifies this, ingresses, footprint
      ensures Valid() && transferCount == old(transferCount) && State() == Finish(old(State()), event)
    {
      hide Kept, Publish, Published;
      ghost var message := MessageOf(messageBuffer[currentMessageIndex].State(), event, ingresses[currentMessageIndex]);
      PublishedOneMore(finished, Attempt(message, markers, attempt));
      PublishRecords(handoff, message);
      PublishMessage(event);
      finished := finished + [Attempt(message, markers, attempt)];
      attempt := [];
      OpenMessage();
    }

    /** Hands over the message being received, if it has anything to show. */
    method PublishMessage(event: Event)
      requires Arranged() && CurrentValid() && Kept()
      modifies this`handoff, this`messageQueue, this`currentMessageIndex
      ensures Arranged() && CurrentValid() && Kept()
      ensures var message := MessageOf(old(messageBuffer[currentMessageIndex].State()), event,
                                       old(ingresses[currentMessageIndex]));
        handoff == if message.IsPublished() then Publish(old(handoff), message) else old(handoff)
    {
      hide Kept, Publish, BMCDecodedMessage.Valid;
      var shouldPublish := ShouldPublish(event);
      if shouldPublish {
        NextMessage(event);
      }
    }

    /** Whether the attempt has anything to show. */
    method ShouldPublish(event: Event) returns (should: bool)
      requires Arranged() && CurrentValid()
      ensures should <==> MessageOf(messageBuffer[currentMessageIndex].State(), event,
                                    ingresses[currentMessageIndex]).IsPublished()
    {
      should := ingresses[currentMessageIndex] != Unmarked || messageBuffer[currentMessageIndex].dataLength > 0;
    }

    /** Queues the current buffer, if there is room, and takes the next. */
    method NextMessage(event: Event)
      requires Arranged() && CurrentValid() && Kept()
      modifies this`handoff, this`messageQueue, this`currentMessageIndex
      ensures Arranged() && CurrentValid() && Kept()
      ensures handoff == Publish(old(handoff), MessageOf(old(messageBuffer[currentMessageIndex].State()), event,
                                                         old(ingresses[currentMessageIndex])))
    {
      hide BMCDecodedMessage.State, BMCDecodedMessage.Valid;
      ghost var was, current := currentMessageIndex, messageBuffer[currentMessageIndex];
      var next := (currentMessageIndex + 1) % BUFFERS;
      assert next != was && Keeps(next);
      handoff := Publish(handoff, MessageOf(current.State(), event, ingresses[currentMessageIndex]));
      if |messageQueue| < QUEUE_LENGTH {
        messageQueue := messageQueue + [currentMessageIndex];
      }
      currentMessageIndex := next;
      forall i | 0 <= i < BUFFERS && i != currentMessageIndex
        ensures Keeps(i)
      {
        assert i != was ==> old(Keeps(i));
      }
    }

    /** Resets the message to be received into, whatever it held. */
    method OpenMessage()
      requires Arranged() && CurrentValid() && Kept()
      modifies ingresses, footprint
      ensures Arranged() && CurrentValid() && Kept()
      ensures messageBuffer[currentMessageIndex].result == Incomplete
      ensures messageBuffer[currentMessageIndex].State() == RESET && ingresses[currentMessageIndex] == Unmarked
    {
      var current := messageBuffer[currentMessageIndex];
      current.Reset();
      ingresses[currentMessageIndex] := Unmarked;
      forall i | 0 <= i < BUFFERS && i != currentMessageIndex
        ensures Keeps(i)
      {
        assert Apart(messageBuffer[i], current);
        assert old(Keeps(i));
      }
    }
  }
}
