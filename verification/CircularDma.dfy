/**
 * The DMA writes pulse words around the circular buffer without waiting for the receive loop, which tells only by
 * the write position what is new. What the loop reads is compared with everything that was ever written.
 */
module CircularDma {
  import opened Division
  import opened ReceiveLoop

  /** The buffer after some words were written around it from the start. */
  function BufferAfter(initial: seq<Word>, written: seq<Word>): (buffer: seq<Word>)
    requires |initial| == BUFFER_SIZE
    ensures |buffer| == BUFFER_SIZE
  {
    if written == [] then initial
    else
      var n := |written| - 1;
      BufferAfter(initial, written[..n])[n % BUFFER_SIZE := written[n]]
  }

  /** A slot holds the last word written to it: the k-th word is there until 2000 more have come. */
  lemma {:induction false} SlotHolds(initial: seq<Word>, written: seq<Word>, k: nat)
    requires |initial| == BUFFER_SIZE && k < |written| <= k + BUFFER_SIZE
    ensures BufferAfter(initial, written)[k % BUFFER_SIZE] == written[k]
  {
    var n := |written| - 1;
    if k == n {
    } else {
      SlotHolds(initial, written[..n], k);
      OtherSlot(k, n);
    }
  }

  lemma OtherSlot(k: nat, n: nat)
    requires k < n < k + BUFFER_SIZE
    ensures k % BUFFER_SIZE != n % BUFFER_SIZE
  {
  }

  /** How many words lie between two positions. */
  lemma UnreadCount(buffer: seq<Word>, read: nat, written: nat)
    requires |buffer| == BUFFER_SIZE && read <= written
    ensures |Unread(buffer, read % BUFFER_SIZE, written % BUFFER_SIZE)| == (written - read) % BUFFER_SIZE
  {
    var n := written - read;
    AddToQuotient(read, n, BUFFER_SIZE);
    AddToQuotient(n, read % BUFFER_SIZE, BUFFER_SIZE);
  }

  /** The i-th unread word is in the slot of its own number. */
  lemma UnreadAt(buffer: seq<Word>, read: nat, written: nat, i: nat)
    requires |buffer| == BUFFER_SIZE && read <= written < read + BUFFER_SIZE && read + i < written
    ensures |Unread(buffer, read % BUFFER_SIZE, written % BUFFER_SIZE)| == written - read
    ensures Unread(buffer, read % BUFFER_SIZE, written % BUFFER_SIZE)[i] == buffer[(read + i) % BUFFER_SIZE]
  {
    var from, n := read % BUFFER_SIZE, written - read;
    UnreadCount(buffer, read, written);
    Wraps(read, i);
    Wraps(read, n);
    UnreadSlot(buffer, from, if from + n < BUFFER_SIZE then from + n else from + n - BUFFER_SIZE, i);
  }

  /** Less than a turn on from a slot. */
  lemma Wraps(read: nat, n: nat)
    requires n < BUFFER_SIZE
    ensures var from := read % BUFFER_SIZE;
      (read + n) % BUFFER_SIZE == if from + n < BUFFER_SIZE then from + n else from + n - BUFFER_SIZE
  {
    AddToQuotient(read, n, BUFFER_SIZE);
  }

  lemma UnreadSlot(buffer: seq<Word>, from: nat, to: nat, i: nat)
    requires |buffer| == BUFFER_SIZE && from < BUFFER_SIZE && to < BUFFER_SIZE && i < |Unread(buffer, from, to)|
    ensures Unread(buffer, from, to)[i]
      == buffer[if from + i < BUFFER_SIZE then from + i else from + i - BUFFER_SIZE]
  {
  }

  /** What a call of the loop reads when `read` words have been read before and these have been written. */
  function CallReads(initial: seq<Word>, written: seq<Word>, read: nat): seq<Word>
    requires |initial| == BUFFER_SIZE
  {
    Unread(BufferAfter(initial, written), read % BUFFER_SIZE, |written| % BUFFER_SIZE)
  }

  lemma CallCount(initial: seq<Word>, written: seq<Word>, read: nat)
    requires |initial| == BUFFER_SIZE && read <= |written|
    ensures |CallReads(initial, written, read)| <= |written| - read
    ensures |CallReads(initial, written, read)| == |written| - read <==> |written| - read < 2000
  {
    UnreadCount(BufferAfter(initial, written), read, |written|);
    var n := |written| - read;
    Quotient(n, BUFFER_SIZE);
    hide Unread, BufferAfter;
  }

  lemma CallReadsInOrder(initial: seq<Word>, written: seq<Word>, read: nat, i: nat)
    requires |initial| == BUFFER_SIZE && read + i < |written| < read + BUFFER_SIZE
    ensures |CallReads(initial, written, read)| == |written| - read
    ensures CallReads(initial, written, read)[i] == written[read + i]
  {
    hide Unread, BufferAfter;
    UnreadAt(BufferAfter(initial, written), read, |written|, i);
    SlotHolds(initial, written, read + i);
  }

  /** A call of the loop reads exactly the words written since the last one if and only if they are fewer than 2000. */
  lemma CallReadsAllIffNotLapped(initial: seq<Word>, written: seq<Word>, read: nat)
    requires |initial| == BUFFER_SIZE && read <= |written|
    ensures CallReads(initial, written, read) == written[read..] <==> |written| - read < 2000
  {
    hide CallReads;
    CallCount(initial, written, read);
    if |written| - read < 2000 {
      forall i | 0 <= i < |written| - read
        ensures CallReads(initial, written, read)[i] == written[read..][i]
      {
        CallReadsInOrder(initial, written, read, i);
      }
    }
  }

  // ----- Whole sequences of calls -----

  function Joined(arrivals: seq<seq<Word>>): seq<Word> {
    if arrivals == [] then [] else Joined(arrivals[..|arrivals| - 1]) + arrivals[|arrivals| - 1]
  }

  /** Everything read by calls that come after each of these arrivals. */
  function ReadOver(initial: seq<Word>, arrivals: seq<seq<Word>>): seq<Word>
    requires |initial| == BUFFER_SIZE
  {
    if arrivals == [] then []
    else
      var before := arrivals[..|arrivals| - 1];
      ReadOver(initial, before) + CallReads(initial, Joined(arrivals), |Joined(before)|)
  }

  predicate NeverLapped(arrivals: seq<seq<Word>>) {
    arrivals == [] || (NeverLapped(arrivals[..|arrivals| - 1]) && |arrivals[|arrivals| - 1]| < 2000)
  }

  lemma {:induction false} ReadsNoMore(initial: seq<Word>, arrivals: seq<seq<Word>>)
    requires |initial| == BUFFER_SIZE
    ensures |ReadOver(initial, arrivals)| <= |Joined(arrivals)|
    ensures |ReadOver(initial, arrivals)| == |Joined(arrivals)| ==> NeverLapped(arrivals)
  {
    hide CallReads;
    if arrivals == [] {
    } else {
      var before := arrivals[..|arrivals| - 1];
      ReadsNoMore(initial, before);
      CallCount(initial, Joined(arrivals), |Joined(before)|);
    }
  }

  /**
   * The words read over any number of calls are the words written if and only if fewer than 2000 come between one
   * call and the next.
   */
  lemma {:induction false} ReadsAllIffNeverLapped(initial: seq<Word>, arrivals: seq<seq<Word>>)
    requires |initial| == BUFFER_SIZE
    ensures ReadOver(initial, arrivals) == Joined(arrivals) <==> NeverLapped(arrivals)
  {
    hide CallReads;
    if arrivals == [] {
    } else {
      var before, last := arrivals[..|arrivals| - 1], arrivals[|arrivals| - 1];
      ReadsAllIffNeverLapped(initial, before);
      CallReadsAllIffNotLapped(initial, Joined(arrivals), |Joined(before)|);
      assert Joined(arrivals)[|Joined(before)|..] == last;
      ReadsNoMore(initial, arrivals);
    }
  }
}
