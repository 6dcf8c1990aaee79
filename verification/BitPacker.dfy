/** Packs runs of low-order bits into 32-bit words, least significant bit first. */
module BitPacking {
  import opened Bits

  /** PHY_BMC_ENCODER_MAX_ENCODED_WORDS */
  const MAX_ENCODED_WORDS := 96

  /** The bits a sequence of full words stands for. */
  function Unpack(words: seq<nat>): seq<bool> {
    if words == [] then [] else LowBits(words[0], 32) + Unpack(words[1..])
  }

  /** `words` holds the first |words| 32-bit groups of `bits`. */
  ghost predicate Packs(words: seq<nat>, bits: seq<bool>) {
    && 32 * |words| <= |bits|
    && forall i :: 0 <= i < |words| ==> words[i] == Value(bits[32 * i..32 * (i + 1)])
  }

  /** Reading the packed words back gives exactly the bits that were packed. */
  lemma {:induction false} UnpackInvertsPacks(words: seq<nat>, bits: seq<bool>)
    requires Packs(words, bits)
    ensures Unpack(words) == bits[..32 * |words|]
  {
    if words == [] {
    } else {
      var rest := bits[32..];
      forall i | 0 <= i < |words[1..]|
        ensures words[1..][i] == Value(rest[32 * i..32 * (i + 1)])
      {
        assert rest[32 * i..32 * (i + 1)] == bits[32 * (i + 1)..32 * (i + 2)];
      }
      UnpackInvertsPacks(words[1..], rest);
      LowBitsOfValue(bits[..32]);
      assert bits[32 * 0..32 * 1] == bits[..32];
      assert bits[..32 * |words|] == bits[..32] + rest[..32 * |words[1..]|];
    }
  }

  class BitPacker {
    const buffer: array<nat>
    var wordCount: nat
    var currentWord: nat
    var bitsInCurrentWord: nat
    var totalBitsWritten: nat

    /** Every bit accepted so far, zero padding from Flush included. */
    ghost var Written: seq<bool>

    /** How many full words those bits make, stored or dropped. */
    ghost var Completed: nat

    ghost predicate Valid()
      reads this`wordCount, this`currentWord, this`bitsInCurrentWord, this`Written, this`Completed, buffer
    {
      && bitsInCurrentWord < 32
      && |Written| == 32 * Completed + bitsInCurrentWord
      && Consistent()
    }

    ghost predicate Consistent()
      reads this`wordCount, this`currentWord, this`bitsInCurrentWord, this`Written, this`Completed, buffer
    {
      && buffer.Length == MAX_ENCODED_WORDS
      && bitsInCurrentWord <= |Written|
      && currentWord == Value(Written[|Written| - bitsInCurrentWord..])
      && wordCount == (if Completed <= MAX_ENCODED_WORDS then Completed else MAX_ENCODED_WORDS)
      && Packs(buffer[..wordCount], Written)
    }

    constructor ()
      ensures Valid() && fresh(buffer)
      ensures Written == [] && totalBitsWritten == 0
    {
      buffer := new nat[MAX_ENCODED_WORDS](i => 0);
      wordCount := 0;
      currentWord := 0;
      bitsInCurrentWord := 0;
      totalBitsWritten := 0;
      Written, Completed := [], 0;
    }

    /**
     * Appends the `nbits` low-order bits of `data`. Words past the end of the buffer are dropped, as
     * Valid() says; nothing already stored changes.
     */
    method AddBits(data: nat, nbits: nat)
      requires Valid()
      requires 1 <= nbits <= 32 && data < 0x1_0000_0000
      modifies this, buffer
      ensures Valid()
      ensures Written == old(Written) + LowBits(data, nbits)
      ensures totalBitsWritten == (old(totalBitsWritten) + nbits) % 0x1_0000_0000
    {
      hide Consistent, LowBits, Shr;
      totalBitsWritten := (totalBitsWritten + nbits) % 0x1_0000_0000;
      NothingTaken(data);
      var remaining, left := data, nbits;
      ghost var taken := 0;
      while left > 0
        invariant Valid() && 0 <= left && taken + left == nbits
        invariant remaining == Shr(data, taken)
        invariant Written == old(Written) + LowBits(data, taken)
        invariant totalBitsWritten == (old(totalBitsWritten) + nbits) % 0x1_0000_0000
      {
        var take := if left <= 32 - bitsInCurrentWord then left else 32 - bitsInCurrentWord;
        SplitStep(old(Written), data, taken, take);
        remaining := PutChunk(remaining, take);
        taken := taken + take;
        left := left - take;
      }
    }

    /** One turn of the packing loop: `take` bits that fit in the current word. */
    method PutChunk(data: nat, take: nat) returns (rest: nat)
      requires Valid()
      requires 1 <= take <= 32 - bitsInCurrentWord
      modifies this, buffer
      ensures Valid()
      ensures Written == old(Written) + LowBits(data, take)
      ensures totalBitsWritten == old(totalBitsWritten)
      ensures rest == Shr(data, take)
    {
      rest := AppendChunk(data, take);
      if bitsInCurrentWord == 32 {
        PushWord();
      }
    }

    method AppendChunk(data: nat, take: nat) returns (rest: nat)
      requires Valid()
      requires 1 <= take <= 32 - bitsInCurrentWord
      modifies this`currentWord, this`bitsInCurrentWord, this`Written
      ensures Consistent() && bitsInCurrentWord == old(bitsInCurrentWord) + take
      ensures |Written| == 32 * Completed + bitsInCurrentWord
      ensures Written == old(Written) + LowBits(data, take)
      ensures rest == Shr(data, take)
    {
      hide Packs, Value, LowBits, Shr, Pow2;
      ghost var partial := Written[|Written| - bitsInCurrentWord..];
      ghost var more := LowBits(data, take);
      assert Packs(buffer[..wordCount], Written + more) by {
        PacksExtends(buffer[..wordCount], Written, more);
      }
      currentWord, rest := MergeChunk(currentWord, bitsInCurrentWord, data, take, partial);
      bitsInCurrentWord := bitsInCurrentWord + take;
      Written := Written + more;
      assert Written[|Written| - bitsInCurrentWord..] == partial + more;
    }

    /** Stores a complete current word if there is room for it. */
    method PushWord()
      requires Consistent() && bitsInCurrentWord == 32 && |Written| == 32 * Completed + 32
      modifies this, buffer
      ensures Valid() && bitsInCurrentWord == 0
      ensures Written == old(Written) && totalBitsWritten == old(totalBitsWritten)
    {
      if wordCount < MAX_ENCODED_WORDS {
        ghost var before := buffer[..wordCount];
        buffer[wordCount] := currentWord;
        wordCount := wordCount + 1;
        assert buffer[..wordCount] == before + [currentWord];
        assert Written[32 * Completed..32 * (Completed + 1)] == Written[|Written| - 32..];
      }
      currentWord := 0;
      bitsInCurrentWord := 0;
      Completed := Completed + 1;
    }

    /** Pads the partial word with zeros; the length that was written stays the same. */
    method Flush()
      requires Valid()
      modifies this, buffer
      ensures Valid() && bitsInCurrentWord == 0
      ensures exists pad :: 0 <= pad < 32 && Written == old(Written) + Zeros(pad)
      ensures totalBitsWritten == old(totalBitsWritten)
    {
      if bitsInCurrentWord > 0 {
        Pad();
        PushWord();
      } else {
        assert Written == old(Written) + Zeros(0);
      }
    }

    /** Counts the zeros above a partial word's bits as written. */
    method Pad()
      requires Valid() && bitsInCurrentWord > 0
      modifies this`bitsInCurrentWord, this`Written
      ensures Consistent() && bitsInCurrentWord == 32 && |Written| == 32 * Completed + 32
      ensures Written == old(Written) + Zeros(32 - old(bitsInCurrentWord))
    {
      ghost var partial := Written[|Written| - bitsInCurrentWord..];
      ghost var padding := Zeros(32 - bitsInCurrentWord);
      ValueConcat(partial, padding);
      ValueZeros(|padding|);
      PacksExtends(buffer[..wordCount], Written, padding);
      Written := Written + padding;
      assert Written[|Written| - 32..] == partial + padding;
      bitsInCurrentWord := 32;
    }

    /** The stored words: they unpack to the stream's whole words, all of them if it fits. */
    method Buffer() returns (words: seq<nat>)
      requires Valid()
      ensures 32 * |words| <= |Written| && Unpack(words) == Written[..32 * |words|]
      ensures |Written| <= 32 * MAX_ENCODED_WORDS ==> |Written| - 32 * |words| == bitsInCurrentWord
    {
      words := buffer[..wordCount];
      UnpackInvertsPacks(words, Written);
    }

    method Clear()
      requires Valid()
      modifies this
      ensures Valid() && Written == [] && totalBitsWritten == 0
    {
      wordCount := 0;
      currentWord := 0;
      bitsInCurrentWord := 0;
      totalBitsWritten := 0;
      Written, Completed := [], 0;
    }
  }

  /**
   * Masks `take` bits out of `data`, ORs them above the `offset` bits of `word`, and shifts them out of
   * `data`. The digits of `word` from `offset` up are zero, so the OR is a sum.
   */
  method MergeChunk(word: nat, offset: nat, data: nat, take: nat, ghost partial: seq<bool>)
    returns (merged: nat, rest: nat)
    requires |partial| == offset && word == Value(partial)
    ensures word < Pow2(offset)
    ensures merged == Value(partial + LowBits(data, take)) < Pow2(offset + take)
    ensures rest == Shr(data, take)
  {
    ValueBound(partial);
    ValueBound(partial + LowBits(data, take));
    ValueConcat(partial, LowBits(data, take));
    ValueOfLowBits(data, take);
    ShrIsDivision(data, take);
    var chunk := data % Pow2(take);
    merged := word + Pow2(offset) * chunk;
    rest := data / Pow2(take);
  }

  lemma NothingTaken(data: nat)
    ensures LowBits(data, 0) == [] && Shr(data, 0) == data
  {
  }

  lemma SplitStep(start: seq<bool>, data: nat, taken: nat, take: nat)
    ensures start + LowBits(data, taken) + LowBits(Shr(data, taken), take) == start + LowBits(data, taken + take)
    ensures Shr(Shr(data, taken), take) == Shr(data, taken + take)
  {
    LowBitsSplit(data, taken, take);
    ShrAdd(data, taken, take);
  }

  lemma PacksExtends(words: seq<nat>, bits: seq<bool>, more: seq<bool>)
    requires Packs(words, bits)
    ensures Packs(words, bits + more)
  {
    forall i | 0 <= i < |words|
      ensures words[i] == Value((bits + more)[32 * i..32 * (i + 1)])
    {
      assert (bits + more)[32 * i..32 * (i + 1)] == bits[32 * i..32 * (i + 1)];
    }
  }
}
