/** Bit sequences, least significant bit first, and the unsigned numbers they stand for. */
module Bits {
  import opened Division

  function Pow2(n: nat): (p: nat)
    ensures p > 0
  {
    if n == 0 then 1 else 2 * Pow2(n - 1)
  }

  /** The number whose binary digits, least significant first, are `bits`. */
  function Value(bits: seq<bool>): nat {
    if bits == [] then 0 else (if bits[0] then 1 else 0) + 2 * Value(bits[1..])
  }

  /** The `n` low-order binary digits of `data`, least significant first. */
  function LowBits(data: nat, n: nat): (bits: seq<bool>)
    ensures |bits| == n
  {
    if n == 0 then [] else [data % 2 == 1] + LowBits(data / 2, n - 1)
  }

  function Zeros(n: nat): (bits: seq<bool>)
    ensures |bits| == n
  {
    seq(n, i => false)
  }

  lemma Pow2Add(a: nat, b: nat)
    ensures Pow2(a + b) == Pow2(a) * Pow2(b)
  {
    if a == 0 {
    } else {
      Pow2Add(a - 1, b);
    }
  }

  lemma Pow2Values()
    ensures Pow2(8) == 0x100 && Pow2(16) == 0x1_0000
    ensures Pow2(31) == 0x8000_0000 && Pow2(32) == 0x1_0000_0000
  {
    assert Pow2(8) == 0x100 && Pow2(7) == 0x80;
    Pow2Add(8, 8);
    Pow2Add(16, 8);
    Pow2Add(24, 7);
    assert Pow2(32) == 2 * Pow2(31);
  }

  lemma {:induction false} ValueConcat(a: seq<bool>, b: seq<bool>)
    ensures Value(a + b) == Value(a) + Pow2(|a|) * Value(b)
  {
    if a == [] {
      assert a + b == b;
    } else {
      ValueOfRest(a + b);
      ValueOfRest(a);
      assert (a + b)[1..] == a[1..] + b;
      ValueConcat(a[1..], b);
      assert Pow2(|a|) == 2 * Pow2(|a| - 1);
      DoubleProduct(Pow2(|a| - 1), Value(b));
    }
  }

  lemma ValueOfRest(bits: seq<bool>)
    requires bits != []
    ensures Value(bits) == (if bits[0] then 1 else 0) + 2 * Value(bits[1..])
  {
  }

  lemma DoubleProduct(x: nat, y: nat)
    ensures 2 * (x * y) == (2 * x) * y
  {
  }

  lemma {:induction false} ValueBound(bits: seq<bool>)
    ensures Value(bits) < Pow2(|bits|)
  {
    if bits == [] {
    } else {
      ValueBound(bits[1..]);
    }
  }

  lemma {:induction false} ValueZeros(n: nat)
    ensures Value(Zeros(n)) == 0
  {
    if n == 0 {
    } else {
      assert Zeros(n)[1..] == Zeros(n - 1);
      ValueZeros(n - 1);
    }
  }

  /** A number below 2^n and its n low-order digits determine each other. */
  lemma {:induction false} LowBitsOfValue(bits: seq<bool>)
    ensures LowBits(Value(bits), |bits|) == bits
  {
    if bits == [] {
    } else {
      LowBitsOfValue(bits[1..]);
    }
  }

  lemma {:induction false} ValueOfLowBits(data: nat, n: nat)
    ensures Value(LowBits(data, n)) == data % Pow2(n)
  {
    if n == 0 {
    } else {
      ValueOfLowBits(data / 2, n - 1);
      DivModTwo(data, Pow2(n - 1));
    }
  }

  lemma DivModTwo(x: nat, m: nat)
    requires m > 0
    ensures x % (2 * m) == x % 2 + 2 * ((x / 2) % m)
    ensures x / (2 * m) == (x / 2) / m
  {
    var h := x / 2;
    var q, r := h / m, h % m;
    Quotient(h, m);
    assert x == q * (2 * m) + (x % 2 + 2 * r);
    QuotientIsUnique(x, q, x % 2 + 2 * r, 2 * m);
  }

  /** `data` shifted right by `n`. */
  function Shr(data: nat, n: nat): nat {
    if n == 0 then data else Shr(data / 2, n - 1)
  }

  lemma {:induction false} ShrAdd(data: nat, a: nat, b: nat)
    ensures Shr(Shr(data, a), b) == Shr(data, a + b)
  {
    if a == 0 {
    } else {
      ShrAdd(data / 2, a - 1, b);
    }
  }

  lemma {:induction false} ShrIsDivision(data: nat, n: nat)
    ensures Shr(data, n) == data / Pow2(n)
  {
    if n == 0 {
    } else {
      ShrIsDivision(data / 2, n - 1);
      DivModTwo(data, Pow2(n - 1));
    }
  }

  /** Splitting off the low `a` digits leaves the digits of the number shifted right by `a`. */
  lemma {:induction false} LowBitsSplit(data: nat, a: nat, b: nat)
    ensures LowBits(data, a + b) == LowBits(data, a) + LowBits(Shr(data, a), b)
  {
    if a == 0 {
    } else {
      LowBitsSplit(data / 2, a - 1, b);
    }
  }

  /** Setting the digit after the last one adds the next power of two. */
  lemma {:induction false} ValueSnoc(bits: seq<bool>, b: bool)
    ensures Value(bits + [b]) == Value(bits) + (if b then Pow2(|bits|) else 0)
  {
    if bits == [] {
    } else {
      assert (bits + [b])[1..] == bits[1..] + [b];
      ValueSnoc(bits[1..], b);
    }
  }
}
