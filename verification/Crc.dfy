/** CRC-32C (section 12.1 of RFC 3720) as the journal computes it, one bit at a time. */
module Crc {
  import opened Octets

  /** The 32-bit register, bit 0 first. */
  type Register = bits: seq<bool> | |bits| == 32 witness Zeros(32)

  const ONES: Register := Not(Zeros(32))

  /** 0x82F63B78, the reflected Castagnoli polynomial. */
  const POLYNOMIAL: Register :=
    [false, false, false, true, true, true, true, false, true, true, false, true, true, true, false, false,
     false, true, true, false, true, true, true, true, false, true, false, false, false, false, false, true]

  function Xor(a: Register, b: Register): Register {
    seq(32, i requires 0 <= i < 32 => a[i] != b[i])
  }

  function Not(a: Register): Register {
    seq(32, i requires 0 <= i < 32 => !a[i])
  }

  function Word(byte: Byte): Register {
    Bits(byte, 32)
  }

  /** One turn of the bit loop: shift right, and subtract the polynomial when a set bit fell out. */
  function BitStep(crc: Register): Register {
    var shifted := crc[1..] + [false];
    if crc[0] then Xor(shifted, POLYNOMIAL) else shifted
  }

  function BitSteps(crc: Register, n: nat): Register
    decreases n
  {
    if n == 0 then crc else BitSteps(BitStep(crc), n - 1)
  }

  function Mix(crc: Register, byte: Byte): Register {
    BitSteps(Xor(crc, Word(byte)), 8)
  }

  function Fold<S, E>(step: (S, E) -> S, s: S, es: seq<E>): S
    decreases |es|
  {
    if es == [] then s else Fold(step, step(s, es[0]), es[1..])
  }

  lemma {:induction false} FoldConcat<S, E>(step: (S, E) -> S, s: S, left: seq<E>, right: seq<E>)
    ensures Fold(step, s, left + right) == Fold(step, Fold(step, s, left), right)
    decreases |left|
  {
    if left == [] {
      assert left + right == right;
    } else {
      FoldConcat(step, step(s, left[0]), left[1..], right);
      assert (left + right)[1..] == left[1..] + right;
    }
  }

  function Feed(crc: Register, data: Bytes): Register {
    Fold(Mix, crc, data)
  }

  function Checksum(data: Bytes): (checksum: nat)
    ensures checksum < Pow2(32)
  {
    Value(Not(Feed(ONES, data)))
  }

  /** The checksum routine: a loop over bytes around a loop over bits. */
  method ComputeChecksum(data: Bytes) returns (checksum: nat)
    ensures checksum == Checksum(data)
  {
    var crc := ONES;
    for i := 0 to |data|
      invariant Feed(crc, data[i..]) == Feed(ONES, data)
    {
      assert data[i..][0] == data[i] && data[i..][1..] == data[i + 1..];
      crc := FeedByte(crc, data[i]);
    }
    checksum := Value(Not(crc));
  }

  method FeedByte(crc: Register, byte: Byte) returns (next: Register)
    ensures next == Mix(crc, byte)
  {
    next := Xor(crc, Word(byte));
    for bit := 0 to 8
      invariant BitSteps(next, 8 - bit) == Mix(crc, byte)
    {
      next := BitStep(next);
    }
  }

  // Each bit step is a linear bijection.

  lemma BitStepLinear(a: Register, b: Register)
    ensures BitStep(Xor(a, b)) == Xor(BitStep(a), BitStep(b))
  {
  }

  /** The polynomial's top bit is set, so the bit that fell out can be read back. */
  lemma BitStepInjective(a: Register, b: Register)
    requires BitStep(a) == BitStep(b)
    ensures a == b
  {
    assert POLYNOMIAL[31];
    assert BitStep(a)[31] == a[0] && BitStep(b)[31] == b[0];
    forall i | 1 <= i < 32 ensures a[i] == b[i] {
      assert BitStep(a)[i - 1] == BitStep(b)[i - 1];
    }
  }

  lemma BitStepSurjective(crc: Register)
    ensures exists before: Register :: BitStep(before) == crc
  {
    var flipped := if crc[31] then Xor(crc, POLYNOMIAL) else crc;
    var before: Register := [crc[31]] + flipped[..31];
    assert POLYNOMIAL[31];
    assert BitStep(before) == crc;
  }

  lemma {:induction false} BitStepsLinear(a: Register, b: Register, n: nat)
    ensures BitSteps(Xor(a, b), n) == Xor(BitSteps(a, n), BitSteps(b, n))
    decreases n
  {
    if n != 0 {
      BitStepLinear(a, b);
      BitStepsLinear(BitStep(a), BitStep(b), n - 1);
    }
  }

  lemma {:induction false} BitStepsInjective(a: Register, b: Register, n: nat)
    requires BitSteps(a, n) == BitSteps(b, n)
    ensures a == b
    decreases n
  {
    if n != 0 {
      BitStepsInjective(BitStep(a), BitStep(b), n - 1);
      BitStepInjective(a, b);
    }
  }

  /** Stepping only shifts while no set bit falls out. */
  lemma {:induction false} ShiftDown(crc: Register, n: nat)
    requires n <= 32 && forall i :: 0 <= i < n ==> !crc[i]
    ensures BitSteps(crc, n) == crc[n..] + Zeros(n)
    decreases n
  {
    if n != 0 {
      ShiftDown(crc[1..] + [false], n - 1);
    }
  }

  lemma XorCancel(a: Register, b: Register, x: Register)
    requires Xor(a, x) == Xor(b, x)
    ensures a == b
  {
    forall i | 0 <= i < 32 ensures a[i] == b[i] {
      assert Xor(a, x)[i] == Xor(b, x)[i];
    }
  }

  // Feeding bytes.

  lemma {:induction false} FeedInjective(a: Register, b: Register, data: Bytes)
    requires Feed(a, data) == Feed(b, data)
    ensures a == b
    decreases |data|
  {
    if data != [] {
      FeedInjective(Mix(a, data[0]), Mix(b, data[0]), data[1..]);
      BitStepsInjective(Xor(a, Word(data[0])), Xor(b, Word(data[0])), 8);
      XorCancel(a, b, Word(data[0]));
    }
  }

  // Two runs of at most four bytes, seen as one word of differences.

  /** One byte up. */
  function ShiftUp(a: Register): Register {
    Zeros(8) + a[..24]
  }

  /** The bytewise difference of two runs, first byte lowest. */
  function Difference(x: Bytes, y: Bytes): Register
    requires |x| == |y|
  {
    if x == [] then Zeros(32)
    else Xor(ShiftUp(Difference(x[1..], y[1..])), Xor(Word(x[0]), Word(y[0])))
  }

  lemma {:induction false} DifferenceFits(x: Bytes, y: Bytes)
    requires |x| == |y|
    ensures forall i | 8 * |x| <= i < 32 :: !Difference(x, y)[i]
  {
    if x != [] {
      DifferenceFits(x[1..], y[1..]);
      HighBitsClear(x[0], 32, 8);
      HighBitsClear(y[0], 32, 8);
    }
  }

  lemma {:induction false} NoDifference(x: Bytes, y: Bytes)
    requires |x| == |y| <= 4
    requires forall i | 0 <= i < 32 :: !Difference(x, y)[i]
    ensures x == y
  {
    if x != [] {
      var rest := Difference(x[1..], y[1..]);
      DifferenceFits(x[1..], y[1..]);
      HighBitsClear(x[0], 32, 8);
      HighBitsClear(y[0], 32, 8);
      forall i | 0 <= i < 32 ensures !rest[i] && Word(x[0])[i] == Word(y[0])[i] {
        assert !Difference(x, y)[i];
        if i < 24 {
          assert !Difference(x, y)[i + 8] && ShiftUp(rest)[i + 8] == rest[i];
        }
      }
      ValueBits(x[0], 32);
      ValueBits(y[0], 32);
      assert Word(x[0]) == Word(y[0]);
      NoDifference(x[1..], y[1..]);
    }
  }

  /** Feeding two bytes into two states: only the difference matters. */
  lemma MixDifference(a: Register, b: Register, x: Byte, y: Byte)
    ensures Xor(Mix(a, x), Mix(b, y)) == BitSteps(Xor(Xor(a, b), Xor(Word(x), Word(y))), 8)
  {
    BitStepsLinear(Xor(a, Word(x)), Xor(b, Word(y)), 8);
    assert Xor(Xor(a, Word(x)), Xor(b, Word(y))) == Xor(Xor(a, b), Xor(Word(x), Word(y)));
  }

  lemma MixBack(a: Register, b: Register, x: Byte, y: Byte)
    requires forall i | 24 <= i < 32 :: !Xor(Mix(a, x), Mix(b, y))[i]
    ensures Xor(a, b) == Xor(ShiftUp(Xor(Mix(a, x), Mix(b, y))), Xor(Word(x), Word(y)))
  {
    var rest, words := Xor(Mix(a, x), Mix(b, y)), Xor(Word(x), Word(y));
    ShiftDown(ShiftUp(rest), 8);
    assert ShiftUp(rest)[8..] + Zeros(8) == rest;
    MixDifference(a, b, x, y);
    BitStepsInjective(Xor(Xor(a, b), words), ShiftUp(rest), 8);
    assert Xor(Xor(Xor(a, b), words), words) == Xor(a, b);
  }

  /** Two states that meet after at most four bytes each differed by exactly those bytes. */
  lemma {:induction false} Meet(a: Register, b: Register, x: Bytes, y: Bytes)
    requires |x| == |y| <= 4
    requires Feed(a, x) == Feed(b, y)
    ensures Xor(a, b) == Difference(x, y)
    decreases |x|
  {
    if x != [] {
      Meet(Mix(a, x[0]), Mix(b, y[0]), x[1..], y[1..]);
      DifferenceFits(x[1..], y[1..]);
      MixBack(a, b, x[0], y[0]);
    }
  }

  /** Any change confined to four consecutive bytes of a payload of any length changes the checksum. */
  lemma ChecksumDetectsBurst(before: Bytes, x: Bytes, y: Bytes, after: Bytes)
    requires |x| == |y| <= 4 && x != y
    ensures Checksum(before + x + after) != Checksum(before + y + after)
  {
    var start := Feed(ONES, before);
    FoldConcat(Mix, ONES, before, x);
    FoldConcat(Mix, ONES, before, y);
    FoldConcat(Mix, ONES, before + x, after);
    FoldConcat(Mix, ONES, before + y, after);
    if Checksum(before + x + after) == Checksum(before + y + after) {
      NotInjective(Feed(ONES, before + x + after), Feed(ONES, before + y + after));
      FeedInjective(Feed(start, x), Feed(start, y), after);
      Meet(start, start, x, y);
      NoDifference(x, y);
    }
  }

  lemma NotInjective(a: Register, b: Register)
    requires Value(Not(a)) == Value(Not(b))
    ensures a == b
  {
    ValueInjective(Not(a), Not(b));
    forall i | 0 <= i < 32 ensures a[i] == b[i] {
      assert Not(a)[i] == Not(b)[i];
    }
  }

  // The polynomial is the one the source writes in hexadecimal.

  function Digit(bits: seq<bool>, k: nat): nat
    requires k + 4 <= |bits|
  {
    (if bits[k] then 1 else 0) + (if bits[k + 1] then 2 else 0)
    + (if bits[k + 2] then 4 else 0) + (if bits[k + 3] then 8 else 0)
  }

  lemma DropFirst(bits: seq<bool>, k: nat)
    requires k < |bits|
    ensures Value(bits[k..]) == (if bits[k] then 1 else 0) + 2 * Value(bits[k + 1..])
  {
  }

  lemma DropDigit(bits: seq<bool>, k: nat)
    requires k + 4 <= |bits|
    ensures Value(bits[k..]) == Digit(bits, k) + 16 * Value(bits[k + 4..])
  {
    DropFirst(bits, k);
    DropFirst(bits, k + 1);
    DropFirst(bits, k + 2);
    DropFirst(bits, k + 3);
  }

  lemma HalfValue(bits: seq<bool>, k: nat)
    requires k + 16 <= |bits|
    ensures Value(bits[k..]) == Digit(bits, k) + 0x10 * Digit(bits, k + 4) + 0x100 * Digit(bits, k + 8)
                                + 0x1000 * Digit(bits, k + 12) + 0x1_0000 * Value(bits[k + 16..])
  {
    DropDigit(bits, k);
    DropDigit(bits, k + 4);
    DropDigit(bits, k + 8);
    DropDigit(bits, k + 12);
  }

  lemma HexValue(bits: Register, d0: nat, d1: nat, d2: nat, d3: nat, d4: nat, d5: nat, d6: nat, d7: nat)
    requires Digit(bits, 0) == d0 && Digit(bits, 4) == d1 && Digit(bits, 8) == d2 && Digit(bits, 12) == d3
    requires Digit(bits, 16) == d4 && Digit(bits, 20) == d5 && Digit(bits, 24) == d6 && Digit(bits, 28) == d7
    ensures Value(bits) == d0 + 0x10 * d1 + 0x100 * d2 + 0x1000 * d3
                           + 0x1_0000 * (d4 + 0x10 * d5 + 0x100 * d6 + 0x1000 * d7)
  {
    HalfValue(bits, 0);
    HalfValue(bits, 16);
    assert bits[0..] == bits && bits[32..] == [];
  }

  lemma PolynomialDigits(p: Register)
    requires p == POLYNOMIAL
    ensures Digit(p, 0) == 0x8 && Digit(p, 4) == 0x7 && Digit(p, 8) == 0xB && Digit(p, 12) == 0x3
  {
  }

  lemma PolynomialHighDigits(p: Register)
    requires p == POLYNOMIAL
    ensures Digit(p, 16) == 0x6 && Digit(p, 20) == 0xF && Digit(p, 24) == 0x2 && Digit(p, 28) == 0x8
  {
  }

  lemma PolynomialValue(p: Register)
    requires p == POLYNOMIAL
    ensures Value(p) == 0x82F63B78
  {
    PolynomialDigits(p);
    PolynomialHighDigits(p);
    HexValue(p, 0x8, 0x7, 0xB, 0x3, 0x6, 0xF, 0x2, 0x8);
  }
}
