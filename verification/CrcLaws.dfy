/** The checksum is a remainder: division of polynomials over the field of two elements. */
module CrcLaws {
  import opened Arithmetic
  import opened Octets
  import opened Crc

  // Numbers as bits.

  predicate Bit(n: nat, i: nat) {
    n / Pow2(i) % 2 == 1
  }

  lemma HalfFirst(n: nat, p: nat)
    requires p > 0
    ensures n / (2 * p) == n / 2 / p
  {
    var q, r := n / 2 / p, n / 2 % p;
    DivMod(n / 2, p);
    assert n == q * (2 * p) + (2 * r + n % 2) by {
      assert n == 2 * (q * p + r) + n % 2;
      Twice(q, p);
    }
    Quotient(n, 2 * p, q, 2 * r + n % 2);
  }

  lemma Twice(q: nat, p: nat)
    ensures q * (2 * p) == 2 * (q * p)
  {
  }

  lemma {:induction false} BitOfValue(bits: seq<bool>, i: nat)
    requires i < |bits|
    ensures Bit(Value(bits), i) == bits[i]
  {
    if i > 0 {
      BitOfValue(bits[1..], i - 1);
      HalfFirst(Value(bits), Pow2(i - 1));
    }
  }

  lemma {:induction false} BitOfBits(n: nat, width: nat, i: nat)
    requires i < width
    ensures Bits(n, width)[i] == Bit(n, i)
  {
    if i > 0 {
      BitOfBits(n / 2, width - 1, i - 1);
      HalfFirst(n, Pow2(i - 1));
    }
  }

  // Polynomials, highest coefficient first.

  type Polynomial = seq<bool>

  function Zero(n: nat): (p: Polynomial)
    ensures |p| == n && forall i | 0 <= i < n :: !p[i]
  {
    seq(n, _ => false)
  }

  function Plus(a: Polynomial, b: Polynomial): (sum: Polynomial)
    requires |a| == |b|
    ensures |sum| == |a| && forall i | 0 <= i < |a| :: sum[i] == (a[i] != b[i])
  {
    seq(|a|, i requires 0 <= i < |a| => a[i] != b[i])
  }

  /** One row of a long multiplication. */
  function Row(q: bool, g: Polynomial, shift: nat): (row: Polynomial)
    ensures |row| == |g| + shift
  {
    (if q then g else Zero(|g|)) + Zero(shift)
  }

  function Times(q: Polynomial, g: Polynomial): (product: Polynomial)
    requires g != []
    ensures |product| == |q| + |g| - 1
  {
    if q == [] then Zero(|g| - 1) else Plus(Row(q[0], g, |q| - 1), [false] + Times(q[1..], g))
  }

  /** q and r are quotient and remainder of p by a polynomial of degree |r|. */
  predicate Divides(p: Polynomial, g: Polynomial, q: Polynomial, r: Polynomial) {
    g != [] && |r| == |g| - 1 && |p| == |q| + |r| && p == Plus(Times(q, g), Zero(|q|) + r)
  }

  /** Quotient and remainder are unique. */
  lemma {:induction false} DivisionUnique(p: Polynomial, g: Polynomial, q: Polynomial, r: Polynomial, q': Polynomial,
                                          r': Polynomial)
    requires Divides(p, g, q, r) && Divides(p, g, q', r') && g[0]
    ensures q == q' && r == r'
    decreases |q|
  {
    assert |q| == |q'|;
    if q == [] {
      forall i | 0 <= i < |r| ensures r[i] == r'[i] {
        assert p[i] == (Times(q, g)[i] != (Zero(0) + r)[i]) && p[i] == (Times(q', g)[i] != (Zero(0) + r')[i]);
      }
    } else {
      assert p[0] == q[0] && p[0] == q'[0];
      var rest := Plus(p, Row(q[0], g, |q| - 1))[1..];
      DivisionStep(p, g, q, r);
      DivisionStep(p, g, q', r');
      DivisionUnique(rest, g, q[1..], r, q'[1..], r');
      assert q == [q[0]] + q[1..] && q' == [q'[0]] + q'[1..];
    }
  }

  /** Taking the first row off leaves the division of what follows. */
  lemma DivisionStep(p: Polynomial, g: Polynomial, q: Polynomial, r: Polynomial)
    requires Divides(p, g, q, r) && q != []
    ensures Divides(Plus(p, Row(q[0], g, |q| - 1))[1..], g, q[1..], r)
  {
    var row := Row(q[0], g, |q| - 1);
    var rest := Plus(p, row)[1..];
    var more := Plus(Times(q[1..], g), Zero(|q| - 1) + r);
    assert |rest| == |more|;
    forall i | 0 <= i < |rest| ensures rest[i] == more[i] {
      assert p[i + 1] == (Times(q, g)[i + 1] != (Zero(|q|) + r)[i + 1]);
      assert Times(q, g)[i + 1] == (row[i + 1] != ([false] + Times(q[1..], g))[i + 1]);
      assert (Zero(|q|) + r)[i + 1] == (Zero(|q| - 1) + r)[i];
    }
  }

  // One bit at a time.

  function SetFirst(crc: Register, bit: bool): Register {
    [crc[0] != bit] + crc[1..]
  }

  function Serial(crc: Register, bits: seq<bool>): Register
    decreases |bits|
  {
    if bits == [] then crc else Serial(BitStep(SetFirst(crc, bits[0])), bits[1..])
  }

  /** Mixing a word in at once is mixing its bits in one by one. */
  lemma {:induction false} StepsSerial(crc: Register, word: Register, n: nat)
    requires n <= 32 && forall i | n <= i < 32 :: !word[i]
    ensures BitSteps(Xor(crc, word), n) == Serial(crc, word[..n])
    decreases n
  {
    if n == 0 {
      assert Xor(crc, word) == crc;
    } else {
      var shifted: Register := word[1..] + [false];
      StepSerial(crc, word);
      StepsSerial(BitStep(SetFirst(crc, word[0])), shifted, n - 1);
      assert shifted[..n - 1] == word[..n][1..];
    }
  }

  lemma StepSerial(crc: Register, word: Register)
    ensures BitStep(Xor(crc, word)) == Xor(BitStep(SetFirst(crc, word[0])), word[1..] + [false])
  {
    var rest: Register := [false] + word[1..];
    assert Xor(SetFirst(crc, word[0]), rest) == Xor(crc, word);
    BitStepLinear(SetFirst(crc, word[0]), rest);
    assert BitStep(rest) == word[1..] + [false];
  }

  lemma {:induction false} SerialConcat(crc: Register, a: seq<bool>, b: seq<bool>)
    ensures Serial(crc, a + b) == Serial(Serial(crc, a), b)
    decreases |a|
  {
    if a == [] {
      assert a + b == b;
    } else {
      assert (a + b)[0] == a[0] && (a + b)[1..] == a[1..] + b;
      SerialConcat(BitStep(SetFirst(crc, a[0])), a[1..], b);
    }
  }

  /** The bits of the bytes, the lowest bit of each first. */
  function Message(data: Bytes): (bits: Polynomial)
    ensures |bits| == 8 * |data|
  {
    seq(8 * |data|, i requires 0 <= i < 8 * |data| => Bit(data[i / 8], i % 8))
  }

  lemma MessageCons(data: Bytes)
    requires data != []
    ensures Message(data) == Word(data[0])[..8] + Message(data[1..])
  {
    var bits := Word(data[0])[..8] + Message(data[1..]);
    forall i | 0 <= i < 8 * |data| ensures Message(data)[i] == bits[i] {
      if i < 8 {
        BitOfBits(data[0], 32, i);
      } else {
        assert (i - 8) / 8 == i / 8 - 1 && (i - 8) % 8 == i % 8;
      }
    }
  }

  lemma {:induction false} FeedSerial(crc: Register, data: Bytes)
    ensures Feed(crc, data) == Serial(crc, Message(data))
    decreases |data|
  {
    if data != [] {
      var word := Word(data[0]);
      HighBitsClear(data[0], 32, 8);
      StepsSerial(crc, word, 8);
      MessageCons(data);
      SerialConcat(crc, word[..8], Message(data[1..]));
      FeedSerial(Mix(crc, data[0]), data[1..]);
    }
  }

  // Feeding divides.

  function Generator(): (g: Polynomial)
    ensures |g| == 33 && g[0]
  {
    [true] + POLYNOMIAL
  }

  /** The register in front of the message, 32 places up. */
  function Dividend(crc: Register, bits: seq<bool>): (p: Polynomial)
    ensures |p| == |bits| + 32
  {
    Plus(crc + Zero(|bits|), bits + Zero(32))
  }

  lemma DividendStep(crc: Register, bits: seq<bool>)
    requires bits != []
    ensures var q := crc[0] != bits[0];
      Dividend(crc, bits)
      == Plus(Row(q, Generator(), |bits| - 1), [false] + Dividend(BitStep(SetFirst(crc, bits[0])), bits[1..]))
  {
    var q, n := crc[0] != bits[0], |bits|;
    var p, row, next := Dividend(crc, bits), Row(q, Generator(), n - 1), BitStep(SetFirst(crc, bits[0]));
    var rest := [false] + Dividend(next, bits[1..]);
    forall i | 0 <= i < n + 32 ensures p[i] == (row[i] != rest[i]) {
      if 0 < i <= 32 {
        assert row[i] == (q && POLYNOMIAL[i - 1]);
        assert next[i - 1] == ((if i < 32 then crc[i] else false) != (q && POLYNOMIAL[i - 1]));
      }
    }
  }

  lemma {:induction false} SerialDivides(crc: Register, bits: seq<bool>) returns (q: Polynomial)
    ensures |q| == |bits| && Divides(Dividend(crc, bits), Generator(), q, Serial(crc, bits))
    decreases |bits|
  {
    if bits == [] {
      q := [];
      assert Dividend(crc, bits) == Plus(Times(q, Generator()), Zero(0) + Serial(crc, bits));
    } else {
      var next := BitStep(SetFirst(crc, bits[0]));
      var rest := SerialDivides(next, bits[1..]);
      q := [crc[0] != bits[0]] + rest;
      DividendStep(crc, bits);
      RowDivides(Dividend(crc, bits), Dividend(next, bits[1..]), Generator(), q, Serial(crc, bits));
    }
  }

  lemma RowDivides(p: Polynomial, rest: Polynomial, g: Polynomial, q: Polynomial, r: Polynomial)
    requires q != [] && Divides(rest, g, q[1..], r) && |p| == |rest| + 1
    requires p == Plus(Row(q[0], g, |q| - 1), [false] + rest)
    ensures Divides(p, g, q, r)
  {
    var row, product := Row(q[0], g, |q| - 1), Times(q, g);
    var sum := Plus(product, Zero(|q|) + r);
    forall i | 0 <= i < |p| ensures p[i] == sum[i] {
      if i > 0 {
        assert product[i] == (row[i] != Times(q[1..], g)[i - 1]);
        assert rest[i - 1] == (Times(q[1..], g)[i - 1] != (Zero(|q| - 1) + r)[i - 1]);
        assert (Zero(|q|) + r)[i] == (Zero(|q| - 1) + r)[i - 1];
      }
    }
  }

  // The checksum.

  /** x^32 and, below it, the bits of 0x82F63B78, lowest first. */
  predicate IsCastagnoli(g: Polynomial) {
    |g| == 33 && g[0] && forall i | 1 <= i <= 32 :: g[i] == Bit(0x82F63B78, i - 1)
  }

  /** The message 32 places up, its first 32 coefficients turned over. */
  predicate IsMessage(p: Polynomial, data: Bytes) {
    && |p| == 8 * |data| + 32
    && forall i | 0 <= i < |p| :: p[i] == ((i < 8 * |data| && Bit(data[i / 8], i % 8)) != (i < 32))
  }

  lemma GeneratorIs(p: Register)
    requires Value(p) == 0x82F63B78
    ensures IsCastagnoli([true] + p)
  {
    hide Bit, Value;
    forall i | 1 <= i <= 32 ensures ([true] + p)[i] == Bit(0x82F63B78, i - 1) {
      BitOfValue(p, i - 1);
    }
  }

  lemma OneCastagnoli(g: Polynomial, h: Polynomial)
    requires IsCastagnoli(g) && IsCastagnoli(h)
    ensures g == h
  {
    hide Bit;
  }

  /**
   The checksum of a message is the complement of the remainder of its division
   by the Castagnoli polynomial, and that remainder is unique.
   */
  lemma ChecksumDivides(data: Bytes, p: Polynomial, g: Polynomial) returns (q: Polynomial, r: Polynomial)
    requires IsMessage(p, data) && IsCastagnoli(g)
    ensures Divides(p, g, q, r)
    ensures forall q', r' | Divides(p, g, q', r') :: r' == r
    ensures Checksum(data) < 0x1_0000_0000 && forall i | 0 <= i < 32 :: Bit(Checksum(data), i) == !r[i]
  {
    hide Times, Serial, Bit, IsCastagnoli, Value;
    var bits := Message(data);
    r := Serial(ONES, bits);
    q := SerialDivides(ONES, bits);
    FeedSerial(ONES, data);
    PolynomialValue(POLYNOMIAL);
    GeneratorIs(POLYNOMIAL);
    OneCastagnoli(g, Generator());
    assert p == Dividend(ONES, bits);
    forall q', r' | Divides(p, g, q', r') ensures r' == r {
      DivisionUnique(p, g, q, r, q', r');
    }
    forall i | 0 <= i < 32 ensures Bit(Checksum(data), i) == !r[i] {
      BitOfValue(Not(r), i);
    }
    Pow32();
  }

  lemma Pow32()
    ensures Pow2(32) == 0x1_0000_0000
  {
    assert Pow2(8) == 256;
    assert Pow2(16) == 256 * Pow2(8);
    assert Pow2(24) == 256 * Pow2(16);
    assert Pow2(32) == 256 * Pow2(24);
  }
}
