/** Bytes, and numbers as lists of bits, least significant first. */
module Octets {
  type Byte = x: int | 0 <= x < 256
  type Bytes = seq<Byte>

  /** The `width` low bits of a number. */
  function Bits(value: nat, width: nat): (bits: seq<bool>)
    ensures |bits| == width
  {
    if width == 0 then [] else [value % 2 == 1] + Bits(value / 2, width - 1)
  }

  function Zeros(n: nat): (bits: seq<bool>)
    ensures |bits| == n && forall i | 0 <= i < n :: !bits[i]
  {
    if n == 0 then [] else [false] + Zeros(n - 1)
  }

  function Pow2(n: nat): (p: nat)
    ensures p > 0
  {
    if n == 0 then 1 else 2 * Pow2(n - 1)
  }

  function Value(bits: seq<bool>): (value: nat)
    ensures value < Pow2(|bits|)
  {
    if bits == [] then 0 else (if bits[0] then 1 else 0) + 2 * Value(bits[1..])
  }

  lemma {:induction false} ValueBits(value: nat, width: nat)
    requires value < Pow2(width)
    ensures Value(Bits(value, width)) == value
  {
    if width != 0 {
      ValueBits(value / 2, width - 1);
      assert Bits(value, width)[1..] == Bits(value / 2, width - 1);
    }
  }

  lemma {:induction false} ValueInjective(a: seq<bool>, b: seq<bool>)
    requires |a| == |b| && Value(a) == Value(b)
    ensures a == b
  {
    if a != [] {
      ValueInjective(a[1..], b[1..]);
      assert a == [a[0]] + a[1..] && b == [b[0]] + b[1..];
    }
  }

  /** Bits beyond a number's size are clear. */
  lemma {:induction false} HighBitsClear(value: nat, width: nat, n: nat)
    requires value < Pow2(n)
    ensures forall i :: n <= i < width ==> !Bits(value, width)[i]
  {
    if width != 0 {
      HighBitsClear(value / 2, width - 1, if n == 0 then 0 else n - 1);
      assert Bits(value, width)[1..] == Bits(value / 2, width - 1);
    }
  }
}

/** Little-endian integers on bytes: the put and get helpers of the journal header. */
module Wire {
  import opened Octets

  function Pow256(n: nat): (p: nat)
    ensures p > 0
  {
    if n == 0 then 1 else 256 * Pow256(n - 1)
  }

  /** The `width` low bytes of `value`, least significant first. */
  function PutLE(value: nat, width: nat): (bytes: Bytes)
    ensures |bytes| == width
  {
    if width == 0 then [] else [value % 256] + PutLE(value / 256, width - 1)
  }

  function GetLE(bytes: Bytes): (value: nat)
    ensures value < Pow256(|bytes|)
  {
    if bytes == [] then 0 else bytes[0] + 256 * GetLE(bytes[1..])
  }

  lemma {:induction false} GetPut(value: nat, width: nat)
    requires value < Pow256(width)
    ensures GetLE(PutLE(value, width)) == value
  {
    if width != 0 {
      GetPut(value / 256, width - 1);
      assert PutLE(value, width)[1..] == PutLE(value / 256, width - 1);
    }
  }

  lemma {:induction false} PutGet(bytes: Bytes)
    ensures PutLE(GetLE(bytes), |bytes|) == bytes
  {
    if bytes != [] {
      PutGet(bytes[1..]);
      LowByte(bytes[0], GetLE(bytes[1..]));
      assert [bytes[0]] + bytes[1..] == bytes;
    }
  }

  lemma LowByte(low: Byte, rest: nat)
    ensures (low + 256 * rest) % 256 == low && (low + 256 * rest) / 256 == rest
  {
  }

  lemma ScaleUp(x: nat, p: nat)
    ensures x * (256 * p) == 256 * (x * p)
  {
  }

  /** GetLE read from the most significant end: the shape of the get loops. */
  lemma {:induction false} GetSnoc(bytes: Bytes, last: Byte)
    ensures GetLE(bytes + [last]) == GetLE(bytes) + last * Pow256(|bytes|)
  {
    if bytes == [] {
      assert (bytes + [last])[1..] == [];
    } else {
      GetSnoc(bytes[1..], last);
      assert (bytes + [last])[1..] == bytes[1..] + [last];
      ScaleUp(last, Pow256(|bytes| - 1));
    }
  }

  lemma Widths()
    ensures Pow256(2) == 0x1_0000
    ensures Pow256(4) == 0x1_0000_0000
    ensures Pow256(8) == 0x1_0000_0000_0000_0000
  {
    assert Pow256(2) == 256 * Pow256(1);
    assert Pow256(4) == 256 * (256 * Pow256(2));
    assert Pow256(8) == 256 * (256 * (256 * (256 * Pow256(4))));
  }

  /** put16, put32 and put64: fills `width` bytes of `out` from `at`. */
  method Put(out: array<Byte>, at: nat, width: nat, value: nat)
    requires at + width <= out.Length
    modifies out
    ensures out[..] == old(out[..at]) + PutLE(value, width) + old(out[at + width..])
  {
    var shifted := value;
    var i := 0;
    while i < width
      invariant 0 <= i <= width
      invariant out[..at] == old(out[..at])
      invariant out[at..at + i] + PutLE(shifted, width - i) == PutLE(value, width)
      invariant out[at + width..] == old(out[at + width..])
    {
      ghost var done := out[at..at + i];
      out[at + i] := shifted % 256;
      assert out[at..at + i + 1] == done + [shifted % 256];
      shifted := shifted / 256;
      i := i + 1;
    }
    assert out[..] == out[..at] + out[at..at + width] + out[at + width..];
  }

  /** get16, get32 and get64 on a complete field. */
  method Get(field: Bytes) returns (value: nat)
    ensures value == GetLE(field)
  {
    value := 0;
    var scale: nat := 1;
    for i := 0 to |field|
      invariant scale == Pow256(i)
      invariant value == GetLE(field[..i])
    {
      GetSnoc(field[..i], field[i]);
      assert field[..i + 1] == field[..i] + [field[i]];
      value := value + field[i] * scale;
      scale := 256 * scale;
    }
    assert field[..|field|] == field;
  }
}
