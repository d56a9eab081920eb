/** Decimal strings and powers of ten. */
module Text {
  // White space.

  predicate Space(c: char) {
    c in "\t\n\r " || c == '\U{0B}' || c == '\U{0C}' || c == '\U{85}' || c == '\U{A0}' || c == '\U{1680}'
    || '\U{2000}' <= c <= '\U{200A}' || c == '\U{2028}' || c == '\U{2029}' || c == '\U{202F}' || c == '\U{205F}'
    || c == '\U{3000}'
  }

  function Trim(s: string): string
    decreases |s|
  {
    if s == "" then "" else if Space(s[0]) then Trim(s[1..])
    else if Space(s[|s| - 1]) then Trim(s[..|s| - 1]) else s
  }

  // Digits.

  function Pow10(n: nat): (p: nat)
    ensures p > 0
  {
    if n == 0 then 1 else 10 * Pow10(n - 1)
  }

  predicate Digit(c: char) {
    '0' <= c <= '9'
  }

  predicate AllDigits(s: string) {
    forall i | 0 <= i < |s| :: Digit(s[i])
  }

  function DigitValue(c: char): nat
    requires Digit(c)
  {
    c as int - '0' as int
  }

  function DigitChar(n: nat): (c: char)
    requires n < 10
    ensures Digit(c) && DigitValue(c) == n
  {
    (n + '0' as int) as char
  }

  /** The number a string of digits denotes. */
  function Value(s: string): nat
    requires AllDigits(s)
  {
    if s == "" then 0 else Value(s[..|s| - 1]) * 10 + DigitValue(s[|s| - 1])
  }

  /** A number printed in base ten. */
  function Printed(n: nat): (s: string)
    ensures AllDigits(s) && s != "" && Value(s) == n
    ensures (s[0] == '0' <==> n == 0) && (n == 0 ==> |s| == 1)
  {
    if n < 10 then
      var s := [DigitChar(n)];
      assert s[..0] == "";
      s
    else
      var init := Printed(n / 10);
      var s := init + [DigitChar(n % 10)];
      assert s[..|s| - 1] == init;
      s
  }

  function Zeros(n: nat): (s: string)
    ensures |s| == n && AllDigits(s) && forall i | 0 <= i < n :: s[i] == '0'
  {
    seq(n, _ => '0')
  }

  function TrimLeftZeros(s: string): string {
    if s != "" && s[0] == '0' then TrimLeftZeros(s[1..]) else s
  }

  function TrimRightZeros(s: string): string {
    if s != "" && s[|s| - 1] == '0' then TrimRightZeros(s[..|s| - 1]) else s
  }

  /** Zero padding on the left up to a width. */
  function Padded(s: string, width: nat): string {
    if |s| < width then Zeros(width - |s|) + s else s
  }

  function Split(s: string, dot: char): (parts: seq<string>)
    ensures parts != [] && forall i | 0 <= i < |parts| :: dot !in parts[i]
  {
    if s == "" then [""]
    else
      var rest := Split(s[1..], dot);
      if s[0] == dot then [""] + rest else [[s[0]] + rest[0]] + rest[1..]
  }

  // Laws.

  lemma {:induction false} PowSum(a: nat, b: nat)
    ensures Pow10(a + b) == Pow10(a) * Pow10(b)
  {
    if a > 0 {
      PowSum(a - 1, b);
      TenTimes(Pow10(a - 1), Pow10(b));
    }
  }

  lemma TenTimes(x: nat, y: nat)
    ensures 10 * (x * y) == 10 * x * y
  {
  }

  lemma Shift(a: nat, p: nat, b: nat)
    ensures (a * p + b) * 10 == a * (10 * p) + b * 10
  {
  }

  lemma {:induction false} ValueAppend(a: string, b: string)
    requires AllDigits(a) && AllDigits(b)
    ensures Value(a + b) == Value(a) * Pow10(|b|) + Value(b)
  {
    if b == "" {
      assert a + b == a;
    } else {
      var init, last := b[..|b| - 1], b[|b| - 1];
      ValueAppend(a, init);
      assert (a + b)[..|a + b| - 1] == a + init && (a + b)[|a + b| - 1] == last;
      Shift(Value(a), Pow10(|init|), Value(init));
    }
  }

  lemma {:induction false} ValueZeros(n: nat)
    ensures Value(Zeros(n)) == 0
  {
    if n > 0 {
      ValueZeros(n - 1);
      assert Zeros(n)[..n - 1] == Zeros(n - 1);
    }
  }

  lemma {:induction false} ValueBound(s: string)
    requires AllDigits(s)
    ensures Value(s) < Pow10(|s|)
  {
    if s != "" {
      ValueBound(s[..|s| - 1]);
    }
  }

  /** Leading zeros do not count. */
  lemma {:induction false} TrimLeftIs(s: string)
    requires AllDigits(s)
    ensures var t := TrimLeftZeros(s); AllDigits(t) && Value(t) == Value(s) && (t == "" || t[0] != '0')
  {
    if s != "" && s[0] == '0' {
      TrimLeftIs(s[1..]);
      assert s == [s[0]] + s[1..];
      ValueAppend([s[0]], s[1..]);
      assert [s[0]][..0] == "";
    }
  }

  /** Trailing zeros taken off can be put back. */
  lemma {:induction false} TrimRightIs(s: string)
    ensures var t := TrimRightZeros(s);
      && |t| <= |s| && s == t + Zeros(|s| - |t|) && (t == "" || t[|t| - 1] != '0')
  {
    if s != "" && s[|s| - 1] == '0' {
      var init := s[..|s| - 1];
      TrimRightIs(init);
      var t := TrimRightZeros(init);
      assert Zeros(|init| - |t|) + ['0'] == Zeros(|s| - |t|);
      assert s == init + ['0'];
    } else {
      assert s == s + Zeros(0);
    }
  }

  /** A string of digits without a needless leading zero is what its number prints as. */
  lemma {:induction false} PrintedValue(s: string)
    requires AllDigits(s) && s != "" && (s[0] != '0' || |s| == 1)
    ensures Printed(Value(s)) == s
  {
    var init, last := s[..|s| - 1], s[|s| - 1];
    if |s| == 1 {
      assert Value(init) == 0;
      assert s == [last];
    } else {
      PrintedValue(init);
      assert Value(init) > 0;
      assert Value(s) / 10 == Value(init) && Value(s) % 10 == DigitValue(last);
      assert s == init + [last];
    }
  }

  /** Two digit strings of one length with one value are the same. */
  lemma {:induction false} SameDigits(a: string, b: string)
    requires AllDigits(a) && AllDigits(b) && |a| == |b| && Value(a) == Value(b)
    ensures a == b
  {
    if a != "" {
      var n := |a| - 1;
      SameDigits(a[..n], b[..n]) by {
        assert Value(a) / 10 == Value(a[..n]) && Value(b) / 10 == Value(b[..n]);
      }
      assert a == a[..n] + [a[n]] && b == b[..n] + [b[n]];
    }
  }

  lemma {:induction false} SplitNone(s: string, dot: char)
    requires dot !in s
    ensures Split(s, dot) == [s]
  {
    if s != "" {
      SplitNone(s[1..], dot);
      assert s == [s[0]] + s[1..] && [s[1..]][1..] == [];
    }
  }

  lemma {:induction false} SplitOnce(a: string, b: string, dot: char)
    requires dot !in a && dot !in b
    ensures Split(a + [dot] + b, dot) == [a, b]
  {
    if a == "" {
      SplitNone(b, dot);
      assert (a + [dot] + b)[1..] == b;
    } else {
      SplitOnce(a[1..], b, dot);
      assert (a + [dot] + b)[1..] == a[1..] + [dot] + b && (a + [dot] + b)[0] == a[0];
      assert a == [a[0]] + a[1..] && [a[1..], b][1..] == [b];
    }
  }

  lemma {:induction false} SplitBack(s: string, dot: char)
    ensures |Split(s, dot)| == 1 ==> s == Split(s, dot)[0]
    ensures |Split(s, dot)| == 2 ==> s == Split(s, dot)[0] + [dot] + Split(s, dot)[1]
  {
    if s != "" {
      SplitBack(s[1..], dot);
      assert s == [s[0]] + s[1..];
      var parts := Split(s[1..], dot);
      if |parts| == 2 {
        assert [s[0]] + (parts[0] + [dot] + parts[1]) == [s[0]] + parts[0] + [dot] + parts[1];
      }
    }
  }
}
