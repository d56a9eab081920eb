/** Amounts in atomic units and as the provider's decimal strings. */
module Amounts {
  import opened Arithmetic
  import opened Options
  import opened Text

  const MAX_DIGITS: nat := 78
  const MAX_DECIMALS: nat := 36

  method DecimalDigits(value: string) returns (ok: bool)
    ensures ok <==> AllDigits(value)
  {
    var i := 0;
    while i < |value|
      invariant 0 <= i <= |value| && AllDigits(value[..i])
    {
      if value[i] < '0' || value[i] > '9' {
        return false;
      }
      i := i + 1;
    }
    assert value[..i] == value;
    ok := true;
  }

  /** A base-ten integer with an optional sign. */
  function ParsedInteger(s: string): Option<int> {
    if s != "" && (s[0] == '-' || s[0] == '+') then
      if s[1..] == "" || !AllDigits(s[1..]) then None
      else
        var n: int := Value(s[1..]);
        Some(if s[0] == '-' then -n else n)
    else if s == "" || !AllDigits(s) then None
    else Some(Value(s))
  }

  function Rendered(value: nat, decimals: nat): string {
    var base := Pow10(decimals);
    var whole, fraction := Quo(value, base), Rem(value, base);
    if fraction == 0 then Printed(whole)
    else Printed(whole) + "." + TrimRightZeros(Padded(Printed(fraction), decimals))
  }

  function AtomicToProviderAmount(amount: string, decimals: int): Option<string> {
    if decimals < 0 || decimals > MAX_DECIMALS || amount == "" then None
    else
      match ParsedInteger(amount)
      case None => None
      case Some(value) =>
        if value <= 0 || |Printed(value)| > MAX_DIGITS then None else Some(Rendered(value, decimals))
  }

  function ProviderAmountToAtomic(amount: string, decimals: int): Option<string> {
    if decimals < 0 || decimals > MAX_DECIMALS || amount == "" || Trim(amount) != amount then None
    else
      var parts := Split(amount, '.');
      if |parts| > 2 || parts[0] == "" || !AllDigits(parts[0]) then None
      else if |parts| == 2 && (parts[1] == "" || !AllDigits(parts[1]) || |parts[1]| > decimals) then None
      else
        var fraction := if |parts| == 2 then parts[1] else "";
        var digits := TrimLeftZeros(parts[0] + fraction + Zeros(decimals - |fraction|));
        if digits == "" then Some("0")
        else
          match ParsedInteger(digits)
          case None => None
          case Some(value) =>
            if value < 0 || |Printed(value)| > MAX_DIGITS then None else Some(Printed(value))
  }

  // What a decimal string means.

  predicate IsDecimal(p: string) {
    var parts := Split(p, '.');
    |parts| <= 2 && forall i | 0 <= i < |parts| :: parts[i] != "" && AllDigits(parts[i])
  }

  function Whole(p: string): string {
    Split(p, '.')[0]
  }

  function Fraction(p: string): string {
    var parts := Split(p, '.');
    if |parts| >= 2 then parts[1] else ""
  }

  /** The number of atomic units a decimal string stands for. */
  function Units(p: string, decimals: nat): nat
    requires IsDecimal(p) && |Fraction(p)| <= decimals
  {
    Value(Whole(p)) * Pow10(decimals) + Value(Fraction(p)) * Pow10(decimals - |Fraction(p)|)
  }

  /** No needless zero on either side. */
  predicate Canonical(p: string) {
    && IsDecimal(p) && (Whole(p)[0] != '0' || |Whole(p)| == 1)
    && (Fraction(p) != "" ==> Fraction(p)[|Fraction(p)| - 1] != '0')
  }

  // Reading.

  lemma NoSpaces(p: string)
    requires IsDecimal(p)
    ensures p != "" && Trim(p) == p
  {
    SplitBack(p, '.');
    assert Digit(Whole(p)[0]);
    assert Digit(p[0]) && Digit(p[|p| - 1]);
  }

  lemma DigitsUnits(p: string, decimals: nat)
    requires IsDecimal(p) && |Fraction(p)| <= decimals
    ensures AllDigits(Whole(p) + Fraction(p) + Zeros(decimals - |Fraction(p)|))
    ensures Value(Whole(p) + Fraction(p) + Zeros(decimals - |Fraction(p)|)) == Units(p, decimals)
  {
    hide Split;
    var w, f := Whole(p), Fraction(p);
    var k := decimals - |f|;
    ValueAppend(w, f);
    ValueAppend(w + f, Zeros(k));
    ValueZeros(k);
    PowSum(|f|, k);
    Distribute(Value(w), Pow10(|f|), Value(f), Pow10(k));
  }

  lemma Distribute(w: nat, p: nat, f: nat, q: nat)
    ensures (w * p + f) * q == w * (p * q) + f * q
  {
  }

  /** Reading is exact: a decimal string within precision and range gives its units, anything else nothing. */
  lemma ReadsUnits(p: string, decimals: int)
    ensures ProviderAmountToAtomic(p, decimals)
         == if 0 <= decimals <= MAX_DECIMALS && IsDecimal(p) && |Fraction(p)| <= decimals
               && |Printed(Units(p, decimals))| <= MAX_DIGITS
            then Some(Printed(Units(p, decimals))) else None
  {
    hide Split, Trim, Printed, Value;
    if 0 <= decimals <= MAX_DECIMALS && IsDecimal(p) && |Fraction(p)| <= decimals {
      NoSpaces(p);
      DigitsUnits(p, decimals);
      var all := Whole(p) + Fraction(p) + Zeros(decimals - |Fraction(p)|);
      TrimLeftIs(all);
      var digits := TrimLeftZeros(all);
      assert digits != "" ==> Digit(digits[0]);
      ZeroPrints();
      NothingIsZero(digits);
    }
  }

  lemma ZeroPrints()
    ensures Printed(0) == "0" && |Printed(0)| <= MAX_DIGITS
  {
  }

  lemma NothingIsZero(digits: string)
    requires AllDigits(digits)
    ensures digits == "" ==> Value(digits) == 0
  {
  }

  // Writing.

  lemma NoDot(s: string)
    requires AllDigits(s)
    ensures '.' !in s
  {
  }

  lemma OneOrTwo(whole: string, fraction: string)
    requires AllDigits(whole) && AllDigits(fraction) && whole != "" && fraction != ""
    ensures IsDecimal(whole) && Whole(whole) == whole && Fraction(whole) == ""
    ensures var p := whole + "." + fraction; IsDecimal(p) && Whole(p) == whole && Fraction(p) == fraction
  {
    NoDot(whole);
    NoDot(fraction);
    SplitNone(whole, '.');
    SplitOnce(whole, fraction, '.');
    assert "." == ['.'];
  }

  lemma {:induction false} PrintedFits(n: nat, k: nat)
    requires n < Pow10(k) && k > 0
    ensures |Printed(n)| <= k
  {
    if n >= 10 {
      PrintedFits(n / 10, k - 1);
    }
  }

  /** The fraction printed with its width and without trailing zeros. */
  lemma SomeDecimals(fraction: nat, decimals: nat)
    requires 0 < fraction < Pow10(decimals)
    ensures decimals > 0
  {
  }

  lemma FractionDigits(fraction: nat, decimals: nat)
    requires 0 < fraction < Pow10(decimals)
    ensures var f := TrimRightZeros(Padded(Printed(fraction), decimals));
      && 0 < |f| <= decimals && AllDigits(f) && f[|f| - 1] != '0' && Value(f) * Pow10(decimals - |f|) == fraction
  {
    hide Printed, Value, TrimRightZeros, Pow10;
    SomeDecimals(fraction, decimals);
    PrintedFits(fraction, decimals);
    var digits := Printed(fraction);
    var padded := Padded(digits, decimals);
    ValueAppend(Zeros(decimals - |digits|), digits);
    ValueZeros(decimals - |digits|);
    assert Zeros(0) + digits == digits;
    assert padded == Zeros(decimals - |digits|) + digits;
    TrimRightIs(padded);
    var f := TrimRightZeros(padded);
    assert forall i | 0 <= i < |f| :: f[i] == padded[i];
    ValueAppend(f, Zeros(decimals - |f|));
    ValueZeros(decimals - |f|);
    NothingIsZero(f);
  }

  /** What is written is canonical and stands for the value. */
  lemma Writes(value: nat, decimals: nat)
    ensures var p := Rendered(value, decimals);
      Canonical(p) && |Fraction(p)| <= decimals && Units(p, decimals) == value
  {
    hide Printed, Value, TrimRightZeros, Split, Pow10;
    var base := Pow10(decimals);
    var whole, fraction := Quo(value, base), Rem(value, base);
    DivMod(value, base);
    OneOrTwo(Printed(whole), "1");
    if fraction > 0 {
      FractionDigits(fraction, decimals);
      OneOrTwo(Printed(whole), TrimRightZeros(Padded(Printed(fraction), decimals)));
    } else {
      NothingIsZero("");
    }
  }

  // Round trips.

  /** A canonical string is what its units are written as. */
  lemma CanonicalWritten(p: string, decimals: nat)
    requires Canonical(p) && |Fraction(p)| <= decimals
    ensures Rendered(Units(p, decimals), decimals) == p
  {
    var q := Rendered(Units(p, decimals), decimals);
    Writes(Units(p, decimals), decimals);
    SameCanonical(p, q, decimals);
  }

  lemma UnitsSplit(p: string, decimals: nat)
    requires IsDecimal(p) && |Fraction(p)| <= decimals
    ensures var f := Value(Fraction(p)) * Pow10(decimals - |Fraction(p)|);
      && f < Pow10(decimals)
      && Value(Whole(p)) == Units(p, decimals) / Pow10(decimals) && f == Units(p, decimals) % Pow10(decimals)
  {
    hide Value, Split, Pow10;
    var f, k := Fraction(p), decimals - |Fraction(p)|;
    ValueBound(f);
    PowSum(|f|, k);
    Below(Value(f), Pow10(|f|), Pow10(k));
    Divides(Value(Whole(p)), Pow10(decimals), Value(f) * Pow10(k));
  }

  lemma Below(a: nat, b: nat, c: nat)
    requires a < b && c > 0
    ensures a * c < b * c
  {
  }

  lemma Divides(q: nat, m: nat, r: nat)
    requires r < m
    ensures (q * m + r) / m == q && (q * m + r) % m == r
  {
    Quotient(q * m + r, m, q, r);
    DivMod(q * m + r, m);
  }

  lemma NoLonger(f: string, j: nat, g: string, k: nat)
    requires f + Zeros(j) == g + Zeros(k) && (g != "" ==> g[|g| - 1] != '0')
    ensures |g| <= |f|
  {
    if g != "" {
      var all := f + Zeros(j);
      assert all[|g| - 1] == (g + Zeros(k))[|g| - 1] == g[|g| - 1];
      assert forall i | |f| <= i < |all| :: all[i] == '0';
    }
  }

  /** A fraction without trailing zeros is settled by its value at full width. */
  lemma SameFraction(f: string, g: string, decimals: nat)
    requires AllDigits(f) && AllDigits(g) && |f| <= decimals && |g| <= decimals
    requires (f != "" ==> f[|f| - 1] != '0') && (g != "" ==> g[|g| - 1] != '0')
    requires Value(f) * Pow10(decimals - |f|) == Value(g) * Pow10(decimals - |g|)
    ensures f == g
  {
    hide Value, Pow10;
    var a, b := f + Zeros(decimals - |f|), g + Zeros(decimals - |g|);
    ValueAppend(f, Zeros(decimals - |f|));
    ValueAppend(g, Zeros(decimals - |g|));
    ValueZeros(decimals - |f|);
    ValueZeros(decimals - |g|);
    SameDigits(a, b);
    NoLonger(f, decimals - |f|, g, decimals - |g|);
    NoLonger(g, decimals - |g|, f, decimals - |f|);
    assert a[..|f|] == f && b[..|g|] == g;
  }

  /** One canonical string per amount. */
  lemma SameCanonical(p: string, q: string, decimals: nat)
    requires Canonical(p) && Canonical(q) && |Fraction(p)| <= decimals && |Fraction(q)| <= decimals
    requires Units(p, decimals) == Units(q, decimals)
    ensures p == q
  {
    hide Value, Split, Pow10, Printed;
    UnitsSplit(p, decimals);
    UnitsSplit(q, decimals);
    PrintedValue(Whole(p));
    PrintedValue(Whole(q));
    SameFraction(Fraction(p), Fraction(q), decimals);
    SplitBack(p, '.');
    SplitBack(q, '.');
  }

  /** Every positive amount in range is written, canonically, and read back as the same number. */
  lemma AtomicRoundTrip(amount: string, value: nat, decimals: nat)
    requires ParsedInteger(amount) == Some(value)
    requires value > 0 && |Printed(value)| <= MAX_DIGITS && decimals <= MAX_DECIMALS
    ensures var written := AtomicToProviderAmount(amount, decimals);
      && written.Some? && Canonical(written.value)
      && ProviderAmountToAtomic(written.value, decimals) == Some(Printed(value))
  {
    hide Rendered, Printed, Value, Split, Canonical, Units;
    Writes(value, decimals);
    ReadsUnits(Rendered(value, decimals), decimals);
    CanonicalDecimal(Rendered(value, decimals));
  }

  lemma CanonicalDecimal(p: string)
    requires Canonical(p)
    ensures IsDecimal(p)
  {
  }

  /** Every accepted positive provider string prints back canonically with the same units; a canonical one as itself. */
  lemma ProviderRoundTrip(p: string, decimals: int)
    requires ProviderAmountToAtomic(p, decimals).Some? && ProviderAmountToAtomic(p, decimals).value != "0"
    ensures IsDecimal(p) && |Fraction(p)| <= decimals
    ensures var written := AtomicToProviderAmount(ProviderAmountToAtomic(p, decimals).value, decimals);
      && written.Some? && Canonical(written.value) && |Fraction(written.value)| <= decimals
      && Units(written.value, decimals) == Units(p, decimals)
      && (written.value == p <==> Canonical(p))
  {
    hide Rendered, Printed, Value, Split, Canonical, Units, ProviderAmountToAtomic;
    ReadsUnits(p, decimals);
    var value := Units(p, decimals);
    ZeroPrints();
    assert value > 0;
    assert ParsedInteger(Printed(value)) == Some(value) by {
      assert Digit(Printed(value)[0]);
    }
    Writes(value, decimals);
    if Canonical(p) {
      CanonicalWritten(p, decimals);
    }
  }
}
