/** Holds placed for limit buys, and what their fills cost. */
module Reservations {
  import opened Arithmetic
  import opened Options
  import opened Text

  const U64_LIMIT: nat := 0x1_0000_0000_0000_0000
  const BPS: nat := 10000

  datatype PairRules = PairRules(priceScale: int, quantityScale: int, quoteScale: int)

  datatype Hold = HoldExact(amount: nat) | HoldAll | InvalidOrder

  predicate ScalesOk(rules: PairRules) {
    0 <= rules.priceScale <= 18 && 0 <= rules.quantityScale <= 18 && 0 <= rules.quoteScale <= 18
  }

  function CeilProductDiv(left: nat, right: nat, divisor: nat): (r: nat)
    requires divisor > 0
    ensures (r as int - 1) * divisor < left * right <= r * divisor
  {
    var product := left * right;
    DivMod(product, divisor);
    Next(Quo(product, divisor), divisor);
    Quo(product, divisor) + if Rem(product, divisor) != 0 then 1 else 0
  }

  lemma Next(q: nat, m: nat)
    ensures (q + 1) * m == q * m + m && (q - 1) * m == q * m - m
  {
  }

  function Numerator(price: nat, quantity: nat, rules: PairRules): nat
    requires ScalesOk(rules)
  {
    price * quantity * Pow10(rules.quoteScale)
  }

  function Divisor(rules: PairRules): (d: nat)
    requires ScalesOk(rules)
    ensures d > 0
  {
    Pow10(rules.priceScale + rules.quantityScale)
  }

  function Quoted(price: nat, quantity: nat, rules: PairRules, roundUp: bool): Option<nat> {
    if price == 0 || quantity == 0 || !ScalesOk(rules) then None
    else if roundUp then Some(CeilProductDiv(Numerator(price, quantity, rules), 1, Divisor(rules)))
    else Some(Quo(Numerator(price, quantity, rules), Divisor(rules)))
  }

  function Reservation(sell: bool, market: bool, price: nat, quantity: nat, takerBps: int, rules: PairRules): Hold {
    if sell then HoldExact(quantity)
    else if market then HoldAll
    else
      match Quoted(price, quantity, rules, true)
      case None => InvalidOrder
      case Some(notional) =>
        var fee := if takerBps > 0 then CeilProductDiv(notional, takerBps, BPS) else 0;
        var total := notional + fee;
        if total <= 0 || total >= U64_LIMIT then InvalidOrder else HoldExact(total)
  }

  // Settlement.

  function QuoteAmount(price: nat, quantity: nat, rules: PairRules): Option<nat> {
    match Quoted(price, quantity, rules, false)
    case None => None
    case Some(quote) => if quote <= 0 then None else Some(quote)
  }

  /** Truncated towards zero; negative for a rebate. */
  function FeeAmount(notional: int, bps: int): Option<int> {
    if notional <= 0 || bps + BPS < 0 || bps > BPS then None
    else if bps < 0 then Some(-(Quo(notional * -bps, BPS) as int)) else Some(Quo(notional * bps, BPS))
  }

  datatype Fill = Fill(price: nat, quantity: nat, bps: int)

  /** What a fill takes from the buyer; None where settlement refuses it. */
  function Cost(fill: Fill, rules: PairRules): Option<int> {
    match QuoteAmount(fill.price, fill.quantity, rules)
    case None => None
    case Some(notional) =>
      match FeeAmount(notional, fill.bps)
      case None => None
      case Some(fee) => Some(notional + fee)
  }

  function TotalQuantity(fills: seq<Fill>): nat {
    if fills == [] then 0 else TotalQuantity(fills[..|fills| - 1]) + fills[|fills| - 1].quantity
  }

  function TotalCost(fills: seq<Fill>, rules: PairRules): int {
    if fills == [] then 0
    else
      TotalCost(fills[..|fills| - 1], rules)
      + match Cost(fills[|fills| - 1], rules) case None => 0 case Some(cost) => cost
  }

  /** The settled notional alone. */
  function TotalNotional(fills: seq<Fill>, rules: PairRules): nat {
    if fills == [] then 0
    else TotalNotional(fills[..|fills| - 1], rules) + Notional(fills[|fills| - 1], rules)
  }

  function Notional(fill: Fill, rules: PairRules): nat {
    if Cost(fill, rules).None? then 0 else QuoteAmount(fill.price, fill.quantity, rules).value
  }

  /** Fills an order with this limit and rate can get. */
  predicate Allowed(fills: seq<Fill>, price: nat, bps: int) {
    forall i | 0 <= i < |fills| :: fills[i].price <= price && fills[i].bps <= bps
  }

  function Positive(bps: int): nat {
    if bps > 0 then bps else 0
  }

  // Bounds for one fill.

  lemma MulMono(a: nat, b: nat, c: nat, d: nat)
    requires a <= c && b <= d
    ensures a * b <= c * d
  {
  }

  lemma NotionalBound(fill: Fill, price: nat, rules: PairRules)
    requires ScalesOk(rules) && fill.price <= price
    ensures Notional(fill, rules) * Divisor(rules) <= Numerator(price, fill.quantity, rules)
  {
    hide Divisor, Pow10;
    if Cost(fill, rules).Some? {
      DivMod(Numerator(fill.price, fill.quantity, rules), Divisor(rules));
      MulMono(fill.price, fill.quantity, price, fill.quantity);
      MulMono(fill.price * fill.quantity, Pow10(rules.quoteScale), price * fill.quantity, Pow10(rules.quoteScale));
    }
  }

  lemma FeeBound(notional: int, fee: int, bps: int, limit: int)
    requires FeeAmount(notional, bps) == Some(fee) && bps <= limit
    ensures fee * BPS <= notional * Positive(limit)
  {
  }

  lemma CostBound(fill: Fill, limit: int, rules: PairRules)
    requires Cost(fill, rules).Some? && fill.bps <= limit
    ensures (Cost(fill, rules).value - Notional(fill, rules)) * BPS <= Notional(fill, rules) * Positive(limit)
  {
    hide QuoteAmount, FeeAmount;
    var notional := QuoteAmount(fill.price, fill.quantity, rules).value;
    FeeBound(notional, FeeAmount(notional, fill.bps).value, fill.bps, limit);
  }

  // Bounds for all fills.

  lemma Plus(a: int, b: int, m: int)
    ensures (a + b) * m == a * m + b * m
  {
  }

  lemma NumeratorSum(price: nat, a: nat, b: nat, rules: PairRules)
    requires ScalesOk(rules)
    ensures Numerator(price, a + b, rules) == Numerator(price, a, rules) + Numerator(price, b, rules)
  {
  }

  lemma NumeratorMono(price: nat, a: nat, b: nat, rules: PairRules)
    requires ScalesOk(rules) && a <= b
    ensures Numerator(price, a, rules) <= Numerator(price, b, rules)
  {
    hide Pow10;
    MulOrder(a, b, price);
    assert price * a == a * price && price * b == b * price;
    MulOrder(price * a, price * b, Pow10(rules.quoteScale));
  }

  lemma {:induction false} NotionalsBound(fills: seq<Fill>, price: nat, bps: int, rules: PairRules)
    requires ScalesOk(rules) && Allowed(fills, price, bps)
    ensures TotalNotional(fills, rules) * Divisor(rules) <= Numerator(price, TotalQuantity(fills), rules)
  {
    hide Divisor, Numerator, Notional;
    if fills != [] {
      var init, last := fills[..|fills| - 1], fills[|fills| - 1];
      NotionalsBound(init, price, bps, rules);
      NotionalBound(last, price, rules);
      Plus(TotalNotional(init, rules), Notional(last, rules), Divisor(rules));
      NumeratorSum(price, TotalQuantity(init), last.quantity, rules);
    } else {
      MulMono(0, 0, 0, Divisor(rules));
    }
  }

  lemma {:induction false} FeesBound(fills: seq<Fill>, price: nat, bps: int, rules: PairRules)
    requires Allowed(fills, price, bps)
    ensures (TotalCost(fills, rules) - TotalNotional(fills, rules)) * BPS <= TotalNotional(fills, rules) * Positive(bps)
  {
    hide Cost, Positive;
    if fills != [] {
      var init, last := fills[..|fills| - 1], fills[|fills| - 1];
      FeesBound(init, price, bps, rules);
      Plus(TotalNotional(init, rules), Notional(last, rules), Positive(bps));
      if Cost(last, rules).Some? {
        CostBound(last, bps, rules);
      } else {
        Plus(TotalNotional(init, rules), 0, Positive(bps));
      }
    }
  }

  lemma Cancel(a: int, b: int, m: nat)
    requires m > 0 && a * m <= b * m
    ensures a <= b
  {
    if a > b {
      Minus(b, a, m);
      MulAtLeast(a - b, m);
    }
  }

  /** The hold of a limit buy covers whatever its fills settle for. */
  lemma HoldCovers(price: nat, quantity: nat, bps: int, rules: PairRules, fills: seq<Fill>)
    requires Reservation(false, false, price, quantity, bps, rules).HoldExact?
    requires Allowed(fills, price, bps) && TotalQuantity(fills) <= quantity
    ensures TotalCost(fills, rules) <= Reservation(false, false, price, quantity, bps, rules).amount < U64_LIMIT
  {
    hide Divisor, Numerator, TotalCost, TotalNotional, TotalQuantity, Allowed;
    var n := Quoted(price, quantity, rules, true).value;
    NotionalsBound(fills, price, bps, rules);
    NumeratorMono(price, TotalQuantity(fills), quantity, rules);
    var spent := TotalNotional(fills, rules);
    Cancel(spent, n, Divisor(rules));
    FeesBound(fills, price, bps, rules);
    MulMono(spent, Positive(bps), n, Positive(bps));
    var fee := if bps > 0 then CeilProductDiv(n, bps, BPS) else 0;
    assert n * Positive(bps) <= fee * BPS;
    Cancel(TotalCost(fills, rules) - spent, fee, BPS);
  }

  /** The hold is no larger than needed: one fill at the limit and at the same rate costs at most three units less. */
  lemma HoldTight(price: nat, quantity: nat, bps: int, rules: PairRules)
    requires Reservation(false, false, price, quantity, bps, rules).HoldExact? && 0 <= bps <= BPS
    requires Cost(Fill(price, quantity, bps), rules).Some?
    ensures Reservation(false, false, price, quantity, bps, rules).amount
      <= Cost(Fill(price, quantity, bps), rules).value + 3
  {
    hide Divisor, Numerator;
    var n, spent := Quoted(price, quantity, rules, true).value, QuoteAmount(price, quantity, rules).value;
    var d := Divisor(rules);
    DivMod(Numerator(price, quantity, rules), d);
    Next(spent, d);
    Cancel(n - 1, spent, d) by {
      Ahead(n - 1, spent + 1, d);
    }
    FeeTight(n, spent, bps);
  }

  lemma Ahead(a: int, b: int, m: nat)
    requires m > 0 && a * m < b * m
    ensures a < b && a * m <= (b - 1) * m
  {
    if a >= b {
      MulOrder(b, a, m);
    }
    MulOrder(a, b - 1, m);
  }

  lemma FeeTight(n: nat, spent: nat, bps: nat)
    requires spent <= n <= spent + 1 && bps <= BPS
    ensures (if bps > 0 then CeilProductDiv(n, bps, BPS) else 0) <= Quo(spent * bps, BPS) + 2
  {
    DivMod(spent * bps, BPS);
    if n == spent + 1 {
      Plus(spent, 1, bps);
    }
  }

  // Exactly what is held, quoted and charged.

  /** q is num / den rounded up. */
  predicate RoundedUp(q: int, num: nat, den: nat) {
    (q - 1) * den < num <= q * den
  }

  /** q is num / den rounded down. */
  predicate RoundedDown(q: int, num: nat, den: nat) {
    q * den <= num < (q + 1) * den
  }

  lemma QuoRounds(num: nat, den: nat)
    requires den > 0
    ensures RoundedDown(Quo(num, den), num, den)
  {
    DivMod(num, den);
    Next(Quo(num, den), den);
  }

  lemma CeilRounds(left: nat, right: nat, den: nat)
    requires den > 0
    ensures RoundedUp(CeilProductDiv(left, right, den), left * right, den)
  {
  }

  /**
   A fill's quote is price times quantity at the quote's scale, rounded down;
   refused exactly when it would be zero.
   */
  lemma QuoteIs(price: nat, quantity: nat, rules: PairRules)
    requires 0 <= rules.priceScale <= 18 && 0 <= rules.quantityScale <= 18 && 0 <= rules.quoteScale <= 18
    ensures var num, den := price * quantity * Pow10(rules.quoteScale), Pow10(rules.priceScale + rules.quantityScale);
      match QuoteAmount(price, quantity, rules)
      case None => num < den
      case Some(quote) => quote > 0 && RoundedDown(quote, num, den)
  {
    hide Pow10;
    var num, den := price * quantity * Pow10(rules.quoteScale), Pow10(rules.priceScale + rules.quantityScale);
    QuoRounds(num, den);
    if price == 0 || quantity == 0 {
      assert price * quantity == 0;
    }
  }

  /** A fee is the rate in ten-thousandths of the notional, rounded towards zero; a negative rate gives a rebate. */
  lemma FeeIs(notional: int, bps: int)
    ensures match FeeAmount(notional, bps)
      case None => notional <= 0 || bps + 10000 < 0 || bps > 10000
      case Some(fee) =>
        && notional > 0 && 0 <= bps + 10000 && bps <= 10000
        && if bps >= 0 then RoundedDown(fee, notional * bps, 10000)
          else RoundedDown(0 - fee, notional * (0 - bps), 10000)
  {
    if notional > 0 && 0 <= bps + 10000 && bps <= 10000 {
      if bps >= 0 {
        MulOrder(0, notional, bps);
        QuoRounds(notional * bps, 10000);
      } else {
        MulOrder(0, notional, 0 - bps);
        QuoRounds(notional * (0 - bps), 10000);
      }
    }
  }

  /**
   A sell holds its quantity and a market buy everything. A limit buy holds its
   notional rounded up and the fee on that rounded up, if that fits 64 bits.
   */
  lemma HoldIs(sell: bool, market: bool, price: nat, quantity: nat, bps: int, rules: PairRules)
    returns (n: nat, fee: nat)
    requires 0 <= rules.priceScale <= 18 && 0 <= rules.quantityScale <= 18 && 0 <= rules.quoteScale <= 18
    ensures RoundedUp(n, price * quantity * Pow10(rules.quoteScale), Pow10(rules.priceScale + rules.quantityScale))
    ensures if bps <= 0 then fee == 0 else RoundedUp(fee, n * bps, 10000)
    ensures Reservation(sell, market, price, quantity, bps, rules)
         == if sell then HoldExact(quantity)
            else if market then HoldAll
            else if price == 0 || quantity == 0 || n + fee >= 0x1_0000_0000_0000_0000 then InvalidOrder
            else HoldExact(n + fee)
  {
    hide Pow10, CeilProductDiv, RoundedUp;
    var num, den := price * quantity * Pow10(rules.quoteScale), Pow10(rules.priceScale + rules.quantityScale);
    n := CeilProductDiv(num, 1, den);
    CeilRounds(num, 1, den);
    assert num * 1 == num;
    fee := if bps > 0 then CeilProductDiv(n, bps, BPS) else 0;
    if bps > 0 {
      CeilRounds(n, bps, BPS);
    }
    if price > 0 && quantity > 0 {
      SomethingHeld(price, quantity, Pow10(rules.quoteScale), n, den);
    }
  }

  lemma SomethingHeld(price: nat, quantity: nat, scale: nat, n: nat, den: nat)
    requires price > 0 && quantity > 0 && scale > 0 && price * quantity * scale <= n * den
    ensures n > 0
  {
    MulAtLeast(price, quantity);
    MulAtLeast(price * quantity, scale);
  }
}
