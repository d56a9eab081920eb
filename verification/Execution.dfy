/** What an order and a cancel do, said of the command and the resting orders alone. */
module Execution {
  import opened Arithmetic
  import opened BookTypes
  import opened BookSpec
  import opened BookInvariant
  import Greedy

  // The vocabulary.

  /** A market order trades at any price, a limit buy at its price or below, a limit sell at its price or above. */
  predicate Tradable(cmd: OrderCommand, price: nat) {
    match (cmd.kind, cmd.side)
    case (Market, _) => true
    case (Limit, Buy) => price <= cmd.price
    case (Limit, Sell) => cmd.price <= price
  }

  /** What the resting orders offer within the command's limit. */
  function Offered(cmd: OrderCommand, makers: seq<Order>): nat {
    if makers == [] then 0
    else
      (if Tradable(cmd, makers[0].command.price) then makers[0].remaining else 0) + Offered(cmd, makers[1..])
  }

  function Makers(b: Book, cmd: OrderCommand): seq<Order> {
    match cmd.side
    case Buy => b.asks
    case Sell => b.bids
  }

  function Queue(b: Book, cmd: OrderCommand): seq<Order> {
    match cmd.side
    case Buy => b.bids
    case Sell => b.asks
  }

  /** What rests at a price. */
  function Resting(orders: seq<Order>, price: nat): nat {
    if orders == [] then 0
    else (if orders[0].command.price == price then orders[0].remaining else 0) + Resting(orders[1..], price)
  }

  /** The fields are not those of an order. */
  predicate Malformed(cmd: OrderCommand) {
    || cmd.id == "" || cmd.userId == "" || cmd.quantity == 0
    || (cmd.kind == Limit && cmd.price == 0)
    || (cmd.kind == Market && (cmd.tif == GTC || cmd.postOnly))
  }

  /** Exactly when an order that is new is turned away: malformed, no room, would take, or cannot be filled at once. */
  predicate Declined(b: Book, cmd: OrderCommand) {
    var makers := Makers(b, cmd);
    || Malformed(cmd)
    || |b.bids| + |b.asks| >= b.capacity
    || (cmd.postOnly && exists i :: 0 <= i < |makers| && Tradable(cmd, makers[i].command.price))
    || (cmd.tif == FOK && Offered(cmd, makers) < cmd.quantity)
  }

  function Summed(quantities: seq<nat>): nat {
    if quantities == [] then 0 else quantities[0] + Summed(quantities[1..])
  }

  /** The value of taking these quantities from the first makers. */
  function Worth(makers: seq<Order>, quantities: seq<nat>): nat
    requires |quantities| <= |makers|
  {
    if quantities == [] then 0 else makers[0].command.price * quantities[0] + Worth(makers[1..], quantities[1..])
  }

  /** One maker after the other, each taken whole but perhaps the last, all within the limit. */
  predicate InTurn(cmd: OrderCommand, makers: seq<Order>, quantities: seq<nat>) {
    && |quantities| <= |makers|
    && (forall i | 0 <= i < |quantities| ::
          0 < quantities[i] <= makers[i].remaining && Tradable(cmd, makers[i].command.price))
    && (forall i | 0 <= i < |quantities| - 1 :: quantities[i] == makers[i].remaining)
  }

  /** Nothing more can be taken. */
  predicate Exhausted(cmd: OrderCommand, makers: seq<Order>, quantities: seq<nat>)
    requires |quantities| <= |makers|
  {
    && (forall i | 0 <= i < |quantities| :: quantities[i] == makers[i].remaining)
    && (forall i | |quantities| <= i < |makers| :: !Tradable(cmd, makers[i].command.price))
  }

  /** Trade i is between the taker and maker i, at the maker's price and both parties' rates. */
  function TradesOf(fees: FeeResolver, cmd: OrderCommand, makers: seq<Order>, quantities: seq<nat>, sequence: nat)
    : (trades: seq<Trade>)
    requires |quantities| <= |makers|
    ensures |trades| == |quantities|
  {
    seq(|quantities|, i requires 0 <= i < |quantities| =>
          var maker := makers[i].command;
          Trade(sequence + 1 + i, cmd.timestamp, maker.id, cmd.id, maker.userId, cmd.userId, maker.price, quantities[i],
                fees(maker.feeTier).makerBps, fees(cmd.feeTier).takerBps))
  }

  /** The report on an order of which `remaining` is left and for whose rest `notional` was paid. */
  function ReportOf(cmd: OrderCommand, remaining: nat, notional: nat, status: Status, sequence: nat): OrderStatus {
    var filled := cmd.quantity - remaining;
    OrderStatus(sequence, cmd.id, status, filled, remaining, if filled == 0 then 0 else notional / filled)
  }

  /** The report on a maker this much was taken from. */
  function MakerReport(maker: Order, quantity: nat, sequence: nat): OrderStatus
    requires quantity <= maker.remaining
  {
    var left := maker.remaining - quantity;
    ReportOf(maker.command, left, maker.notional + maker.command.price * quantity,
             if left == 0 then Filled else Partial, sequence)
  }

  /** Status i is about maker i. */
  function StatusesOf(makers: seq<Order>, quantities: seq<nat>, sequence: nat): (statuses: seq<OrderStatus>)
    requires |quantities| <= |makers| && forall i | 0 <= i < |quantities| :: quantities[i] <= makers[i].remaining
    ensures |statuses| == |quantities|
  {
    seq(|quantities|, i requires 0 <= i < |quantities| => MakerReport(makers[i], quantities[i], sequence + 1 + i))
  }

  function Taken(maker: Order, quantity: nat): Order
    requires quantity <= maker.remaining
  {
    Order(maker.command, maker.remaining - quantity, maker.notional + maker.command.price * quantity, Partial)
  }

  /** The makers left: whole ones go, a last one taken in part stays in front. */
  function Left(makers: seq<Order>, quantities: seq<nat>): seq<Order>
    requires |quantities| <= |makers|
  {
    var n := |quantities|;
    if n == 0 || quantities[n - 1] >= makers[n - 1].remaining then makers[n..]
    else [Taken(makers[n - 1], quantities[n - 1])] + makers[n..]
  }

  // Matching.

  /** What matching made of m, fill by fill. */
  predicate Filling(fees: FeeResolver, m: Matching, done: Matching, quantities: seq<nat>) {
    var cmd, n := m.taker.command, |quantities|;
    && InTurn(cmd, m.makers, quantities) && Summed(quantities) <= m.taker.remaining
    && (Summed(quantities) < m.taker.remaining ==> Exhausted(cmd, m.makers, quantities))
    && done.trades == m.trades + TradesOf(fees, cmd, m.makers, quantities, m.tradeSequence)
    && done.statuses == m.statuses + StatusesOf(m.makers, quantities, m.statusSequence)
    && done.makers == Left(m.makers, quantities)
    && done.taker == Order(cmd, m.taker.remaining - Summed(quantities), m.taker.notional + Worth(m.makers, quantities),
                           m.taker.status)
    && done.tradeSequence == m.tradeSequence + n && done.statusSequence == m.statusSequence + n
    && done.bookSequence == m.bookSequence + n
  }

  predicate Positive(makers: seq<Order>) {
    forall i | 0 <= i < |makers| :: makers[i].remaining > 0
  }

  lemma ReachesTradable(cmd: OrderCommand, price: nat)
    ensures Reaches(cmd, price) <==> Tradable(cmd, price)
  {
  }

  /** On a sorted side, behind an order out of reach all are. */
  lemma OutOfReach(cmd: OrderCommand, makers: seq<Order>, i: nat, j: nat)
    requires Sorted(makers, OppositeSide(cmd.side)) && i <= j < |makers| && !Tradable(cmd, makers[i].command.price)
    ensures !Tradable(cmd, makers[j].command.price)
  {
    if i < j {
      assert !Better(OppositeSide(cmd.side), makers[j].Price(), makers[i].Price());
    }
  }

  lemma NoFilling(fees: FeeResolver, m: Matching)
    requires !m.CanFill() && Sorted(m.makers, OppositeSide(m.taker.command.side))
    ensures Filling(fees, m, m, [])
  {
    var cmd := m.taker.command;
    if m.taker.remaining > 0 {
      forall i | 0 <= i < |m.makers| ensures !Tradable(cmd, m.makers[i].command.price) {
        ReachesTradable(cmd, m.makers[0].Price());
        OutOfReach(cmd, m.makers, 0, i);
      }
    }
    assert m.makers[0..] == m.makers;
  }

  lemma TradesCons(fees: FeeResolver, cmd: OrderCommand, makers: seq<Order>, q: nat, rest: seq<nat>, sequence: nat)
    requires |rest| < |makers|
    ensures TradesOf(fees, cmd, makers, [q] + rest, sequence)
         == TradesOf(fees, cmd, makers, [q], sequence) + TradesOf(fees, cmd, makers[1..], rest, sequence + 1)
  {
  }

  lemma StatusesCons(makers: seq<Order>, q: nat, rest: seq<nat>, sequence: nat)
    requires |rest| < |makers| && q <= makers[0].remaining
    requires forall i | 0 <= i < |rest| :: rest[i] <= makers[1..][i].remaining
    ensures (forall i | 0 <= i < |[q] + rest| :: ([q] + rest)[i] <= makers[i].remaining)
    ensures StatusesOf(makers, [q] + rest, sequence)
         == StatusesOf(makers, [q], sequence) + StatusesOf(makers[1..], rest, sequence + 1)
  {
    hide MakerReport;
    var qs := [q] + rest;
    forall i | 0 <= i < |qs| ensures qs[i] <= makers[i].remaining {
      if i > 0 {
        assert qs[i] == rest[i - 1] && makers[i] == makers[1..][i - 1];
      }
    }
  }

  lemma InTurnCons(cmd: OrderCommand, makers: seq<Order>, rest: seq<nat>)
    requires makers != [] && makers[0].remaining > 0 && Tradable(cmd, makers[0].command.price)
    requires InTurn(cmd, makers[1..], rest)
    ensures InTurn(cmd, makers, [makers[0].remaining] + rest)
  {
    hide Tradable;
    var qs, more := [makers[0].remaining] + rest, makers[1..];
    forall i | 0 <= i < |qs|
      ensures 0 < qs[i] <= makers[i].remaining && Tradable(cmd, makers[i].command.price)
    {
      if i > 0 {
        assert qs[i] == rest[i - 1] && makers[i] == more[i - 1];
      }
    }
    forall i | 0 <= i < |qs| - 1 ensures qs[i] == makers[i].remaining {
      if i > 0 {
        assert qs[i] == rest[i - 1] && makers[i] == more[i - 1];
      }
    }
  }

  lemma ExhaustedCons(cmd: OrderCommand, makers: seq<Order>, rest: seq<nat>)
    requires |rest| < |makers| && Exhausted(cmd, makers[1..], rest)
    ensures Exhausted(cmd, makers, [makers[0].remaining] + rest)
  {
    hide Tradable;
    var qs, more := [makers[0].remaining] + rest, makers[1..];
    forall i | 0 <= i < |qs| ensures qs[i] == makers[i].remaining {
      if i > 0 {
        assert qs[i] == rest[i - 1] && makers[i] == more[i - 1];
      }
    }
    forall i | |qs| <= i < |makers| ensures !Tradable(cmd, makers[i].command.price) {
      assert makers[i] == more[i - 1];
    }
  }

  lemma LeftCons(makers: seq<Order>, rest: seq<nat>)
    requires |rest| < |makers|
    ensures Left(makers, [makers[0].remaining] + rest) == Left(makers[1..], rest)
  {
    var qs, n := [makers[0].remaining] + rest, |rest|;
    assert makers[1..][n..] == makers[n + 1..];
    if n > 0 {
      assert qs[n] == rest[n - 1] && makers[n] == makers[1..][n - 1];
    }
  }

  /** A first fill that takes its maker whole. */
  lemma WholeFill(fees: FeeResolver, m: Matching, done: Matching, rest: seq<nat>)
    requires m.CanFill() && 0 < m.makers[0].remaining <= m.taker.remaining
    requires Filling(fees, FillOne(fees, m), done, rest)
    ensures Filling(fees, m, done, [m.makers[0].remaining] + rest)
  {
    hide InTurn, Exhausted, Left, TradesOf, StatusesOf, Worth, Summed, FillOne, Tradable, Reaches;
    var q, cmd := m.makers[0].remaining, m.taker.command;
    NextMakers(fees, m);
    ReachesTradable(cmd, m.makers[0].Price());
    InTurnCons(cmd, m.makers, rest);
    FirstFill(fees, m);
    InTurnBounds(cmd, m.makers[1..], rest);
    InTurnBounds(cmd, m.makers, [q] + rest);
    if Summed(rest) < m.taker.remaining - q {
      ExhaustedCons(cmd, m.makers, rest);
    }
    LeftCons(m.makers, rest);
    TradesCons(fees, cmd, m.makers, q, rest, m.tradeSequence);
    StatusesCons(m.makers, q, rest, m.statusSequence);
    SummedCons(m.makers, q, rest);
    assert m.trades + (TradesOf(fees, cmd, m.makers, [q], m.tradeSequence)
                       + TradesOf(fees, cmd, m.makers[1..], rest, m.tradeSequence + 1))
        == m.trades + TradesOf(fees, cmd, m.makers, [q], m.tradeSequence)
           + TradesOf(fees, cmd, m.makers[1..], rest, m.tradeSequence + 1);
    assert m.statuses + (StatusesOf(m.makers, [q], m.statusSequence)
                         + StatusesOf(m.makers[1..], rest, m.statusSequence + 1))
        == m.statuses + StatusesOf(m.makers, [q], m.statusSequence)
           + StatusesOf(m.makers[1..], rest, m.statusSequence + 1);
  }

  lemma InTurnBounds(cmd: OrderCommand, makers: seq<Order>, quantities: seq<nat>)
    requires InTurn(cmd, makers, quantities)
    ensures |quantities| <= |makers| && forall i | 0 <= i < |quantities| :: quantities[i] <= makers[i].remaining
  {
  }

  lemma SummedCons(makers: seq<Order>, q: nat, rest: seq<nat>)
    requires |rest| < |makers|
    ensures Summed([q] + rest) == q + Summed(rest)
    ensures Worth(makers, [q] + rest) == makers[0].command.price * q + Worth(makers[1..], rest)
  {
    assert ([q] + rest)[1..] == rest;
  }

  /** One fill's trade, status and taker. */
  lemma FirstFill(fees: FeeResolver, m: Matching)
    requires m.CanFill()
    ensures var q, next := Min(m.taker.remaining, m.makers[0].remaining), FillOne(fees, m);
      && q <= m.makers[0].remaining
      && next.trades == m.trades + TradesOf(fees, m.taker.command, m.makers, [q], m.tradeSequence)
      && next.statuses == m.statuses + StatusesOf(m.makers, [q], m.statusSequence)
      && next.taker == Order(m.taker.command, m.taker.remaining - q, m.taker.notional + m.makers[0].command.price * q,
                             m.taker.status)
      && next.tradeSequence == m.tradeSequence + 1 && next.statusSequence == m.statusSequence + 1
      && next.bookSequence == m.bookSequence + 1
  {
  }

  /** A fill that ends the taker. */
  lemma LastFill(fees: FeeResolver, m: Matching)
    requires m.CanFill() && m.taker.remaining <= m.makers[0].remaining
    ensures Filling(fees, m, FillOne(fees, m), [m.taker.remaining])
  {
    var q, next := m.taker.remaining, FillOne(fees, m);
    ReachesTradable(m.taker.command, m.makers[0].Price());
    FirstFill(fees, m);
    assert Summed([q]) == q && Worth(m.makers, [q]) == m.makers[0].command.price * q by {
      SummedCons(m.makers, q, []);
      assert [q] + [] == [q];
    }
  }

  lemma {:induction false} FillAllFills(fees: FeeResolver, m: Matching) returns (quantities: seq<nat>)
    requires Positive(m.makers) && Sorted(m.makers, OppositeSide(m.taker.command.side))
    ensures Filling(fees, m, FillAll(fees, m), quantities)
    decreases |m.makers|
  {
    hide Filling, FillOne;
    if !m.CanFill() {
      NoFilling(fees, m);
      quantities := [];
    } else if m.taker.remaining <= m.makers[0].remaining {
      LastFill(fees, m);
      TakerEnds(fees, m);
      quantities := [m.taker.remaining];
    } else {
      NextMakers(fees, m);
      var rest := FillAllFills(fees, FillOne(fees, m));
      WholeFill(fees, m, FillAll(fees, m), rest);
      quantities := [m.makers[0].remaining] + rest;
    }
  }

  lemma TakerEnds(fees: FeeResolver, m: Matching)
    requires m.CanFill() && m.taker.remaining <= m.makers[0].remaining
    ensures FillAll(fees, m) == FillOne(fees, m)
  {
  }

  lemma NextMakers(fees: FeeResolver, m: Matching)
    requires m.CanFill() && m.makers[0].remaining <= m.taker.remaining
    ensures FillOne(fees, m).makers == m.makers[1..] && FillOne(fees, m).taker.command == m.taker.command
  {
  }

  // Turning an order away.

  lemma {:induction false} NoneOffered(cmd: OrderCommand, makers: seq<Order>)
    requires forall i | 0 <= i < |makers| :: !Tradable(cmd, makers[i].command.price)
    ensures Offered(cmd, makers) == 0
  {
    if makers != [] {
      NoneOffered(cmd, makers[1..]);
    }
  }

  lemma {:induction false} EligibleOffered(cmd: OrderCommand, makers: seq<Order>)
    requires Sorted(makers, OppositeSide(cmd.side))
    ensures Total(Eligible(cmd, makers)) == Offered(cmd, makers)
  {
    if makers != [] {
      ReachesTradable(cmd, makers[0].Price());
      if Tradable(cmd, makers[0].command.price) {
        EligibleOffered(cmd, makers[1..]);
        assert Eligible(cmd, makers)[1..] == Eligible(cmd, makers[1..]);
      } else {
        forall i | 0 <= i < |makers| ensures !Tradable(cmd, makers[i].command.price) {
          OutOfReach(cmd, makers, 0, i);
        }
        NoneOffered(cmd, makers);
      }
    }
  }

  lemma {:induction false} LevelResting(orders: seq<Order>, price: nat)
    ensures LevelTotal(orders, price) == Resting(orders, price)
  {
    if orders != [] {
      LevelResting(orders[1..], price);
    }
  }

  lemma CrossesTradable(b: Book, cmd: OrderCommand)
    requires BookOk(b)
    ensures b.Crosses(cmd) <==>
      exists i :: 0 <= i < |Makers(b, cmd)| && Tradable(cmd, Makers(b, cmd)[i].command.price)
  {
    hide Tradable, Reaches, RestingOk, LevelTotal;
    var makers := Makers(b, cmd);
    if makers != [] {
      ReachesTradable(cmd, makers[0].Price());
      if i :| 0 <= i < |makers| && Tradable(cmd, makers[i].command.price) {
        if !Tradable(cmd, makers[0].command.price) {
          OutOfReach(cmd, makers, 0, i);
        }
      }
    }
  }

  /** A new order is turned away exactly when the command and the book say so. */
  lemma RefusedExactly(b: Book, cmd: OrderCommand)
    requires BookOk(b)
    ensures Refused(b, cmd) <==> Declined(b, cmd)
  {
    hide Tradable, Reaches, RestingOk, LevelTotal, Sorted, Eligible, Total, Offered;
    CrossesTradable(b, cmd);
    EligibleOffered(cmd, Makers(b, cmd));
  }

  // A whole order.

  /** An order already there keeps its place before a newcomer with no better price. */
  predicate GoesFirst(earlier: Order, o: Order) {
    match o.command.side
    case Buy => earlier.command.price >= o.command.price
    case Sell => earlier.command.price <= o.command.price
  }

  predicate Joins(before: seq<Order>, after: seq<Order>, o: Order, at: nat) {
    && at <= |before| && after == before[..at] + [o] + before[at..]
    && forall i | 0 <= i < |before| :: i < at <==> GoesFirst(before[i], o)
  }

  /** The rest of an order stays if it is good till cancelled and its price level still fits 64 bits. */
  predicate Stays(b: Book, cmd: OrderCommand, left: nat) {
    left > 0 && cmd.tif == GTC && Resting(Queue(b, cmd), cmd.price) + left <= 0xFFFF_FFFF_FFFF_FFFF
  }

  function StatusOf(taken: nat, left: nat, stays: bool): Status {
    if left == 0 then Filled
    else if stays then if taken == 0 then Open else Partial
    else if taken == 0 then Rejected else Canceled
  }

  /** The order took these quantities from the first makers; this is all it did. */
  ghost predicate Executed(fees: FeeResolver, b: Book, cmd: OrderCommand, b': Book, out: Outcome,
                           quantities: seq<nat>) {
    var makers, taken, n := Makers(b, cmd), Summed(quantities), |quantities|;
    && InTurn(cmd, makers, quantities) && taken == Min(cmd.quantity, Offered(cmd, makers))
    && var left, worth := cmd.quantity - taken, Worth(makers, quantities);
       var stays := Stays(b, cmd, left);
       var status := StatusOf(taken, left, stays);
       && out.trades == TradesOf(fees, cmd, makers, quantities, b.tradeSequence)
       && out.statuses == StatusesOf(makers, quantities, b.statusSequence)
                          + [ReportOf(cmd, left, worth, status, b.statusSequence + n + 1)]
       && !out.duplicate && b'.capacity == b.capacity && b'.seen == b.seen + {cmd.id}
       && b'.tradeSequence == b.tradeSequence + n && b'.statusSequence == b.statusSequence + n + 1
       && b'.bookSequence == b.bookSequence + n + (if stays then 1 else 0)
       && Makers(b', cmd) == Left(makers, quantities)
       && if stays then exists at :: Joins(Queue(b, cmd), Queue(b', cmd), Order(cmd, left, worth, status), at)
          else Queue(b', cmd) == Queue(b, cmd)
  }

  lemma {:induction false} SummedOffered(cmd: OrderCommand, makers: seq<Order>, quantities: seq<nat>)
    requires InTurn(cmd, makers, quantities)
    ensures Summed(quantities) <= Offered(cmd, makers)
    ensures Exhausted(cmd, makers, quantities) ==> Summed(quantities) == Offered(cmd, makers)
    decreases |makers|
  {
    if quantities == [] {
      if Exhausted(cmd, makers, quantities) {
        NoneOffered(cmd, makers);
      }
    } else {
      var more, rest := makers[1..], quantities[1..];
      assert forall i | 0 <= i < |more| :: more[i] == makers[i + 1];
      assert forall i | 0 <= i < |rest| :: rest[i] == quantities[i + 1];
      assert InTurn(cmd, more, rest);
      SummedOffered(cmd, more, rest);
    }
  }

  lemma InsertJoins(orders: seq<Order>, o: Order)
    requires Sorted(orders, o.command.side)
    ensures Joins(orders, Insert(orders, o), o, Place(orders, o))
  {
    InsertAtPlace(orders, o);
    var at := Place(orders, o);
    forall i | at <= i < |orders| ensures Better(o.command.side, o.Price(), orders[i].Price()) {
      if i > at {
        assert !Better(o.command.side, orders[i].Price(), orders[at].Price());
      }
    }
  }

  /** The order was seen before and nothing happens; or it is turned away; or it takes what it can. */
  ghost predicate Responds(fees: FeeResolver, b: Book, cmd: OrderCommand, b': Book, out: Outcome) {
    if cmd.id != "" && cmd.id in b.seen then b' == b && out == Outcome([], [], true)
    else if Declined(b, cmd) then
      && b' == b.(seen := if cmd.id == "" then b.seen else b.seen + {cmd.id}, statusSequence := b.statusSequence + 1)
      && out == Outcome([], [ReportOf(cmd, cmd.quantity, 0, Rejected, b.statusSequence + 1)], false)
    else exists quantities :: Executed(fees, b, cmd, b', out, quantities)
  }

  lemma FinishLeaves(fees: FeeResolver, b: Book, cmd: OrderCommand, m: Matching, quantities: seq<nat>)
    requires BookOk(b) && cmd.id != "" && m.taker.remaining <= cmd.quantity
    requires Filling(fees, Start(b, cmd), m, quantities)
    requires Summed(quantities) == Min(cmd.quantity, Offered(cmd, Makers(b, cmd)))
    requires !Stays(b, cmd, m.taker.remaining)
    ensures var (b', out) := Finish(Settle(Remember(b, cmd.id), m), m); Executed(fees, b, cmd, b', out, quantities)
  {
    hide InTurn, Exhausted, Left, TradesOf, StatusesOf, Worth, Summed, Offered, Insert, LevelTotal, Joins, SideOk,
      Resting;
    hide ReportOf;
    LevelResting(Queue(b, cmd), cmd.price);
    TakenReport(cmd, m.taker, b.statusSequence + |quantities| + 1);
    NothingTaken(cmd, Makers(b, cmd), quantities);
  }

  lemma FinishRests(b: Book, cmd: OrderCommand, m: Matching)
    requires BookOk(b) && m.taker.command == cmd && Stays(b, cmd, m.taker.remaining)
      && m.makers == Makers(Settle(b, m), cmd)
    ensures var rested := m.taker.(status := if m.taker.remaining == cmd.quantity then Open else Partial);
      var (b', out) := Finish(Settle(Remember(b, cmd.id), m), m);
      && Joins(Queue(b, cmd), Queue(b', cmd), rested, Place(Queue(b, cmd), rested)) && Makers(b', cmd) == m.makers
      && out == Outcome(m.trades, m.statuses + [rested.Report(m.statusSequence + 1, rested.status)], false)
      && b'.bookSequence == m.bookSequence + 1 && b'.statusSequence == m.statusSequence + 1
      && b'.tradeSequence == m.tradeSequence && b'.seen == Remember(b, cmd.id).seen && b'.capacity == b.capacity
  {
    hide Insert, LevelTotal, Joins, SideOk, Resting;
    var own, settled := Queue(b, cmd), Settle(Remember(b, cmd.id), m);
    LevelResting(own, cmd.price);
    assert settled.Own(cmd.side) == own && Rests(settled, m.taker);
    var rested := m.taker.(status := if m.taker.remaining == cmd.quantity then Open else Partial);
    SideSorted(own, cmd.side, b.seen);
    InsertJoins(own, rested);
    var (b', out) := Finish(settled, m);
    assert Queue(b', cmd) == Insert(own, rested);
    assert Makers(b', cmd) == m.makers;
    assert out.trades == m.trades;
    assert out.statuses == m.statuses + [rested.Report(m.statusSequence + 1, rested.status)];
  }

  lemma FinishStays(fees: FeeResolver, b: Book, cmd: OrderCommand, m: Matching, quantities: seq<nat>)
    requires BookOk(b) && cmd.id != "" && m.taker.remaining <= cmd.quantity
    requires Filling(fees, Start(b, cmd), m, quantities)
    requires Summed(quantities) == Min(cmd.quantity, Offered(cmd, Makers(b, cmd)))
    requires Stays(b, cmd, m.taker.remaining)
    ensures var (b', out) := Finish(Settle(Remember(b, cmd.id), m), m); Executed(fees, b, cmd, b', out, quantities)
  {
    hide InTurn, Exhausted, Left, TradesOf, StatusesOf, Worth, Summed, Offered, Joins, SideOk, Stays, ReportOf, Finish;
    FinishRests(b, cmd, m);
    var rested := m.taker.(status := if m.taker.remaining == cmd.quantity then Open else Partial);
    TakenReport(cmd, rested, b.statusSequence + |quantities| + 1);
    NothingTaken(cmd, Makers(b, cmd), quantities);
    LeftOver(b, cmd, m.taker.remaining);
  }

  lemma LeftOver(b: Book, cmd: OrderCommand, left: nat)
    requires Stays(b, cmd, left)
    ensures left > 0
  {
  }

  lemma SideSorted(orders: seq<Order>, side: Side, ids: set<string>)
    requires SideOk(orders, side, ids)
    ensures Sorted(orders, side)
  {
  }

  lemma NothingTaken(cmd: OrderCommand, makers: seq<Order>, quantities: seq<nat>)
    requires InTurn(cmd, makers, quantities)
    ensures Summed(quantities) == 0 <==> quantities == []
  {
  }

  lemma TakenReport(cmd: OrderCommand, o: Order, sequence: nat)
    requires o.command == cmd && o.remaining <= cmd.quantity
    ensures forall status :: o.Report(sequence, status) == ReportOf(cmd, o.remaining, o.notional, status, sequence)
  {
  }

  /** An order does exactly this, whatever the book. */
  lemma SubmitExactly(fees: FeeResolver, b: Book, cmd: OrderCommand)
    requires BookOk(b)
    ensures Responds(fees, b, cmd, Submit(fees, b, cmd).0, Submit(fees, b, cmd).1)
  {
    hide FillAll, Finish, Executed, Declined, Refused, Filling;
    RefusedExactly(b, cmd);
    if !Duplicate(b, cmd) && !Refused(b, cmd) {
      var m := Start(b, cmd);
      StartSound(b, cmd);
      var quantities := FillAllFills(fees, m);
      FillingTakes(fees, b, cmd, FillAll(fees, m), quantities);
      if Stays(b, cmd, FillAll(fees, m).taker.remaining) {
        FinishStays(fees, b, cmd, FillAll(fees, m), quantities);
      } else {
        FinishLeaves(fees, b, cmd, FillAll(fees, m), quantities);
      }
    }
  }

  lemma StartSound(b: Book, cmd: OrderCommand)
    requires BookOk(b)
    ensures Positive(Start(b, cmd).makers) && Sorted(Start(b, cmd).makers, OppositeSide(cmd.side))
    ensures !Refused(b, cmd) ==> cmd.id != ""
  {
  }

  lemma FillingTakes(fees: FeeResolver, b: Book, cmd: OrderCommand, done: Matching, quantities: seq<nat>)
    requires Filling(fees, Start(b, cmd), done, quantities)
    ensures Summed(quantities) == Min(cmd.quantity, Offered(cmd, Makers(b, cmd)))
      && done.taker.remaining <= cmd.quantity
  {
    hide TradesOf, StatusesOf, Left, Worth;
    SummedOffered(cmd, Makers(b, cmd), quantities);
  }

  // Market orders.

  function Whole(orders: seq<Order>): nat {
    if orders == [] then 0 else orders[0].remaining + Whole(orders[1..])
  }

  lemma {:induction false} MarketOffered(cmd: OrderCommand, makers: seq<Order>)
    requires cmd.kind == Market
    ensures Offered(cmd, makers) == Whole(makers)
  {
    if makers != [] {
      MarketOffered(cmd, makers[1..]);
    }
  }

  lemma {:induction false} TradedSummed(fees: FeeResolver, cmd: OrderCommand, makers: seq<Order>, quantities: seq<nat>,
                                        sequence: nat)
    requires |quantities| <= |makers|
    ensures Greedy.TradedSum(TradesOf(fees, cmd, makers, quantities, sequence)) == Summed(quantities)
    decreases |quantities|
  {
    if quantities != [] {
      TradedSummed(fees, cmd, makers[1..], quantities[1..], sequence + 1);
      assert TradesOf(fees, cmd, makers, quantities, sequence)[1..]
          == TradesOf(fees, cmd, makers[1..], quantities[1..], sequence + 1);
    }
  }

  /** A new immediate market order on a book with room takes what it wants or the whole opposite side. */
  lemma MarketTakes(fees: FeeResolver, b: Book, cmd: OrderCommand)
    requires BookOk(b) && cmd.id !in b.seen && cmd.id != "" && cmd.userId != "" && cmd.quantity > 0
    requires cmd.kind == Market && cmd.tif == IOC && !cmd.postOnly && |b.bids| + |b.asks| < b.capacity
    ensures var out, all := Submit(fees, b, cmd).1, Whole(if cmd.side == Buy then b.asks else b.bids);
      && Greedy.TradedSum(out.trades) == Min(cmd.quantity, all)
      && out.statuses != []
      && out.statuses[|out.statuses| - 1].status
         == if all >= cmd.quantity then Filled else if all > 0 then Canceled else Rejected
  {
    hide InTurn, TradesOf, StatusesOf, Worth, Left, Submit, Summed, Offered, SideOk, Joins, Resting, Uncrossed;
    SubmitExactly(fees, b, cmd);
    var (b', out) := Submit(fees, b, cmd);
    var makers := Makers(b, cmd);
    MarketOffered(cmd, makers);
    var quantities :| Executed(fees, b, cmd, b', out, quantities);
    InTurnBounds(cmd, makers, quantities);
    TradedSummed(fees, cmd, makers, quantities, b.tradeSequence);
  }

  // Cancels.

  /** The order at position k is gone and reported as canceled with what it had left. */
  predicate Withdrawn(orders: seq<Order>, orders': seq<Order>, id: string, b: Book, b': Book, out: Outcome, k: nat) {
    && k < |orders| && orders[k].command.id == id && orders' == orders[..k] + orders[k + 1..]
    && orders[k].remaining <= orders[k].command.quantity
    && b'.statusSequence == b.statusSequence + 1 && b'.bookSequence == b.bookSequence + 1
    && b'.tradeSequence == b.tradeSequence && b'.seen == b.seen && b'.capacity == b.capacity
    && out == Outcome([], [ReportOf(orders[k].command, orders[k].remaining, orders[k].notional, Canceled,
                                    b.statusSequence + 1)], false)
  }

  predicate IsResting(b: Book, id: string) {
    || (exists k :: 0 <= k < |b.bids| && b.bids[k].command.id == id)
    || (exists k :: 0 <= k < |b.asks| && b.asks[k].command.id == id)
  }

  lemma LeftInBounds(orders: seq<Order>, side: Side, ids: set<string>, k: nat)
    requires SideOk(orders, side, ids) && k < |orders|
    ensures orders[k].remaining <= orders[k].command.quantity
  {
    assert RestingOk(orders[k], side);
  }

  lemma NoneResting(b: Book, id: string)
    ensures Find(b.bids, id) == -1 && Find(b.asks, id) == -1 ==> !IsResting(b, id)
  {
  }

  ghost predicate Withdraws(b: Book, id: string, b': Book, out: Outcome) {
    || (!IsResting(b, id) && b' == b && out == Outcome([], [], false))
    || (b'.asks == b.asks && exists k :: Withdrawn(b.bids, b'.bids, id, b, b', out, k))
    || (b'.bids == b.bids && exists k :: Withdrawn(b.asks, b'.asks, id, b, b', out, k))
  }

  /** A cancel takes the resting order with this id out of the book, or does nothing if there is none. */
  lemma CancelExactly(b: Book, id: string)
    requires BookOk(b)
    ensures Withdraws(b, id, Cancel(b, id).0, Cancel(b, id).1)
  {
    hide Find, SideOk, Apart, Uncrossed, ReportOf, IsResting;
    var (b', out) := Cancel(b, id);
    var i, j := Find(b.bids, id), Find(b.asks, id);
    NoneResting(b, id);
    if i >= 0 {
      LeftInBounds(b.bids, Buy, b.seen, i);
      TakenReport(b.bids[i].command, b.bids[i], b.statusSequence + 1);
      assert Withdrawn(b.bids, b'.bids, id, b, b', out, i);
    } else if j >= 0 {
      LeftInBounds(b.asks, Sell, b.seen, j);
      TakenReport(b.asks[j].command, b.asks[j], b.statusSequence + 1);
      assert Withdrawn(b.asks, b'.asks, id, b, b', out, j);
    }
  }
}
