/** Matching fills the opposite side greedily: best price first, oldest first, up to the limit. */
module Greedy {
  import opened Arithmetic
  import opened BookTypes
  import opened BookSpec
  import opened BookInvariant

  datatype Fill = Fill(maker: OrderCommand, quantity: nat)

  /** The simple specification: take from each reachable maker in turn until nothing is wanted. */
  function Fills(cmd: OrderCommand, makers: seq<Order>, wanted: nat): seq<Fill>
    decreases |makers|
  {
    if wanted == 0 || makers == [] || !Reaches(cmd, makers[0].Price()) then []
    else
      var quantity := Min(wanted, makers[0].remaining);
      [Fill(makers[0].command, quantity)] + Fills(cmd, makers[1..], wanted - quantity)
  }

  function Sum(fills: seq<Fill>): nat {
    if fills == [] then 0 else fills[0].quantity + Sum(fills[1..])
  }

  function Trades(fees: FeeResolver, sequence: nat, taker: OrderCommand, fills: seq<Fill>): seq<Trade> {
    seq(|fills|, k requires 0 <= k < |fills| =>
          MakeTrade(fees, sequence + 1 + k, fills[k].maker, taker, fills[k].quantity))
  }

  predicate Positive(orders: seq<Order>) {
    forall i | 0 <= i < |orders| :: orders[i].remaining > 0
  }

  /** After one fill, the remaining fills are those of what is left. */
  lemma FillsStep(fees: FeeResolver, m: Matching)
    requires Positive(m.makers) && m.CanFill()
    ensures var next, fills := FillOne(fees, m), Fills(m.taker.command, m.makers, m.taker.remaining);
      && fills == [Fill(m.makers[0].command, Min(m.taker.remaining, m.makers[0].remaining))]
                  + Fills(next.taker.command, next.makers, next.taker.remaining)
      && Positive(next.makers) && next.taker.command == m.taker.command
      && next.taker.remaining + Min(m.taker.remaining, m.makers[0].remaining) == m.taker.remaining
        > next.taker.remaining
      && |next.makers| <= |m.makers| && next.tradeSequence == m.tradeSequence + 1
      && next.trades
        == m.trades + [MakeTrade(fees, m.tradeSequence + 1, fills[0].maker, m.taker.command, fills[0].quantity)]
  {
    hide MakeTrade;
    var next := FillOne(fees, m);
    if m.makers[0].remaining <= m.taker.remaining {
      assert next.makers == m.makers[1..];
    } else {
      assert next.taker.remaining == 0;
    }
  }

  /** Nothing wanted is left on a maker that was not exhausted. */
  lemma {:induction false} FillAllIsGreedy(fees: FeeResolver, m: Matching)
    requires Positive(m.makers)
    ensures var fills := Fills(m.taker.command, m.makers, m.taker.remaining);
      && FillAll(fees, m).trades == m.trades + Trades(fees, m.tradeSequence, m.taker.command, fills)
      && FillAll(fees, m).tradeSequence == m.tradeSequence + |fills|
      && FillAll(fees, m).taker.remaining + Sum(fills) == m.taker.remaining
    decreases |m.makers|, m.taker.remaining
  {
    hide MakeTrade, Positive, FillOne, Fills, Trades;
    NoFills(fees, m);
    if m.CanFill() {
      var next := FillOne(fees, m);
      FillsStep(fees, m);
      FillAllIsGreedy(fees, next);
      var fills := Fills(m.taker.command, m.makers, m.taker.remaining);
      assert fills[1..] == Fills(next.taker.command, next.makers, next.taker.remaining);
      TradesCons(fees, m.tradeSequence, m.taker.command, fills);
      var t := MakeTrade(fees, m.tradeSequence + 1, fills[0].maker, m.taker.command, fills[0].quantity);
      var more := Trades(fees, next.tradeSequence, m.taker.command, fills[1..]);
      assert m.trades + [t] + more == m.trades + ([t] + more);
    }
  }

  lemma NoFills(fees: FeeResolver, m: Matching)
    ensures !m.CanFill() ==> Fills(m.taker.command, m.makers, m.taker.remaining) == []
    ensures Trades(fees, m.tradeSequence, m.taker.command, []) == []
  {
  }

  lemma TradesCons(fees: FeeResolver, sequence: nat, taker: OrderCommand, fills: seq<Fill>)
    requires fills != []
    ensures Trades(fees, sequence, taker, fills)
            == [MakeTrade(fees, sequence + 1, fills[0].maker, taker, fills[0].quantity)]
               + Trades(fees, sequence + 1, taker, fills[1..])
  {
  }

  // The closed form, independent of the order in which fills are computed.

  /** Fill k takes from maker k whatever the makers before it leave wanted. */
  predicate FillFits(fill: Fill, eligible: seq<Order>, wanted: nat, k: nat)
    requires k < |eligible|
  {
    && Total(eligible[..k]) < wanted
    && fill == Fill(eligible[k].command, Min(eligible[k].remaining, wanted - Total(eligible[..k])))
  }

  ghost predicate ClosedForm(fills: seq<Fill>, eligible: seq<Order>, wanted: nat) {
    && |fills| <= |eligible|
    && (forall k | 0 <= k < |fills| :: FillFits(fills[k], eligible, wanted, k))
    && (|fills| < |eligible| ==> Total(eligible[..|fills|]) >= wanted)
    && Sum(fills) == Min(wanted, Total(eligible))
  }

  lemma TotalCons(orders: seq<Order>, k: nat)
    requires 0 < k <= |orders|
    ensures Total(orders[..k]) == orders[0].remaining + Total(orders[1..][..k - 1])
  {
    assert orders[..k][1..] == orders[1..][..k - 1];
  }

  /** A fill of the later makers fits when the first one was taken whole. */
  lemma FillFitsCons(fill: Fill, eligible: seq<Order>, wanted: nat, k: nat)
    requires 0 < k < |eligible| && FillFits(fill, eligible[1..], wanted - Min(wanted, eligible[0].remaining), k - 1)
    ensures FillFits(fill, eligible, wanted, k)
  {
    TotalCons(eligible, k);
  }

  lemma ClosedFormCons(rest: seq<Fill>, eligible: seq<Order>, wanted: nat)
    requires eligible != [] && wanted > 0 && eligible[0].remaining > 0
    requires ClosedForm(rest, eligible[1..], wanted - Min(wanted, eligible[0].remaining))
    ensures ClosedForm([Fill(eligible[0].command, Min(wanted, eligible[0].remaining))] + rest, eligible, wanted)
  {
    var first := Fill(eligible[0].command, Min(wanted, eligible[0].remaining));
    var fills := [first] + rest;
    assert fills[1..] == rest && eligible[..0] == [];
    assert FillFits(first, eligible, wanted, 0);
    forall k | 0 <= k < |fills| ensures FillFits(fills[k], eligible, wanted, k) {
      if k > 0 {
        assert rest[k - 1] == fills[k];
        FillFitsCons(fills[k], eligible, wanted, k);
      }
    }
    hide FillFits;
    if |fills| < |eligible| {
      TotalCons(eligible, |fills|);
    }
    assert Total(eligible) == eligible[0].remaining + Total(eligible[1..]);
  }

  lemma {:induction false} FillsClosedForm(cmd: OrderCommand, makers: seq<Order>, wanted: nat)
    requires Positive(makers)
    ensures ClosedForm(Fills(cmd, makers, wanted), Eligible(cmd, makers), wanted)
    decreases |makers|
  {
    var eligible := Eligible(cmd, makers);
    if makers != [] && Reaches(cmd, makers[0].Price()) {
      if wanted == 0 {
        assert eligible[..0] == [];
      } else {
        var rest := Fills(cmd, makers[1..], wanted - Min(wanted, makers[0].remaining));
        FillsClosedForm(cmd, makers[1..], wanted - Min(wanted, makers[0].remaining));
        assert eligible[1..] == Eligible(cmd, makers[1..]);
        ClosedFormCons(rest, eligible, wanted);
      }
    }
  }

  /** The eligible orders are exactly the resting orders within the limit, wherever they stand. */
  lemma {:induction false} EligibleIsReach(cmd: OrderCommand, makers: seq<Order>)
    requires Sorted(makers, OppositeSide(cmd.side))
    ensures |Eligible(cmd, makers)| <= |makers|
    ensures Eligible(cmd, makers) == makers[..|Eligible(cmd, makers)|]
    ensures forall i | 0 <= i < |makers| :: i < |Eligible(cmd, makers)| <==>
      || cmd.kind == Market
      || (cmd.side == Buy && makers[i].command.price <= cmd.price)
      || (cmd.side == Sell && makers[i].command.price >= cmd.price)
  {
    if makers != [] && Reaches(cmd, makers[0].Price()) {
      EligibleIsReach(cmd, makers[1..]);
      var n := |Eligible(cmd, makers[1..])|;
      assert makers[..n + 1] == [makers[0]] + makers[1..][..n];
      forall i | 0 <= i < |makers| ensures i < n + 1 <==> Reaches(cmd, makers[i].Price()) {
        if i > 0 {
          assert makers[i] == makers[1..][i - 1];
        }
      }
    }
  }

  ghost predicate Accepted(b: Book, cmd: OrderCommand) {
    !Duplicate(b, cmd) && !Refused(b, cmd)
  }

  /**
   The trades of an accepted command: maker k is the k-th resting order within
   the limit, best price first and oldest first, filled at its own price for
   what the makers before it left wanted; min(quantity, eligible) is executed.
   */
  lemma MatchIsGreedy(fees: FeeResolver, b: Book, cmd: OrderCommand)
    requires BookOk(b) && Accepted(b, cmd)
    ensures var makers := b.Opposite(cmd.side);
      var eligible := Eligible(cmd, makers);
      var fills := Fills(cmd, makers, cmd.quantity);
      && ClosedForm(fills, eligible, cmd.quantity)
      && (forall i | 0 <= i < |makers| :: i < |eligible| <==>
            || cmd.kind == Market
            || (cmd.side == Buy && makers[i].command.price <= cmd.price)
            || (cmd.side == Sell && makers[i].command.price >= cmd.price))
      && eligible <= makers
      && Submit(fees, b, cmd).1.trades == Trades(fees, b.tradeSequence, cmd, fills)
  {
    hide Submit, Fills, Trades, ClosedForm, Eligible, RestingOk, LevelsFit, Refused, Uncrossed, Apart;
    var makers := b.Opposite(cmd.side);
    SubmitTrades(fees, b, cmd);
    MakersPositive(b, cmd);
    FillsClosedForm(cmd, makers, cmd.quantity);
    EligibleIsReach(cmd, makers);
  }

  lemma MakersPositive(b: Book, cmd: OrderCommand)
    requires BookOk(b)
    ensures Positive(b.Opposite(cmd.side)) && Sorted(b.Opposite(cmd.side), OppositeSide(cmd.side))
  {
  }

  lemma SubmitTrades(fees: FeeResolver, b: Book, cmd: OrderCommand)
    requires BookOk(b) && Accepted(b, cmd)
    ensures Submit(fees, b, cmd).1.trades
            == Trades(fees, b.tradeSequence, cmd, Fills(cmd, b.Opposite(cmd.side), cmd.quantity))
  {
    hide FillAll, Fills, Trades, Insert, LevelTotal, Eligible, Total;
    FillAllIsGreedy(fees, Start(b, cmd));
  }

  // Time in force and post-only.

  function Last(o: Outcome): OrderStatus
    requires o.statuses != []
  {
    o.statuses[|o.statuses| - 1]
  }

  /** A command that is not a duplicate gets an answer: its last status is about the submitted order. */
  lemma SubmitAnswers(fees: FeeResolver, b: Book, cmd: OrderCommand)
    requires BookOk(b) && !Duplicate(b, cmd)
    ensures Submit(fees, b, cmd).1.statuses != []
    ensures Last(Submit(fees, b, cmd).1).orderId == cmd.id
  {
    if !Refused(b, cmd) {
      StartOk(b, cmd);
      FillAllOk(fees, Start(b, cmd), b.Own(cmd.side), b.seen);
    }
  }

  function TradedSum(trades: seq<Trade>): nat {
    if trades == [] then 0 else trades[0].quantity + TradedSum(trades[1..])
  }

  lemma {:induction false} TradedSumOfFills(fees: FeeResolver, sequence: nat, taker: OrderCommand, fills: seq<Fill>)
    ensures TradedSum(Trades(fees, sequence, taker, fills)) == Sum(fills)
    decreases |fills|
  {
    if fills != [] {
      TradedSumOfFills(fees, sequence + 1, taker, fills[1..]);
      TradesCons(fees, sequence, taker, fills);
      assert Trades(fees, sequence, taker, fills)[1..] == Trades(fees, sequence + 1, taker, fills[1..]);
    }
  }

  /** What an accepted command executes, in total. */
  lemma ExecutedQuantity(fees: FeeResolver, b: Book, cmd: OrderCommand)
    requires BookOk(b) && Accepted(b, cmd)
    ensures var eligible := Total(Eligible(cmd, b.Opposite(cmd.side)));
      && TradedSum(Submit(fees, b, cmd).1.trades) == Min(cmd.quantity, eligible)
      && FillAll(fees, Start(b, cmd)).taker.remaining == cmd.quantity - Min(cmd.quantity, eligible)
  {
    MatchIsGreedy(fees, b, cmd);
    FillAllIsGreedy(fees, Start(b, cmd));
    TradedSumOfFills(fees, b.tradeSequence, cmd, Fills(cmd, b.Opposite(cmd.side), cmd.quantity));
  }

  /** Fill-or-kill fills completely or trades nothing. */
  lemma FillOrKill(fees: FeeResolver, b: Book, cmd: OrderCommand)
    requires BookOk(b) && cmd.tif.FOK? && !Duplicate(b, cmd)
    ensures var outcome := Submit(fees, b, cmd).1;
      && outcome.statuses != []
      && if Accepted(b, cmd)
         then TradedSum(outcome.trades) == cmd.quantity && Last(outcome).status == Filled
           && Last(outcome).remaining == 0
         else outcome.trades == [] && Last(outcome).status == Rejected && Last(outcome).remaining == cmd.quantity
  {
    if Accepted(b, cmd) {
      ExecutedQuantity(fees, b, cmd);
    }
  }

  /** A post-only order never takes. */
  lemma PostOnlyNeverTakes(fees: FeeResolver, b: Book, cmd: OrderCommand)
    requires BookOk(b) && cmd.postOnly
    ensures Submit(fees, b, cmd).1.trades == []
    ensures b.Crosses(cmd) && !Duplicate(b, cmd) ==> Last(Submit(fees, b, cmd).1).status == Rejected
  {
  }

  /** Only a good-till-cancelled order can rest; the side it would rest on is otherwise untouched. */
  lemma OnlyGtcRests(fees: FeeResolver, b: Book, cmd: OrderCommand)
    requires BookOk(b) && !cmd.tif.GTC?
    ensures Submit(fees, b, cmd).0.Own(cmd.side) == b.Own(cmd.side)
  {
    StartOk(b, cmd);
    FillAllOk(fees, Start(b, cmd), b.Own(cmd.side), b.seen);
  }
}
