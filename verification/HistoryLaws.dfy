/** What the lawful log of a run says about every order. */
module HistoryLaws {
  import opened BookTypes
  import opened BookSpec
  import opened BookInvariant
  import opened History

  lemma {:induction false} QuantityGrows(log: seq<Event>, id: string, j: nat, k: nat)
    requires j <= k <= |log|
    ensures Quantity(log[..j], id) <= Quantity(log[..k], id)
    decreases k
  {
    if j < k {
      QuantityGrows(log, id, j, k - 1);
      assert log[..k][..k - 1] == log[..k - 1];
    }
  }

  /** The filled quantity of an order never decreases from one status to a later one. */
  lemma FilledNeverDecreases(log: seq<Event>, placed: Placed, j: nat, k: nat)
    requires Lawful(log, placed) && j < k < |log| && log[j].Reported? && log[k].Reported?
    requires log[j].status.orderId == log[k].status.orderId != ""
    ensures 0 <= log[j].status.filled <= log[k].status.filled
    ensures log[k].status.filled + log[k].status.remaining == log[j].status.filled + log[j].status.remaining
  {
    assert EventOk(log[..j], log[j], placed) && EventOk(log[..k], log[k], placed);
    QuantityGrows(log, log[j].status.orderId, j, k);
  }

  /** Once an order is filled, cancelled or rejected, neither a trade nor a status mentions it again. */
  lemma NothingAfterTheEnd(log: seq<Event>, placed: Placed, id: string, j: nat, k: nat)
    requires Lawful(log, placed) && j < k < |log| && id != "" && Ends(log[j], id)
    ensures !Mentions(log[k], id)
  {
  }

  // Average prices.

  /** Every fill of this order so far was at a price between lo and hi. */
  predicate FillsWithin(log: seq<Event>, id: string, lo: nat, hi: nat) {
    forall k | 0 <= k < |log| && log[k].Traded? && Mentions(log[k], id) :: lo <= log[k].trade.price <= hi
  }

  lemma {:induction false} PaidWithin(log: seq<Event>, id: string, lo: nat, hi: nat)
    requires FillsWithin(log, id, lo, hi)
    ensures lo * Quantity(log, id) <= Paid(log, id) <= hi * Quantity(log, id)
  {
    if log != [] {
      var shorter, e := log[..|log| - 1], log[|log| - 1];
      PaidWithin(shorter, id, lo, hi);
      var total, share := Quantity(shorter, id), Share(e, id);
      Spread(lo, total, share);
      Spread(hi, total, share);
      if e.Traded? && Mentions(e, id) {
        Scale(lo, e.trade.price, share);
        Scale(e.trade.price, hi, share);
      }
    }
  }

  lemma Spread(a: nat, x: nat, y: nat)
    ensures a * (x + y) == a * x + a * y
  {
  }

  lemma Scale(a: nat, b: nat, q: nat)
    requires a <= b
    ensures a * q <= b * q
  {
  }

  lemma QuotientWithin(paid: nat, filled: nat, lo: nat, hi: nat)
    requires filled > 0 && lo * filled <= paid <= hi * filled
    ensures lo <= paid / filled <= hi
  {
    var q := paid / filled;
    assert q * filled <= paid < (q + 1) * filled;
    assert (hi + 1) * filled == hi * filled + filled;
    if q < lo {
      Scale(q + 1, lo, filled);
    }
    if q > hi {
      Scale(hi + 1, q, filled);
    }
  }

  /** A reported average lies between the lowest and the highest price the order was filled at. */
  lemma AverageWithinFills(log: seq<Event>, placed: Placed, k: nat, lo: nat, hi: nat)
    requires Lawful(log, placed) && k < |log| && log[k].Reported? && log[k].status.orderId != ""
    requires log[k].status.filled > 0 && FillsWithin(log[..k], log[k].status.orderId, lo, hi)
    ensures lo <= log[k].status.averagePrice <= hi
  {
    var s := log[k].status;
    assert EventOk(log[..k], log[k], placed);
    PaidWithin(log[..k], s.orderId, lo, hi);
    QuotientWithin(Paid(log[..k], s.orderId), s.filled, lo, hi);
  }

  lemma FillPrices(log: seq<Event>, placed: Placed, k: nat, id: string)
    requires Lawful(log, placed) && k < |log| && log[k].Traded? && Mentions(log[k], id)
    ensures id in placed
    ensures log[k].trade.makerId == id ==> log[k].trade.price == placed[id].price
    ensures log[k].trade.takerId == id ==> Reaches(placed[id], log[k].trade.price)
  {
  }

  lemma {:induction false} FillCeiling(log: seq<Event>, id: string, n: nat) returns (hi: nat)
    requires n <= |log|
    ensures FillsWithin(log[..n], id, 0, hi)
  {
    if n == 0 {
      hi := 0;
    } else {
      var h := FillCeiling(log, id, n - 1);
      hi := if log[n - 1].Traded? && log[n - 1].trade.price > h then log[n - 1].trade.price else h;
      forall k | 0 <= k < n && log[..n][k].Traded? && Mentions(log[..n][k], id)
        ensures 0 <= log[..n][k].trade.price <= hi
      {
        if k < n - 1 {
          assert log[..n - 1][k] == log[..n][k];
        }
      }
    }
  }

  predicate WithinLimit(cmd: OrderCommand, price: int) {
    if cmd.side.Buy? then price <= cmd.price else price >= cmd.price
  }

  /** The average of a limit order never breaks its limit. */
  lemma AverageWithinLimit(log: seq<Event>, placed: Placed, k: nat)
    requires Lawful(log, placed) && k < |log| && log[k].Reported? && log[k].status.orderId != ""
    requires log[k].status.filled > 0
    ensures log[k].status.orderId in placed
    ensures var cmd := placed[log[k].status.orderId];
      cmd.kind.Limit? ==> WithinLimit(cmd, log[k].status.averagePrice)
  {
    var s := log[k].status;
    var id := s.orderId;
    assert EventOk(log[..k], log[k], placed);
    var cmd := placed[id];
    if cmd.kind.Limit? {
      var ceiling := FillCeiling(log, id, k);
      var lo := if cmd.side.Buy? then 0 else cmd.price;
      var hi := if cmd.side.Buy? then cmd.price else if ceiling > cmd.price then ceiling else cmd.price;
      forall i | 0 <= i < k && log[..k][i].Traded? && Mentions(log[..k][i], id)
        ensures lo <= log[..k][i].trade.price <= hi
      {
        FillPrices(log, placed, i, id);
      }
      AverageWithinFills(log, placed, k, lo, hi);
    }
  }

  /** An order that never took has its own price as its average. */
  lemma MakerAverage(log: seq<Event>, placed: Placed, k: nat)
    requires Lawful(log, placed) && k < |log| && log[k].Reported? && log[k].status.orderId != ""
    requires log[k].status.filled > 0
    requires forall i | 0 <= i < k && log[i].Traded? :: log[i].trade.takerId != log[k].status.orderId
    ensures log[k].status.orderId in placed && log[k].status.averagePrice == placed[log[k].status.orderId].price
  {
    var id := log[k].status.orderId;
    assert EventOk(log[..k], log[k], placed);
    var price := placed[id].price;
    forall i | 0 <= i < k && log[..k][i].Traded? && Mentions(log[..k][i], id)
      ensures price <= log[..k][i].trade.price <= price
    {
      FillPrices(log, placed, i, id);
    }
    AverageWithinFills(log, placed, k, price, price);
  }

  // Numbering.

  function TradesOf(log: seq<Event>): seq<Trade> {
    if log == [] then []
    else TradesOf(log[..|log| - 1]) + if log[|log| - 1].Traded? then [log[|log| - 1].trade] else []
  }

  /** The trades of a run are numbered 1, 2, 3 and so on, without gaps. */
  lemma {:induction false} TradesNumbered(log: seq<Event>, placed: Placed)
    requires Lawful(log, placed)
    ensures |TradesOf(log)| == TradeCount(log)
    ensures forall i | 0 <= i < |TradesOf(log)| :: TradesOf(log)[i].sequence == i + 1
  {
    if log != [] {
      var shorter := log[..|log| - 1];
      LawfulPart(log, placed);
      TradesNumbered(shorter, placed);
    }
  }

  // Terminal statuses, and the one id that escapes the rule.

  function Terminals(log: seq<Event>, id: string): nat {
    if log == [] then 0 else Terminals(log[..|log| - 1], id) + if Ends(log[|log| - 1], id) then 1 else 0
  }

  lemma {:induction false} TerminalsOpen(log: seq<Event>, id: string)
    ensures Terminals(log, id) == 0 <==> !Closed(log, id)
  {
    if log != [] {
      var shorter, e := log[..|log| - 1], log[|log| - 1];
      assert log == shorter + [e];
      TerminalsOpen(shorter, id);
      Snoc(shorter, e, id);
    }
  }

  /** An order with an id ends at most once. */
  lemma {:induction false} EndsOnce(log: seq<Event>, placed: Placed, id: string)
    requires Lawful(log, placed) && id != ""
    ensures Terminals(log, id) <= 1
  {
    if log != [] {
      var shorter, e := log[..|log| - 1], log[|log| - 1];
      LawfulPart(log, placed);
      EndsOnce(shorter, placed, id);
      TerminalsOpen(shorter, id);
      assert EventOk(shorter, e, placed);
    }
  }

  lemma {:induction false} TerminalsConcat(left: seq<Event>, right: seq<Event>, id: string)
    ensures Terminals(left + right, id) == Terminals(left, id) + Terminals(right, id)
  {
    var all := left + right;
    if right == [] {
      assert all == left;
    } else {
      TerminalsConcat(left, right[..|right| - 1], id);
      assert all[..|all| - 1] == left + right[..|right| - 1];
    }
  }

  /** How often an order without an id was placed. */
  function BlankPlaced(commands: seq<Command>): nat {
    if commands == [] then 0
    else
      var c := commands[|commands| - 1];
      BlankPlaced(commands[..|commands| - 1]) + if c.Place? && c.order.id == "" then 1 else 0
  }

  predicate NoBlank(statuses: seq<OrderStatus>) {
    forall i | 0 <= i < |statuses| :: statuses[i].orderId != ""
  }

  lemma {:induction false} FillAllNoBlank(fees: FeeResolver, m: Matching, own: seq<Order>, ids: set<string>)
    requires MatchOk(m, own, ids) && NoBlank(m.statuses)
    ensures NoBlank(FillAll(fees, m).statuses)
    decreases |m.makers|, m.taker.remaining
  {
    if m.CanFill() {
      assert RestingOk(m.makers[0], OppositeSide(m.taker.command.side));
      FillOneOk(fees, m, own, ids);
      FillAllNoBlank(fees, FillOne(fees, m), own, ids);
    }
  }

  lemma {:induction false} WeaveNoBlank(trades: seq<Trade>, statuses: seq<OrderStatus>)
    requires NoBlank(statuses)
    ensures forall k | 0 <= k < |Weave(trades, statuses)| :: !Ends(Weave(trades, statuses)[k], "")
  {
    if trades != [] && statuses != [] {
      WeaveNoBlank(trades[1..], statuses[1..]);
    }
  }

  lemma BlankRejected(fees: FeeResolver, b: Book, cmd: OrderCommand)
    requires cmd.id == ""
    ensures var outcome := Submit(fees, b, cmd).1; Terminals(Weave(outcome.trades, outcome.statuses), "") == 1
  {
    hide FillAll;
    var outcome := Submit(fees, b, cmd).1;
    var told := Weave(outcome.trades, outcome.statuses);
    assert told == [Reported(outcome.statuses[0])] && told[..0] == [];
  }

  lemma AdvanceBlank(fees: FeeResolver, st: State, c: Command)
    requires Good(st)
    ensures Terminals(Advance(fees, st, c).log, "")
         == Terminals(st.log, "") + if c.Place? && c.order.id == "" then 1 else 0
  {
    hide Good, Submit, Cancel, Weave, Terminals, Ends, NoBlank;
    var outcome := Apply(fees, st.book, c).1;
    var told := Weave(outcome.trades, outcome.statuses);
    TerminalsConcat(st.log, told, "");
    if c.Place? && c.order.id == "" {
      BlankRejected(fees, st.book, c.order);
    } else {
      OutcomeNoBlank(fees, st, c);
      WeaveNoBlank(outcome.trades, outcome.statuses);
      TerminalsOpen(told, "");
    }
  }

  lemma OutcomeNoBlank(fees: FeeResolver, st: State, c: Command)
    requires Good(st) && (c.Place? ==> c.order.id != "")
    ensures NoBlank(Apply(fees, st.book, c).1.statuses)
  {
    hide Lawful, AllLive, LevelsFit, NotionalOk, Sorted, Distinct, Apart, Uncrossed, Known, Insert, FillAll;
    if c.Place? {
      if !Duplicate(st.book, c.order) && !Refused(st.book, c.order) {
        StartOk(st.book, c.order);
        FillAllNoBlank(fees, Start(st.book, c.order), st.book.Own(c.order.side), st.book.seen);
        FillAllOk(fees, Start(st.book, c.order), st.book.Own(c.order.side), st.book.seen);
      }
    }
  }

  /**
   Over a run, the orders without an id end exactly as often as they were placed:
   they are never recognised as repeats.
   */
  lemma {:induction false} BlankEndsEveryTime(fees: FeeResolver, capacity: nat, commands: seq<Command>)
    ensures Terminals(Run(fees, capacity, commands).log, "") == BlankPlaced(commands)
  {
    if commands != [] {
      var before := commands[..|commands| - 1];
      BlankEndsEveryTime(fees, capacity, before);
      RunGood(fees, capacity, before);
      AdvanceBlank(fees, Run(fees, capacity, before), commands[|commands| - 1]);
    }
  }

  /** At most one end per id, over every run: exactly when the id is not empty or was placed at most once. */
  lemma EndsOnceExactly(fees: FeeResolver, capacity: nat, commands: seq<Command>, id: string)
    ensures Terminals(Run(fees, capacity, commands).log, id) <= 1 <==> id != "" || BlankPlaced(commands) <= 1
  {
    RunGood(fees, capacity, commands);
    BlankEndsEveryTime(fees, capacity, commands);
    if id != "" {
      EndsOnce(Run(fees, capacity, commands).log, Run(fees, capacity, commands).placed, id);
    }
  }

  /** Two orders without an id are both rejected. */
  lemma BlankEndsTwice(fees: FeeResolver, capacity: nat, cmd: OrderCommand)
    requires cmd.id == ""
    ensures Terminals(Run(fees, capacity, [Place(cmd), Place(cmd)]).log, "") == 2
  {
    var twice := [Place(cmd), Place(cmd)];
    BlankEndsEveryTime(fees, capacity, twice);
    assert twice[..1] == [Place(cmd)] && twice[..1][..0] == [];
    assert BlankPlaced(twice[..1]) == 1;
  }

  // The laws over every run.

  lemma RunLawful(fees: FeeResolver, capacity: nat, commands: seq<Command>)
    ensures Lawful(Run(fees, capacity, commands).log, Run(fees, capacity, commands).placed)
  {
    hide Run, Lawful, BookOk;
    RunGood(fees, capacity, commands);
  }

  /** Statuses of one order in a run: filled does not fall, and filled plus remaining is what was placed. */
  lemma RunFilledNeverDecreases(fees: FeeResolver, capacity: nat, commands: seq<Command>, j: nat, k: nat)
    requires var log := Run(fees, capacity, commands).log;
      && j < k < |log| && log[j].Reported? && log[k].Reported? && log[j].status.orderId == log[k].status.orderId != ""
    ensures var st := Run(fees, capacity, commands);
      && 0 <= st.log[j].status.filled <= st.log[k].status.filled && st.log[k].status.orderId in st.placed
      && st.log[k].status.filled == Quantity(st.log[..k], st.log[k].status.orderId)
      && st.log[k].status.filled + st.log[k].status.remaining == st.placed[st.log[k].status.orderId].quantity
  {
    hide Run;
    var st := Run(fees, capacity, commands);
    RunLawful(fees, capacity, commands);
    FilledNeverDecreases(st.log, st.placed, j, k);
    assert EventOk(st.log[..k], st.log[k], st.placed);
  }

  /** After its terminal status an order is not mentioned in the rest of the run. */
  lemma RunNothingAfterTheEnd(fees: FeeResolver, capacity: nat, commands: seq<Command>, id: string, j: nat, k: nat)
    requires j < k < |Run(fees, capacity, commands).log| && id != "" && Ends(Run(fees, capacity, commands).log[j], id)
    ensures !Mentions(Run(fees, capacity, commands).log[k], id)
  {
    hide Run, Lawful, Ends, Mentions;
    RunLawful(fees, capacity, commands);
    NothingAfterTheEnd(Run(fees, capacity, commands).log, Run(fees, capacity, commands).placed, id, j, k);
  }

  /** In a run every reported average lies between bounds of the order's fill prices. */
  lemma RunAverageWithinFills(fees: FeeResolver, capacity: nat, commands: seq<Command>, k: nat, lo: nat, hi: nat)
    requires var log := Run(fees, capacity, commands).log;
      && k < |log| && log[k].Reported? && log[k].status.orderId != "" && log[k].status.filled > 0
      && FillsWithin(log[..k], log[k].status.orderId, lo, hi)
    ensures lo <= Run(fees, capacity, commands).log[k].status.averagePrice <= hi
  {
    hide Run, Lawful;
    RunLawful(fees, capacity, commands);
    AverageWithinFills(Run(fees, capacity, commands).log, Run(fees, capacity, commands).placed, k, lo, hi);
  }

  /**
   In a run the average price of a limit order is within its limit, and that of an
   order that never took is its own price.
   */
  lemma RunAverages(fees: FeeResolver, capacity: nat, commands: seq<Command>, k: nat)
    requires var log := Run(fees, capacity, commands).log;
      k < |log| && log[k].Reported? && log[k].status.orderId != "" && log[k].status.filled > 0
    ensures var st := Run(fees, capacity, commands); var s := st.log[k].status;
      && s.orderId in st.placed
      && (st.placed[s.orderId].kind.Limit? ==> WithinLimit(st.placed[s.orderId], s.averagePrice))
      && ((forall i | 0 <= i < k && st.log[i].Traded? :: st.log[i].trade.takerId != s.orderId) ==>
            s.averagePrice == st.placed[s.orderId].price)
  {
    hide Run, Lawful;
    var st := Run(fees, capacity, commands);
    RunLawful(fees, capacity, commands);
    AverageWithinLimit(st.log, st.placed, k);
    if forall i | 0 <= i < k && st.log[i].Traded? :: st.log[i].trade.takerId != st.log[k].status.orderId {
      MakerAverage(st.log, st.placed, k);
    }
  }

  /** The trades of a run are numbered 1, 2, 3 and so on. */
  lemma RunTradesNumbered(fees: FeeResolver, capacity: nat, commands: seq<Command>)
    ensures var st := Run(fees, capacity, commands);
      && |TradesOf(st.log)| == st.book.tradeSequence
      && forall i | 0 <= i < |TradesOf(st.log)| :: TradesOf(st.log)[i].sequence == i + 1
  {
    hide Run, Lawful, BookOk, TradesOf, TradeCount;
    RunGood(fees, capacity, commands);
    TradesNumbered(Run(fees, capacity, commands).log, Run(fees, capacity, commands).placed);
  }
}
