/** What a limit buy settles for over a whole run stays within its hold. */
module Buying {
  import opened BookTypes
  import opened BookSpec
  import opened History
  import opened HistoryLaws
  import R = Reservations

  // Every trade is followed by a status of both its orders.

  predicate Reports(e: Event, id: string) {
    e.Reported? && e.status.orderId == id
  }

  predicate ReportedIn(log: seq<Event>, from: nat, id: string) {
    exists j :: from <= j < |log| && Reports(log[j], id)
  }

  predicate FollowedAt(log: seq<Event>, k: nat)
    requires k < |log|
  {
    log[k].Traded? ==> ReportedIn(log, k, log[k].trade.makerId) && ReportedIn(log, k, log[k].trade.takerId)
  }

  predicate Followed(log: seq<Event>) {
    forall k | 0 <= k < |log| :: FollowedAt(log, k)
  }

  /** Each trade has its maker's status beside it, and one taker. */
  predicate Paired(trades: seq<Trade>, statuses: seq<OrderStatus>, taker: string) {
    && |trades| <= |statuses|
    && forall i | 0 <= i < |trades| :: statuses[i].orderId == trades[i].makerId && trades[i].takerId == taker
  }

  lemma {:induction false} FillAllPairs(fees: FeeResolver, m: Matching)
    requires Paired(m.trades, m.statuses, m.taker.command.id) && |m.trades| == |m.statuses|
    ensures var done := FillAll(fees, m);
      && Paired(done.trades, done.statuses, m.taker.command.id) && |done.trades| == |done.statuses|
      && done.taker.command == m.taker.command
    decreases |m.makers|, m.taker.remaining
  {
    if m.CanFill() {
      FillAllPairs(fees, FillOne(fees, m));
    }
  }

  /** The last status of an outcome with trades is the taker's. */
  lemma SubmitPairs(fees: FeeResolver, b: Book, cmd: OrderCommand)
    ensures var outcome := Submit(fees, b, cmd).1;
      && Paired(outcome.trades, outcome.statuses, cmd.id)
      && (outcome.trades != [] ==>
            |outcome.statuses| == |outcome.trades| + 1 && outcome.statuses[|outcome.trades|].orderId == cmd.id)
  {
    hide FillAll, Insert, LevelTotal, Refused;
    FillAllPairs(fees, Start(b, cmd));
  }

  lemma PutBefore(head: seq<Event>, log: seq<Event>, id: string, j: nat, from: nat)
    requires j < |log| && Reports(log[j], id) && from <= |head| + j
    ensures ReportedIn(head + log, from, id)
  {
    assert Reports((head + log)[|head| + j], id);
  }

  lemma PutAfter(log: seq<Event>, tail: seq<Event>, k: nat)
    requires k < |log| && FollowedAt(log, k)
    ensures FollowedAt(log + tail, k)
  {
    if log[k].Traded? {
      var i :| k <= i < |log| && Reports(log[i], log[k].trade.makerId);
      var j :| k <= j < |log| && Reports(log[j], log[k].trade.takerId);
      assert Reports((log + tail)[i], log[k].trade.makerId) && Reports((log + tail)[j], log[k].trade.takerId);
    }
  }

  lemma Shifted(head: seq<Event>, log: seq<Event>, k: nat)
    requires k < |log| && FollowedAt(log, k)
    ensures FollowedAt(head + log, |head| + k)
  {
    if log[k].Traded? {
      var i :| k <= i < |log| && Reports(log[i], log[k].trade.makerId);
      var j :| k <= j < |log| && Reports(log[j], log[k].trade.takerId);
      PutBefore(head, log, log[k].trade.makerId, i, |head| + k);
      PutBefore(head, log, log[k].trade.takerId, j, |head| + k);
    }
  }

  lemma FollowedConcat(a: seq<Event>, b: seq<Event>)
    requires Followed(a) && Followed(b)
    ensures Followed(a + b)
  {
    hide FollowedAt;
    forall k | 0 <= k < |a + b| ensures FollowedAt(a + b, k) {
      if k < |a| {
        PutAfter(a, b, k);
      } else {
        Shifted(a, b, k - |a|);
      }
    }
  }

  lemma {:induction false} WeaveFollowed(trades: seq<Trade>, statuses: seq<OrderStatus>, taker: string)
    requires Paired(trades, statuses, taker) && |statuses| == |trades| + 1 && statuses[|trades|].orderId == taker
    ensures Followed(Weave(trades, statuses)) && ReportedIn(Weave(trades, statuses), 0, taker)
  {
    hide ReportedIn;
    if trades == [] {
      PutBefore([], [Reported(statuses[0])], taker, 0, 0);
      assert Weave(trades, statuses) == [] + [Reported(statuses[0])];
    } else {
      var rest := Weave(trades[1..], statuses[1..]);
      WeaveFollowed(trades[1..], statuses[1..], taker);
      FillFollowed(trades[0], statuses[0], rest);
    }
  }

  lemma FillFollowed(t: Trade, s: OrderStatus, rest: seq<Event>)
    requires Followed(rest) && ReportedIn(rest, 0, t.takerId) && s.orderId == t.makerId
    ensures Followed([Traded(t), Reported(s)] + rest) && ReportedIn([Traded(t), Reported(s)] + rest, 0, t.takerId)
  {
    hide FollowedAt;
    var head := [Traded(t), Reported(s)];
    var j :| 0 <= j < |rest| && Reports(rest[j], t.takerId);
    PutBefore(head, rest, t.takerId, j, 0);
    assert Reports((head + rest)[1], t.makerId);
    forall k | 0 <= k < |head + rest| ensures FollowedAt(head + rest, k) {
      if k >= 2 {
        Shifted(head, rest, k - 2);
      } else {
        assert FollowedAt(head + rest, k) by {
          FillHead(head + rest, k, t);
        }
      }
    }
  }

  lemma FillHead(log: seq<Event>, k: nat, t: Trade)
    requires k < 2 <= |log| && log[0] == Traded(t) && Reports(log[1], t.makerId) && ReportedIn(log, 0, t.takerId)
    ensures FollowedAt(log, k)
  {
  }

  lemma NoTradesFollowed(statuses: seq<OrderStatus>)
    ensures Followed(Weave([], statuses))
  {
  }

  /** Over every run, every trade is followed by a status of its maker and of its taker. */
  lemma {:induction false} RunFollowed(fees: FeeResolver, capacity: nat, commands: seq<Command>)
    ensures Followed(Run(fees, capacity, commands).log)
  {
    hide Submit, Cancel, Weave, Followed;
    if commands == [] {
      NoTradesFollowed([]);
      assert Weave([], []) == [] by {
        NothingWoven();
      }
    } else {
      var st, c := Run(fees, capacity, commands[..|commands| - 1]), commands[|commands| - 1];
      RunFollowed(fees, capacity, commands[..|commands| - 1]);
      OutcomeFollowed(fees, st.book, c);
      var outcome := Apply(fees, st.book, c).1;
      FollowedConcat(st.log, Weave(outcome.trades, outcome.statuses));
    }
  }

  lemma NothingWoven()
    ensures Weave([], []) == []
  {
  }

  lemma OutcomeFollowed(fees: FeeResolver, b: Book, c: Command)
    ensures var outcome := Apply(fees, b, c).1; Followed(Weave(outcome.trades, outcome.statuses))
  {
    hide Submit, Weave, Followed, Find, Remove;
    var outcome := Apply(fees, b, c).1;
    if c.Place? {
      SubmitPairs(fees, b, c.order);
    }
    if outcome.trades == [] {
      NoTradesFollowed(outcome.statuses);
    } else {
      WeaveFollowed(outcome.trades, outcome.statuses, c.order.id);
    }
  }

  // No order trades more than its quantity.

  /** Without a trade of the order in between, its quantity stays. */
  lemma {:induction false} QuantityStays(log: seq<Event>, id: string, j: nat)
    requires j <= |log| && forall k | j <= k < |log| :: Share(log[k], id) == 0
    ensures Quantity(log, id) == Quantity(log[..j], id)
  {
    if j < |log| {
      QuantityStays(log[..|log| - 1], id, j);
      assert log[..|log| - 1][..j] == log[..j];
    } else {
      assert log[..j] == log;
    }
  }

  lemma {:induction false} LastFill(log: seq<Event>, id: string) returns (k: nat)
    requires Quantity(log, id) > 0
    ensures k < |log| && log[k].Traded? && Mentions(log[k], id) && forall i | k < i < |log| :: Share(log[i], id) == 0
  {
    if Share(log[|log| - 1], id) > 0 {
      k := |log| - 1;
    } else {
      k := LastFill(log[..|log| - 1], id);
    }
  }

  /** An order never trades more than it was placed for. */
  lemma QuantityBounded(log: seq<Event>, placed: Placed, id: string)
    requires Lawful(log, placed) && Followed(log) && id != "" && id in placed
    ensures Quantity(log, id) <= placed[id].quantity
  {
    hide Lawful, Quantity, Share;
    if Quantity(log, id) > 0 {
      var k := LastFill(log, id);
      assert FollowedAt(log, k);
      var j :| k <= j < |log| && Reports(log[j], id);
      assert j > k;
      ReportedQuantity(log, placed, j);
      QuantityStays(log, id, j);
    }
  }

  lemma ReportedQuantity(log: seq<Event>, placed: Placed, j: nat)
    requires Lawful(log, placed) && j < |log| && log[j].Reported? && log[j].status.orderId != ""
    ensures log[j].status.orderId in placed
    ensures Quantity(log[..j], log[j].status.orderId) <= placed[log[j].status.orderId].quantity
  {
  }

  // Every trade charges the rates of its orders' tiers.

  predicate Charged(fees: FeeResolver, t: Trade, placed: Placed) {
    && t.makerId in placed && t.makerFeeBps == fees(placed[t.makerId].feeTier).makerBps
    && t.takerId in placed && t.takerFeeBps == fees(placed[t.takerId].feeTier).takerBps
  }

  predicate AllCharged(fees: FeeResolver, trades: seq<Trade>, placed: Placed) {
    forall i | 0 <= i < |trades| :: Charged(fees, trades[i], placed)
  }

  predicate Rated(fees: FeeResolver, log: seq<Event>, placed: Placed) {
    forall k | 0 <= k < |log| && log[k].Traded? :: Charged(fees, log[k].trade, placed)
  }

  predicate IsPlaced(o: Order, placed: Placed) {
    o.command.id in placed && placed[o.command.id] == o.command
  }

  lemma {:induction false} FillAllCharged(fees: FeeResolver, m: Matching, placed: Placed)
    requires AllCharged(fees, m.trades, placed) && IsPlaced(m.taker, placed)
    requires forall i | 0 <= i < |m.makers| :: IsPlaced(m.makers[i], placed)
    ensures AllCharged(fees, FillAll(fees, m).trades, placed)
    decreases |m.makers|, m.taker.remaining
  {
    if m.CanFill() {
      FillAllCharged(fees, FillOne(fees, m), placed);
    }
  }

  lemma SubmitCharged(fees: FeeResolver, st: State, cmd: OrderCommand)
    requires Good(st)
    ensures AllCharged(fees, Submit(fees, st.book, cmd).1.trades, Note(st.placed, Place(cmd)))
  {
    hide FillAll, Insert, LevelTotal, Eligible, Lawful, BookInvariant.BookOk;
    var b, placed := st.book, Note(st.placed, Place(cmd));
    if !Duplicate(b, cmd) && !Refused(b, cmd) {
      var makers := b.Opposite(cmd.side);
      forall i | 0 <= i < |makers| ensures IsPlaced(makers[i], placed) {
        assert Live(makers[i], st.log, st.placed);
      }
      FillAllCharged(fees, Start(b, cmd), placed);
    }
  }

  lemma {:induction false} WeaveRated(fees: FeeResolver, trades: seq<Trade>, statuses: seq<OrderStatus>, placed: Placed)
    requires AllCharged(fees, trades, placed)
    ensures Rated(fees, Weave(trades, statuses), placed)
  {
    hide Charged;
    if trades != [] && statuses != [] {
      WeaveRated(fees, trades[1..], statuses[1..], placed);
    }
  }

  lemma RatedMore(fees: FeeResolver, log: seq<Event>, more: seq<Event>, placed: Placed, c: Command)
    requires Rated(fees, log, placed) && Rated(fees, more, Note(placed, c))
    ensures Rated(fees, log + more, Note(placed, c))
  {
  }

  /** Over every run, every trade charges the maker and the taker the rates of their own tiers. */
  lemma {:induction false} RunRated(fees: FeeResolver, capacity: nat, commands: seq<Command>)
    ensures Rated(fees, Run(fees, capacity, commands).log, Run(fees, capacity, commands).placed)
  {
    hide Submit, Weave, Find, Remove, Note, Good, Charged;
    if commands != [] {
      var st, c := Run(fees, capacity, commands[..|commands| - 1]), commands[|commands| - 1];
      RunRated(fees, capacity, commands[..|commands| - 1]);
      RunGood(fees, capacity, commands[..|commands| - 1]);
      var outcome := Apply(fees, st.book, c).1;
      if c.Place? {
        SubmitCharged(fees, st, c.order);
      }
      WeaveRated(fees, outcome.trades, outcome.statuses, Note(st.placed, c));
      RatedMore(fees, st.log, Weave(outcome.trades, outcome.statuses), st.placed, c);
    }
  }

  // What it pays.

  function FillOf(t: Trade, id: string): R.Fill {
    R.Fill(t.price, t.quantity, if t.takerId == id then t.takerFeeBps else t.makerFeeBps)
  }

  /** The fills an order gets, with the fee rate of the side it was on. */
  function FillsOf(log: seq<Event>, id: string): seq<R.Fill> {
    if log == [] then []
    else
      var e := log[|log| - 1];
      FillsOf(log[..|log| - 1], id) + if e.Traded? && Mentions(e, id) then [FillOf(e.trade, id)] else []
  }

  lemma {:induction false} FillsAdd(log: seq<Event>, id: string)
    ensures R.TotalQuantity(FillsOf(log, id)) == Quantity(log, id)
  {
    if log != [] {
      var before := FillsOf(log[..|log| - 1], id);
      FillsAdd(log[..|log| - 1], id);
      var fills := FillsOf(log, id);
      if |fills| > |before| {
        assert fills[..|before|] == before;
      } else {
        assert before + [] == before;
      }
    }
  }

  /** Fills of a limit buy are at its price or better, and within the rates of its tier. */
  lemma {:induction false} FillsAllowed(fees: FeeResolver, log: seq<Event>, placed: Placed, id: string, bps: int)
    requires Lawful(log, placed) && id in placed && placed[id].side.Buy? && placed[id].kind.Limit?
    requires Rated(fees, log, placed)
    requires fees(placed[id].feeTier).makerBps <= bps && fees(placed[id].feeTier).takerBps <= bps
    ensures R.Allowed(FillsOf(log, id), placed[id].price, bps)
  {
    if log != [] {
      var init, k := log[..|log| - 1], |log| - 1;
      LawfulPart(log, placed);
      FillsAllowed(fees, init, placed, id, bps);
      if log[k].Traded? && Mentions(log[k], id) {
        FillPrices(log, placed, k, id);
        assert Charged(fees, log[k].trade, placed);
      }
    }
  }

  /** Over every run of the book, a limit buy reserved at no less than its tier's rates settles within its hold. */
  lemma HoldCoversRun(
      fees: FeeResolver, capacity: nat, commands: seq<Command>, id: string, bps: int, rules: R.PairRules)
    requires var st := Run(fees, capacity, commands);
      && id != "" && id in st.placed && st.placed[id].side.Buy? && st.placed[id].kind.Limit?
      && R.Reservation(false, false, st.placed[id].price, st.placed[id].quantity, bps, rules).HoldExact?
      && fees(st.placed[id].feeTier).makerBps <= bps && fees(st.placed[id].feeTier).takerBps <= bps
    ensures var st := Run(fees, capacity, commands);
      R.TotalCost(FillsOf(st.log, id), rules)
      <= R.Reservation(false, false, st.placed[id].price, st.placed[id].quantity, bps, rules).amount
  {
    hide History.Run, Lawful, Followed, Rated, FillsOf, Quantity, R.Reservation, R.TotalCost, R.Allowed,
      BookInvariant.BookOk;
    var st := Run(fees, capacity, commands);
    RunGood(fees, capacity, commands);
    RunFollowed(fees, capacity, commands);
    RunRated(fees, capacity, commands);
    QuantityBounded(st.log, st.placed, id);
    FillsAdd(st.log, id);
    FillsAllowed(fees, st.log, st.placed, id, bps);
    R.HoldCovers(st.placed[id].price, st.placed[id].quantity, bps, rules, FillsOf(st.log, id));
  }

  /** With the built-in fee table, the taker rate of the order's own tier is enough to reserve at. */
  lemma HoldCoversDefault(capacity: nat, commands: seq<Command>, id: string, rules: R.PairRules)
    requires var st := Run(DefaultFees, capacity, commands);
      && id != "" && id in st.placed && st.placed[id].side.Buy? && st.placed[id].kind.Limit?
      && R.Reservation(false, false, st.placed[id].price, st.placed[id].quantity,
                       DefaultFees(st.placed[id].feeTier).takerBps, rules).HoldExact?
    ensures var st := Run(DefaultFees, capacity, commands);
      R.TotalCost(FillsOf(st.log, id), rules)
      <= R.Reservation(false, false, st.placed[id].price, st.placed[id].quantity,
                       DefaultFees(st.placed[id].feeTier).takerBps, rules).amount
  {
    hide History.Run, FillsOf, R.Reservation, R.TotalCost;
    var st := Run(DefaultFees, capacity, commands);
    HoldCoversRun(DefaultFees, capacity, commands, id, DefaultFees(st.placed[id].feeTier).takerBps, rules);
  }
}
