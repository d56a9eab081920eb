/** Everything the book ever reports, over every run of commands. */
module History {
  import opened BookTypes
  import opened BookSpec
  import opened BookInvariant

  datatype Command = Place(order: OrderCommand) | Drop(id: string)
  datatype Event = Traded(trade: Trade) | Reported(status: OrderStatus)

  function Apply(fees: FeeResolver, b: Book, c: Command): (Book, Outcome) {
    match c
    case Place(cmd) => Submit(fees, b, cmd)
    case Drop(id) => Cancel(b, id)
  }

  /** The order in which a command emits: every fill is a trade and its maker's status, then come the other statuses. */
  function Weave(trades: seq<Trade>, statuses: seq<OrderStatus>): seq<Event> {
    if trades == [] || statuses == [] then seq(|statuses|, i requires 0 <= i < |statuses| => Reported(statuses[i]))
    else [Traded(trades[0]), Reported(statuses[0])] + Weave(trades[1..], statuses[1..])
  }

  lemma {:induction false} WeaveFill(trades: seq<Trade>, statuses: seq<OrderStatus>, t: Trade, s: OrderStatus)
    requires |trades| == |statuses|
    ensures Weave(trades + [t], statuses + [s]) == Weave(trades, statuses) + [Traded(t), Reported(s)]
  {
    if trades == [] {
      assert Weave([], []) == [];
      assert Weave([t], [s]) == [Traded(t), Reported(s)] + Weave([], []);
    } else {
      WeaveFill(trades[1..], statuses[1..], t, s);
      assert (trades + [t])[1..] == trades[1..] + [t] && (statuses + [s])[1..] == statuses[1..] + [s];
    }
  }

  lemma {:induction false} WeaveLast(trades: seq<Trade>, statuses: seq<OrderStatus>, s: OrderStatus)
    requires |trades| == |statuses|
    ensures Weave(trades, statuses + [s]) == Weave(trades, statuses) + [Reported(s)]
  {
    if trades == [] {
      assert Weave([], [s]) == [Reported(s)] && Weave([], []) == [];
    } else {
      WeaveLast(trades[1..], statuses[1..], s);
      assert (statuses + [s])[1..] == statuses[1..] + [s];
    }
  }

  // What a log says about one order.

  predicate Terminal(status: Status) {
    status.Filled? || status.Canceled? || status.Rejected?
  }

  predicate Mentions(e: Event, id: string) {
    match e
    case Traded(t) => t.makerId == id || t.takerId == id
    case Reported(s) => s.orderId == id
  }

  predicate Ends(e: Event, id: string) {
    e.Reported? && e.status.orderId == id && Terminal(e.status.status)
  }

  function Share(e: Event, id: string): nat {
    if e.Traded? && Mentions(e, id) then e.trade.quantity else 0
  }

  function Cost(e: Event, id: string): nat {
    if e.Traded? && Mentions(e, id) then e.trade.price * e.trade.quantity else 0
  }

  /** The quantity traded under this id. */
  function Quantity(log: seq<Event>, id: string): nat {
    if log == [] then 0 else Quantity(log[..|log| - 1], id) + Share(log[|log| - 1], id)
  }

  /** Price times quantity traded under this id. */
  function Paid(log: seq<Event>, id: string): nat {
    if log == [] then 0 else Paid(log[..|log| - 1], id) + Cost(log[|log| - 1], id)
  }

  /** The order has had its last status. */
  predicate Closed(log: seq<Event>, id: string) {
    exists k :: 0 <= k < |log| && Ends(log[k], id)
  }

  /** The sequence numbers used so far. */
  function TradeCount(log: seq<Event>): nat {
    if log == [] then 0 else TradeCount(log[..|log| - 1]) + if log[|log| - 1].Traded? then 1 else 0
  }

  function StatusCount(log: seq<Event>): nat {
    if log == [] then 0 else StatusCount(log[..|log| - 1]) + if log[|log| - 1].Traded? then 0 else 1
  }

  type Placed = map<string, OrderCommand>

  /** A trade: both orders are open, the price is the maker's own and within the taker's limit. */
  predicate TradeOk(log: seq<Event>, t: Trade, placed: Placed) {
    && t.makerId in placed && t.takerId in placed && t.makerId != t.takerId && t.quantity > 0
    && placed[t.makerId].side != placed[t.takerId].side
    && t.price == placed[t.makerId].price && Reaches(placed[t.takerId], t.price)
    && !Closed(log, t.makerId) && !Closed(log, t.takerId)
    && t.sequence == TradeCount(log) + 1
  }

  /** A status: the order is open, filled is what was traded, the rest remains, the average is what was paid for it. */
  predicate StatusOk(log: seq<Event>, s: OrderStatus, placed: Placed) {
    && s.sequence == StatusCount(log) + 1
    && (s.orderId != "" ==>
          && s.orderId in placed && !Closed(log, s.orderId)
          && s.filled == Quantity(log, s.orderId)
          && s.filled + s.remaining == placed[s.orderId].quantity
          && s.averagePrice == (if s.filled == 0 then 0 else Paid(log, s.orderId) / s.filled)
          && (s.status.Filled? <==> s.remaining == 0 && s.filled > 0))
  }

  predicate EventOk(log: seq<Event>, e: Event, placed: Placed) {
    match e
    case Traded(t) => TradeOk(log, t, placed)
    case Reported(s) => StatusOk(log, s, placed)
  }

  /** Every event fits the events before it. */
  predicate Lawful(log: seq<Event>, placed: Placed) {
    forall k | 0 <= k < |log| :: EventOk(log[..k], log[k], placed)
  }

  lemma Snoc(log: seq<Event>, e: Event, id: string)
    ensures Quantity(log + [e], id) == Quantity(log, id) + Share(e, id)
    ensures Paid(log + [e], id) == Paid(log, id) + Cost(e, id)
    ensures Closed(log + [e], id) <==> Closed(log, id) || Ends(e, id)
    ensures TradeCount(log + [e]) == TradeCount(log) + if e.Traded? then 1 else 0
    ensures StatusCount(log + [e]) == StatusCount(log) + if e.Traded? then 0 else 1
  {
  }

  lemma LawfulSnoc(log: seq<Event>, e: Event, placed: Placed)
    requires Lawful(log, placed) && EventOk(log, e, placed)
    ensures Lawful(log + [e], placed)
  {
    var longer := log + [e];
    forall k | 0 <= k < |longer| ensures EventOk(longer[..k], longer[k], placed) {
      if k < |log| {
        assert longer[..k] == log[..k];
      } else {
        assert longer[..k] == log;
      }
    }
  }

  // Orders that are still in the book, or being matched.

  /** The order's own counters agree with the log, and nothing has ended it. */
  predicate Live(o: Order, log: seq<Event>, placed: Placed) {
    var id := o.command.id;
    && id != "" && id in placed && placed[id] == o.command && !Closed(log, id)
    && o.Filled() == Quantity(log, id) && o.notional == Paid(log, id)
  }

  predicate AllLive(orders: seq<Order>, log: seq<Event>, placed: Placed) {
    forall i | 0 <= i < |orders| :: Live(orders[i], log, placed)
  }

  lemma Untouched(o: Order, log: seq<Event>, e: Event, placed: Placed)
    requires Live(o, log, placed) && !Mentions(e, o.command.id)
    ensures Live(o, log + [e], placed)
  {
  }

  lemma AllUntouched(orders: seq<Order>, log: seq<Event>, e: Event, placed: Placed)
    requires AllLive(orders, log, placed) && forall i | 0 <= i < |orders| :: !Mentions(e, orders[i].command.id)
    ensures AllLive(orders, log + [e], placed)
  {
  }

  /** A trade moves both of its orders. */
  lemma Moved(o: Order, log: seq<Event>, t: Trade, placed: Placed)
    requires Live(o, log, placed) && Mentions(Traded(t), o.command.id) && t.quantity <= o.remaining
    ensures Live(Reduce(o, t.quantity, t.price), log + [Traded(t)], placed)
  {
  }

  /** Reporting a live order by its own counters fits the log; unless it ends there, the order stays live. */
  lemma ReportOk(o: Order, status: Status, log: seq<Event>, placed: Placed)
    requires Live(o, log, placed) && Lawful(log, placed)
    requires status.Filled? <==> o.remaining == 0 && o.Filled() > 0
    ensures var e := Reported(o.Report(StatusCount(log) + 1, status));
      && Lawful(log + [e], placed)
      && StatusCount(log + [e]) == StatusCount(log) + 1 && TradeCount(log + [e]) == TradeCount(log)
      && (!Terminal(status) ==> Live(o.(status := status), log + [e], placed))
  {
    hide Lawful, Quantity, Paid, Closed, TradeCount, StatusCount;
    var e := Reported(o.Report(StatusCount(log) + 1, status));
    Snoc(log, e, o.command.id);
    LawfulSnoc(log, e, placed);
  }

  // One fill, and a whole matching.

  /** The log and the orders agree while a command is being matched. */
  ghost predicate InStep(m: Matching, own: seq<Order>, log: seq<Event>, placed: Placed) {
    && Lawful(log, placed)
    && Live(m.taker, log, placed) && AllLive(m.makers, log, placed) && AllLive(own, log, placed)
    && m.tradeSequence == TradeCount(log) && m.statusSequence == StatusCount(log)
  }

  /** The taker is a new order, apart from every known one. */
  ghost predicate Newcomer(m: Matching, own: seq<Order>, ids: set<string>) {
    MatchOk(m, own, ids) && Known(own, ids) && m.taker.command.id !in ids
  }

  lemma FillTrade(fees: FeeResolver, m: Matching, own: seq<Order>, ids: set<string>, log: seq<Event>, placed: Placed)
    requires m.CanFill() && Newcomer(m, own, ids) && InStep(m, own, log, placed)
    ensures var t := FillOne(fees, m).trades[|m.trades|];
      && Lawful(log + [Traded(t)], placed)
      && TradeCount(log + [Traded(t)]) == TradeCount(log) + 1 && StatusCount(log + [Traded(t)]) == StatusCount(log)
      && Live(Reduce(m.makers[0], t.quantity, t.price), log + [Traded(t)], placed)
      && Live(FillOne(fees, m).taker, log + [Traded(t)], placed)
      && AllLive(m.makers[1..], log + [Traded(t)], placed) && AllLive(own, log + [Traded(t)], placed)
  {
    var t := FillOne(fees, m).trades[|m.trades|];
    assert RestingOk(m.makers[0], OppositeSide(m.taker.command.side));
    LawfulSnoc(log, Traded(t), placed);
    Snoc(log, Traded(t), "");
    Moved(m.makers[0], log, t, placed);
    Moved(m.taker, log, t, placed);
    AllUntouched(m.makers[1..], log, Traded(t), placed);
    AllUntouched(own, log, Traded(t), placed);
  }

  lemma FillStatus(fees: FeeResolver, m: Matching, own: seq<Order>, ids: set<string>, log: seq<Event>, placed: Placed)
    requires m.CanFill() && Newcomer(m, own, ids) && InStep(m, own, log, placed)
    ensures var next := FillOne(fees, m);
      InStep(next, own, log + [Traded(next.trades[|m.trades|])] + [Reported(next.statuses[|m.statuses|])], placed)
  {
    hide Lawful, Live, Quantity, Paid, Closed, TradeCount, StatusCount, LevelsFit, NotionalOk, UncrossedFor, Sorted;
    var next := FillOne(fees, m);
    var t, s := next.trades[|m.trades|], next.statuses[|m.statuses|];
    var traded := log + [Traded(t)];
    FillTrade(fees, m, own, ids, log, placed);
    var maker := Reduce(m.makers[0], t.quantity, t.price);
    assert RestingOk(m.makers[0], OppositeSide(m.taker.command.side));
    ReportOk(maker, s.status, traded, placed);
    assert s == maker.Report(StatusCount(traded) + 1, s.status);
    Untouched(next.taker, traded, Reported(s), placed);
    AllUntouched(m.makers[1..], traded, Reported(s), placed);
    AllUntouched(own, traded, Reported(s), placed);
  }

  lemma {:induction false} FillAllLawful(fees: FeeResolver, m: Matching, own: seq<Order>, ids: set<string>,
                                         base: seq<Event>, placed: Placed)
    requires Newcomer(m, own, ids) && |m.trades| == |m.statuses|
    requires InStep(m, own, base + Weave(m.trades, m.statuses), placed)
    ensures var m' := FillAll(fees, m);
      |m'.trades| == |m'.statuses| && InStep(m', own, base + Weave(m'.trades, m'.statuses), placed)
    decreases |m.makers|, m.taker.remaining
  {
    if m.CanFill() {
      var next := FillOne(fees, m);
      var log := base + Weave(m.trades, m.statuses);
      var t, s := next.trades[|m.trades|], next.statuses[|m.statuses|];
      FillOneOk(fees, m, own, ids);
      FillStatus(fees, m, own, ids, log, placed);
      WeaveFill(m.trades, m.statuses, t, s);
      assert log + [Traded(t)] + [Reported(s)] == base + Weave(next.trades, next.statuses);
      FillAllLawful(fees, next, own, ids, base, placed);
    }
  }

  // Whole commands.

  datatype State = State(book: Book, log: seq<Event>, placed: Placed)

  /** The first command placed under each id. */
  function Note(placed: Placed, c: Command): Placed {
    if c.Place? && c.order.id != "" && c.order.id !in placed then placed[c.order.id := c.order] else placed
  }

  function Advance(fees: FeeResolver, st: State, c: Command): State {
    var (b, outcome) := Apply(fees, st.book, c);
    State(b, st.log + Weave(outcome.trades, outcome.statuses), Note(st.placed, c))
  }

  function Run(fees: FeeResolver, capacity: nat, commands: seq<Command>): State {
    if commands == [] then State(Empty(capacity), [], map[])
    else Advance(fees, Run(fees, capacity, commands[..|commands| - 1]), commands[|commands| - 1])
  }

  /** The book, the log and the commands agree. */
  ghost predicate Good(st: State) {
    && BookOk(st.book) && st.placed.Keys == st.book.seen
    && Told(st.book, st.log, st.placed)
  }

  /** The log is lawful, the book's orders are live in it, and its counters count it. */
  predicate Told(b: Book, log: seq<Event>, placed: Placed) {
    && Lawful(log, placed)
    && AllLive(b.bids, log, placed) && AllLive(b.asks, log, placed)
    && b.tradeSequence == TradeCount(log) && b.statusSequence == StatusCount(log)
  }

  lemma LawfulPart(log: seq<Event>, placed: Placed)
    requires Lawful(log, placed) && log != []
    ensures Lawful(log[..|log| - 1], placed) && EventOk(log[..|log| - 1], log[|log| - 1], placed)
  {
    var init := log[..|log| - 1];
    forall k | 0 <= k < |init| ensures EventOk(init[..k], init[k], placed) {
      assert init[..k] == log[..k];
    }
  }

  lemma {:induction false} Unheard(log: seq<Event>, placed: Placed, id: string)
    requires Lawful(log, placed) && id != "" && id !in placed
    ensures Quantity(log, id) == 0 && Paid(log, id) == 0 && !Closed(log, id)
  {
    hide Lawful;
    if log != [] {
      var shorter, e := log[..|log| - 1], log[|log| - 1];
      assert log == shorter + [e];
      LawfulPart(log, placed);
      Unheard(shorter, placed, id);
      Snoc(shorter, e, id);
    }
  }

  lemma MorePlaced(b: Book, log: seq<Event>, placed: Placed, more: Placed)
    requires Told(b, log, placed) && forall id :: id in placed ==> id in more && more[id] == placed[id]
    ensures Told(b, log, more)
  {
  }

  lemma InsertLive(orders: seq<Order>, o: Order, log: seq<Event>, placed: Placed)
    requires AllLive(orders, log, placed) && Live(o, log, placed)
    ensures AllLive(Insert(orders, o), log, placed)
  {
  }

  /** A refused order is reported once, with nothing filled. */
  lemma RejectTold(b: Book, cmd: OrderCommand, log: seq<Event>, placed: Placed)
    requires Told(b, log, placed) && (cmd.id != "" ==> Live(Fresh(cmd), log, placed))
    requires forall i | 0 <= i < |b.bids| :: b.bids[i].command.id != cmd.id
    requires forall i | 0 <= i < |b.asks| :: b.asks[i].command.id != cmd.id
    ensures var (b', outcome) := Reject(b, cmd);
      Told(b', log + Weave(outcome.trades, outcome.statuses), placed)
  {
    hide Lawful, Live, Quantity, Paid, Closed, TradeCount, StatusCount;
    var s := Fresh(cmd).Report(b.statusSequence + 1, Rejected);
    assert Weave([], [s]) == [Reported(s)];
    if cmd.id != "" {
      ReportOk(Fresh(cmd), Rejected, log, placed);
    } else {
      LawfulSnoc(log, Reported(s), placed);
      Snoc(log, Reported(s), "");
    }
    AllUntouched(b.bids, log, Reported(s), placed);
    AllUntouched(b.asks, log, Reported(s), placed);
  }

  /** The taker's own report ends a matching. */
  lemma FinishTold(b: Book, m: Matching, ids: set<string>, base: seq<Event>, placed: Placed)
    requires m.makers == b.Opposite(m.taker.command.side) && Valid(m.taker.command)
    requires m.tradeSequence == b.tradeSequence && m.statusSequence == b.statusSequence
    requires Newcomer(m, b.Own(m.taker.command.side), ids) && |m.trades| == |m.statuses|
    requires InStep(m, b.Own(m.taker.command.side), base + Weave(m.trades, m.statuses), placed)
    ensures var (b', outcome) := Finish(b, m);
      Told(b', base + Weave(outcome.trades, outcome.statuses), placed)
  {
    hide Lawful, Live, Quantity, Paid, Closed, TradeCount, StatusCount, Insert, LevelTotal;
    var log := base + Weave(m.trades, m.statuses);
    var (b', outcome) := Finish(b, m);
    var s := outcome.statuses[|m.statuses|];
    ReportOk(m.taker, s.status, log, placed);
    assert s == m.taker.Report(StatusCount(log) + 1, s.status);
    WeaveLast(m.trades, m.statuses, s);
    var told := log + [Reported(s)];
    assert told == base + Weave(outcome.trades, outcome.statuses);
    AllUntouched(m.makers, log, Reported(s), placed);
    AllUntouched(b.Own(m.taker.command.side), log, Reported(s), placed);
    if s.status.Open? || s.status.Partial? {
      InsertLive(b.Own(m.taker.command.side), m.taker.(status := s.status), told, placed);
    }
  }

  /** A newly placed order is live: nothing was ever said about its id. */
  lemma FreshLive(st: State, cmd: OrderCommand)
    requires Good(st) && cmd.id != "" && cmd.id !in st.book.seen
    ensures Told(st.book, st.log, st.placed[cmd.id := cmd])
    ensures Live(Fresh(cmd), st.log, st.placed[cmd.id := cmd])
  {
    Unheard(st.log, st.placed, cmd.id);
    MorePlaced(st.book, st.log, st.placed, st.placed[cmd.id := cmd]);
  }

  lemma MatchTold(fees: FeeResolver, st: State, cmd: OrderCommand)
    requires Good(st) && Valid(cmd) && cmd.id !in st.book.seen
    ensures var m := FillAll(fees, Start(st.book, cmd));
      var settled := Settle(Remember(st.book, cmd.id), m);
      var (b, outcome) := Finish(settled, m);
      Told(b, st.log + Weave(outcome.trades, outcome.statuses), st.placed[cmd.id := cmd])
  {
    hide Lawful, Live, Quantity, Paid, Closed, TradeCount, StatusCount, SideOk, FillAll, Finish;
    var b, placed := st.book, st.placed[cmd.id := cmd];
    var own, m := b.Own(cmd.side), FillAll(fees, Start(b, cmd));
    FreshLive(st, cmd);
    StartOk(b, cmd);
    KnownIn(own, cmd.side, b.seen);
    assert st.log + Weave([], []) == st.log;
    FillAllLawful(fees, Start(b, cmd), own, b.seen, st.log, placed);
    FillAllOk(fees, Start(b, cmd), own, b.seen);
    FinishTold(Settle(Remember(b, cmd.id), m), m, b.seen, st.log, placed);
  }

  lemma KnownIn(orders: seq<Order>, side: Side, ids: set<string>)
    requires SideOk(orders, side, ids)
    ensures Known(orders, ids)
  {
  }

  lemma SubmitGood(fees: FeeResolver, st: State, cmd: OrderCommand)
    requires Good(st)
    ensures Good(Advance(fees, st, Place(cmd)))
  {
    var b, after := st.book, Advance(fees, st, Place(cmd));
    SubmitOk(fees, b, cmd);
    SubmitSeen(fees, b, cmd);
    if Duplicate(b, cmd) {
      assert Weave([], []) == [] && st.log + [] == st.log;
    } else if Refused(b, cmd) {
      if cmd.id != "" {
        FreshLive(st, cmd);
      }
      RejectTold(Remember(b, cmd.id), cmd, st.log, after.placed);
    } else {
      MatchTold(fees, st, cmd);
    }
  }

  lemma SubmitSeen(fees: FeeResolver, b: Book, cmd: OrderCommand)
    ensures Submit(fees, b, cmd).0.seen == if cmd.id == "" then b.seen else b.seen + {cmd.id}
  {
  }

  lemma RemoveLive(orders: seq<Order>, k: nat, log: seq<Event>, e: Event, placed: Placed)
    requires AllLive(orders, log, placed) && k < |orders| && Distinct(orders)
    requires e.Reported? && e.status.orderId == orders[k].command.id
    ensures AllLive(Remove(orders, k), log + [e], placed)
  {
  }

  lemma CancelTold(b: Book, id: string, log: seq<Event>, placed: Placed)
    requires Told(b, log, placed) && Distinct(b.bids) && Distinct(b.asks) && Apart(b.bids, b.asks)
    requires AllResting(b.bids, Buy) && AllResting(b.asks, Sell)
    requires Find(b.bids, id) != -1 || Find(b.asks, id) != -1
    ensures var (b', outcome) := Cancel(b, id); Told(b', log + Weave(outcome.trades, outcome.statuses), placed)
  {
    hide Lawful, Live, Quantity, Paid, Closed, TradeCount, StatusCount, Remove, Find, NotionalOk;
    var (b', outcome) := Cancel(b, id);
    var i, j := Find(b.bids, id), Find(b.asks, id);
    var o := if i >= 0 then b.bids[i] else b.asks[j];
    var e := Reported(o.Report(b.statusSequence + 1, Canceled));
    assert Weave([], [e.status]) == [e];
    ReportOk(o, Canceled, log, placed);
    if i >= 0 {
      RemoveLive(b.bids, i, log, e, placed);
      AllUntouched(b.asks, log, e, placed);
    } else {
      RemoveLive(b.asks, j, log, e, placed);
      AllUntouched(b.bids, log, e, placed);
    }
  }

  lemma CancelGood(fees: FeeResolver, st: State, id: string)
    requires Good(st)
    ensures Good(Advance(fees, st, Drop(id)))
  {
    hide Told, Find, Remove, LevelsFit, Sorted, Known;
    var b := st.book;
    CancelOk(b, id);
    if Find(b.bids, id) == -1 && Find(b.asks, id) == -1 {
      assert Weave([], []) == [] && st.log + [] == st.log;
    } else {
      CancelTold(b, id, st.log, st.placed);
    }
  }

  /** Over every run of commands the log is lawful and agrees with the book. */
  lemma {:induction false} RunGood(fees: FeeResolver, capacity: nat, commands: seq<Command>)
    ensures Good(Run(fees, capacity, commands))
  {
    if commands == [] {
      EmptyOk(capacity);
    } else {
      var before, c := commands[..|commands| - 1], commands[|commands| - 1];
      RunGood(fees, capacity, before);
      match c
      case Place(cmd) => SubmitGood(fees, Run(fees, capacity, before), cmd);
      case Drop(id) => CancelGood(fees, Run(fees, capacity, before), id);
    }
  }
}
