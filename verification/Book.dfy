/** Orders, trades and results of the matching engine. */
module BookTypes {
  const U64_MAX: nat := 0xFFFF_FFFF_FFFF_FFFF
  type U64 = x: int | 0 <= x <= U64_MAX

  datatype Side = Buy | Sell
  datatype OrderType = Limit | Market
  datatype TimeInForce = GTC | IOC | FOK
  datatype Status = Open | Partial | Filled | Canceled | Rejected

  datatype OrderCommand = OrderCommand(
    id: string, userId: string, side: Side, kind: OrderType, tif: TimeInForce,
    price: U64, quantity: U64, timestamp: U64, feeTier: nat, postOnly: bool)

  datatype Trade = Trade(
    sequence: nat, timestamp: U64, makerId: string, takerId: string, makerUser: string, takerUser: string,
    price: nat, quantity: nat, makerFeeBps: int, takerFeeBps: int)

  datatype OrderStatus = OrderStatus(
    sequence: nat, orderId: string, status: Status, filled: int, remaining: nat, averagePrice: int)

  datatype Outcome = Outcome(trades: seq<Trade>, statuses: seq<OrderStatus>, duplicate: bool)

  datatype FeeRates = FeeRates(makerBps: int, takerBps: int)
  type FeeResolver = nat -> FeeRates

  /** The built-in fee table; an unknown tier pays the first tier's rates. */
  function DefaultFees(tier: nat): FeeRates {
    match tier
    case 1 => FeeRates(8, 10)
    case 2 => FeeRates(6, 9)
    case 3 => FeeRates(4, 8)
    case 4 => FeeRates(2, 7)
    case 5 => FeeRates(0, 6)
    case _ => FeeRates(10, 10)
  }

  /** An order in the book or on its way into it. */
  datatype Order = Order(command: OrderCommand, remaining: nat, notional: nat, status: Status) {
    function Filled(): int {
      command.quantity - remaining
    }

    function AveragePrice(): int {
      if Filled() == 0 then 0 else notional / Filled()
    }

    function Report(sequence: nat, status: Status): OrderStatus {
      OrderStatus(sequence, command.id, status, Filled(), remaining, AveragePrice())
    }

    function Price(): nat {
      command.price
    }
  }

  function Fresh(cmd: OrderCommand): Order {
    Order(cmd, cmd.quantity, 0, Open)
  }

  predicate Valid(cmd: OrderCommand) {
    && cmd.id != "" && cmd.userId != "" && cmd.quantity > 0
    && (cmd.kind.Market? || cmd.price > 0)
    && !(cmd.kind.Market? && cmd.tif.GTC?)
    && !(cmd.kind.Market? && cmd.postOnly)
  }

  /** A resting order at this price is within the command's limit. */
  predicate Reaches(cmd: OrderCommand, price: nat) {
    cmd.kind.Market? || (if cmd.side.Buy? then price <= cmd.price else price >= cmd.price)
  }

  /** Price p is served before price q on this side. */
  predicate Better(side: Side, p: nat, q: nat) {
    if side.Buy? then p > q else p < q
  }
}

/**
 The book as a reader would describe it: one list of orders per side, best
 price first and oldest first within a price. The pool of slots, the levels
 and the id index of the engine's book refine these lists.
 */
module BookSpec {
  import opened Arithmetic
  import opened BookTypes

  datatype Book = Book(
    capacity: nat, bids: seq<Order>, asks: seq<Order>, seen: set<string>,
    tradeSequence: nat, statusSequence: nat, bookSequence: nat)
  {
    function Own(side: Side): seq<Order> {
      if side.Buy? then bids else asks
    }

    function Opposite(side: Side): seq<Order> {
      if side.Buy? then asks else bids
    }

    predicate Full() {
      |bids| + |asks| >= capacity
    }

    predicate Crosses(cmd: OrderCommand) {
      var makers := Opposite(cmd.side);
      makers != [] && Reaches(cmd, makers[0].Price())
    }
  }

  function Empty(capacity: nat): Book {
    Book(capacity, [], [], {}, 0, 0, 0)
  }

  function Total(orders: seq<Order>): nat {
    if orders == [] then 0 else orders[0].remaining + Total(orders[1..])
  }

  /** The resting orders within the command's limit: a prefix of a sorted side. */
  function Eligible(cmd: OrderCommand, makers: seq<Order>): seq<Order> {
    if makers == [] || !Reaches(cmd, makers[0].Price()) then []
    else [makers[0]] + Eligible(cmd, makers[1..])
  }

  function LevelTotal(orders: seq<Order>, price: nat): nat {
    if orders == [] then 0
    else (if orders[0].Price() == price then orders[0].remaining else 0) + LevelTotal(orders[1..], price)
  }

  /** Behind every order at least as good. */
  function Insert(orders: seq<Order>, o: Order): seq<Order> {
    if orders == [] || Better(o.command.side, o.Price(), orders[0].Price()) then [o] + orders
    else [orders[0]] + Insert(orders[1..], o)
  }

  /** A matching in progress: the opposite side, the taker and what was emitted so far. */
  datatype Matching = Matching(
    makers: seq<Order>, taker: Order, trades: seq<Trade>, statuses: seq<OrderStatus>,
    tradeSequence: nat, statusSequence: nat, bookSequence: nat)
  {
    predicate CanFill() {
      taker.remaining > 0 && makers != [] && Reaches(taker.command, makers[0].Price())
    }
  }

  function MakeTrade(fees: FeeResolver, sequence: nat, maker: OrderCommand, taker: OrderCommand, quantity: nat): Trade {
    Trade(sequence, taker.timestamp, maker.id, taker.id, maker.userId, taker.userId, maker.price, quantity,
          fees(maker.feeTier).makerBps, fees(taker.feeTier).takerBps)
  }

  function Reduce(o: Order, quantity: nat, price: nat): Order
    requires quantity <= o.remaining
  {
    o.(remaining := o.remaining - quantity, notional := o.notional + price * quantity)
  }

  /** One fill against the best maker. */
  function FillOne(fees: FeeResolver, m: Matching): Matching
    requires m.CanFill()
  {
    var quantity := Min(m.taker.remaining, m.makers[0].remaining);
    var price := m.makers[0].Price();
    var maker := Reduce(m.makers[0], quantity, price);
    var status := if maker.remaining == 0 then Filled else Partial;
    Matching(
      if maker.remaining == 0 then m.makers[1..] else [maker.(status := Partial)] + m.makers[1..],
      Reduce(m.taker, quantity, price),
      m.trades + [MakeTrade(fees, m.tradeSequence + 1, maker.command, m.taker.command, quantity)],
      m.statuses + [maker.Report(m.statusSequence + 1, status)],
      m.tradeSequence + 1, m.statusSequence + 1, m.bookSequence + 1)
  }

  function FillAll(fees: FeeResolver, m: Matching): Matching
    decreases |m.makers|, m.taker.remaining
  {
    if m.CanFill() then FillAll(fees, FillOne(fees, m)) else m
  }

  function Start(b: Book, cmd: OrderCommand): Matching {
    Matching(b.Opposite(cmd.side), Fresh(cmd), [], [], b.tradeSequence, b.statusSequence, b.bookSequence)
  }

  predicate Rests(b: Book, taker: Order) {
    LevelTotal(b.Own(taker.command.side), taker.Price()) + taker.remaining <= U64_MAX
  }

  /** Puts a finished matching back into the book. */
  function Settle(b: Book, m: Matching): Book {
    var moved := b.(tradeSequence := m.tradeSequence, statusSequence := m.statusSequence,
                    bookSequence := m.bookSequence);
    if m.taker.command.side.Buy? then moved.(asks := m.makers) else moved.(bids := m.makers)
  }

  function Report(b: Book, m: Matching, taker: Order, status: Status): (Book, Outcome) {
    (b.(statusSequence := b.statusSequence + 1),
     Outcome(m.trades, m.statuses + [taker.Report(b.statusSequence + 1, status)], false))
  }

  /** What becomes of the taker once nothing more can be filled. */
  function Finish(b: Book, m: Matching): (Book, Outcome) {
    var untouched := m.taker.remaining == m.taker.command.quantity;
    if m.taker.remaining == 0 then Report(b, m, m.taker, Filled)
    else if m.taker.command.tif.GTC? && Rests(b, m.taker) then
      var status := if untouched then Open else Partial;
      var rested := m.taker.(status := status);
      var b' := b.(bookSequence := b.bookSequence + 1);
      Report(if rested.command.side.Buy? then b'.(bids := Insert(b'.bids, rested))
             else b'.(asks := Insert(b'.asks, rested)), m, rested, status)
    else Report(b, m, m.taker, if untouched then Rejected else Canceled)
  }

  /** Refused before matching. */
  predicate Refused(b: Book, cmd: OrderCommand) {
    || !Valid(cmd) || b.Full()
    || (cmd.postOnly && b.Crosses(cmd))
    || (cmd.tif.FOK? && Total(Eligible(cmd, b.Opposite(cmd.side))) < cmd.quantity)
  }

  function Reject(b: Book, cmd: OrderCommand): (Book, Outcome) {
    (b.(statusSequence := b.statusSequence + 1),
     Outcome([], [Fresh(cmd).Report(b.statusSequence + 1, Rejected)], false))
  }

  predicate Duplicate(b: Book, cmd: OrderCommand) {
    cmd.id != "" && cmd.id in b.seen
  }

  function Remember(b: Book, id: string): Book {
    if id == "" then b else b.(seen := b.seen + {id})
  }

  function Submit(fees: FeeResolver, b: Book, cmd: OrderCommand): (Book, Outcome) {
    if Duplicate(b, cmd) then (b, Outcome([], [], true))
    else if Refused(b, cmd) then Reject(Remember(b, cmd.id), cmd)
    else
      var m := FillAll(fees, Start(b, cmd));
      Finish(Settle(Remember(b, cmd.id), m), m)
  }

  /** Position of the order with this id, or -1. */
  function Find(orders: seq<Order>, id: string): (k: int)
    ensures -1 <= k < |orders|
    ensures k >= 0 ==> orders[k].command.id == id
    ensures k == -1 ==> forall i | 0 <= i < |orders| :: orders[i].command.id != id
  {
    if orders == [] then -1
    else if orders[0].command.id == id then 0
    else
      var k := Find(orders[1..], id);
      if k == -1 then -1 else k + 1
  }

  function Remove(orders: seq<Order>, k: nat): seq<Order>
    requires k < |orders|
  {
    orders[..k] + orders[k + 1..]
  }

  function Cancel(b: Book, id: string): (Book, Outcome) {
    var i, j := Find(b.bids, id), Find(b.asks, id);
    if i == -1 && j == -1 then (b, Outcome([], [], false))
    else
      var o := if i >= 0 then b.bids[i] else b.asks[j];
      var b' := b.(bookSequence := b.bookSequence + 1, statusSequence := b.statusSequence + 1);
      (if i >= 0 then b'.(bids := Remove(b.bids, i)) else b'.(asks := Remove(b.asks, j)),
       Outcome([], [o.Report(b'.statusSequence, Canceled)], false))
  }
}
