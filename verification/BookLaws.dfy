/** What every command keeps true of the book. */
module BookInvariant {
  import opened Arithmetic
  import opened BookTypes
  import opened BookSpec

  /** What was paid for the filled part is within the order's own limit and within 128 bits. */
  predicate NotionalOk(o: Order) {
    && 0 <= o.Filled()
    && o.notional <= U64_MAX * o.Filled()
    && (o.command.kind.Limit? && o.command.side.Buy? ==> o.notional <= o.Price() * o.Filled())
    && (o.command.kind.Limit? && o.command.side.Sell? ==> o.notional >= o.Price() * o.Filled())
  }

  /** An order resting on this side. */
  predicate RestingOk(o: Order, side: Side) {
    && o.command.side == side && o.command.kind.Limit? && o.command.tif.GTC? && o.command.id != ""
    && 0 < o.remaining <= o.command.quantity
    && NotionalOk(o)
    && o.status == if o.Filled() == 0 then Open else Partial
  }

  predicate AllResting(orders: seq<Order>, side: Side) {
    forall i | 0 <= i < |orders| :: RestingOk(orders[i], side)
  }

  /** Best price first. */
  predicate Sorted(orders: seq<Order>, side: Side) {
    forall i, j | 0 <= i < j < |orders| :: !Better(side, orders[j].Price(), orders[i].Price())
  }

  predicate Distinct(orders: seq<Order>) {
    forall i, j | 0 <= i < j < |orders| :: orders[i].command.id != orders[j].command.id
  }

  predicate Apart(left: seq<Order>, right: seq<Order>) {
    forall i, j | 0 <= i < |left| && 0 <= j < |right| :: left[i].command.id != right[j].command.id
  }

  predicate Known(orders: seq<Order>, ids: set<string>) {
    forall i | 0 <= i < |orders| :: orders[i].command.id in ids
  }

  ghost predicate LevelsFit(orders: seq<Order>) {
    forall p: nat :: LevelTotal(orders, p) <= U64_MAX
  }

  ghost predicate SideOk(orders: seq<Order>, side: Side, ids: set<string>) {
    && AllResting(orders, side) && Sorted(orders, side) && Distinct(orders) && Known(orders, ids) && LevelsFit(orders)
  }

  /** Every bid is below every ask. */
  predicate Uncrossed(bids: seq<Order>, asks: seq<Order>) {
    forall i, j | 0 <= i < |bids| && 0 <= j < |asks| :: bids[i].Price() < asks[j].Price()
  }

  ghost predicate BookOk(b: Book) {
    && SideOk(b.bids, Buy, b.seen) && SideOk(b.asks, Sell, b.seen)
    && Apart(b.bids, b.asks)
    && Uncrossed(b.bids, b.asks)
    && |b.bids| + |b.asks| <= b.capacity
  }

  lemma EmptyOk(capacity: nat)
    ensures BookOk(Empty(capacity))
  {
  }

  function OppositeSide(side: Side): Side {
    if side.Buy? then Sell else Buy
  }

  // One fill.

  /** Notional stays within bounds when `quantity` more is filled at `price`. */
  lemma SpendAtMost(notional: int, limit: int, filled: int, quantity: nat, price: int)
    requires notional <= limit * filled && price <= limit
    ensures notional + price * quantity <= limit * (filled + quantity)
  {
    assert limit * (filled + quantity) == limit * filled + limit * quantity;
    MulOrder(price, limit, quantity);
  }

  lemma SpendAtLeast(notional: int, limit: int, filled: int, quantity: nat, price: int)
    requires notional >= limit * filled && price >= limit
    ensures notional + price * quantity >= limit * (filled + quantity)
  {
    assert limit * (filled + quantity) == limit * filled + limit * quantity;
    MulOrder(limit, price, quantity);
  }

  lemma ReduceKeepsNotional(o: Order, quantity: nat, price: nat)
    requires NotionalOk(o) && quantity <= o.remaining && price <= U64_MAX
    requires o.command.kind.Limit? && o.command.side.Buy? ==> price <= o.Price()
    requires o.command.kind.Limit? && o.command.side.Sell? ==> price >= o.Price()
    ensures NotionalOk(Reduce(o, quantity, price))
  {
    SpendAtMost(o.notional, U64_MAX, o.Filled(), quantity, price);
    if o.command.kind.Limit? && o.command.side.Buy? {
      SpendAtMost(o.notional, o.Price(), o.Filled(), quantity, price);
    } else if o.command.kind.Limit? {
      SpendAtLeast(o.notional, o.Price(), o.Filled(), quantity, price);
    }
  }

  lemma LevelTotalStep(orders: seq<Order>, p: nat)
    requires orders != []
    ensures LevelTotal(orders[1..], p) <= LevelTotal(orders, p)
  {
  }

  /** Dropping the best order keeps a side in order. */
  lemma TailOk(orders: seq<Order>, side: Side, ids: set<string>)
    requires SideOk(orders, side, ids) && orders != []
    ensures SideOk(orders[1..], side, ids)
  {
    forall p: nat ensures LevelTotal(orders[1..], p) <= U64_MAX {
      LevelTotalStep(orders, p);
    }
  }

  /** So does shrinking it. */
  lemma ShrinkOk(orders: seq<Order>, side: Side, ids: set<string>, head: Order)
    requires SideOk(orders, side, ids) && orders != []
    requires RestingOk(head, side) && head.command == orders[0].command && head.remaining <= orders[0].remaining
    ensures SideOk([head] + orders[1..], side, ids)
  {
    var shrunk := [head] + orders[1..];
    assert shrunk[1..] == orders[1..];
    forall p: nat ensures LevelTotal(shrunk, p) <= U64_MAX {
      assert LevelTotal(shrunk, p) <= LevelTotal(orders, p);
    }
  }

  ghost predicate UncrossedFor(side: Side, own: seq<Order>, makers: seq<Order>) {
    if side.Buy? then Uncrossed(own, makers) else Uncrossed(makers, own)
  }

  /** The invariant of a matching: the opposite side stays in order, the taker stays within bounds. */
  ghost predicate MatchOk(m: Matching, own: seq<Order>, ids: set<string>) {
    var side := m.taker.command.side;
    && SideOk(m.makers, OppositeSide(side), ids)
    && Apart(own, m.makers) && UncrossedFor(side, own, m.makers)
    && NotionalOk(m.taker)
  }

  lemma FillOneOk(fees: FeeResolver, m: Matching, own: seq<Order>, ids: set<string>)
    requires m.CanFill() && MatchOk(m, own, ids)
    ensures MatchOk(FillOne(fees, m), own, ids)
  {
    var side := OppositeSide(m.taker.command.side);
    var quantity, price := Min(m.taker.remaining, m.makers[0].remaining), m.makers[0].Price();
    ReduceKeepsNotional(m.makers[0], quantity, price);
    ReduceKeepsNotional(m.taker, quantity, price);
    var maker := Reduce(m.makers[0], quantity, price).(status := Partial);
    if maker.remaining == 0 {
      TailOk(m.makers, side, ids);
    } else {
      ShrinkOk(m.makers, side, ids, maker);
    }
  }

  /** Everything a whole matching keeps. */
  lemma {:induction false} FillAllOk(fees: FeeResolver, m: Matching, own: seq<Order>, ids: set<string>)
    requires MatchOk(m, own, ids)
    ensures var m' := FillAll(fees, m);
      && MatchOk(m', own, ids)
      && m'.taker.command == m.taker.command && m'.taker.remaining <= m.taker.remaining
      && m'.taker.status == m.taker.status
      && |m'.makers| <= |m.makers|
      && !m'.CanFill()
    decreases |m.makers|, m.taker.remaining
  {
    if m.CanFill() {
      FillOneOk(fees, m, own, ids);
      FillAllOk(fees, FillOne(fees, m), own, ids);
    }
  }

  // Resting and removing.

  /** Where Insert puts a new order. */
  function Place(orders: seq<Order>, o: Order): (k: nat)
    ensures k <= |orders|
    ensures forall i | 0 <= i < k :: !Better(o.command.side, o.Price(), orders[i].Price())
    ensures k < |orders| ==> Better(o.command.side, o.Price(), orders[k].Price())
  {
    if orders == [] || Better(o.command.side, o.Price(), orders[0].Price()) then 0
    else 1 + Place(orders[1..], o)
  }

  lemma {:induction false} InsertAtPlace(orders: seq<Order>, o: Order)
    ensures Insert(orders, o) == orders[..Place(orders, o)] + [o] + orders[Place(orders, o)..]
  {
    if orders != [] && !Better(o.command.side, o.Price(), orders[0].Price()) {
      InsertAtPlace(orders[1..], o);
      var k := Place(orders[1..], o);
      assert orders[..k + 1] == [orders[0]] + orders[1..][..k];
      assert orders[k + 1..] == orders[1..][k..];
    }
  }

  lemma {:induction false} LevelTotalInsert(orders: seq<Order>, o: Order, p: nat)
    ensures LevelTotal(Insert(orders, o), p) == LevelTotal(orders, p) + if o.Price() == p then o.remaining else 0
  {
    if orders == [] || Better(o.command.side, o.Price(), orders[0].Price()) {
      assert ([o] + orders)[1..] == orders;
    } else {
      LevelTotalInsert(orders[1..], o, p);
      assert Insert(orders, o)[1..] == Insert(orders[1..], o);
    }
  }

  lemma InsertSorted(orders: seq<Order>, o: Order)
    requires Sorted(orders, o.command.side)
    ensures Sorted(Insert(orders, o), o.command.side)
  {
    InsertAtPlace(orders, o);
  }

  lemma InsertOk(orders: seq<Order>, o: Order, ids: set<string>)
    requires SideOk(orders, o.command.side, ids) && RestingOk(o, o.command.side)
    requires o.command.id in ids && Apart([o], orders)
    requires LevelTotal(orders, o.Price()) + o.remaining <= U64_MAX
    ensures SideOk(Insert(orders, o), o.command.side, ids)
  {
    hide NotionalOk, RestingOk, LevelTotal, Insert, Better;
    InsertSorted(orders, o);
    InsertAtPlace(orders, o);
    assert forall i | 0 <= i < |orders| :: [o][0].command.id != orders[i].command.id;
    forall p: nat ensures LevelTotal(Insert(orders, o), p) <= U64_MAX {
      LevelTotalInsert(orders, o, p);
    }
  }

  lemma {:induction false} LevelTotalRemove(orders: seq<Order>, k: nat, p: nat)
    requires k < |orders|
    ensures LevelTotal(Remove(orders, k), p) <= LevelTotal(orders, p)
  {
    if k == 0 {
      assert Remove(orders, k) == orders[1..];
    } else {
      LevelTotalRemove(orders[1..], k - 1, p);
      assert Remove(orders, k)[1..] == Remove(orders[1..], k - 1);
    }
  }

  lemma RemoveOk(orders: seq<Order>, k: nat, side: Side, ids: set<string>)
    requires SideOk(orders, side, ids) && k < |orders|
    ensures SideOk(Remove(orders, k), side, ids)
  {
    forall p: nat ensures LevelTotal(Remove(orders, k), p) <= U64_MAX {
      LevelTotalRemove(orders, k, p);
    }
  }

  lemma RemoveApart(orders: seq<Order>, k: nat, other: seq<Order>)
    requires k < |orders|
    ensures |Remove(orders, k)| == |orders| - 1
    ensures forall i | 0 <= i < |orders| - 1 ::
              Remove(orders, k)[i] == if i < k then orders[i] else orders[i + 1]
    ensures Apart(orders, other) ==> Apart(Remove(orders, k), other)
    ensures Apart(other, orders) ==> Apart(other, Remove(orders, k))
    ensures Uncrossed(orders, other) ==> Uncrossed(Remove(orders, k), other)
    ensures Uncrossed(other, orders) ==> Uncrossed(other, Remove(orders, k))
  {
  }

  lemma CancelOk(b: Book, id: string)
    requires BookOk(b)
    ensures BookOk(Cancel(b, id).0)
  {
    var i, j := Find(b.bids, id), Find(b.asks, id);
    if i >= 0 {
      RemoveOk(b.bids, i, Buy, b.seen);
      RemoveApart(b.bids, i, b.asks);
    } else if j >= 0 {
      RemoveOk(b.asks, j, Sell, b.seen);
      RemoveApart(b.asks, j, b.bids);
    }
  }

  // Submitting.

  lemma KnownGrows(orders: seq<Order>, side: Side, ids: set<string>, more: set<string>)
    requires SideOk(orders, side, ids) && ids <= more
    ensures SideOk(orders, side, more)
  {
  }

  lemma RememberOk(b: Book, cmd: OrderCommand)
    requires BookOk(b)
    ensures BookOk(Remember(b, cmd.id))
  {
  }

  lemma StartOk(b: Book, cmd: OrderCommand)
    requires BookOk(b)
    ensures MatchOk(Start(b, cmd), b.Own(cmd.side), b.seen)
  {
  }

  /** A matching put back: the book is in order again, and the taker is not in it. */
  lemma SettleOk(fees: FeeResolver, b: Book, cmd: OrderCommand)
    requires BookOk(b) && cmd.id !in b.seen
    ensures var m := FillAll(fees, Start(b, cmd));
      && BookOk(Settle(Remember(b, cmd.id), m))
      && Known(m.makers, b.seen)
  {
    var m := FillAll(fees, Start(b, cmd));
    var own, ids := b.Own(cmd.side), Remember(b, cmd.id).seen;
    StartOk(b, cmd);
    FillAllOk(fees, Start(b, cmd), own, b.seen);
    KnownGrows(m.makers, OppositeSide(cmd.side), b.seen, ids);
    KnownGrows(own, cmd.side, b.seen, ids);
  }

  /** No opposite order is within the limit of a taker that is left over. */
  lemma LeftoverUncrossed(m: Matching, own: seq<Order>, ids: set<string>, o: Order)
    requires MatchOk(m, own, ids) && !m.CanFill() && m.taker.remaining > 0 && m.taker.command.kind.Limit?
    requires o.command == m.taker.command
    ensures UncrossedFor(m.taker.command.side, [o], m.makers)
  {
  }

  /** Inserting an order that is apart from the other side, and uncrossed with it, keeps both. */
  lemma InsertApart(orders: seq<Order>, o: Order, other: seq<Order>)
    requires Apart([o], other)
    ensures |Insert(orders, o)| == |orders| + 1
    ensures Apart(orders, other) ==> Apart(Insert(orders, o), other)
    ensures Apart(other, orders) ==> Apart(other, Insert(orders, o))
    ensures Uncrossed(orders, other) && Uncrossed([o], other) ==> Uncrossed(Insert(orders, o), other)
    ensures Uncrossed(other, orders) && Uncrossed(other, [o]) ==> Uncrossed(other, Insert(orders, o))
  {
    InsertAtPlace(orders, o);
    assert [o][0] == o;
  }

  /** The taker's id is new, so it is apart from every known order. */
  lemma NewIdApart(orders: seq<Order>, ids: set<string>, o: Order)
    requires Known(orders, ids) && o.command.id !in ids
    ensures Apart([o], orders)
  {
  }

  /** The leftover of a GTC order is fit to rest. */
  lemma LeftoverRests(m: Matching)
    requires NotionalOk(m.taker) && Valid(m.taker.command) && m.taker.command.tif.GTC? && m.taker.remaining > 0
    ensures var status := if m.taker.remaining == m.taker.command.quantity then Open else Partial;
      RestingOk(m.taker.(status := status), m.taker.command.side)
  {
  }

  lemma FinishOk(b: Book, m: Matching, ids: set<string>)
    requires BookOk(b) && m.makers == b.Opposite(m.taker.command.side)
    requires MatchOk(m, b.Own(m.taker.command.side), b.seen) && !m.CanFill()
    requires Valid(m.taker.command) && |b.bids| + |b.asks| < b.capacity
    requires Known(b.bids, ids) && Known(b.asks, ids) && m.taker.command.id !in ids && m.taker.command.id in b.seen
    ensures BookOk(Finish(b, m).0)
  {
    hide SideOk, NotionalOk, Insert, RestingOk, LevelTotal, Apart, Known, Uncrossed;
    if m.taker.remaining > 0 && m.taker.command.tif.GTC? && Rests(b, m.taker) {
      var side := m.taker.command.side;
      var status := if m.taker.remaining == m.taker.command.quantity then Open else Partial;
      var rested := m.taker.(status := status);
      LeftoverRests(m);
      LeftoverUncrossed(m, b.Own(side), b.seen, rested);
      NewIdApart(b.bids, ids, rested);
      NewIdApart(b.asks, ids, rested);
      InsertOk(b.Own(side), rested, b.seen);
      InsertApart(b.Own(side), rested, m.makers);
    }
  }

  /** Every submitted command leaves the book in order. */
  lemma SubmitOk(fees: FeeResolver, b: Book, cmd: OrderCommand)
    requires BookOk(b)
    ensures BookOk(Submit(fees, b, cmd).0)
  {
    if !Duplicate(b, cmd) {
      RememberOk(b, cmd);
      if !Refused(b, cmd) {
        var m := FillAll(fees, Start(b, cmd));
        var settled := Settle(Remember(b, cmd.id), m);
        SettleOk(fees, b, cmd);
        StartOk(b, cmd);
        FillAllOk(fees, Start(b, cmd), b.Own(cmd.side), b.seen);
        KnownGrows(m.makers, OppositeSide(cmd.side), b.seen, settled.seen);
        FinishOk(settled, m, b.seen);
      }
    }
  }
}
