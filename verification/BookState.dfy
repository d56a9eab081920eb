/** The pool and both sides of the book as values, before and while an order is matched. */
module BookState {
  import opened Arithmetic
  import opened BookTypes
  import opened BookSpec
  import opened BookInvariant
  import opened Levels
  import opened SlotPool

  const U128: nat := 0x1_0000_0000_0000_0000_0000_0000_0000_0000

  /** The 128-bit notional. */
  function Wrap128(x: nat): nat {
    x % U128
  }

  /** No filled notional leaves 128 bits. */
  lemma NotionalFits(o: Order)
    requires NotionalOk(o)
    ensures o.notional < U128
  {
  }

  /** What one fill does to a matching in progress. */
  lemma FillKept(fees: FeeResolver, m: Matching, own: seq<Order>, ids: set<string>)
    requires MatchOk(m, own, ids) && m.CanFill()
    ensures NotionalOk(m.taker) && NotionalOk(m.makers[0])
    ensures var m' := FillOne(fees, m);
      && MatchOk(m', own, ids) && FillAll(fees, m') == FillAll(fees, m) && m'.taker.command == m.taker.command
      && (|m'.makers| < |m.makers| || (|m'.makers| == |m.makers| && m'.taker.remaining < m.taker.remaining))
  {
    FillOneOk(fees, m, own, ids);
  }

  /**
   The pool and both sides while the order in `slot` is matched against
   `levels`.
   */
  ghost predicate Matchable(storage: seq<Order>, free: seq<nat>, byId: map<string, nat>, live: int,
                            levels: seq<PriceLevel>, own: seq<PriceLevel>, slot: nat)
  {
    && AllLevelsOk(levels, storage) && AllLevelsOk(own, storage)
    && PoolOk(storage, free, byId, live, multiset(Flat(levels)) + multiset{slot} + multiset(Flat(own)))
  }

  /** One fill that leaves an exhausted maker at the front. */
  ghost function Hurt(fees: FeeResolver, m: Matching): Matching
    requires m.CanFill()
  {
    var quantity := Min(m.taker.remaining, m.makers[0].remaining);
    var maker := Reduce(m.makers[0], quantity, m.makers[0].Price());
    FillOne(fees, m).(makers := [maker.(status := if maker.remaining == 0 then Filled else Partial)] + m.makers[1..])
  }

  /** The first queued slot: in the pool, at the level's price, queued once, and not the taker's. */
  lemma FrontOf(storage: seq<Order>, free: seq<nat>, byId: map<string, nat>, live: int,
                levels: seq<PriceLevel>, own: seq<PriceLevel>, slot: nat)
    requires Matchable(storage, free, byId, live, levels, own, slot)
    requires levels != [] && levels[0].queue != []
    ensures var s := levels[0].queue[0];
      && Flat(levels) != [] && s == Flat(levels)[0] && s < |storage| && s != slot
      && storage[s].Price() == levels[0].price && Orders(storage, Flat(levels))[0] == storage[s]
  {
    hide PoolOk;
    assert LevelOk(levels[0], storage);
    HeadOnce(storage, free, byId, live, Flat(levels), slot, multiset(Flat(own)));
  }

  lemma FillKeepsNotional(m: Matching)
    requires m.CanFill() && NotionalOk(m.taker) && NotionalOk(m.makers[0])
    ensures var quantity := Min(m.taker.remaining, m.makers[0].remaining);
      && NotionalOk(Reduce(m.taker, quantity, m.makers[0].Price()))
      && NotionalOk(Reduce(m.makers[0], quantity, m.makers[0].Price()))
  {
    var quantity := Min(m.taker.remaining, m.makers[0].remaining);
    ReduceKeepsNotional(m.taker, quantity, m.makers[0].Price());
    ReduceKeepsNotional(m.makers[0], quantity, m.makers[0].Price());
  }

  /** The pool and the levels after the best maker and the taker changed. */
  lemma AfterFill(storage: seq<Order>, free: seq<nat>, byId: map<string, nat>, live: int,
                  levels: seq<PriceLevel>, own: seq<PriceLevel>, slot: nat, maker: Order, taker: Order)
    requires Matchable(storage, free, byId, live, levels, own, slot)
    requires Flat(levels) != [] && Flat(levels)[0] < |storage| && slot < |storage|
    requires maker.command == storage[Flat(levels)[0]].command && taker.command == storage[slot].command
    ensures var storage' := storage[Flat(levels)[0] := maker][slot := taker];
      && Matchable(storage', free, byId, live, levels, own, slot) && storage'[slot] == taker
      && Orders(storage', Flat(levels)) == [maker] + Orders(storage, Flat(levels))[1..]
      && Orders(storage', Flat(own)) == Orders(storage, Flat(own))
  {
    hide PoolOk;
    var s := Flat(levels)[0];
    var used := multiset(Flat(levels)) + multiset{slot} + multiset(Flat(own));
    HeadOnce(storage, free, byId, live, Flat(levels), slot, multiset(Flat(own)));
    PoolUpdate(storage, free, byId, live, used, s, maker);
    PoolUpdate(storage[s := maker], free, byId, live, used, slot, taker);
    BothMatchOk(levels, own, storage, s, slot, maker, taker);
    UpdateHead(storage, Flat(levels), slot, maker, taker);
    OrdersUpdate(storage, Flat(own), s, maker);
    OrdersUpdate(storage[s := maker], Flat(own), slot, taker);
  }

  lemma BothMatchOk(levels: seq<PriceLevel>, own: seq<PriceLevel>, storage: seq<Order>, s: nat, slot: nat,
                 maker: Order, taker: Order)
    requires AllLevelsOk(levels, storage) && AllLevelsOk(own, storage)
    requires s < |storage| && slot < |storage| && s != slot
    requires maker.command == storage[s].command && taker.command == storage[slot].command
    ensures var storage' := storage[s := maker][slot := taker];
      AllLevelsOk(levels, storage') && AllLevelsOk(own, storage')
  {
  }

  /** The levels without the front slot. */
  function PopFront(levels: seq<PriceLevel>): seq<PriceLevel>
    requires levels != [] && levels[0].queue != []
  {
    [PriceLevel(levels[0].price, levels[0].queue[1..])] + levels[1..]
  }

  lemma PopFlat(levels: seq<PriceLevel>, storage: seq<Order>)
    requires levels != [] && levels[0].queue != [] && AllLevelsOk(levels, storage)
    ensures Flat(PopFront(levels)) == Flat(levels)[1..]
    ensures AllLevelsOk(PopFront(levels), storage)
  {
    hide LevelOk, Flat, PopFront, AllLevelsOk;
    PopQueue(levels);
    PopLevels(levels, storage);
  }

  lemma PopQueue(levels: seq<PriceLevel>)
    requires levels != [] && levels[0].queue != []
    ensures Flat(PopFront(levels)) == Flat(levels)[1..]
  {
    var popped, rest := PopFront(levels), Flat(levels[1..]);
    assert popped[1..] == levels[1..];
    assert (levels[0].queue + rest)[1..] == levels[0].queue[1..] + rest;
  }

  lemma PopLevels(levels: seq<PriceLevel>, storage: seq<Order>)
    requires levels != [] && levels[0].queue != [] && AllLevelsOk(levels, storage)
    ensures AllLevelsOk(PopFront(levels), storage)
  {
    hide LevelOk;
    PopLevel(levels[0], storage);
    var popped := PopFront(levels);
    forall i | 0 <= i < |popped| ensures LevelOk(popped[i], storage) {
      if i > 0 {
        assert popped[i] == levels[i];
      }
    }
  }

  lemma PopLevel(level: PriceLevel, storage: seq<Order>)
    requires LevelOk(level, storage) && level.queue != []
    ensures LevelOk(PriceLevel(level.price, level.queue[1..]), storage)
  {
  }

  /** The pool after the front slot was popped and released. */
  lemma AfterPop(storage: seq<Order>, free: seq<nat>, byId: map<string, nat>, live: int,
                 levels: seq<PriceLevel>, own: seq<PriceLevel>, slot: nat)
    requires Matchable(storage, free, byId, live, levels, own, slot) && levels != [] && levels[0].queue != []
    ensures var s := levels[0].queue[0];
      && s < |storage|
      && Matchable(storage, free + [s], byId - {storage[s].command.id}, live - 1, PopFront(levels), own, slot)
      && Orders(storage, Flat(PopFront(levels))) == Orders(storage, Flat(levels))[1..]
  {
    hide PoolOk;
    PopFlat(levels, storage);
    assert multiset(Flat(levels)) + multiset{slot} + multiset(Flat(own))
        == multiset(Flat(levels)) + (multiset{slot} + multiset(Flat(own)));
    PoolPop(storage, free, byId, live, Flat(levels), multiset{slot} + multiset(Flat(own)));
    assert multiset(Flat(levels)[1..]) + multiset{slot} + multiset(Flat(own))
        == multiset(Flat(levels)[1..]) + (multiset{slot} + multiset(Flat(own)));
  }

  lemma PoolPop(storage: seq<Order>, free: seq<nat>, byId: map<string, nat>, live: int, slots: seq<nat>,
                others: multiset<nat>)
    requires PoolOk(storage, free, byId, live, multiset(slots) + others) && slots != []
    ensures slots[0] < |storage|
    ensures PoolOk(storage, free + [slots[0]], byId - {storage[slots[0]].command.id}, live - 1,
                   multiset(slots[1..]) + others)
  {
    hide PoolOk;
    var used := multiset(slots) + others;
    assert slots == [slots[0]] + slots[1..];
    PoolRelease(storage, free, byId, live, used, slots[0]);
    assert used - multiset{slots[0]} == multiset(slots[1..]) + others;
  }

  /** Updating the first of a list of slots, and one outside it. */
  lemma UpdateHead(storage: seq<Order>, slots: seq<nat>, slot: nat, maker: Order, taker: Order)
    requires slots != [] && slots[0] < |storage| && slot < |storage|
    requires slots[0] !in slots[1..] && slot !in slots
    ensures var storage' := storage[slots[0] := maker][slot := taker];
      && storage'[slot] == taker
      && Orders(storage', slots) == [maker] + Orders(storage, slots)[1..]
      && Orders(storage', slots[1..]) == Orders(storage, slots)[1..]
  {
  }

  /** The first queued slot is neither queued again nor the taker's. */
  lemma HeadOnce(storage: seq<Order>, free: seq<nat>, byId: map<string, nat>, live: int,
                 slots: seq<nat>, slot: nat, others: multiset<nat>)
    requires PoolOk(storage, free, byId, live, multiset(slots) + multiset{slot} + others)
    requires slots != []
    ensures slots[0] !in slots[1..] && slot !in slots && slots[0] !in others && slot !in others
    ensures slots[0] < |storage| && slot < |storage|
  {
    hide PoolOk;
    var used := multiset(slots) + multiset{slot} + others;
    assert slots == [slots[0]] + slots[1..];
    UsedOnce(storage, free, byId, live, used, slots[0]);
    UsedOnce(storage, free, byId, live, used, slot);
  }

  lemma FreshPool(storage: seq<Order>, free: seq<nat>)
    requires multiset(free) == AllSlots(|storage|) && |free| == |storage|
    ensures AtRest(storage, free, map[], 0, [], []) && Tidy([], Buy) && Tidy([], Sell)
  {
  }

  // The levels of one side, unfolded only where the lemmas below need it.

  ghost predicate Tidy(levels: seq<PriceLevel>, side: Side) {
    LevelsSorted(levels, side) && NonEmpty(levels)
  }

  lemma TidyFront(levels: seq<PriceLevel>, side: Side)
    requires Tidy(levels, side) && levels != []
    ensures levels[0].queue != []
  {
  }

  /** A tidy side whose first level changed but did not empty. */
  lemma TidyHead(levels: seq<PriceLevel>, changed: seq<PriceLevel>, side: Side)
    requires Tidy(levels, side) && levels != [] && changed != []
    requires changed[0].price == levels[0].price && changed[1..] == levels[1..] && changed[0].queue != []
    ensures Tidy(changed, side)
  {
  }

  lemma TidyTail(levels: seq<PriceLevel>, side: Side)
    requires Tidy(levels, side) && levels != []
    ensures Tidy(levels[1..], side)
  {
  }

  /** Erasing a first level that emptied. */
  lemma DropEmpty(storage: seq<Order>, free: seq<nat>, byId: map<string, nat>, live: int,
                  levels: seq<PriceLevel>, own: seq<PriceLevel>, slot: nat)
    requires Matchable(storage, free, byId, live, levels, own, slot) && levels != [] && levels[0].queue == []
    ensures Matchable(storage, free, byId, live, levels[1..], own, slot) && Flat(levels[1..]) == Flat(levels)
  {
    hide PoolOk, LevelOk;
    assert [] + Flat(levels[1..]) == Flat(levels[1..]);
  }

  /** Both sides at rest: every used slot is queued once. */
  ghost predicate AtRest(storage: seq<Order>, free: seq<nat>, byId: map<string, nat>, live: int,
                         levels: seq<PriceLevel>, own: seq<PriceLevel>)
  {
    && AllLevelsOk(levels, storage) && AllLevelsOk(own, storage)
    && PoolOk(storage, free, byId, live, multiset(Flat(levels)) + multiset(Flat(own)))
  }

  lemma SwapSides(storage: seq<Order>, free: seq<nat>, byId: map<string, nat>, live: int,
                  levels: seq<PriceLevel>, own: seq<PriceLevel>)
    requires AtRest(storage, free, byId, live, levels, own)
    ensures AtRest(storage, free, byId, live, own, levels)
  {
    hide PoolOk;
    assert multiset(Flat(levels)) + multiset(Flat(own)) == multiset(Flat(own)) + multiset(Flat(levels));
  }

  /** The order takes the last free slot. */
  lemma AfterEnter(storage: seq<Order>, free: seq<nat>, byId: map<string, nat>, live: int,
                   levels: seq<PriceLevel>, own: seq<PriceLevel>, o: Order)
    requires AtRest(storage, free, byId, live, levels, own) && free != [] && o.command.id !in byId
    ensures var s := free[|free| - 1];
      && s < |storage|
      && Matchable(storage[s := o], free[..|free| - 1], byId[o.command.id := s], live + 1, levels, own, s)
      && Orders(storage[s := o], Flat(levels)) == Orders(storage, Flat(levels))
      && Orders(storage[s := o], Flat(own)) == Orders(storage, Flat(own))
  {
    hide PoolOk;
    var used, s := multiset(Flat(levels)) + multiset(Flat(own)), free[|free| - 1];
    PoolAcquire(storage, free, byId, live, used, o);
    assert s !in Flat(levels) && s !in Flat(own);
    assert used + multiset{s} == multiset(Flat(levels)) + multiset{s} + multiset(Flat(own));
    OutsideKeepsLevels(levels, storage, s, o);
    OutsideKeepsLevels(own, storage, s, o);
    OrdersUpdate(storage, Flat(levels), s, o);
    OrdersUpdate(storage, Flat(own), s, o);
  }

  /** The taker changes but keeps its command. */
  lemma AfterTaker(storage: seq<Order>, free: seq<nat>, byId: map<string, nat>, live: int,
                   levels: seq<PriceLevel>, own: seq<PriceLevel>, slot: nat, o: Order)
    requires Matchable(storage, free, byId, live, levels, own, slot)
    requires slot < |storage| && o.command == storage[slot].command
    ensures Matchable(storage[slot := o], free, byId, live, levels, own, slot)
    ensures Orders(storage[slot := o], Flat(levels)) == Orders(storage, Flat(levels))
    ensures Orders(storage[slot := o], Flat(own)) == Orders(storage, Flat(own))
  {
    hide PoolOk;
    var used := multiset(Flat(levels)) + multiset{slot} + multiset(Flat(own));
    UsedOnce(storage, free, byId, live, used, slot);
    assert slot !in Flat(levels) && slot !in Flat(own);
    PoolUpdate(storage, free, byId, live, used, slot, o);
    UpdateKeepsLevels(levels, storage, slot, o);
    UpdateKeepsLevels(own, storage, slot, o);
    OrdersUpdate(storage, Flat(levels), slot, o);
    OrdersUpdate(storage, Flat(own), slot, o);
  }

  /** The taker gives its slot back. */
  lemma AfterLeave(storage: seq<Order>, free: seq<nat>, byId: map<string, nat>, live: int,
                   levels: seq<PriceLevel>, own: seq<PriceLevel>, slot: nat)
    requires Matchable(storage, free, byId, live, levels, own, slot) && slot < |storage|
    ensures AtRest(storage, free + [slot], byId - {storage[slot].command.id}, live - 1, levels, own)
  {
    hide PoolOk;
    var used := multiset(Flat(levels)) + multiset{slot} + multiset(Flat(own));
    PoolRelease(storage, free, byId, live, used, slot);
    assert used - multiset{slot} == multiset(Flat(levels)) + multiset(Flat(own));
  }

  /** The taker joins its own side. */
  lemma AfterRest(storage: seq<Order>, free: seq<nat>, byId: map<string, nat>, live: int,
                  levels: seq<PriceLevel>, own: seq<PriceLevel>, slot: nat)
    requires Matchable(storage, free, byId, live, levels, own, slot) && slot < |storage|
    requires Tidy(own, storage[slot].command.side)
    ensures var pushed := Push(own, storage[slot].command.side, storage[slot].Price(), slot);
      && AtRest(storage, free, byId, live, levels, pushed) && Tidy(pushed, storage[slot].command.side)
      && Orders(storage, Flat(pushed)) == Insert(Orders(storage, Flat(own)), storage[slot])
  {
    hide PoolOk;
    var side, price := storage[slot].command.side, storage[slot].Price();
    PushIsInsert(own, storage, slot);
    PushOrdered(own, storage, side, slot);
    PushFlat(own, side, price, slot);
    assert multiset(Flat(levels)) + multiset{slot} + multiset(Flat(own))
        == multiset(Flat(levels)) + multiset(Flat(Push(own, side, price, slot)));
  }

  /** The book's free slots are exactly the room it has left. */
  lemma RoomLeft(storage: seq<Order>, free: seq<nat>, byId: map<string, nat>, live: int,
                 levels: seq<PriceLevel>, own: seq<PriceLevel>)
    requires AtRest(storage, free, byId, live, levels, own)
    ensures |free| + |Flat(levels)| + |Flat(own)| == |storage|
    ensures live == |Flat(levels)| + |Flat(own)|
  {
    hide PoolOk;
    PoolCount(storage, free, byId, live, multiset(Flat(levels)) + multiset(Flat(own)));
    assert |multiset(Flat(levels))| == |Flat(levels)| && |multiset(Flat(own))| == |Flat(own)|;
  }

  /** The index holds no id that neither side shows. */
  lemma IndexedIsShown(storage: seq<Order>, free: seq<nat>, byId: map<string, nat>, live: int,
                       levels: seq<PriceLevel>, own: seq<PriceLevel>, id: string)
    requires AtRest(storage, free, byId, live, levels, own) && id in byId
    ensures byId[id] < |storage| && storage[byId[id]].command.id == id
    ensures byId[id] in Flat(levels) || byId[id] in Flat(own)
  {
  }

  lemma NoTotal()
    ensures Total([]) == 0
  {
  }

  lemma SlotsInPool(level: PriceLevel, storage: seq<Order>)
    requires LevelOk(level, storage)
    ensures forall i | 0 <= i < |level.queue| :: level.queue[i] < |storage|
  {
  }

  // The level total a resting order would join, as the code adds it up.

  lemma {:induction false} TotalSnoc(orders: seq<Order>, o: Order)
    ensures Total(orders + [o]) == Total(orders) + o.remaining
  {
    if orders != [] {
      TotalSnoc(orders[1..], o);
      assert (orders + [o])[1..] == orders[1..] + [o];
    }
  }

  lemma {:induction false} TotalPrefix(orders: seq<Order>, k: nat)
    requires k <= |orders|
    ensures Total(orders[..k]) <= Total(orders)
  {
    if k > 0 {
      TotalPrefix(orders[1..], k - 1);
      assert orders[..k][1..] == orders[1..][..k - 1];
    }
  }

  /** The side's total at the taker's price is the total of the queue it would join. */
  lemma JoinTotal(storage: seq<Order>, free: seq<nat>, byId: map<string, nat>, live: int,
                  levels: seq<PriceLevel>, own: seq<PriceLevel>, slot: nat)
    requires Matchable(storage, free, byId, live, levels, own, slot) && slot < |storage|
    requires Tidy(own, storage[slot].command.side)
    ensures LevelTotal(Orders(storage, Flat(own)), storage[slot].Price())
         == Total(Orders(storage, QueueAt(own, storage[slot].Price())))
  {
    hide PoolOk;
    QueueTotal(own, storage, storage[slot].command.side, storage[slot].Price());
  }

  lemma JoinSlots(storage: seq<Order>, free: seq<nat>, byId: map<string, nat>, live: int,
                  levels: seq<PriceLevel>, own: seq<PriceLevel>, slot: nat, i: nat)
    requires Matchable(storage, free, byId, live, levels, own, slot) && slot < |storage|
    requires i < |QueueAt(own, storage[slot].Price())|
    ensures QueueAt(own, storage[slot].Price())[i] < |storage|
  {
    hide PoolOk;
    QueueInPool(own, storage, storage[slot].Price(), i);
  }

  lemma {:induction false} QueueInPool(levels: seq<PriceLevel>, storage: seq<Order>, price: nat, i: nat)
    requires AllLevelsOk(levels, storage) && i < |QueueAt(levels, price)|
    ensures QueueAt(levels, price)[i] < |storage|
  {
    if levels[0].price == price {
      assert LevelOk(levels[0], storage);
    } else {
      QueueInPool(levels[1..], storage, price, i);
    }
  }

  /** The first level of a side carries the price of its first order. */
  lemma BestPrice(storage: seq<Order>, free: seq<nat>, byId: map<string, nat>, live: int,
                  bids: seq<PriceLevel>, asks: seq<PriceLevel>)
    requires AtRest(storage, free, byId, live, bids, asks) && Tidy(bids, Buy) && Tidy(asks, Sell)
    ensures bids == [] <==> Flat(bids) == []
    ensures asks == [] <==> Flat(asks) == []
    ensures bids != [] ==> Orders(storage, Flat(bids))[0].Price() == bids[0].price
    ensures asks != [] ==> Orders(storage, Flat(asks))[0].Price() == asks[0].price
  {
    hide PoolOk;
    if bids != [] {
      assert LevelOk(bids[0], storage);
    }
    if asks != [] {
      assert LevelOk(asks[0], storage);
    }
  }

  lemma LevelInPool(storage: seq<Order>, free: seq<nat>, byId: map<string, nat>, live: int,
                    bids: seq<PriceLevel>, asks: seq<PriceLevel>, side: Side, i: nat)
    requires AtRest(storage, free, byId, live, bids, asks) && Tidy(bids, Buy) && Tidy(asks, Sell)
    requires i < |if side.Buy? then asks else bids|
    ensures var level := (if side.Buy? then asks else bids)[i]; LevelOk(level, storage) && level.queue != []
  {
    hide PoolOk;
  }

  lemma {:induction false} EligibleConcat(cmd: OrderCommand, left: seq<Order>, right: seq<Order>)
    requires forall i | 0 <= i < |left| :: Reaches(cmd, left[i].Price())
    ensures Total(Eligible(cmd, left + right)) == Total(left) + Total(Eligible(cmd, right))
  {
    if left == [] {
      assert left + right == right;
    } else {
      EligibleConcat(cmd, left[1..], right);
      assert (left + right)[1..] == left[1..] + right;
      assert Eligible(cmd, left + right)[1..] == Eligible(cmd, left[1..] + right);
    }
  }

  /** A level within the limit contributes its whole queue; the first one outside ends the count. */
  lemma NoneEligible(storage: seq<Order>, cmd: OrderCommand)
    ensures Total(Eligible(cmd, Orders(storage, Flat([])))) == 0
  {
  }

  lemma EligibleSplit(storage: seq<Order>, levels: seq<PriceLevel>, cmd: OrderCommand)
    requires levels != [] && LevelOk(levels[0], storage) && levels[0].queue != []
    ensures Total(Eligible(cmd, Orders(storage, Flat(levels))))
         == if Reaches(cmd, levels[0].price)
            then Total(Orders(storage, levels[0].queue)) + Total(Eligible(cmd, Orders(storage, Flat(levels[1..]))))
            else 0
  {
    var queue, rest := levels[0].queue, Flat(levels[1..]);
    OrdersConcat(storage, queue, rest);
    if Reaches(cmd, levels[0].price) {
      EligibleConcat(cmd, Orders(storage, queue), Orders(storage, rest));
    } else {
      assert Orders(storage, Flat(levels))[0] == storage[queue[0]];
    }
  }

  lemma LeftoverFits(fees: FeeResolver, b: Book, cmd: OrderCommand)
    requires BookOk(b)
    ensures FillAll(fees, Start(b, cmd)).taker.remaining <= U64_MAX
  {
    StartOk(b, cmd);
    FillAllOk(fees, Start(b, cmd), b.Own(cmd.side), b.seen);
  }

  /** Every indexed id was seen. */
  lemma IndexedIsSeen(storage: seq<Order>, free: seq<nat>, byId: map<string, nat>, live: int,
                      bids: seq<PriceLevel>, asks: seq<PriceLevel>, b: Book, id: string)
    requires AtRest(storage, free, byId, live, bids, asks) && BookOk(b) && id in byId
    requires b.bids == Orders(storage, Flat(bids)) && b.asks == Orders(storage, Flat(asks))
    ensures id in b.seen
  {
    hide PoolOk;
    IndexedIsShown(storage, free, byId, live, bids, asks, id);
    var s := byId[id];
    if s in Flat(bids) {
      var k :| 0 <= k < |Flat(bids)| && Flat(bids)[k] == s;
      assert b.bids[k].command.id == id;
    } else {
      var k :| 0 <= k < |Flat(asks)| && Flat(asks)[k] == s;
      assert b.asks[k].command.id == id;
    }
  }

  // Cancelling.

  /** An id that is not indexed is on neither side. */
  lemma NotShown(storage: seq<Order>, free: seq<nat>, byId: map<string, nat>, live: int,
                 bids: seq<PriceLevel>, asks: seq<PriceLevel>, id: string)
    requires AtRest(storage, free, byId, live, bids, asks) && id !in byId
    ensures Find(Orders(storage, Flat(bids)), id) == -1 && Find(Orders(storage, Flat(asks)), id) == -1
  {
    QueuedIsIndexed(storage, byId, multiset(Flat(bids)) + multiset(Flat(asks)), Flat(bids), id);
    QueuedIsIndexed(storage, byId, multiset(Flat(bids)) + multiset(Flat(asks)), Flat(asks), id);
  }

  lemma QueuedIsIndexed(storage: seq<Order>, byId: map<string, nat>, used: multiset<nat>, slots: seq<nat>, id: string)
    requires IndexOk(byId, storage, used) && multiset(slots) <= used && id !in byId
    ensures Find(Orders(storage, slots), id) == -1
  {
    forall i | 0 <= i < |slots| ensures Orders(storage, slots)[i].command.id != id {
      assert slots[i] in multiset(slots);
    }
  }

  /** An indexed order rests on its own side, at position k, and nothing has ended it. */
  lemma IndexedRests(storage: seq<Order>, free: seq<nat>, byId: map<string, nat>, live: int,
                     bids: seq<PriceLevel>, asks: seq<PriceLevel>, b: Book, id: string) returns (k: nat)
    requires AtRest(storage, free, byId, live, bids, asks) && BookOk(b) && id in byId
    requires b.bids == Orders(storage, Flat(bids)) && b.asks == Orders(storage, Flat(asks))
    ensures byId[id] < |storage|
    ensures var o := storage[byId[id]];
      && o.command.id == id && o.remaining > 0 && !o.status.Canceled? && !o.status.Rejected?
      && k < |Flat(if o.command.side.Buy? then bids else asks)|
      && Flat(if o.command.side.Buy? then bids else asks)[k] == byId[id]
      && (if o.command.side.Buy? then Find(b.bids, id) == k else Find(b.bids, id) == -1 && Find(b.asks, id) == k)
  {
    hide PoolOk;
    IndexedIsShown(storage, free, byId, live, bids, asks, id);
    var s := byId[id];
    if s in Flat(bids) {
      k :| 0 <= k < |Flat(bids)| && Flat(bids)[k] == s;
      assert RestingOk(b.bids[k], Buy);
      FindAt(b.bids, k);
    } else {
      k :| 0 <= k < |Flat(asks)| && Flat(asks)[k] == s;
      assert RestingOk(b.asks[k], Sell);
      FindAt(b.asks, k);
      assert Find(b.bids, id) == -1;
    }
  }

  /** The book and the report after the order at position k of its side was cancelled. */
  ghost function Withdrawn(b: Book, o: Order, k: nat): (Book, Outcome)
    requires k < |b.Own(o.command.side)|
  {
    var b' := b.(bookSequence := b.bookSequence + 1, statusSequence := b.statusSequence + 1);
    (if o.command.side.Buy? then b'.(bids := Remove(b.bids, k)) else b'.(asks := Remove(b.asks, k)),
     Outcome([], [o.Report(b'.statusSequence, Canceled)], false))
  }

  lemma CancelMisses(b: Book, id: string)
    requires Find(b.bids, id) == -1 && Find(b.asks, id) == -1
    ensures Cancel(b, id) == (b, Outcome([], [], false))
  {
  }

  lemma CancelIs(b: Book, id: string, o: Order, k: nat)
    requires k < |b.Own(o.command.side)| && b.Own(o.command.side)[k] == o
    requires if o.command.side.Buy? then Find(b.bids, id) == k else Find(b.bids, id) == -1 && Find(b.asks, id) == k
    ensures Cancel(b, id) == Withdrawn(b, o, k)
  {
  }

  lemma FindAt(orders: seq<Order>, k: nat)
    requires Distinct(orders) && k < |orders|
    ensures Find(orders, orders[k].command.id) == k
  {
  }

  /** Erasing a queued slot removes its order from the flat side and leaves the slot pending. */
  lemma AfterErase(storage: seq<Order>, free: seq<nat>, byId: map<string, nat>, live: int,
                   levels: seq<PriceLevel>, own: seq<PriceLevel>, s: nat, k: nat)
    requires AtRest(storage, free, byId, live, levels, own) && s < |storage|
    requires Tidy(own, storage[s].command.side) && k < |Flat(own)| && Flat(own)[k] == s
    ensures var erased := Erase(own, storage[s].Price(), s);
      && Matchable(storage, free, byId, live, levels, erased, s) && Tidy(erased, storage[s].command.side)
      && Orders(storage, Flat(erased)) == Remove(Orders(storage, Flat(own)), k)
  {
    hide PoolOk;
    var side, price, slots := storage[s].command.side, storage[s].Price(), Flat(own);
    EraseFlat(own, storage, side, s);
    EraseOrdered(own, storage, side, price, s);
    SplitAt(slots, k);
    UsedOnce(storage, free, byId, live, multiset(Flat(levels)) + multiset(slots), s);
    WithoutOnce(slots, k);
    OrdersRemove(storage, slots, k);
    assert multiset(Flat(levels)) + multiset(slots)
        == multiset(Flat(levels)) + multiset{s} + multiset(slots[..k] + slots[k + 1..]);
  }

  lemma SplitAt(slots: seq<nat>, k: nat)
    requires k < |slots|
    ensures multiset(slots) == multiset{slots[k]} + multiset(slots[..k] + slots[k + 1..])
  {
    assert slots == slots[..k] + [slots[k]] + slots[k + 1..];
  }

  lemma OrdersRemove(storage: seq<Order>, slots: seq<nat>, k: nat)
    requires k < |slots|
    ensures Orders(storage, slots[..k] + slots[k + 1..]) == Remove(Orders(storage, slots), k)
  {
  }
}
