/** The engine's order book: price levels over a slot pool, refining the flat book. */
module OrderBooks {
  import opened Arithmetic
  import opened BookTypes
  import opened BookSpec
  import opened BookInvariant
  import opened Levels
  import opened SlotPool
  import opened BookState
  import opened Depth
  import Execution

  class OrderBook {
    const capacity: nat
    const fees: FeeResolver
    const storage: array<Order>
    var free: seq<nat>
    var byId: map<string, nat>
    var seen: set<string>
    var bids: seq<PriceLevel>
    var asks: seq<PriceLevel>
    var live: int
    var tradeSequence: nat
    var statusSequence: nat
    var bookSequence: nat

    /** The flat book this object stands for. */
    ghost function Abs(): Book
      reads this, storage
    {
      Book(capacity, Orders(storage[..], Flat(bids)), Orders(storage[..], Flat(asks)), seen,
           tradeSequence, statusSequence, bookSequence)
    }

    function Makers(side: Side): seq<PriceLevel>
      reads this
    {
      if side.Buy? then asks else bids
    }

    function Own(side: Side): seq<PriceLevel>
      reads this
    {
      if side.Buy? then bids else asks
    }

    /** No order is being matched. */
    ghost predicate Settled()
      reads this, storage
    {
      && storage.Length == capacity && Tidy(bids, Buy) && Tidy(asks, Sell)
      && AtRest(storage[..], free, byId, live, bids, asks)
    }

    /** The levels, the pool and the index agree, and the flat book is in order. */
    ghost predicate Valid()
      reads this, storage
    {
      Settled() && BookOk(Abs())
    }

    /** The order in `slot` is being matched. */
    ghost predicate Pending(slot: nat)
      reads this, storage
    {
      && storage.Length == capacity && slot < capacity && Tidy(bids, Buy) && Tidy(asks, Sell)
      && Matchable(storage[..], free, byId, live, Makers(storage[slot].command.side), Own(storage[slot].command.side),
                   slot)
    }

    constructor (capacity: nat, fees: FeeResolver)
      ensures Valid() && fresh(storage)
      ensures Abs() == Empty(capacity) && this.fees == fees
    {
      this.capacity := capacity;
      this.fees := fees;
      storage := new Order[capacity](_ => BLANK);
      var slots := FreeSlots(capacity);
      free, byId, seen, bids, asks := slots, map[], {}, [], [];
      live, tradeSequence, statusSequence, bookSequence := 0, 0, 0, 0;
      new;
      FreshPool(storage[..], free);
      EmptyOk(capacity);
      assert Abs() == Empty(capacity);
    }

    /** Every slot, highest first. */
    static method FreeSlots(capacity: nat) returns (slots: seq<nat>)
      ensures multiset(slots) == AllSlots(capacity) && |slots| == capacity
    {
      slots := [];
      var index: nat := capacity;
      while index > 0
        invariant index <= capacity
        invariant multiset(slots) + AllSlots(index) == AllSlots(capacity)
        invariant |slots| == capacity - index
      {
        slots := slots + [index - 1];
        index := index - 1;
      }
    }

    /** What a matching of the order in `slot` against `levels` has done so far. */
    ghost function View(levels: seq<PriceLevel>, slot: nat, result: Outcome): Matching
      requires slot < storage.Length
      reads this, storage
    {
      Matching(Orders(storage[..], Flat(levels)), storage[slot], result.trades, result.statuses,
               tradeSequence, statusSequence, bookSequence)
    }

    method EmitTrade(maker: nat, taker: nat, price: nat, quantity: nat, result: Outcome) returns (result': Outcome)
      requires maker < storage.Length && taker < storage.Length && price == storage[maker].Price()
      modifies this`tradeSequence
      ensures tradeSequence == old(tradeSequence) + 1
      ensures result' == result.(trades := result.trades
                + [MakeTrade(fees, tradeSequence, storage[maker].command, storage[taker].command, quantity)])
    {
      tradeSequence := tradeSequence + 1;
      var m, t := storage[maker].command, storage[taker].command;
      result' := result.(trades := result.trades
        + [Trade(tradeSequence, t.timestamp, m.id, t.id, m.userId, t.userId, price, quantity,
                 fees(m.feeTier).makerBps, fees(t.feeTier).takerBps)]);
    }

    /** Sets an order's status and reports it. */
    method Report(o: Order, status: Status, result: Outcome) returns (o': Order, result': Outcome)
      modifies this`statusSequence
      ensures statusSequence == old(statusSequence) + 1 && o' == o.(status := status)
      ensures result' == result.(statuses := result.statuses + [o.Report(statusSequence, status)])
    {
      o' := o.(status := status);
      statusSequence := statusSequence + 1;
      result' := result.(statuses := result.statuses
        + [OrderStatus(statusSequence, o.command.id, status, o.command.quantity - o.remaining, o.remaining,
                       o.AveragePrice())]);
    }

    method EmitStatus(slot: nat, status: Status, result: Outcome) returns (result': Outcome)
      requires slot < storage.Length
      modifies this`statusSequence, storage
      ensures statusSequence == old(statusSequence) + 1
      ensures storage[..] == old(storage[..])[slot := old(storage[slot]).(status := status)]
      ensures result' == result.(statuses := result.statuses + [old(storage[slot]).Report(statusSequence, status)])
    {
      var o;
      o, result' := Report(storage[slot], status, result);
      storage[slot] := o;
    }

    /** Fills `quantity` of the order in `slot` at `price`. */
    method Take(slot: nat, price: nat, quantity: nat)
      requires slot < storage.Length && quantity <= storage[slot].remaining
      requires NotionalOk(Reduce(storage[slot], quantity, price))
      modifies storage
      ensures storage[..] == old(storage[..])[slot := Reduce(old(storage[slot]), quantity, price)]
    {
      NotionalFits(Reduce(storage[slot], quantity, price));
      var o := storage[slot];
      storage[slot] := o.(remaining := o.remaining - quantity, notional := Wrap128(o.notional + price * quantity));
    }

    method Release(slot: nat)
      requires slot < storage.Length
      modifies this`byId, this`free
      ensures byId == old(byId) - {storage[slot].command.id} && free == old(free) + [slot]
    {
      byId := byId - {storage[slot].command.id};
      free := free + [slot];
    }

    /** A matching of the order in `slot` against `levels` is under way; `own` is the other side. */
    ghost predicate InMatch(levels: seq<PriceLevel>, own: seq<PriceLevel>, slot: nat)
      reads this, storage
    {
      storage.Length == capacity && slot < capacity && Matchable(storage[..], free, byId, live, levels, own, slot)
    }

    /** Both orders give up the smaller remaining quantity, at the maker's price. */
    method Exchange(maker: nat, taker: nat, price: nat, result: Outcome) returns (result': Outcome)
      requires maker < storage.Length && taker < storage.Length && maker != taker && price == storage[maker].Price()
      requires var quantity := Min(storage[taker].remaining, storage[maker].remaining);
        NotionalOk(Reduce(storage[maker], quantity, price)) && NotionalOk(Reduce(storage[taker], quantity, price))
      modifies this`tradeSequence, this`bookSequence, storage
      ensures tradeSequence == old(tradeSequence) + 1 && bookSequence == old(bookSequence) + 1
      ensures var quantity := Min(old(storage[taker]).remaining, old(storage[maker]).remaining);
        && storage[..] == old(storage[..])[maker := Reduce(old(storage[maker]), quantity, price)]
                                          [taker := Reduce(old(storage[taker]), quantity, price)]
        && result' == result.(trades := result.trades
             + [MakeTrade(fees, tradeSequence, old(storage[maker]).command, old(storage[taker]).command, quantity)])
    {
      var quantity := Min(storage[taker].remaining, storage[maker].remaining);
      Take(maker, price, quantity);
      Take(taker, price, quantity);
      result' := EmitTrade(maker, taker, price, quantity, result);
      bookSequence := bookSequence + 1;
    }

    /** Trades the order in `slot` against the front of the best queue. */
    method Hit(levels: seq<PriceLevel>, slot: nat, result: Outcome, ghost own: seq<PriceLevel>, ghost m: Matching)
      returns (result': Outcome)
      requires InMatch(levels, own, slot) && m == View(levels, slot, result) && m.CanFill()
      requires levels != [] && levels[0].queue != []
      requires NotionalOk(m.taker) && NotionalOk(m.makers[0])
      modifies this`tradeSequence, this`statusSequence, this`bookSequence, storage
      ensures InMatch(levels, own, slot) && View(levels, slot, result') == Hurt(fees, m)
      ensures Orders(storage[..], Flat(own)) == old(Orders(storage[..], Flat(own)))
      ensures result'.duplicate == result.duplicate
    {
      hide Matchable, AtRest, PoolOk, Tidy, BookOk, MatchOk, Orders, Flat;
      var s := levels[0].queue[0];
      ghost var before := storage[..];
      FrontOf(before, free, byId, live, levels, own, slot);
      FillKeepsNotional(m);
      result' := Exchange(s, slot, levels[0].price, result);
      ghost var maker, taker := storage[s], storage[slot];
      var status := if storage[s].remaining == 0 then Filled else Partial;
      result' := EmitStatus(s, status, result');
      AfterFill(before, free, byId, live, levels, own, slot, maker.(status := status), taker);
      assert storage[..] == before[s := maker.(status := status)][slot := taker];
    }

    /** The front maker leaves its queue, and its slot is free again. */
    method Pop(levels: seq<PriceLevel>, ghost own: seq<PriceLevel>, ghost slot: nat) returns (levels': seq<PriceLevel>)
      requires InMatch(levels, own, slot) && levels != [] && levels[0].queue != []
      modifies this`free, this`byId, this`live
      ensures InMatch(levels', own, slot) && levels' == PopFront(levels)
      ensures Orders(storage[..], Flat(levels')) == Orders(storage[..], Flat(levels))[1..]
    {
      hide Matchable, AtRest, PoolOk, Tidy, BookOk, MatchOk, Orders, Flat;
      AfterPop(storage[..], free, byId, live, levels, own, slot);
      var s := levels[0].queue[0];
      levels' := PopFront(levels);
      live := live - 1;
      Release(s);
    }

    /** One fill of the order in `slot`: a maker without a remainder leaves its queue. */
    method FillFront(levels: seq<PriceLevel>, slot: nat, result: Outcome, ghost own: seq<PriceLevel>, ghost m: Matching)
      returns (levels': seq<PriceLevel>, result': Outcome)
      requires InMatch(levels, own, slot) && m == View(levels, slot, result) && m.CanFill()
      requires levels != [] && levels[0].queue != []
      requires NotionalOk(m.taker) && NotionalOk(m.makers[0])
      modifies this`free, this`byId, this`live, this`tradeSequence, this`statusSequence, this`bookSequence, storage
      ensures InMatch(levels', own, slot) && View(levels', slot, result') == FillOne(fees, m)
      ensures levels' != [] && levels'[0].price == levels[0].price && levels'[1..] == levels[1..]
      ensures Orders(storage[..], Flat(own)) == old(Orders(storage[..], Flat(own)))
      ensures result'.duplicate == result.duplicate
    {
      hide Matchable, AtRest, PoolOk, Tidy, BookOk, MatchOk, Orders, Flat;
      result' := Hit(levels, slot, result, own, m);
      FrontOf(storage[..], free, byId, live, levels, own, slot);
      levels' := levels;
      if storage[levels[0].queue[0]].remaining == 0 {
        levels' := Pop(levels, own, slot);
      }
    }

    /** Fills the order in `slot` from the best level until one of them is used up. */
    method FillLevel(levels: seq<PriceLevel>, slot: nat, result: Outcome,
                     ghost own: seq<PriceLevel>, ghost ids: set<string>, ghost m: Matching)
      returns (levels': seq<PriceLevel>, result': Outcome)
      requires InMatch(levels, own, slot) && m == View(levels, slot, result)
      requires levels != [] && Reaches(m.taker.command, levels[0].price)
      requires MatchOk(m, Orders(storage[..], Flat(own)), ids)
      modifies this`free, this`byId, this`live, this`tradeSequence, this`statusSequence, this`bookSequence, storage
      ensures InMatch(levels', own, slot) && FillAll(fees, View(levels', slot, result')) == FillAll(fees, m)
      ensures MatchOk(View(levels', slot, result'), Orders(storage[..], Flat(own)), ids)
      ensures levels' != [] && levels'[0].price == levels[0].price && levels'[1..] == levels[1..]
      ensures levels'[0].queue == [] || storage[slot].remaining == 0
      ensures storage[slot].command == m.taker.command
      ensures Orders(storage[..], Flat(own)) == old(Orders(storage[..], Flat(own)))
      ensures result'.duplicate == result.duplicate
    {
      hide Matchable, PoolOk, MatchOk, Orders, Flat, FillOne, FillAll;
      levels', result' := levels, result;
      while storage[slot].remaining > 0 && levels'[0].queue != []
        invariant InMatch(levels', own, slot) && FillAll(fees, View(levels', slot, result')) == FillAll(fees, m)
        invariant MatchOk(View(levels', slot, result'), Orders(storage[..], Flat(own)), ids)
        invariant levels' != [] && levels'[0].price == levels[0].price && levels'[1..] == levels[1..]
        invariant storage[slot].command == m.taker.command
        invariant Orders(storage[..], Flat(own)) == old(Orders(storage[..], Flat(own)))
        invariant result'.duplicate == result.duplicate
        decreases |View(levels', slot, result').makers|, storage[slot].remaining
      {
        ghost var now := View(levels', slot, result');
        FrontOf(storage[..], free, byId, live, levels', own, slot);
        FillKept(fees, now, Orders(storage[..], Flat(own)), ids);
        levels', result' := FillFront(levels', slot, result', own, now);
      }
    }

    /** Fills the order in `slot` level by level while a level is within its limit. */
    method Consume(levels: seq<PriceLevel>, slot: nat, result: Outcome,
                   ghost own: seq<PriceLevel>, ghost ids: set<string>, ghost m: Matching, ghost side: Side)
      returns (levels': seq<PriceLevel>, result': Outcome)
      requires InMatch(levels, own, slot) && m == View(levels, slot, result) && Tidy(levels, side)
      requires MatchOk(m, Orders(storage[..], Flat(own)), ids)
      modifies this`free, this`byId, this`live, this`tradeSequence, this`statusSequence, this`bookSequence, storage
      ensures InMatch(levels', own, slot) && View(levels', slot, result') == FillAll(fees, m) && Tidy(levels', side)
      ensures storage[slot].command == m.taker.command
      ensures Orders(storage[..], Flat(own)) == old(Orders(storage[..], Flat(own)))
      ensures result'.duplicate == result.duplicate
    {
      hide Matchable, PoolOk, Tidy, MatchOk, Orders, FillOne;
      levels', result' := levels, result;
      while storage[slot].remaining > 0 && levels' != []
        invariant InMatch(levels', own, slot) && Tidy(levels', side)
        invariant FillAll(fees, View(levels', slot, result')) == FillAll(fees, m)
        invariant MatchOk(View(levels', slot, result'), Orders(storage[..], Flat(own)), ids)
        invariant storage[slot].command == m.taker.command
        invariant Orders(storage[..], Flat(own)) == old(Orders(storage[..], Flat(own)))
        invariant result'.duplicate == result.duplicate
        decreases |levels'|, storage[slot].remaining
      {
        var cmd := storage[slot].command;
        TidyFront(levels', side);
        FrontOf(storage[..], free, byId, live, levels', own, slot);
        if cmd.kind.Limit? {
          if cmd.side.Buy? && levels'[0].price > cmd.price {
            break;
          }
          if cmd.side.Sell? && levels'[0].price < cmd.price {
            break;
          }
        }
        ghost var before := levels';
        levels', result' := FillLevel(levels', slot, result', own, ids, View(levels', slot, result'));
        if levels'[0].queue == [] {
          DropEmpty(storage[..], free, byId, live, levels', own, slot);
          TidyTail(before, side);
          levels' := levels'[1..];
        } else {
          TidyHead(before, levels', side);
        }
      }
    }

    /** Takes a slot for the order and indexes it. */
    method Enter(cmd: OrderCommand) returns (slot: nat)
      requires Settled() && free != [] && cmd.id !in byId
      modifies this`free, this`byId, this`live, storage
      ensures Pending(slot) && storage[slot] == Fresh(cmd) && Abs() == old(Abs())
    {
      hide Matchable, AtRest, PoolOk, Tidy, BookOk, MatchOk, Orders, Flat;
      if cmd.side.Buy? {
        SwapSides(storage[..], free, byId, live, bids, asks);
      }
      AfterEnter(storage[..], free, byId, live, Makers(cmd.side), Own(cmd.side), Fresh(cmd));
      slot := free[|free| - 1];
      free := free[..|free| - 1];
      storage[slot] := Order(cmd, cmd.quantity, 0, Open);
      byId := byId[cmd.id := slot];
      live := live + 1;
      assert storage[..] == old(storage[..])[slot := Fresh(cmd)];
    }

    /** Matches the order in `slot` against the opposite side. */
    method Match(slot: nat, result: Outcome, ghost b: Book) returns (result': Outcome)
      requires Pending(slot) && Abs() == b && storage[slot] == Fresh(storage[slot].command)
      requires BookOk(b) && result == Outcome([], [], false)
      modifies this, storage
      ensures var m := FillAll(fees, Start(b, old(storage[slot]).command));
        && Abs() == Settle(b, m) && storage[slot] == m.taker
        && result' == Outcome(m.trades, m.statuses, false)
      ensures Pending(slot)
    {
      hide Matchable, AtRest, PoolOk, Tidy, BookOk, MatchOk, Orders, Flat;
      ghost var cmd := storage[slot].command;
      StartOk(b, cmd);
      var levels';
      if storage[slot].command.side.Buy? {
        levels', result' := Consume(asks, slot, result, bids, seen, Start(b, cmd), Sell);
        asks := levels';
      } else {
        levels', result' := Consume(bids, slot, result, asks, seen, Start(b, cmd), Buy);
        bids := levels';
      }
    }

    /** Reports the order in `slot`, which stays where it is. */
    method Announce(slot: nat, status: Status, result: Outcome) returns (result': Outcome)
      requires Pending(slot)
      modifies this`statusSequence, storage
      ensures Pending(slot) && storage[slot] == old(storage[slot]).(status := status)
      ensures statusSequence == old(statusSequence) + 1 && Abs() == old(Abs()).(statusSequence := statusSequence)
      ensures result' == result.(statuses := result.statuses + [old(storage[slot]).Report(statusSequence, status)])
    {
      hide Matchable, AtRest, PoolOk, Tidy, BookOk, MatchOk, Orders, Flat;
      ghost var side, o := storage[slot].command.side, storage[slot].(status := status);
      AfterTaker(storage[..], free, byId, live, Makers(side), Own(side), slot, o);
      result' := EmitStatus(slot, status, result);
    }

    /** The order in `slot` gives its slot back. */
    method Leave(slot: nat)
      requires Pending(slot)
      modifies this`free, this`byId, this`live
      ensures Settled() && Abs() == old(Abs())
    {
      hide Matchable, AtRest, PoolOk, Tidy, BookOk, MatchOk, Orders, Flat;
      ghost var side := storage[slot].command.side;
      AfterLeave(storage[..], free, byId, live, Makers(side), Own(side), slot);
      live := live - 1;
      Release(slot);
      if side.Buy? {
        SwapSides(storage[..], free, byId, live, asks, bids);
      }
    }

    /** Reports the order in `slot` for the last time and frees the slot. */
    method Dismiss(slot: nat, status: Status, result: Outcome) returns (result': Outcome)
      requires Pending(slot)
      modifies this`free, this`byId, this`live, this`statusSequence, storage
      ensures Settled() && Abs() == old(Abs()).(statusSequence := statusSequence)
      ensures statusSequence == old(statusSequence) + 1
      ensures result' == result.(statuses := result.statuses + [old(storage[slot]).Report(statusSequence, status)])
    {
      hide Matchable, AtRest, PoolOk, Tidy, BookOk, MatchOk, Orders, Flat;
      result' := Announce(slot, status, result);
      Leave(slot);
    }

    /** The level the order would join can take its remainder without leaving 64 bits. */
    method Joins(slot: nat) returns (ok: bool)
      requires Pending(slot) && storage[slot].remaining <= U64_MAX
      ensures ok == Rests(Abs(), storage[slot])
    {
      hide Matchable, AtRest, PoolOk, Tidy, BookOk, MatchOk, Orders, Flat;
      var o := storage[slot];
      var queue := QueueAt(Own(o.command.side), o.command.price);
      JoinTotal(storage[..], free, byId, live, Makers(o.command.side), Own(o.command.side), slot);
      ghost var orders := Orders(storage[..], queue);
      var total: nat, i: nat := 0, 0;
      while i < |queue|
        invariant i <= |queue| && total == Total(orders[..i]) <= U64_MAX
      {
        JoinSlots(storage[..], free, byId, live, Makers(o.command.side), Own(o.command.side), slot, i);
        assert orders[..i + 1] == orders[..i] + [orders[i]];
        TotalSnoc(orders[..i], orders[i]);
        TotalPrefix(orders, i + 1);
        if storage[queue[i]].remaining > U64_MAX - total {
          return false;
        }
        total := total + storage[queue[i]].remaining;
        i := i + 1;
      }
      assert orders[..i] == orders;
      return o.remaining <= U64_MAX - total;
    }

    /** The order in `slot` joins its own side, behind every order at its price. */
    method Join(slot: nat)
      requires Pending(slot)
      modifies this`bids, this`asks, this`bookSequence
      ensures Settled() && bookSequence == old(bookSequence) + 1
      ensures var b := old(Abs()).(bookSequence := bookSequence);
        Abs() == if storage[slot].command.side.Buy? then b.(bids := Insert(b.bids, storage[slot]))
                 else b.(asks := Insert(b.asks, storage[slot]))
    {
      hide Matchable, AtRest, PoolOk, Tidy, BookOk, MatchOk, Orders, Flat;
      var cmd := storage[slot].command;
      bookSequence := bookSequence + 1;
      AfterRest(storage[..], free, byId, live, Makers(cmd.side), Own(cmd.side), slot);
      if cmd.side.Buy? {
        bids := Push(bids, Buy, cmd.price, slot);
        SwapSides(storage[..], free, byId, live, asks, bids);
      } else {
        asks := Push(asks, Sell, cmd.price, slot);
      }
    }

    /** What becomes of the matched order in `slot`. */
    method Conclude(slot: nat, result: Outcome, ghost m: Matching) returns (result': Outcome)
      requires Pending(slot) && storage[slot] == m.taker && m.taker.remaining <= U64_MAX
      requires result == Outcome(m.trades, m.statuses, false)
      modifies this, storage
      ensures Settled() && (Abs(), result') == Finish(old(Abs()), m)
    {
      hide Matchable, AtRest, PoolOk, Tidy, BookOk, MatchOk, Orders, Flat;
      var o := storage[slot];
      if o.remaining == 0 {
        result' := Dismiss(slot, Filled, result);
        return;
      }
      if o.command.tif.GTC? {
        var joins := Joins(slot);
        if joins {
          var status := if o.remaining == o.command.quantity then Open else Partial;
          result' := Announce(slot, status, result);
          Join(slot);
          return;
        }
      }
      result' := Dismiss(slot, if o.remaining == o.command.quantity then Rejected else Canceled, result);
    }

    method Crosses(cmd: OrderCommand) returns (yes: bool)
      requires Settled()
      ensures yes == Abs().Crosses(cmd)
    {
      hide Matchable, AtRest, PoolOk, Tidy, BookOk, MatchOk, Orders, Flat;
      BestPrice(storage[..], free, byId, live, bids, asks);
      if cmd.side.Buy? {
        return asks != [] && (cmd.kind.Market? || cmd.price >= asks[0].price);
      }
      return bids != [] && (cmd.kind.Market? || cmd.price <= bids[0].price);
    }

    /** Adds a queue's remainders to `available`, stopping at the largest 64-bit value. */
    method AddQueue(queue: seq<nat>, available: nat, ghost sum: nat) returns (available': nat)
      requires forall i | 0 <= i < |queue| :: queue[i] < storage.Length
      requires available == Min(sum, U64_MAX)
      ensures available' == Min(sum + Total(Orders(storage[..], queue)), U64_MAX)
    {
      ghost var orders := Orders(storage[..], queue);
      available' := available;
      var i: nat := 0;
      while i < |queue|
        invariant i <= |queue| && available' == Min(sum + Total(orders[..i]), U64_MAX)
      {
        assert orders[..i + 1] == orders[..i] + [orders[i]];
        TotalSnoc(orders[..i], orders[i]);
        if storage[queue[i]].remaining > U64_MAX - available' {
          available' := U64_MAX;
        } else {
          available' := available' + storage[queue[i]].remaining;
        }
        i := i + 1;
      }
      assert orders[..i] == orders;
    }

    /** The opposite quantity within the limit, counted until it suffices. */
    method ExecutableQuantity(cmd: OrderCommand) returns (available: nat)
      requires Settled()
      ensures available < cmd.quantity <==> Total(Eligible(cmd, Abs().Opposite(cmd.side))) < cmd.quantity
    {
      hide AtRest, PoolOk, Tidy, Orders, Total, Eligible, Flat;
      var levels := Makers(cmd.side);
      ghost var all := Total(Eligible(cmd, Abs().Opposite(cmd.side)));
      ghost var sum: nat := 0;
      available := 0;
      var i: nat := 0;
      assert levels[0..] == levels;
      NoneEligible(storage[..], cmd);
      while i < |levels|
        invariant i <= |levels| && available == Min(sum, U64_MAX)
        invariant all == sum + Total(Eligible(cmd, Orders(storage[..], Flat(levels[i..]))))
      {
        LevelInPool(storage[..], free, byId, live, bids, asks, cmd.side, i);
        EligibleSplit(storage[..], levels[i..], cmd);
        if cmd.kind.Limit? && (if cmd.side.Buy? then levels[i].price > cmd.price else levels[i].price < cmd.price) {
          break;
        }
        available := AddQueue(levels[i].queue, available, sum);
        sum := sum + Total(Orders(storage[..], levels[i].queue));
        assert levels[i..][1..] == levels[i + 1..];
        i := i + 1;
        if available >= cmd.quantity {
          break;
        }
      }
      assert levels[|levels|..] == [];
    }

    /** Refused without being matched. */
    method Refuses(cmd: OrderCommand) returns (refused: bool)
      requires Settled()
      ensures refused == Refused(Abs(), cmd)
    {
      hide Matchable, AtRest, PoolOk, Tidy, BookOk, MatchOk, Orders, Flat;
      RoomLeft(storage[..], free, byId, live, bids, asks);
      if !BookTypes.Valid(cmd) || free == [] {
        return true;
      }
      if cmd.postOnly {
        var crosses := Crosses(cmd);
        if crosses {
          return true;
        }
      }
      if cmd.tif.FOK? {
        var available := ExecutableQuantity(cmd);
        return available < cmd.quantity;
      }
      return false;
    }

    /** Reports a refused order. */
    method Turn(cmd: OrderCommand) returns (result: Outcome)
      requires Settled()
      modifies this`statusSequence
      ensures Settled() && (Abs(), result) == Reject(old(Abs()), cmd)
    {
      hide Matchable, AtRest, PoolOk, Tidy, BookOk, MatchOk, Orders, Flat;
      var rejected;
      rejected, result := Report(Order(cmd, cmd.quantity, 0, Open), Rejected, Outcome([], [], false));
      assert [] + [Fresh(cmd).Report(statusSequence, Rejected)] == [Fresh(cmd).Report(statusSequence, Rejected)];
    }

    /** Matches an accepted order and settles what is left of it. */
    method Execute(cmd: OrderCommand, ghost b: Book) returns (result: Outcome)
      requires Settled() && BookOk(b) && Abs() == b && free != [] && cmd.id !in byId
      modifies this, storage
      ensures Settled()
      ensures var m := FillAll(fees, Start(b, cmd)); (Abs(), result) == Finish(Settle(b, m), m)
    {
      hide Matchable, AtRest, PoolOk, Tidy, BookOk, MatchOk, Orders, Flat;
      LeftoverFits(fees, b, cmd);
      var slot := Enter(cmd);
      result := Match(slot, Outcome([], [], false), b);
      result := Conclude(slot, result, FillAll(fees, Start(b, cmd)));
    }

    method Submit(cmd: OrderCommand) returns (result: Outcome)
      requires Valid()
      modifies this, storage
      ensures Valid() && (Abs(), result) == BookSpec.Submit(fees, old(Abs()), cmd)
      ensures Execution.Responds(fees, old(Abs()), cmd, Abs(), result)
    {
      hide Matchable, AtRest, PoolOk, Tidy, BookOk, MatchOk, Orders, Flat, Execution.Responds;
      ghost var b := Abs();
      SubmitOk(fees, b, cmd);
      Execution.SubmitExactly(fees, b, cmd);
      if cmd.id != "" && cmd.id in seen {
        return Outcome([], [], true);
      }
      if cmd.id != "" {
        seen := seen + {cmd.id};
      }
      RememberOk(b, cmd);
      assert Abs() == Remember(b, cmd.id);
      RoomLeft(storage[..], free, byId, live, bids, asks);
      var refused := Refuses(cmd);
      if refused {
        result := Turn(cmd);
        return;
      }
      if cmd.id in byId {
        IndexedIsSeen(storage[..], free, byId, live, bids, asks, b, cmd.id);
      }
      result := Execute(cmd, Remember(b, cmd.id));
    }

    /** Takes the order in `slot` out of its level, and the level with it when it empties. */
    method Remove(slot: nat, ghost k: nat)
      requires Settled() && slot < capacity && k < |Flat(Own(storage[slot].command.side))|
      requires Flat(Own(storage[slot].command.side))[k] == slot
      modifies this`bids, this`asks
      ensures Pending(slot)
      ensures var b := old(Abs());
        Abs() == if storage[slot].command.side.Buy? then b.(bids := BookSpec.Remove(b.bids, k))
                 else b.(asks := BookSpec.Remove(b.asks, k))
    {
      hide Matchable, AtRest, PoolOk, Tidy, BookOk, MatchOk, Orders, Flat;
      var cmd := storage[slot].command;
      if cmd.side.Buy? {
        SwapSides(storage[..], free, byId, live, bids, asks);
        AfterErase(storage[..], free, byId, live, asks, bids, slot, k);
        bids := Erase(bids, cmd.price, slot);
      } else {
        AfterErase(storage[..], free, byId, live, bids, asks, slot, k);
        asks := Erase(asks, cmd.price, slot);
      }
    }

    method Cancel(id: string) returns (result: Outcome)
      requires Valid()
      modifies this, storage
      ensures Valid() && (Abs(), result) == BookSpec.Cancel(old(Abs()), id)
      ensures Execution.Withdraws(old(Abs()), id, Abs(), result)
    {
      hide Matchable, AtRest, PoolOk, Tidy, BookOk, MatchOk, Orders, Flat, Find, BookSpec.Cancel, Withdrawn;
      hide Execution.Withdraws;
      ghost var b := Abs();
      CancelOk(b, id);
      Execution.CancelExactly(b, id);
      result := Outcome([], [], false);
      if id !in byId {
        NotShown(storage[..], free, byId, live, bids, asks, id);
        CancelMisses(b, id);
        return;
      }
      var slot := byId[id];
      ghost var k := IndexedRests(storage[..], free, byId, live, bids, asks, b, id);
      CancelIs(b, id, storage[slot], k);
      if storage[slot].remaining == 0 || storage[slot].status.Canceled? || storage[slot].status.Rejected? {
        return;
      }
      result := Withdraw(slot, k);
    }

    /** Removes and dismisses the resting order in `slot`. */
    method Withdraw(slot: nat, ghost k: nat) returns (result: Outcome)
      requires Settled() && slot < capacity && k < |Flat(Own(storage[slot].command.side))|
      requires Flat(Own(storage[slot].command.side))[k] == slot
      modifies this, storage
      ensures Settled() && (Abs(), result) == Withdrawn(old(Abs()), old(storage[slot]), k)
    {
      hide Matchable, AtRest, PoolOk, Tidy, BookOk, MatchOk, Orders, Flat;
      ghost var o := storage[slot];
      Remove(slot, k);
      bookSequence := bookSequence + 1;
      result := Dismiss(slot, Canceled, Outcome([], [], false));
      assert result.statuses == [o.Report(statusSequence, Canceled)];
    }

    /** Adds up one queue in 64 and 32 bits. */
    method AddUp(price: nat, queue: seq<nat>) returns (level: Level)
      requires forall i | 0 <= i < |queue| :: queue[i] < storage.Length
      ensures level == Level(price, Wrap64(Total(Orders(storage[..], queue))), Wrap32(|queue|))
    {
      hide Wrap32, Wrap64, Total;
      ghost var orders := Orders(storage[..], queue);
      WrapNone();
      NoTotal();
      level := Level(price, 0, 0);
      var i: nat := 0;
      while i < |queue|
        invariant i <= |queue| && level == Level(price, Wrap64(Total(orders[..i])), Wrap32(i))
      {
        assert orders[..i + 1] == orders[..i] + [orders[i]];
        TotalSnoc(orders[..i], orders[i]);
        WrapStep(Total(orders[..i]), orders[i].remaining, i);
        level := Level(price, Wrap64(level.quantity + storage[queue[i]].remaining), Wrap32(level.count + 1));
        i := i + 1;
      }
      assert orders[..i] == orders;
    }

    /** The best `depth` levels of one side. */
    method Collect(levels: seq<PriceLevel>, depth: nat, ghost side: Side) returns (result: seq<Level>)
      requires LevelsSorted(levels, side) && AllLevelsOk(levels, storage[..]) && NonEmpty(levels)
      requires LevelsFit(Orders(storage[..], Flat(levels))) && AllResting(Orders(storage[..], Flat(levels)), side)
      ensures result == Top(Grouped(Orders(storage[..], Flat(levels))), depth)
    {
      hide Orders, Flat, Total, Grouped, Wrap32, Wrap64, LevelsFit, AllResting, LevelOk, LevelsSorted, NonEmpty;
      hide Top, Sums;
      GroupedIsSums(levels, storage[..], side);
      result := [];
      var i: nat := 0;
      assert levels[0..] == levels;
      while i < |levels|
        invariant i <= |levels| && |result| <= depth
        invariant Top(Sums(levels, storage[..]), depth)
          == result + Top(Sums(levels[i..], storage[..]), depth - |result|)
      {
        if |result| == depth {
          break;
        }
        SlotsInPool(levels[i], storage[..]);
        var level := AddUp(levels[i].price, levels[i].queue);
        SumsFit(levels, storage[..], side, i);
        WrapFits(Total(Orders(storage[..], levels[i].queue)));
        TopStep(levels, storage[..], i, depth - |result|);
        if level.quantity != 0 {
          result := result + [level];
        }
        i := i + 1;
      }
      TopEnds(levels, storage[..], i, depth - |result|);
    }

    method Snapshot(depth: nat) returns (result: Depth.Snapshot)
      requires Valid()
      ensures result == SnapshotOf(Abs(), depth)
    {
      var b := Collect(bids, depth, Buy);
      var a := Collect(asks, depth, Sell);
      result := Depth.Snapshot(bookSequence, b, a);
    }
  }
}
