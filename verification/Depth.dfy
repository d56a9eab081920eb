/** The aggregated view of a book: one entry per price. */
module Depth {
  import opened BookTypes
  import opened BookSpec
  import opened BookInvariant
  import opened Levels

  /** Machine additions. */
  function Wrap32(x: nat): nat {
    x % 0x1_0000_0000
  }

  function Wrap64(x: nat): nat {
    x % (U64_MAX + 1)
  }

  datatype Level = Level(price: nat, quantity: nat, count: nat)
  datatype Snapshot = Snapshot(sequence: nat, bids: seq<Level>, asks: seq<Level>)

  /** Neighbouring orders at one price become one level. */
  function Grouped(orders: seq<Order>): seq<Level> {
    if orders == [] then []
    else Stack(orders[0], Grouped(orders[1..]))
  }

  function Stack(o: Order, levels: seq<Level>): seq<Level> {
    if levels != [] && levels[0].price == o.Price() then
      [Level(o.Price(), levels[0].quantity + o.remaining, levels[0].count + 1)] + levels[1..]
    else [Level(o.Price(), o.remaining, 1)] + levels
  }

  /** The best levels, counts in 32 bits. */
  function Top(levels: seq<Level>, depth: nat): seq<Level> {
    if levels == [] || depth == 0 then []
    else [levels[0].(count := Wrap32(levels[0].count))] + Top(levels[1..], depth - 1)
  }

  function SnapshotOf(b: Book, depth: nat): Snapshot {
    Snapshot(b.bookSequence, Top(Grouped(b.bids), depth), Top(Grouped(b.asks), depth))
  }

  function CountAt(orders: seq<Order>, price: nat): nat {
    if orders == [] then 0 else (if orders[0].Price() == price then 1 else 0) + CountAt(orders[1..], price)
  }

  lemma {:induction false} NoneAt(orders: seq<Order>, price: nat)
    requires forall i | 0 <= i < |orders| :: orders[i].Price() != price
    ensures LevelTotal(orders, price) == 0 && CountAt(orders, price) == 0
  {
    if orders != [] {
      NoneAt(orders[1..], price);
    }
  }

  /** The level has the total and the number of all orders at its price. */
  predicate Exact(level: Level, orders: seq<Order>) {
    level.quantity == LevelTotal(orders, level.price) && level.count == CountAt(orders, level.price)
  }

  predicate StrictlyBest(levels: seq<Level>, side: Side) {
    forall i, j | 0 <= i < j < |levels| :: Better(side, levels[i].price, levels[j].price)
  }

  lemma StackTail(o: Order, levels: seq<Level>, orders: seq<Order>, side: Side)
    requires levels != [] && levels[0].price == o.Price() && orders != [] && orders[0] == o
    requires StrictlyBest(levels, side) && forall i | 0 <= i < |levels| :: Exact(levels[i], orders[1..])
    ensures forall i | 0 <= i < |levels| :: Exact(Stack(o, levels)[i], orders)
  {
  }

  /**
   On a sorted side every price has one level, best first, and each level has
   exactly the total and the number of the orders at its price.
   */
  lemma {:induction false} GroupedExact(orders: seq<Order>, side: Side)
    requires Sorted(orders, side)
    ensures var levels := Grouped(orders);
      && StrictlyBest(levels, side)
      && (forall i | 0 <= i < |levels| :: Exact(levels[i], orders))
      && (orders == [] <==> levels == []) && (orders != [] ==> levels[0].price == orders[0].Price())
    ensures forall k | 0 <= k < |orders| :: exists i ::
      0 <= i < |Grouped(orders)| && Grouped(orders)[i].price == orders[k].Price()
  {
    if orders != [] {
      var o, rest := orders[0], Grouped(orders[1..]);
      GroupedExact(orders[1..], side);
      var levels := Grouped(orders);
      if rest != [] && rest[0].price == o.Price() {
        StackTail(o, rest, orders, side);
        assert forall i | 0 <= i < |rest| :: levels[i].price == rest[i].price;
      } else {
        FirstOfKind(orders, rest, side);
      }
      forall k | 0 <= k < |orders|
        ensures exists i :: 0 <= i < |levels| && levels[i].price == orders[k].Price()
      {
        PriceShown(orders, rest, k);
      }
    }
  }

  lemma PriceShown(orders: seq<Order>, rest: seq<Level>, k: nat)
    requires k < |orders|
    requires k > 0 ==> exists i :: 0 <= i < |rest| && rest[i].price == orders[k].Price()
    ensures exists i :: 0 <= i < |Stack(orders[0], rest)| && Stack(orders[0], rest)[i].price == orders[k].Price()
  {
    var levels := Stack(orders[0], rest);
    if k == 0 {
      assert levels[0].price == orders[0].Price();
    } else {
      var i :| 0 <= i < |rest| && rest[i].price == orders[k].Price();
      assert levels[if |levels| == |rest| then i else i + 1].price == orders[k].Price();
    }
  }

  /** Below a new best price nothing changes. */
  lemma BelowBest(orders: seq<Order>, level: Level)
    requires orders != [] && Exact(level, orders[1..]) && level.price != orders[0].Price()
    ensures Exact(level, orders)
  {
  }

  lemma OnTop(top: Level, rest: seq<Level>, side: Side)
    requires StrictlyBest(rest, side) && (rest != [] ==> Better(side, top.price, rest[0].price))
    ensures StrictlyBest([top] + rest, side)
    ensures forall i | 0 <= i < |rest| :: rest[i].price != top.price
  {
  }

  /** An order at a new best price starts a level of its own. */
  lemma FirstOfKind(orders: seq<Order>, rest: seq<Level>, side: Side)
    requires orders != [] && Sorted(orders, side)
    requires StrictlyBest(rest, side) && forall i | 0 <= i < |rest| :: Exact(rest[i], orders[1..])
    requires if |orders| == 1 then rest == [] else rest != [] && rest[0].price == orders[1].Price()
    requires rest != [] ==> rest[0].price != orders[0].Price()
    ensures var levels := Stack(orders[0], rest);
      StrictlyBest(levels, side) && forall i | 0 <= i < |levels| :: Exact(levels[i], orders)
  {
    var o, levels := orders[0], Stack(orders[0], rest);
    assert forall i | 0 < i < |orders| :: orders[i].Price() != o.Price();
    NoneAt(orders[1..], o.Price());
    assert Exact(levels[0], orders);
    hide Exact, StrictlyBest;
    OnTop(levels[0], rest, side);
    forall i | 0 <= i < |levels| ensures Exact(levels[i], orders) {
      if i > 0 {
        assert levels[i] == rest[i - 1];
        BelowBest(orders, rest[i - 1]);
      }
    }
  }

  // The levels of the engine's book, as it adds them up.

  function Sums(levels: seq<PriceLevel>, storage: seq<Order>): seq<Level> {
    if levels == [] then []
    else
      [Level(levels[0].price, Total(Orders(storage, levels[0].queue)), |levels[0].queue|)]
      + Sums(levels[1..], storage)
  }

  lemma {:induction false} GroupedQueue(queue: seq<Order>, rest: seq<Order>, price: nat)
    requires queue != [] && forall i | 0 <= i < |queue| :: queue[i].Price() == price
    requires rest != [] ==> rest[0].Price() != price
    ensures Grouped(queue + rest) == [Level(price, Total(queue), |queue|)] + Grouped(rest)
  {
    var all := queue + rest;
    assert all[1..] == queue[1..] + rest;
    if |queue| > 1 {
      GroupedQueue(queue[1..], rest, price);
    } else {
      assert queue[1..] + rest == rest;
    }
  }

  /** Grouping the flat side gives the levels' own sums. */
  lemma {:induction false} GroupedIsSums(levels: seq<PriceLevel>, storage: seq<Order>, side: Side)
    requires LevelsSorted(levels, side) && AllLevelsOk(levels, storage) && NonEmpty(levels)
    ensures Grouped(Orders(storage, Flat(levels))) == Sums(levels, storage)
  {
    if levels != [] {
      var queue, rest := Orders(storage, levels[0].queue), Orders(storage, Flat(levels[1..]));
      GroupedIsSums(levels[1..], storage, side);
      OrdersConcat(storage, levels[0].queue, Flat(levels[1..]));
      assert LevelOk(levels[0], storage);
      if levels[1..] != [] {
        assert LevelOk(levels[1], storage) && Flat(levels[1..])[0] == levels[1].queue[0];
      }
      GroupedQueue(queue, rest, levels[0].price);
    }
  }

  /** Totals of a side in order fit 64 bits and are never zero. */
  lemma {:induction false} SumsFit(levels: seq<PriceLevel>, storage: seq<Order>, side: Side, k: nat)
    requires LevelsSorted(levels, side) && AllLevelsOk(levels, storage) && NonEmpty(levels) && k < |levels|
    requires LevelsFit(Orders(storage, Flat(levels))) && AllResting(Orders(storage, Flat(levels)), side)
    ensures 0 < Total(Orders(storage, levels[k].queue)) <= U64_MAX
  {
    QueueTotal(levels, storage, side, levels[k].price);
    QueueIs(levels, side, k);
    QueueRests(levels, storage, side, k);
    var queue := Orders(storage, levels[k].queue);
    assert LevelTotal(Orders(storage, Flat(levels)), levels[k].price) <= U64_MAX;
    assert queue[0].remaining <= Total(queue);
  }

  lemma {:induction false} QueueIs(levels: seq<PriceLevel>, side: Side, k: nat)
    requires LevelsSorted(levels, side) && k < |levels|
    ensures QueueAt(levels, levels[k].price) == levels[k].queue
  {
    if k > 0 {
      QueueIs(levels[1..], side, k - 1);
    }
  }

  lemma {:induction false} QueueRests(levels: seq<PriceLevel>, storage: seq<Order>, side: Side, k: nat)
    requires k < |levels| && levels[k].queue != []
    requires AllResting(Orders(storage, Flat(levels)), side)
    ensures Orders(storage, levels[k].queue)[0].remaining > 0
  {
    var all := Orders(storage, Flat(levels));
    OrdersConcat(storage, levels[0].queue, Flat(levels[1..]));
    if k == 0 {
      assert RestingOk(all[0], side);
    } else {
      var tail := Orders(storage, Flat(levels[1..]));
      forall i | 0 <= i < |tail| ensures RestingOk(tail[i], side) {
        assert tail[i] == all[|levels[0].queue| + i];
      }
      QueueRests(levels[1..], storage, side, k - 1);
    }
  }

  lemma WrapNone()
    ensures Wrap64(0) == 0 && Wrap32(0) == 0
  {
  }

  lemma WrapStep(total: nat, more: nat, count: nat)
    ensures Wrap64(Wrap64(total) + more) == Wrap64(total + more)
    ensures Wrap32(Wrap32(count) + 1) == Wrap32(count + 1)
  {
  }

  lemma WrapFits(total: nat)
    requires total <= U64_MAX
    ensures Wrap64(total) == total
  {
  }

  /** The next level shown. */
  lemma TopEnds(levels: seq<PriceLevel>, storage: seq<Order>, i: nat, depth: nat)
    requires i <= |levels| && (i == |levels| || depth == 0)
    ensures Top(Sums(levels[i..], storage), depth) == []
  {
  }

  lemma TopStep(levels: seq<PriceLevel>, storage: seq<Order>, i: nat, depth: nat)
    requires i < |levels| && depth > 0
    ensures Top(Sums(levels[i..], storage), depth)
         == [Level(levels[i].price, Total(Orders(storage, levels[i].queue)), Wrap32(|levels[i].queue|))]
            + Top(Sums(levels[i + 1..], storage), depth - 1)
  {
  }
}
