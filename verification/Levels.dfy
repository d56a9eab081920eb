/** Price levels over a pool of slots, and the flat side of the book they stand for. */
module Levels {
  import opened BookTypes
  import opened BookSpec

  /** One entry of an ordered price map: a price and its queue of slots, oldest first. */
  datatype PriceLevel = PriceLevel(price: nat, queue: seq<nat>)

  /** All queued slots, best level first. */
  function Flat(levels: seq<PriceLevel>): seq<nat> {
    if levels == [] then [] else levels[0].queue + Flat(levels[1..])
  }

  const BLANK: Order := Order(OrderCommand("", "", Buy, Limit, GTC, 0, 0, 0, 0, false), 0, 0, Open)

  /** The order in a slot; a slot outside the pool reads as blank. */
  function At(storage: seq<Order>, s: nat): Order {
    if s < |storage| then storage[s] else BLANK
  }

  function Orders(storage: seq<Order>, slots: seq<nat>): (orders: seq<Order>)
    ensures |orders| == |slots|
    ensures forall i | 0 <= i < |slots| :: orders[i] == At(storage, slots[i])
  {
    seq(|slots|, i requires 0 <= i < |slots| => At(storage, slots[i]))
  }

  lemma OrdersConcat(storage: seq<Order>, left: seq<nat>, right: seq<nat>)
    ensures Orders(storage, left + right) == Orders(storage, left) + Orders(storage, right)
  {
  }

  lemma OrdersUpdate(storage: seq<Order>, slots: seq<nat>, s: nat, o: Order)
    requires s < |storage| && s !in slots
    ensures Orders(storage[s := o], slots) == Orders(storage, slots)
  {
  }

  /** The queue holds pool slots whose orders are at the level's price. */
  predicate LevelOk(level: PriceLevel, storage: seq<Order>) {
    forall k | 0 <= k < |level.queue| ::
      level.queue[k] < |storage| && storage[level.queue[k]].Price() == level.price
  }

  predicate LevelsSorted(levels: seq<PriceLevel>, side: Side) {
    forall i, j | 0 <= i < j < |levels| :: Better(side, levels[i].price, levels[j].price)
  }

  predicate AllLevelsOk(levels: seq<PriceLevel>, storage: seq<Order>) {
    forall i | 0 <= i < |levels| :: LevelOk(levels[i], storage)
  }

  predicate NonEmpty(levels: seq<PriceLevel>) {
    forall i | 0 <= i < |levels| :: levels[i].queue != []
  }

  /** Levels only look at commands, so any update that keeps the command keeps them. */
  lemma UpdateKeepsLevels(levels: seq<PriceLevel>, storage: seq<Order>, s: nat, o: Order)
    requires AllLevelsOk(levels, storage) && s < |storage| && o.command == storage[s].command
    ensures AllLevelsOk(levels, storage[s := o])
  {
  }

  /** Levels do not mention slots outside their queues. */
  lemma {:induction false} OutsideKeepsLevels(levels: seq<PriceLevel>, storage: seq<Order>, s: nat, o: Order)
    requires AllLevelsOk(levels, storage) && s < |storage| && s !in Flat(levels)
    ensures AllLevelsOk(levels, storage[s := o])
  {
    if levels != [] {
      assert s !in levels[0].queue && s !in Flat(levels[1..]);
      OutsideKeepsLevels(levels[1..], storage, s, o);
      assert LevelOk(levels[0], storage);
      assert LevelOk(levels[0], storage[s := o]);
      forall i | 0 <= i < |levels| ensures LevelOk(levels[i], storage[s := o]) {
        if i > 0 {
          assert levels[i] == levels[1..][i - 1];
        }
      }
    }
  }

  // Appending to a level: `levels[price].push_back(slot)` on an ordered map.

  function Push(levels: seq<PriceLevel>, side: Side, price: nat, slot: nat): seq<PriceLevel> {
    if levels == [] || Better(side, price, levels[0].price) then [PriceLevel(price, [slot])] + levels
    else if levels[0].price == price then [PriceLevel(price, levels[0].queue + [slot])] + levels[1..]
    else [levels[0]] + Push(levels[1..], side, price, slot)
  }

  lemma {:induction false} PushFlat(levels: seq<PriceLevel>, side: Side, price: nat, slot: nat)
    ensures multiset(Flat(Push(levels, side, price, slot))) == multiset(Flat(levels)) + multiset{slot}
  {
    var pushed := Push(levels, side, price, slot);
    if levels == [] || Better(side, price, levels[0].price) {
      assert pushed[1..] == levels;
    } else if levels[0].price == price {
      assert pushed[1..] == levels[1..];
    } else {
      PushFlat(levels[1..], side, price, slot);
      assert pushed[1..] == Push(levels[1..], side, price, slot);
    }
  }

  lemma {:induction false} PushOrdered(levels: seq<PriceLevel>, storage: seq<Order>, side: Side, slot: nat)
    requires LevelsSorted(levels, side) && AllLevelsOk(levels, storage) && NonEmpty(levels)
    requires slot < |storage| && storage[slot].command.side == side
    ensures var pushed := Push(levels, side, storage[slot].Price(), slot);
      && LevelsSorted(pushed, side) && AllLevelsOk(pushed, storage) && NonEmpty(pushed)
      && pushed != []
      && (pushed[0].price == storage[slot].Price() || (levels != [] && pushed[0].price == levels[0].price))
  {
    var price := storage[slot].Price();
    var pushed := Push(levels, side, price, slot);
    if levels == [] || Better(side, price, levels[0].price) {
    } else if levels[0].price == price {
      assert LevelOk(levels[0], storage);
      assert LevelOk(pushed[0], storage);
    } else {
      PushOrdered(levels[1..], storage, side, slot);
      assert pushed[1..] == Push(levels[1..], side, price, slot);
      PushHead(levels[1..], side, price, slot, levels[0].price);
    }
  }

  /** Every level after a push is at an old price or the new one. */
  lemma {:induction false} PushHead(levels: seq<PriceLevel>, side: Side, price: nat, slot: nat, bound: nat)
    requires forall i | 0 <= i < |levels| :: Better(side, bound, levels[i].price)
    requires Better(side, bound, price)
    ensures var pushed := Push(levels, side, price, slot);
      forall i | 0 <= i < |pushed| :: Better(side, bound, pushed[i].price)
  {
    if levels != [] && !Better(side, price, levels[0].price) && levels[0].price != price {
      PushHead(levels[1..], side, price, slot, bound);
      assert Push(levels, side, price, slot)[1..] == Push(levels[1..], side, price, slot);
      assert Better(side, bound, levels[0].price);
    }
  }

  lemma {:induction false} InsertSkips(prefix: seq<Order>, rest: seq<Order>, o: Order)
    requires forall i | 0 <= i < |prefix| :: !Better(o.command.side, o.Price(), prefix[i].Price())
    ensures Insert(prefix + rest, o) == prefix + Insert(rest, o)
  {
    if prefix == [] {
      assert prefix + rest == rest;
    } else {
      InsertSkips(prefix[1..], rest, o);
      assert (prefix + rest)[1..] == prefix[1..] + rest;
    }
  }

  lemma {:induction false} PushFront(levels: seq<PriceLevel>, storage: seq<Order>, slot: nat)
    requires slot < |storage| && AllLevelsOk(levels, storage) && NonEmpty(levels)
    requires levels != [] ==> Better(storage[slot].command.side, storage[slot].Price(), levels[0].price)
    ensures Orders(storage, [slot] + Flat(levels)) == Insert(Orders(storage, Flat(levels)), storage[slot])
  {
  }

  lemma {:induction false} PushSame(level: PriceLevel, rest: seq<PriceLevel>, storage: seq<Order>, slot: nat)
    requires slot < |storage| && LevelOk(level, storage) && AllLevelsOk(rest, storage) && NonEmpty(rest)
    requires level.price == storage[slot].Price()
    requires rest != [] ==> Better(storage[slot].command.side, storage[slot].Price(), rest[0].price)
    ensures Orders(storage, level.queue + [slot] + Flat(rest))
            == Insert(Orders(storage, level.queue + Flat(rest)), storage[slot])
  {
    PushFront(rest, storage, slot);
    OrdersConcat(storage, level.queue, Flat(rest));
    OrdersConcat(storage, level.queue, [slot] + Flat(rest));
    InsertSkips(Orders(storage, level.queue), Orders(storage, Flat(rest)), storage[slot]);
    assert level.queue + [slot] + Flat(rest) == level.queue + ([slot] + Flat(rest));
  }

  /** Pushing onto a level is inserting into the flat side. */
  lemma {:induction false} PushIsInsert(levels: seq<PriceLevel>, storage: seq<Order>, slot: nat)
    requires slot < |storage|
    requires LevelsSorted(levels, storage[slot].command.side) && AllLevelsOk(levels, storage) && NonEmpty(levels)
    ensures Orders(storage, Flat(Push(levels, storage[slot].command.side, storage[slot].Price(), slot)))
            == Insert(Orders(storage, Flat(levels)), storage[slot])
  {
    var o := storage[slot];
    var side, price := o.command.side, o.Price();
    var pushed := Push(levels, side, price, slot);
    if levels == [] || Better(side, price, levels[0].price) {
      assert pushed[1..] == levels;
      PushFront(levels, storage, slot);
    } else if levels[0].price == price {
      assert pushed[1..] == levels[1..];
      PushSame(levels[0], levels[1..], storage, slot);
    } else {
      PushIsInsert(levels[1..], storage, slot);
      assert pushed[1..] == Push(levels[1..], side, price, slot);
      assert LevelOk(levels[0], storage);
      var queue := levels[0].queue;
      OrdersConcat(storage, queue, Flat(levels[1..]));
      OrdersConcat(storage, queue, Flat(pushed[1..]));
      InsertSkips(Orders(storage, queue), Orders(storage, Flat(levels[1..])), o);
    }
  }

  // The queue at a price: `levels.find(price)`.

  function QueueAt(levels: seq<PriceLevel>, price: nat): seq<nat> {
    if levels == [] then [] else if levels[0].price == price then levels[0].queue else QueueAt(levels[1..], price)
  }

  lemma {:induction false} LevelTotalConcat(left: seq<Order>, right: seq<Order>, p: nat)
    ensures LevelTotal(left + right, p) == LevelTotal(left, p) + LevelTotal(right, p)
  {
    if left == [] {
      assert left + right == right;
    } else {
      LevelTotalConcat(left[1..], right, p);
      assert (left + right)[1..] == left[1..] + right;
    }
  }

  lemma {:induction false} LevelTotalUniform(orders: seq<Order>, price: nat, p: nat)
    requires forall i | 0 <= i < |orders| :: orders[i].Price() == price
    ensures LevelTotal(orders, p) == if p == price then Total(orders) else 0
  {
    if orders != [] {
      LevelTotalUniform(orders[1..], price, p);
    }
  }

  /** The flat side's total at a price is the total of the queue at that price. */
  lemma {:induction false} QueueTotal(levels: seq<PriceLevel>, storage: seq<Order>, side: Side, price: nat)
    requires LevelsSorted(levels, side) && AllLevelsOk(levels, storage)
    ensures LevelTotal(Orders(storage, Flat(levels)), price) == Total(Orders(storage, QueueAt(levels, price)))
  {
    if levels != [] {
      assert LevelOk(levels[0], storage);
      QueueTotal(levels[1..], storage, side, price);
      OrdersConcat(storage, levels[0].queue, Flat(levels[1..]));
      LevelTotalConcat(Orders(storage, levels[0].queue), Orders(storage, Flat(levels[1..])), price);
      LevelTotalUniform(Orders(storage, levels[0].queue), levels[0].price, price);
      if levels[0].price == price {
        NotAt(levels[1..], price);
      }
    }
  }

  lemma {:induction false} NotAt(levels: seq<PriceLevel>, price: nat)
    requires forall i | 0 <= i < |levels| :: levels[i].price != price
    ensures QueueAt(levels, price) == []
  {
    if levels != [] {
      NotAt(levels[1..], price);
    }
  }

  // Erasing a slot from its level, and the level with it when it empties.

  function Without(slots: seq<nat>, s: nat): seq<nat> {
    if slots == [] then [] else if slots[0] == s then Without(slots[1..], s) else [slots[0]] + Without(slots[1..], s)
  }

  function Erase(levels: seq<PriceLevel>, price: nat, s: nat): seq<PriceLevel> {
    if levels == [] then []
    else if levels[0].price == price then
      var queue := Without(levels[0].queue, s);
      if queue == [] then levels[1..] else [PriceLevel(price, queue)] + levels[1..]
    else [levels[0]] + Erase(levels[1..], price, s)
  }

  lemma {:induction false} WithoutAbsent(slots: seq<nat>, s: nat)
    requires s !in slots
    ensures Without(slots, s) == slots
  {
    if slots != [] {
      WithoutAbsent(slots[1..], s);
    }
  }

  lemma {:induction false} WithoutConcat(left: seq<nat>, right: seq<nat>, s: nat)
    ensures Without(left + right, s) == Without(left, s) + Without(right, s)
  {
    if left == [] {
      assert left + right == right;
    } else {
      var both := left + right;
      assert both[0] == left[0] && both[1..] == left[1..] + right;
      WithoutConcat(left[1..], right, s);
    }
  }

  lemma {:induction false} WithoutMembers(slots: seq<nat>, s: nat)
    ensures forall x :: x in Without(slots, s) ==> x in slots
  {
    if slots != [] {
      WithoutMembers(slots[1..], s);
    }
  }

  lemma OnceTail(slots: seq<nat>, k: nat)
    requires k < |slots| && multiset(slots)[slots[k]] == 1
    ensures k == 0 ==> slots[0] !in slots[1..]
    ensures k > 0 ==> slots[0] != slots[k] && slots[1..][k - 1] == slots[k] && multiset(slots[1..])[slots[k]] == 1
  {
    assert slots == [slots[0]] + slots[1..];
    assert multiset(slots) == multiset{slots[0]} + multiset(slots[1..]);
    if k > 0 {
      assert slots[1..][k - 1] in multiset(slots[1..]);
    }
  }

  lemma CutTail(slots: seq<nat>, k: nat)
    requires 0 < k < |slots|
    ensures slots[..k] + slots[k + 1..] == [slots[0]] + (slots[1..][..k - 1] + slots[1..][k..])
  {
  }

  /** Removing a slot that occurs once removes exactly its position. */
  lemma {:induction false} WithoutOnce(slots: seq<nat>, k: nat)
    requires k < |slots| && multiset(slots)[slots[k]] == 1
    ensures Without(slots, slots[k]) == slots[..k] + slots[k + 1..]
  {
    OnceTail(slots, k);
    if k == 0 {
      WithoutAbsent(slots[1..], slots[0]);
      assert slots[..0] + slots[1..] == slots[1..];
    } else {
      WithoutOnce(slots[1..], k - 1);
      CutTail(slots, k);
    }
  }

  lemma EraseNothing(price: nat, s: nat)
    ensures Flat(Erase([], price, s)) == Without(Flat([]), s)
  {
  }

  lemma EraseHere(levels: seq<PriceLevel>, s: nat)
    requires levels != [] && s !in Flat(levels[1..])
    ensures Flat(Erase(levels, levels[0].price, s)) == Without(Flat(levels), s)
  {
    hide Without;
    var rest, queue := Flat(levels[1..]), Without(levels[0].queue, s);
    WithoutConcat(levels[0].queue, rest, s);
    WithoutAbsent(rest, s);
    assert [] + rest == rest;
    assert ([PriceLevel(levels[0].price, queue)] + levels[1..])[1..] == levels[1..];
  }

  lemma EraseLater(levels: seq<PriceLevel>, price: nat, s: nat)
    requires levels != [] && levels[0].price != price && s !in levels[0].queue
    requires Flat(Erase(levels[1..], price, s)) == Without(Flat(levels[1..]), s)
    ensures Flat(Erase(levels, price, s)) == Without(Flat(levels), s)
  {
    hide Without;
    WithoutConcat(levels[0].queue, Flat(levels[1..]), s);
    WithoutAbsent(levels[0].queue, s);
    assert Erase(levels, price, s)[1..] == Erase(levels[1..], price, s);
  }

  lemma {:induction false} EraseFlat(levels: seq<PriceLevel>, storage: seq<Order>, side: Side, s: nat)
    requires LevelsSorted(levels, side) && AllLevelsOk(levels, storage) && s < |storage|
    ensures Flat(Erase(levels, storage[s].Price(), s)) == Without(Flat(levels), s)
  {
    hide Without, Erase, Flat;
    var price := storage[s].Price();
    if levels == [] {
      EraseNothing(price, s);
    } else {
      assert LevelOk(levels[0], storage);
      if levels[0].price == price {
        if s in Flat(levels[1..]) {
          SlotAtPrice(levels[1..], storage, s);
        }
        EraseHere(levels, s);
      } else {
        EraseFlat(levels[1..], storage, side, s);
        EraseLater(levels, price, s);
      }
    }
  }

  lemma {:induction false} SlotAtPrice(levels: seq<PriceLevel>, storage: seq<Order>, s: nat)
    requires AllLevelsOk(levels, storage) && s in Flat(levels)
    ensures s < |storage| && exists i :: 0 <= i < |levels| && levels[i].price == storage[s].Price()
  {
    if s in levels[0].queue {
      assert LevelOk(levels[0], storage);
    } else {
      SlotAtPrice(levels[1..], storage, s);
      var i :| 0 <= i < |levels[1..]| && levels[1..][i].price == storage[s].Price();
      assert levels[i + 1].price == storage[s].Price();
    }
  }

  lemma {:induction false} EraseOrdered(levels: seq<PriceLevel>, storage: seq<Order>, side: Side, price: nat, s: nat)
    requires LevelsSorted(levels, side) && AllLevelsOk(levels, storage) && NonEmpty(levels)
    ensures var erased := Erase(levels, price, s);
      && LevelsSorted(erased, side) && AllLevelsOk(erased, storage) && NonEmpty(erased)
      && forall i | 0 <= i < |erased| :: exists j :: 0 <= j < |levels| && levels[j].price == erased[i].price
  {
    var erased := Erase(levels, price, s);
    if levels != [] {
      if levels[0].price == price {
        WithoutMembers(levels[0].queue, s);
        assert LevelOk(levels[0], storage);
        if Without(levels[0].queue, s) != [] {
          QueueShrinks(levels[0], storage, Without(levels[0].queue, s));
        } 
      } else {
        EraseOrdered(levels[1..], storage, side, price, s);
      }
    }
  }

  lemma QueueShrinks(level: PriceLevel, storage: seq<Order>, queue: seq<nat>)
    requires LevelOk(level, storage) && forall x :: x in queue ==> x in level.queue
    ensures LevelOk(PriceLevel(level.price, queue), storage)
  {
    forall k | 0 <= k < |queue| ensures queue[k] < |storage| && storage[queue[k]].Price() == level.price {
      assert queue[k] in level.queue;
    }
  }
}
