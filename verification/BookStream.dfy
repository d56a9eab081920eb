/** The order-book stream: which of the published snapshots a store accepts. */
module BookStream {
  import opened Options
  import opened BookTypes
  import opened BookSpec
  import opened Depth
  import opened EngineSpec
  import TradeStream

  // The snapshots of a run.

  /** A snapshot as published: its timestamp and contents. */
  datatype Shot = Shot(timestamp: nat, snapshot: Snapshot)

  function TimeOf(k: Symbol, entry: Entry): nat {
    if entry.kind == ORDER then
      match k.protocol.decodeOrder(entry.payload)
      case None => 0
      case Some(d) => d.command.timestamp
    else
      match k.protocol.decodeControl(entry.payload)
      case None => 0
      case Some(c) => c.timestamp
  }

  /** A command publishes one snapshot if it moved the book. */
  function Shots(k: Symbol, b: Book, commands: seq<Entry>): seq<Shot>
    requires Executable(k, b, commands)
    decreases |commands|
  {
    if commands == [] then []
    else
      var b' := EffectOf(k, b, commands[0]).value.book;
      (if b'.bookSequence != b.bookSequence then [Shot(TimeOf(k, commands[0]), SnapshotOf(b', DEPTH))] else [])
      + Shots(k, b', commands[1..])
  }

  function ShotEntries(k: Symbol, shots: seq<Shot>): (entries: seq<Entry>)
    ensures |entries| == |shots|
  {
    seq(|shots|, i requires 0 <= i < |shots| =>
          Entry(BOOK, k.protocol.encodeSnapshot(k.pair, shots[i].timestamp, shots[i].snapshot)))
  }

  function BookRecords(entries: seq<Entry>): seq<Entry> {
    if entries == [] then []
    else if entries[0].kind == BOOK then [entries[0]] + BookRecords(entries[1..])
    else BookRecords(entries[1..])
  }

  lemma {:induction false} BooksAppend(a: seq<Entry>, b: seq<Entry>)
    ensures BookRecords(a + b) == BookRecords(a) + BookRecords(b)
  {
    if a == [] {
      assert a + b == b;
    } else {
      BooksAppend(a[1..], b);
      assert (a + b)[0] == a[0] && (a + b)[1..] == a[1..] + b;
      assert [a[0]] + BookRecords(a[1..]) + BookRecords(b) == [a[0]] + (BookRecords(a[1..]) + BookRecords(b));
    }
  }

  lemma {:induction false} NoBooks(entries: seq<Entry>)
    requires forall i | 0 <= i < |entries| :: entries[i].kind != BOOK
    ensures BookRecords(entries) == []
  {
    if entries != [] {
      NoBooks(entries[1..]);
    }
  }

  lemma EventBooks(k: Symbol, outcome: Outcome, at: nat, prior: nat, b: Book)
    ensures BookRecords(Events(k, outcome, at, prior, b))
         == if b.bookSequence != prior then [Entry(BOOK, k.protocol.encodeSnapshot(k.pair, at, SnapshotOf(b, DEPTH)))]
           else []
  {
    hide SnapshotOf;
    var head := TradeEntries(k, outcome.trades) + StatusEntries(k, outcome.statuses);
    var events := Events(k, outcome, at, prior, b);
    NoBooks(head);
    BooksAppend(head, events[|head|..]);
    assert events == head + events[|head|..];
    if b.bookSequence != prior {
      var shot := Entry(BOOK, k.protocol.encodeSnapshot(k.pair, at, SnapshotOf(b, DEPTH)));
      assert events[|head|..] == [shot] && [shot][1..] == [];
    } else {
      assert events[|head|..] == [];
    }
  }

  lemma EffectBooks(k: Symbol, b: Book, entry: Entry)
    requires EffectOf(k, b, entry).Some?
    ensures var e := EffectOf(k, b, entry).value;
      && entry.kind != BOOK
      && BookRecords(e.Outputs())
         == if e.book.bookSequence != b.bookSequence
            then ShotEntries(k, [Shot(TimeOf(k, entry), SnapshotOf(e.book, DEPTH))]) else []
  {
    hide Submit, Cancel, Events, SnapshotOf, BookRecords, AckOf;
    var e := EffectOf(k, b, entry).value;
    BooksAppend(e.events, e.tail);
    NoBooks(e.tail);
    if entry.kind == ORDER {
      var cmd := k.protocol.decodeOrder(entry.payload).value.command;
      var (next, outcome) := Submit(k.fees, b, cmd);
      EventBooks(k, outcome, cmd.timestamp, b.bookSequence, next);
    } else {
      var c := k.protocol.decodeControl(entry.payload).value;
      var (next, outcome) := Cancel(b, c.orderId);
      EventBooks(k, outcome, c.timestamp, b.bookSequence, next);
    }
  }

  lemma ShotsAppend(k: Symbol, a: seq<Shot>, b: seq<Shot>)
    ensures ShotEntries(k, a + b) == ShotEntries(k, a) + ShotEntries(k, b)
  {
  }

  /** The snapshot records of a run's journal are its snapshots. */
  lemma {:induction false} JournalShots(k: Symbol, b: Book, commands: seq<Entry>)
    requires Executable(k, b, commands)
    ensures BookRecords(JournalOf(k, b, commands)) == ShotEntries(k, Shots(k, b, commands))
    decreases |commands|
  {
    hide EffectOf, BookRecords, Effect.Outputs, ShotEntries, SnapshotOf;
    if commands == [] {
      NoBooks([]);
    } else {
      var c, rest := commands[0], commands[1..];
      var e := EffectOf(k, b, c).value;
      EffectBooks(k, b, c);
      JournalShots(k, e.book, rest);
      var journal := JournalOf(k, e.book, rest);
      BooksAppend([c], e.Outputs());
      BooksAppend([c] + e.Outputs(), journal);
      NoBooks([c]);
      var first := if e.book.bookSequence != b.bookSequence then [Shot(TimeOf(k, c), SnapshotOf(e.book, DEPTH))]
        else [];
      NoShots(k);
      assert [] + ShotEntries(k, first) == ShotEntries(k, first);
      ShotsAppend(k, first, Shots(k, e.book, rest));
    }
  }

  lemma NoShots(k: Symbol)
    ensures ShotEntries(k, []) == []
  {
  }

  function Numbers(shots: seq<Shot>): (numbers: seq<nat>)
    ensures |numbers| == |shots|
  {
    seq(|shots|, i requires 0 <= i < |shots| => shots[i].snapshot.sequence)
  }

  // How far a command moves the book.

  lemma {:induction false} FillAllMoves(fees: FeeResolver, m: Matching)
    ensures var done := FillAll(fees, m);
      && done.bookSequence >= m.bookSequence && (done.bookSequence == m.bookSequence ==> done == m)
      && (m.makers == [] ==> done == m) && done.taker.command == m.taker.command
    decreases |m.makers|, m.taker.remaining
  {
    if m.CanFill() {
      FillAllMoves(fees, FillOne(fees, m));
    }
  }

  /** The book number never falls; it stays only if the orders stay, and from an empty book it rises by at most one. */
  lemma SubmitMoves(fees: FeeResolver, b: Book, cmd: OrderCommand)
    ensures var next := Submit(fees, b, cmd).0;
      && next.bookSequence >= b.bookSequence
      && (next.bookSequence == b.bookSequence ==> next.bids == b.bids && next.asks == b.asks)
      && (b.bids == [] && b.asks == [] ==> next.bookSequence <= b.bookSequence + 1)
  {
    hide FillAll, Insert, LevelTotal, Eligible;
    FillAllMoves(fees, Start(b, cmd));
  }

  lemma EffectMoves(k: Symbol, b: Book, entry: Entry)
    requires EffectOf(k, b, entry).Some?
    ensures var next := EffectOf(k, b, entry).value.book;
      && next.bookSequence >= b.bookSequence
      && (next.bookSequence == b.bookSequence ==> next.bids == b.bids && next.asks == b.asks)
      && (b.bids == [] && b.asks == [] ==> next.bookSequence <= b.bookSequence + 1)
  {
    hide Submit, Events, Remove;
    if entry.kind == ORDER {
      SubmitMoves(k.fees, b, k.protocol.decodeOrder(entry.payload).value.command);
    }
  }

  /** Every command moves the book number by at most one: at most one fill, and none with a rest. */
  predicate Gentle(k: Symbol, b: Book, commands: seq<Entry>)
    requires Executable(k, b, commands)
    decreases |commands|
  {
    commands == [] ||
    (var b' := EffectOf(k, b, commands[0]).value.book;
     b'.bookSequence <= b.bookSequence + 1 && Gentle(k, b', commands[1..]))
  }

  predicate Consecutive(numbers: seq<nat>, last: int) {
    forall i | 0 <= i < |numbers| :: numbers[i] == last + 1 + i
  }

  lemma ConsecutiveCons(n: nat, rest: seq<nat>, last: nat)
    ensures Consecutive([n] + rest, last) <==> n == last + 1 && Consecutive(rest, last + 1)
  {
    var all := [n] + rest;
    if Consecutive(all, last) {
      assert all[0] == n;
      forall i | 0 <= i < |rest| ensures rest[i] == last + 2 + i {
        assert all[i + 1] == rest[i];
      }
    }
  }

  lemma NumbersCons(s: Shot, rest: seq<Shot>)
    ensures Numbers([s] + rest) == [s.snapshot.sequence] + Numbers(rest)
  {
  }

  /** The published numbers go up one by one exactly when every command is gentle. */
  lemma {:induction false} GentleNumbers(k: Symbol, b: Book, commands: seq<Entry>)
    requires Executable(k, b, commands)
    ensures Consecutive(Numbers(Shots(k, b, commands)), b.bookSequence) <==> Gentle(k, b, commands)
    decreases |commands|
  {
    hide EffectOf, Grouped, Consecutive, Numbers;
    if commands == [] {
      NoNumbers(b.bookSequence);
    } else {
      var e := EffectOf(k, b, commands[0]).value;
      EffectMoves(k, b, commands[0]);
      GentleNumbers(k, e.book, commands[1..]);
      var shot, rest := Shot(TimeOf(k, commands[0]), SnapshotOf(e.book, DEPTH)), Shots(k, e.book, commands[1..]);
      if e.book.bookSequence != b.bookSequence {
        NumbersCons(shot, rest);
        ConsecutiveCons(e.book.bookSequence, Numbers(rest), b.bookSequence);
      } else {
        assert [] + rest == rest;
      }
    }
  }

  lemma NoNumbers(last: nat)
    ensures Consecutive(Numbers([]), last)
  {
  }

  /** The first snapshot of a new book has number one. */
  lemma {:induction false} FirstNumber(k: Symbol, b: Book, commands: seq<Entry>)
    requires Executable(k, b, commands) && b.bids == [] && b.asks == []
    ensures var numbers := Numbers(Shots(k, b, commands)); numbers != [] ==> numbers[0] == b.bookSequence + 1
    decreases |commands|
  {
    hide EffectOf, Grouped;
    if commands != [] {
      var e := EffectOf(k, b, commands[0]).value;
      EffectMoves(k, b, commands[0]);
      if e.book.bookSequence == b.bookSequence {
        FirstNumber(k, e.book, commands[1..]);
        assert [] + Shots(k, e.book, commands[1..]) == Shots(k, e.book, commands[1..]);
      }
    }
  }

  predicate Rising(numbers: seq<nat>) {
    forall i, j | 0 <= i < j < |numbers| :: numbers[i] < numbers[j]
  }

  lemma {:induction false} NumbersRise(k: Symbol, b: Book, commands: seq<Entry>)
    requires Executable(k, b, commands)
    ensures var numbers := Numbers(Shots(k, b, commands));
      Rising(numbers) && forall i | 0 <= i < |numbers| :: numbers[i] > b.bookSequence
    decreases |commands|
  {
    hide EffectOf, Grouped, Rising, Numbers, TimeOf;
    if commands == [] {
      RisingNone();
    } else {
      var e := EffectOf(k, b, commands[0]).value;
      EffectMoves(k, b, commands[0]);
      NumbersRise(k, e.book, commands[1..]);
      var shot, rest := Shot(TimeOf(k, commands[0]), SnapshotOf(e.book, DEPTH)), Shots(k, e.book, commands[1..]);
      NumbersCons(shot, rest);
      RisingCons(shot.snapshot.sequence, Numbers(rest));
      assert [] + rest == rest;
    }
  }

  lemma RisingNone()
    ensures Rising(Numbers([]))
  {
  }

  lemma RisingCons(n: nat, rest: seq<nat>)
    requires Rising(rest) && forall i | 0 <= i < |rest| :: rest[i] > n
    ensures Rising([n] + rest)
  {
  }

  // The store at the other end.

  /** The store after the snapshots with these numbers. */
  function Fed(db: TradeStream.Database, pair: string, numbers: seq<nat>): TradeStream.Database {
    if numbers == [] then db
    else TradeStream.ClaimBook(Fed(db, pair, numbers[..|numbers| - 1]), pair, numbers[|numbers| - 1]).0
  }

  /** What it says to snapshot i. */
  function ClaimOf(db: TradeStream.Database, pair: string, numbers: seq<nat>, i: nat): TradeStream.Claim
    requires i < |numbers|
  {
    TradeStream.ClaimBook(Fed(db, pair, numbers[..i]), pair, numbers[i]).1
  }

  function Key(pair: string): (string, TradeStream.Stream) {
    (pair, TradeStream.OrderBook)
  }

  /** How many of the first numbers follow each other. */
  function Streak(numbers: seq<nat>): (n: nat)
    ensures n <= |numbers|
  {
    if numbers == [] then 0
    else
      var last := |numbers| - 1;
      var before := Streak(numbers[..last]);
      if before == last && (last == 0 || numbers[last] == numbers[last - 1] + 1) then |numbers| else before
  }

  /** The store stands at the last number of the first streak. */
  lemma {:induction false} FedStands(db: TradeStream.Database, pair: string, numbers: seq<nat>)
    requires Key(pair) !in db.streams && Rising(numbers)
    ensures numbers == [] ==> Fed(db, pair, numbers) == db
    ensures numbers != [] ==>
      var fed := Fed(db, pair, numbers);
      && Streak(numbers) > 0 && Key(pair) in fed.streams
      && fed.streams[Key(pair)].last == numbers[Streak(numbers) - 1]
      && fed.streams[Key(pair)].replayRequired == (Streak(numbers) < |numbers|)
  {
    if numbers != [] {
      FedStands(db, pair, numbers[..|numbers| - 1]);
    }
  }

  /** Snapshot i is accepted exactly when the numbers up to it follow each other; after the first jump none ever is. */
  lemma AcceptedExactly(db: TradeStream.Database, pair: string, numbers: seq<nat>, i: nat)
    requires Key(pair) !in db.streams && Rising(numbers) && i < |numbers|
    ensures ClaimOf(db, pair, numbers, i).Accepted? <==> Streak(numbers[..i + 1]) == i + 1
    ensures !ClaimOf(db, pair, numbers, i).Accepted? ==>
      0 < Streak(numbers[..i])
        && ClaimOf(db, pair, numbers, i) == TradeStream.Gap(numbers[Streak(numbers[..i]) - 1] + 1, numbers[i])
  {
    FedStands(db, pair, numbers[..i]);
    assert numbers[..i + 1][..i] == numbers[..i];
  }

  lemma {:induction false} StreakConsecutive(numbers: seq<nat>)
    requires numbers != []
    ensures Streak(numbers) == |numbers| <==> Consecutive(numbers, (numbers[0] as int) - 1)
  {
    var last := |numbers| - 1;
    if last > 0 {
      StreakConsecutive(numbers[..last]);
      var init := numbers[..last];
      if Consecutive(numbers, (numbers[0] as int) - 1) {
        assert forall i | 0 <= i < |init| :: init[i] == numbers[i];
        assert numbers[last] == numbers[0] + last && numbers[last - 1] == numbers[0] + last - 1;
      }
      if Streak(numbers) == |numbers| {
        assert init[last - 1] == numbers[0] + last - 1;
        forall i | 0 <= i < |numbers| ensures numbers[i] == numbers[0] + i {
          if i < last {
            assert init[i] == numbers[i];
          }
        }
      }
    }
  }

  predicate AllAccepted(db: TradeStream.Database, pair: string, numbers: seq<nat>) {
    forall i | 0 <= i < |numbers| :: ClaimOf(db, pair, numbers, i).Accepted?
  }

  lemma {:induction false} StreakPrefix(numbers: seq<nat>, n: nat)
    requires n <= |numbers| && Streak(numbers) == |numbers|
    ensures Streak(numbers[..n]) == n
  {
    if n < |numbers| {
      StreakPrefix(numbers[..|numbers| - 1], n);
      assert numbers[..|numbers| - 1][..n] == numbers[..n];
    } else {
      assert numbers[..n] == numbers;
    }
  }

  /**
   A store fed every snapshot of a run, in order, accepts all of them exactly
   when no command moved the book number by more than one.
   */
  lemma BookStreamExactly(k: Symbol, capacity: nat, commands: seq<Entry>, db: TradeStream.Database)
    requires Executable(k, Empty(capacity), commands) && Key(k.pair) !in db.streams
    ensures AllAccepted(db, k.pair, Numbers(Shots(k, Empty(capacity), commands))) <==>
      Gentle(k, Empty(capacity), commands)
  {
    hide Executable, Shots, Numbers, Gentle, Consecutive, Rising, Streak, ClaimOf;
    var b := Empty(capacity);
    var numbers := Numbers(Shots(k, b, commands));
    GentleNumbers(k, b, commands);
    NumbersRise(k, b, commands);
    FirstNumber(k, b, commands);
    if numbers == [] {
      NothingFed(0);
    } else {
      StreakConsecutive(numbers);
      assert numbers[..|numbers|] == numbers;
      forall i | 0 <= i < |numbers|
        ensures ClaimOf(db, k.pair, numbers, i).Accepted? <==> Streak(numbers[..i + 1]) == i + 1
      {
        AcceptedExactly(db, k.pair, numbers, i);
      }
      if AllAccepted(db, k.pair, numbers) {
        assert ClaimOf(db, k.pair, numbers, |numbers| - 1).Accepted?;
      }
      if Streak(numbers) == |numbers| {
        forall i | 0 <= i < |numbers| ensures ClaimOf(db, k.pair, numbers, i).Accepted? {
          StreakPrefix(numbers, i + 1);
        }
      }
    }
  }

  lemma NothingFed(last: nat)
    ensures Consecutive([], last)
  {
  }

  // A command that moves the book twice.

  predicate Plain(cmd: OrderCommand, side: Side, price: nat) {
    Valid(cmd) && cmd.side == side && cmd.kind.Limit? && cmd.tif.GTC? && !cmd.postOnly && cmd.price == price
  }

  lemma RestFirst(fees: FeeResolver, capacity: nat, s: OrderCommand)
    requires capacity >= 1 && Plain(s, Sell, s.price)
    ensures var (b, outcome) := Submit(fees, Empty(capacity), s);
      b == Book(capacity, [], [Fresh(s)], {s.id}, 0, 1, 1) && outcome.statuses != []
  {
    assert FillAll(fees, Start(Empty(capacity), s)) == Start(Empty(capacity), s);
    assert LevelTotal([], s.price) == 0;
  }

  lemma RestSecond(fees: FeeResolver, capacity: nat, s: OrderCommand, t: OrderCommand)
    requires capacity >= 3 && Plain(s, Sell, s.price) && Plain(t, Sell, s.price)
    requires s.id != t.id && s.quantity + t.quantity <= U64_MAX
    ensures var (b, outcome) := Submit(fees, Book(capacity, [], [Fresh(s)], {s.id}, 0, 1, 1), t);
      b == Book(capacity, [], [Fresh(s), Fresh(t)], {s.id, t.id}, 0, 2, 2) && outcome.statuses != []
  {
    var b := Book(capacity, [], [Fresh(s)], {s.id}, 0, 1, 1);
    assert FillAll(fees, Start(b, t)) == Start(b, t);
    assert LevelTotal([Fresh(s)], s.price) == s.quantity by {
      assert [Fresh(s)][1..] == [];
    }
    assert Insert([Fresh(s)], Fresh(t)) == [Fresh(s), Fresh(t)] by {
      assert [Fresh(s)][1..] == [];
    }
  }

  lemma FillBoth(fees: FeeResolver, capacity: nat, s: OrderCommand, t: OrderCommand, buy: OrderCommand)
    requires capacity >= 3 && Plain(s, Sell, s.price) && Plain(t, Sell, s.price) && Plain(buy, Buy, s.price)
    requires buy.quantity == s.quantity + t.quantity && buy.id != s.id && buy.id != t.id
    ensures var (b, outcome) := Submit(fees, Book(capacity, [], [Fresh(s), Fresh(t)], {s.id, t.id}, 0, 2, 2), buy);
      b.bookSequence == 4 && outcome.statuses != []
  {
    var b := Book(capacity, [], [Fresh(s), Fresh(t)], {s.id, t.id}, 0, 2, 2);
    var m0 := Start(b, buy);
    var m1 := FillOne(fees, m0);
    assert m1.makers == [Fresh(t)] && m1.taker.remaining == t.quantity && m1.bookSequence == 3;
    var m2 := FillOne(fees, m1);
    assert m2.makers == [] && m2.taker.remaining == 0 && m2.bookSequence == 4;
    assert FillAll(fees, m0) == FillAll(fees, m1) == FillAll(fees, m2) == m2;
  }

  /** The entry is this order. */
  predicate IsOrder(k: Symbol, entry: Entry, cmd: OrderCommand) {
    entry.kind == ORDER && k.protocol.decodeOrder(entry.payload) == Some(DecodedOrder(k.pair, cmd))
  }

  lemma OrderMoves(k: Symbol, b: Book, entry: Entry, cmd: OrderCommand)
    requires IsOrder(k, entry, cmd) && Submit(k.fees, b, cmd).1.statuses != []
    ensures EffectOf(k, b, entry).Some? && EffectOf(k, b, entry).value.book == Submit(k.fees, b, cmd).0
  {
    hide Submit, Events;
  }

  /** Two sells rest and one buy fills both: the last snapshot is number 4 after number 2, and the store asks for 3. */
  lemma TwoFillsRefused(k: Symbol, capacity: nat, db: TradeStream.Database, s: OrderCommand, t: OrderCommand,
                        buy: OrderCommand,
                        entries: seq<Entry>)
    requires capacity >= 3 && Plain(s, Sell, s.price) && Plain(t, Sell, s.price) && Plain(buy, Buy, s.price)
    requires buy.quantity == s.quantity + t.quantity && s.id != t.id && buy.id != s.id && buy.id != t.id
    requires |entries| == 3 && IsOrder(k, entries[0], s) && IsOrder(k, entries[1], t) && IsOrder(k, entries[2], buy)
    requires Key(k.pair) !in db.streams
    ensures Executable(k, Empty(capacity), entries)
    ensures var numbers := Numbers(Shots(k, Empty(capacity), entries));
      numbers == [1, 2, 4] && ClaimOf(db, k.pair, numbers, 2) == TradeStream.Gap(3, 4)
  {
    hide EffectOf, Submit, Grouped, IsOrder;
    var b0 := Empty(capacity);
    RestFirst(k.fees, capacity, s);
    OrderMoves(k, b0, entries[0], s);
    var b1 := Submit(k.fees, b0, s).0;
    RestSecond(k.fees, capacity, s, t);
    OrderMoves(k, b1, entries[1], t);
    var b2 := Submit(k.fees, b1, t).0;
    FillBoth(k.fees, capacity, s, t, buy);
    OrderMoves(k, b2, entries[2], buy);
    var b3 := Submit(k.fees, b2, buy).0;
    var rest1, rest2, rest3 := entries[1..], entries[1..][1..], entries[1..][1..][1..];
    assert rest1[0] == entries[1] && rest2[0] == entries[2] && rest3 == [];
    assert Executable(k, b3, rest3) && Executable(k, b2, rest2) && Executable(k, b1, rest1);
    assert Shots(k, b3, rest3) == [];
    var numbers := Numbers(Shots(k, b0, entries));
    assert |Shots(k, b2, rest2)| == 1 && |Shots(k, b1, rest1)| == 2;
    assert numbers == [1, 2, 4];
    GapAtFour(db, k.pair);
  }

  lemma GapAtFour(db: TradeStream.Database, pair: string)
    requires Key(pair) !in db.streams
    ensures ClaimOf(db, pair, [1, 2, 4], 2) == TradeStream.Gap(3, 4)
  {
    assert [1, 2, 4][..2] == [1, 2] && [1, 2][..1] == [1] && [1][..0] == [];
    assert Fed(db, pair, [1]) == TradeStream.ClaimBook(db, pair, 1).0;
    assert Fed(db, pair, [1, 2]) == TradeStream.ClaimBook(Fed(db, pair, [1]), pair, 2).0;
  }
}
