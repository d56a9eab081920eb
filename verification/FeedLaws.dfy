/** From the engine's trades to the consumer's store, whatever is lost, repeated or restarted on the way. */
module FeedLaws {
  import opened Arithmetic
  import opened Octets
  import opened Options
  import opened BookTypes
  import opened BookSpec
  import BookInvariant
  import opened EngineSpec
  import opened CrashSafety
  import opened TradeFeed
  import opened Consumers
  import TradeStream
  import opened BookStream
  import StreamLaws

  // Reading the trades of a run.

  function Payload(k: Symbol, t: Trade): Bytes {
    k.protocol.encodeTrade(k.pair, t)
  }

  /** The engine and the consumer read back what the engine wrote. */
  predicate Faithful(k: Symbol, r: Reader, trades: seq<Trade>) {
    && ReadsBack(k, trades)
    && forall i | 0 <= i < |trades| :: r.decodeTrade(Payload(k, trades[i])) == Some(TradeEvent(k.pair, trades[i]))
  }

  /** How many of the first trades the store can take. */
  function Readable(r: Reader, pair: string, trades: seq<Trade>): (n: nat)
    ensures n <= |trades|
    ensures forall i | 0 <= i < n :: Storable(r, pair, trades[i])
    ensures n < |trades| ==> !Storable(r, pair, trades[n])
  {
    if trades == [] then 0
    else
      var last := |trades| - 1;
      var n := Readable(r, pair, trades[..last]);
      if n == last && Storable(r, pair, trades[last]) then |trades| else n
  }

  lemma ReadableUnique(r: Reader, pair: string, trades: seq<Trade>, n: nat)
    requires n < |trades| && !Storable(r, pair, trades[n])
    ensures Readable(r, pair, trades) <= n
  {
  }

  /** What the store should hold of the first n trades. */
  function Readings(k: Symbol, r: Reader, trades: seq<Trade>, n: nat): (all: seq<TradeStream.Trade>)
    requires n <= |trades| && forall i | 0 <= i < n :: Read(r, Payload(k, trades[i])).Some?
    ensures |all| == n && forall i | 0 <= i < n :: all[i] == Read(r, Payload(k, trades[i])).value
  {
    seq(n, i requires 0 <= i < n => Read(r, Payload(k, trades[i])).value)
  }

  lemma ReadableReads(k: Symbol, r: Reader, trades: seq<Trade>, i: nat)
    requires Faithful(k, r, trades) && i < Readable(r, k.pair, trades)
    ensures Read(r, Payload(k, trades[i])).Some?
  {
    hide Read, Storable, ReadsBack;
    ReadExactly(r, Payload(k, trades[i]), k.pair, trades[i]);
  }

  /** The trades the store can end with: all up to the first one it cannot take. */
  function Kept(k: Symbol, r: Reader, trades: seq<Trade>): (all: seq<TradeStream.Trade>)
    requires Faithful(k, r, trades)
    ensures |all| == Readable(r, k.pair, trades)
  {
    assert forall i | 0 <= i < Readable(r, k.pair, trades) :: Read(r, Payload(k, trades[i])).Some? by {
      forall i | 0 <= i < Readable(r, k.pair, trades) ensures Read(r, Payload(k, trades[i])).Some? {
        ReadableReads(k, r, trades, i);
      }
    }
    Readings(k, r, trades, Readable(r, k.pair, trades))
  }

  lemma KeptAt(k: Symbol, r: Reader, trades: seq<Trade>, i: nat)
    requires Faithful(k, r, trades) && i < Readable(r, k.pair, trades)
    ensures Read(r, Payload(k, trades[i])) == Some(Kept(k, r, trades)[i])
  {
    hide Read, Storable, ReadsBack;
    ReadableReads(k, r, trades, i);
  }

  lemma KeptNumbered(k: Symbol, r: Reader, trades: seq<Trade>)
    requires Faithful(k, r, trades) && CountFrom(trades, 0)
    ensures StreamLaws.Numbered(Kept(k, r, trades), k.pair)
  {
    hide Read, Storable, ReadsBack, TradeStream.ValidTrade, Readings;
    forall i | 0 <= i < Readable(r, k.pair, trades)
      ensures var t := Kept(k, r, trades)[i]; TradeStream.ValidTrade(t) && t.pair == k.pair && t.sequence == i + 1
    {
      KeptAt(k, r, trades, i);
      ReadExactly(r, Payload(k, trades[i]), k.pair, trades[i]);
    }
  }

  // What a session delivers.

  function DeliveryOf(r: Reader, e: Entry): StreamLaws.Delivery {
    if e.kind == BOOK then
      match r.decodeBook(e.payload)
      case None => StreamLaws.Lost
      case Some((pair, n)) => StreamLaws.Book(pair, n)
    else if e.kind == TRADE then
      match Read(r, e.payload)
      case None => StreamLaws.Lost
      case Some(t) => StreamLaws.Trading(t)
    else StreamLaws.Lost
  }

  lemma ProcessedDelivers(r: Reader, db: TradeStream.Database, e: Entry)
    ensures Processed(r, db, e).0 == StreamLaws.Deliver(db, DeliveryOf(r, e))
  {
    hide Read, TradeStream.Apply;
  }

  /** The event is of no trade of this pair. */
  predicate Elsewhere(r: Reader, pair: string, e: Entry) {
    e.kind != TRADE || Read(r, e.payload).None? || Read(r, e.payload).value.pair != pair
  }

  /** The events come from this engine, in any order and number, or from elsewhere. */
  predicate Heard(k: Symbol, r: Reader, s: System, events: seq<Entry>) {
    forall i | 0 <= i < |events| :: events[i] in Told(s.published) || Elsewhere(r, k.pair, events[i])
  }

  predicate AllHeard(k: Symbol, r: Reader, s: System, sessions: seq<seq<Entry>>) {
    forall i | 0 <= i < |sessions| :: Heard(k, r, s, sessions[i])
  }

  predicate Fits(r: Reader, e: Entry, all: seq<TradeStream.Trade>, pair: string) {
    StreamLaws.Genuine([DeliveryOf(r, e)], all, pair)
  }

  /** A trade record of the run is one the store keeps, one it cannot take, or one behind that. */
  lemma RecordFits(k: Symbol, r: Reader, trades: seq<Trade>, j: nat)
    requires Faithful(k, r, trades) && CountFrom(trades, 0) && j < |trades|
    ensures Fits(r, Entry(TRADE, Payload(k, trades[j])), Kept(k, r, trades), k.pair)
  {
    hide Read, Storable, ReadsBack, TradeStream.ValidTrade, Readings;
    ReadExactly(r, Payload(k, trades[j]), k.pair, trades[j]);
    if j < Readable(r, k.pair, trades) {
      KeptAt(k, r, trades, j);
    }
  }

  lemma ElsewhereFits(r: Reader, e: Entry, all: seq<TradeStream.Trade>, pair: string)
    requires Elsewhere(r, pair, e)
    ensures Fits(r, e, all, pair)
  {
    hide Read;
  }

  lemma HeardFits(k: Symbol, capacity: nat, s: System, r: Reader, events: seq<Entry>, i: nat)
    requires Inv(k, capacity, s) && Heard(k, r, s, events) && i < |events|
    requires Faithful(k, r, TradesIn(k, Empty(capacity), s.history))
    ensures Fits(r, events[i], Kept(k, r, TradesIn(k, Empty(capacity), s.history)), k.pair)
  {
    hide UpOk, PublishedOk, AnswersOk, TradesIn, Faithful, Kept, Elsewhere, Fits;
    var trades := TradesIn(k, Empty(capacity), s.history);
    var e := events[i];
    if Elsewhere(r, k.pair, e) {
      ElsewhereFits(r, e, Kept(k, r, trades), k.pair);
    } else {
      NotElsewhere(r, k.pair, e);
      var p :| 0 <= p < |s.published| && Told(s.published)[p] == e;
      PublishedTrade(k, capacity, s, p);
      var j :| 0 <= j < |trades| && TradeEntries(k, trades)[j] == e;
      JournalTrades(k, Empty(capacity), s.history);
      RecordFits(k, r, trades, j);
    }
  }

  lemma NotElsewhere(r: Reader, pair: string, e: Entry)
    requires !Elsewhere(r, pair, e)
    ensures e.kind == TRADE
  {
  }

  predicate AllFit(r: Reader, events: seq<Entry>, all: seq<TradeStream.Trade>, pair: string) {
    forall i | 0 <= i < |events| :: Fits(r, events[i], all, pair)
  }

  lemma {:induction false} SessionExact(r: Reader, db: TradeStream.Database, events: seq<Entry>,
                                        all: seq<TradeStream.Trade>,
                                        pair: string)
    requires StreamLaws.Numbered(all, pair) && StreamLaws.Exact(db, all, pair) && AllFit(r, events, all, pair)
    ensures StreamLaws.Exact(Session(r, db, events).db, all, pair)
  {
    hide StreamLaws.Exact, StreamLaws.Numbered, Processed, DeliveryOf, StreamLaws.Genuine, StreamLaws.Deliver;
    if events != [] {
      var init, e := events[..|events| - 1], events[|events| - 1];
      SessionExact(r, db, init, all, pair);
      var before := Session(r, db, init);
      if !before.failed {
        ProcessedDelivers(r, before.db, e);
        assert Fits(r, e, all, pair);
        StreamLaws.DeliverExact(before.db, DeliveryOf(r, e), all, pair);
      }
    }
  }

  /** The store after these sessions, each ended by a failure, a crash or a shutdown. */
  function After(r: Reader, sessions: seq<seq<Entry>>): TradeStream.Database {
    if sessions == [] then TradeStream.EMPTY
    else Session(r, After(r, sessions[..|sessions| - 1]), sessions[|sessions| - 1]).db
  }

  lemma {:induction false} AfterExact(r: Reader, sessions: seq<seq<Entry>>, all: seq<TradeStream.Trade>, pair: string)
    requires StreamLaws.Numbered(all, pair) && forall i | 0 <= i < |sessions| :: AllFit(r, sessions[i], all, pair)
    ensures StreamLaws.Exact(After(r, sessions), all, pair)
  {
    hide StreamLaws.Exact, StreamLaws.Numbered, Session, AllFit;
    if sessions == [] {
      StreamLaws.EmptyExact(all, pair);
    } else {
      AfterExact(r, sessions[..|sessions| - 1], all, pair);
      SessionExact(r, After(r, sessions[..|sessions| - 1]), sessions[|sessions| - 1], all, pair);
    }
  }

  /**
   Over any run of the engine with crashes and restarts, and over any sessions
   of the consumer that lose, repeat and reorder what was published, the store
   holds exactly a first part of the engine's trades. It never gets past the
   first trade it cannot take.
   */
  lemma FeedExact(k: Symbol, capacity: nat, s: System, r: Reader, sessions: seq<seq<Entry>>)
    requires Inv(k, capacity, s) && Faithful(k, r, TradesIn(k, Empty(capacity), s.history))
    requires AllHeard(k, r, s, sessions)
    ensures var trades := TradesIn(k, Empty(capacity), s.history);
      && StreamLaws.Numbered(Kept(k, r, trades), k.pair)
      && StreamLaws.Exact(After(r, sessions), Kept(k, r, trades), k.pair)
      && StreamLaws.Last(After(r, sessions), k.pair) <= Readable(r, k.pair, trades)
  {
    hide UpOk, PublishedOk, AnswersOk, TradesIn, Faithful, Kept, Heard, Fits, After, StreamLaws.Numbered;
    var trades := TradesIn(k, Empty(capacity), s.history);
    JournalTrades(k, Empty(capacity), s.history);
    KeptNumbered(k, r, trades);
    var all := Kept(k, r, trades);
    forall i | 0 <= i < |sessions| ensures AllFit(r, sessions[i], all, k.pair) {
      forall j | 0 <= j < |sessions[i]| ensures Fits(r, sessions[i][j], all, k.pair) {
        HeardFits(k, capacity, s, r, sessions[i], j);
      }
    }
    AfterExact(r, sessions, all, k.pair);
  }

  // Replay.

  /** The first trade the store cannot take ends the session and changes nothing. */
  lemma UnreadableFails(k: Symbol, r: Reader, db: TradeStream.Database, t: Trade)
    requires r.decodeTrade(Payload(k, t)) == Some(TradeEvent(k.pair, t)) && !Storable(r, k.pair, t)
    ensures Processed(r, db, Entry(TRADE, Payload(k, t))) == (db, Failed)
  {
    hide Read, Storable, TradeStream.ValidTrade;
    ReadExactly(r, Payload(k, t), k.pair, t);
  }

  lemma NextApplied(k: Symbol, r: Reader, db: TradeStream.Database, trades: seq<Trade>)
    requires Faithful(k, r, trades) && StreamLaws.Numbered(Kept(k, r, trades), k.pair)
    requires StreamLaws.Exact(db, Kept(k, r, trades), k.pair)
      && StreamLaws.Last(db, k.pair) < Readable(r, k.pair, trades)
    ensures var n := StreamLaws.Last(db, k.pair);
      var (next, handling) := Processed(r, db, Entry(TRADE, Payload(k, trades[n])));
      && handling == Handled && StreamLaws.Exact(next, Kept(k, r, trades), k.pair)
      && StreamLaws.Last(next, k.pair) == n + 1
  {
    hide Read, Faithful, Kept, StreamLaws.Exact, StreamLaws.Numbered, StreamLaws.Last, TradeStream.Apply,
      TradeStream.Upserted;
    var all, n := Kept(k, r, trades), StreamLaws.Last(db, k.pair);
    KeptAt(k, r, trades, n);
    StreamLaws.AcceptExact(db, all, k.pair);
  }

  /** After j trades of the replay: the trades are stored up to the first one that fails. */
  lemma {:induction false} ReplayReaches(k: Symbol, r: Reader, db: TradeStream.Database, trades: seq<Trade>, j: nat)
    requires Faithful(k, r, trades) && StreamLaws.Numbered(Kept(k, r, trades), k.pair)
    requires StreamLaws.Exact(db, Kept(k, r, trades), k.pair)
    requires StreamLaws.Last(db, k.pair) <= Readable(r, k.pair, trades)
    requires StreamLaws.Last(db, k.pair) + j <= |trades|
    ensures var n, readable := StreamLaws.Last(db, k.pair), Readable(r, k.pair, trades);
      var ended := Session(r, db, TradeEntries(k, trades[n..])[..j]);
      && StreamLaws.Exact(ended.db, Kept(k, r, trades), k.pair)
      && StreamLaws.Last(ended.db, k.pair) == Min(n + j, readable)
      && (ended.failed <==> n + j > readable)
    decreases j
  {
    hide Kept, StreamLaws.Exact, StreamLaws.Numbered, StreamLaws.Last, Processed, ReadsBack, Readable, Storable;
    if j > 0 {
      ReplayReaches(k, r, db, trades, j - 1);
      var n, readable := StreamLaws.Last(db, k.pair), Readable(r, k.pair, trades);
      var events := TradeEntries(k, trades[n..]);
      assert events[..j][..j - 1] == events[..j - 1];
      var before := Session(r, db, events[..j - 1]);
      assert events[..j][j - 1] == Entry(TRADE, Payload(k, trades[n + j - 1]));
      if n + j <= readable {
        NextApplied(k, r, before.db, trades);
      } else if n + j == readable + 1 {
        UnreadableFails(k, r, before.db, trades[readable]);
      }
    }
  }

  /**
   A replay from the store's next number brings it to the last trade exactly
   when it can take every trade of the run. Otherwise the session fails, and the
   store stands just before the first trade it cannot take.
   */
  lemma FeedConverges(k: Symbol, capacity: nat, actions: seq<Action>, r: Reader, sessions: seq<seq<Entry>>)
    requires var s := Run(k, capacity, actions);
      && s.process.Some? && Executable(k, Empty(capacity), s.history)
      && Faithful(k, r, TradesIn(k, Empty(capacity), s.history)) && AllHeard(k, r, s, sessions)
    ensures var s := Run(k, capacity, actions);
      var trades, db := TradesIn(k, Empty(capacity), s.history), After(r, sessions);
      var replay := Told(ReplayFrom(k, s.process.value.engine.journal, StreamLaws.Last(db, k.pair) + 1, 0));
      var ended := Session(r, db, replay);
      && StreamLaws.Exact(ended.db, Kept(k, r, trades), k.pair)
      && StreamLaws.Last(ended.db, k.pair) == Readable(r, k.pair, trades)
      && (ended.failed <==> exists i :: 0 <= i < |trades| && !Storable(r, k.pair, trades[i]))
      && (StreamLaws.Last(ended.db, k.pair) == |trades| <==>
            forall i | 0 <= i < |trades| :: Storable(r, k.pair, trades[i]))
  {
    hide Inv, TradesIn, Faithful, Kept, After, AllHeard, Session, CrashSafety.Run, Executable, ReplayFrom;
    hide StreamLaws.Exact, StreamLaws.Numbered, StreamLaws.Last, Storable;
    var s := Run(k, capacity, actions);
    RunOk(k, capacity, actions);
    var trades, db := TradesIn(k, Empty(capacity), s.history), After(r, sessions);
    FeedExact(k, capacity, s, r, sessions);
    var n := StreamLaws.Last(db, k.pair);
    FaithfulReads(k, r, trades);
    ReplayIsSuffix(k, capacity, s, n + 1);
    var events := TradeEntries(k, trades[n..]);
    assert events[..|events|] == events;
    ReplayReaches(k, r, db, trades, |trades| - n);
  }

  lemma FaithfulReads(k: Symbol, r: Reader, trades: seq<Trade>)
    requires Faithful(k, r, trades)
    ensures ReadsBack(k, trades)
  {
  }

  // Which trades a run makes.

  predicate Proper(t: Trade) {
    t.price > 0 && t.quantity > 0 && t.makerId != "" && t.takerId != "" && t.makerUser != "" && t.takerUser != ""
  }

  predicate AllProper(trades: seq<Trade>) {
    forall i | 0 <= i < |trades| :: Proper(trades[i])
  }

  predicate Sound(orders: seq<Order>) {
    forall i | 0 <= i < |orders| :: orders[i].remaining > 0 && orders[i].command.kind.Limit? && Valid(orders[i].command)
  }

  predicate SoundBook(b: Book) {
    Sound(b.bids) && Sound(b.asks)
  }

  lemma {:induction false} FillAllProper(fees: FeeResolver, m: Matching)
    requires Sound(m.makers) && Valid(m.taker.command) && AllProper(m.trades)
    ensures var done := FillAll(fees, m);
      Sound(done.makers) && AllProper(done.trades) && done.taker.command == m.taker.command
    decreases |m.makers|, m.taker.remaining
  {
    if m.CanFill() {
      FillAllProper(fees, FillOne(fees, m));
    }
  }

  lemma InsertSound(orders: seq<Order>, o: Order)
    requires Sound(orders) && Sound([o])
    ensures Sound(Insert(orders, o))
  {
    BookInvariant.InsertAtPlace(orders, o);
    assert [o][0] == o;
  }

  lemma SubmitProper(fees: FeeResolver, b: Book, cmd: OrderCommand)
    requires SoundBook(b)
    ensures SoundBook(Submit(fees, b, cmd).0) && AllProper(Submit(fees, b, cmd).1.trades)
  {
    hide FillAll, Insert, LevelTotal, Eligible, Total;
    if !Duplicate(b, cmd) && !Refused(b, cmd) {
      FillAllProper(fees, Start(b, cmd));
      var m := FillAll(fees, Start(b, cmd));
      var own := b.Own(cmd.side);
      if m.taker.remaining > 0 && cmd.tif.GTC? {
        InsertSound(own, m.taker.(status := Open));
        InsertSound(own, m.taker.(status := Partial));
      }
    }
  }

  lemma RemoveSound(orders: seq<Order>, i: nat)
    requires Sound(orders) && i < |orders|
    ensures Sound(Remove(orders, i))
  {
    hide Valid;
  }

  lemma CancelSound(b: Book, id: string)
    requires SoundBook(b)
    ensures SoundBook(Cancel(b, id).0)
  {
    hide Find, Remove, Sound;
    if Find(b.bids, id) >= 0 {
      RemoveSound(b.bids, Find(b.bids, id));
    } else if Find(b.asks, id) >= 0 {
      RemoveSound(b.asks, Find(b.asks, id));
    }
  }

  lemma EffectProper(k: Symbol, b: Book, entry: Entry)
    requires SoundBook(b) && EffectOf(k, b, entry).Some?
    ensures SoundBook(EffectOf(k, b, entry).value.book) && AllProper(CommandTrades(k, b, entry))
  {
    hide Submit, Cancel, Events, AckOf, SoundBook, Proper;
    if entry.kind == ORDER {
      SubmitProper(k.fees, b, k.protocol.decodeOrder(entry.payload).value.command);
    } else {
      CancelSound(b, k.protocol.decodeControl(entry.payload).value.orderId);
    }
  }

  /** Every trade of a run has a positive price and quantity and names its orders and users. */
  lemma {:induction false} TradesProper(k: Symbol, b: Book, commands: seq<Entry>)
    requires SoundBook(b) && Executable(k, b, commands)
    ensures AllProper(TradesIn(k, b, commands))
    decreases |commands|
  {
    hide EffectOf, CommandTrades, SoundBook, Proper;
    if commands != [] {
      EffectProper(k, b, commands[0]);
      TradesProper(k, EffectOf(k, b, commands[0]).value.book, commands[1..]);
    }
  }

  /** The pair and the trade's names and time are of a kind the consumer reads. */
  predicate Ordinary(r: Reader, pair: string, t: Trade) {
    && TradeStream.ValidPair(pair) && |pair| <= MAX_PAIR
    && |t.makerId| <= MAX_IDENTIFIER && |t.takerId| <= MAX_IDENTIFIER
    && |t.makerUser| <= MAX_IDENTIFIER && |t.takerUser| <= MAX_IDENTIFIER
    && t.timestamp <= MAX_INT64 && r.takerSide(t.takerId).Some?
  }

  /** The trade's quote rounds to zero. */
  predicate Dust(t: Trade) {
    t.price * t.quantity < 1_0000_0000
  }

  lemma DustOnly(r: Reader, pair: string, t: Trade)
    requires Proper(t) && t.sequence > 0 && Ordinary(r, pair, t)
    ensures Storable(r, pair, t) <==> !Dust(t)
  {
  }

  /**
   With ordinary names and times, a replay brings the store to the last trade
   exactly when no trade of the run has a quote that rounds to zero.
   */
  lemma FeedExactly(k: Symbol, capacity: nat, actions: seq<Action>, r: Reader, sessions: seq<seq<Entry>>)
    requires var s := Run(k, capacity, actions);
      && s.process.Some? && Executable(k, Empty(capacity), s.history)
      && Faithful(k, r, TradesIn(k, Empty(capacity), s.history)) && AllHeard(k, r, s, sessions)
      && forall i | 0 <= i < |TradesIn(k, Empty(capacity), s.history)| ::
           Ordinary(r, k.pair, TradesIn(k, Empty(capacity), s.history)[i])
    ensures var s := Run(k, capacity, actions);
      var trades, db := TradesIn(k, Empty(capacity), s.history), After(r, sessions);
      var replay := Told(ReplayFrom(k, s.process.value.engine.journal, StreamLaws.Last(db, k.pair) + 1, 0));
      && (StreamLaws.Last(Session(r, db, replay).db, k.pair) == |trades| <==>
            forall i | 0 <= i < |trades| :: !Dust(trades[i]))
      && (Session(r, db, replay).failed <==> exists i :: 0 <= i < |trades| && Dust(trades[i]))
  {
    hide TradesIn, Faithful, Kept, After, AllHeard, Session, CrashSafety.Run, Executable, ReplayFrom;
    hide StreamLaws.Exact, StreamLaws.Last, Storable, Dust, Ordinary, Proper;
    var s := Run(k, capacity, actions);
    var trades := TradesIn(k, Empty(capacity), s.history);
    FeedConverges(k, capacity, actions, r, sessions);
    JournalTrades(k, Empty(capacity), s.history);
    TradesProper(k, Empty(capacity), s.history);
    forall i | 0 <= i < |trades| ensures Storable(r, k.pair, trades[i]) <==> !Dust(trades[i]) {
      DustOnly(r, k.pair, trades[i]);
    }
  }

  // The stall.

  lemma {:induction false} TradesGrow(k: Symbol, b: Book, commands: seq<Entry>, n: nat)
    requires Executable(k, b, commands) && n <= |commands|
    ensures Executable(k, b, commands[..n]) && TradesIn(k, b, commands[..n]) <= TradesIn(k, b, commands)
    decreases |commands|
  {
    hide EffectOf, CommandTrades;
    if n > 0 {
      var b' := EffectOf(k, b, commands[0]).value.book;
      TradesGrow(k, b', commands[1..], n - 1);
      assert commands[..n][1..] == commands[1..][..n - 1];
    }
  }

  /**
   Once the engine has made a trade the store cannot take, the store never gets
   past the trade before it, whatever the engine and the consumer do from then on.
   */
  lemma FeedStalls(k: Symbol, capacity: nat, actions: seq<Action>, n: nat, r: Reader, sessions: seq<seq<Entry>>, m: nat)
    requires n <= |actions| && Executable(k, Empty(capacity), Run(k, capacity, actions[..n]).history)
    requires var trades := TradesIn(k, Empty(capacity), Run(k, capacity, actions[..n]).history);
      m < |trades| && !Storable(r, k.pair, trades[m])
    requires var s := Run(k, capacity, actions);
      && Executable(k, Empty(capacity), s.history)
      && Faithful(k, r, TradesIn(k, Empty(capacity), s.history)) && AllHeard(k, r, s, sessions)
    ensures StreamLaws.Last(After(r, sessions), k.pair) <= m
  {
    hide Inv, TradesIn, Faithful, Kept, After, AllHeard, CrashSafety.Run, Executable;
    hide StreamLaws.Exact, StreamLaws.Numbered, StreamLaws.Last, Storable;
    var early, s := Run(k, capacity, actions[..n]), Run(k, capacity, actions);
    RunOk(k, capacity, actions);
    RunGrows(k, capacity, actions, n);
    assert s.history[..|early.history|] == early.history;
    TradesGrow(k, Empty(capacity), s.history, |early.history|);
    FeedExact(k, capacity, s, r, sessions);
    ReadableUnique(r, k.pair, TradesIn(k, Empty(capacity), s.history), m);
  }

  // Two orders that stall the stream.

  lemma FillsAtOnce(fees: FeeResolver, capacity: nat, sell: OrderCommand, buy: OrderCommand)
    requires capacity >= 2 && Plain(sell, Sell, sell.price) && Plain(buy, Buy, sell.price)
    requires buy.quantity == sell.quantity && buy.id != sell.id
    ensures var (b, outcome) := Submit(fees, Book(capacity, [], [Fresh(sell)], {sell.id}, 0, 1, 1), buy);
      outcome.trades == [MakeTrade(fees, 1, sell, buy, sell.quantity)] && outcome.statuses != []
  {
    var b := Book(capacity, [], [Fresh(sell)], {sell.id}, 0, 1, 1);
    var m0 := Start(b, buy);
    var m1 := FillOne(fees, m0);
    assert m1.makers == [] && m1.taker.remaining == 0;
    assert FillAll(fees, m0) == FillAll(fees, m1) == m1;
  }

  predicate Matched(k: Symbol, capacity: nat, sell: OrderCommand, buy: OrderCommand, orders: seq<Entry>) {
    && capacity >= 2 && Plain(sell, Sell, sell.price) && Plain(buy, Buy, sell.price)
    && buy.quantity == sell.quantity && buy.id != sell.id
    && |orders| == 2 && IsOrder(k, orders[0], sell) && IsOrder(k, orders[1], buy)
  }

  lemma MatchedTrades(k: Symbol, capacity: nat, sell: OrderCommand, buy: OrderCommand, orders: seq<Entry>)
    requires Matched(k, capacity, sell, buy, orders)
    ensures Executable(k, Empty(capacity), orders)
    ensures TradesIn(k, Empty(capacity), orders) == [MakeTrade(k.fees, 1, sell, buy, sell.quantity)]
  {
    hide EffectOf, Submit;
    var b0 := Empty(capacity);
    RestFirst(k.fees, capacity, sell);
    OrderMoves(k, b0, orders[0], sell);
    var b1 := Submit(k.fees, b0, sell).0;
    FillsAtOnce(k.fees, capacity, sell, buy);
    OrderMoves(k, b1, orders[1], buy);
    RestMakesNoTrade(k.fees, capacity, sell);
    assert orders[1..][0] == orders[1] && orders[1..][1..] == [];
    assert Executable(k, b1, orders[1..]);
    assert TradesIn(k, b1, orders[1..]) == [MakeTrade(k.fees, 1, sell, buy, sell.quantity)];
  }

  lemma RestMakesNoTrade(fees: FeeResolver, capacity: nat, sell: OrderCommand)
    requires capacity >= 1 && Plain(sell, Sell, sell.price)
    ensures Submit(fees, Empty(capacity), sell).1.trades == []
  {
    assert FillAll(fees, Start(Empty(capacity), sell)) == Start(Empty(capacity), sell);
  }

  function Placing(orders: seq<Entry>): seq<Action>
    requires |orders| == 2
  {
    [Request(orders[0]), Request(orders[1])]
  }

  /** A new order is executed and remembered. */
  lemma OrderServed(k: Symbol, capacity: nat, s: System, entry: Entry, cmd: OrderCommand)
    requires s.process.Some? && IsOrder(k, entry, cmd) && cmd.id !in s.process.value.engine.replies.orders
    requires Submit(k.fees, s.process.value.engine.book, cmd).1.statuses != []
    ensures var t := Next(k, capacity, s, Request(entry));
      && t.history == s.history + [entry] && t.process.Some?
      && t.process.value.engine.book == Submit(k.fees, s.process.value.engine.book, cmd).0
      && t.process.value.engine.replies.orders.Keys == s.process.value.engine.replies.orders.Keys + {cmd.id}
  {
    hide Submit, Events;
  }

  lemma MatchedRun(k: Symbol, capacity: nat, sell: OrderCommand, buy: OrderCommand, orders: seq<Entry>)
    requires Matched(k, capacity, sell, buy, orders)
    ensures var s := Run(k, capacity, Placing(orders)); s.history == orders && s.process.Some?
  {
    hide Submit, Plain, Next;
    RestFirst(k.fees, capacity, sell);
    OrderServed(k, capacity, Boot(capacity), orders[0], sell);
    var s1 := Next(k, capacity, Boot(capacity), Request(orders[0]));
    FillsAtOnce(k.fees, capacity, sell, buy);
    OrderServed(k, capacity, s1, orders[1], buy);
    assert [Request(orders[0])][..0] == [] && Placing(orders)[..1] == [Request(orders[0])];
    assert Run(k, capacity, [Request(orders[0])]) == s1;
    assert [orders[0]] + [orders[1]] == orders;
  }

  /**
   A sell and a buy of the same small amount: from their trade on the store stays empty,
   whatever the engine does afterwards and whatever the consumer hears of it.
   */
  lemma DustStalls(k: Symbol, capacity: nat, sell: OrderCommand, buy: OrderCommand, orders: seq<Entry>,
                   more: seq<Action>,
                   r: Reader, sessions: seq<seq<Entry>>)
    requires Matched(k, capacity, sell, buy, orders) && sell.price * sell.quantity < UNIT
    requires var s := Run(k, capacity, Placing(orders) + more);
      && Executable(k, Empty(capacity), s.history)
      && Faithful(k, r, TradesIn(k, Empty(capacity), s.history)) && AllHeard(k, r, s, sessions)
    ensures |TradesIn(k, Empty(capacity), Run(k, capacity, Placing(orders) + more).history)| >= 1
    ensures StreamLaws.Last(After(r, sessions), k.pair) == 0
  {
    hide TradesIn, Faithful, After, AllHeard, CrashSafety.Run, Executable, StreamLaws.Last, IsOrder, Plain;
    var actions := Placing(orders) + more;
    assert actions[..2] == Placing(orders);
    MatchedRun(k, capacity, sell, buy, orders);
    MatchedTrades(k, capacity, sell, buy, orders);
    var t := MakeTrade(k.fees, 1, sell, buy, sell.quantity);
    assert !Storable(r, k.pair, t);
    FeedStalls(k, capacity, actions, 2, r, sessions, 0);
    RunGrows(k, capacity, actions, 2);
    var s := Run(k, capacity, actions);
    assert s.history[..2] == orders;
    TradesGrow(k, Empty(capacity), s.history, 2);
  }

  /** Such orders exist: one unit sold and bought at price 1 makes a trade that is published and never stored. */
  lemma StallExists() returns (k: Symbol, r: Reader, actions: seq<Action>)
    ensures var s := Run(k, 2, actions);
      && s.process.Some? && Executable(k, Empty(2), s.history) && |TradesIn(k, Empty(2), s.history)| == 1
      && Faithful(k, r, TradesIn(k, Empty(2), s.history))
      && Ordinary(r, k.pair, TradesIn(k, Empty(2), s.history)[0]) && Dust(TradesIn(k, Empty(2), s.history)[0])
  {
    var sell := OrderCommand("s", "u", Sell, Limit, GTC, 1, 1, 0, 0, false);
    var buy := OrderCommand("b", "v", Buy, Limit, GTC, 1, 1, 0, 0, false);
    var t := MakeTrade(DefaultFees, 1, sell, buy, 1);
    var decode := (payload: Bytes) =>
      if payload == [1] then Some(DecodedOrder("P", sell)) else if payload == [2] then Some(DecodedOrder("P", buy))
        else None;
    k := Symbol("P", Protocol(decode, _ => None, (_, _) => [0], _ => [0], (_, _, _) => [0], (_, _, _, _, _) => [0],
                              _ => Some(1)), DefaultFees);
    r := Reader(_ => Some(TradeEvent("P", t)), _ => None, _ => Some(Buy), payload => payload);
    var orders := [Entry(ORDER, [1]), Entry(ORDER, [2])];
    actions := Placing(orders);
    MatchedRun(k, 2, sell, buy, orders);
    MatchedTrades(k, 2, sell, buy, orders);
    SimplePair();
  }

  lemma SimplePair()
    ensures TradeStream.ValidPair("P")
  {
  }

  // Asking for a replay.

  /** A trade that comes too early makes the consumer ask for a replay from the store's next number. */
  lemma GapAsks(k: Symbol, r: Reader, db: TradeStream.Database, trades: seq<Trade>, j: nat)
    requires Faithful(k, r, trades) && CountFrom(trades, 0) && StreamLaws.Exact(db, Kept(k, r, trades), k.pair)
    requires j < |trades| && Storable(r, k.pair, trades[j]) && j > StreamLaws.Last(db, k.pair)
    ensures var (next, handling) := Processed(r, db, Entry(TRADE, Payload(k, trades[j])));
      && handling == Gapped(k.pair, StreamLaws.Last(db, k.pair) + 1)
      && StreamLaws.Last(next, k.pair) == StreamLaws.Last(db, k.pair) && StreamLaws.AwaitsReplay(next, k.pair)
  {
    hide Read, Storable, ReadsBack, TradeStream.ValidTrade, Readings, StreamLaws.Exact, StreamLaws.Numbered;
    hide TradeStream.Apply, Kept, StreamLaws.Last, StreamLaws.AwaitsReplay;
    ReadExactly(r, Payload(k, trades[j]), k.pair, trades[j]);
    KeptNumbered(k, r, trades);
    var t := Read(r, Payload(k, trades[j])).value;
    StreamLaws.RepliesExact(db, t, Kept(k, r, trades));
    EarlyLeaves(db, t, StreamLaws.Last(db, k.pair));
  }

  lemma EarlyLeaves(db: TradeStream.Database, t: TradeStream.Trade, n: nat)
    requires StreamLaws.Last(db, t.pair) == n && t.sequence > n + 1
    ensures StreamLaws.Last(TradeStream.Apply(db, t).0, t.pair) == n
  {
    hide TradeStream.Upserted, TradeStream.ValidTrade;
  }
}
