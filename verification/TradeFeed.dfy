/** From the engine's journal to the stored trade stream. */
module TradeFeed {
  import opened Options
  import opened BookTypes
  import opened BookSpec
  import opened EngineSpec
  import opened CrashSafety

  // Numbering in the book.

  /** The trades carry the numbers after `n`. */
  predicate CountFrom(trades: seq<Trade>, n: nat) {
    forall i | 0 <= i < |trades| :: trades[i].sequence == n + 1 + i
  }

  lemma {:induction false} FillAllCounts(fees: FeeResolver, m: Matching, n: nat)
    requires CountFrom(m.trades, n) && m.tradeSequence == n + |m.trades|
    ensures var done := FillAll(fees, m); CountFrom(done.trades, n) && done.tradeSequence == n + |done.trades|
    decreases |m.makers|, m.taker.remaining
  {
    if m.CanFill() {
      FillAllCounts(fees, FillOne(fees, m), n);
    }
  }

  lemma SubmitCounts(fees: FeeResolver, b: Book, cmd: OrderCommand)
    ensures var (next, outcome) := Submit(fees, b, cmd);
      CountFrom(outcome.trades, b.tradeSequence) && next.tradeSequence == b.tradeSequence + |outcome.trades|
  {
    hide FillAll, Insert, LevelTotal, Refused;
    FillAllCounts(fees, Start(b, cmd), b.tradeSequence);
  }

  // The trades of a run.

  function CommandTrades(k: Symbol, b: Book, entry: Entry): seq<Trade> {
    if entry.kind != ORDER then []
    else
      match k.protocol.decodeOrder(entry.payload)
      case None => []
      case Some(d) => Submit(k.fees, b, d.command).1.trades
  }

  function TradesIn(k: Symbol, b: Book, commands: seq<Entry>): seq<Trade>
    requires Executable(k, b, commands)
    decreases |commands|
  {
    if commands == [] then []
    else CommandTrades(k, b, commands[0]) + TradesIn(k, EffectOf(k, b, commands[0]).value.book, commands[1..])
  }

  function TradeRecords(entries: seq<Entry>): seq<Entry> {
    if entries == [] then []
    else if entries[0].kind == TRADE then [entries[0]] + TradeRecords(entries[1..])
    else TradeRecords(entries[1..])
  }

  lemma {:induction false} RecordsAppend(a: seq<Entry>, b: seq<Entry>)
    ensures TradeRecords(a + b) == TradeRecords(a) + TradeRecords(b)
  {
    if a == [] {
      assert a + b == b;
    } else {
      RecordsAppend(a[1..], b);
      assert (a + b)[0] == a[0] && (a + b)[1..] == a[1..] + b;
      assert [a[0]] + TradeRecords(a[1..]) + TradeRecords(b) == [a[0]] + (TradeRecords(a[1..]) + TradeRecords(b));
    }
  }

  lemma {:induction false} AllRecords(entries: seq<Entry>)
    requires forall i | 0 <= i < |entries| :: entries[i].kind == TRADE
    ensures TradeRecords(entries) == entries
  {
    if entries != [] {
      AllRecords(entries[1..]);
    }
  }

  lemma {:induction false} NoRecords(entries: seq<Entry>)
    requires forall i | 0 <= i < |entries| :: entries[i].kind != TRADE
    ensures TradeRecords(entries) == []
  {
    if entries != [] {
      NoRecords(entries[1..]);
    }
  }

  lemma EventRecords(k: Symbol, outcome: Outcome, at: nat, prior: nat, b: Book)
    ensures TradeRecords(Events(k, outcome, at, prior, b)) == TradeEntries(k, outcome.trades)
  {
    hide Depth.SnapshotOf, TradeRecords;
    var trades, events := TradeEntries(k, outcome.trades), Events(k, outcome, at, prior, b);
    var rest := events[|trades|..];
    assert events == trades + rest;
    RecordsAppend(trades, rest);
    AllRecords(trades);
    NoRecords(rest);
    assert trades + [] == trades;
  }

  /** A command journals its trades, numbered on from the book's last. */
  lemma EffectTrades(k: Symbol, b: Book, entry: Entry)
    requires EffectOf(k, b, entry).Some?
    ensures var e, trades := EffectOf(k, b, entry).value, CommandTrades(k, b, entry);
      && entry.kind != TRADE && TradeRecords(e.Outputs()) == TradeEntries(k, trades)
      && CountFrom(trades, b.tradeSequence) && e.book.tradeSequence == b.tradeSequence + |trades|
  {
    hide Submit, Events, TradeRecords, Remove;
    var e := EffectOf(k, b, entry).value;
    RecordsAppend(e.events, e.tail);
    NoRecords(e.tail);
    if entry.kind == ORDER {
      var cmd := k.protocol.decodeOrder(entry.payload).value.command;
      SubmitCounts(k.fees, b, cmd);
      var (next, outcome) := Submit(k.fees, b, cmd);
      EventRecords(k, outcome, cmd.timestamp, b.bookSequence, next);
    } else {
      var c := k.protocol.decodeControl(entry.payload).value;
      var (next, outcome) := Cancel(b, c.orderId);
      EventRecords(k, outcome, c.timestamp, b.bookSequence, next);
    }
  }

  lemma EntriesAppend(k: Symbol, a: seq<Trade>, b: seq<Trade>)
    ensures TradeEntries(k, a + b) == TradeEntries(k, a) + TradeEntries(k, b)
  {
  }

  lemma CountAppend(a: seq<Trade>, b: seq<Trade>, n: nat)
    requires CountFrom(a, n) && CountFrom(b, n + |a|)
    ensures CountFrom(a + b, n)
  {
  }

  /** The trade records of a run's journal are its trades, numbered without gaps. */
  lemma {:induction false} JournalTrades(k: Symbol, b: Book, commands: seq<Entry>)
    requires Executable(k, b, commands)
    ensures TradeRecords(JournalOf(k, b, commands)) == TradeEntries(k, TradesIn(k, b, commands))
    ensures CountFrom(TradesIn(k, b, commands), b.tradeSequence)
    decreases |commands|
  {
    hide EffectOf, CommandTrades, TradeRecords, CountFrom, Effect.Outputs;
    if commands == [] {
      NoRecords([]);
      assert CountFrom([], b.tradeSequence) by {
        NoTrades(b.tradeSequence);
      }
    } else {
      var c, rest := commands[0], commands[1..];
      var e := EffectOf(k, b, c).value;
      EffectTrades(k, b, c);
      JournalTrades(k, e.book, rest);
      var journal := JournalOf(k, e.book, rest);
      RecordsAppend([c], e.Outputs());
      RecordsAppend([c] + e.Outputs(), journal);
      NoRecords([c]);
      assert [] + TradeEntries(k, CommandTrades(k, b, c)) == TradeEntries(k, CommandTrades(k, b, c));
      EntriesAppend(k, CommandTrades(k, b, c), TradesIn(k, e.book, rest));
      CountAppend(CommandTrades(k, b, c), TradesIn(k, e.book, rest), b.tradeSequence);
    }
  }

  lemma NoTrades(n: nat)
    ensures CountFrom([], n)
  {
  }

  // Replay.

  /** The number of every trade can be read back from its record. */
  predicate ReadsBack(k: Symbol, trades: seq<Trade>) {
    forall i | 0 <= i < |trades| ::
      k.protocol.tradeSequence(k.protocol.encodeTrade(k.pair, trades[i])) == Some(trades[i].sequence)
  }

  function From(k: Symbol, records: seq<Entry>, from: nat): seq<Entry> {
    if records == [] then []
    else if IsFrom(k, records[0].payload, from) then [records[0]] + From(k, records[1..], from)
    else From(k, records[1..], from)
  }

  lemma ToldCons(p: Publication, rest: seq<Publication>)
    ensures Told([p] + rest) == [p.entry] + Told(rest)
  {
  }

  lemma {:induction false} ReplayFilters(k: Symbol, journal: seq<Entry>, from: nat, at: nat)
    requires at <= |journal|
    ensures Told(ReplayFrom(k, journal, from, at)) == From(k, TradeRecords(journal[at..]), from)
    decreases |journal| - at
  {
    hide IsFrom;
    if at < |journal| {
      ReplayFilters(k, journal, from, at + 1);
      assert journal[at..][0] == journal[at] && journal[at..][1..] == journal[at + 1..];
      var rest := TradeRecords(journal[at + 1..]);
      assert ([journal[at]] + rest)[1..] == rest;
      ToldCons(Journalled(at, journal[at]), ReplayFrom(k, journal, from, at + 1));
    }
  }

  lemma {:induction false} FromSuffix(k: Symbol, trades: seq<Trade>, n: nat, from: nat)
    requires CountFrom(trades, n) && ReadsBack(k, trades) && n < from <= n + |trades| + 1
    ensures From(k, TradeEntries(k, trades), from) == TradeEntries(k, trades[from - n - 1..])
  {
    if trades != [] {
      var records := TradeEntries(k, trades);
      assert records[1..] == TradeEntries(k, trades[1..]);
      if from == n + 1 {
        AllFrom(k, trades, n, from);
      } else {
        FromSuffix(k, trades[1..], n + 1, from);
        assert trades[1..][from - n - 2..] == trades[from - n - 1..];
      }
    }
  }

  lemma {:induction false} AllFrom(k: Symbol, trades: seq<Trade>, n: nat, from: nat)
    requires CountFrom(trades, n) && ReadsBack(k, trades) && from <= n + 1
    ensures From(k, TradeEntries(k, trades), from) == TradeEntries(k, trades)
  {
    if trades != [] {
      assert TradeEntries(k, trades)[1..] == TradeEntries(k, trades[1..]);
      AllFrom(k, trades[1..], n + 1, from);
    }
  }

  /** A running engine's replay is its trades from the given number on, in order. */
  lemma ReplayIsSuffix(k: Symbol, capacity: nat, s: System, from: nat)
    requires Inv(k, capacity, s) && s.process.Some?
    requires ReadsBack(k, TradesIn(k, Empty(capacity), s.history))
    requires 1 <= from <= |TradesIn(k, Empty(capacity), s.history)| + 1
    ensures Told(ReplayFrom(k, s.process.value.engine.journal, from, 0))
         == TradeEntries(k, TradesIn(k, Empty(capacity), s.history)[from - 1..])
  {
    hide TradesIn, ReadsBack, CountFrom, DiskOk, PublishedOk, AnswersOk, TradeRecords;
    var journal := s.process.value.engine.journal;
    ReplayFilters(k, journal, from, 0);
    assert journal[0..] == journal;
    JournalTrades(k, Empty(capacity), s.history);
    FromSuffix(k, TradesIn(k, Empty(capacity), s.history), 0, from);
  }

  lemma {:induction false} RecordIn(entries: seq<Entry>, i: nat)
    requires i < |entries| && entries[i].kind == TRADE
    ensures entries[i] in TradeRecords(entries)
  {
    if i > 0 {
      RecordIn(entries[1..], i - 1);
    }
  }

  /** Every trade ever published, before or after any crash, is one of the history's trades. */
  lemma PublishedTrade(k: Symbol, capacity: nat, s: System, i: nat)
    requires Inv(k, capacity, s) && i < |s.published| && s.published[i].entry.kind == TRADE
    ensures s.published[i].entry in TradeEntries(k, TradesIn(k, Empty(capacity), s.history))
  {
    hide TradesIn, CountFrom, UpOk, AnswersOk, TradeRecords;
    var journal := JournalOf(k, Empty(capacity), s.history);
    assert OnDisk(s.published[i], s.durable);
    RecordIn(journal, s.published[i].index);
    JournalTrades(k, Empty(capacity), s.history);
  }
}
