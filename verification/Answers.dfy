/** What the engine answers and writes for a command, said of the book the command met. */
module Answers {
  import opened Arithmetic
  import opened Octets
  import opened Options
  import opened BookTypes
  import opened BookSpec
  import BookInvariant
  import opened Execution
  import Depth
  import opened EngineSpec
  import opened Recovery
  import opened CrashSafety
  import CrashLaws

  // The books of a run.

  lemma EffectBookOk(k: Symbol, b: Book, entry: Entry)
    requires BookInvariant.BookOk(b) && EffectOf(k, b, entry).Some?
    ensures BookInvariant.BookOk(EffectOf(k, b, entry).value.book)
  {
    hide Submit, Cancel, Events, AckOf, BookInvariant.BookOk;
    if entry.kind == ORDER {
      BookInvariant.SubmitOk(k.fees, b, k.protocol.decodeOrder(entry.payload).value.command);
    } else {
      BookInvariant.CancelOk(b, k.protocol.decodeControl(entry.payload).value.orderId);
    }
  }

  // Orders.

  /** The entry is an order for this engine; the reply is the last status it brought about, and that is its own. */
  predicate OrderAnswer(k: Symbol, b: Book, entry: Entry, id: string, reply: Bytes) {
    entry.kind == 1 &&
    match k.protocol.decodeOrder(entry.payload)
    case None => false
    case Some(d) =>
      && d.pair == k.pair && d.command.id == id
      && var statuses := Submit(k.fees, b, d.command).1.statuses;
         statuses != [] && statuses[|statuses| - 1].orderId == id
           && reply == k.protocol.encodeStatus(statuses[|statuses| - 1])
  }

  /**
   The entry is a cancel for this engine; the reply says whether the order was
   resting, and the number of its status.
   */
  predicate CancelAnswer(k: Symbol, b: Book, entry: Entry, id: string, reply: Bytes) {
    entry.kind == 2 &&
    match k.protocol.decodeControl(entry.payload)
    case None => false
    case Some(c) =>
      && c.pair == k.pair && c.commandId == id && c.kind == CancelOrder
      && var statuses := Cancel(b, c.orderId).1.statuses;
         if IsResting(b, c.orderId) then
           && |statuses| == 1 && statuses[0].orderId == c.orderId && statuses[0].status == Canceled
           && reply == k.protocol.encodeAck(id, c.timestamp, true, statuses[0].sequence, "")
         else
           statuses == []
             && reply == k.protocol.encodeAck(id, c.timestamp, false, b.statusSequence, "order is not open")
  }

  predicate AnswerTo(k: Symbol, b: Book, entry: Entry, kind: nat, id: string, reply: Bytes) {
    if kind == 1 then OrderAnswer(k, b, entry, id, reply) else CancelAnswer(k, b, entry, id, reply)
  }

  lemma OwnStatusLast(k: Symbol, b: Book, cmd: OrderCommand)
    requires BookInvariant.BookOk(b) && Submit(k.fees, b, cmd).1.statuses != []
    ensures var statuses := Submit(k.fees, b, cmd).1.statuses; statuses[|statuses| - 1].orderId == cmd.id
  {
    hide Submit, InTurn, TradesOf, StatusesOf, Left, Worth, Summed, Offered, Declined, BookInvariant.BookOk;
    SubmitExactly(k.fees, b, cmd);
  }

  lemma OrderReplies(k: Symbol, b: Book, entry: Entry)
    requires BookInvariant.BookOk(b) && EffectOf(k, b, entry).Some? && entry.kind == ORDER
    ensures var e := EffectOf(k, b, entry).value; OrderAnswer(k, b, entry, e.id, e.reply)
  {
    hide Submit, Events, BookInvariant.BookOk;
    OwnStatusLast(k, b, k.protocol.decodeOrder(entry.payload).value.command);
  }

  lemma CancelReplies(k: Symbol, b: Book, entry: Entry)
    requires BookInvariant.BookOk(b) && EffectOf(k, b, entry).Some? && entry.kind == CANCEL
    ensures var e := EffectOf(k, b, entry).value; CancelAnswer(k, b, entry, e.id, e.reply)
  {
    hide Cancel, Events, BookInvariant.BookOk, IsResting;
    var c := k.protocol.decodeControl(entry.payload).value;
    CancelFinds(b, c.orderId);
  }

  lemma CancelFinds(b: Book, id: string)
    requires BookInvariant.BookOk(b)
    ensures var (b', out) := Cancel(b, id);
      if IsResting(b, id) then
        && |out.statuses| == 1 && out.statuses[0].orderId == id && out.statuses[0].status == Canceled
      else out.statuses == [] && b' == b
  {
    hide Cancel, BookInvariant.BookOk;
    CancelExactly(b, id);
  }

  lemma EffectReplies(k: Symbol, b: Book, entry: Entry)
    requires BookInvariant.BookOk(b) && EffectOf(k, b, entry).Some?
    ensures var e := EffectOf(k, b, entry).value; AnswerTo(k, b, entry, entry.kind, e.id, e.reply)
  {
    hide EffectOf, OrderAnswer, CancelAnswer;
    EffectId(k, b, entry);
    if entry.kind == ORDER {
      OrderReplies(k, b, entry);
    } else {
      CancelReplies(k, b, entry);
    }
  }

  // Over a run.

  /** Command n of the run was answered like this. */
  predicate AnsweredAt(k: Symbol, b: Book, commands: seq<Entry>, n: nat, kind: nat, id: string, reply: Bytes) {
    && n < |commands| && Executable(k, b, commands[..n])
    && AnswerTo(k, BookAfter(k, b, commands[..n]), commands[n], kind, id, reply)
  }

  lemma AnsweredLater(k: Symbol, b: Book, commands: seq<Entry>, n: nat, kind: nat, id: string, reply: Bytes)
    requires commands != [] && EffectOf(k, b, commands[0]).Some?
    requires AnsweredAt(k, EffectOf(k, b, commands[0]).value.book, commands[1..], n, kind, id, reply)
    ensures AnsweredAt(k, b, commands, n + 1, kind, id, reply)
  {
    hide EffectOf, AnswerTo;
    assert commands[..n + 1][0] == commands[0] && commands[..n + 1][1..] == commands[1..][..n];
  }

  lemma {:induction false} ReplyFrom(k: Symbol, b: Book, commands: seq<Entry>, r: Replies, a: Answer)
    requires BookInvariant.BookOk(b) && Executable(k, b, commands) && (a.kind == ORDER || a.kind == CANCEL)
    requires ReplyTo(RepliesAfter(k, b, commands, r), a) == Some(a.reply)
    ensures ReplyTo(r, a) == Some(a.reply) || exists n :: AnsweredAt(k, b, commands, n, a.kind, a.id, a.reply)
    decreases |commands|
  {
    hide EffectOf, AnswerTo, BookInvariant.BookOk, AnsweredAt;
    if commands != [] {
      var c, e := commands[0], EffectOf(k, b, commands[0]).value;
      EffectBookOk(k, b, c);
      EffectId(k, b, c);
      EffectReplies(k, b, c);
      ReplyFrom(k, e.book, commands[1..], Answered(r, c, e), a);
      if n :| AnsweredAt(k, e.book, commands[1..], n, a.kind, a.id, a.reply) {
        AnsweredLater(k, b, commands, n, a.kind, a.id, a.reply);
      } else if ReplyTo(r, a) != Some(a.reply) {
        assert c.kind == a.kind && e.id == a.id && e.reply == a.reply;
        AnsweredFirst(k, b, commands, a);
      }
    }
  }

  lemma AnsweredFirst(k: Symbol, b: Book, commands: seq<Entry>, a: Answer)
    requires commands != [] && AnswerTo(k, b, commands[0], a.kind, a.id, a.reply)
    ensures AnsweredAt(k, b, commands, 0, a.kind, a.id, a.reply)
  {
    hide AnswerTo;
    assert commands[..0] == [];
  }

  /**
   Over every run with crashes and restarts: an answer that is not borrowed is
   to a command of the history. For an order it is the last status the order
   brought about when it ran, which is its own. For a cancel it says accepted
   exactly if the order was resting, with the number of its status.
   */
  lemma AnswerMeans(k: Symbol, capacity: nat, actions: seq<Action>, i: nat)
    requires i < |Run(k, capacity, actions).answers| && !Run(k, capacity, actions).answers[i].borrowed
    ensures var s := Run(k, capacity, actions);
      var a := s.answers[i];
      (a.kind == 1 || a.kind == 2) && exists n :: AnsweredAt(k, Empty(capacity), s.history, n, a.kind, a.id, a.reply)
  {
    hide Run, DistinctIds, UpOk, PublishedOk, Executable, RepliesAfter, JournalOf, AnsweredAt, BookInvariant.BookOk;
    RunOk(k, capacity, actions);
    var s := Run(k, capacity, actions);
    BookInvariant.EmptyOk(capacity);
    assert ReplyTo(RepliesAfter(k, Empty(capacity), s.history, NO_REPLIES), s.answers[i]) == Some(s.answers[i].reply);
    ReplyFrom(k, Empty(capacity), s.history, NO_REPLIES, s.answers[i]);
  }

  // What is written.

  function Trades(k: Symbol, trades: seq<Trade>): seq<Entry> {
    if trades == [] then [] else [Entry(3, k.protocol.encodeTrade(k.pair, trades[0]))] + Trades(k, trades[1..])
  }

  function Statuses(k: Symbol, statuses: seq<OrderStatus>): seq<Entry> {
    if statuses == [] then [] else [Entry(4, k.protocol.encodeStatus(statuses[0]))] + Statuses(k, statuses[1..])
  }

  /**
   The command itself, its trades, its statuses, the best thousand levels if the
   book moved, and a cancel's answer.
   */
  ghost predicate Block(k: Symbol, b: Book, entry: Entry, b': Book, block: seq<Entry>) {
    if entry.kind == 1 then
      match k.protocol.decodeOrder(entry.payload)
      case None => false
      case Some(d) =>
        && d.pair == k.pair && b' == Submit(k.fees, b, d.command).0
        && var out := Submit(k.fees, b, d.command).1;
           block == [entry] + Trades(k, out.trades) + Statuses(k, out.statuses) + Picture(k, b, b', d.command.timestamp)
    else
      entry.kind == 2 &&
      match k.protocol.decodeControl(entry.payload)
      case None => false
      case Some(c) =>
        && c.pair == k.pair && c.kind == CancelOrder && b' == Cancel(b, c.orderId).0
        && exists reply ::
             && CancelAnswer(k, b, entry, c.commandId, reply)
             && block == [entry] + Statuses(k, Cancel(b, c.orderId).1.statuses) + Picture(k, b, b', c.timestamp)
                         + [Entry(6, reply)]
  }

  function Picture(k: Symbol, b: Book, b': Book, timestamp: nat): seq<Entry> {
    if b'.bookSequence == b.bookSequence then []
    else [Entry(5, k.protocol.encodeSnapshot(k.pair, timestamp, Depth.SnapshotOf(b', 1000)))]
  }

  lemma {:induction false} TradesAre(k: Symbol, trades: seq<Trade>)
    ensures Trades(k, trades) == TradeEntries(k, trades)
  {
    if trades != [] {
      TradesAre(k, trades[1..]);
      assert TradeEntries(k, trades) == [TradeEntries(k, trades)[0]] + TradeEntries(k, trades[1..]);
    }
  }

  lemma {:induction false} StatusesAre(k: Symbol, statuses: seq<OrderStatus>)
    ensures Statuses(k, statuses) == StatusEntries(k, statuses)
  {
    if statuses != [] {
      StatusesAre(k, statuses[1..]);
      assert StatusEntries(k, statuses) == [StatusEntries(k, statuses)[0]] + StatusEntries(k, statuses[1..]);
    }
  }

  lemma EventsAre(k: Symbol, out: Outcome, timestamp: nat, b: Book, b': Book)
    ensures Events(k, out, timestamp, b.bookSequence, b')
         == Trades(k, out.trades) + Statuses(k, out.statuses) + Picture(k, b, b', timestamp)
  {
    hide Trades, Statuses, Depth.SnapshotOf, TradeEntries, StatusEntries;
    TradesAre(k, out.trades);
    StatusesAre(k, out.statuses);
  }

  lemma OrderBlock(k: Symbol, b: Book, entry: Entry)
    requires EffectOf(k, b, entry).Some? && entry.kind == ORDER
    ensures var e := EffectOf(k, b, entry).value; Block(k, b, entry, e.book, [entry] + e.Outputs())
  {
    hide Submit, Events, Trades, Statuses, Picture;
    var d := k.protocol.decodeOrder(entry.payload).value;
    var (b', out) := Submit(k.fees, b, d.command);
    EventsAre(k, out, d.command.timestamp, b, b');
    var e := EffectOf(k, b, entry).value;
    assert e.Outputs() == e.events;
    assert [entry] + (Trades(k, out.trades) + Statuses(k, out.statuses) + Picture(k, b, b', d.command.timestamp))
        == [entry] + Trades(k, out.trades) + Statuses(k, out.statuses) + Picture(k, b, b', d.command.timestamp);
  }

  lemma CancelBlock(k: Symbol, b: Book, entry: Entry)
    requires BookInvariant.BookOk(b) && EffectOf(k, b, entry).Some? && entry.kind == CANCEL
    ensures var e := EffectOf(k, b, entry).value; Block(k, b, entry, e.book, [entry] + e.Outputs())
  {
    hide Cancel, Events, Trades, Statuses, Picture, BookInvariant.BookOk, CancelAnswer, AckOf;
    CancelReplies(k, b, entry);
    var c := k.protocol.decodeControl(entry.payload).value;
    var (b', out) := Cancel(b, c.orderId);
    NoTrades(k, b, c.orderId);
    EventsAre(k, out, c.timestamp, b, b');
    var e := EffectOf(k, b, entry).value;
    var statuses, picture := Statuses(k, out.statuses), Picture(k, b, b', c.timestamp);
    assert e.Outputs() == e.events + [Entry(6, e.reply)];
    assert [] + statuses + picture == statuses + picture;
    assert [entry] + (statuses + picture + [Entry(6, e.reply)]) == [entry] + statuses + picture + [Entry(6, e.reply)];
  }

  lemma NoTrades(k: Symbol, b: Book, id: string)
    ensures Trades(k, Cancel(b, id).1.trades) == []
  {
  }

  /** The journal of a run is, command by command, the command with all it brought about. */
  lemma JournalMeans(k: Symbol, capacity: nat, commands: seq<Entry>, n: nat)
    requires Executable(k, Empty(capacity), commands) && n < |commands|
    ensures var b := Empty(capacity);
      && Executable(k, b, commands[..n]) && Executable(k, b, commands[..n + 1])
      && exists block ::
           && Block(k, BookAfter(k, b, commands[..n]), commands[n], BookAfter(k, b, commands[..n + 1]), block)
           && JournalOf(k, b, commands[..n + 1]) == JournalOf(k, b, commands[..n]) + block
  {
    hide EffectOf, Executable, JournalOf, BookAfter, Block, BookInvariant.BookOk, RepliesAfter;
    var b := Empty(capacity);
    ExecutablePrefix(k, b, commands, n);
    ExecutablePrefix(k, b, commands, n + 1);
    assert commands[..n] + [commands[n]] == commands[..n + 1];
    SnocCommand(k, b, commands[..n], commands[n], NO_REPLIES);
    var met := BookAfter(k, b, commands[..n]);
    BookInvariant.EmptyOk(capacity);
    BooksOk(k, b, commands[..n]);
    var e := EffectOf(k, met, commands[n]).value;
    EffectId(k, met, commands[n]);
    if commands[n].kind == ORDER {
      OrderBlock(k, met, commands[n]);
    } else {
      CancelBlock(k, met, commands[n]);
    }
  }

  lemma {:induction false} BooksOk(k: Symbol, b: Book, commands: seq<Entry>)
    requires BookInvariant.BookOk(b) && Executable(k, b, commands)
    ensures BookInvariant.BookOk(BookAfter(k, b, commands))
    decreases |commands|
  {
    hide EffectOf, BookInvariant.BookOk;
    if commands != [] {
      EffectBookOk(k, b, commands[0]);
      BooksOk(k, EffectOf(k, b, commands[0]).value.book, commands[1..]);
    }
  }

  // Serving a request.

  /** An order for this engine under an id no order of the history has. */
  predicate NewOrder(k: Symbol, history: seq<Entry>, entry: Entry) {
    entry.kind == 1 &&
    match k.protocol.decodeOrder(entry.payload)
    case None => false
    case Some(d) => d.pair == k.pair && forall i | 0 <= i < |history| :: !IsOrderOf(k, history[i], d.command.id)
  }

  predicate IsOrderOf(k: Symbol, entry: Entry, id: string) {
    && entry.kind == 1 && k.protocol.decodeOrder(entry.payload).Some?
    && k.protocol.decodeOrder(entry.payload).value.command.id == id
  }

  /** A cancel for this engine under an id no cancel of the history, and no replay or snapshot request, has. */
  predicate NewCancel(k: Symbol, history: seq<Entry>, volatile: map<string, Bytes>, entry: Entry) {
    entry.kind == 2 &&
    match k.protocol.decodeControl(entry.payload)
    case None => false
    case Some(c) =>
      && c.pair == k.pair && c.kind == CancelOrder && c.commandId !in volatile
      && forall i | 0 <= i < |history| :: !IsCancelOf(k, history[i], c.commandId)
  }

  predicate IsCancelOf(k: Symbol, entry: Entry, id: string) {
    && entry.kind == 2 && k.protocol.decodeControl(entry.payload).Some?
    && k.protocol.decodeControl(entry.payload).value.commandId == id
  }

  lemma OrderRuns(k: Symbol, capacity: nat, s: System, entry: Entry)
    requires Inv(k, capacity, s) && s.process.Some? && entry.kind == ORDER
    ensures Runs(k, s.process.value, entry) <==> NewOrder(k, s.history, entry)
  {
    hide EffectOf, Executable, BookAfter, JournalOf, RepliesAfter, DistinctIds, PublishedOk, AnswersOk;
    var p := s.process.value;
    if k.protocol.decodeOrder(entry.payload).Some? {
      var id := k.protocol.decodeOrder(entry.payload).value.command.id;
      CachedIds(k, Empty(capacity), s.history, NO_REPLIES, entry, id);
      assert forall i | 0 <= i < |s.history| ::
        IsOrderOf(k, s.history[i], id) <==> s.history[i].kind == entry.kind && IdOf(k, s.history[i]) == Some(id);
      if NewOrder(k, s.history, entry) {
        CrashLaws.SeenAnswered(k, Empty(capacity), s.history, NO_REPLIES);
        assert id !in p.engine.book.seen;
        CrashLaws.OrderHasEffect(k, p.engine.book, entry);
      }
    }
    if EffectOf(k, p.engine.book, entry).Some? {
      EffectId(k, p.engine.book, entry);
      EffectOurs(k, p.engine.book, entry);
    }
  }

  lemma EffectOurs(k: Symbol, b: Book, entry: Entry)
    requires EffectOf(k, b, entry).Some?
    ensures if entry.kind == ORDER then k.protocol.decodeOrder(entry.payload).value.pair == k.pair
            else && k.protocol.decodeControl(entry.payload).value.pair == k.pair
                 && k.protocol.decodeControl(entry.payload).value.kind == CancelOrder
  {
    hide Submit, Events;
  }

  lemma CancelRuns(k: Symbol, capacity: nat, s: System, entry: Entry)
    requires Inv(k, capacity, s) && s.process.Some? && entry.kind == CANCEL
    ensures Runs(k, s.process.value, entry) <==> NewCancel(k, s.history, s.process.value.volatile, entry)
  {
    hide EffectOf, Executable, BookAfter, JournalOf, RepliesAfter, DistinctIds, PublishedOk, AnswersOk;
    var p := s.process.value;
    if k.protocol.decodeControl(entry.payload).Some? {
      var id := k.protocol.decodeControl(entry.payload).value.commandId;
      CachedIds(k, Empty(capacity), s.history, NO_REPLIES, entry, id);
      assert forall i | 0 <= i < |s.history| ::
        IsCancelOf(k, s.history[i], id) <==> s.history[i].kind == entry.kind && IdOf(k, s.history[i]) == Some(id);
      if NewCancel(k, s.history, p.volatile, entry) {
        CrashLaws.CancelHasEffect(k, p.engine.book, entry);
      }
    }
    if EffectOf(k, p.engine.book, entry).Some? {
      EffectId(k, p.engine.book, entry);
      EffectOurs(k, p.engine.book, entry);
    }
  }

  /** What the world is told: the trades, the statuses, the book if it moved. */
  function News(k: Symbol, b: Book, entry: Entry, b': Book): seq<Entry> {
    if entry.kind == 1 then
      match k.protocol.decodeOrder(entry.payload)
      case None => []
      case Some(d) =>
        var out := Submit(k.fees, b, d.command).1;
        Trades(k, out.trades) + Statuses(k, out.statuses) + Picture(k, b, b', d.command.timestamp)
    else
      match k.protocol.decodeControl(entry.payload)
      case None => []
      case Some(c) => Statuses(k, Cancel(b, c.orderId).1.statuses) + Picture(k, b, b', c.timestamp)
  }

  lemma EffectNews(k: Symbol, b: Book, entry: Entry)
    requires EffectOf(k, b, entry).Some?
    ensures var e := EffectOf(k, b, entry).value; e.events == News(k, b, entry, e.book)
  {
    hide Submit, Cancel, Events, Trades, Statuses, Picture;
    EffectId(k, b, entry);
    if entry.kind == ORDER {
      var d := k.protocol.decodeOrder(entry.payload).value;
      var (b', out) := Submit(k.fees, b, d.command);
      EventsAre(k, out, d.command.timestamp, b, b');
    } else {
      var c := k.protocol.decodeControl(entry.payload).value;
      var (b', out) := Cancel(b, c.orderId);
      EventsAre(k, out, c.timestamp, b, b');
      NoTrades(k, b, c.orderId);
      assert [] + Statuses(k, out.statuses) == Statuses(k, out.statuses);
    }
  }

  /**
   In every reachable state a running engine executes a request exactly when it
   is a new order or cancel. It then tells the world all its news, in order,
   and answers it.
   */
  lemma RequestServed(k: Symbol, capacity: nat, s: System, entry: Entry)
    requires Inv(k, capacity, s) && s.process.Some? && (entry.kind == 1 || entry.kind == 2)
    ensures var t, b := Next(k, capacity, s, Request(entry)), s.process.value.engine.book;
      if NewOrder(k, s.history, entry) || NewCancel(k, s.history, s.process.value.volatile, entry) then
        && t.process.Some? && t.history == s.history + [entry]
        && Told(t.published) == Told(s.published) + News(k, b, entry, t.process.value.engine.book)
        && |t.answers| == |s.answers| + 1 && !t.answers[|s.answers|].borrowed
        && AnswerTo(k, b, entry, entry.kind, t.answers[|s.answers|].id, t.answers[|s.answers|].reply)
      else t.history == s.history && t.durable == s.durable
  {
    hide EffectOf, NewOrder, NewCancel, AnswerTo, News, Runs, Executable, BookAfter, JournalOf, RepliesAfter,
      DistinctIds;
    var p := s.process.value;
    if entry.kind == ORDER {
      OrderRuns(k, capacity, s, entry);
      KindsApart(k, s, entry);
    } else {
      CancelRuns(k, capacity, s, entry);
      KindsApart(k, s, entry);
    }
    if Runs(k, p, entry) {
      RunsHasEffect(k, p, entry);
      BookInvariant.EmptyOk(capacity);
      BooksOk(k, Empty(capacity), s.history);
      EffectReplies(k, p.engine.book, entry);
      EffectNews(k, p.engine.book, entry);
      Announces(s.published, EffectOf(k, p.engine.book, entry).value.events, |s.durable|);
      NewBook(k, p.engine, entry);
    }
  }

  lemma KindsApart(k: Symbol, s: System, entry: Entry)
    requires s.process.Some?
    ensures entry.kind == 1 ==> !NewCancel(k, s.history, s.process.value.volatile, entry)
    ensures entry.kind == 2 ==> !NewOrder(k, s.history, entry)
  {
  }

  lemma RunsHasEffect(k: Symbol, p: Running, entry: Entry)
    requires Runs(k, p, entry)
    ensures EffectOf(k, p.engine.book, entry).Some?
    ensures !Cached(p.engine.replies, entry, EffectOf(k, p.engine.book, entry).value.id)
  {
  }

  lemma NewBook(k: Symbol, e: Engine, entry: Entry)
    requires EffectOf(k, e.book, entry).Some? && !Cached(e.replies, entry, EffectOf(k, e.book, entry).value.id)
    ensures Handle(k, e, entry).book == EffectOf(k, e.book, entry).value.book
  {
  }

  lemma Announces(published: seq<Publication>, events: seq<Entry>, at: nat)
    ensures Told(published + Announced(events, at, |events|)) == Told(published) + events
  {
  }

  // Replays and snapshots.

  /** The acknowledgement of a replay or snapshot names the last trade or the book's number, at least 1. */
  lemma LookMeans(k: Symbol, capacity: nat, s: System, entry: Entry, c: ControlCommand)
    requires s.process.Some? && k.protocol.decodeControl(entry.payload) == Some(c)
    requires Looks(k, s.process.value, entry)
    ensures var t, b := Next(k, capacity, s, Request(entry)), s.process.value.engine.book;
      && t.process.Some? && c.commandId in t.process.value.volatile
      && t.process.value.volatile[c.commandId]
         == k.protocol.encodeAck(c.commandId, c.timestamp, true,
                                 Max(1, if c.kind == ReplayTrades then b.tradeSequence else b.bookSequence), "")
  {
    hide EffectOf, Shown, Handle;
    CrashLaws.LooksIsNoCommand(k, s.process.value, entry);
  }

  // Snapshots.

  function Number(orders: seq<Order>, price: nat): nat {
    if orders == [] then 0 else (if orders[0].command.price == price then 1 else 0) + Number(orders[1..], price)
  }

  predicate Ranked(side: Side, p: nat, q: nat) {
    match side
    case Buy => p > q
    case Sell => p < q
  }

  predicate Priced(orders: seq<Order>, price: nat) {
    exists k :: 0 <= k < |orders| && orders[k].command.price == price
  }

  predicate LevelShows(level: Depth.Level, orders: seq<Order>) {
    && Priced(orders, level.price) && level.quantity == Resting(orders, level.price)
    && level.count == Number(orders, level.price) % 0x1_0000_0000
  }

  /** The best `depth` prices, best first, each with the sum and the number of its orders. */
  predicate Shows(levels: seq<Depth.Level>, orders: seq<Order>, side: Side, depth: nat) {
    && |levels| <= depth
    && (forall i, j | 0 <= i < j < |levels| :: Ranked(side, levels[i].price, levels[j].price))
    && (forall i | 0 <= i < |levels| :: LevelShows(levels[i], orders))
    && (forall k | 0 <= k < |orders| :: Listed(levels, orders[k].command.price, side, depth))
  }

  /** The price is shown, or there are enough better ones. */
  predicate Listed(levels: seq<Depth.Level>, price: nat, side: Side, depth: nat) {
    || (exists i :: 0 <= i < |levels| && levels[i].price == price)
    || (|levels| == depth && forall i | 0 <= i < |levels| :: Ranked(side, levels[i].price, price))
  }

  lemma {:induction false} NumberAt(orders: seq<Order>, price: nat)
    ensures Depth.CountAt(orders, price) == Number(orders, price)
  {
    if orders != [] {
      NumberAt(orders[1..], price);
    }
  }

  lemma {:induction false} GroupedPriced(orders: seq<Order>)
    ensures forall i | 0 <= i < |Depth.Grouped(orders)| :: Priced(orders, Depth.Grouped(orders)[i].price)
  {
    if orders != [] {
      GroupedPriced(orders[1..]);
      var rest, levels := Depth.Grouped(orders[1..]), Depth.Grouped(orders);
      forall i | 0 <= i < |levels| ensures Priced(orders, levels[i].price) {
        if levels[i].price == orders[0].command.price {
          assert orders[0].command.price == levels[i].price;
        } else {
          var j := if |levels| == |rest| then i else i - 1;
          assert levels[i].price == rest[j].price;
          PricedLater(orders, rest[j].price);
        }
      }
    }
  }

  lemma PricedLater(orders: seq<Order>, price: nat)
    requires orders != [] && Priced(orders[1..], price)
    ensures Priced(orders, price)
  {
    var k :| 0 <= k < |orders[1..]| && orders[1..][k].command.price == price;
    assert orders[k + 1].command.price == price;
  }

  lemma {:induction false} TopIs(levels: seq<Depth.Level>, depth: nat)
    ensures var top := Depth.Top(levels, depth);
      && |top| == Min(|levels|, depth)
      && forall i | 0 <= i < |top| :: top[i] == levels[i].(count := levels[i].count % 0x1_0000_0000)
    decreases depth
  {
    if levels != [] && depth > 0 {
      TopIs(levels[1..], depth - 1);
    }
  }

  lemma TopShows(orders: seq<Order>, side: Side, depth: nat)
    requires BookInvariant.Sorted(orders, side)
    ensures Shows(Depth.Top(Depth.Grouped(orders), depth), orders, side, depth)
  {
    hide Depth.Grouped, Depth.Top, Priced, LevelTotal, Resting, Number, BookInvariant.Sorted;
    var levels := Depth.Grouped(orders);
    var top := Depth.Top(levels, depth);
    Depth.GroupedExact(orders, side);
    GroupedPriced(orders);
    TopIs(levels, depth);
    forall i | 0 <= i < |top| ensures LevelShows(top[i], orders) {
      assert Depth.Exact(levels[i], orders);
      LevelResting(orders, levels[i].price);
      NumberAt(orders, levels[i].price);
    }
    forall i, j | 0 <= i < j < |top| ensures Ranked(side, top[i].price, top[j].price) {
      assert Better(side, levels[i].price, levels[j].price);
    }
    forall k | 0 <= k < |orders| ensures Listed(top, orders[k].command.price, side, depth) {
      var i :| 0 <= i < |levels| && levels[i].price == orders[k].Price();
      if i < |top| {
        assert top[i].price == orders[k].command.price;
      } else {
        forall j | 0 <= j < |top| ensures Ranked(side, top[j].price, orders[k].command.price) {
          assert Better(side, levels[j].price, levels[i].price);
        }
      }
    }
  }

  /** A snapshot shows each side of the book, up to the depth, under the book's number. */
  lemma SnapshotShows(b: Book, depth: nat)
    requires BookInvariant.BookOk(b)
    ensures var shot := Depth.SnapshotOf(b, depth);
      && shot.sequence == b.bookSequence && Shows(shot.bids, b.bids, Buy, depth)
      && Shows(shot.asks, b.asks, Sell, depth)
  {
    hide Shows, Depth.Grouped, Depth.Top;
    SideSorted(b.bids, Buy, b.seen);
    SideSorted(b.asks, Sell, b.seen);
    TopShows(b.bids, Buy, depth);
    TopShows(b.asks, Sell, depth);
  }
}
