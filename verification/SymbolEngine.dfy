/** The engine of one symbol: it journals, executes, publishes, answers and recovers. */
module SymbolEngines {
  import opened Octets
  import opened Options
  import opened Wire
  import opened Framing
  import opened JournalFile
  import opened BookTypes
  import opened BookSpec
  import opened Levels
  import opened Depth
  import opened OrderBooks
  import opened EngineSpec
  import opened Recovery
  import opened CrashSafety
  import opened CrashLaws

  datatype PublishedEvent = PublishedEvent(topic: string, payload: Bytes)

  datatype Failure =
    | Malformed | WrongPartition | NoStatus | NotACommand | AnotherSymbol | Diverged
    | Unreadable(error: JournalError)

  datatype Result = Ok(reply: Bytes) | Error(failure: Failure)

  /** The records without their numbers. */
  function Entries(records: seq<Record>): (entries: seq<Entry>)
    ensures |entries| == |records|
    ensures forall i | 0 <= i < |records| :: entries[i] == Entry(records[i].kind, records[i].payload)
  {
    seq(|records|, i requires 0 <= i < |records| => Entry(records[i].kind, records[i].payload))
  }

  predicate Numbered(records: seq<Record>) {
    forall i | 0 <= i < |records| :: records[i].sequence == i + 1
  }

  lemma EntriesSnoc(records: seq<Record>, r: Record)
    ensures Entries(records + [r]) == Entries(records) + [Entry(r.kind, r.payload)]
  {
  }

  lemma {:induction false} EncodeAllSnoc(c: Codec, records: seq<Record>, r: Record)
    ensures EncodeAll(c, records + [r]) == EncodeAll(c, records) + Encode(c, r)
    decreases |records|
  {
    hide Encode;
    if records == [] {
      assert [] + [r] == [r] && [r][1..] == [];
    } else {
      EncodeAllSnoc(c, records[1..], r);
      assert (records + [r])[1..] == records[1..] + [r];
    }
  }

  predicate Fits(payload: Bytes) {
    0 < |payload| <= MAX_RECOVER
  }

  /** Messages fit a journal record, and a trade's number can be read back. */
  ghost predicate WireOk(p: Protocol) {
    && (forall payload :: p.decodeOrder(payload).Some? ==> Fits(payload))
    && (forall payload :: p.decodeControl(payload).Some? ==> Fits(payload))
    && (forall pair, t :: Fits(p.encodeTrade(pair, t)) && p.tradeSequence(p.encodeTrade(pair, t)).Some?)
    && (forall pair, t: Trade :: t.sequence < Framing.U64 ==>
          p.tradeSequence(p.encodeTrade(pair, t)) == Some(t.sequence))
    && (forall s :: Fits(p.encodeStatus(s)))
    && (forall pair, at, s :: Fits(p.encodeSnapshot(pair, at, s)))
    && (forall id, at, yes, n, why :: Fits(p.encodeAck(id, at, yes, n, why)))
  }

  ghost predicate CarriesOrder(p: Protocol) {
    exists payload :: p.decodeOrder(payload).Some? && Valid(p.decodeOrder(payload).value.command)
  }

  ghost predicate Carries(p: Protocol, kind: ControlKind) {
    exists payload :: p.decodeControl(payload).Some? && p.decodeControl(payload).value.kind == kind
  }

  /** Such a wire format exists, and one that carries an order, a cancel, a replay and a snapshot request. */
  lemma WireOkExists() returns (p: Protocol)
    ensures WireOk(p) && CarriesOrder(p) && forall kind: ControlKind :: Carries(p, kind)
  {
    var order := DecodedOrder("P", OrderCommand("o", "u", Buy, Limit, GTC, 1, 1, 0, 0, false));
    var control := (kind: ControlKind) => ControlCommand(kind, "c", "P", "o", 0, 1);
    p := Protocol(
      payload => if payload == [1] then Some(order) else None,
      payload =>
        if payload == [1] then Some(control(CancelOrder))
        else if payload == [2] then Some(control(ReplayTrades))
        else if payload == [3] then Some(control(TakeSnapshot)) else None,
      (pair: string, t: Trade) => PutLE(t.sequence, 8), _ => [0], (_, _, _) => [0],
      (_, _, _, _, _) => [0], payload => Some(GetLE(payload)));
    forall pair, t: Trade | t.sequence < Framing.U64
      ensures p.tradeSequence(p.encodeTrade(pair, t)) == Some(t.sequence)
    {
      FieldSizes();
      GetPut(t.sequence, 8);
    }
    assert p.decodeOrder([1]) == Some(order);
    assert p.decodeControl([1]).Some? && p.decodeControl([2]).Some? && p.decodeControl([3]).Some?;
  }

  /** The entry fits a record, and if it is a trade its number can be read. */
  predicate Sound(p: Protocol, entry: Entry) {
    Fits(entry.payload) && (entry.kind == TRADE ==> p.tradeSequence(entry.payload).Some?)
  }

  predicate AllSound(p: Protocol, entries: seq<Entry>) {
    forall i | 0 <= i < |entries| :: Sound(p, entries[i])
  }

  function TopicOf(kind: nat): string {
    if kind == TRADE then "trade" else if kind == STATUS then "order_status" else "order_book"
  }

  function Sent(events: seq<Entry>): (sent: seq<PublishedEvent>)
    ensures |sent| == |events|
    ensures forall i | 0 <= i < |events| :: sent[i] == PublishedEvent(TopicOf(events[i].kind), events[i].payload)
  {
    seq(|events|, i requires 0 <= i < |events| => PublishedEvent(TopicOf(events[i].kind), events[i].payload))
  }

  lemma SentSnoc(events: seq<Entry>, e: Entry)
    ensures Sent(events + [e]) == Sent(events) + [PublishedEvent(TopicOf(e.kind), e.payload)]
  {
  }

  lemma Said(events: seq<Entry>, at: nat, before: seq<Publication>)
    ensures Told((before + Announced(events, at, |events|))[|before|..]) == events
  {
  }

  lemma Spliced(before: seq<Entry>, entry: Entry, events: seq<Entry>, tail: seq<Entry>)
    ensures before + [entry] + events + tail == before + ([entry] + (events + tail))
    ensures events + [] == events
  {
  }

  /** What serving a new command comes to. */
  lemma ServingRuns(k: Symbol, s: System, p: Running, entry: Entry, e: Effect)
    requires s.durable == p.engine.journal && EffectOf(k, p.engine.book, entry) == Some(e)
    requires !Cached(p.engine.replies, entry, e.id) && (entry.kind == CANCEL ==> e.id !in p.volatile)
    ensures var journal := s.durable + ([entry] + e.Outputs());
      Serving(k, s, p, entry)
      == System(journal, Some(Running(Engine(e.book, journal, Answered(p.engine.replies, entry, e)), p.volatile)),
                s.published + Announced(e.events, |s.durable|, |e.events|),
                s.answers + [Answer(entry.kind, e.id, e.reply, false)], s.history + [entry])
  {
  }

  /** What serving a replay or snapshot request comes to. */
  lemma ServingLooks(k: Symbol, s: System, p: Running, payload: Bytes, c: ControlCommand)
    requires k.protocol.decodeControl(payload) == Some(c) && c.pair == k.pair && !c.kind.CancelOrder?
    requires c.commandId !in p.engine.replies.controls && c.commandId !in p.volatile
    ensures var t := Serving(k, s, p, Entry(CANCEL, payload));
      && t.process == Some(p.(volatile := p.volatile[c.commandId := LookReply(k, p.engine.book, c)]))
      && t.durable == s.durable && s.published <= t.published
      && t.published[|s.published|..] == Shown(k, p, c, |s.history|)
  {
    hide Shown;
  }

  lemma PictureTold(k: Symbol, commands: nat, timestamp: nat, b: Book)
    ensures Sent(Told([Pictured(commands, timestamp, PictureOf(k, b, timestamp))]))
         == [PublishedEvent("order_book", k.protocol.encodeSnapshot(k.pair, timestamp, SnapshotOf(b, DEPTH)))]
  {
  }

  lemma CancelIsEffect(k: Symbol, b: Book, payload: Bytes, c: ControlCommand)
    requires k.protocol.decodeControl(payload) == Some(c) && c.pair == k.pair && c.kind.CancelOrder?
    ensures EffectOf(k, b, Entry(CANCEL, payload)) == Some(CancelEffect(k, b, c))
      && CancelEffect(k, b, c).id == c.commandId
  {
  }

  lemma CommandSound(k: Symbol, payload: Bytes, kind: nat)
    requires WireOk(k.protocol) && (k.protocol.decodeOrder(payload).Some? || k.protocol.decodeControl(payload).Some?)
    requires kind != TRADE
    ensures AllSound(k.protocol, [Entry(kind, payload)]) && Fits(payload)
  {
  }

  lemma EventsSound(k: Symbol, outcome: Outcome, timestamp: nat, prior: nat, b: Book)
    requires WireOk(k.protocol)
    ensures AllSound(k.protocol, Events(k, outcome, timestamp, prior, b))
  {
  }

  /** Everything a command writes is sound. */
  lemma EffectSound(k: Symbol, b: Book, entry: Entry)
    requires WireOk(k.protocol) && EffectOf(k, b, entry).Some?
    ensures Sound(k.protocol, entry)
    ensures AllSound(k.protocol, EffectOf(k, b, entry).value.events)
      && AllSound(k.protocol, EffectOf(k, b, entry).value.tail)
    ensures forall e :: e in EffectOf(k, b, entry).value.tail ==> Fits(e.payload)
  {
    hide BookSpec.Submit, BookSpec.Cancel, Events, AckOf;
    if entry.kind == ORDER {
      var cmd := k.protocol.decodeOrder(entry.payload).value.command;
      var (b', outcome) := BookSpec.Submit(k.fees, b, cmd);
      EventsSound(k, outcome, cmd.timestamp, b.bookSequence, b');
    } else {
      var c := k.protocol.decodeControl(entry.payload).value;
      var (b', outcome) := BookSpec.Cancel(b, c.orderId);
      EventsSound(k, outcome, c.timestamp, b.bookSequence, b');
      AckSound(k, c, outcome, b');
    }
  }

  lemma AckSound(k: Symbol, c: ControlCommand, outcome: Outcome, b: Book)
    requires WireOk(k.protocol)
    ensures Sound(k.protocol, Entry(ACK, AckOf(k, c, outcome, b)))
  {
  }

  /** An order that is not a repeat is answered. */
  lemma HasStatus(fees: FeeResolver, b: Book, cmd: OrderCommand)
    requires !Duplicate(b, cmd)
    ensures BookSpec.Submit(fees, b, cmd).1.statuses != []
  {
  }

  /** The answer to an order or a cancel is the reply cached under its id afterwards. */
  lemma AnswerCached(k: Symbol, s: System, p: Running, entry: Entry)
    requires Asks(k, entry) && s.process == Some(p) && p.volatile.Keys !! p.engine.replies.controls.Keys
    requires entry.kind == ORDER ==> p.engine.book.seen <= p.engine.replies.orders.Keys
    ensures var t, id := Serving(k, s, p, entry), Addressed(k, entry).value;
      && t.process.Some? && |t.answers| == |s.answers| + 1
      && var q, answer := t.process.value, t.answers[|s.answers|];
         if entry.kind == ORDER then id in q.engine.replies.orders && answer.reply == q.engine.replies.orders[id]
         else
           id in q.engine.replies.controls + q.volatile
           && answer.reply == (q.engine.replies.controls + q.volatile)[id]
  {
    hide EffectOf;
    if entry.kind == ORDER {
      if EffectOf(k, p.engine.book, entry).Some? {
        OrderId(k, p.engine.book, entry);
      } else if Addressed(k, entry).value !in p.engine.book.seen {
        OrderHasEffect(k, p.engine.book, entry);
      }
    } else {
      CancelHasEffect(k, p.engine.book, entry);
    }
  }

  class SymbolEngine {
    const k: Symbol
    const journal: Journal
    const book: OrderBook
    var records: seq<Record>
    var orderReplies: map<string, Bytes>
    var controlReplies: map<string, Bytes>
    var journalSequence: nat

    /** Everything the publisher was called with. */
    var published: seq<PublishedEvent>

    /**
     The cached control replies: acknowledged cancels are journalled, replies to
     replay and snapshot requests are not.
     */
    ghost var journalled: map<string, Bytes>
    ghost var volatile: map<string, Bytes>

    /** The engine over a file with these contents, before it is restored. */
    constructor (k: Symbol, contents: Bytes, capacity: nat)
      ensures this.k == k && records == [] && orderReplies == map[] && controlReplies == map[]
      ensures journalled == map[] && volatile == map[]
      ensures journalSequence == 0 && published == []
      ensures fresh(journal) && journal.Valid() && journal.file == contents
      ensures fresh(book) && fresh(book.storage) && book.Valid() && book.fees == k.fees && book.Abs() == Empty(capacity)
    {
      this.k := k;
      journal := new Journal(contents);
      book := new OrderBook(capacity, k.fees);
      records, orderReplies, controlReplies, journalSequence, published := [], map[], map[], 0, [];
      journalled, volatile := map[], map[];
    }

    /** The records in memory are the ones on disk. */
    ghost predicate Logged()
      reads this, journal
    {
      && journal.Valid() && Numbered(records) && journalSequence == |records|
      && journal.file == EncodeAll(journal.codec, records)
    }

    ghost predicate Valid()
      reads this, journal, book, book.storage
    {
      && Logged() && AllSound(k.protocol, Entries(records)) && WireOk(k.protocol)
      && book.Valid() && book.fees == k.fees && book.seen <= orderReplies.Keys
      && controlReplies == journalled + volatile && journalled.Keys !! volatile.Keys
    }

    /** The running engine this object stands for. */
    ghost function Abs(): Running
      reads this, book, book.storage
    {
      Running(Engine(book.Abs(), Entries(records), Replies(orderReplies, journalled)), volatile)
    }

    /** This object is the process of system s. */
    ghost predicate Is(s: System)
      reads this, book, book.storage
    {
      s.process == Some(Abs()) && s.durable == Entries(records)
    }

    /** The object is where serving the request takes the system, and published what the system published. */
    ghost predicate Served(s: System, entry: Entry, publish: bool, before: seq<PublishedEvent>)
      requires s.process.Some?
      reads this, book, book.storage
    {
      var t := Serving(k, s, s.process.value, entry);
      && Is(t) && s.published <= t.published
      && published == before + if publish then Sent(Told(t.published[|s.published|..])) else []
    }

    /** The result is the answer the system gives to the request. */
    ghost predicate Answers(s: System, entry: Entry, result: Result)
      requires s.process.Some?
    {
      var t := Serving(k, s, s.process.value, entry);
      |t.answers| == |s.answers| + 1 && result == Ok(t.answers[|s.answers|].reply)
    }

    method Append(kind: nat, payload: Bytes)
      requires Logged() && Fits(payload)
      modifies this`records, this`journalSequence, journal
      ensures Logged() && Entries(records) == old(Entries(records)) + [Entry(kind, payload)]
    {
      journalSequence := journalSequence + 1;
      var ok := journal.Append(kind, journalSequence, payload);
      ghost var r := Record(kind, journalSequence, payload);
      EntriesSnoc(records, r);
      EncodeAllSnoc(journal.codec, records, r);
      records := records + [Record(kind, journalSequence, payload)];
    }

    /** The records of a result: trades, statuses, and the book if it moved. */
    method EncodeResult(result: Outcome, timestamp: nat, prior: nat) returns (events: seq<Entry>)
      requires book.Valid()
      ensures events == Events(k, result, timestamp, prior, book.Abs())
    {
      hide OrderBook.Valid, Orders, Flat, Grouped, Top;
      events := [];
      var i: nat := 0;
      while i < |result.trades|
        invariant i <= |result.trades| && events == TradeEntries(k, result.trades[..i])
      {
        events := events + [Entry(TRADE, k.protocol.encodeTrade(k.pair, result.trades[i]))];
        i := i + 1;
      }
      assert result.trades[..i] == result.trades;
      i := 0;
      while i < |result.statuses|
        invariant i <= |result.statuses|
        invariant events == TradeEntries(k, result.trades) + StatusEntries(k, result.statuses[..i])
      {
        events := events + [Entry(STATUS, k.protocol.encodeStatus(result.statuses[i]))];
        i := i + 1;
      }
      assert result.statuses[..i] == result.statuses;
      if book.bookSequence != prior {
        var snapshot := book.Snapshot(DEPTH);
        events := events + [Entry(BOOK, k.protocol.encodeSnapshot(k.pair, timestamp, snapshot))];
      }
    }

    /** Each event is appended before it is published. */
    method PersistAndPublish(events: seq<Entry>, publish: bool)
      requires Logged() && AllSound(k.protocol, events)
      modifies this`records, this`journalSequence, this`published, journal
      ensures Logged() && Entries(records) == old(Entries(records)) + events
      ensures published == old(published) + if publish then Sent(events) else []
    {
      hide EncodeAll, Numbered, Entries, Sent;
      var i: nat := 0;
      NothingSent();
      while i < |events|
        invariant i <= |events| && Logged() && Entries(records) == old(Entries(records)) + events[..i]
        invariant published == old(published) + if publish then Sent(events[..i]) else []
      {
        assert Sound(k.protocol, events[i]);
        Append(events[i].kind, events[i].payload);
        assert events[..i + 1] == events[..i] + [events[i]];
        SentSnoc(events[..i], events[i]);
        if publish {
          published := published + [PublishedEvent(TopicOf(events[i].kind), events[i].payload)];
        }
        i := i + 1;
      }
      assert events[..i] == events;
    }

    /** Executes an order. */
    method Place(cmd: OrderCommand) returns (events: seq<Entry>, reply: Bytes)
      requires book.Valid() && book.fees == k.fees && !Duplicate(book.Abs(), cmd)
      modifies book, book.storage
      ensures book.Valid()
      ensures OrderEffect(k, old(book.Abs()), cmd) == Some(Effect(book.Abs(), events, [], cmd.id, reply))
    {
      hide OrderBook.Valid, Orders, Flat, BookSpec.Submit, Events;
      var prior := book.bookSequence;
      HasStatus(k.fees, book.Abs(), cmd);
      var result := book.Submit(cmd);
      events := EncodeResult(result, cmd.timestamp, prior);
      reply := k.protocol.encodeStatus(result.statuses[|result.statuses| - 1]);
    }

    /** Executes a cancel. */
    method Drop(c: ControlCommand) returns (events: seq<Entry>, ack: Bytes)
      requires book.Valid() && book.fees == k.fees
      modifies book, book.storage
      ensures book.Valid()
      ensures CancelEffect(k, old(book.Abs()), c) == Effect(book.Abs(), events, [Entry(ACK, ack)], c.commandId, ack)
    {
      hide OrderBook.Valid, Orders, Flat, BookSpec.Cancel, Events;
      var prior := book.bookSequence;
      var result := book.Cancel(c.orderId);
      events := EncodeResult(result, c.timestamp, prior);
      var accepted := result.statuses != [];
      var sequence := if accepted then result.statuses[|result.statuses| - 1].sequence else book.statusSequence;
      ack := k.protocol.encodeAck(c.commandId, c.timestamp, accepted, sequence, if accepted then ""
        else "order is not open");
    }

    /** Journals, executes, publishes and answers a new order. */
    method Execute(payload: Bytes, cmd: OrderCommand, publish: bool, ghost s: System) returns (reply: Bytes)
      requires Valid() && Is(s) && k.protocol.decodeOrder(payload) == Some(DecodedOrder(k.pair, cmd))
      requires cmd.id !in orderReplies
      modifies this, journal, book, book.storage
      ensures Valid() && Served(s, Entry(ORDER, payload), publish, old(published))
      ensures cmd.id in orderReplies && reply == orderReplies[cmd.id]
    {
      hide OrderBook.Valid, Orders, Flat, Events, OrderEffect, EncodeAll, Numbered, WireOk, Fits, Serving, Entries,
        Sent;
      hide AllSound, Sound, Told, Announced;
      ghost var entry, b := Entry(ORDER, payload), book.Abs();
      CommandSound(k, payload, ORDER);
      AllSoundConcat(k.protocol, s.durable, [entry]);
      Append(ORDER, payload);
      var events;
      events, reply := Place(cmd);
      ghost var e := Effect(book.Abs(), events, [], cmd.id, reply);
      assert EffectOf(k, b, entry) == Some(e);
      EffectSound(k, b, entry);
      PersistAndPublish(events, publish);
      orderReplies := orderReplies[cmd.id := reply];
      EffectSeen(k, b, entry);
      ServingRuns(k, s, s.process.value, entry, e);
      Spliced(s.durable, entry, events, []);
      Said(events, |s.durable|, s.published);
      ghost var t := Serving(k, s, s.process.value, entry);
      assert Entries(records) == t.durable;
      assert Abs() == t.process.value;
      assert s.published <= t.published;
      AllSoundConcat(k.protocol, s.durable + [entry], events);
    }

    method Submit(payload: Bytes, publish: bool, ghost s: System) returns (result: Result)
      requires Valid() && Is(s)
      modifies this, journal, book, book.storage
      ensures Valid() && Served(s, Entry(ORDER, payload), publish, old(published))
      ensures match Addressed(k, Entry(ORDER, payload))
        case None => result.Error?
        case Some(id) => id in orderReplies && result == Ok(orderReplies[id])
      ensures Asks(k, Entry(ORDER, payload)) ==> Answers(s, Entry(ORDER, payload), result)
    {
      hide OrderBook.Valid, Orders, Flat, Events, BookSpec.Submit, EncodeAll, Numbered, WireOk, Fits;
      if Asks(k, Entry(ORDER, payload)) {
        AnswerCached(k, s, s.process.value, Entry(ORDER, payload));
      }
      ghost var t := Serving(k, s, s.process.value, Entry(ORDER, payload));
      var decoded := k.protocol.decodeOrder(payload);
      if decoded.None? {
        assert t.published[|s.published|..] == [];
        return Error(Malformed);
      }
      if decoded.value.pair != k.pair {
        assert t.published[|s.published|..] == [];
        return Error(WrongPartition);
      }
      var cmd := decoded.value.command;
      if cmd.id in orderReplies {
        assert t.published[|s.published|..] == [];
        return Ok(orderReplies[cmd.id]);
      }
      var reply := Execute(payload, cmd, publish, s);
      result := Ok(reply);
    }

    /** Publishes the journalled trades from a sequence number on. */
    method Replay(fromSequence: nat, publish: bool)
      requires AllSound(k.protocol, Entries(records))
      modifies this`published
      ensures published == old(published)
        + if publish then Sent(Told(ReplayFrom(k, Entries(records), fromSequence, 0))) else []
    {
      hide Fits, Sent, Told;
      NothingSent();
      if !publish {
        return;
      }
      ghost var entries := Entries(records);
      ghost var all := Sent(Told(ReplayFrom(k, entries, fromSequence, 0)));
      var i: nat := 0;
      while i < |records|
        invariant i <= |records|
        invariant old(published) + all == published + Sent(Told(ReplayFrom(k, entries, fromSequence, i)))
      {
        assert Sound(k.protocol, entries[i]);
        ReplayStep(k, entries, fromSequence, i);
        if records[i].kind == TRADE && k.protocol.tradeSequence(records[i].payload).value >= fromSequence {
          published := published + [PublishedEvent("trade", records[i].payload)];
        }
        i := i + 1;
      }
      NothingTold();
    }

    /** Publishes what a replay or snapshot request asks for. */
    method Show(c: ControlCommand, publish: bool, ghost commands: nat) returns (sequence: nat)
      requires !c.kind.CancelOrder? && book.Valid() && AllSound(k.protocol, Entries(records))
      modifies this`published
      ensures sequence == if c.kind.ReplayTrades? then book.tradeSequence else book.bookSequence
      ensures published == old(published) + if publish then Sent(Told(Shown(k, Abs(), c, commands))) else []
    {
      hide OrderBook.Valid, OrderBook.Abs, Sound, AllSound, Entries, Sent, Told, ReplayFrom, SnapshotOf, PictureOf;
      if c.kind.ReplayTrades? {
        Replay(c.fromSequence, publish);
        sequence := book.tradeSequence;
      } else {
        var snapshot := book.Snapshot(DEPTH);
        PictureTold(k, commands, c.timestamp, book.Abs());
        if publish {
          published := published
            + [PublishedEvent("order_book", k.protocol.encodeSnapshot(k.pair, c.timestamp, snapshot))];
        }
        sequence := book.bookSequence;
      }
    }

    /** A replay or snapshot request: answered, cached, not journalled. */
    method Look(payload: Bytes, c: ControlCommand, publish: bool, ghost s: System) returns (reply: Bytes)
      requires Valid() && Is(s) && k.protocol.decodeControl(payload) == Some(c) && c.pair == k.pair
      requires !c.kind.CancelOrder? && c.commandId !in controlReplies
      modifies this
      ensures Valid() && Served(s, Entry(CANCEL, payload), publish, old(published))
      ensures c.commandId in controlReplies && reply == controlReplies[c.commandId]
    {
      hide OrderBook.Valid, Orders, Flat, Events, EncodeAll, Numbered, WireOk, Sound, Entries, Sent, Told, ReplayFrom,
        SnapshotOf;
      hide Serving, AllSound, Fits, Shown;
      ServingLooks(k, s, s.process.value, payload, c);
      var sequence := Show(c, publish, |s.history|);
      reply := k.protocol.encodeAck(c.commandId, c.timestamp, true, if sequence > 1 then sequence else 1, "");
      MergeNew(journalled, volatile, c.commandId, reply);
      controlReplies := controlReplies[c.commandId := reply];
      volatile := volatile[c.commandId := reply];
    }

    /** Journals, executes, publishes and acknowledges a cancel. */
    method Perform(payload: Bytes, c: ControlCommand, publish: bool) returns (reply: Bytes)
      requires Logged() && WireOk(k.protocol) && book.Valid() && book.fees == k.fees
      requires k.protocol.decodeControl(payload) == Some(c) && c.pair == k.pair && c.kind.CancelOrder?
      modifies this`records, this`journalSequence, this`published, journal, book, book.storage
      ensures Logged() && book.Valid()
      ensures var e := CancelEffect(k, old(book.Abs()), c);
        && book.Abs() == e.book && reply == e.reply
        && Entries(records) == old(Entries(records)) + ([Entry(CANCEL, payload)] + e.Outputs())
        && published == old(published) + if publish then Sent(e.events) else []
    {
      hide OrderBook.Valid, OrderBook.Abs, Events, CancelEffect, EncodeAll, Numbered, WireOk, Fits, Entries, Sent;
      hide AllSound, Sound;
      ghost var entry, b, before := Entry(CANCEL, payload), book.Abs(), Entries(records);
      CommandSound(k, payload, CANCEL);
      Append(CANCEL, payload);
      var events;
      events, reply := Drop(c);
      ghost var tail := [Entry(ACK, reply)];
      assert EffectOf(k, b, entry) == Some(Effect(book.Abs(), events, tail, c.commandId, reply));
      EffectSound(k, b, entry);
      PersistAndPublish(events, publish);
      assert tail[0] in tail;
      Append(ACK, reply);
      Spliced(before, entry, events, tail);
    }

    /** A cancel with a new id. */
    method Withdraw(payload: Bytes, c: ControlCommand, publish: bool, ghost s: System) returns (reply: Bytes)
      requires Valid() && Is(s) && k.protocol.decodeControl(payload) == Some(c) && c.pair == k.pair
      requires c.kind.CancelOrder? && c.commandId !in controlReplies
      modifies this, journal, book, book.storage
      ensures Valid() && Served(s, Entry(CANCEL, payload), publish, old(published))
      ensures c.commandId in controlReplies && reply == controlReplies[c.commandId]
    {
      hide OrderBook.Valid, Orders, Flat, Events, EncodeAll, Numbered, WireOk, Fits, Serving, Entries, Sent;
      hide AllSound, Sound, Told, Announced, CancelEffect, EffectOf, Effect.Outputs;
      ghost var entry, b := Entry(CANCEL, payload), book.Abs();
      ghost var e := CancelEffect(k, b, c);
      CancelIsEffect(k, b, payload, c);
      EffectSeen(k, b, entry);
      BlockSound(k, b, entry, s.durable);
      ServingRuns(k, s, s.process.value, entry, e);
      Said(e.events, |s.durable|, s.published);
      MergeNew(journalled, volatile, c.commandId, e.reply);
      reply := Perform(payload, c, publish);
      controlReplies := controlReplies[c.commandId := reply];
      journalled := journalled[c.commandId := reply];
      assert Abs() == Serving(k, s, s.process.value, entry).process.value;
    }

    method Control(payload: Bytes, publish: bool, ghost s: System) returns (result: Result)
      requires Valid() && Is(s)
      modifies this, journal, book, book.storage
      ensures Valid() && Served(s, Entry(CANCEL, payload), publish, old(published))
      ensures match Addressed(k, Entry(CANCEL, payload))
        case None => result.Error?
        case Some(id) => id in controlReplies && result == Ok(controlReplies[id])
      ensures Asks(k, Entry(CANCEL, payload)) ==> Answers(s, Entry(CANCEL, payload), result)
    {
      hide OrderBook.Valid, OrderBook.Abs, Events, BookSpec.Cancel, EncodeAll, Numbered, WireOk, Fits, Shown;
      if Asks(k, Entry(CANCEL, payload)) {
        AnswerCached(k, s, s.process.value, Entry(CANCEL, payload));
      }
      ghost var t := Serving(k, s, s.process.value, Entry(CANCEL, payload));
      var decoded := k.protocol.decodeControl(payload);
      if decoded.None? {
        assert t.published[|s.published|..] == [];
        return Error(Malformed);
      }
      var c := decoded.value;
      if c.pair != k.pair {
        assert t.published[|s.published|..] == [];
        return Error(WrongPartition);
      }
      if c.commandId in controlReplies {
        assert t.published[|s.published|..] == [];
        return Ok(controlReplies[c.commandId]);
      }
      var reply;
      if c.kind.CancelOrder? {
        reply := Withdraw(payload, c, publish, s);
      } else {
        reply := Look(payload, c, publish, s);
      }
      result := Ok(reply);
    }

    /** Re-executes a journalled command. */
    method Redo(entry: Entry) returns (outputs: seq<Entry>, id: string, reply: Bytes, failure: Option<Failure>)
      requires book.Valid() && book.fees == k.fees
      modifies book, book.storage
      ensures failure.None? <==> EffectOf(k, old(book.Abs()), entry).Some?
      ensures failure.None? ==> book.Valid()
      ensures failure.None? ==>
        var e := EffectOf(k, old(book.Abs()), entry).value;
        book.Abs() == e.book && outputs == e.Outputs() && id == e.id && reply == e.reply
    {
      hide OrderBook.Valid, Orders, Flat, BookSpec.Submit, Events, CancelEffect;
      outputs, id, reply, failure := [], "", [], None;
      if entry.kind == ORDER {
        var decoded := k.protocol.decodeOrder(entry.payload);
        if decoded.None? {
          failure := Some(Malformed);
          return;
        }
        if decoded.value.pair != k.pair {
          failure := Some(AnotherSymbol);
          return;
        }
        outputs, reply, failure := RedoOrder(decoded.value.command);
        id := decoded.value.command.id;
        assert outputs + [] == outputs;
      } else if entry.kind == CANCEL {
        var decoded := k.protocol.decodeControl(entry.payload);
        if decoded.None? {
          failure := Some(Malformed);
          return;
        }
        var c := decoded.value;
        if !c.kind.CancelOrder? || c.pair != k.pair {
          failure := Some(AnotherSymbol);
          return;
        }
        id := c.commandId;
        outputs, reply := Drop(c);
        outputs := outputs + [Entry(ACK, reply)];
      } else {
        failure := Some(NotACommand);
      }
    }

    method RedoOrder(cmd: OrderCommand) returns (events: seq<Entry>, reply: Bytes, failure: Option<Failure>)
      requires book.Valid() && book.fees == k.fees
      modifies book, book.storage
      ensures failure.None? <==> OrderEffect(k, old(book.Abs()), cmd).Some?
      ensures failure.None? ==> book.Valid()
      ensures failure.None? ==>
        OrderEffect(k, old(book.Abs()), cmd) == Some(Effect(book.Abs(), events, [], cmd.id, reply))
    {
      hide OrderBook.Valid, Orders, Flat, BookSpec.Submit, Events;
      var prior := book.bookSequence;
      var result := book.Submit(cmd);
      events := EncodeResult(result, cmd.timestamp, prior);
      reply, failure := [], None;
      if result.statuses == [] {
        failure := Some(NoStatus);
      } else {
        reply := k.protocol.encodeStatus(result.statuses[|result.statuses| - 1]);
      }
    }

    /** Checks the outputs against the records from `index` on, and appends those that are missing at the end. */
    method Check(outputs: seq<Entry>, index: nat) returns (ok: bool)
      requires Logged() && AllSound(k.protocol, outputs) && index <= |records|
      modifies this`records, this`journalSequence, journal
      ensures Logged()
      ensures var rest := old(Entries(records))[index..];
        && ok == Agrees(rest, outputs)
        && (ok ==> Entries(records) == old(Entries(records))[..index] + outputs + Remaining(rest, outputs))
    {
      hide EncodeAll, Numbered, Entries, AllSound, SymbolEngine.Logged, Fits;
      ghost var before, rest := Entries(records), Entries(records)[index..];
      var j: nat := 0;
      while j < |outputs|
        invariant j <= |outputs| && Logged()
        invariant Entries(records) == before + if j <= |rest| then [] else outputs[|rest|..j]
        invariant if j <= |rest| then rest[..j] == outputs[..j] else rest == outputs[..|rest|]
      {
        SoundAt(k.protocol, outputs, j);
        if index + j >= |records| {
          Append(outputs[j].kind, outputs[j].payload);
        } else if Entry(records[index + j].kind, records[index + j].payload) != outputs[j] {
          assert rest[j] != outputs[j];
          return false;
        }
        j := j + 1;
      }
      ok := true;
      assert before == before[..index] + rest;
      assert outputs[..j] == outputs;
    }

    /** The engine after the records before `index`, with the replies of their commands. */
    ghost predicate Midway(index: nat, commands: seq<Entry>, all: Option<Restored>)
      reads this, journal, book, book.storage
    {
      && Logged() && WireOk(k.protocol) && book.Valid() && book.fees == k.fees && book.seen <= orderReplies.Keys
      && index <= |records| && AllSound(k.protocol, Entries(records)[..index])
      && journalled == controlReplies && volatile == map[]
      && all == Resume(Entries(records)[..index], commands,
                       EngineSpec.Restore(k, book.Abs(), Entries(records)[index..],
                                          Replies(orderReplies, controlReplies)))
    }

    /** One command of the recovery loop. */
    method RestoreOne(index: nat, ghost commands: seq<Entry>, ghost all: Option<Restored>)
      returns (index': nat, failure: Option<Failure>, ghost commands': seq<Entry>)
      requires Midway(index, commands, all) && index < |records|
      modifies this, journal, book, book.storage
      ensures published == old(published)
      ensures if failure.None? then Midway(index', commands', all) && |records| - index' < old(|records|) - index
        else all.None?
    {
      hide OrderBook.Valid, Orders, Flat, EncodeAll, Numbered, WireOk, Sound, AllSound, Fits, EffectOf,
        EngineSpec.Restore, Entries;
      hide Agrees, Remaining, Resume;
      var entry := Entry(records[index].kind, records[index].payload);
      ghost var b, entries := book.Abs(), Entries(records);
      ghost var rest, r := entries[index..], Replies(orderReplies, controlReplies);
      assert rest[0] == entry && rest[1..] == entries[index + 1..];
      index', commands' := index, commands;
      var outputs, id, reply;
      outputs, id, reply, failure := Redo(entry);
      if failure.Some? {
        RestoreRefused(k, b, rest, r);
        return;
      }
      ghost var e := EffectOf(k, b, entry).value;
      RestoreStep(k, b, rest, r);
      EffectSeen(k, b, entry);
      BlockSound(k, b, entry, entries[..index]);
      EffectKind(k, b, entry);
      OutputsSound(k, b, entry);
      var ok := Check(outputs, index + 1);
      if !ok {
        failure := Some(Diverged);
        return;
      }
      if entry.kind == ORDER {
        orderReplies := orderReplies[id := reply];
      } else {
        controlReplies := controlReplies[id := reply];
        journalled := controlReplies;
      }
      index', commands' := index + 1 + |outputs|, commands + [entry];
      ghost var remaining := Remaining(rest[1..], outputs);
      Advanced(entries, index, entry, outputs, remaining);
      assert Entries(records)[..index'] == entries[..index] + ([entry] + outputs);
      assert Entries(records)[index'..] == remaining;
      ResumeTwice(entries[..index], commands, [entry] + outputs, [entry],
                  EngineSpec.Restore(k, e.book, remaining, Answered(r, entry, e)));
    }

    /** Reads the journal back and re-executes its commands. */
    method Restore() returns (failure: Option<Failure>)
      requires records == [] && journalSequence == 0 && orderReplies == map[] && controlReplies == map[]
      requires journalled == map[] && volatile == map[] && WireOk(k.protocol)
      requires journal.Valid() && |journal.file| < Framing.U64
      requires book.Valid() && book.fees == k.fees && book.seen == {}
      modifies this, journal, book, book.storage
      ensures published == old(published)
      ensures failure.None? <==> Recoverable(k, old(book.Abs()), journal.codec, old(journal.file)).Some?
      ensures failure.None? ==>
        var r := Recoverable(k, old(book.Abs()), journal.codec, old(journal.file)).value;
        Valid() && Abs() == Running(Engine(r.book, r.journal, r.replies), map[])
    {
      hide OrderBook.Valid, Orders, Flat, EncodeAll, Numbered, WireOk, Sound, Fits, EffectOf, EngineSpec.Restore,
        Entries, Parse;
      var recovered := journal.Recover();
      ghost var all := Recoverable(k, book.Abs(), journal.codec, journal.file);
      if recovered.Failed? {
        return Some(Unreadable(recovered.error));
      }
      RecoveredLog(journal.codec, journal.file);
      records := recovered.records;
      if records != [] {
        journalSequence := records[|records| - 1].sequence;
      }
      NothingResumed(k, book.Abs(), Entries(records));
      ghost var commands := [];
      var index: nat := 0;
      while index < |records|
        invariant Midway(index, commands, all) && published == old(published)
        decreases |records| - index
      {
        index, failure, commands := RestoreOne(index, commands, all);
        if failure.Some? {
          return;
        }
      }
      assert Entries(records)[..index] == Entries(records);
      RestoredAll(k, book.Abs(), Entries(records), commands, Replies(orderReplies, controlReplies));
      failure := None;
    }

    /** Starts an engine over an existing file. */
    static method Open(k: Symbol, contents: Bytes, capacity: nat)
      returns (engine: SymbolEngine?, failure: Option<Failure>)
      requires WireOk(k.protocol) && |contents| < Framing.U64
      ensures (engine != null) <==> k.pair != "" && Recoverable(k, Empty(capacity), DISK, contents).Some?
      ensures engine != null ==> fresh(engine) && engine.k == k && engine.Valid() && engine.published == []
      ensures engine != null ==>
        var r := Recoverable(k, Empty(capacity), DISK, contents).value;
        engine.Abs() == Running(Engine(r.book, r.journal, r.replies), map[])
    {
      engine, failure := null, None;
      if k.pair == "" {
        failure := Some(WrongPartition);
        return;
      }
      var e := new SymbolEngine(k, contents, capacity);
      CodecIsDisk(e.journal);
      failure := e.Restore();
      if failure.None? {
        engine := e;
      }
    }
  }

  lemma NothingSent()
    ensures Sent([]) == []
  {
  }

  lemma SoundAt(p: Protocol, entries: seq<Entry>, i: nat)
    requires AllSound(p, entries) && i < |entries|
    ensures Fits(entries[i].payload)
  {
    assert Sound(p, entries[i]);
  }

  lemma AllSoundConcat(p: Protocol, left: seq<Entry>, right: seq<Entry>)
    requires AllSound(p, left) && AllSound(p, right)
    ensures AllSound(p, left + right)
  {
  }

  /** A journal stays sound when a command and its outputs are appended. */
  lemma BlockSound(k: Symbol, b: Book, entry: Entry, before: seq<Entry>)
    requires WireOk(k.protocol) && EffectOf(k, b, entry).Some? && AllSound(k.protocol, before)
    ensures AllSound(k.protocol, before + ([entry] + EffectOf(k, b, entry).value.Outputs()))
  {
    hide WireOk, EffectOf, Sound;
    EffectSound(k, b, entry);
  }

  lemma MergeNew(a: map<string, Bytes>, b: map<string, Bytes>, id: string, reply: Bytes)
    requires id !in a + b
    ensures (a + b)[id := reply] == a[id := reply] + b == a + b[id := reply]
  {
  }

  lemma NothingTold()
    ensures Sent(Told([])) == []
  {
  }

  /** One journal position of a replay. */
  lemma ReplayStep(k: Symbol, entries: seq<Entry>, from: nat, i: nat)
    requires i < |entries|
    ensures Sent(Told(ReplayFrom(k, entries, from, i)))
         == (if entries[i].kind == TRADE && IsFrom(k, entries[i].payload, from)
             then [PublishedEvent("trade", entries[i].payload)] else [])
            + Sent(Told(ReplayFrom(k, entries, from, i + 1)))
  {
  }

  lemma EffectKind(k: Symbol, b: Book, entry: Entry)
    requires EffectOf(k, b, entry).Some?
    ensures entry.kind == ORDER || entry.kind == CANCEL
  {
  }

  lemma OutputsSound(k: Symbol, b: Book, entry: Entry)
    requires WireOk(k.protocol) && EffectOf(k, b, entry).Some?
    ensures AllSound(k.protocol, EffectOf(k, b, entry).value.Outputs())
  {
    hide WireOk, EffectOf, Sound;
    EffectSound(k, b, entry);
  }

  lemma RestoreRefused(k: Symbol, b: Book, records: seq<Entry>, r: Replies)
    requires records != [] && EffectOf(k, b, records[0]).None?
    ensures Restore(k, b, records, r).None?
  {
  }

  /** The records once a command's outputs are checked or appended. */
  lemma Advanced(entries: seq<Entry>, index: nat, entry: Entry, outputs: seq<Entry>, remaining: seq<Entry>)
    requires index < |entries| && entries[index] == entry
    ensures var after := entries[..index + 1] + outputs + remaining;
      && after[..index + 1 + |outputs|] == entries[..index] + ([entry] + outputs)
      && after[index + 1 + |outputs|..] == remaining
  {
  }

  /** What recovery makes of a journal file. */
  function Recoverable(k: Symbol, b: Book, c: Codec, file: Bytes): Option<Restored> {
    match Parse(c, file, 0)
    case Failed(_) => None
    case Records(records) => Restore(k, b, Entries(records), NO_REPLIES)
  }

  lemma CodecIsDisk(journal: Journal)
    requires journal.Valid()
    ensures journal.codec == DISK && Framing.Lawful(journal.codec)
  {
    assert IsDiskAt(journal.codec, 0);
    DiskLawful();
  }

  lemma {:induction false} FewRecords(c: Codec, file: Bytes, previous: nat)
    requires Parse(c, file, previous).Records?
    ensures |Parse(c, file, previous).records| <= |file|
    decreases |file|
  {
    hide ParseFrame;
    if file != [] {
      var r := ParseFrame(c, file, previous).record;
      FewRecords(c, file[HEADER_SIZE + |r.payload|..], r.sequence);
    }
  }

  /** Records read from a file are numbered from one, and writing them gives the file. */
  lemma RecoveredLog(c: Codec, file: Bytes)
    requires IsDisk(c) && Parse(c, file, 0).Records? && |file| < Framing.U64
    ensures var records := Parse(c, file, 0).records;
      && Numbered(records) && EncodeAll(c, records) == file
      && (records != [] ==> records[|records| - 1].sequence == |records|)
  {
    hide Parse, EncodeAll;
    assert IsDiskAt(c, 0);
    DiskLawful();
    FewRecords(c, file, 0);
    RecoverIsExact(c, file, 0);
  }

  lemma NothingResumed(k: Symbol, b: Book, entries: seq<Entry>)
    ensures Resume(entries[..0], [], Restore(k, b, entries[0..], NO_REPLIES)) == Restore(k, b, entries, NO_REPLIES)
  {
    hide Restore;
    assert entries[0..] == entries;
    var rest := Restore(k, b, entries, NO_REPLIES);
    if rest.Some? {
      assert [] + rest.value.journal == rest.value.journal && [] + rest.value.commands == rest.value.commands;
    }
  }

  lemma RestoredAll(k: Symbol, b: Book, entries: seq<Entry>, commands: seq<Entry>, r: Replies)
    ensures Resume(entries, commands, Restore(k, b, [], r)) == Some(Restored(b, entries, commands, r))
  {
    assert entries + [] == entries && commands + [] == commands;
  }
}
