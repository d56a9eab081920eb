/** The market-data consumer: it reads published events into the store until one fails. */
module Consumers {
  import opened Arithmetic
  import opened Octets
  import opened Options
  import opened Text
  import opened BookTypes
  import opened Candles
  import opened EngineSpec
  import R = Reservations
  import TradeStream

  const MAX_IDENTIFIER: nat := 128
  const MAX_PAIR: nat := 20
  const MAX_INT64: nat := 0x7FFF_FFFF_FFFF_FFFF

  /** Midnight UTC of 1 January 1970. */
  const UNIX_EPOCH: Time := 719162 * DAY

  /** All market data is quoted at eight decimals. */
  const SCALES := R.PairRules(8, 8, 8)
  const UNIT: nat := 1_0000_0000

  datatype TradeEvent = TradeEvent(pair: string, trade: Trade)

  /** What the consumer looks things up with: wire decoding, the side column of the order rows, the payload hash. */
  datatype Reader = Reader(
    decodeTrade: Bytes -> Option<TradeEvent>,
    decodeBook: Bytes -> Option<(string, nat)>,
    takerSide: string -> Option<Side>,
    hash: Bytes -> Bytes)

  predicate ValidIdentifier(id: string) {
    0 < |id| <= MAX_IDENTIFIER
  }

  predicate ValidEvent(e: TradeEvent) {
    && e.trade.sequence != 0 && 0 < |e.pair| <= MAX_PAIR
    && ValidIdentifier(e.trade.makerId) && ValidIdentifier(e.trade.takerId)
    && ValidIdentifier(e.trade.makerUser) && ValidIdentifier(e.trade.takerUser)
    && e.trade.price != 0 && e.trade.quantity != 0
  }

  function SideName(side: Side): string {
    if side.Buy? then "BUY" else "SELL"
  }

  /** The trade to store; None where the consumer stops with an error before it reaches the store. */
  function Read(r: Reader, payload: Bytes): Option<TradeStream.Trade> {
    match r.decodeTrade(payload)
    case None => None
    case Some(e) =>
      var t := e.trade;
      if !ValidEvent(e) || t.timestamp > MAX_INT64 then None
      else
        match (r.takerSide(t.takerId), R.QuoteAmount(t.price, t.quantity, SCALES))
        case (Some(side), Some(quote)) =>
          Some(TradeStream.Trade(e.pair, t.sequence, UNIX_EPOCH + t.timestamp, t.price, t.quantity, quote,
                                 SideName(side), r.hash(payload)))
        case _ => None
  }

  /** What handling one event comes to; a gap asks the engine for a replay and is no failure. */
  datatype Handling = Handled | Gapped(pair: string, from: nat) | Failed

  function HandlingOf(pair: string, reply: TradeStream.Reply): Handling {
    match reply
    case Applied(_) => Handled
    case Repeated => Handled
    case Refused(error) => if error.SequenceGap? then Gapped(pair, error.expected) else Failed
  }

  function Processed(r: Reader, db: TradeStream.Database, e: Entry): (TradeStream.Database, Handling) {
    if e.kind == BOOK then
      match r.decodeBook(e.payload)
      case None => (db, Failed)
      case Some((pair, n)) =>
        var (next, claim) := TradeStream.ClaimBook(db, pair, n);
        (next, if claim.Gap? then Gapped(pair, claim.expected) else Handled)
    else if e.kind == TRADE then
      match Read(r, e.payload)
      case None => (db, Failed)
      case Some(t) => var (next, reply) := TradeStream.Apply(db, t); (next, HandlingOf(t.pair, reply))
    else (db, Handled)
  }

  datatype Ended = Ended(db: TradeStream.Database, failed: bool)

  /** One session: events are processed in order, the first failure ends it. */
  function Session(r: Reader, db: TradeStream.Database, events: seq<Entry>): Ended {
    if events == [] then Ended(db, false)
    else
      var before := Session(r, db, events[..|events| - 1]);
      if before.failed then before
      else
        var (next, handling) := Processed(r, before.db, events[|events| - 1]);
        Ended(next, handling.Failed?)
  }

  lemma {:induction false} FailedStays(r: Reader, db: TradeStream.Database, events: seq<Entry>, n: nat)
    requires n <= |events| && Session(r, db, events[..n]).failed
    ensures Session(r, db, events) == Session(r, db, events[..n])
    decreases |events|
  {
    hide Processed;
    if n == |events| {
      assert events[..n] == events;
    } else {
      assert events[..|events| - 1][..n] == events[..n];
      FailedStays(r, db, events[..|events| - 1], n);
    }
  }

  class Consumer {
    const store: TradeStream.Store
    const reader: Reader

    constructor (store: TradeStream.Store, reader: Reader)
      ensures this.store == store && this.reader == reader
    {
      this.store, this.reader := store, reader;
    }

    method ProcessOrderBook(payload: Bytes) returns (handling: Handling)
      modifies store
      ensures (store.State(), handling) == Processed(reader, old(store.State()), Entry(BOOK, payload))
    {
      var snapshot := reader.decodeBook(payload);
      if snapshot.None? {
        return Failed;
      }
      var (pair, sequence) := snapshot.value;
      var claim := store.ClaimOrderBookSequence(pair, sequence);
      if claim.Gap? {
        return Gapped(pair, claim.expected);
      }
      handling := Handled;
    }

    method ProcessTrade(payload: Bytes) returns (handling: Handling)
      modifies store
      ensures (store.State(), handling) == Processed(reader, old(store.State()), Entry(TRADE, payload))
    {
      hide TradeStream.Apply, R.QuoteAmount;
      var decoded := reader.decodeTrade(payload);
      if decoded.None? || !ValidEvent(decoded.value) || decoded.value.trade.timestamp > MAX_INT64 {
        return Failed;
      }
      var event := decoded.value.trade;
      var side := reader.takerSide(event.takerId);
      if side.None? {
        return Failed;
      }
      var quote := R.QuoteAmount(event.price, event.quantity, SCALES);
      if quote.None? {
        return Failed;
      }
      var trade := TradeStream.Trade(decoded.value.pair, event.sequence, UNIX_EPOCH + event.timestamp, event.price,
                                     event.quantity, quote.value, SideName(side.value), reader.hash(payload));
      var reply := store.ApplyTrade(trade);
      if reply.Refused? {
        handling := if reply.error.SequenceGap? then Gapped(trade.pair, reply.error.expected) else Failed;
      } else {
        handling := Handled;
      }
    }

    method Process(e: Entry) returns (handling: Handling)
      modifies store
      ensures (store.State(), handling) == Processed(reader, old(store.State()), e)
    {
      hide Read;
      if e.kind == BOOK {
        handling := ProcessOrderBook(e.payload);
      } else if e.kind == TRADE {
        handling := ProcessTrade(e.payload);
      } else {
        handling := Handled;
      }
    }

    /** Receives these events; `failed` says that one of them ended the session. */
    method Run(events: seq<Entry>) returns (failed: bool)
      modifies store
      ensures Ended(store.State(), failed) == Session(reader, old(store.State()), events)
    {
      hide Processed;
      for i := 0 to |events|
        invariant Session(reader, old(store.State()), events[..i]) == Ended(store.State(), false)
      {
        var handling := Process(events[i]);
        assert events[..i + 1][..i] == events[..i];
        if handling.Failed? {
          FailedStays(reader, old(store.State()), events, i + 1);
          return true;
        }
      }
      assert events[..|events|] == events;
      failed := false;
    }
  }

  // Which trades can be read.

  /** A trade event the store can take. */
  predicate Storable(r: Reader, pair: string, t: Trade) {
    && ValidEvent(TradeEvent(pair, t)) && TradeStream.ValidPair(pair)
    && t.timestamp <= MAX_INT64 && r.takerSide(t.takerId).Some?
    && t.price * t.quantity >= UNIT
  }

  lemma Pow16()
    ensures Pow10(8) == UNIT && Pow10(16) == UNIT * UNIT
  {
    assert Pow10(2) == 100 && Pow10(4) == 10000 && Pow10(6) == 1000000;
    assert Pow10(10) == 100 * UNIT && Pow10(12) == 10000 * UNIT && Pow10(14) == 1000000 * UNIT;
  }

  /** A quote is the truncated product at eight decimals; it is refused exactly when it would be zero. */
  lemma QuoteExactly(price: nat, quantity: nat)
    ensures R.QuoteAmount(price, quantity, SCALES)
         == if price * quantity >= UNIT then Some(price * quantity / UNIT) else None
  {
    if price > 0 && quantity > 0 {
      Pow16();
      var product := price * quantity;
      DivMod(product, UNIT);
      Quotient(product * UNIT, UNIT * UNIT, product / UNIT, product % UNIT * UNIT);
    }
  }

  /** Reading gives a valid trade exactly for the storable ones, with the number, price and quantity of the event. */
  lemma ReadExactly(r: Reader, payload: Bytes, pair: string, t: Trade)
    requires r.decodeTrade(payload) == Some(TradeEvent(pair, t))
    ensures Storable(r, pair, t) <==> Read(r, payload).Some? && TradeStream.ValidTrade(Read(r, payload).value)
    ensures Read(r, payload).Some? ==>
      var read := Read(r, payload).value;
      && read.pair == pair && read.sequence == t.sequence && read.price == t.price && read.quantity == t.quantity
      && read.quote == t.price * t.quantity / 1_0000_0000
      && read.side == (if r.takerSide(t.takerId).value == Buy then "BUY" else "SELL")
      && read.at == 62_135_596_800_000_000_000 + t.timestamp && read.hash == r.hash(payload)
  {
    hide R.QuoteAmount, TradeStream.ValidPair;
    QuoteExactly(t.price, t.quantity);
  }
}
