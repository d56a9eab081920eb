/** The stored trade stream: sequence claims, trades applied once, minute candles. */
module TradeStream {
  import opened Arithmetic
  import opened Octets
  import opened Options
  import opened Candles
  import opened Text

  datatype Trade = Trade(
    pair: string, sequence: nat, at: Time, price: int, quantity: int, quote: int, side: string, hash: Bytes)

  datatype Stream = Trades | OrderBook
  datatype Progress = Progress(last: nat, replayRequired: bool)

  type Streams = map<(string, Stream), Progress>
  type TradeRows = map<(string, nat), Trade>
  type CandleRows = map<(string, Time), Candle>

  datatype Database = Database(streams: Streams, trades: TradeRows, candles: CandleRows)

  const EMPTY := Database(map[], map[], map[])

  datatype Claim = Accepted | Duplicate | Gap(expected: nat, received: nat)
  datatype Error = InvalidTrade | SequenceConflict | SequenceGap(expected: nat, received: nat) | UniqueViolation
  datatype Reply = Applied(candle: Candle) | Repeated | Refused(error: Error)

  // Trades and minute candles.

  predicate ValidPair(pair: string) {
    var trimmed := Trim(pair);
    0 < |trimmed| <= 20 && forall i | 0 <= i < |trimmed| :: 'A' <= trimmed[i] <= 'Z' || '0' <= trimmed[i] <= '9'
  }

  predicate ValidTrade(t: Trade) {
    && ValidPair(t.pair) && t.sequence != 0 && t.at != 0
    && t.price > 0 && t.quantity > 0 && t.quote > 0 && (t.side == "BUY" || t.side == "SELL")
  }

  function MinuteOf(t: Trade): Time {
    BucketStart(t.at, M1)
  }

  function NewMinuteCandle(t: Trade): Option<Candle> {
    if !ValidTrade(t) then None
    else
      var start := MinuteOf(t);
      Some(Candle(t.pair, M1, start, start
        + MINUTE, t.price, t.price, t.price, t.price, t.quantity, t.quote, 1, t.sequence))
  }

  /** A candle with one more trade; None where the trade does not continue it. */
  function Added(c: Candle, t: Trade): Option<Candle> {
    if !ValidTrade(t) then None
    else if c.pair != t.pair || t.at >= c.closeTime || t.at < c.openTime || t.sequence <= c.sequence then None
    else Some(c.(high := Max(c.high, t.price), low := Min(c.low, t.price), close := t.price,
                 volume := c.volume + t.quantity, quoteVolume := c.quoteVolume + t.quote,
                 count := c.count + 1, sequence := t.sequence))
  }

  method Add(candle: Candle, t: Trade) returns (r: Option<Candle>)
    ensures r == Added(candle, t)
  {
    hide ValidPair;
    if !ValidTrade(t) {
      return None;
    }
    if candle.pair != t.pair || t.at >= candle.closeTime || t.at < candle.openTime || t.sequence <= candle.sequence {
      return None;
    }
    var c := candle;
    if t.price > c.high {
      c := c.(high := t.price);
    }
    if t.price < c.low {
      c := c.(low := t.price);
    }
    c := c.(close := t.price, volume := c.volume + t.quantity, quoteVolume := c.quoteVolume + t.quote);
    c := c.(count := c.count + 1, sequence := t.sequence);
    r := Some(c);
  }

  // The store as functions.

  /** The first sequence must be 1 unless any may start; later ones must follow the last. */
  function Claimed(streams: Streams, key: (string, Stream), n: nat, anyFirst: bool): (Streams, Claim) {
    if key !in streams then
      if anyFirst || n == 1 then (streams[key := Progress(n, false)], Accepted)
      else (streams[key := Progress(0, true)], Gap(1, n))
    else
      var last := streams[key].last;
      if n <= last then (streams, Duplicate)
      else if n != last + 1 then (streams[key := Progress(last, true)], Gap(last + 1, n))
      else (streams[key := Progress(n, false)], Accepted)
  }

  function Known(db: Database, t: Trade): Reply {
    if (t.pair, t.sequence) in db.trades && db.trades[(t.pair, t.sequence)].hash != t.hash
      then Refused(SequenceConflict)
    else Repeated
  }

  /** The candle row after the insert-or-update of a trade. */
  function Upserted(rows: CandleRows, t: Trade): Candle
    requires ValidTrade(t)
  {
    var key := (t.pair, MinuteOf(t));
    if key !in rows then NewMinuteCandle(t).value
    else
      var row := rows[key];
      row.(high := Max(row.high, t.price), low := Min(row.low, t.price), close := t.price,
           volume := row.volume + t.quantity, quoteVolume := row.quoteVolume + t.quote,
           count := row.count + 1, sequence := t.sequence)
  }

  function Apply(db: Database, t: Trade): (Database, Reply) {
    if !ValidTrade(t) then (db, Refused(InvalidTrade))
    else
      var (streams, claim) := Claimed(db.streams, (t.pair, Trades), t.sequence, false);
      match claim
      case Duplicate => (db, Known(db, t))
      case Gap(expected, received) => (db.(streams := streams), Refused(SequenceGap(expected, received)))
      case Accepted =>
        if (t.pair, t.sequence) in db.trades then (db, Refused(UniqueViolation))
        else
          var candle := Upserted(db.candles, t);
          (Database(streams, db.trades[(t.pair, t.sequence) := t], db.candles[(t.pair, MinuteOf(t)) := candle]),
           Applied(candle))
  }

  function ClaimBook(db: Database, pair: string, n: nat): (Database, Claim) {
    var (streams, claim) := Claimed(db.streams, (pair, OrderBook), n, true);
    (db.(streams := streams), claim)
  }

  // The store.

  class Store {
    var streams: Streams
    var trades: TradeRows
    var candles: CandleRows

    constructor ()
      ensures State() == EMPTY
    {
      streams, trades, candles := map[], map[], map[];
    }

    ghost function State(): Database
      reads this
    {
      Database(streams, trades, candles)
    }

    method ClaimSequence(pair: string, stream: Stream, sequence: nat, allowInitialAny: bool) returns (claim: Claim)
      modifies this`streams
      ensures (streams, claim) == Claimed(old(streams), (pair, stream), sequence, allowInitialAny)
    {
      var key := (pair, stream);
      if key !in streams {
        if allowInitialAny || sequence == 1 {
          streams := streams[key := Progress(sequence, false)];
          return Accepted;
        }
        streams := streams[key := Progress(0, true)];
        return Gap(1, sequence);
      }
      var last := streams[key].last;
      if sequence <= last {
        return Duplicate;
      }
      if sequence != last + 1 {
        streams := streams[key := streams[key].(replayRequired := true)];
        return Gap(last + 1, sequence);
      }
      streams := streams[key := Progress(sequence, false)];
      claim := Accepted;
    }

    method ApplyTrade(t: Trade) returns (reply: Reply)
      modifies this
      ensures (State(), reply) == Apply(old(State()), t)
    {
      hide ValidPair, BucketStart;
      if !ValidTrade(t) {
        return Refused(InvalidTrade);
      }
      var saved := streams;
      var claim := ClaimSequence(t.pair, Trades, t.sequence, false);
      if claim.Gap? {
        return Refused(SequenceGap(claim.expected, claim.received));
      }
      var row := (t.pair, t.sequence);
      if claim.Duplicate? {
        if row !in trades {
          return Repeated;
        }
        if trades[row].hash != t.hash {
          return Refused(SequenceConflict);
        }
        return Repeated;
      }
      if row in trades {
        streams := saved;
        return Refused(UniqueViolation);
      }
      trades := trades[row := t];
      var candle := UpsertCandle(t);
      reply := Applied(candle);
    }

    method UpsertCandle(t: Trade) returns (candle: Candle)
      requires ValidTrade(t)
      modifies this`candles
      ensures candle == Upserted(old(candles), t)
      ensures candles == old(candles)[(t.pair, MinuteOf(t)) := candle]
    {
      hide ValidPair, BucketStart;
      var key := (t.pair, MinuteOf(t));
      var minute := NewMinuteCandle(t).value;
      if key in candles {
        var row := candles[key];
        minute := minute.(open := row.open, pair := row.pair, interval := row.interval, openTime := row.openTime,
                          closeTime := row.closeTime, high := Max(row.high, minute.high),
                            low := Min(row.low, minute.low),
                          volume := row.volume + minute.volume, quoteVolume := row.quoteVolume + minute.quoteVolume,
                          count := row.count + 1);
      }
      candles := candles[key := minute];
      candle := minute;
    }

    method ClaimOrderBookSequence(pair: string, sequence: nat) returns (claim: Claim)
      modifies this`streams
      ensures (State(), claim) == ClaimBook(old(State()), pair, sequence)
    {
      claim := ClaimSequence(pair, OrderBook, sequence, true);
    }
  }
}
