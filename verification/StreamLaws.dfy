/** What the trade stream keeps under any loss, duplication or reordering. */
module StreamLaws {
  import opened Arithmetic
  import opened Candles
  import opened TradeStream

  /** The engine's trades of one pair, numbered from 1. */
  predicate Numbered(all: seq<Trade>, pair: string) {
    forall i | 0 <= i < |all| :: ValidTrade(all[i]) && all[i].pair == pair && all[i].sequence == i + 1
  }

  /** What reaches the store; a lost event does not. */
  datatype Delivery = Trading(trade: Trade) | Book(pair: string, sequence: nat) | Lost

  /** One of these trades, one that leaves a gap behind all of them, or no valid trade at all. */
  predicate Fitting(t: Trade, all: seq<Trade>) {
    t in all || t.sequence > |all| + 1 || !ValidTrade(t)
  }

  predicate Genuine(ds: seq<Delivery>, all: seq<Trade>, pair: string) {
    forall i | 0 <= i < |ds| && ds[i].Trading? && ds[i].trade.pair == pair :: Fitting(ds[i].trade, all)
  }

  function Deliver(db: Database, d: Delivery): Database {
    match d
    case Trading(t) => Apply(db, t).0
    case Book(pair, n) => ClaimBook(db, pair, n).0
    case Lost => db
  }

  function Run(db: Database, ds: seq<Delivery>): Database {
    if ds == [] then db else Deliver(Run(db, ds[..|ds| - 1]), ds[|ds| - 1])
  }

  function Last(db: Database, pair: string): nat {
    if (pair, Trades) in db.streams then db.streams[(pair, Trades)].last else 0
  }

  // Folding trades.

  datatype Fold = Nothing | Bar(candle: Candle) | Broken

  /** The minute's candle by adding its trades one by one; broken if one does not continue it. */
  function Folded(trades: seq<Trade>, minute: Time): Fold {
    if trades == [] then Nothing
    else
      var before, t := Folded(trades[..|trades| - 1], minute), trades[|trades| - 1];
      if MinuteOf(t) != minute then before
      else match before
        case Broken => Broken
        case Nothing => (match NewMinuteCandle(t) case None => Broken case Some(c) => Bar(c))
        case Bar(candle) => (match Added(candle, t) case None => Broken case Some(c) => Bar(c))
  }

  function CandleAt(db: Database, pair: string, minute: Time): Fold {
    if (pair, minute) in db.candles then Bar(db.candles[(pair, minute)]) else Nothing
  }

  /** A candle trades of this pair numbered above `n` can go on with. */
  predicate Open(c: Candle, pair: string, minute: Time, n: nat) {
    c.pair == pair && c.openTime == minute && c.closeTime == minute + MINUTE && c.sequence <= n
  }

  lemma WithinMinute(t: Trade)
    ensures MinuteOf(t) <= t.at < MinuteOf(t) + MINUTE
  {
  }

  /** Folding numbered trades never breaks. */
  lemma {:induction false} FoldedOpen(all: seq<Trade>, pair: string, n: nat, minute: Time)
    requires Numbered(all, pair) && n <= |all|
    ensures !Folded(all[..n], minute).Broken?
    ensures Folded(all[..n], minute).Bar? ==> Open(Folded(all[..n], minute).candle, pair, minute, n)
  {
    hide BucketStart, ValidPair;
    if n > 0 {
      FoldedOpen(all, pair, n - 1, minute);
      assert all[..n][..n - 1] == all[..n - 1];
      WithinMinute(all[n - 1]);
    }
  }

  function InMinute(trades: seq<Trade>, minute: Time): seq<Trade> {
    if trades == [] then []
    else
      var before, t := InMinute(trades[..|trades| - 1], minute), trades[|trades| - 1];
      if MinuteOf(t) == minute then before + [t] else before
  }

  function Bought(trades: seq<Trade>): int {
    if trades == [] then 0 else Bought(trades[..|trades| - 1]) + trades[|trades| - 1].quantity
  }

  function Turnover(trades: seq<Trade>): int {
    if trades == [] then 0 else Turnover(trades[..|trades| - 1]) + trades[|trades| - 1].quote
  }

  /** First and last price, extremes and sums of a minute's trades. */
  predicate Charts(c: Candle, trades: seq<Trade>) {
    && trades != [] && c.open == trades[0].price && c.close == trades[|trades| - 1].price
    && (forall i | 0 <= i < |trades| :: c.low <= trades[i].price <= c.high)
    && (exists i | 0 <= i < |trades| :: trades[i].price == c.high)
    && (exists i | 0 <= i < |trades| :: trades[i].price == c.low)
    && c.volume == Bought(trades) && c.quoteVolume == Turnover(trades) && c.count == |trades|
    && c.sequence == trades[|trades| - 1].sequence
  }

  lemma ChartsOne(t: Trade)
    requires ValidTrade(t)
    ensures Charts(NewMinuteCandle(t).value, [t])
  {
  }

  lemma ChartsMore(c: Candle, trades: seq<Trade>, t: Trade)
    requires Charts(c, trades) && Added(c, t).Some?
    ensures Charts(Added(c, t).value, trades + [t])
  {
    hide ValidPair;
    var more := trades + [t];
    assert more[..|trades|] == trades && more[|trades|] == t;
    var h, l :| 0 <= h < |trades| && 0 <= l < |trades| && trades[h].price == c.high && trades[l].price == c.low;
    assert more[h] == trades[h] && more[l] == trades[l];
  }

  /** The folded candle is the chart of the minute's trades; there is none exactly when there are no trades. */
  lemma {:induction false} FoldedCharts(all: seq<Trade>, pair: string, n: nat, minute: Time)
    requires Numbered(all, pair) && n <= |all|
    ensures Folded(all[..n], minute).Nothing? <==> InMinute(all[..n], minute) == []
    ensures Folded(all[..n], minute).Bar? ==> Charts(Folded(all[..n], minute).candle, InMinute(all[..n], minute))
  {
    hide MinuteOf, ValidTrade, Charts, Added, NewMinuteCandle, Open;
    FoldedOpen(all, pair, n, minute);
    if n > 0 {
      FoldedCharts(all, pair, n - 1, minute);
      FoldedOpen(all, pair, n - 1, minute);
      assert all[..n][..n - 1] == all[..n - 1];
      var before, t := Folded(all[..n - 1], minute), all[n - 1];
      if MinuteOf(t) == minute {
        if before.Nothing? {
          ChartsOne(t);
          assert [] + [t] == [t];
        } else if Added(before.candle, t).Some? {
          ChartsMore(before.candle, InMinute(all[..n - 1], minute), t);
        }
      }
    }
  }

  // Exactness.

  ghost predicate TradesExact(db: Database, all: seq<Trade>, pair: string) {
    && Last(db, pair) <= |all|
    && (forall n: nat :: (pair, n) in db.trades <==> 1 <= n <= Last(db, pair))
    && (forall n: nat | 1 <= n <= Last(db, pair) :: db.trades[(pair, n)] == all[n - 1])
  }

  ghost predicate CandlesExact(db: Database, all: seq<Trade>, pair: string) {
    Last(db, pair) <= |all| && forall m: Time :: CandleAt(db, pair, m) == Folded(all[..Last(db, pair)], m)
  }

  /** The stored trades are the first ones, each once, and every candle is the fold of its trades. */
  ghost predicate Exact(db: Database, all: seq<Trade>, pair: string) {
    TradesExact(db, all, pair) && CandlesExact(db, all, pair)
  }

  /** The stored update of a candle is the addition to the folded one. */
  lemma UpsertFolds(db: Database, all: seq<Trade>, pair: string, m: Time)
    requires Numbered(all, pair) && Exact(db, all, pair) && Last(db, pair) < |all|
    ensures var n := Last(db, pair); var t := all[n];
      Folded(all[..n + 1], m) == if m == MinuteOf(t) then Bar(Upserted(db.candles, t)) else CandleAt(db, pair, m)
  {
    hide BucketStart, ValidPair, TradesExact;
    var n := Last(db, pair);
    FoldedOpen(all, pair, n, m);
    assert all[..n + 1][..n] == all[..n];
    assert CandleAt(db, pair, m) == Folded(all[..n], m);
    WithinMinute(all[n]);
  }

  lemma AcceptExact(db: Database, all: seq<Trade>, pair: string)
    requires Numbered(all, pair) && Exact(db, all, pair) && Last(db, pair) < |all|
    ensures var n := Last(db, pair); var (next, reply) := Apply(db, all[n]);
      Exact(next, all, pair) && Last(next, pair) == n + 1 && reply == Applied(Upserted(db.candles, all[n]))
  {
    hide BucketStart, ValidPair, Upserted, Folded;
    var n := Last(db, pair);
    var t := all[n];
    var next := Apply(db, t).0;
    assert (pair, t.sequence) !in db.trades;
    forall m: Time ensures CandleAt(next, pair, m) == Folded(all[..n + 1], m) {
      UpsertFolds(db, all, pair, m);
    }
  }

  /** Rows of this pair are as they were. */
  lemma Unmoved(db: Database, next: Database, all: seq<Trade>, pair: string)
    requires Exact(db, all, pair) && Last(next, pair) == Last(db, pair)
    requires forall n: nat :: ((pair, n) in next.trades <==> (pair, n) in db.trades)
    requires forall n: nat | (pair, n) in db.trades :: next.trades[(pair, n)] == db.trades[(pair, n)]
    requires forall m: Time :: CandleAt(next, pair, m) == CandleAt(db, pair, m)
    ensures Exact(next, all, pair)
  {
  }

  /** A trade of this pair: the next one is applied, any other leaves its rows alone. */
  lemma TradeExact(db: Database, t: Trade, all: seq<Trade>, pair: string)
    requires Numbered(all, pair) && Exact(db, all, pair) && t.pair == pair && Fitting(t, all)
    ensures Exact(Apply(db, t).0, all, pair)
    ensures Last(Apply(db, t).0, pair) == Step(all, Last(db, pair), Trading(t))
  {
    hide BucketStart, ValidPair, Upserted, Folded;
    var n := Last(db, pair);
    if n < |all| && t == all[n] {
      AcceptExact(db, all, pair);
    } else {
      Unmoved(db, Apply(db, t).0, all, pair);
    }
  }

  lemma OtherExact(db: Database, d: Delivery, all: seq<Trade>, pair: string)
    requires Numbered(all, pair) && Exact(db, all, pair) && !(d.Trading? && d.trade.pair == pair)
    ensures Exact(Deliver(db, d), all, pair)
    ensures Last(Deliver(db, d), pair) == Step(all, Last(db, pair), d)
  {
    hide BucketStart, ValidPair, Upserted, Folded;
    Unmoved(db, Deliver(db, d), all, pair);
  }

  /** One delivery: the next trade is applied, anything else leaves this pair's rows alone. */
  lemma DeliverExact(db: Database, d: Delivery, all: seq<Trade>, pair: string)
    requires Numbered(all, pair) && Exact(db, all, pair) && Genuine([d], all, pair)
    ensures Exact(Deliver(db, d), all, pair)
    ensures Last(Deliver(db, d), pair) == Step(all, Last(db, pair), d)
  {
    hide ValidTrade, Exact, Apply;
    assert [d][0] == d;
    if d.Trading? && d.trade.pair == pair {
      TradeExact(db, d.trade, all, pair);
    } else {
      OtherExact(db, d, all, pair);
    }
  }

  // Progress.

  /** Only the next trade moves the stream. */
  function Step(all: seq<Trade>, n: nat, d: Delivery): nat {
    if n < |all| && d == Trading(all[n]) then n + 1 else n
  }

  function Reach(all: seq<Trade>, n: nat, ds: seq<Delivery>): nat {
    if ds == [] then n else Step(all, Reach(all, n, ds[..|ds| - 1]), ds[|ds| - 1])
  }

  /**
   Under any loss, duplication and reordering, and whatever happens to other pairs and streams,
   the store holds exactly the trades matched in order, each applied once.
   */
  lemma {:induction false} RunExact(db: Database, ds: seq<Delivery>, all: seq<Trade>, pair: string)
    requires Numbered(all, pair) && Exact(db, all, pair) && Genuine(ds, all, pair)
    ensures Exact(Run(db, ds), all, pair) && Last(Run(db, ds), pair) == Reach(all, Last(db, pair), ds)
  {
    hide Exact, Numbered, Deliver, Step, Last, Apply;
    if ds != [] {
      var before, d := ds[..|ds| - 1], ds[|ds| - 1];
      Part(ds, all, pair);
      RunExact(db, before, all, pair);
      DeliverExact(Run(db, before), d, all, pair);
    }
  }

  lemma Part(ds: seq<Delivery>, all: seq<Trade>, pair: string)
    requires Genuine(ds, all, pair) && ds != []
    ensures Genuine(ds[..|ds| - 1], all, pair) && Genuine([ds[|ds| - 1]], all, pair)
  {
  }

  lemma EmptyExact(all: seq<Trade>, pair: string)
    ensures Exact(EMPTY, all, pair) && Last(EMPTY, pair) == 0
  {
  }

  /** The replay of all trades from number `from` on. */
  function Replayed(all: seq<Trade>, from: nat): (ds: seq<Delivery>)
    requires 1 <= from <= |all| + 1
    ensures |ds| == |all| + 1 - from
  {
    seq(|all| + 1 - from, i requires 0 <= i < |all| + 1 - from => Trading(all[from - 1 + i]))
  }

  lemma {:induction false} ReachReplayed(all: seq<Trade>, pair: string, n: nat, from: nat, k: nat)
    requires Numbered(all, pair) && 1 <= from <= n + 1 && n <= |all| && k <= |all| + 1 - from
    ensures Reach(all, n, Replayed(all, from)[..k]) == Max(n, from - 1 + k)
  {
    hide ValidTrade;
    if k > 0 {
      var ds := Replayed(all, from)[..k];
      assert ds[..k - 1] == Replayed(all, from)[..k - 1];
      ReachReplayed(all, pair, n, from, k - 1);
      assert ds[k - 1].trade.sequence == from - 1 + k;
    }
  }

  /** A replay from the number a gap asks for, or from any earlier one, brings the store to the last trade. */
  lemma ReplayCompletes(db: Database, all: seq<Trade>, pair: string, from: nat)
    requires Numbered(all, pair) && Exact(db, all, pair) && 1 <= from <= Last(db, pair) + 1
    ensures Exact(Run(db, Replayed(all, from)), all, pair)
    ensures Last(Run(db, Replayed(all, from)), pair) == |all|
  {
    hide Numbered, CandlesExact, Last, Run, Reach;
    var ds := Replayed(all, from);
    assert ds[..|ds|] == ds;
    forall i | 0 <= i < |ds| ensures ds[i].trade in all {
      assert ds[i].trade == all[from - 1 + i];
    }
    RunExact(db, ds, all, pair);
    ReachReplayed(all, pair, Last(db, pair), from, |ds|);
  }

  predicate AwaitsReplay(db: Database, pair: string) {
    (pair, Trades) in db.streams && db.streams[(pair, Trades)].replayRequired
  }

  /** What the store says: a gap names the next number, a different payload under a stored number is refused. */
  lemma RepliesExact(db: Database, t: Trade, all: seq<Trade>)
    requires Numbered(all, t.pair) && Exact(db, all, t.pair) && ValidTrade(t)
    ensures var n, (next, reply) := Last(db, t.pair), Apply(db, t);
      && (reply.Applied? <==> t.sequence == n + 1)
      && (reply == Refused(SequenceGap(n + 1, t.sequence)) <==> t.sequence > n + 1)
      && (reply == Refused(SequenceConflict) <==> t.sequence <= n && t.hash != all[t.sequence - 1].hash)
      && (reply == Repeated <==> t.sequence <= n && t.hash == all[t.sequence - 1].hash)
      && (t.sequence <= n ==> next == db)
      && (t.sequence == n + 1 ==> !AwaitsReplay(next, t.pair)) && (t.sequence > n + 1 ==> AwaitsReplay(next, t.pair))
  {
  }
}
