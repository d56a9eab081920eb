/** Minute candles aggregated to coarser intervals. */
module Aggregation {
  import opened Arithmetic
  import opened Candles

  /** A candle as the first of its bucket. */
  function Stamp(c: Candle, i: Interval): Candle {
    var start := BucketStart(c.openTime, i);
    c.(interval := i, openTime := start, closeTime := BucketEnd(start, i))
  }

  /** A later candle of the same bucket. */
  function Merge(c: Candle, next: Candle): Candle {
    c.(high := Max(c.high, next.high), low := Min(c.low, next.low), close := next.close,
       volume := c.volume + next.volume, quoteVolume := c.quoteVolume + next.quoteVolume,
       count := c.count + next.count, sequence := Max(c.sequence, next.sequence))
  }

  function Join(result: seq<Candle>, c: Candle, i: Interval): seq<Candle> {
    if result == [] || result[|result| - 1].openTime != BucketStart(c.openTime, i) then result + [Stamp(c, i)]
    else result[..|result| - 1] + [Merge(result[|result| - 1], c)]
  }

  /** Joins candles that are already in order. */
  function Grouped(candles: seq<Candle>, i: Interval): seq<Candle> {
    if candles == [] then [] else Join(Grouped(candles[..|candles| - 1], i), candles[|candles| - 1], i)
  }

  function InsertByTime(sorted: seq<Candle>, c: Candle): seq<Candle> {
    if sorted == [] || c.openTime < sorted[0].openTime then [c] + sorted
    else [sorted[0]] + InsertByTime(sorted[1..], c)
  }

  function SortByTime(candles: seq<Candle>): seq<Candle> {
    if candles == [] then [] else InsertByTime(SortByTime(candles[..|candles| - 1]), candles[|candles| - 1])
  }

  function Aggregate(candles: seq<Candle>, i: Interval): seq<Candle> {
    if i.M1? then candles else Grouped(SortByTime(candles), i)
  }

  method Add(result: seq<Candle>, minute: Candle, i: Interval) returns (joined: seq<Candle>)
    ensures joined == Join(result, minute, i)
  {
    hide BucketStart, BucketEnd;
    var start := BucketStart(minute.openTime, i);
    var end := BucketEnd(start, i);
    if |result| == 0 || result[|result| - 1].openTime != start {
      return result + [minute.(interval := i, openTime := start, closeTime := end)];
    }
    var current := result[|result| - 1];
    if minute.high > current.high {
      current := current.(high := minute.high);
    }
    if minute.low < current.low {
      current := current.(low := minute.low);
    }
    current := current.(close := minute.close, volume := current.volume + minute.volume,
                        quoteVolume := current.quoteVolume + minute.quoteVolume, count := current.count + minute.count);
    if minute.sequence > current.sequence {
      current := current.(sequence := minute.sequence);
    }
    joined := result[..|result| - 1] + [current];
  }

  method AggregateCandles(candles: seq<Candle>, i: Interval) returns (result: seq<Candle>)
    ensures result == Aggregate(candles, i)
  {
    hide Join;
    if i.M1? {
      return candles;
    }
    var minutes := SortByTime(candles);
    result := [];
    var n: nat := 0;
    while n < |minutes|
      invariant n <= |minutes| && result == Grouped(minutes[..n], i)
    {
      assert minutes[..n + 1][..n] == minutes[..n];
      result := Add(result, minutes[n], i);
      n := n + 1;
    }
    assert minutes[..n] == minutes;
  }

  function Volume(candles: seq<Candle>): nat {
    if candles == [] then 0 else Volume(candles[..|candles| - 1]) + candles[|candles| - 1].volume
  }

  function QuoteVolume(candles: seq<Candle>): nat {
    if candles == [] then 0 else QuoteVolume(candles[..|candles| - 1]) + candles[|candles| - 1].quoteVolume
  }

  function TradeCount(candles: seq<Candle>): nat {
    if candles == [] then 0 else TradeCount(candles[..|candles| - 1]) + candles[|candles| - 1].count
  }

  predicate Increasing(candles: seq<Candle>) {
    forall a, b | 0 <= a < b < |candles| :: candles[a].openTime < candles[b].openTime
  }

  predicate DistinctTimes(candles: seq<Candle>) {
    forall a, b | 0 <= a < b < |candles| :: candles[a].openTime != candles[b].openTime
  }

  lemma {:induction false} InsertHolds(sorted: seq<Candle>, c: Candle)
    ensures multiset(InsertByTime(sorted, c)) == multiset(sorted) + multiset{c}
    ensures forall x :: x in InsertByTime(sorted, c) <==> x in sorted || x == c
  {
    if sorted != [] && c.openTime >= sorted[0].openTime {
      InsertHolds(sorted[1..], c);
      assert sorted == [sorted[0]] + sorted[1..];
    }
    assert forall x :: x in InsertByTime(sorted, c) <==> x in multiset(InsertByTime(sorted, c));
  }

  lemma Prepend(first: Candle, rest: seq<Candle>)
    requires Increasing(rest) && forall x | x in rest :: first.openTime < x.openTime
    ensures Increasing([first] + rest)
  {
  }

  lemma Above(sorted: seq<Candle>, x: Candle)
    requires Increasing(sorted) && x in sorted
    ensures sorted[0].openTime <= x.openTime && (x in sorted[1..] ==> sorted[0].openTime < x.openTime)
  {
  }

  lemma {:induction false} InsertIncreasing(sorted: seq<Candle>, c: Candle)
    requires Increasing(sorted) && forall x | x in sorted :: x.openTime != c.openTime
    ensures Increasing(InsertByTime(sorted, c))
  {
    hide Increasing;
    if sorted != [] {
      Suffix(sorted);
      forall x | x in sorted
        ensures sorted[0].openTime <= x.openTime && (x in sorted[1..] ==> sorted[0].openTime < x.openTime)
      {
        Above(sorted, x);
      }
      if c.openTime >= sorted[0].openTime {
        InsertIncreasing(sorted[1..], c);
        InsertHolds(sorted[1..], c);
        assert sorted[0] in sorted;
        Prepend(sorted[0], InsertByTime(sorted[1..], c));
      } else {
        Prepend(c, sorted);
      }
    } else {
      Single(c);
    }
  }

  lemma Suffix(sorted: seq<Candle>)
    requires Increasing(sorted) && sorted != []
    ensures Increasing(sorted[1..])
  {
  }

  lemma Single(c: Candle)
    ensures Increasing([c] + [])
  {
  }

  /** Sorting candles with different times gives the same candles in strict order. */
  lemma {:induction false} SortIncreasing(candles: seq<Candle>)
    requires DistinctTimes(candles)
    ensures Increasing(SortByTime(candles)) && multiset(SortByTime(candles)) == multiset(candles)
    ensures forall x :: x in SortByTime(candles) <==> x in candles
  {
    if candles != [] {
      var init, last := candles[..|candles| - 1], candles[|candles| - 1];
      assert candles == init + [last];
      SortIncreasing(init);
      var sorted := SortByTime(init);
      forall x | x in sorted ensures x.openTime != last.openTime {
        var k :| 0 <= k < |init| && init[k] == x;
        assert candles[k] == x;
      }
      InsertIncreasing(sorted, last);
      InsertHolds(sorted, last);
    }
  }

  lemma {:induction false} InsertLast(sorted: seq<Candle>, c: Candle)
    requires forall a | 0 <= a < |sorted| :: sorted[a].openTime < c.openTime
    ensures InsertByTime(sorted, c) == sorted + [c]
  {
    if sorted != [] {
      InsertLast(sorted[1..], c);
    }
  }

  /** Candles in strict order are left alone. */
  lemma {:induction false} SortSorted(candles: seq<Candle>)
    requires Increasing(candles)
    ensures SortByTime(candles) == candles
  {
    if candles != [] {
      var init := candles[..|candles| - 1];
      SortSorted(init);
      InsertLast(init, candles[|candles| - 1]);
    }
  }

  function LastTime(candles: seq<Candle>): Time
    requires |candles| > 0
  {
    candles[|candles| - 1].openTime
  }

  /** A later candle keeps the buckets in strict order. */
  lemma JoinIncreasing(result: seq<Candle>, c: Candle, i: Interval)
    requires Increasing(result) && (|result| > 0 ==> LastTime(result) <= BucketStart(c.openTime, i))
    ensures Increasing(Join(result, c, i))
    ensures |Join(result, c, i)| > 0 && LastTime(Join(result, c, i)) == BucketStart(c.openTime, i)
  {
  }

  lemma Initial(candles: seq<Candle>)
    requires Increasing(candles) && |candles| > 0
    ensures Increasing(candles[..|candles| - 1])
    ensures |candles| > 1 ==> LastTime(candles[..|candles| - 1]) < LastTime(candles)
  {
  }

  /** Buckets come out in strict order, the last one being that of the last candle. */
  lemma {:induction false} GroupedIncreasing(candles: seq<Candle>, i: Interval)
    requires Increasing(candles)
    ensures Increasing(Grouped(candles, i)) && (|candles| == 0 <==> |Grouped(candles, i)| == 0)
    ensures |candles| > 0 ==> LastTime(Grouped(candles, i)) == BucketStart(LastTime(candles), i)
  {
    hide BucketStart, BucketEnd, Join, Increasing;
    if |candles| > 0 {
      var init, last := candles[..|candles| - 1], candles[|candles| - 1];
      Initial(candles);
      GroupedIncreasing(init, i);
      if |init| > 0 {
        BucketOrder(LastTime(init), last.openTime, i);
      }
      JoinIncreasing(Grouped(init, i), last, i);
    } else {
      assert Grouped(candles, i) == candles;
    }
  }

  // What a bucket holds.

  function Flat(blocks: seq<seq<Candle>>): seq<Candle> {
    if blocks == [] then [] else Flat(blocks[..|blocks| - 1]) + blocks[|blocks| - 1]
  }

  predicate Full(blocks: seq<seq<Candle>>) {
    forall k | 0 <= k < |blocks| :: |blocks[k]| > 0
  }

  function Cut(blocks: seq<seq<Candle>>, c: Candle, i: Interval): (more: seq<seq<Candle>>)
    requires Full(blocks)
    ensures Full(more)
  {
    if blocks == [] || BucketStart(blocks[|blocks| - 1][0].openTime, i) != BucketStart(c.openTime, i)
      then blocks + [[c]]
    else blocks[..|blocks| - 1] + [blocks[|blocks| - 1] + [c]]
  }

  /** Cuts candles where the bucket changes. */
  function Blocks(candles: seq<Candle>, i: Interval): (blocks: seq<seq<Candle>>)
    ensures Full(blocks)
  {
    if candles == [] then [] else Cut(Blocks(candles[..|candles| - 1], i), candles[|candles| - 1], i)
  }

  /** The first open, the last close, the extremes and the sums of a block of one bucket. */
  predicate Sums(g: Candle, block: seq<Candle>, i: Interval) {
    && block != []
    && g.interval == i && g.openTime == BucketStart(block[0].openTime, i) && g.closeTime == BucketEnd(g.openTime, i)
    && g.pair == block[0].pair && g.open == block[0].open && g.close == block[|block| - 1].close
    && (forall k | 0 <= k < |block| :: Within(g, block[k], i))
    && (exists k | 0 <= k < |block| :: block[k].high == g.high)
    && (exists k | 0 <= k < |block| :: block[k].low == g.low)
    && (exists k | 0 <= k < |block| :: block[k].sequence == g.sequence)
    && g.volume == Volume(block) && g.quoteVolume == QuoteVolume(block) && g.count == TradeCount(block)
  }

  predicate Within(g: Candle, c: Candle, i: Interval) {
    BucketStart(c.openTime, i) == g.openTime && g.low <= c.low && c.high <= g.high && c.sequence <= g.sequence
  }

  lemma SumsOne(c: Candle, i: Interval)
    ensures Sums(Stamp(c, i), [c], i)
  {
  }

  lemma SumsOpens(g: Candle, block: seq<Candle>, i: Interval)
    requires Sums(g, block, i)
    ensures block != [] && g.openTime == BucketStart(block[0].openTime, i)
  {
  }

  lemma SumsMore(g: Candle, block: seq<Candle>, c: Candle, i: Interval)
    requires Sums(g, block, i) && BucketStart(c.openTime, i) == g.openTime
    ensures Sums(Merge(g, c), block + [c], i)
  {
    hide BucketStart, BucketEnd, Volume, QuoteVolume, TradeCount;
    var more := block + [c];
    Totals(block, c);
    var h, l, s :| 0 <= h < |block| && 0 <= l < |block| && 0 <= s < |block| &&
                   block[h].high == g.high && block[l].low == g.low && block[s].sequence == g.sequence;
    assert more[h] == block[h] && more[l] == block[l] && more[s] == block[s] && more[|block|] == c;
    forall k | 0 <= k < |more| ensures Within(Merge(g, c), more[k], i) {
      if k < |block| {
        assert more[k] == block[k] && Within(g, block[k], i);
      }
    }
  }

  lemma Totals(block: seq<Candle>, c: Candle)
    ensures Volume(block + [c]) == Volume(block) + c.volume
    ensures QuoteVolume(block + [c]) == QuoteVolume(block) + c.quoteVolume
    ensures TradeCount(block + [c]) == TradeCount(block) + c.count
  {
  }

  predicate AllSums(result: seq<Candle>, blocks: seq<seq<Candle>>, i: Interval) {
    |result| == |blocks| && forall k | 0 <= k < |blocks| :: Sums(result[k], blocks[k], i)
  }

  lemma JoinSums(result: seq<Candle>, blocks: seq<seq<Candle>>, c: Candle, i: Interval)
    requires AllSums(result, blocks, i) && Full(blocks)
    ensures AllSums(Join(result, c, i), Cut(blocks, c, i), i)
  {
    hide BucketStart, BucketEnd, Sums;
    if result != [] {
      SumsOpens(result[|result| - 1], blocks[|blocks| - 1], i);
    }
    if result == [] || result[|result| - 1].openTime != BucketStart(c.openTime, i) {
      SumsOne(c, i);
    } else {
      SumsMore(result[|result| - 1], blocks[|blocks| - 1], c, i);
    }
  }

  lemma FlatCut(blocks: seq<seq<Candle>>, c: Candle, i: Interval)
    requires Full(blocks)
    ensures Flat(Cut(blocks, c, i)) == Flat(blocks) + [c]
  {
  }

  /** Each bucket of the result sums up its own block, and the blocks are all the candles. */
  lemma {:induction false} GroupedSums(candles: seq<Candle>, i: Interval)
    ensures AllSums(Grouped(candles, i), Blocks(candles, i), i) && Flat(Blocks(candles, i)) == candles
  {
    hide Sums, Join, Cut;
    if candles != [] {
      var init, c := candles[..|candles| - 1], candles[|candles| - 1];
      GroupedSums(init, i);
      JoinSums(Grouped(init, i), Blocks(init, i), c, i);
      FlatCut(Blocks(init, i), c, i);
      assert candles == init + [c];
    }
  }

  /** Each result candle sums up the candles of its bucket, in time order; every candle is in one bucket. */
  lemma AggregateMeans(candles: seq<Candle>, i: Interval)
    requires DistinctTimes(candles) && !i.M1?
    ensures Increasing(Aggregate(candles, i)) && AllSums(Aggregate(candles, i), Blocks(SortByTime(candles), i), i)
    ensures Flat(Blocks(SortByTime(candles), i)) == SortByTime(candles)
    ensures Increasing(SortByTime(candles)) && multiset(SortByTime(candles)) == multiset(candles)
  {
    hide SortByTime, Grouped, Blocks, AllSums, Increasing, DistinctTimes, Flat;
    SortIncreasing(candles);
    GroupedSums(SortByTime(candles), i);
    GroupedIncreasing(SortByTime(candles), i);
  }

  // Composition and conservation.

  lemma MergeAssociates(a: Candle, b: Candle, c: Candle)
    ensures Merge(Merge(a, b), c) == Merge(a, Merge(b, c))
  {
  }

  lemma StampTwice(c: Candle, fine: Interval, coarse: Interval)
    requires Nested(fine, coarse)
    ensures Stamp(Stamp(c, fine), coarse) == Stamp(c, coarse)
  {
    hide BucketStart, BucketEnd;
    BucketNest(c.openTime, fine, coarse);
  }

  /** Joining a merged candle is joining its parts one after the other. */
  lemma JoinMerged(result: seq<Candle>, c: Candle, next: Candle, i: Interval)
    requires BucketStart(next.openTime, i) == BucketStart(c.openTime, i)
    ensures Join(result, Merge(c, next), i) == Join(Join(result, c, i), next, i)
  {
    hide BucketStart, BucketEnd;
    if result == [] || result[|result| - 1].openTime != BucketStart(c.openTime, i) {
      assert Join(result, c, i)[..|result|] == result;
      assert Merge(Stamp(c, i), next) == Stamp(Merge(c, next), i);
    } else {
      var init, last := result[..|result| - 1], result[|result| - 1];
      MergeAssociates(last, c, next);
      assert Join(result, c, i)[..|result| - 1] == init;
    }
  }

  lemma JoinStamped(result: seq<Candle>, c: Candle, fine: Interval, coarse: Interval)
    requires Nested(fine, coarse)
    ensures Join(result, Stamp(c, fine), coarse) == Join(result, c, coarse)
  {
    hide BucketStart, BucketEnd;
    BucketNest(c.openTime, fine, coarse);
    StampTwice(c, fine, coarse);
  }

  lemma {:induction false} GroupedTwice(candles: seq<Candle>, fine: Interval, coarse: Interval)
    requires Nested(fine, coarse)
    ensures Grouped(Grouped(candles, fine), coarse) == Grouped(candles, coarse)
  {
    hide BucketStart, BucketEnd;
    if candles != [] {
      var init, c := candles[..|candles| - 1], candles[|candles| - 1];
      GroupedTwice(init, fine, coarse);
      var result := Grouped(init, fine);
      if result == [] || result[|result| - 1].openTime != BucketStart(c.openTime, fine) {
        assert (result + [Stamp(c, fine)])[..|result|] == result;
        JoinStamped(Grouped(result, coarse), c, fine, coarse);
      } else {
        var earlier, last := result[..|result| - 1], result[|result| - 1];
        BucketNest(c.openTime, fine, coarse);
        JoinMerged(Grouped(earlier, coarse), last, c, coarse);
        assert (earlier + [Merge(last, c)])[..|earlier|] == earlier;
      }
    }
  }

  /** Aggregating to a finer and then to a coarser interval is aggregating to the coarser one. */
  lemma AggregateComposes(candles: seq<Candle>, fine: Interval, coarse: Interval)
    requires DistinctTimes(candles) && Nested(fine, coarse)
    ensures Aggregate(Aggregate(candles, fine), coarse) == Aggregate(candles, coarse)
  {
    hide BucketStart, BucketEnd, SortByTime, Grouped, DistinctTimes, Increasing;
    if !fine.M1? {
      SortIncreasing(candles);
      var sorted := SortByTime(candles);
      GroupedIncreasing(sorted, fine);
      SortSorted(Grouped(sorted, fine));
      GroupedTwice(sorted, fine, coarse);
    }
  }

  lemma {:induction false} GroupedConserves(candles: seq<Candle>, i: Interval)
    ensures Volume(Grouped(candles, i)) == Volume(candles) && QuoteVolume(Grouped(candles, i)) == QuoteVolume(candles)
    ensures TradeCount(Grouped(candles, i)) == TradeCount(candles)
  {
    hide BucketStart, BucketEnd;
    if candles != [] {
      var init, c := candles[..|candles| - 1], candles[|candles| - 1];
      GroupedConserves(init, i);
      var result := Grouped(init, i);
      assert (result + [Stamp(c, i)])[..|result|] == result;
      if result != [] {
        var earlier := result[..|result| - 1];
        assert (earlier + [Merge(result[|result| - 1], c)])[..|earlier|] == earlier;
      }
    }
  }

  lemma {:induction false} InsertConserves(sorted: seq<Candle>, c: Candle)
    ensures Volume(InsertByTime(sorted, c)) == Volume(sorted) + c.volume
    ensures QuoteVolume(InsertByTime(sorted, c)) == QuoteVolume(sorted) + c.quoteVolume
    ensures TradeCount(InsertByTime(sorted, c)) == TradeCount(sorted) + c.count
  {
    if sorted == [] || c.openTime < sorted[0].openTime {
      Front(c, sorted);
    } else {
      InsertConserves(sorted[1..], c);
      Front(sorted[0], InsertByTime(sorted[1..], c));
      Front(sorted[0], sorted[1..]);
      assert sorted == [sorted[0]] + sorted[1..];
    }
  }

  lemma {:induction false} Front(c: Candle, rest: seq<Candle>)
    ensures Volume([c] + rest) == c.volume + Volume(rest)
      && QuoteVolume([c] + rest) == c.quoteVolume + QuoteVolume(rest)
    ensures TradeCount([c] + rest) == c.count + TradeCount(rest)
  {
    if rest == [] {
      assert [c] + rest == [c] && [c][..0] == [];
    } else {
      Front(c, rest[..|rest| - 1]);
      assert ([c] + rest)[..|rest|] == [c] + rest[..|rest| - 1];
    }
  }

  lemma {:induction false} SortConserves(candles: seq<Candle>)
    ensures Volume(SortByTime(candles)) == Volume(candles) && QuoteVolume(SortByTime(candles)) == QuoteVolume(candles)
    ensures TradeCount(SortByTime(candles)) == TradeCount(candles)
  {
    if candles != [] {
      SortConserves(candles[..|candles| - 1]);
      InsertConserves(SortByTime(candles[..|candles| - 1]), candles[|candles| - 1]);
    }
  }

  /** No volume and no trade is lost or counted twice, whatever the candles. */
  lemma AggregateConserves(candles: seq<Candle>, i: Interval)
    ensures Volume(Aggregate(candles, i)) == Volume(candles)
      && QuoteVolume(Aggregate(candles, i)) == QuoteVolume(candles)
    ensures TradeCount(Aggregate(candles, i)) == TradeCount(candles)
  {
    SortConserves(candles);
    GroupedConserves(SortByTime(candles), i);
  }
}
