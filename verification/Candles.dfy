/** Candles: time buckets, folding trades, aggregating to coarser intervals. */
module Candles {
  import opened Arithmetic

  /** Nanoseconds since midnight UTC of 1 January of the year 1, a Monday. */
  type Time = nat

  const MINUTE: nat := 60_000_000_000
  const DAY: nat := 1440 * MINUTE

  datatype Interval = M1 | M5 | M15 | H1 | H4 | D1 | W1 | Month

  datatype Candle = Candle(
    pair: string, interval: Interval, openTime: Time, closeTime: Time,
    open: nat, high: nat, low: nat, close: nat, volume: nat, quoteVolume: nat, count: nat, sequence: nat)

  // Buckets.

  /** How many minutes an interval has; a month has no fixed number. */
  function Minutes(i: Interval): nat
    requires !i.Month?
    ensures Minutes(i) > 0
  {
    match i
    case M1 => 1
    case M5 => 5
    case M15 => 15
    case H1 => 60
    case H4 => 240
    case D1 => 1440
    case W1 => 10080
  }

  predicate Leap(year: nat) {
    year % 4 == 0 && (year % 100 != 0 || year % 400 == 0)
  }

  /** The days of month m, counted from January of the year 1 as month 0. */
  function MonthDays(m: nat): (days: nat)
    ensures 28 <= days <= 31
  {
    var month := m % 12;
    if month == 1 then (if Leap(1 + m / 12) then 29 else 28)
    else if month == 3 || month == 5 || month == 8 || month == 10 then 30
    else 31
  }

  /** The first day of month m. */
  function MonthFirst(m: nat): nat {
    if m == 0 then 0 else MonthFirst(m - 1) + MonthDays(m - 1)
  }

  /** The month a day lies in, looking from month m on. */
  function MonthOf(day: nat, m: nat): (month: nat)
    requires MonthFirst(m) <= day
    ensures MonthFirst(month) <= day < MonthFirst(month + 1)
    decreases day - MonthFirst(m)
  {
    if day < MonthFirst(m + 1) then m else MonthOf(day, m + 1)
  }

  function Floor(t: nat, d: nat): nat
    requires d > 0
  {
    t / d * d
  }

  function BucketStart(at: Time, i: Interval): Time {
    match i
    case Month => MonthFirst(MonthOf(at / DAY, 0)) * DAY
    case W1 => var day := at / DAY; (day - day % 7) * DAY
    case _ => Floor(at, Minutes(i) * MINUTE)
  }

  function BucketEnd(start: Time, i: Interval): Time {
    match i
    case Month => MonthFirst(MonthOf(start / DAY, 0) + 1) * DAY
    case _ => start + Minutes(i) * MINUTE
  }

  // Rounding down.

  lemma Regroup(q: nat, n: nat, r: nat, d: nat, s: nat)
    requires r < n && s < d
    ensures (q * n + r) * d + s == q * (d * n) + (r * d + s) && r * d + s < d * n
  {
    assert (q * n + r) * d == q * (d * n) + r * d;
    Minus(r, n, d);
    MulAtLeast(n - r, d);
  }

  lemma DivideTwice(t: nat, d: nat, n: nat)
    requires d > 0 && n > 0
    ensures d * n > 0 && t / d / n == t / (d * n)
  {
    var a := t / d;
    DivMod(t, d);
    DivMod(a, n);
    Regroup(a / n, n, a % n, d, t % d);
    MulAtLeast(n, d);
    Quotient(t, d * n, a / n, a % n * d + t % d);
  }

  /** Rounding to a finer grid first does not change the coarser bucket. */
  lemma FloorNest(t: nat, d: nat, n: nat)
    requires d > 0 && n > 0
    ensures d * n > 0 && Floor(t, d) / (d * n) == t / (d * n)
  {
    DivideTwice(t, d, n);
    DivideTwice(Floor(t, d), d, n);
    Quotient(Floor(t, d), d, t / d, 0);
  }

  /** A week is seven days from a Monday: the same grid as the other fixed intervals. */
  lemma WeekStart(at: Time)
    ensures BucketStart(at, W1) == Floor(at, 10080 * MINUTE)
  {
  }

  /** A fixed interval's buckets form a grid. */
  lemma FixedStart(at: Time, i: Interval)
    requires !i.Month?
    ensures BucketStart(at, i) == Floor(at, Minutes(i) * MINUTE)
  {
  }

  lemma {:induction false} MonthOrder(a: nat, b: nat)
    requires a < b
    ensures MonthFirst(a + 1) <= MonthFirst(b)
    decreases b
  {
    if a + 1 < b {
      MonthOrder(a, b - 1);
    }
  }

  /** A day lies in one month only. */
  lemma MonthUnique(day: nat, m: nat)
    requires MonthFirst(m) <= day < MonthFirst(m + 1)
    ensures MonthOf(day, 0) == m
  {
    var found := MonthOf(day, 0);
    if found < m {
      MonthOrder(found, m);
    }
    if m < found {
      MonthOrder(m, found);
    }
  }

  /** Buckets start no later than their times and keep their order. */
  lemma BucketOrder(t: Time, u: Time, i: Interval)
    requires t <= u
    ensures BucketStart(t, i) <= t && BucketStart(t, i) <= BucketStart(u, i)
  {
    if i.Month? {
      DivOrder(t, u, DAY);
      DivMod(t, DAY);
      var a, b := MonthOf(t / DAY, 0), MonthOf(u / DAY, 0);
      if b < a {
        MonthOrder(b, a);
      } else if a < b {
        MonthOrder(a, b);
      }
      MulOrder(MonthFirst(a), MonthFirst(b), DAY);
      MulOrder(MonthFirst(a), t / DAY, DAY);
    } else {
      FixedStart(t, i);
      FixedStart(u, i);
      var d := Minutes(i) * MINUTE;
      DivMod(t, d);
      DivOrder(t, u, d);
      MulOrder(t / d, u / d, d);
    }
  }

  /** The finer interval's buckets each lie in one bucket of the coarser. */
  predicate Nested(fine: Interval, coarse: Interval) {
    && !fine.Month?
    && if coarse.Month? then Minutes(fine) <= 1440 else Minutes(coarse) % Minutes(fine) == 0
  }

  /** Every listed interval of at most a day nests in every longer one; a week nests in no month. */
  lemma Nestings()
    ensures Nested(M5, M15) && Nested(M5, H1) && Nested(M5, H4) && Nested(M5, D1) && Nested(M5, W1) && Nested(M5, Month)
    ensures Nested(M15, H1) && Nested(M15, H4) && Nested(M15, D1) && Nested(M15, W1) && Nested(M15, Month)
    ensures Nested(H1, H4) && Nested(H1, D1) && Nested(H1, W1) && Nested(H1, Month)
    ensures Nested(H4, D1) && Nested(H4, W1) && Nested(H4, Month)
    ensures Nested(D1, W1) && Nested(D1, Month) && !Nested(W1, Month)
  {
  }

  lemma DayParts(fine: Interval)
    requires !fine.Month? && Minutes(fine) <= 1440
    ensures DAY == Minutes(fine) * MINUTE * (1440 / Minutes(fine)) && 1440 / Minutes(fine) > 0
  {
  }

  lemma Multiple(m: nat, n: nat)
    requires n > 0 && m > 0 && m % n == 0
    ensures m == n * (m / n) && m / n > 0
  {
  }

  /** The bucket of a bucket's start is the bucket of the time. */
  lemma BucketNest(at: Time, fine: Interval, coarse: Interval)
    requires Nested(fine, coarse)
    ensures BucketStart(BucketStart(at, fine), coarse) == BucketStart(at, coarse)
  {
    var d := Minutes(fine) * MINUTE;
    FixedStart(at, fine);
    if coarse.Month? {
      DayParts(fine);
      FloorNest(at, d, 1440 / Minutes(fine));
    } else {
      Multiple(Minutes(coarse), Minutes(fine));
      var n := Minutes(coarse) / Minutes(fine);
      FloorNest(at, d, n);
      assert Minutes(coarse) * MINUTE == d * n;
      FixedStart(at, coarse);
      FixedStart(BucketStart(at, fine), coarse);
    }
  }

  lemma FirstDayOf(m: nat)
    ensures MonthOf(MonthFirst(m) * DAY / DAY, 0) == m
  {
    hide MonthOf;
    Quotient(MonthFirst(m) * DAY, DAY, MonthFirst(m), 0);
    MonthUnique(MonthFirst(m), m);
  }

  lemma BeforeDay(at: Time, day: nat)
    requires at / DAY < day
    ensures at < day * DAY
  {
  }

  lemma MonthEnd(at: Time)
    ensures at < BucketEnd(BucketStart(at, Month), Month)
  {
    hide MonthOf;
    var m := MonthOf(at / DAY, 0);
    FirstDayOf(m);
    BeforeDay(at, MonthFirst(m + 1));
  }

  /** Every time lies between the start and the end of its bucket. */
  lemma BucketHolds(at: Time, i: Interval)
    ensures BucketStart(at, i) <= at < BucketEnd(BucketStart(at, i), i)
  {
    hide MonthOf, MonthFirst;
    BucketOrder(at, at, i);
    if i.Month? {
      MonthEnd(at);
    } else {
      FixedStart(at, i);
      DivMod(at, Minutes(i) * MINUTE);
    }
  }

  /** The length of an interval in nanoseconds. */
  function Length(i: Interval): nat
    requires !i.Month?
  {
    match i
    case M1 => 60_000_000_000
    case M5 => 300_000_000_000
    case M15 => 900_000_000_000
    case H1 => 3_600_000_000_000
    case H4 => 14_400_000_000_000
    case D1 => 86_400_000_000_000
    case W1 => 604_800_000_000_000
  }

  /** The bucket of a time is the one multiple of the length up to which less than a length is missing. */
  lemma BucketIs(at: Time, i: Interval)
    requires !i.Month?
    ensures var start := BucketStart(at, i);
      start % Length(i) == 0 && start <= at < start + Length(i) && BucketEnd(start, i) == start + Length(i)
  {
    FixedStart(at, i);
    var d := Minutes(i) * MINUTE;
    assert d == Length(i);
    DivMod(at, d);
    MultipleOf(at / d, d);
  }

  lemma MultipleOf(q: nat, d: nat)
    requires d > 0
    ensures q * d % d == 0
  {
    DivMod(q * d, d);
    Unique(q * d / d, q * d % d, q, 0, d);
  }

  /** Month i of a year, from January as 0. */
  lemma DaysAt(year: nat, i: nat)
    requires year >= 1 && i < 12
    ensures MonthFirst(12 * (year - 1) + i + 1) - MonthFirst(12 * (year - 1) + i)
         == match i
            case 1 => if year % 4 == 0 && (year % 100 != 0 || year % 400 == 0) then 29 else 28
            case 3 => 30
            case 5 => 30
            case 8 => 30
            case 10 => 30
            case _ => 31
  {
    var m := 12 * (year - 1) + i;
    assert m % 12 == i && m / 12 == year - 1;
    assert MonthFirst(m + 1) == MonthFirst(m) + MonthDays(m);
  }

  /** Twelve months make a year of the Gregorian calendar. */
  lemma YearDays(year: nat)
    requires year >= 1
    ensures MonthFirst(12 * year) - MonthFirst(12 * (year - 1))
         == if year % 4 == 0 && (year % 100 != 0 || year % 400 == 0) then 366 else 365
  {
    hide MonthFirst, MonthDays;
    DaysAt(year, 0);
    DaysAt(year, 1);
    DaysAt(year, 2);
    DaysAt(year, 3);
    DaysAt(year, 4);
    DaysAt(year, 5);
    DaysAt(year, 6);
    DaysAt(year, 7);
    DaysAt(year, 8);
    DaysAt(year, 9);
    DaysAt(year, 10);
    DaysAt(year, 11);
  }
}
