/** UTC calendar arithmetic in microseconds since the Unix epoch: Jan 1 of a year, the first of a
    month, and the next month (services/corpus_rerun_budget.py). */
module Civil {

  type Time = int

  const DAY: int := 86_400_000_000

  function Days(n: int): int
  {
    n * 86_400_000_000
  }

  const EPOCH: Time := 0

  /** Days from the epoch to Jan 1 of a year (proleptic Gregorian). */
  function Jan1Days(year: int): int
  {
    365 * (year - 1970) + (year - 1) / 4 - (year - 1) / 100 + (year - 1) / 400 - 477
  }

  function Jan1(year: int): Time
  {
    Days(Jan1Days(year))
  }

  const FAR_FUTURE: Time := Jan1(9999)

  predicate IsLeap(year: int)
  {
    year % 4 == 0 && (year % 100 != 0 || year % 400 == 0)
  }

  lemma QuotientSteps(y: int)
    ensures (y + 1) / 4 - y / 4 == if (y + 1) % 4 == 0 then 1 else 0
    ensures (y + 1) / 100 - y / 100 == if (y + 1) % 100 == 0 then 1 else 0
    ensures (y + 1) / 400 - y / 400 == if (y + 1) % 400 == 0 then 1 else 0
  {
  }

  lemma LeapYears(year: int)
    ensures year % 400 == 0 ==> year % 100 == 0
    ensures year % 100 == 0 ==> year % 4 == 0
  {
  }

  /** A year is 365 days, or 366 exactly when it is a leap year. */
  lemma YearLength(year: int)
    ensures Jan1Days(year + 1) - Jan1Days(year) == if IsLeap(year) then 366 else 365
  {
    QuotientSteps(year - 1);
    LeapYears(year);
  }

  /** Years follow one another. */
  lemma {:induction false} YearsIncrease(a: int, b: int)
    requires a <= b
    ensures Jan1(a) + Days(b - a) <= Jan1(b)
    decreases b - a
  {
    if a < b {
      YearLength(b - 1);
      YearsIncrease(a, b - 1);
    }
  }

  datatype Month = Month(year: int, month: int)

  predicate IsMonth(m: Month)
  {
    1 <= m.month <= 12
  }

  /** Days before the first of the month in a common year. */
  function DaysBefore(month: int): int
    requires 1 <= month <= 12
  {
    [0, 31, 59, 90, 120, 151, 181, 212, 243, 273, 304, 334][month - 1]
  }

  function MonthStart(m: Month): Time
    requires IsMonth(m)
  {
    Days(Jan1Days(m.year) + DaysBefore(m.month) + if m.month > 2 && IsLeap(m.year) then 1 else 0)
  }

  function NextMonth(m: Month): (r: Month)
    requires IsMonth(m)
    ensures IsMonth(r)
  {
    Month(m.year + m.month / 12, m.month % 12 + 1)
  }

  function MonthEnd(m: Month): Time
    requires IsMonth(m)
  {
    MonthStart(NextMonth(m))
  }

  /** A month has its calendar's days, 28 to 31, and lies inside its own calendar year. */
  lemma MonthSpan(m: Month)
    requires IsMonth(m)
    ensures m.month == 2 ==> MonthEnd(m) == MonthStart(m) + Days(if IsLeap(m.year) then 29 else 28)
    ensures m.month in {4, 6, 9, 11} ==> MonthEnd(m) == MonthStart(m) + Days(30)
    ensures m.month !in {2, 4, 6, 9, 11} ==> MonthEnd(m) == MonthStart(m) + Days(31)
    ensures MonthStart(m) + Days(28) <= MonthEnd(m) <= MonthStart(m) + Days(31)
    ensures Jan1(m.year) <= MonthStart(m) && MonthEnd(m) <= Jan1(m.year + 1)
    ensures m.month == 1 ==> MonthStart(m) == Jan1(m.year)
  {
    YearLength(m.year);
    assert DaysBefore(m.month) <= 334;
    if m.month == 12 {
      assert NextMonth(m) == Month(m.year + 1, 1);
    } else {
      assert NextMonth(m) == Month(m.year, m.month + 1);
    }
  }

  /** Start of the hypertable chunk holding `t`: the multiple of the interval at or before it. */
  function ChunkFloor(t: Time, interval: int): (r: Time)
    requires interval > 0
  {
    EPOCH + (t - EPOCH) / interval * interval
  }

  lemma Scaling(q: int, r: int, interval: int)
    requires interval > 0
    ensures q <= r <==> q * interval <= r * interval
    ensures (q + 1) * interval == q * interval + interval
  {
    assert (r - q) * interval == r * interval - q * interval;
  }

  /** The chunk that starts at ChunkFloor holds the instant, and chunk starts keep time's order. */
  lemma ChunkFloorHolds(a: Time, b: Time, interval: int)
    requires interval > 0
    ensures ChunkFloor(a, interval) <= a < ChunkFloor(a, interval) + interval
    ensures a <= b ==> ChunkFloor(a, interval) <= ChunkFloor(b, interval)
    ensures EPOCH <= a ==> EPOCH <= ChunkFloor(a, interval)
  {
    var q, r := a / interval, b / interval;
    assert a == q * interval + a % interval;
    assert b == r * interval + b % interval;
    Scaling(q, r, interval);
    Scaling(r + 1, q, interval);
    Scaling(r, 0, interval);
    Scaling(0, q, interval);
    Scaling(q, -1, interval);
  }

  /** A multiple of the interval starts its own chunk. */
  lemma ChunkOfMultiple(q: int, interval: int)
    requires interval > 0
    ensures ChunkFloor(q * interval, interval) == q * interval
  {
    var x := q * interval;
    var r := x / interval;
    assert x == r * interval + x % interval;
    Scaling(r, q, interval);
    Scaling(r + 1, q, interval);
  }

  /** A chunk ends at or before a bound exactly when it starts before the chunk holding the bound:
      compressing every chunk that ends by then compresses exactly the time before that chunk. */
  lemma ChunkEndsByIff(start: Time, bound: Time, interval: int)
    requires interval > 0 && start == ChunkFloor(start, interval)
    ensures start + interval <= bound <==> start < ChunkFloor(bound, interval)
  {
    var q, r := start / interval, bound / interval;
    assert start == q * interval;
    assert bound == r * interval + bound % interval;
    Scaling(r, q, interval);
    Scaling(q + 1, r, interval);
    Scaling(r, r, interval);
    Scaling(r + 1, q + 1, interval);
    Scaling(q, q, interval);
  }
}
