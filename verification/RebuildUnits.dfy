/** The time ranges of the rebuild's units, and which span step executes each of them
    (rebuild_unit_ranges and _span_filter of services/backfill_feature_factory.py). */
module RebuildUnits {
  import opened Prelude
  import opened Civil
  import opened RowCounts
  import opened DiskBudget
  import opened SpanCuts

  /** The instant lies in the calendar year. */
  predicate InYear(jan1: Calendar, t: Time, year: int)
  {
    jan1(year) <= t < jan1(year + 1)
  }

  /** An instant between two Januaries lies in exactly one year, and that is one between them. */
  lemma {:induction false} YearOfInstant(jan1: Calendar, t: Time, first: int, end: int) returns (year: int)
    requires YearsApart(jan1) && jan1(first) <= t < jan1(end)
    ensures first <= year < end && InYear(jan1, t, year) && forall y :: InYear(jan1, t, y) ==> y == year
    decreases end - first
  {
    YearsAreOrdered(jan1, first, end);
    if jan1(end - 1) <= t {
      year := end - 1;
      forall y | InYear(jan1, t, y)
        ensures y == year
      {
        YearsAreOrdered(jan1, y, end);
        YearsAreOrdered(jan1, end - 1, y + 1);
      }
    } else {
      year := YearOfInstant(jan1, t, first, end - 1);
    }
  }

  /** A year's range, cut at the horizon. */
  function YearRange(jan1: Calendar, year: int, end: Time): Span
  {
    Span(jan1(year), Min(jan1(year + 1), end))
  }

  /** One range per calendar year from `year` up to the horizon. */
  ghost predicate YearByYear(jan1: Calendar, ranges: seq<Span>, year: int, end: Time)
  {
    && (forall i :: 0 <= i < |ranges| ==> ranges[i] == YearRange(jan1, year + i, end) && jan1(year + i) < end)
    && end <= jan1(year + |ranges|)
  }

  /** The units of one (symbol chunk, timeframe): one for the whole 1d history, one per year
      intraday. They start on Jan 1 of the first bar's year and end at the horizon. */
  method RebuildUnitRanges(jan1: Calendar, tf: Tf, first: Time, year: int, end: Time) returns (ranges: seq<Span>)
    requires YearsApart(jan1) && InYear(jan1, first, year)
    ensures first >= end ==> ranges == []
    ensures first < end && tf.D1? ==> ranges == [Span(jan1(year), end)]
    ensures first < end && !tf.D1? ==> ranges != [] && YearByYear(jan1, ranges, year, end)
  {
    if first >= end {
      return [];
    }
    if tf.D1? {
      return [Span(jan1(year), end)];
    }
    ranges := [];
    var y := year;
    while jan1(y) < end
      invariant year <= y && |ranges| == y - year
      invariant forall i :: 0 <= i < |ranges| ==> ranges[i] == YearRange(jan1, year + i, end) && jan1(year + i) < end
      decreases end - jan1(y)
    {
      YearsAreOrdered(jan1, y, y + 1);
      ranges := ranges + [Span(jan1(y), if jan1(y + 1) < end then jan1(y + 1) else end)];
      y := y + 1;
    }
  }

  lemma YearsAreOrdered(jan1: Calendar, a: int, b: int)
    requires YearsApart(jan1)
    ensures a < b ==> jan1(a) < jan1(b)
    ensures jan1(a) < jan1(b) ==> a < b
  {
    if b < a {
      assert jan1(b) + Days(365) <= jan1(a);
    }
  }

  lemma RangeStartsBeforeTheEnd(jan1: Calendar, ranges: seq<Span>, year: int, end: Time, i: nat)
    requires YearByYear(jan1, ranges, year, end) && i < |ranges|
    ensures jan1(year + i) < end
  {
    assert ranges[i] == YearRange(jan1, year + i, end);
  }

  /** The number of ranges is forced. */
  lemma SameLength(jan1: Calendar, a: seq<Span>, b: seq<Span>, year: int, end: Time)
    requires YearByYear(jan1, a, year, end) && YearByYear(jan1, b, year, end)
    ensures |a| >= |b|
  {
    if |a| < |b| {
      RangeStartsBeforeTheEnd(jan1, b, year, end, |a|);
    }
  }

  /** The ranges depend only on the first bar's year and the horizon: bars found earlier in that
      year leave every unit's name as it was. */
  lemma RangesDependOnTheYearOnly(jan1: Calendar, a: seq<Span>, b: seq<Span>, year: int, end: Time)
    requires YearByYear(jan1, a, year, end) && YearByYear(jan1, b, year, end)
    ensures a == b
  {
    SameLength(jan1, a, b, year, end);
    SameLength(jan1, b, a, year, end);
  }

  ghost predicate Holds(s: Span, t: Time)
  {
    s.start <= t < s.end
  }

  /** A bar falls in the unit of its own calendar year and in no other: the units partition the
      history from Jan 1 of the first year to the horizon. */
  lemma EveryBarInItsYearsUnit(jan1: Calendar, ranges: seq<Span>, first: int, end: Time, t: Time, year: int, i: nat)
    requires YearsApart(jan1) && YearByYear(jan1, ranges, first, end) && InYear(jan1, t, year) && i < |ranges|
    ensures Holds(ranges[i], t) <==> t < end && year == first + i
  {
    assert ranges[i] == YearRange(jan1, first + i, end);
    if year < first + i {
      YearsAreOrdered(jan1, year, first + i);
      assert year + 1 == first + i || jan1(year + 1) + Days(365) <= jan1(first + i);
    } else if year > first + i {
      assert year == first + i + 1 || jan1(first + i + 1) + Days(365) <= jan1(year);
    }
  }

  /** No bar of a year from the first on, and before the horizon, is left without its unit. */
  lemma EveryBarHasAUnit(jan1: Calendar, ranges: seq<Span>, first: int, end: Time, t: Time, year: int)
    requires YearsApart(jan1) && YearByYear(jan1, ranges, first, end) && InYear(jan1, t, year)
    requires first <= year && t < end
    ensures year - first < |ranges| && Holds(ranges[year - first], t)
  {
    YearsAreOrdered(jan1, year, first + |ranges|);
    assert jan1(year) < jan1(first + |ranges|);
    EveryBarInItsYearsUnit(jan1, ranges, first, end, t, year, year - first);
  }

  // ----- Spans -----------------------------------------------------------------------------------

  datatype SpanError = NotJanFirst | EmptySpan | HoldsDaily

  /** Jan 1 bounds, not empty, and no 1d unit in the stage. */
  predicate Acceptable(jan1: Calendar, span: (Span, int, int), tfs: set<Tf>)
  {
    span.0 == Span(jan1(span.1), jan1(span.2)) && span.0.start < span.0.end && D1 !in tfs
  }

  /** _span_filter's refusals; without a span every unit executes. */
  function CheckSpan(jan1: Calendar, span: Option<(Span, int, int)>, tfs: set<Tf>): (r: Result<Option<Span>, SpanError>)
    ensures r.Ok? <==> (span.Some? ==> Acceptable(jan1, span.value, tfs))
    ensures r.Ok? ==> r.value == if span.None? then None else Some(span.value.0)
  {
    if span.None? then Ok(None)
    else
      var (s, startYear, endYear) := span.value;
      if s.start != jan1(startYear) || s.end != jan1(endYear) then Err(NotJanFirst)
      else if s.start >= s.end then Err(EmptySpan)
      else if D1 in tfs then Err(HoldsDaily)
      else Ok(Some(s))
  }

  ghost predicate OnlyStep(spans: seq<Span>, unit: Span, k: nat)
    requires k < |spans|
  {
    && Executes(Some(spans[k]), unit)
    && forall j :: 0 <= j < |spans| && j != k ==> !Executes(Some(spans[j]), unit)
  }

  /** Each year's unit is executed by exactly one span step of its timeframe, and lies whole inside
      that span. */
  lemma EveryUnitInOneSpan(jan1: Calendar, years: seq<int>, cuts: seq<nat>, year: int, end: Time) returns (k: nat)
    requires YearsApart(jan1) && Consecutive(years) && years != [] && CutsYears(cuts, |years|)
    requires years[0] <= year <= years[|years| - 1] && jan1(year) < end
    ensures k < |cuts| - 1 && OnlyStep(SpansOf(jan1, years, cuts), YearRange(jan1, year, end), k)
    ensures Inside(YearRange(jan1, year, end), SpansOf(jan1, years, cuts)[k])
  {
    YearsAreOrdered(jan1, year, year + 1);
    var unit := YearRange(jan1, year, end);
    k := WholeInOneSpan(jan1, years, cuts, unit, year);
  }
}
