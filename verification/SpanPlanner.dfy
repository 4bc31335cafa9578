/** Planning the spans of a corpus rerun: the intraday years, split_years, and plan_spans
    (services/corpus_rerun_budget.py). */
module SpanPlanner {
  import opened Prelude
  import opened Civil
  import opened RowCounts
  import opened DiskBudget
  import opened BudgetRun
  import opened YearSplit
  import opened SpanCuts

  // ----- The years to cover ------------------------------------------------------------------------

  predicate HoldsIntraday(e: Entry)
  {
    e.cell.tf in INTRADAY && e.n != 0.0
  }

  ghost predicate HasIntradayYear(counts: Counts, year: int)
  {
    exists i :: 0 <= i < |counts| && HoldsIntraday(counts[i]) && counts[i].cell.month.year == year
  }

  /** First and last year of a month holding an intraday row. */
  function YearBounds(counts: Counts): (r: Option<(int, int)>)
    ensures r.None? <==> forall i :: 0 <= i < |counts| ==> !HoldsIntraday(counts[i])
    ensures r.Some? ==> r.value.0 <= r.value.1
    ensures r.Some? ==> forall i :: 0 <= i < |counts| && HoldsIntraday(counts[i]) ==>
              r.value.0 <= counts[i].cell.month.year <= r.value.1
    ensures r.Some? ==> HasIntradayYear(counts, r.value.0) && HasIntradayYear(counts, r.value.1)
  {
    if counts == [] then None
    else
      var last := |counts| - 1;
      var before, y := YearBounds(counts[..last]), counts[last].cell.month.year;
      assert forall i :: 0 <= i < last ==> counts[i] == counts[..last][i];
      if !HoldsIntraday(counts[last]) then before
      else if before.None? then Some((y, y))
      else Some((Min(before.value.0, y), Max(before.value.1, y)))
  }

  function IntradayYears(counts: Counts): (years: seq<int>)
  {
    match YearBounds(counts)
    case None => []
    case Some(b) => seq(b.1 - b.0 + 1, i requires 0 <= i => b.0 + i)
  }

  /** The rows of one calendar year. */
  function YearRows(counts: Counts, year: int): real
    requires Valid(counts)
  {
    Rows(counts, Jan1(year), Jan1(year + 1), INTRADAY)
  }

  function RunningTotal(counts: Counts, years: seq<int>, c: nat): real
    requires Valid(counts) && c <= |years|
  {
    if c == 0 then 0.0 else RunningTotal(counts, years, c - 1) + YearRows(counts, years[c - 1])
  }

  function RunningTotals(counts: Counts, years: seq<int>): (cum: seq<real>)
    requires Valid(counts)
    ensures |cum| == |years| + 1
  {
    seq(|years| + 1, c requires 0 <= c <= |years| => RunningTotal(counts, years, c))
  }

  lemma {:induction false} RunningTotalGrows(counts: Counts, years: seq<int>, c: nat, d: nat)
    requires Valid(counts) && c <= d <= |years|
    ensures RunningTotal(counts, years, c) <= RunningTotal(counts, years, d)
    decreases d - c
  {
    if c < d {
      RunningTotalGrows(counts, years, c, d - 1);
      RowsNonNegative(counts, Query(Jan1(years[d - 1]), Jan1(years[d - 1] + 1), INTRADAY, None));
    }
  }

  lemma RunningTotalsCumulate(counts: Counts, years: seq<int>)
    requires Valid(counts)
    ensures IsCumulative(RunningTotals(counts, years))
  {
    forall c: nat, d: nat | c <= d <= |years|
      ensures RunningTotal(counts, years, c) <= RunningTotal(counts, years, d)
    {
      RunningTotalGrows(counts, years, c, d);
    }
  }

  /** The running totals of consecutive years are the rows between their bounds. */
  lemma {:induction false} RunningTotalIsRows(counts: Counts, years: seq<int>, a: nat, b: nat)
    requires Valid(counts) && a < b <= |years| && Consecutive(years)
    ensures RunningTotal(counts, years, b) - RunningTotal(counts, years, a) ==
            Rows(counts, Jan1(years[a]), Jan1(years[b - 1] + 1), INTRADAY)
    decreases b
  {
    if a + 1 < b {
      RunningTotalIsRows(counts, years, a, b - 1);
      YearsIncrease(years[a], years[b - 1]);
      YearsIncrease(years[b - 1], years[b - 1] + 1);
      assert years[b - 2] + 1 == years[b - 1];
      RowsAddOverTime(counts, Jan1(years[a]), Jan1(years[b - 1]), Jan1(years[b - 1] + 1), INTRADAY);
    }
  }

  // ----- The spans ---------------------------------------------------------------------------------------

  predicate CanSplit(n: int, years: seq<int>)
  {
    1 <= n <= |years|
  }

  function YearCuts(counts: Counts, n: nat, years: seq<int>): (cuts: seq<nat>)
    requires Valid(counts) && CanSplit(n, years)
    ensures |cuts| == n + 1
  {
    CutsOf(RunningTotals(counts, years), n)
  }

  lemma YearCutsAreCuts(counts: Counts, n: nat, years: seq<int>)
    requires Valid(counts) && CanSplit(n, years)
    ensures CutsYears(YearCuts(counts, n, years), |years|)
  {
    var cum := RunningTotals(counts, years);
    YearCutsStep(counts, n, years);
    var cuts := YearCuts(counts, n, years);
    forall i, j | 0 <= i < j <= n
      ensures cuts[i] < cuts[j]
    {
      StepsGrow(cuts, i, j);
    }
    EndsBound(cuts);
  }

  lemma EndsBound(cuts: seq<nat>)
    requires |cuts| > 0 && forall i, j :: 0 <= i < j < |cuts| ==> cuts[i] < cuts[j]
    ensures forall i :: 0 <= i < |cuts| ==> cuts[i] <= cuts[|cuts| - 1]
  {
  }

  lemma YearCutsStep(counts: Counts, n: nat, years: seq<int>)
    requires Valid(counts) && CanSplit(n, years)
    ensures var cuts := YearCuts(counts, n, years);
            && cuts[0] == 0 && cuts[n] == |years|
            && forall i, j :: 0 <= i < j < |cuts| && j == i + 1 ==> cuts[i] < cuts[j]
  {
    var cum := RunningTotals(counts, years);
    var targets := Targets(cum[|years|], n);
    forall i, j | 0 <= i < j <= n && j == i + 1
      ensures Cut(cum, targets, i) < Cut(cum, targets, j)
    {
      CutsIncrease(cum, targets, i);
    }
  }

  function YearSpans(counts: Counts, n: nat, years: seq<int>): (spans: seq<Span>)
    requires Valid(counts) && CanSplit(n, years)
    ensures |spans| == n
  {
    YearCutsAreCuts(counts, n, years);
    SpansOf(Jan1, years, YearCuts(counts, n, years))
  }

  /** split_years: nothing unless there is a year for every span. */
  method SplitYears(counts: Counts, n: int, years: seq<int>) returns (spans: Option<seq<Span>>)
    requires Valid(counts)
    ensures spans == if CanSplit(n, years) then Some(YearSpans(counts, n, years)) else None
  {
    if years == [] || n < 1 || n > |years| {
      return None;
    }
    var cumulative := Accumulate(counts, years);
    var cuts := CutYears(cumulative, n);
    YearCutsAreCuts(counts, n, years);
    var result := SpansBetween(years, cuts);
    spans := Some(result);
  }

  method Accumulate(counts: Counts, years: seq<int>) returns (cumulative: seq<real>)
    requires Valid(counts)
    ensures cumulative == RunningTotals(counts, years)
  {
    cumulative := [0.0];
    var y := 0;
    while y < |years|
      invariant 0 <= y <= |years| && |cumulative| == y + 1
      invariant forall c: nat {:trigger cumulative[c]} :: c <= y ==> cumulative[c] == RunningTotal(counts, years, c)
    {
      var rows := CountRows(counts, Query(Jan1(years[y]), Jan1(years[y] + 1), INTRADAY, None));
      cumulative := cumulative + [cumulative[|cumulative| - 1] + rows];
      y := y + 1;
    }
  }

  method SpansBetween(years: seq<int>, cuts: seq<nat>) returns (spans: seq<Span>)
    requires CutsYears(cuts, |years|)
    ensures spans == SpansOf(Jan1, years, cuts)
  {
    spans := [];
    var i := 0;
    while i + 1 < |cuts|
      invariant 0 <= i < |cuts| && |spans| == i
      invariant forall j: nat {:trigger spans[j]} :: j < i ==> spans[j] == SpanOf(Jan1, years, cuts[j], cuts[j + 1])
    {
      spans := spans + [Span(Jan1(years[cuts[i]]), Jan1(years[cuts[i + 1] - 1] + 1))];
      i := i + 1;
    }
  }

  lemma CalendarYearsApart()
    ensures YearsApart(Jan1)
  {
    forall a: int, b: int | a < b
      ensures Jan1(a) + Days(365) <= Jan1(b)
    {
      YearsAreApart(a, b);
    }
  }

  lemma YearsAreApart(a: int, b: int)
    requires a < b
    ensures Jan1(a) + Days(365) <= Jan1(b)
  {
    YearLength(b - 1);
    YearsIncrease(a, b - 1);
  }

  function MonthOf(m: Month): Span
    requires IsMonth(m)
  {
    Span(MonthStart(m), MonthEnd(m))
  }

  lemma MonthInItsYear(m: Month)
    requires IsMonth(m)
    ensures Inside(MonthOf(m), Span(Jan1(m.year), Jan1(m.year + 1)))
  {
    MonthSpan(m);
  }

  /** Every month of the years lies whole in exactly one span and touches no other: no row is
      rebuilt by two spans and none by no span. */
  lemma EveryMonthInOneSpan(counts: Counts, n: nat, years: seq<int>, m: Month) returns (k: nat)
    requires Valid(counts) && CanSplit(n, years) && Consecutive(years)
    requires IsMonth(m) && years[0] <= m.year <= years[|years| - 1]
    ensures k < n && OnlyIn(MonthOf(m), YearSpans(counts, n, years), k)
  {
    CalendarYearsApart();
    YearCutsAreCuts(counts, n, years);
    MonthInItsYear(m);
    k := WholeInOneSpan(Jan1, years, YearCuts(counts, n, years), MonthOf(m), m.year);
  }

  lemma SpanRowsAre(counts: Counts, years: seq<int>, a: nat, b: nat) returns (rows: real)
    requires Valid(counts) && Consecutive(years) && a < b <= |years|
    ensures var s := SpanOf(Jan1, years, a, b); rows == Rows(counts, s.start, s.end, INTRADAY)
    ensures var cum := RunningTotals(counts, years); rows == cum[b] - cum[a]
  {
    var s := SpanOf(Jan1, years, a, b);
    rows := Rows(counts, s.start, s.end, INTRADAY);
    RunningTotalIsRows(counts, years, a, b);
  }

  lemma NoYearHoldsMore(counts: Counts, years: seq<int>, most: real)
    requires Valid(counts) && forall i :: 0 <= i < |years| ==> YearRows(counts, years[i]) <= most
    ensures YearsAtMost(RunningTotals(counts, years), most)
  {
  }

  lemma CutShare(counts: Counts, years: seq<int>, cum: seq<real>, cuts: seq<nat>, targets: seq<real>, k: nat,
                 most: real, share: real) returns (rows: real)
    requires Valid(counts) && Consecutive(years) && cum == RunningTotals(counts, years)
    requires AreCuts(cuts, cum, targets) && k < |targets| - 1 && EvenTargets(targets, cum[|cum| - 1], share)
    requires YearsAtMost(cum, most)
    ensures cuts[k] < cuts[k + 1] <= |years|
    ensures var s := SpanOf(Jan1, years, cuts[k], cuts[k + 1]); rows == Rows(counts, s.start, s.end, INTRADAY)
    ensures rows <= share + most
  {
    RunningTotalsCumulate(counts, years);
    SpansAreAboutEqual(cum, targets, k, most, share);
    rows := SpanRowsAre(counts, years, cuts[k], cuts[k + 1]);
  }

  /** "About equal": no span's rows exceed an even share of them all by more than the largest single
      year. */
  lemma SpanRowsAreAboutEqual(counts: Counts, n: nat, years: seq<int>, k: nat, most: real)
      returns (rows: real, all: real, share: real)
    requires Valid(counts) && CanSplit(n, years) && Consecutive(years) && k < n
    requires forall i :: 0 <= i < |years| ==> YearRows(counts, years[i]) <= most
    ensures var s := YearSpans(counts, n, years)[k]; rows == Rows(counts, s.start, s.end, INTRADAY)
    ensures var s := SpanOf(Jan1, years, 0, |years|); all == Rows(counts, s.start, s.end, INTRADAY)
    ensures share == all / n as real && rows <= share + most
  {
    var cuts, cum := YearCuts(counts, n, years), RunningTotals(counts, years);
    NoYearHoldsMore(counts, years, most);
    YearCutsAreCuts(counts, n, years);
    all := SpanRowsAre(counts, years, 0, |years|);
    assert all == cum[|years|];
    var targets := Targets(all, n);
    share := all / n as real;
    RunningTotalsCumulate(counts, years);
    TargetsAreEven(all, n);
    rows := CutShare(counts, years, cum, cuts, targets, k, most, share);
  }

  // ----- Planning ---------------------------------------------------------------------------------------------

  /** The rows still to be written. */
  function Growth(counts: Counts, stored: Option<Counts>): Counts
  {
    if stored.Some? then Minus(counts, stored.value) else counts
  }

  lemma GrowthIsPart(counts: Counts, stored: Option<Counts>)
    requires Valid(counts) && (stored.Some? ==> Valid(stored.value))
    ensures Within(Growth(counts, stored), counts) && Valid(Growth(counts, stored))
  {
    if stored.Some? {
      MinusLeavesTheRest(counts, stored.value);
    }
  }

  ghost predicate SplitFits(left: Counts, inp: Inputs, years: seq<int>, n: nat)
    requires Valid(left) && ValidInputs(inp) && CanSplit(n, years)
  {
    PlanFits(YearSpans(left, n, years), left, inp)
  }

  /** No count below n fits. */
  ghost predicate NoneBelow(left: Counts, inp: Inputs, years: seq<int>, n: nat)
    requires Valid(left) && ValidInputs(inp)
  {
    forall m: nat :: CanSplit(m, years) && m < n ==> !SplitFits(left, inp, years, m)
  }

  /** What a plan is: the split into the fewest spans that fit the limit. */
  ghost predicate FewestSpans(spans: seq<Span>, left: Counts, inp: Inputs, years: seq<int>)
    requires Valid(left) && ValidInputs(inp)
  {
    && CanSplit(|spans|, years) && spans == YearSpans(left, |spans|, years)
    && SplitFits(left, inp, years, |spans|)
    && NoneBelow(left, inp, years, |spans|)
  }

  ghost predicate IsPlan(spans: seq<Span>, counts: Counts, inp: Inputs, stored: Option<Counts>)
    requires Valid(counts) && ValidInputs(inp) && (stored.Some? ==> Valid(stored.value))
  {
    GrowthIsPart(counts, stored);
    FewestSpans(spans, Growth(counts, stored), inp, IntradayYears(counts))
  }

  ghost predicate NoPlan(left: Counts, inp: Inputs, years: seq<int>)
    requires Valid(left) && ValidInputs(inp)
  {
    NoneBelow(left, inp, years, |years| + 1)
  }

  /** plan_spans: the smallest span count that fits, or a refusal exactly when none does. */
  method PlanSpans(counts: Counts, inp: Inputs, stored: Option<Counts>) returns (plan: Option<seq<Span>>)
    requires Valid(counts) && ValidInputs(inp) && (stored.Some? ==> Valid(stored.value))
    ensures Valid(Growth(counts, stored))
    ensures plan.Some? ==> IsPlan(plan.value, counts, inp, stored)
    ensures plan.None? ==> NoPlan(Growth(counts, stored), inp, IntradayYears(counts))
  {
    GrowthIsPart(counts, stored);
    plan := FewestThatFit(Growth(counts, stored), inp, IntradayYears(counts));
  }

  /** `fits` says which span counts fit. */
  ghost predicate SaysWhichFit(fits: nat -> bool, left: Counts, inp: Inputs, years: seq<int>)
    requires Valid(left) && ValidInputs(inp)
  {
    forall n: nat {:trigger SplitFits(left, inp, years, n)} :: CanSplit(n, years) ==>
      fits(n) == SplitFits(left, inp, years, n)
  }

  ghost function WhichFit(left: Counts, inp: Inputs, years: seq<int>): (fits: nat -> bool)
    requires Valid(left) && ValidInputs(inp)
    ensures SaysWhichFit(fits, left, inp, years)
  {
    (n: nat) => CanSplit(n, years) && SplitFits(left, inp, years, n)
  }

  method FewestThatFit(left: Counts, inp: Inputs, years: seq<int>) returns (plan: Option<seq<Span>>)
    requires Valid(left) && ValidInputs(inp)
    ensures plan.Some? ==> FewestSpans(plan.value, left, inp, years)
    ensures plan.None? ==> NoPlan(left, inp, years)
  {
    ghost var fits := WhichFit(left, inp, years);
    plan := FirstFit(left, inp, years, fits);
    if plan.Some? {
      NoneFits(left, inp, years, fits, |plan.value|);
    } else {
      NoneFits(left, inp, years, fits, |years| + 1);
    }
  }

  lemma NoneFits(left: Counts, inp: Inputs, years: seq<int>, fits: nat -> bool, n: nat)
    requires Valid(left) && ValidInputs(inp) && SaysWhichFit(fits, left, inp, years)
    requires forall m: nat :: m < n && CanSplit(m, years) ==> !fits(m)
    ensures NoneBelow(left, inp, years, n)
  {
  }

  /** The search: n from 1 on, until a split fits or the years run out. */
  method FirstFit(left: Counts, inp: Inputs, years: seq<int>, ghost fits: nat -> bool) returns (plan: Option<seq<Span>>)
    requires Valid(left) && ValidInputs(inp) && SaysWhichFit(fits, left, inp, years)
    ensures plan.Some? ==>
              && CanSplit(|plan.value|, years) && plan.value == YearSpans(left, |plan.value|, years)
              && SplitFits(left, inp, years, |plan.value|)
              && forall m: nat :: m < |plan.value| && CanSplit(m, years) ==> !fits(m)
    ensures plan.None? ==> forall m: nat :: m < |years| + 1 && CanSplit(m, years) ==> !fits(m)
  {
    plan := None;
    var n := 1;
    while n <= |years|
      invariant 1 <= n <= |years| + 1
      invariant forall m: nat :: m < n && CanSplit(m, years) ==> !fits(m)
    {
      plan := TrySplit(left, inp, years, n, fits);
      if plan.Some? {
        return;
      }
      n := n + 1;
    }
    plan := None;
  }

  /** One candidate count. */
  method TrySplit(left: Counts, inp: Inputs, years: seq<int>, n: nat, ghost fits: nat -> bool)
      returns (plan: Option<seq<Span>>)
    requires Valid(left) && ValidInputs(inp) && CanSplit(n, years) && SaysWhichFit(fits, left, inp, years)
    ensures plan.Some? <==> fits(n)
    ensures plan.Some? ==> plan.value == YearSpans(left, n, years) && SplitFits(left, inp, years, n)
  {
    plan := SplitYears(left, n, years);
    var fitting := Fits(plan.value, left, inp);
    assert fitting == SplitFits(left, inp, years, n);
    if !fitting {
      plan := None;
    }
  }

  /** `not overflowing(project(...))`. */
  method Fits(spans: seq<Span>, counts: Counts, inp: Inputs) returns (fits: bool)
    requires Valid(counts) && ValidInputs(inp)
    ensures fits <==> PlanFits(spans, counts, inp)
  {
    fits := Total(DailyPeak(counts, inp)) <= Limit(inp);
    var k := 0;
    while k < |spans|
      invariant 0 <= k <= |spans|
      invariant fits <==> Total(DailyPeak(counts, inp)) <= Limit(inp)
                          && forall j :: 0 <= j < k ==> Total(SpanPeak(spans, j, counts, inp)) <= Limit(inp)
    {
      fits := Total(SpanPeak(spans, k, counts, inp)) <= Limit(inp) && fits;
      k := k + 1;
    }
  }

  /** Years whose spans the modelled era holds. */
  predicate InEra(years: seq<int>)
  {
    years != [] ==> 1970 <= years[0] && years[|years| - 1] < 9999
  }

  // ----- The planned run -----------------------------------------------------------------------------------------

  lemma NoYearBefore(counts: Counts, stored: Option<Counts>, i: nat)
    requires Valid(counts) && OnCalendar(counts) && (stored.Some? ==> Valid(stored.value))
    requires i < |Growth(counts, stored)| && HoldsIntraday(Growth(counts, stored)[i])
    ensures IntradayYears(counts) != [] && Jan1(IntradayYears(counts)[0]) <= Growth(counts, stored)[i].start
  {
    GrowthIsPart(counts, stored);
    assert HoldsIntraday(counts[i]);
    MonthSpan(counts[i].cell.month);
    YearsIncrease(IntradayYears(counts)[0], counts[i].cell.month.year);
  }

  lemma PlannedSpans(counts: Counts, n: nat, years: seq<int>)
    requires Valid(counts) && CanSplit(n, years) && Consecutive(years) && InEra(years)
    ensures SpansFollow(YearSpans(counts, n, years)) && YearSpans(counts, n, years)[0].start == Jan1(years[0])
    ensures YearSpans(counts, n, years)[|YearSpans(counts, n, years)| - 1].end == Jan1(years[|years| - 1] + 1)
  {
    YearCutsAreCuts(counts, n, years);
    CalendarYearsApart();
    SpansPartitionTheYears(Jan1, years, YearCuts(counts, n, years));
    EraBounds(years);
    PartitionFollows(YearSpans(counts, n, years));
  }

  lemma EraBounds(years: seq<int>)
    requires years != [] && InEra(years)
    ensures EPOCH <= Jan1(years[0]) && Jan1(years[|years| - 1] + 1) <= FAR_FUTURE
  {
    YearsIncrease(1970, years[0]);
    YearsIncrease(years[|years| - 1] + 1, 9999);
  }

  lemma RowsStartWithTheYears(counts: Counts, stored: Option<Counts>, spans: seq<Span>)
    requires Valid(counts) && OnCalendar(counts) && (stored.Some? ==> Valid(stored.value)) && spans != []
    requires IntradayYears(counts) != [] ==> spans[0].start == Jan1(IntradayYears(counts)[0])
    ensures StartsWithSpans(Growth(counts, stored), spans)
  {
    forall i | 0 <= i < |Growth(counts, stored)| && HoldsIntraday(Growth(counts, stored)[i])
      ensures spans[0].start <= Growth(counts, stored)[i].start
    {
      NoYearBefore(counts, stored, i);
    }
  }

  /** The spans are a split of the counts' years by the rows still to be written, as every plan is. */
  ghost predicate IsSplit(spans: seq<Span>, counts: Counts, stored: Option<Counts>)
    requires Valid(counts) && (stored.Some? ==> Valid(stored.value))
  {
    GrowthIsPart(counts, stored);
    && CanSplit(|spans|, IntradayYears(counts))
    && spans == YearSpans(Growth(counts, stored), |spans|, IntradayYears(counts))
  }

  lemma PlanIsSplit(spans: seq<Span>, counts: Counts, inp: Inputs, stored: Option<Counts>)
    requires Valid(counts) && ValidInputs(inp) && (stored.Some? ==> Valid(stored.value))
    requires IsPlan(spans, counts, inp, stored)
    ensures IsSplit(spans, counts, stored) && Valid(Growth(counts, stored))
    ensures PlanFits(spans, Growth(counts, stored), inp)
  {
    GrowthIsPart(counts, stored);
  }

  /** Split spans leave no intraday row before the first of them. */
  lemma NoRowBeforeTheSpans(counts: Counts, stored: Option<Counts>, spans: seq<Span>)
    requires Valid(counts) && OnCalendar(counts) && (stored.Some? ==> Valid(stored.value))
    requires IsSplit(spans, counts, stored) && InEra(IntradayYears(counts))
    ensures Valid(Growth(counts, stored)) && SpansFollow(spans) && StartsWithSpans(Growth(counts, stored), spans)
  {
    GrowthIsPart(counts, stored);
    ConsecutiveYears(counts);
    SplitStarts(Growth(counts, stored), IntradayYears(counts), spans);
    RowsStartWithTheYears(counts, stored, spans);
  }

  lemma ConsecutiveYears(counts: Counts)
    ensures Consecutive(IntradayYears(counts))
  {
  }

  lemma SplitStarts(left: Counts, years: seq<int>, spans: seq<Span>)
    requires Valid(left) && CanSplit(|spans|, years) && spans == YearSpans(left, |spans|, years)
    requires Consecutive(years) && InEra(years)
    ensures SpansFollow(spans) && spans[0].start == Jan1(years[0])
    ensures spans[|spans| - 1].end == Jan1(years[|years| - 1] + 1)
  {
    PlannedSpans(left, |spans|, years);
  }

  /** The units and the open chunk floor as the rebuild plans them: each intraday unit starts with a year
      of the counts (a year without a bar has no unit), and no row lies past the horizon's year. */
  ghost predicate PlansUnits(plan: Plan, counts: Counts, horizon: int)
  {
    && 1970 <= horizon < 9999 && plan.floor == Jan1(horizon)
    && (forall u :: 0 <= u < |plan.units| ==> EPOCH <= plan.units[u].range.start)
    && (forall u :: 0 <= u < |plan.units| && plan.units[u].tf != D1 ==> StartsInAYearOf(plan.units[u].range, counts))
    && (forall i :: 0 <= i < |counts| && HoldsIntraday(counts[i]) ==> counts[i].cell.month.year <= horizon)
  }

  ghost predicate StartsInAYearOf(range: Span, counts: Counts)
  {
    exists i :: 0 <= i < |counts| && HoldsIntraday(counts[i]) && range.start == Jan1(counts[i].cell.month.year)
  }

  lemma SplitSpansStartBy(left: Counts, years: seq<int>, spans: seq<Span>, horizon: int, k: nat)
    requires Valid(left) && CanSplit(|spans|, years) && spans == YearSpans(left, |spans|, years)
    requires Consecutive(years) && years[|years| - 1] <= horizon && k < |spans|
    ensures spans[k].start <= Jan1(horizon)
  {
    YearCutsAreCuts(left, |spans|, years);
    var cuts := YearCuts(left, |spans|, years);
    assert spans[k] == SpanOf(Jan1, years, cuts[k], cuts[k + 1]);
    YearStartsBy(years, cuts[k], horizon);
  }

  lemma YearStartsBy(years: seq<int>, i: nat, horizon: int)
    requires Consecutive(years) && i < |years| && years[|years| - 1] <= horizon
    ensures Jan1(years[i]) <= Jan1(horizon)
  {
    YearsIncrease(years[i], horizon);
  }

  lemma UnitStartsWithTheYears(range: Span, counts: Counts)
    requires StartsInAYearOf(range, counts)
    ensures var years := IntradayYears(counts);
            years != [] && Jan1(years[0]) <= range.start < Jan1(years[|years| - 1] + 1)
  {
    var years := IntradayYears(counts);
    var i :| 0 <= i < |counts| && HoldsIntraday(counts[i]) && range.start == Jan1(counts[i].cell.month.year);
    YearsIncrease(years[0], counts[i].cell.month.year);
    YearsIncrease(counts[i].cell.month.year, years[|years| - 1] + 1);
  }

  lemma FloorInEra(horizon: int)
    requires 1970 <= horizon < 9999
    ensures EPOCH <= Jan1(horizon) <= FAR_FUTURE
  {
    YearsIncrease(1970, horizon);
    YearsIncrease(horizon, 9999);
  }

  lemma SplitSpansFit(left: Counts, years: seq<int>, spans: seq<Span>, horizon: int)
    requires Valid(left) && CanSplit(|spans|, years) && spans == YearSpans(left, |spans|, years)
    requires Consecutive(years) && InEra(years) && years[|years| - 1] <= horizon
    ensures SpansFollow(spans) && spans[0].start == Jan1(years[0])
    ensures spans[|spans| - 1].end == Jan1(years[|years| - 1] + 1)
    ensures forall k :: 0 <= k < |spans| ==> spans[k].start <= Jan1(horizon)
  {
    SplitStarts(left, years, spans);
    forall k: nat | k < |spans|
      ensures spans[k].start <= Jan1(horizon)
    {
      SplitSpansStartBy(left, years, spans, horizon, k);
    }
  }

  /** Every intraday unit starts within the years. */
  ghost predicate UnitsWithin(plan: Plan, years: seq<int>)
    requires years != []
  {
    forall u :: 0 <= u < |plan.units| && plan.units[u].tf != D1 ==>
      Jan1(years[0]) <= plan.units[u].range.start < Jan1(years[|years| - 1] + 1)
  }

  lemma UnitsWithinTheYears(plan: Plan, counts: Counts)
    requires forall u :: 0 <= u < |plan.units| && plan.units[u].tf != D1 ==> StartsInAYearOf(plan.units[u].range, counts)
    requires IntradayYears(counts) != []
    ensures UnitsWithin(plan, IntradayYears(counts))
  {
    forall u | 0 <= u < |plan.units| && plan.units[u].tf != D1
      ensures var years := IntradayYears(counts);
              Jan1(years[0]) <= plan.units[u].range.start < Jan1(years[|years| - 1] + 1)
    {
      UnitStartsWithTheYears(plan.units[u].range, counts);
    }
  }

  lemma SplitOfYearsIsPlanned(left: Counts, years: seq<int>, plan: Plan, horizon: int)
    requires Valid(left) && CanSplit(|plan.spans|, years) && plan.spans == YearSpans(left, |plan.spans|, years)
    requires Consecutive(years) && InEra(years) && years[|years| - 1] <= horizon && 1970 <= horizon < 9999
    requires UnitsWithin(plan, years) && Modelled(plan) && plan.floor == Jan1(horizon)
    ensures Planned(plan)
  {
    assert plan.floor <= FAR_FUTURE by { FloorInEra(horizon); }
    SplitSpansFit(left, years, plan.spans, horizon);
  }

  lemma PlansAreModelled(plan: Plan, counts: Counts, horizon: int)
    requires PlansUnits(plan, counts, horizon) && ValidInputs(plan.inp)
    ensures Modelled(plan)
  {
    FloorInEra(horizon);
  }

  lemma YearsFit(plan: Plan, counts: Counts, horizon: int)
    requires PlansUnits(plan, counts, horizon) && IntradayYears(counts) != []
    ensures var years := IntradayYears(counts);
            Consecutive(years) && years[|years| - 1] <= horizon && UnitsWithin(plan, years)
  {
    ConsecutiveYears(counts);
    LastYearByHorizon(counts, horizon);
    UnitsWithinTheYears(plan, counts);
  }

  /** A split's spans start by the horizon's year and hold the start of every intraday unit. */
  lemma SplitIsPlanned(counts: Counts, stored: Option<Counts>, plan: Plan, horizon: int)
    requires Valid(counts) && OnCalendar(counts) && (stored.Some? ==> Valid(stored.value))
    requires IsSplit(plan.spans, counts, stored) && InEra(IntradayYears(counts)) && ValidInputs(plan.inp)
    requires PlansUnits(plan, counts, horizon)
    ensures Planned(plan)
  {
    GrowthIsPart(counts, stored);
    PlansAreModelled(plan, counts, horizon);
    YearsFit(plan, counts, horizon);
    SplitOfYearsIsPlanned(Growth(counts, stored), IntradayYears(counts), plan, horizon);
  }

  lemma LastYearByHorizon(counts: Counts, horizon: int)
    requires IntradayYears(counts) != []
    requires forall i :: 0 <= i < |counts| && HoldsIntraday(counts[i]) ==> counts[i].cell.month.year <= horizon
    ensures IntradayYears(counts)[|IntradayYears(counts)| - 1] <= horizon
  {
    assert HasIntradayYear(counts, YearBounds(counts).value.1);
  }

  /** The promise of the budget: whatever plan_spans returns, no step's gate ever refuses, at any
      point of any run of the plan, for the rows still to be written. */
  lemma PlannedRunPassesEveryGate(counts: Counts, stored: Option<Counts>, plan: Plan, horizon: int,
                                  states: seq<Moment>, actions: seq<Action>, i: nat)
    requires Valid(counts) && OnCalendar(counts) && ValidInputs(plan.inp) && (stored.Some? ==> Valid(stored.value))
    requires IsPlan(plan.spans, counts, plan.inp, stored) && plan.counts == Growth(counts, stored)
    requires InEra(IntradayYears(counts)) && PlansUnits(plan, counts, horizon) && plan.inp.compressionRatio >= 1.0
    requires Run(plan, states, actions) && i < |states|
    ensures Valid(plan.counts) && StepOf(plan.spans, states[i].step) && Valid(states[i].written)
    ensures GateBytes(plan.spans, At(states[i]), plan.counts, plan.inp) <= Limit(plan.inp)
  {
    PlanIsSplit(plan.spans, counts, plan.inp, stored);
    NoRowBeforeTheSpans(counts, stored, plan.spans);
    SplitIsPlanned(counts, stored, plan, horizon);
    GateNeverRefuses(plan, states, actions, i);
  }

  /** With the pilot run first, its 1h rows lying in the first span, the same holds of every span step. */
  lemma PlannedSpansPassTheirGates(counts: Counts, stored: Option<Counts>, plan: Plan, horizon: int,
                                   states: seq<Moment>, actions: seq<Action>, i: nat)
    requires Valid(counts) && OnCalendar(counts) && ValidInputs(plan.inp) && (stored.Some? ==> Valid(stored.value))
    requires IsPlan(plan.spans, counts, plan.inp, stored) && plan.counts == Growth(counts, stored)
    requires InEra(IntradayYears(counts)) && PlansUnits(plan, counts, horizon) && plan.inp.compressionRatio >= 1.0
    requires Steps(plan, states, actions) && i < |states| && plan.spans != []
    requires AfterPilot(plan, states[0]) && states[i].step.Intraday?
    ensures Valid(plan.counts) && StepOf(plan.spans, states[i].step) && Valid(states[i].written)
    ensures GateBytes(plan.spans, At(states[i]), plan.counts, plan.inp) <= Limit(plan.inp)
  {
    PlanIsSplit(plan.spans, counts, plan.inp, stored);
    NoRowBeforeTheSpans(counts, stored, plan.spans);
    SplitIsPlanned(counts, stored, plan, horizon);
    SpanGatesNeverRefuse(plan, states, actions, i);
  }

  /** The years to cover are consecutive and hold every month with an intraday row. */
  lemma YearsCover(counts: Counts, i: nat)
    requires i < |counts| && HoldsIntraday(counts[i])
    ensures var years := IntradayYears(counts);
            && Consecutive(years) && years != []
            && years[0] <= counts[i].cell.month.year <= years[|years| - 1]
  {
  }

  /** The years run from the first to the last year of a month with an intraday row; there are none without. */
  lemma YearsEndWithRows(counts: Counts)
    ensures var years := IntradayYears(counts);
            if years == [] then forall i :: 0 <= i < |counts| && counts[i].cell.tf != D1 ==> counts[i].n == 0.0
            else HasRowsIn(counts, years[0]) && HasRowsIn(counts, years[|years| - 1])
  {
    if i :| 0 <= i < |counts| && counts[i].cell.tf != D1 && counts[i].n != 0.0 {
      assert HoldsIntraday(counts[i]);
    }
  }

  ghost predicate HasRowsIn(counts: Counts, year: int)
  {
    exists i :: 0 <= i < |counts| && counts[i].cell.tf != D1 && counts[i].n != 0.0 && counts[i].cell.month.year == year
  }

  /** Every month with an intraday row, stored or not, is rebuilt whole by exactly one span. */
  lemma EveryRowInOneSpan(counts: Counts, stored: Option<Counts>, spans: seq<Span>, i: nat) returns (k: nat)
    requires Valid(counts) && OnCalendar(counts) && (stored.Some? ==> Valid(stored.value))
    requires IsSplit(spans, counts, stored) && i < |counts| && HoldsIntraday(counts[i])
    ensures k < |spans| && OnlyIn(MonthOf(counts[i].cell.month), spans, k)
  {
    GrowthIsPart(counts, stored);
    YearsCover(counts, i);
    k := MonthInOneSpan(Growth(counts, stored), IntradayYears(counts), spans, counts[i].cell.month);
  }

  lemma MonthInOneSpan(left: Counts, years: seq<int>, spans: seq<Span>, m: Month) returns (k: nat)
    requires Valid(left) && CanSplit(|spans|, years) && spans == YearSpans(left, |spans|, years)
    requires Consecutive(years) && IsMonth(m) && years[0] <= m.year <= years[|years| - 1]
    ensures k < |spans| && OnlyIn(MonthOf(m), spans, k)
  {
    k := EveryMonthInOneSpan(left, |spans|, years, m);
  }

  /** In span k's peak every intraday row before the span's end is counted in exactly one of the
      intraday, straddle and compressed terms, and every 1d row in exactly one of its two. */
  lemma PeakCountsEveryRowOnce(spans: seq<Span>, k: nat, counts: Counts, inp: Inputs)
    requires SpansFollow(spans) && k < |spans| && Valid(counts) && ValidInputs(inp)
    requires StartsWithSpans(counts, spans)
    ensures var p, b, c := SpanPeak(spans, k, counts, inp), inp.bytesPerRow, CompressedRow(inp);
            && b > 0.0 && c > 0.0
            && p.intraday / b + p.straddle / b + p.compressedRest / c == Rows(counts, EPOCH, spans[k].end, INTRADAY)
            && p.dailyUncompressed / b + p.dailyCompressed / c == Rows(counts, EPOCH, FAR_FUTURE, DAILY)
  {
    var open := ChunkFloor(spans[k].start, inp.chunkInterval);
    SpansIncrease(spans, k, k);
    ChunkFloorHolds(spans[k].start, spans[k].start, inp.chunkInterval);
    RowsOfPeak(spans, k, counts, inp, open);
    RowsPartition(spans, k, counts, open);
  }

  function StraddlingRows(spans: seq<Span>, k: nat, counts: Counts, open: Time): real
    requires k < |spans| && Valid(counts)
  {
    if k > 0 then Rows(counts, open, spans[k].start, INTRADAY) else 0.0
  }

  lemma RowsPartition(spans: seq<Span>, k: nat, counts: Counts, open: Time)
    requires SpansFollow(spans) && k < |spans| && Valid(counts) && StartsWithSpans(counts, spans)
    requires EPOCH <= open <= spans[k].start && spans[k].end <= FAR_FUTURE
    ensures Rows(counts, spans[k].start, spans[k].end, INTRADAY) + StraddlingRows(spans, k, counts, open)
            + Rows(counts, EPOCH, open, INTRADAY) == Rows(counts, EPOCH, spans[k].end, INTRADAY)
    ensures Rows(counts, open, FAR_FUTURE, DAILY) + Rows(counts, EPOCH, open, DAILY) == Rows(counts, EPOCH, FAR_FUTURE, DAILY)
  {
    RowsAddOverTime(counts, EPOCH, open, spans[k].end, INTRADAY);
    RowsAddOverTime(counts, open, spans[k].start, spans[k].end, INTRADAY);
    RowsAddOverTime(counts, EPOCH, open, FAR_FUTURE, DAILY);
    if k == 0 {
      RowsVanish(counts, open, spans[k].start, INTRADAY);
    }
  }

  lemma RowsOfPeak(spans: seq<Span>, k: nat, counts: Counts, inp: Inputs, open: Time)
    requires k < |spans| && Valid(counts) && ValidInputs(inp)
    ensures var p, b, c := PeakAt(spans, k, counts, inp, open), inp.bytesPerRow, CompressedRow(inp);
            && p.intraday / b == Rows(counts, spans[k].start, spans[k].end, INTRADAY)
            && p.straddle / b == StraddlingRows(spans, k, counts, open)
            && p.compressedRest / c == Rows(counts, EPOCH, open, INTRADAY)
            && p.dailyUncompressed / b == Rows(counts, open, FAR_FUTURE, DAILY)
            && p.dailyCompressed / c == Rows(counts, EPOCH, open, DAILY)
  {
    var b, c := inp.bytesPerRow, CompressedRow(inp);
    PeakQuotients(Rows(counts, spans[k].start, spans[k].end, INTRADAY), b);
    PeakQuotients(StraddlingRows(spans, k, counts, open), b);
    PeakQuotients(Rows(counts, EPOCH, open, INTRADAY), c);
    PeakQuotients(Rows(counts, open, FAR_FUTURE, DAILY), b);
    PeakQuotients(Rows(counts, EPOCH, open, DAILY), c);
  }

  lemma PeakQuotients(rows: real, bytes: real)
    requires bytes > 0.0
    ensures rows * bytes / bytes == rows
  {
  }
}
