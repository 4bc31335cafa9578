/** Jan-1 aligned spans over consecutive years, from any cuts between the years. The calendar is
    any map from years to instants at least 365 days apart, so that no proof here leans on leap
    years. */
module SpanCuts {
  import opened Civil
  import opened DiskBudget
  import opened BudgetRun

  type Calendar = int -> Time

  ghost predicate YearsApart(jan1: Calendar)
  {
    forall a, b :: a < b ==> jan1(a) + Days(365) <= jan1(b)
  }

  predicate Consecutive(years: seq<int>)
  {
    forall i :: 0 <= i < |years| ==> years[i] == years[0] + i
  }

  /** Cuts from 0 to the number of years with at least one year between two of them. */
  ghost predicate CutsYears(cuts: seq<nat>, count: nat)
  {
    && |cuts| >= 2 && cuts[0] == 0 && cuts[|cuts| - 1] == count
    && (forall i, j :: 0 <= i < j < |cuts| ==> cuts[i] < cuts[j])
    && (forall i :: 0 <= i < |cuts| ==> cuts[i] <= count)
  }

  lemma {:induction false} StepsGrow(cuts: seq<nat>, i: nat, j: nat)
    requires forall a, b :: 0 <= a < b < |cuts| && b == a + 1 ==> cuts[a] < cuts[b]
    requires i < j < |cuts|
    ensures cuts[i] < cuts[j]
    decreases j
  {
    if i + 1 < j {
      StepsGrow(cuts, i, j - 1);
      assert cuts[j - 1] < cuts[j];
    }
  }

  /** The span of the years from cut a to cut b. */
  function SpanOf(jan1: Calendar, years: seq<int>, a: nat, b: nat): Span
    requires a < b <= |years|
  {
    Span(jan1(years[a]), jan1(years[b - 1] + 1))
  }

  function SpansOf(jan1: Calendar, years: seq<int>, cuts: seq<nat>): (spans: seq<Span>)
    requires CutsYears(cuts, |years|)
    ensures |spans| == |cuts| - 1
  {
    seq(|cuts| - 1, i requires 0 <= i < |cuts| - 1 => SpanOf(jan1, years, cuts[i], cuts[i + 1]))
  }

  /** Each span ends where the next starts, after at least one whole year. */
  ghost predicate Partition(spans: seq<Span>)
  {
    && (forall k :: 0 <= k < |spans| ==> spans[k].start + Days(365) <= spans[k].end)
    && (forall i, j :: 0 <= i < j < |spans| && j == i + 1 ==> spans[i].end == spans[j].start)
  }

  lemma SpanHoldsAYear(jan1: Calendar, years: seq<int>, a: nat, b: nat)
    requires YearsApart(jan1) && Consecutive(years) && a < b <= |years|
    ensures SpanOf(jan1, years, a, b).start + Days(365) <= SpanOf(jan1, years, a, b).end
  {
    assert years[a] < years[b - 1] + 1;
  }

  lemma SpansMeet(jan1: Calendar, years: seq<int>, a: nat, b: nat, c: nat)
    requires Consecutive(years) && a < b < c <= |years|
    ensures SpanOf(jan1, years, a, b).end == SpanOf(jan1, years, b, c).start
  {
    assert years[b] == years[b - 1] + 1;
  }

  lemma SpansHoldYears(jan1: Calendar, years: seq<int>, cuts: seq<nat>)
    requires YearsApart(jan1) && Consecutive(years) && CutsYears(cuts, |years|)
    ensures var spans := SpansOf(jan1, years, cuts);
            forall k :: 0 <= k < |spans| ==> spans[k].start + Days(365) <= spans[k].end
  {
    forall k | 0 <= k < |cuts| - 1
      ensures SpanOf(jan1, years, cuts[k], cuts[k + 1]).start + Days(365)
              <= SpanOf(jan1, years, cuts[k], cuts[k + 1]).end
    {
      SpanHoldsAYear(jan1, years, cuts[k], cuts[k + 1]);
    }
  }

  lemma NeighboursMeet(jan1: Calendar, years: seq<int>, cuts: seq<nat>, i: nat, j: nat)
    requires Consecutive(years) && CutsYears(cuts, |years|) && i < j < |cuts| - 1 && j == i + 1
    ensures SpansOf(jan1, years, cuts)[i].end == SpansOf(jan1, years, cuts)[j].start
  {
    SpansMeet(jan1, years, cuts[i], cuts[j], cuts[j + 1]);
  }

  lemma SpansPartition(jan1: Calendar, years: seq<int>, cuts: seq<nat>)
    requires YearsApart(jan1) && Consecutive(years) && CutsYears(cuts, |years|)
    ensures Partition(SpansOf(jan1, years, cuts))
  {
    var spans := SpansOf(jan1, years, cuts);
    SpansHoldYears(jan1, years, cuts);
    forall i, j | 0 <= i < j < |spans| && j == i + 1
      ensures spans[i].end == spans[j].start
    {
      NeighboursMeet(jan1, years, cuts, i, j);
    }
  }

  /** The spans partition the years: they start with the first, end with the last, and each ends
      where the next starts, holding at least one whole year. */
  lemma SpansPartitionTheYears(jan1: Calendar, years: seq<int>, cuts: seq<nat>)
    requires YearsApart(jan1) && Consecutive(years) && years != [] && CutsYears(cuts, |years|)
    ensures var spans := SpansOf(jan1, years, cuts);
            && Partition(spans)
            && spans[0].start == jan1(years[0]) && spans[|spans| - 1].end == jan1(years[|years| - 1] + 1)
  {
    SpansPartition(jan1, years, cuts);
  }

  lemma {:induction false} PartitionOrders(spans: seq<Span>, i: nat, j: nat)
    requires i < j < |spans| && Partition(spans)
    ensures spans[i].end <= spans[j].start
    decreases j
  {
    if i + 1 < j {
      PartitionOrders(spans, i, j - 1);
    }
  }

  lemma PartitionFollows(spans: seq<Span>)
    requires Partition(spans) && spans != [] && EPOCH <= spans[0].start && spans[|spans| - 1].end <= FAR_FUTURE
    ensures SpansFollow(spans)
  {
    forall i, j | 0 <= i < j < |spans| && j == i + 1
      ensures spans[i].end == spans[j].start
    {
    }
    forall k: nat | k < |spans|
      ensures spans[k].end <= FAR_FUTURE
    {
      if k + 1 < |spans| {
        PartitionOrders(spans, k, |spans| - 1);
      }
    }
  }

  // ----- Months --------------------------------------------------------------------------------------

  predicate Inside(inner: Span, outer: Span)
  {
    outer.start <= inner.start && inner.end <= outer.end
  }

  predicate Apart(a: Span, b: Span)
  {
    a.end <= b.start || b.end <= a.start
  }

  ghost predicate OnlyIn(s: Span, spans: seq<Span>, k: nat)
    requires k < |spans|
  {
    Inside(s, spans[k]) && forall j :: 0 <= j < |spans| && j != k ==> Apart(s, spans[j])
  }

  lemma InsideOne(s: Span, spans: seq<Span>, k: nat)
    requires Partition(spans) && k < |spans| && Inside(s, spans[k])
    ensures OnlyIn(s, spans, k)
  {
    forall j: nat | j < |spans| && j != k
      ensures Apart(s, spans[j])
    {
      if j < k {
        PartitionOrders(spans, j, k);
      } else {
        PartitionOrders(spans, k, j);
      }
    }
  }

  /** The span whose years hold year number c. */
  function Holder(cuts: seq<nat>, count: nat, c: nat, i: nat): (k: nat)
    requires CutsYears(cuts, count) && i < |cuts| - 1 && cuts[i] <= c < count
    ensures k < |cuts| - 1 && cuts[k] <= c < cuts[k + 1]
    decreases |cuts| - i
  {
    if c < cuts[i + 1] then i else Holder(cuts, count, c, i + 1)
  }

  lemma NotAfter(jan1: Calendar, a: int, b: int)
    requires YearsApart(jan1) && a <= b
    ensures jan1(a) <= jan1(b)
  {
  }

  lemma YearInSpan(jan1: Calendar, years: seq<int>, a: nat, b: nat, year: int)
    requires YearsApart(jan1) && Consecutive(years) && a < b <= |years| && a <= year - years[0] < b
    ensures Inside(Span(jan1(year), jan1(year + 1)), SpanOf(jan1, years, a, b))
  {
    NotAfter(jan1, years[a], year);
    NotAfter(jan1, year + 1, years[b - 1] + 1);
  }

  /** Whatever lies within one of the years, a month say, lies whole in exactly one span and
      touches no other. */
  lemma WholeInOneSpan(jan1: Calendar, years: seq<int>, cuts: seq<nat>, s: Span, year: int) returns (k: nat)
    requires YearsApart(jan1) && Consecutive(years) && years != [] && CutsYears(cuts, |years|)
    requires years[0] <= year <= years[|years| - 1] && Inside(s, Span(jan1(year), jan1(year + 1)))
    ensures k < |cuts| - 1 && OnlyIn(s, SpansOf(jan1, years, cuts), k)
  {
    k := Holder(cuts, |years|, year - years[0], 0);
    YearInSpan(jan1, years, cuts[k], cuts[k + 1], year);
    SpansPartitionTheYears(jan1, years, cuts);
    InsideOne(s, SpansOf(jan1, years, cuts), k);
  }
}
