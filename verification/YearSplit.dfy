/** The greedy constrained partition of years by cumulative rows (split_years of
    services/corpus_rerun_budget.py), over the running totals alone. */
module YearSplit {

  /** Running totals: cum[c] is the rows of the first c years. */
  ghost predicate IsCumulative(cum: seq<real>)
  {
    && |cum| > 0 && cum[0] == 0.0
    && forall c, d :: 0 <= c <= d < |cum| ==> cum[c] <= cum[d]
  }

  /** No single year holds more than `most` rows. */
  ghost predicate YearsAtMost(cum: seq<real>, most: real)
  {
    forall c :: 0 <= c < |cum| - 1 ==> cum[c + 1] <= cum[c] + most
  }

  function Target(total: real, i: nat, n: nat): real
    requires n > 0
  {
    total * i as real / n as real
  }

  /** What the first 0 to n spans should hold: equal shares. */
  function Targets(total: real, n: nat): (targets: seq<real>)
    requires n > 0
    ensures |targets| == n + 1
  {
    seq(n + 1, i requires 0 <= i => Target(total, i, n))
  }

  /** Targets from 0 to the total, `share` apart. */
  ghost predicate EvenTargets(targets: seq<real>, total: real, share: real)
  {
    && |targets| > 1 && targets[0] == 0.0 && targets[|targets| - 1] == total && share >= 0.0
    && forall i :: 0 <= i < |targets| - 1 ==> targets[i + 1] == targets[i] + share
  }

  lemma TargetSteps(total: real, i: nat, n: nat)
    requires n > 0
    ensures Target(total, i + 1, n) == Target(total, i, n) + total / n as real
    ensures Target(total, 0, n) == 0.0 && Target(total, n, n) == total
  {
    var x, y, w := total * i as real, total, n as real;
    assert total * (i + 1) as real == x + y;
    assert (x + y) / w == x / w + y / w;
    assert total * w / w == total;
  }

  lemma TargetsAreEven(total: real, n: nat)
    requires n > 0 && total >= 0.0
    ensures EvenTargets(Targets(total, n), total, total / n as real)
  {
    forall i: nat | i < n
      ensures Target(total, i + 1, n) == Target(total, i, n) + total / n as real
    {
      TargetSteps(total, i, n);
    }
    TargetSteps(total, n, n);
  }

  function Distance(x: real, target: real): real
  {
    if x < target then target - x else x - target
  }

  /** The candidate nearest the target, the earliest one of equals. */
  function Nearest(cum: seq<real>, target: real, lo: nat, hi: nat): (c: nat)
    requires lo <= hi < |cum|
    ensures lo <= c <= hi
    ensures forall d :: lo <= d <= hi ==> Distance(cum[c], target) <= Distance(cum[d], target)
    ensures forall d :: lo <= d < c ==> Distance(cum[c], target) < Distance(cum[d], target)
    decreases hi - lo
  {
    if lo == hi then lo
    else
      var c := Nearest(cum, target, lo, hi - 1);
      if Distance(cum[hi], target) < Distance(cum[c], target) then hi else c
  }

  /** The last choice for cut i: one year is left for every later span. */
  function LastChoice(cum: seq<real>, targets: seq<real>, i: nat): int
  {
    |cum| - |targets| + i
  }

  /** Cut i: the years before span i. */
  function Cut(cum: seq<real>, targets: seq<real>, i: nat): (c: nat)
    requires i < |targets| <= |cum|
    ensures c <= LastChoice(cum, targets, i)
  {
    if i == 0 then 0
    else if i == |targets| - 1 then |cum| - 1
    else Nearest(cum, targets[i], Cut(cum, targets, i - 1) + 1, LastChoice(cum, targets, i))
  }

  /** The cuts themselves, from 0 to the number of years. */
  ghost predicate AreCuts(cuts: seq<nat>, cum: seq<real>, targets: seq<real>)
  {
    && |cuts| == |targets| && 1 < |targets| <= |cum|
    && forall i: nat {:trigger cuts[i]} :: i < |cuts| ==> cuts[i] == Cut(cum, targets, i)
  }

  function CutsOf(cum: seq<real>, n: nat): (cuts: seq<nat>)
    requires 0 < n < |cum|
    ensures |cuts| == n + 1
  {
    seq(n + 1, i requires 0 <= i <= n => Cut(cum, Targets(cum[|cum| - 1], n), i))
  }

  /** No candidate range is empty: every span gets at least one year, and each cut leaves at least
      one year for every later span. */
  lemma CutsIncrease(cum: seq<real>, targets: seq<real>, i: nat)
    requires i + 1 < |targets| <= |cum|
    ensures Cut(cum, targets, i) < Cut(cum, targets, i + 1) <= LastChoice(cum, targets, i + 1)
  {
  }

  // ----- About equal -------------------------------------------------------------------------------

  /** A cut past its first candidate lies within half a year's rows above its target. */
  lemma NotFarAbove(cum: seq<real>, target: real, lo: nat, hi: nat, most: real)
    requires IsCumulative(cum) && YearsAtMost(cum, most) && 0 < lo <= hi < |cum|
    ensures var c := Nearest(cum, target, lo, hi);
            c == lo || cum[c] <= target + most / 2.0
  {
    var c := Nearest(cum, target, lo, hi);
    if c > lo {
      assert Distance(cum[c], target) < Distance(cum[c - 1], target);
      assert cum[(c - 1) + 1] <= cum[c - 1] + most;
    }
  }

  /** A cut further below its target than that has only empty years after it, up to its last
      candidate. */
  lemma {:induction false} NotFarBelow(cum: seq<real>, target: real, lo: nat, hi: nat, most: real, d: nat)
    requires IsCumulative(cum) && YearsAtMost(cum, most) && lo <= hi < |cum|
    requires cum[Nearest(cum, target, lo, hi)] < target - most / 2.0
    requires Nearest(cum, target, lo, hi) <= d <= hi
    ensures cum[d] == cum[Nearest(cum, target, lo, hi)]
  {
    var c := Nearest(cum, target, lo, hi);
    if d > c {
      NotFarBelow(cum, target, lo, hi, most, d - 1);
      assert cum[(d - 1) + 1] <= cum[d - 1] + most;
      assert Distance(cum[c], target) <= Distance(cum[d], target);
      assert cum[c] <= cum[d];
    }
  }

  /** Where span i starts: at most half a year's rows below its target, or with nothing but empty
      years before the last choice. */
  lemma CutStart(cum: seq<real>, targets: seq<real>, i: nat, most: real, share: real)
    requires IsCumulative(cum) && YearsAtMost(cum, most) && most >= 0.0
    requires i + 1 < |targets| <= |cum| && EvenTargets(targets, cum[|cum| - 1], share)
    ensures var c := Cut(cum, targets, i);
            && c <= LastChoice(cum, targets, i)
            && (cum[c] >= targets[i] - most / 2.0 || cum[c] == cum[LastChoice(cum, targets, i)])
  {
    CutsIncrease(cum, targets, i);
    if i > 0 {
      var c := Cut(cum, targets, i);
      if cum[c] < targets[i] - most / 2.0 {
        NotFarBelow(cum, targets[i], Cut(cum, targets, i - 1) + 1, LastChoice(cum, targets, i), most,
                    LastChoice(cum, targets, i));
      }
    }
  }

  /** Where span i ends: at most half a year's rows above its target, or after a single year. */
  lemma CutEnd(cum: seq<real>, targets: seq<real>, i: nat, most: real, share: real)
    requires IsCumulative(cum) && YearsAtMost(cum, most) && most >= 0.0
    requires i + 1 < |targets| <= |cum| && EvenTargets(targets, cum[|cum| - 1], share)
    ensures var a, b := Cut(cum, targets, i), Cut(cum, targets, i + 1);
            && b < |cum|
            && (b == a + 1 || cum[b] <= targets[i + 1] + most / 2.0)
  {
    CutsIncrease(cum, targets, i);
    if i + 2 < |targets| {
      NotFarAbove(cum, targets[i + 1], Cut(cum, targets, i) + 1, LastChoice(cum, targets, i + 1), most);
    }
  }

  /** About equal: no span holds more than its even share plus the largest single year. */
  lemma SpansAreAboutEqual(cum: seq<real>, targets: seq<real>, i: nat, most: real, share: real)
    requires IsCumulative(cum) && YearsAtMost(cum, most)
    requires i + 1 < |targets| <= |cum| && EvenTargets(targets, cum[|cum| - 1], share)
    ensures Cut(cum, targets, i) < Cut(cum, targets, i + 1) < |cum|
    ensures cum[Cut(cum, targets, i + 1)] - cum[Cut(cum, targets, i)] <= share + most
  {
    CutsIncrease(cum, targets, i);
    var a, b, last := Cut(cum, targets, i), Cut(cum, targets, i + 1), LastChoice(cum, targets, i);
    assert cum[0] <= cum[0 + 1] <= cum[0] + most;
    if b == a + 1 {
      assert cum[a + 1] <= cum[a] + most;
    } else {
      CutStart(cum, targets, i, most, share);
      CutEnd(cum, targets, i, most, share);
      if cum[a] == cum[last] {
        assert cum[last + 1] <= cum[last] + most;
        assert cum[b] <= cum[last + 1];
      }
    }
  }

  // ----- The loop -------------------------------------------------------------------------------------

  /** The candidate scan: min over range(lo, hi + 1) by distance, then position. */
  method NearestCandidate(cum: seq<real>, target: real, lo: nat, hi: nat) returns (best: nat)
    requires lo <= hi < |cum|
    ensures best == Nearest(cum, target, lo, hi)
  {
    best := lo;
    var c := lo + 1;
    while c <= hi
      invariant lo < c <= hi + 1
      invariant best == Nearest(cum, target, lo, c - 1)
    {
      if Distance(cum[c], target) < Distance(cum[best], target) {
        best := c;
      }
      c := c + 1;
    }
  }

  method CutYears(cum: seq<real>, n: nat) returns (cuts: seq<nat>)
    requires 0 < n < |cum|
    ensures cuts == CutsOf(cum, n)
  {
    cuts := CutEach(cum, n);
    forall i: nat | i <= n
      ensures cuts[i] == CutsOf(cum, n)[i]
    {
    }
  }

  method CutEach(cum: seq<real>, n: nat) returns (cuts: seq<nat>)
    requires 0 < n < |cum|
    ensures |cuts| == n + 1
    ensures forall i: nat {:trigger cuts[i]} :: i <= n ==> cuts[i] == Cut(cum, Targets(cum[|cum| - 1], n), i)
  {
    ghost var targets := Targets(cum[|cum| - 1], n);
    cuts := [0];
    var i := 1;
    while i < n
      invariant 1 <= i <= n && |cuts| == i
      invariant forall j: nat {:trigger cuts[j]} :: j < i ==> cuts[j] == Cut(cum, targets, j)
    {
      var cut := NextCut(cum, cum[|cum| - 1], n, i, cuts[|cuts| - 1], targets);
      cuts := cuts + [cut];
      i := i + 1;
    }
    cuts := cuts + [|cum| - 1];
  }

  method NextCut(cum: seq<real>, total: real, n: nat, i: nat, last: nat, ghost targets: seq<real>) returns (cut: nat)
    requires 0 < i < n < |cum| && targets == Targets(total, n) && last == Cut(cum, targets, i - 1)
    ensures cut == Cut(cum, targets, i)
  {
    var target := total * i as real / n as real;
    assert target == targets[i];
    cut := NearestCandidate(cum, target, last + 1, |cum| - 1 - (n - i));
  }
}
