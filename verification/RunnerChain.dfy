/** The fixed chain of steps of a corpus rerun (build_steps of services/corpus_rerun.py). */
module RunnerChain {
  import opened Prelude
  import opened Text
  import opened Decimals
  import opened RowCounts

  datatype Kind =
    | DataGate
    | PinGate
    | Pilot
    | Stage1d
    | SpanStep(k: nat, tf: Tf)
    | FeatureComplete
    | IcMeasure
    | D19Bound
    | Canary

  datatype Step = Step(name: string, kind: Kind, upstream: Option<string>)

  function TfText(tf: Tf): string
  {
    match tf
    case D1 => "1d"
    case H1 => "1h"
    case M15 => "15m"
    case M5 => "5m"
  }

  function NameOf(kind: Kind): string
  {
    match kind
    case DataGate => "data_gate"
    case PinGate => "pin_gate"
    case Pilot => "pilot"
    case Stage1d => "stage_1d"
    case SpanStep(k, tf) => "s" + ShowNat(k + 1) + "." + TfText(tf)
    case FeatureComplete => "feature_complete"
    case IcMeasure => "ic_measure"
    case D19Bound => "d19_bound"
    case Canary => "canary"
  }

  /** Three steps a span: 1h, 15m, 5m. */
  function SpanKinds(n: nat): (kinds: seq<Kind>)
    ensures |kinds| == 3 * n
    ensures forall i :: 0 <= i < |kinds| ==>
              kinds[i] == SpanStep(i / 3, if i % 3 == 0 then H1 else if i % 3 == 1 then M15 else M5)
  {
    if n == 0 then []
    else SpanKinds(n - 1) + [SpanStep(n - 1, H1), SpanStep(n - 1, M15), SpanStep(n - 1, M5)]
  }

  const FIRST: seq<Kind> := [DataGate, PinGate, Pilot, Stage1d]
  const LAST: seq<Kind> := [FeatureComplete, IcMeasure, D19Bound, Canary]

  function Chain(n: nat): (kinds: seq<Kind>)
    ensures |kinds| == 3 * n + 8
  {
    FIRST + SpanKinds(n) + LAST
  }

  /** Step i of the chain, its upstream the one before it. */
  function StepAt(kinds: seq<Kind>, i: nat): Step
    requires i < |kinds|
  {
    Step(NameOf(kinds[i]), kinds[i], if i == 0 then None else Some(NameOf(kinds[i - 1])))
  }

  /** The chain by place: the gates, the pilot and the 1d stage, 1h, 15m and 5m of each span in turn, and the
      closing steps. */
  predicate InItsPlace(kind: Kind, n: nat, i: nat)
  {
    if i == 0 then kind == DataGate
    else if i == 1 then kind == PinGate
    else if i == 2 then kind == Pilot
    else if i == 3 then kind == Stage1d
    else if i < 3 * n + 4 then
      kind.SpanStep? && i == 4 + 3 * kind.k + (if kind.tf == H1 then 0 else if kind.tf == M15 then 1 else 2) && kind.tf != D1
    else if i == 3 * n + 4 then kind == FeatureComplete
    else if i == 3 * n + 5 then kind == IcMeasure
    else if i == 3 * n + 6 then kind == D19Bound
    else i == 3 * n + 7 && kind == Canary
  }

  /** How the steps of a span are called, spans counted from one. */
  lemma SpanStepNames()
    ensures NameOf(SpanStep(0, H1)) == "s1.1h" && NameOf(SpanStep(0, M15)) == "s1.15m"
    ensures NameOf(SpanStep(0, M5)) == "s1.5m"
  {
    assert ShowNat(1) == "1";
  }

  method BuildSteps(n: nat) returns (steps: seq<Step>)
    ensures |steps| == 3 * n + 8
    ensures forall i :: 0 <= i < |steps| ==> steps[i] == StepAt(Chain(n), i)
    ensures forall i :: 0 <= i < |steps| ==> InItsPlace(steps[i].kind, n, i)
    ensures steps[0].upstream.None? && forall i :: 1 <= i < |steps| ==> steps[i].upstream == Some(steps[i - 1].name)
  {
    var kinds := ListKinds(n);
    steps := LinkSteps(kinds);
    forall i | 0 <= i < |steps|
      ensures InItsPlace(steps[i].kind, n, i)
    {
      ChainInPlace(n, i);
    }
  }

  lemma ChainInPlace(n: nat, i: nat)
    requires i < 3 * n + 8
    ensures InItsPlace(Chain(n)[i], n, i)
  {
    if i < 4 {
      assert Chain(n)[i] == FIRST[i];
    } else if i < 3 * n + 4 {
      assert Chain(n)[i] == SpanKinds(n)[i - 4];
    } else {
      assert Chain(n)[i] == LAST[i - 3 * n - 4];
    }
  }

  method ListKinds(n: nat) returns (kinds: seq<Kind>)
    ensures kinds == Chain(n)
  {
    kinds := FIRST;
    var k := 0;
    while k < n
      invariant 0 <= k <= n && kinds == FIRST + SpanKinds(k)
    {
      kinds := kinds + [SpanStep(k, H1), SpanStep(k, M15), SpanStep(k, M5)];
      k := k + 1;
    }
    kinds := kinds + LAST;
  }

  method LinkSteps(kinds: seq<Kind>) returns (steps: seq<Step>)
    ensures |steps| == |kinds|
    ensures forall i :: 0 <= i < |steps| ==> steps[i] == StepAt(kinds, i)
  {
    steps := [];
    var i := 0;
    while i < |kinds|
      invariant 0 <= i <= |kinds| && |steps| == i
      invariant forall j :: 0 <= j < i ==> steps[j] == StepAt(kinds, j)
    {
      steps := steps + [Step(NameOf(kinds[i]), kinds[i], if steps != [] then Some(steps[i - 1].name) else None)];
      i := i + 1;
    }
  }

  // ----- No two steps share a name -----------------------------------------------------------------

  lemma SpanNameParts(k: nat, tf: Tf)
    ensures NameOf(SpanStep(k, tf)) == Join(["s" + ShowNat(k + 1), TfText(tf)], '.')
    ensures SeparatorFree(["s" + ShowNat(k + 1), TfText(tf)], '.')
    ensures var name := NameOf(SpanStep(k, tf)); |name| > 1 && name[0] == 's' && '0' <= name[1] <= '9'
  {
    var parts := ["s" + ShowNat(k + 1), TfText(tf)];
    assert parts[1..] == [TfText(tf)];
    assert Join(parts[1..], '.') == TfText(tf);
    assert ("s" + ShowNat(k + 1))[1] == ShowNat(k + 1)[0];
  }

  lemma SameTail(a: string, b: string)
    requires "s" + a == "s" + b
    ensures a == b
  {
    assert ("s" + a)[1..] == a && ("s" + b)[1..] == b;
  }

  /** A span step's name gives its span and timeframe back. */
  lemma SpanNameIsUnique(a: Kind, b: Kind)
    requires a.SpanStep? && b.SpanStep? && NameOf(a) == NameOf(b)
    ensures a == b
  {
    var x, y := ["s" + ShowNat(a.k + 1), TfText(a.tf)], ["s" + ShowNat(b.k + 1), TfText(b.tf)];
    SpanNameParts(a.k, a.tf);
    SpanNameParts(b.k, b.tf);
    FieldsRoundTrip(x, '.');
    FieldsRoundTrip(y, '.');
    assert x[0] == y[0] && x[1] == y[1];
    SameTail(ShowNat(a.k + 1), ShowNat(b.k + 1));
    SameNat(a.k + 1, b.k + 1);
  }

  lemma SameNat(a: nat, b: nat)
    requires ShowNat(a) == ShowNat(b)
    ensures a == b
  {
    NatRoundTrip(a);
    NatRoundTrip(b);
  }

  /** First two characters and length of a fixed step's name: no two alike. */
  function Mark(kind: Kind): (char, char, nat)
  {
    match kind
    case DataGate => ('d', 'a', 9)
    case PinGate => ('p', 'i', 8)
    case Pilot => ('p', 'i', 5)
    case Stage1d => ('s', 't', 8)
    case SpanStep(_, _) => ('s', '0', 0)
    case FeatureComplete => ('f', 'e', 16)
    case IcMeasure => ('i', 'c', 10)
    case D19Bound => ('d', '1', 9)
    case Canary => ('c', 'a', 6)
  }

  lemma FixedName(kind: Kind)
    requires !kind.SpanStep?
    ensures var name := NameOf(kind); |name| > 1 && (name[0], name[1], |name|) == Mark(kind)
  {
  }

  lemma NamesDiffer(a: Kind, b: Kind)
    requires a != b
    ensures NameOf(a) != NameOf(b)
  {
    if a.SpanStep? && b.SpanStep? {
      if NameOf(a) == NameOf(b) {
        SpanNameIsUnique(a, b);
      }
    } else if a.SpanStep? {
      SpanNameParts(a.k, a.tf);
      FixedName(b);
    } else if b.SpanStep? {
      SpanNameParts(b.k, b.tf);
      FixedName(a);
    } else {
      FixedName(a);
      FixedName(b);
    }
  }

  lemma KindsDiffer(n: nat, i: nat, j: nat)
    requires i < j < 3 * n + 8
    ensures Chain(n)[i] != Chain(n)[j]
  {
    if 4 <= i && j < 3 * n + 4 {
      var a, b := i - 4, j - 4;
      assert Chain(n)[i] == SpanKinds(n)[a] && Chain(n)[j] == SpanKinds(n)[b];
      assert a / 3 != b / 3 || a % 3 != b % 3;
    }
  }

  /** A step's name names one step: by_name loses none, whatever the number of spans. */
  lemma StepNamesAreDistinct(n: nat, i: nat, j: nat)
    requires i < j < 3 * n + 8
    ensures StepAt(Chain(n), i).name != StepAt(Chain(n), j).name
  {
    KindsDiffer(n, i, j);
    NamesDiffer(Chain(n)[i], Chain(n)[j]);
  }
}
