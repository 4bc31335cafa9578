/** The projected disk peaks of a corpus rerun and why a plan that fits passes every step's gate
    (services/corpus_rerun_budget.py; the gate is _disk_and_preconditions of
    services/corpus_rerun.py). Bytes are reals: rounding is not the point here. */
module DiskBudget {
  import opened Prelude
  import opened Civil
  import opened RowCounts

  datatype Inputs = Inputs(
    freeAtLaunch: int,
    maxFraction: real,
    bytesPerRow: real,
    compressionRatio: real,
    storedPerSpool: real,
    walBytes: nat,
    chunkInterval: int)

  /** The checks of BudgetInputs. */
  predicate ValidInputs(inp: Inputs)
  {
    && inp.freeAtLaunch > 0 && 0.0 < inp.maxFraction < 1.0
    && inp.bytesPerRow > 0.0 && inp.compressionRatio > 0.0 && inp.storedPerSpool > 0.0
    && inp.chunkInterval > 0
  }

  function Limit(inp: Inputs): real
  {
    inp.maxFraction * inp.freeAtLaunch as real
  }

  /** Stored bytes of a compressed row. */
  function CompressedRow(inp: Inputs): (r: real)
    requires ValidInputs(inp)
    ensures r > 0.0 && r * inp.compressionRatio == inp.bytesPerRow
  {
    inp.bytesPerRow / inp.compressionRatio
  }

  datatype Span = Span(start: Time, end: Time)

  /** The disk-gated steps of a run: the 1d stage, then each span's three timeframes. */
  datatype Step = Daily | Intraday(k: nat, tf: Tf)

  predicate StepOf(spans: seq<Span>, step: Step)
  {
    step.Intraday? ==> step.k < |spans| && step.tf in INTRADAY
  }

  function TfOf(step: Step): Tf
  {
    if step.Daily? then D1 else step.tf
  }

  function Bounds(spans: seq<Span>, step: Step): Span
    requires StepOf(spans, step)
  {
    if step.Daily? then Span(EPOCH, FAR_FUTURE) else spans[step.k]
  }

  /** The execution test of a stage: without a span every unit executes. */
  predicate Executes(span: Option<Span>, unit: Span)
  {
    span.None? || span.value.start <= unit.start < span.value.end
  }

  /** The span a step restricts its stage to. */
  function SpanOfStep(spans: seq<Span>, step: Step): Option<Span>
    requires StepOf(spans, step)
  {
    if step.Daily? then None else Some(spans[step.k])
  }

  // ----- Spools ---------------------------------------------------------------------------------

  const SPOOLS_IN_FLIGHT: real := 2.0

  function MaxReal(a: real, b: real): real { if a > b then a else b }

  /** The largest group (timeframe, symbol chunk) among the first j entries. */
  function LargestTo(counts: Counts, j: nat, lo: Time, hi: Time, tfs: set<Tf>): (r: real)
    requires j <= |counts| && Valid(counts)
    ensures r >= 0.0
  {
    if j == 0 then 0.0
    else
      var e := counts[j - 1].cell;
      MaxReal(LargestTo(counts, j - 1, lo, hi, tfs),
              if e.tf in tfs then Sum(counts, Query(lo, hi, {e.tf}, Some(e.chunk))) else 0.0)
  }

  function LargestGroup(counts: Counts, lo: Time, hi: Time, tfs: set<Tf>): (r: real)
    requires Valid(counts)
    ensures r >= 0.0
  {
    LargestTo(counts, |counts|, lo, hi, tfs)
  }

  lemma {:induction false} LargestToBounds(counts: Counts, j: nat, lo: Time, hi: Time, tfs: set<Tf>, i: nat)
    requires i < j <= |counts| && Valid(counts) && counts[i].cell.tf in tfs
    ensures LargestTo(counts, j, lo, hi, tfs) >=
            Sum(counts, Query(lo, hi, {counts[i].cell.tf}, Some(counts[i].cell.chunk)))
  {
    if i < j - 1 {
      LargestToBounds(counts, j - 1, lo, hi, tfs, i);
    }
  }

  /** No group of the interval holds more rows, counted or not. */
  lemma LargestGroupIsLargest(counts: Counts, lo: Time, hi: Time, tfs: set<Tf>, tf: Tf, chunk: nat)
    requires Valid(counts) && tf in tfs
    ensures Sum(counts, Query(lo, hi, {tf}, Some(chunk))) <= LargestGroup(counts, lo, hi, tfs)
  {
    var q := Query(lo, hi, {tf}, Some(chunk));
    if i :| 0 <= i < |counts| && counts[i].cell.tf == tf && counts[i].cell.chunk == chunk {
      LargestToBounds(counts, |counts|, lo, hi, tfs, i);
    } else {
      SumToVanishes(counts, |counts|, q);
    }
  }

  /** It is a real group's rows, unless no asked group holds any. */
  lemma {:induction false} LargestGroupIsAttained(counts: Counts, j: nat, lo: Time, hi: Time, tfs: set<Tf>)
    requires j <= |counts| && Valid(counts) && LargestTo(counts, j, lo, hi, tfs) > 0.0
    ensures exists i :: 0 <= i < j && counts[i].cell.tf in tfs &&
              LargestTo(counts, j, lo, hi, tfs) ==
              Sum(counts, Query(lo, hi, {counts[i].cell.tf}, Some(counts[i].cell.chunk)))
  {
    var e := counts[j - 1].cell;
    if LargestTo(counts, j, lo, hi, tfs) == LargestTo(counts, j - 1, lo, hi, tfs) {
      LargestGroupIsAttained(counts, j - 1, lo, hi, tfs);
    } else {
      assert e == counts[j - 1].cell && e.tf in tfs;
    }
  }

  lemma {:induction false} LargestToGrows(counts: Counts, j: nat, lo: Time, hi: Time, a: set<Tf>, b: set<Tf>)
    requires j <= |counts| && Valid(counts) && a <= b
    ensures LargestTo(counts, j, lo, hi, a) <= LargestTo(counts, j, lo, hi, b)
  {
    if j > 0 {
      LargestToGrows(counts, j - 1, lo, hi, a, b);
      RowsNonNegative(counts, Query(lo, hi, {counts[j - 1].cell.tf}, Some(counts[j - 1].cell.chunk)));
    }
  }

  function SpoolBytes(rows: real, inp: Inputs): real
    requires ValidInputs(inp)
  {
    SPOOLS_IN_FLIGHT * rows * (inp.bytesPerRow / inp.storedPerSpool)
  }

  lemma SpoolGrows(a: real, b: real, inp: Inputs)
    requires ValidInputs(inp) && a <= b
    ensures SpoolBytes(a, inp) <= SpoolBytes(b, inp)
  {
    var f := inp.bytesPerRow / inp.storedPerSpool;
    Distributes(f, SPOOLS_IN_FLIGHT * a, SPOOLS_IN_FLIGHT * (b - a));
    assert f * (SPOOLS_IN_FLIGHT * (b - a)) >= 0.0;
  }

  // ----- Peaks -------------------------------------------------------------------------------------

  datatype Peak = Peak(
    intraday: real,
    straddle: real,
    compressedRest: real,
    dailyUncompressed: real,
    dailyCompressed: real,
    wal: real,
    spool: real)

  function Total(p: Peak): real
  {
    p.intraday + p.straddle + p.compressedRest + p.dailyUncompressed + p.dailyCompressed + p.wal + p.spool
  }

  function DailyPeak(counts: Counts, inp: Inputs): Peak
    requires Valid(counts) && ValidInputs(inp)
  {
    Peak(0.0, 0.0, 0.0, Rows(counts, EPOCH, FAR_FUTURE, DAILY) * inp.bytesPerRow, 0.0,
         inp.walBytes as real, SpoolBytes(LargestGroup(counts, EPOCH, FAR_FUTURE, DAILY), inp))
  }

  function SpanPeak(spans: seq<Span>, k: nat, counts: Counts, inp: Inputs): Peak
    requires k < |spans| && Valid(counts) && ValidInputs(inp)
  {
    PeakAt(spans, k, counts, inp, ChunkFloor(spans[k].start, inp.chunkInterval))
  }

  /** The peak of span k when its open chunk starts at `openFrom`. */
  function PeakAt(spans: seq<Span>, k: nat, counts: Counts, inp: Inputs, openFrom: Time): Peak
    requires k < |spans| && Valid(counts) && ValidInputs(inp)
  {
    var start, end := spans[k].start, spans[k].end;
    var b := inp.bytesPerRow;
    Peak(Rows(counts, start, end, INTRADAY) * b,
         (if k > 0 then Rows(counts, openFrom, start, INTRADAY) else 0.0) * b,
         Rows(counts, EPOCH, openFrom, INTRADAY) * CompressedRow(inp),
         Rows(counts, openFrom, FAR_FUTURE, DAILY) * b,
         Rows(counts, EPOCH, openFrom, DAILY) * CompressedRow(inp),
         inp.walBytes as real,
         SpoolBytes(LargestGroup(counts, start, end, INTRADAY), inp))
  }

  /** What one step adds over the footprint it starts from. */
  function StepIncrement(spans: seq<Span>, step: Step, counts: Counts, inp: Inputs, loaded: real): real
    requires StepOf(spans, step) && Valid(counts) && ValidInputs(inp)
  {
    var s := Bounds(spans, step);
    var rows := MaxReal(0.0, Rows(counts, s.start, s.end, {TfOf(step)}) - loaded);
    rows * inp.bytesPerRow + inp.walBytes as real
    + SpoolBytes(LargestGroup(counts, s.start, s.end, {TfOf(step)}), inp)
  }

  /** INTRADAY_TFS before this one: 1h, then 15m, then 5m. */
  function EarlierTfs(tf: Tf): set<Tf>
  {
    match tf
    case D1 => {}
    case H1 => {}
    case M15 => {H1}
    case M5 => {H1, M15}
  }

  function FootprintBefore(spans: seq<Span>, step: Step, counts: Counts, inp: Inputs): real
    requires StepOf(spans, step) && Valid(counts) && ValidInputs(inp)
  {
    if step.Daily? then 0.0
    else
      var p := SpanPeak(spans, step.k, counts, inp);
      Rows(counts, spans[step.k].start, spans[step.k].end, EarlierTfs(step.tf)) * inp.bytesPerRow
      + p.straddle + p.compressedRest + p.dailyUncompressed + p.dailyCompressed
  }

  function PeakOf(spans: seq<Span>, step: Step, counts: Counts, inp: Inputs): Peak
    requires StepOf(spans, step) && Valid(counts) && ValidInputs(inp)
  {
    if step.Daily? then DailyPeak(counts, inp) else SpanPeak(spans, step.k, counts, inp)
  }

  /** `project` then `overflowing`: the 1d stage and every span fit the limit. */
  ghost predicate PlanFits(spans: seq<Span>, counts: Counts, inp: Inputs)
    requires Valid(counts) && ValidInputs(inp)
  {
    && Total(DailyPeak(counts, inp)) <= Limit(inp)
    && forall k :: 0 <= k < |spans| ==> Total(SpanPeak(spans, k, counts, inp)) <= Limit(inp)
  }

  lemma RowsGrow(counts: Counts, lo: Time, hi: Time, tfs: set<Tf>, a: set<Tf>)
    requires Valid(counts) && a <= tfs
    ensures 0.0 <= Rows(counts, lo, hi, a) <= Rows(counts, lo, hi, tfs)
    ensures Rows(counts, lo, hi, tfs) == Rows(counts, lo, hi, a) + Rows(counts, lo, hi, tfs - a)
  {
    assert tfs == a + (tfs - a);
    RowsAddOverTfs(counts, lo, hi, tfs, a, tfs - a);
    RowsNonNegative(counts, Query(lo, hi, a, None));
    RowsNonNegative(counts, Query(lo, hi, tfs - a, None));
  }

  lemma ScalesUp(a: real, b: real, f: real)
    requires a <= b && f >= 0.0
    ensures a * f <= b * f
  {
    Distributes(f, a, b - a);
    assert f * (b - a) >= 0.0;
  }

  /** The step's modelled start and its increment never exceed its peak, whatever the ratio. */
  lemma GateWithinPeak(spans: seq<Span>, step: Step, counts: Counts, inp: Inputs)
    requires StepOf(spans, step) && Valid(counts) && ValidInputs(inp)
    ensures FootprintBefore(spans, step, counts, inp) + StepIncrement(spans, step, counts, inp, 0.0)
            <= Total(PeakOf(spans, step, counts, inp))
  {
    var s := Bounds(spans, step);
    RowsNonNegative(counts, Query(s.start, s.end, {TfOf(step)}, None));
    if step.Intraday? {
      var earlier := EarlierTfs(step.tf);
      var upTo := earlier + {step.tf};
      RowsAddOverTfs(counts, s.start, s.end, upTo, earlier, {step.tf});
      RowsGrow(counts, s.start, s.end, INTRADAY, upTo);
      ScalesUp(Rows(counts, s.start, s.end, upTo), Rows(counts, s.start, s.end, INTRADAY), inp.bytesPerRow);
      Distributes(inp.bytesPerRow, Rows(counts, s.start, s.end, earlier), Rows(counts, s.start, s.end, {step.tf}));
      LargestToGrows(counts, |counts|, s.start, s.end, {step.tf}, INTRADAY);
      SpoolGrows(LargestGroup(counts, s.start, s.end, {step.tf}), LargestGroup(counts, s.start, s.end, INTRADAY), inp);
    }
  }
}
