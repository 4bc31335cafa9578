/** The disk budget over a whole corpus rerun: rows are written step by step, finished chunks are
    compressed, a kill may stop any step part way, and every step's gate still passes. */
module BudgetRun {
  import opened Prelude
  import opened Civil
  import opened RowCounts
  import opened DiskBudget
  import Table = Compression

  /** Where a run stands: the step it is in (or is about to resume), the rows it has written of
      each cell, and the compression frontier (everything before it is compressed). */
  datatype Progress = Progress(step: Step, written: Counts, frontier: Time)

  /** The modelled bytes on disk: compressed before the frontier, uncompressed from it on. */
  function Footprint(w: Counts, frontier: Time, inp: Inputs): real
    requires Valid(w) && ValidInputs(inp)
  {
    Rows(w, frontier, FAR_FUTURE, EVERY_TF) * inp.bytesPerRow
    + Rows(w, EPOCH, frontier, EVERY_TF) * CompressedRow(inp)
  }

  /** The step's gate: modelled growth plus the increment, less what the step already loaded. */
  function GateBytes(spans: seq<Span>, p: Progress, counts: Counts, inp: Inputs): real
    requires StepOf(spans, p.step) && Valid(counts) && Valid(p.written) && ValidInputs(inp)
  {
    var s := Bounds(spans, p.step);
    Footprint(p.written, p.frontier, inp)
    + StepIncrement(spans, p.step, counts, inp, Rows(p.written, s.start, s.end, {TfOf(p.step)}))
  }

  /** The spans follow one another inside the modelled era. */
  predicate SpansFollow(spans: seq<Span>)
  {
    && spans != [] && EPOCH <= spans[0].start
    && (forall k :: 0 <= k < |spans| ==> spans[k].start < spans[k].end <= FAR_FUTURE)
    && (forall k :: 0 <= k < |spans| - 1 ==> spans[k].end == spans[k + 1].start)
  }

  /** No intraday row lies before the first span: the spans start at the first intraday year. */
  ghost predicate StartsWithSpans(counts: Counts, spans: seq<Span>)
    requires spans != []
  {
    forall i :: 0 <= i < |counts| && counts[i].cell.tf in INTRADAY && counts[i].n > 0.0 ==>
      spans[0].start <= counts[i].start
  }

  lemma {:induction false} SpansIncrease(spans: seq<Span>, i: nat, j: nat)
    requires SpansFollow(spans) && i <= j < |spans|
    ensures EPOCH <= spans[i].start <= spans[j].start < spans[j].end <= FAR_FUTURE
    ensures i < j ==> spans[i].end <= spans[j].start
    decreases j - i
  {
    if i < j {
      SpansIncrease(spans, i, j - 1);
    } else if i > 0 {
      FirstSpanFirst(spans, i);
    }
  }

  lemma {:induction false} FirstSpanFirst(spans: seq<Span>, i: nat)
    requires SpansFollow(spans) && i < |spans|
    ensures EPOCH <= spans[i].start
  {
    if i > 0 {
      FirstSpanFirst(spans, i - 1);
    }
  }

  // ----- Compression only frees ------------------------------------------------------------------

  lemma CompressedIsSmaller(inp: Inputs)
    requires ValidInputs(inp) && inp.compressionRatio >= 1.0
    ensures CompressedRow(inp) <= inp.bytesPerRow
  {
    QuotientIsSmaller(inp.bytesPerRow, inp.compressionRatio);
  }

  lemma QuotientIsSmaller(b: real, ratio: real)
    requires b > 0.0 && ratio >= 1.0
    ensures b / ratio <= b
  {
    var q := b / ratio;
    assert q * ratio == b;
    assert q * (ratio - 1.0) >= 0.0;
    assert q * ratio == q * (ratio - 1.0) + q;
  }

  /** With a ratio of at least 1, a frontier further on never means more bytes: compressing after a
      span, or part of it, only frees space. */
  lemma CompressionFrees(w: Counts, f: Time, g: Time, inp: Inputs)
    requires Valid(w) && ValidInputs(inp) && inp.compressionRatio >= 1.0
    requires EPOCH <= f <= g <= FAR_FUTURE
    ensures Footprint(w, g, inp) <= Footprint(w, f, inp)
  {
    var b, r := inp.bytesPerRow, CompressedRow(inp);
    var before, moved, after := Rows(w, EPOCH, f, EVERY_TF), Rows(w, f, g, EVERY_TF), Rows(w, g, FAR_FUTURE, EVERY_TF);
    RowsAddOverTime(w, f, g, FAR_FUTURE, EVERY_TF);
    RowsAddOverTime(w, EPOCH, f, g, EVERY_TF);
    RowsNonNegative(w, Query(f, g, EVERY_TF, None));
    CompressedIsSmaller(inp);
    MovingFrees(before, moved, after, Rows(w, EPOCH, g, EVERY_TF), Rows(w, f, FAR_FUTURE, EVERY_TF), b, r);
  }

  lemma MovingFrees(before: real, moved: real, after: real, old_: real, open: real, b: real, r: real)
    requires old_ == before + moved && open == moved + after && moved >= 0.0 && r <= b
    ensures after * b + old_ * r <= open * b + before * r
  {
    ScalesUp(r, b, moved);
    Distributes(r, before, moved);
    Distributes(b, moved, after);
  }

  // ----- The 1d stage ------------------------------------------------------------------------------

  lemma DailyAndIntraday(w: Counts, lo: Time, hi: Time)
    requires Valid(w)
    ensures Rows(w, lo, hi, EVERY_TF) == Rows(w, lo, hi, DAILY) + Rows(w, lo, hi, INTRADAY)
  {
    RowsAddOverTfs(w, lo, hi, EVERY_TF, DAILY, INTRADAY);
  }

  /** With nothing compressed yet, the 1d stage's gate sees its own peak plus whatever intraday rows
      are already there. */
  lemma DailyGateIs(spans: seq<Span>, counts: Counts, w: Counts, inp: Inputs)
    requires Valid(counts) && Valid(w) && Within(w, counts) && ValidInputs(inp)
    ensures GateBytes(spans, Progress(Daily, w, EPOCH), counts, inp)
            == Total(DailyPeak(counts, inp)) + Rows(w, EPOCH, FAR_FUTURE, INTRADAY) * inp.bytesPerRow
  {
    var b := inp.bytesPerRow;
    var all, loaded := Rows(counts, EPOCH, FAR_FUTURE, DAILY), Rows(w, EPOCH, FAR_FUTURE, DAILY);
    PartIsLess(w, counts, Query(EPOCH, FAR_FUTURE, DAILY, None));
    DailyAndIntraday(w, EPOCH, FAR_FUTURE);
    Distributes(b, loaded, Rows(w, EPOCH, FAR_FUTURE, INTRADAY));
    Distributes(b, loaded, all - loaded);
    RowsVanish(w, EPOCH, EPOCH, EVERY_TF);
  }

  // ----- A span's steps ------------------------------------------------------------------------------

  /** What a run in span k can have written: 1d rows, and intraday rows of months that end by the
      span's end. */
  ghost predicate WrittenThrough(w: Counts, end: Time)
  {
    forall i :: 0 <= i < |w| && w[i].n > 0.0 && w[i].cell.tf in INTRADAY ==> w[i].end <= end
  }

  /** Intraday rows from the open chunk on: the straddling rows, the span's rows of this timeframe
      already loaded, and at most the counts of its other timeframes. */
  lemma OpenIntradayRows(spans: seq<Span>, k: nat, tf: Tf, counts: Counts, w: Counts, open: Time)
    requires SpansFollow(spans) && k < |spans| && tf in INTRADAY
    requires Valid(counts) && Valid(w) && Within(w, counts) && StartsWithSpans(counts, spans)
    requires WrittenThrough(w, spans[k].end) && EPOCH <= open <= spans[k].start
    ensures Rows(w, open, FAR_FUTURE, INTRADAY) <=
            (if k > 0 then Rows(counts, open, spans[k].start, INTRADAY) else 0.0)
            + Rows(w, spans[k].start, spans[k].end, {tf})
            + Rows(counts, spans[k].start, spans[k].end, INTRADAY) - Rows(counts, spans[k].start, spans[k].end, {tf})
  {
    var start, end := spans[k].start, spans[k].end;
    SpansIncrease(spans, k, k);
    RowsAddOverTime(w, open, start, FAR_FUTURE, INTRADAY);
    RowsAddOverTime(w, start, end, FAR_FUTURE, INTRADAY);
    RowsVanish(w, end, FAR_FUTURE, INTRADAY);
    if k > 0 {
      PartIsLess(w, counts, Query(open, start, INTRADAY, None));
    } else {
      RowsVanish(w, open, start, INTRADAY);
    }
    RowsGrow(w, start, end, INTRADAY, {tf});
    RowsGrow(counts, start, end, INTRADAY, {tf});
    PartIsLess(w, counts, Query(start, end, INTRADAY - {tf}, None));
  }

  /** What is on disk uncompressed, plus what the step has left to write, is covered by the span, its
      straddling rows and the open 1d rows; what is compressed by the compressed terms. */
  lemma SpanRows(spans: seq<Span>, k: nat, tf: Tf, counts: Counts, w: Counts, open: Time)
    requires SpansFollow(spans) && k < |spans| && tf in INTRADAY
    requires Valid(counts) && Valid(w) && Within(w, counts) && StartsWithSpans(counts, spans)
    requires WrittenThrough(w, spans[k].end) && EPOCH <= open <= spans[k].start
    ensures var start, end := spans[k].start, spans[k].end;
            && 0.0 <= Rows(counts, start, end, {tf}) - Rows(w, start, end, {tf})
            && Rows(w, open, FAR_FUTURE, EVERY_TF) + Rows(counts, start, end, {tf}) - Rows(w, start, end, {tf})
               <= (if k > 0 then Rows(counts, open, start, INTRADAY) else 0.0)
                  + Rows(counts, start, end, INTRADAY) + Rows(counts, open, FAR_FUTURE, DAILY)
            && Rows(w, EPOCH, open, EVERY_TF)
               <= Rows(counts, EPOCH, open, INTRADAY) + Rows(counts, EPOCH, open, DAILY)
  {
    OpenIntradayRows(spans, k, tf, counts, w, open);
    DailyAndIntraday(w, open, FAR_FUTURE);
    DailyAndIntraday(w, EPOCH, open);
    PartIsLess(w, counts, Query(open, FAR_FUTURE, DAILY, None));
    PartIsLess(w, counts, Query(EPOCH, open, DAILY, None));
    PartIsLess(w, counts, Query(EPOCH, open, INTRADAY, None));
    PartIsLess(w, counts, Query(spans[k].start, spans[k].end, {tf}, None));
  }

  lemma SpanRowsLeft(spans: seq<Span>, k: nat, tf: Tf, counts: Counts, w: Counts, open: Time, straddle: real)
    requires SpansFollow(spans) && k < |spans| && tf in INTRADAY
    requires Valid(counts) && Valid(w) && Within(w, counts) && StartsWithSpans(counts, spans)
    requires WrittenThrough(w, spans[k].end) && EPOCH <= open <= spans[k].start
    requires straddle == if k > 0 then Rows(counts, open, spans[k].start, INTRADAY) else 0.0
    ensures Rows(w, open, FAR_FUTURE, EVERY_TF)
            + MaxReal(0.0, Rows(counts, spans[k].start, spans[k].end, {tf}) - Rows(w, spans[k].start, spans[k].end, {tf}))
            <= straddle + Rows(counts, spans[k].start, spans[k].end, INTRADAY) + Rows(counts, open, FAR_FUTURE, DAILY)
    ensures Rows(w, EPOCH, open, EVERY_TF) <= Rows(counts, EPOCH, open, INTRADAY) + Rows(counts, EPOCH, open, DAILY)
  {
    SpanRows(spans, k, tf, counts, w, open);
  }

  /** The same in bytes. */
  lemma GateArithmetic(open: real, old_: real, left: real, straddle: real, span: real, daily: real,
                       oldIntraday: real, oldDaily: real, b: real, r: real, stored: real)
    requires b > 0.0 && r > 0.0
    requires stored == span * b + straddle * b + oldIntraday * r + daily * b + oldDaily * r
    requires open + left <= straddle + span + daily && old_ <= oldIntraday + oldDaily
    ensures open * b + old_ * r + left * b <= stored
  {
    ScalesUp(open + left, straddle + span + daily, b);
    Distributes(b, open, left);
    Distributes(b, straddle, span);
    Distributes(b, straddle + span, daily);
    ScalesUp(old_, oldIntraday + oldDaily, r);
    Distributes(r, oldIntraday, oldDaily);
  }

  lemma LargerSpool(spans: seq<Span>, k: nat, tf: Tf, counts: Counts, inp: Inputs)
    requires k < |spans| && tf in INTRADAY && Valid(counts) && ValidInputs(inp)
    ensures SpoolBytes(LargestGroup(counts, spans[k].start, spans[k].end, {tf}), inp)
            <= SpoolBytes(LargestGroup(counts, spans[k].start, spans[k].end, INTRADAY), inp)
  {
    LargestToGrows(counts, |counts|, spans[k].start, spans[k].end, {tf}, INTRADAY);
    SpoolGrows(LargestGroup(counts, spans[k].start, spans[k].end, {tf}),
               LargestGroup(counts, spans[k].start, spans[k].end, INTRADAY), inp);
  }

  /** The stored terms of a peak: everything but the WAL and the spools. */
  function StoredBytes(p: Peak): real
  {
    p.intraday + p.straddle + p.compressedRest + p.dailyUncompressed + p.dailyCompressed
  }

  lemma StoredTerms(spans: seq<Span>, k: nat, counts: Counts, inp: Inputs, open: Time, straddle: real)
    requires k < |spans| && Valid(counts) && ValidInputs(inp)
    requires straddle == if k > 0 then Rows(counts, open, spans[k].start, INTRADAY) else 0.0
    ensures StoredBytes(PeakAt(spans, k, counts, inp, open)) ==
            Rows(counts, spans[k].start, spans[k].end, INTRADAY) * inp.bytesPerRow + straddle * inp.bytesPerRow
            + Rows(counts, EPOCH, open, INTRADAY) * CompressedRow(inp)
            + Rows(counts, open, FAR_FUTURE, DAILY) * inp.bytesPerRow
            + Rows(counts, EPOCH, open, DAILY) * CompressedRow(inp)
  {
    var p := PeakAt(spans, k, counts, inp, open);
    assert p.straddle == straddle * inp.bytesPerRow;
    assert p.compressedRest == Rows(counts, EPOCH, open, INTRADAY) * CompressedRow(inp);
    assert p.dailyCompressed == Rows(counts, EPOCH, open, DAILY) * CompressedRow(inp);
  }

  /** Stored bytes and bytes left to write stay within the span's stored terms. */
  lemma SpanBytes(spans: seq<Span>, k: nat, tf: Tf, counts: Counts, w: Counts, inp: Inputs, open: Time,
                    straddle: real, stored: real) returns (x: real, y: real, z: real)
    requires SpansFollow(spans) && k < |spans| && tf in INTRADAY
    requires Valid(counts) && Valid(w) && Within(w, counts) && StartsWithSpans(counts, spans)
    requires WrittenThrough(w, spans[k].end) && ValidInputs(inp) && EPOCH <= open <= spans[k].start
    requires straddle == if k > 0 then Rows(counts, open, spans[k].start, INTRADAY) else 0.0
    requires stored ==
            Rows(counts, spans[k].start, spans[k].end, INTRADAY) * inp.bytesPerRow + straddle * inp.bytesPerRow
            + Rows(counts, EPOCH, open, INTRADAY) * CompressedRow(inp)
            + Rows(counts, open, FAR_FUTURE, DAILY) * inp.bytesPerRow
            + Rows(counts, EPOCH, open, DAILY) * CompressedRow(inp)
    ensures x == Rows(w, open, FAR_FUTURE, EVERY_TF) && y == Rows(w, EPOCH, open, EVERY_TF)
    ensures z == MaxReal(0.0, Rows(counts, spans[k].start, spans[k].end, {tf})
                           - Rows(w, spans[k].start, spans[k].end, {tf}))
    ensures x * inp.bytesPerRow + y * CompressedRow(inp) + z * inp.bytesPerRow <= stored
  {
    x, y := Rows(w, open, FAR_FUTURE, EVERY_TF), Rows(w, EPOCH, open, EVERY_TF);
    z := MaxReal(0.0, Rows(counts, spans[k].start, spans[k].end, {tf})
                           - Rows(w, spans[k].start, spans[k].end, {tf}));
    SpanRowsLeft(spans, k, tf, counts, w, open, straddle);
    GateArithmetic(x, y, z, straddle,
                   Rows(counts, spans[k].start, spans[k].end, INTRADAY), Rows(counts, open, FAR_FUTURE, DAILY),
                   Rows(counts, EPOCH, open, INTRADAY), Rows(counts, EPOCH, open, DAILY),
                   inp.bytesPerRow, CompressedRow(inp), stored);
  }

  /** The gate at the span's open chunk. */
  lemma IntradayGateAtOpenChunk(spans: seq<Span>, k: nat, tf: Tf, counts: Counts, w: Counts, inp: Inputs, open: Time,
                                p: Peak)
    requires SpansFollow(spans) && k < |spans| && tf in INTRADAY
    requires Valid(counts) && Valid(w) && Within(w, counts) && StartsWithSpans(counts, spans)
    requires WrittenThrough(w, spans[k].end) && ValidInputs(inp)
    requires EPOCH <= open <= spans[k].start && p == PeakAt(spans, k, counts, inp, open)
    ensures GateBytes(spans, Progress(Intraday(k, tf), w, open), counts, inp) <= Total(p)
  {
    var straddle := if k > 0 then Rows(counts, open, spans[k].start, INTRADAY) else 0.0;
    StoredTerms(spans, k, counts, inp, open, straddle);
    var x, y, z := SpanBytes(spans, k, tf, counts, w, inp, open, straddle, StoredBytes(p));
    LargerSpool(spans, k, tf, counts, inp);
    GateFromTerms(spans, k, tf, counts, w, inp, open, p, x, y, z);
  }

  lemma GateFromTerms(spans: seq<Span>, k: nat, tf: Tf, counts: Counts, w: Counts, inp: Inputs, open: Time, p: Peak,
                      x: real, y: real, z: real)
    requires k < |spans| && tf in INTRADAY && Valid(counts) && Valid(w) && ValidInputs(inp)
    requires x == Rows(w, open, FAR_FUTURE, EVERY_TF) && y == Rows(w, EPOCH, open, EVERY_TF)
    requires z == MaxReal(0.0, Rows(counts, spans[k].start, spans[k].end, {tf})
                               - Rows(w, spans[k].start, spans[k].end, {tf}))
    requires x * inp.bytesPerRow + y * CompressedRow(inp) + z * inp.bytesPerRow <= StoredBytes(p)
    requires p.wal == inp.walBytes as real
    requires SpoolBytes(LargestGroup(counts, spans[k].start, spans[k].end, {tf}), inp) <= p.spool
    ensures GateBytes(spans, Progress(Intraday(k, tf), w, open), counts, inp) <= Total(p)
  {
  }

  /** The gate of a span's step passes: at its start, part way, after a kill, with any part of its
      chunks compressed beyond the open one. */
  lemma IntradayGateHolds(spans: seq<Span>, k: nat, tf: Tf, counts: Counts, w: Counts, f: Time, inp: Inputs)
    requires SpansFollow(spans) && k < |spans| && tf in INTRADAY
    requires Valid(counts) && Valid(w) && Within(w, counts) && StartsWithSpans(counts, spans)
    requires WrittenThrough(w, spans[k].end) && ValidInputs(inp) && inp.compressionRatio >= 1.0
    requires ChunkFloor(spans[k].start, inp.chunkInterval) <= f <= FAR_FUTURE
    ensures GateBytes(spans, Progress(Intraday(k, tf), w, f), counts, inp)
            <= Total(SpanPeak(spans, k, counts, inp))
  {
    var open := ChunkFloor(spans[k].start, inp.chunkInterval);
    SpansIncrease(spans, k, k);
    ChunkFloorHolds(spans[k].start, spans[k].start, inp.chunkInterval);
    IntradayGateAtOpenChunk(spans, k, tf, counts, w, inp, open, PeakAt(spans, k, counts, inp, open));
    CompressionFrees(w, open, f, inp);
  }

  // ----- The run ---------------------------------------------------------------------------------------

  /** What a corpus run fixes: its spans, the rows to write, the budget's inputs, the planned units and
      the open chunk floor. */
  datatype Plan = Plan(spans: seq<Span>, counts: Counts, inp: Inputs, units: seq<Table.Unit>, floor: Time)

  function Corpus(plan: Plan): Table.Corpus
  {
    Table.Corpus(plan.units, plan.inp.chunkInterval, plan.floor)
  }

  ghost predicate Modelled(plan: Plan)
  {
    ValidInputs(plan.inp) && Table.WellFormed(Corpus(plan))
  }

  /** Every span starts by the horizon's year, and every intraday unit starts within the spans. */
  ghost predicate Planned(plan: Plan)
  {
    && Modelled(plan) && SpansFollow(plan.spans) && plan.floor <= FAR_FUTURE
    && (forall k :: 0 <= k < |plan.spans| ==> plan.spans[k].start <= plan.floor)
    && (forall u :: 0 <= u < |plan.units| && plan.units[u].tf != D1 ==>
          plan.spans[0].start <= plan.units[u].range.start < plan.spans[|plan.spans| - 1].end)
  }

  /** Where a run stands: the step, the rows written of each cell, and the feature table. */
  datatype Moment = Moment(step: Step, written: Counts, table: Table.State)

  function At(m: Moment): Progress
  {
    Progress(m.step, m.written, m.table.frontier)
  }

  /** A unit loaded, a reading or compression step of a stage, or the next step. */
  datatype Action =
    | Load(unit: nat, touched: set<Time>, written: Counts)
    | Keep(step: Table.Action)
    | Advance

  function After(spans: seq<Span>, step: Step): (next: Option<Step>)
    requires StepOf(spans, step)
  {
    match step
    case Daily => if spans == [] then None else Some(Intraday(0, H1))
    case Intraday(k, tf) =>
      if tf == H1 then Some(Intraday(k, M15))
      else if tf == M15 then Some(Intraday(k, M5))
      else if k + 1 < |spans| then Some(Intraday(k + 1, H1))
      else None
  }

  /** The step executes the unit. */
  predicate InScope(spans: seq<Span>, step: Step, unit: Table.Unit)
    requires StepOf(spans, step)
  {
    unit.tf == TfOf(step) && Executes(SpanOfStep(spans, step), unit.range)
  }

  /** Rows only grow, in the cells of the step being run and no earlier than the unit. */
  ghost predicate Loads(spans: seq<Span>, m: Moment, counts: Counts, unit: Table.Unit, w: Counts)
    requires StepOf(spans, m.step)
  {
    && Within(m.written, w) && Within(w, counts)
    && forall i :: 0 <= i < |w| && w[i].n != m.written[i].n ==>
         && w[i].cell.tf == TfOf(m.step) && unit.range.start <= w[i].start
         && (m.step.Intraday? ==> spans[m.step.k].start <= w[i].start && w[i].end <= spans[m.step.k].end)
  }

  /** The step's stage ended well: each of its units is known to be completed, and it has compressed up
      to its bound. */
  ghost predicate StageEnded(plan: Plan, m: Moment)
    requires ValidInputs(plan.inp) && StepOf(plan.spans, m.step)
  {
    && (forall u: nat :: u < |plan.units| && InScope(plan.spans, m.step, plan.units[u]) ==> u in m.table.known)
    && Table.UpToBound(Corpus(plan), m.table)
  }

  ghost predicate Enabled(plan: Plan, m: Moment, a: Action)
    requires Modelled(plan) && StepOf(plan.spans, m.step)
  {
    match a
    case Load(u, touched, w) =>
      && Table.Enabled(Corpus(plan), m.table, Table.Load(u, touched))
      && InScope(plan.spans, m.step, plan.units[u]) && Loads(plan.spans, m, plan.counts, plan.units[u], w)
    case Keep(step) => !step.Load? && Table.Enabled(Corpus(plan), m.table, step)
    case Advance => After(plan.spans, m.step).Some? && StageEnded(plan, m)
  }

  /** The next step's stage begins by reading every unit's completion. */
  ghost function Apply(plan: Plan, m: Moment, a: Action): Moment
    requires ValidInputs(plan.inp) && StepOf(plan.spans, m.step)
    requires a.Advance? ==> After(plan.spans, m.step).Some?
  {
    match a
    case Load(u, touched, w) => m.(written := w, table := Table.Apply(Corpus(plan), m.table, Table.Load(u, touched)))
    case Keep(step) => m.(table := Table.Apply(Corpus(plan), m.table, step))
    case Advance =>
      m.(step := After(plan.spans, m.step).value,
         table := Table.Apply(Corpus(plan), m.table, Table.Learn(m.table.completed)))
  }

  ghost predicate NextAt(plan: Plan, states: seq<Moment>, actions: seq<Action>, i: nat)
    requires Modelled(plan) && i < |actions| && |states| == |actions| + 1
  {
    && StepOf(plan.spans, states[i].step)
    && Enabled(plan, states[i], actions[i])
    && states[i + 1] == Apply(plan, states[i], actions[i])
  }

  /** Any run of the steps from its first state on. */
  ghost predicate Steps(plan: Plan, states: seq<Moment>, actions: seq<Action>)
  {
    && Modelled(plan) && |states| == |actions| + 1
    && forall i :: 0 <= i < |actions| ==> NextAt(plan, states, actions, i)
  }

  /** Nothing written by the run; the table may hold what earlier runs left, compressed or not. */
  ghost predicate Fresh(plan: Plan, m: Moment)
    requires Modelled(plan)
  {
    && m.step.Daily? && Within(m.written, plan.counts) && Table.Sound(Corpus(plan), m.table)
    && forall i :: 0 <= i < |m.written| ==> m.written[i].n == 0.0
  }

  ghost predicate Run(plan: Plan, states: seq<Moment>, actions: seq<Action>)
  {
    Steps(plan, states, actions) && Fresh(plan, states[0])
  }

  /** After the pilot: 1d rows, intraday rows of the first span only, and whatever the pilot's own stages
      compressed. */
  ghost predicate AfterPilot(plan: Plan, m: Moment)
    requires Modelled(plan) && plan.spans != []
  {
    && m.step.Daily? && Within(m.written, plan.counts) && WrittenThrough(m.written, plan.spans[0].end)
    && Table.Sound(Corpus(plan), m.table)
  }

  /** The unit is executed by a step before this one. */
  ghost predicate Earlier(spans: seq<Span>, step: Step, unit: Table.Unit)
    requires StepOf(spans, step)
  {
    step.Intraday? &&
    (|| unit.tf == D1
     || unit.range.start < spans[step.k].start
     || (unit.range.start < spans[step.k].end && unit.tf in EarlierTfs(step.tf)))
  }

  /** The units of every step before this one are known to be completed. */
  ghost predicate EarlierKnown(plan: Plan, m: Moment)
    requires StepOf(plan.spans, m.step)
  {
    forall u: nat :: u < |plan.units| && Earlier(plan.spans, m.step, plan.units[u]) ==> u in m.table.known
  }

  /** The rows written and the frontier are what the peak of the step's span assumes. */
  ghost predicate PeakHolds(plan: Plan, m: Moment)
    requires Planned(plan) && StepOf(plan.spans, m.step)
  {
    && Within(m.written, plan.counts)
    && (m.step.Daily? ==> WrittenThrough(m.written, plan.spans[0].end))
    && (m.step.Intraday? ==>
          && WrittenThrough(m.written, plan.spans[m.step.k].end)
          && ChunkFloor(plan.spans[m.step.k].start, plan.inp.chunkInterval) <= m.table.frontier)
  }

  ghost predicate Inv(plan: Plan, m: Moment)
    requires Planned(plan)
  {
    StepOf(plan.spans, m.step) && Table.Sound(Corpus(plan), m.table) && EarlierKnown(plan, m) && PeakHolds(plan, m)
  }

  /** A step's place in the run: the 1d stage first, then each span's 1h, 15m and 5m. */
  function Place(step: Step): nat
  {
    match step
    case Daily => 0
    case Intraday(k, tf) => 3 * k + if tf == H1 then 1 else if tf == M15 then 2 else 3
  }

  /** The steps come one place after another, each once, and the last is the last span's 5m stage. */
  lemma StepsAreInOrder(spans: seq<Span>, step: Step, other: Step)
    requires StepOf(spans, step) && StepOf(spans, other)
    ensures Place(step) == Place(other) <==> step == other
    ensures Place(step) <= 3 * |spans|
    ensures After(spans, step).None? <==> Place(step) == 3 * |spans|
    ensures After(spans, step).Some? ==>
              StepOf(spans, After(spans, step).value) && Place(After(spans, step).value) == Place(step) + 1
  {
  }

  /** A unit is executed by one step only (SomeStepExecutes of RunCompletion finds it), of its timeframe. */
  lemma NoOtherStepExecutes(plan: Plan, u: nat, step: Step, other: Step)
    requires Planned(plan) && u < |plan.units| && StepOf(plan.spans, step) && StepOf(plan.spans, other)
    requires InScope(plan.spans, step, plan.units[u]) && InScope(plan.spans, other, plan.units[u])
    ensures step == other
  {
    if step.Intraday? && other.Intraday? && step.k < other.k {
      SpansIncrease(plan.spans, step.k, other.k);
    } else if step.Intraday? && other.Intraday? && other.k < step.k {
      SpansIncrease(plan.spans, other.k, step.k);
    }
  }

  /** Actions that moved on, of those before the n-th. */
  function Advances(actions: seq<Action>, n: nat): nat
    requires n <= |actions|
  {
    if n == 0 then 0 else Advances(actions, n - 1) + if actions[n - 1].Advance? then 1 else 0
  }

  /** A run stands as many places on as it moved on. */
  lemma {:induction false} StandsAt(plan: Plan, states: seq<Moment>, actions: seq<Action>, n: nat)
    requires Steps(plan, states, actions) && n < |states| && StepOf(plan.spans, states[0].step)
    ensures StepOf(plan.spans, states[n].step)
    ensures Place(states[n].step) == Place(states[0].step) + Advances(actions, n)
  {
    if n > 0 {
      StandsAt(plan, states, actions, n - 1);
      assert NextAt(plan, states, actions, n - 1);
      StepsAreInOrder(plan.spans, states[n - 1].step, states[n - 1].step);
    }
  }

  /** The rows written are those the last load left. */
  lemma {:induction false} LastLoadStands(plan: Plan, states: seq<Moment>, actions: seq<Action>, i: nat, j: nat)
    requires Steps(plan, states, actions) && i < j < |states| && actions[i].Load?
    requires forall n :: i < n < j ==> !actions[n].Load?
    ensures states[j].written == actions[i].written
    decreases j
  {
    assert NextAt(plan, states, actions, j - 1);
    if i < j - 1 {
      LastLoadStands(plan, states, actions, i, j - 1);
    }
  }

  lemma EarlierOfNext(spans: seq<Span>, step: Step, unit: Table.Unit)
    requires SpansFollow(spans) && StepOf(spans, step) && After(spans, step).Some?
    requires unit.tf != D1 ==> spans[0].start <= unit.range.start
    requires Earlier(spans, After(spans, step).value, unit)
    ensures Earlier(spans, step, unit) || InScope(spans, step, unit)
  {
    if step.Intraday? && step.tf == M5 {
      SpansIncrease(spans, step.k, step.k + 1);
      assert spans[step.k].end == spans[step.k + 1].start;
    }
  }

  /** What is not known to be completed when a step has ended starts no earlier than the next span, if
      that is where the run goes next. */
  lemma AllBeforeTheNextSpanIsKnown(plan: Plan, m: Moment, u: nat)
    requires Planned(plan) && Inv(plan, m) && StageEnded(plan, m) && After(plan.spans, m.step).Some?
    requires u < |plan.units| && Earlier(plan.spans, After(plan.spans, m.step).value, plan.units[u])
    ensures u in m.table.known
  {
    EarlierOfNext(plan.spans, m.step, plan.units[u]);
  }

  /** A span is entered with the frontier at its open chunk or past it: the steps before completed every
      unit that starts before it, and the last of them compressed up to its bound. */
  lemma FrontierReachesTheNextSpan(plan: Plan, m: Moment)
    requires Planned(plan) && Inv(plan, m) && StageEnded(plan, m)
    requires After(plan.spans, m.step).Some? && After(plan.spans, m.step).value.tf == H1
    ensures var next := plan.spans[After(plan.spans, m.step).value.k].start;
            && ChunkFloor(next, plan.inp.chunkInterval) <= m.table.frontier
            && Table.NoneLeft(m.table, plan.inp.chunkInterval, next)
  {
    var step := After(plan.spans, m.step).value;
    forall u: nat | u < |plan.units| && plan.units[u].range.start < plan.spans[step.k].start
      ensures u in m.table.known
    {
      AllBeforeTheNextSpanIsKnown(plan, m, u);
    }
    Table.FrontierReaches(Corpus(plan), m.table, plan.spans[step.k].start);
  }

  /** The check at the end of a span's last timeframe, that no chunk ending by the span's end (short of
      the open chunk) is left uncompressed, holds of itself once the stage has ended well. */
  lemma SpanEndCheckPasses(plan: Plan, m: Moment, k: nat)
    requires Planned(plan) && Inv(plan, m) && StageEnded(plan, m) && m.step == Intraday(k, M5)
    ensures Table.NoneLeft(m.table, plan.inp.chunkInterval, Min(plan.spans[k].end, plan.floor))
  {
    forall u: nat | u < |plan.units| && plan.units[u].range.start < plan.spans[k].end
      ensures u in m.table.known
    {
      assert Earlier(plan.spans, m.step, plan.units[u]) || InScope(plan.spans, m.step, plan.units[u]);
    }
    Table.FrontierReaches(Corpus(plan), m.table, Min(plan.spans[k].end, plan.floor));
  }

  lemma AdvanceKeepsInv(plan: Plan, m: Moment)
    requires Planned(plan) && Inv(plan, m) && Enabled(plan, m, Advance)
    ensures Inv(plan, Apply(plan, m, Advance))
  {
    var next := Apply(plan, m, Advance);
    Table.StepKeepsSound(Corpus(plan), m.table, Table.Learn(m.table.completed));
    forall u: nat | u < |plan.units| && Earlier(plan.spans, next.step, plan.units[u])
      ensures u in next.table.known
    {
      AllBeforeTheNextSpanIsKnown(plan, m, u);
    }
    if next.step.tf == H1 {
      FrontierReachesTheNextSpan(plan, m);
      if m.step.Intraday? {
        SpansIncrease(plan.spans, m.step.k, next.step.k);
      }
    }
  }

  lemma StepKeepsInv(plan: Plan, m: Moment, a: Action)
    requires Planned(plan) && Inv(plan, m) && Enabled(plan, m, a)
    ensures Inv(plan, Apply(plan, m, a))
  {
    match a
    case Load(u, touched, w) => Table.StepKeepsSound(Corpus(plan), m.table, Table.Load(u, touched));
    case Keep(step) => Table.StepKeepsSound(Corpus(plan), m.table, step);
    case Advance => AdvanceKeepsInv(plan, m);
  }

  lemma {:induction false} StepsKeepInv(plan: Plan, states: seq<Moment>, actions: seq<Action>, i: nat)
    requires Planned(plan) && Steps(plan, states, actions) && i < |states| && AfterPilot(plan, states[0])
    ensures Inv(plan, states[i])
  {
    if i > 0 {
      StepsKeepInv(plan, states, actions, i - 1);
      assert NextAt(plan, states, actions, i - 1);
      StepKeepsInv(plan, states[i - 1], actions[i - 1]);
    }
  }

  /** No row is ever written behind the frontier: what the footprint counts as compressed is. */
  lemma RowsLandAhead(plan: Plan, m: Moment, a: Action, i: nat)
    requires Planned(plan) && Inv(plan, m) && Enabled(plan, m, a) && a.Load? && i < |a.written|
    requires a.written[i].n != m.written[i].n
    ensures m.table.frontier <= a.written[i].start
  {
  }

  /** Without a pilot no intraday row is on disk during the 1d stage. */
  ghost predicate NoIntradayYet(m: Moment)
  {
    m.step.Daily? ==> forall i :: 0 <= i < |m.written| && m.written[i].cell.tf in INTRADAY ==> m.written[i].n == 0.0
  }

  lemma {:induction false} DailyComesFirst(plan: Plan, states: seq<Moment>, actions: seq<Action>, i: nat)
    requires Run(plan, states, actions) && i < |states|
    ensures NoIntradayYet(states[i])
  {
    if i > 0 {
      DailyComesFirst(plan, states, actions, i - 1);
      assert NextAt(plan, states, actions, i - 1);
    }
  }

  /** Budget soundness of the spans, pilot or not: a plan that fits passes every span step's gate at every
      moment of every run, part way through steps, after a kill, and during compression. */
  lemma SpanGatesNeverRefuse(plan: Plan, states: seq<Moment>, actions: seq<Action>, i: nat)
    requires Planned(plan) && plan.inp.compressionRatio >= 1.0 && Valid(plan.counts)
    requires Steps(plan, states, actions) && AfterPilot(plan, states[0]) && i < |states|
    requires StartsWithSpans(plan.counts, plan.spans) && PlanFits(plan.spans, plan.counts, plan.inp)
    requires states[i].step.Intraday?
    ensures StepOf(plan.spans, states[i].step) && Valid(states[i].written)
    ensures GateBytes(plan.spans, At(states[i]), plan.counts, plan.inp) <= Limit(plan.inp)
  {
    var m := states[i];
    StepsKeepInv(plan, states, actions, i);
    PartIsValid(m.written, plan.counts);
    IntradayGateHolds(plan.spans, m.step.k, m.step.tf, plan.counts, m.written, m.table.frontier, plan.inp);
  }

  /** Budget soundness. Without a pilot, a plan that fits passes every step's gate at every moment of every
      run: before, between and part way through steps, and before, during and after each compression. */
  lemma GateNeverRefuses(plan: Plan, states: seq<Moment>, actions: seq<Action>, i: nat)
    requires Planned(plan) && plan.inp.compressionRatio >= 1.0 && Valid(plan.counts)
    requires Run(plan, states, actions) && i < |states|
    requires StartsWithSpans(plan.counts, plan.spans) && PlanFits(plan.spans, plan.counts, plan.inp)
    ensures StepOf(plan.spans, states[i].step) && Valid(states[i].written)
    ensures GateBytes(plan.spans, At(states[i]), plan.counts, plan.inp) <= Limit(plan.inp)
  {
    var m := states[i];
    if m.step.Intraday? {
      SpanGatesNeverRefuse(plan, states, actions, i);
    } else {
      StepsKeepInv(plan, states, actions, i);
      DailyComesFirst(plan, states, actions, i);
      PartIsValid(m.written, plan.counts);
      DailyGateIs(plan.spans, plan.counts, m.written, plan.inp);
      RowsVanish(m.written, EPOCH, FAR_FUTURE, INTRADAY);
      CompressionFrees(m.written, EPOCH, m.table.frontier, plan.inp);
    }
  }

  // ----- What a passing gate leaves room for ---------------------------------------------------------------

  /** Rows the step may have written by its end: more of its own timeframe, in its own span, ahead of the
      frontier. */
  ghost predicate StillToWrite(plan: Plan, m: Moment, w: Counts)
    requires StepOf(plan.spans, m.step)
  {
    && Within(m.written, w) && Within(w, plan.counts)
    && forall i :: 0 <= i < |w| && w[i].n != m.written[i].n ==>
         && w[i].cell.tf == TfOf(m.step) && m.table.frontier <= w[i].start
         && (m.step.Intraday? ==> plan.spans[m.step.k].start <= w[i].start && w[i].end <= plan.spans[m.step.k].end)
  }

  /** A month that starts after both intervals do, and ends inside the first or has its end in common, has one
      share in both. */
  lemma OneShare(start: Time, end: Time, lo: Time, hi: Time, from: Time, to: Time)
    requires start < end && lo <= start && from <= start && (hi == to || (end <= hi && end <= to))
    ensures Fraction(start, end, lo, hi) == Fraction(start, end, from, to)
  {
  }

  lemma {:induction false} SumToMoves(w: Counts, v: Counts, n: nat, q: Query, r: Query)
    requires Valid(w) && Valid(v) && n <= |w| == |v|
    requires forall i :: 0 <= i < n ==> Term(v[i], q) - Term(w[i], q) == Term(v[i], r) - Term(w[i], r)
    ensures SumTo(v, n, q) - SumTo(w, n, q) == SumTo(v, n, r) - SumTo(w, n, r)
  {
    if n > 0 {
      SumToMoves(w, v, n - 1, q, r);
    }
  }

  lemma {:induction false} SumToStays(w: Counts, v: Counts, n: nat, q: Query)
    requires Valid(w) && Valid(v) && n <= |w| == |v|
    requires forall i :: 0 <= i < n ==> Term(v[i], q) == Term(w[i], q)
    ensures SumTo(v, n, q) == SumTo(w, n, q)
  {
    if n > 0 {
      SumToStays(w, v, n - 1, q);
    }
  }

  /** What the step writes is uncompressed, and all of it is in the step's own count. */
  lemma StepRowsLandOpen(plan: Plan, m: Moment, w: Counts)
    requires Planned(plan) && Valid(plan.counts) && Inv(plan, m) && StillToWrite(plan, m, w)
    ensures Valid(w) && Valid(m.written)
    ensures var f, s := m.table.frontier, Bounds(plan.spans, m.step);
            && Rows(w, EPOCH, f, EVERY_TF) == Rows(m.written, EPOCH, f, EVERY_TF)
            && Rows(w, f, FAR_FUTURE, EVERY_TF) - Rows(m.written, f, FAR_FUTURE, EVERY_TF)
               == Rows(w, s.start, s.end, {TfOf(m.step)}) - Rows(m.written, s.start, s.end, {TfOf(m.step)})
  {
    var f, s := m.table.frontier, Bounds(plan.spans, m.step);
    PartIsValid(w, plan.counts);
    PartIsValid(m.written, plan.counts);
    var behind, ahead := Query(EPOCH, f, EVERY_TF, None), Query(f, FAR_FUTURE, EVERY_TF, None);
    var own := Query(s.start, s.end, {TfOf(m.step)}, None);
    forall i | 0 <= i < |w|
      ensures Term(w[i], behind) == Term(m.written[i], behind)
      ensures Term(w[i], ahead) - Term(m.written[i], ahead) == Term(w[i], own) - Term(m.written[i], own)
    {
      if w[i].n != m.written[i].n {
        ChangedMonth(plan, m, w, i);
      } else {
        assert w[i] == m.written[i];
      }
    }
    SumToStays(m.written, w, |w|, behind);
    SumToMoves(m.written, w, |w|, ahead, own);
  }

  lemma ChangedMonth(plan: Plan, m: Moment, w: Counts, i: nat)
    requires Planned(plan) && Valid(plan.counts) && Inv(plan, m) && StillToWrite(plan, m, w)
    requires i < |w| && w[i].n != m.written[i].n && Valid(w) && Valid(m.written)
    ensures var f, s := m.table.frontier, Bounds(plan.spans, m.step);
            var behind, ahead := Query(EPOCH, f, EVERY_TF, None), Query(f, FAR_FUTURE, EVERY_TF, None);
            var own := Query(s.start, s.end, {TfOf(m.step)}, None);
            && Term(w[i], behind) == Term(m.written[i], behind)
            && Term(w[i], ahead) == Term(w[i], own) && Term(m.written[i], ahead) == Term(m.written[i], own)
  {
    var e := w[i];
    var s := Bounds(plan.spans, m.step);
    FractionEnds(e.start, e.end, EPOCH, m.table.frontier);
    if m.step.Intraday? {
      SpansIncrease(plan.spans, m.step.k, m.step.k);
    }
    OneShare(e.start, e.end, m.table.frontier, FAR_FUTURE, s.start, s.end);
  }

  lemma GateCovers(after: real, before: real, own: real, loaded: real, rest: real, all: real, b: real, fixed: real)
    requires rest - before == own - loaded && own <= all && b > 0.0
    requires after == rest * b
    ensures after + fixed <= before * b + (MaxReal(0.0, all - loaded) * b + fixed)
  {
    var left := MaxReal(0.0, all - loaded);
    assert rest - before <= left;
    ScalesUp(rest - before, left, b);
    assert (rest - before) * b == rest * b - before * b;
  }

  /** The two spools in flight of one of the step's groups. */
  function GroupSpools(spans: seq<Span>, step: Step, counts: Counts, inp: Inputs, chunk: nat): real
    requires StepOf(spans, step) && Valid(counts) && ValidInputs(inp)
  {
    2.0 * Sum(counts, Query(Bounds(spans, step).start, Bounds(spans, step).end, {TfOf(step)}, Some(chunk)))
    * (inp.bytesPerRow / inp.storedPerSpool)
  }

  lemma TwoSpools(spans: seq<Span>, step: Step, counts: Counts, inp: Inputs, chunk: nat)
    requires StepOf(spans, step) && Valid(counts) && ValidInputs(inp)
    ensures var s := Bounds(spans, step);
            GroupSpools(spans, step, counts, inp, chunk)
            <= SpoolBytes(LargestGroup(counts, s.start, s.end, {TfOf(step)}), inp)
  {
    var s, tf := Bounds(spans, step), TfOf(step);
    LargestGroupIsLargest(counts, s.start, s.end, {tf}, tf, chunk);
    SpoolGrows(Sum(counts, Query(s.start, s.end, {tf}, Some(chunk))), LargestGroup(counts, s.start, s.end, {tf}), inp);
  }

  /** What the gate adds to the modelled growth. */
  lemma GateIs(spans: seq<Span>, p: Progress, counts: Counts, inp: Inputs, spool: real, all: real, loaded: real)
    requires StepOf(spans, p.step) && Valid(counts) && Valid(p.written) && ValidInputs(inp)
    requires var s := Bounds(spans, p.step);
             && spool == SpoolBytes(LargestGroup(counts, s.start, s.end, {TfOf(p.step)}), inp)
             && all == Rows(counts, s.start, s.end, {TfOf(p.step)}) && loaded == Rows(p.written, s.start, s.end, {TfOf(p.step)})
    ensures GateBytes(spans, p, counts, inp) ==
            Footprint(p.written, p.frontier, inp)
            + (MaxReal(0.0, all - loaded) * inp.bytesPerRow + inp.walBytes as real + spool)
  {
  }

  lemma RoomFromSums(spans: seq<Span>, p: Progress, counts: Counts, inp: Inputs, w: Counts, spool: real)
    requires StepOf(spans, p.step) && Valid(counts) && Valid(p.written) && Valid(w) && ValidInputs(inp) && Within(w, counts)
    requires var s := Bounds(spans, p.step);
             spool == SpoolBytes(LargestGroup(counts, s.start, s.end, {TfOf(p.step)}), inp)
    requires Rows(w, EPOCH, p.frontier, EVERY_TF) == Rows(p.written, EPOCH, p.frontier, EVERY_TF)
    requires var s := Bounds(spans, p.step);
             Rows(w, p.frontier, FAR_FUTURE, EVERY_TF) - Rows(p.written, p.frontier, FAR_FUTURE, EVERY_TF)
             == Rows(w, s.start, s.end, {TfOf(p.step)}) - Rows(p.written, s.start, s.end, {TfOf(p.step)})
    ensures Footprint(w, p.frontier, inp) + inp.walBytes as real + spool <= GateBytes(spans, p, counts, inp)
  {
    var s, tf, b := Bounds(spans, p.step), TfOf(p.step), inp.bytesPerRow;
    var all, loaded := Rows(counts, s.start, s.end, {tf}), Rows(p.written, s.start, s.end, {tf});
    var rest, before := Rows(w, p.frontier, FAR_FUTURE, EVERY_TF), Rows(p.written, p.frontier, FAR_FUTURE, EVERY_TF);
    GateIs(spans, p, counts, inp, spool, all, loaded);
    PartIsLess(w, counts, Query(s.start, s.end, {tf}, None));
    GateCovers(rest * b, before, Rows(w, s.start, s.end, {tf}), loaded, rest, all, b, inp.walBytes as real + spool);
  }

  lemma RoomAt(plan: Plan, m: Moment, w: Counts, chunk: nat)
    requires Planned(plan) && Valid(plan.counts) && Inv(plan, m) && StillToWrite(plan, m, w)
    ensures Valid(w) && Valid(m.written)
    ensures Footprint(w, m.table.frontier, plan.inp) + plan.inp.walBytes as real
            + GroupSpools(plan.spans, m.step, plan.counts, plan.inp, chunk)
            <= GateBytes(plan.spans, At(m), plan.counts, plan.inp)
  {
    var s := Bounds(plan.spans, m.step);
    StepRowsLandOpen(plan, m, w);
    TwoSpools(plan.spans, m.step, plan.counts, plan.inp, chunk);
    RoomFromSums(plan.spans, At(m), plan.counts, plan.inp, w,
                 SpoolBytes(LargestGroup(plan.counts, s.start, s.end, {TfOf(m.step)}), plan.inp));
  }

  /** The gate is sound: at any moment of any run, whatever the step can still write, with the WAL and two
      spools of any of its groups beside it, takes no more than the gate's bytes. A gate that passes leaves
      room for the whole step. */
  lemma PassingGateLeavesRoom(plan: Plan, states: seq<Moment>, actions: seq<Action>, i: nat, w: Counts, chunk: nat)
    requires Planned(plan) && Valid(plan.counts)
    requires Steps(plan, states, actions) && AfterPilot(plan, states[0]) && i < |states|
    requires StepOf(plan.spans, states[i].step) && StillToWrite(plan, states[i], w)
    ensures Valid(w) && Valid(states[i].written)
    ensures Footprint(w, states[i].table.frontier, plan.inp) + plan.inp.walBytes as real
            + GroupSpools(plan.spans, states[i].step, plan.counts, plan.inp, chunk)
            <= GateBytes(plan.spans, At(states[i]), plan.counts, plan.inp)
  {
    StepsKeepInv(plan, states, actions, i);
    RoomAt(plan, states[i], w, chunk);
  }

  // ----- The pilot ---------------------------------------------------------------------------------------

  /** What compressing the rows before the frontier has freed. */
  function Freed(w: Counts, f: Time, inp: Inputs): real
    requires Valid(w) && ValidInputs(inp)
  {
    Rows(w, EPOCH, f, EVERY_TF) * (inp.bytesPerRow - CompressedRow(inp))
  }

  lemma SplitBytes(before: real, after: real, all: real, b: real, c: real)
    requires all == before + after
    ensures after * b + before * c == all * b - before * (b - c)
  {
    Distributes(b, before, after);
    assert before * (b - c) == before * b - before * c;
  }

  lemma FootprintIs(w: Counts, f: Time, inp: Inputs)
    requires Valid(w) && ValidInputs(inp) && EPOCH <= f <= FAR_FUTURE
    ensures Footprint(w, f, inp) == Rows(w, EPOCH, FAR_FUTURE, EVERY_TF) * inp.bytesPerRow - Freed(w, f, inp)
  {
    RowsAddOverTime(w, EPOCH, f, FAR_FUTURE, EVERY_TF);
    SplitBytes(Rows(w, EPOCH, f, EVERY_TF), Rows(w, f, FAR_FUTURE, EVERY_TF), Rows(w, EPOCH, FAR_FUTURE, EVERY_TF),
               inp.bytesPerRow, CompressedRow(inp));
  }

  /** The 1d stage's own peak, plus whatever intraday rows are already there, less what compression has
      freed. */
  function DailyNeed(counts: Counts, w: Counts, f: Time, inp: Inputs): real
    requires Valid(counts) && Valid(w) && ValidInputs(inp)
  {
    Total(DailyPeak(counts, inp)) + Rows(w, EPOCH, FAR_FUTURE, INTRADAY) * inp.bytesPerRow - Freed(w, f, inp)
  }

  lemma DailyGateAt(spans: seq<Span>, counts: Counts, w: Counts, f: Time, inp: Inputs)
    requires Valid(counts) && Valid(w) && Within(w, counts) && ValidInputs(inp) && EPOCH <= f <= FAR_FUTURE
    ensures GateBytes(spans, Progress(Daily, w, f), counts, inp) == DailyNeed(counts, w, f, inp)
  {
    YearsIncrease(1970, 9999);
    var spool := SpoolBytes(LargestGroup(counts, EPOCH, FAR_FUTURE, {D1}), inp);
    var all, loaded := Rows(counts, EPOCH, FAR_FUTURE, {D1}), Rows(w, EPOCH, FAR_FUTURE, {D1});
    DailyGateIs(spans, counts, w, inp);
    GateIs(spans, Progress(Daily, w, f), counts, inp, spool, all, loaded);
    GateIs(spans, Progress(Daily, w, EPOCH), counts, inp, spool, all, loaded);
    FootprintIs(w, f, inp);
    FootprintIs(w, EPOCH, inp);
    RowsVanish(w, EPOCH, EPOCH, EVERY_TF);
  }

  /** The pilot runs before the 1d stage, leaves some 1h rows behind and compresses what it may. At every
      moment of the 1d stage after it, the gate passes exactly when the stage's peak leaves room for those
      rows beside what compression has freed. */
  lemma DailyGateAfterPilotIff(plan: Plan, states: seq<Moment>, actions: seq<Action>, i: nat)
    requires Planned(plan) && Valid(plan.counts)
    requires Steps(plan, states, actions) && AfterPilot(plan, states[0]) && i < |states| && states[i].step.Daily?
    ensures Valid(states[i].written)
    ensures GateBytes(plan.spans, At(states[i]), plan.counts, plan.inp) <= Limit(plan.inp) <==>
            DailyNeed(plan.counts, states[i].written, states[i].table.frontier, plan.inp) <= Limit(plan.inp)
  {
    var m := states[i];
    assert Inv(plan, m) by { StepsKeepInv(plan, states, actions, i); }
    PartIsValid(m.written, plan.counts);
    DailyGateAt(plan.spans, plan.counts, m.written, m.table.frontier, plan.inp);
  }

  lemma SumOfThree(c: Counts, q: Query)
    requires Valid(c) && |c| == 3
    ensures Sum(c, q) == Term(c[0], q) + Term(c[1], q) + Term(c[2], q)
  {
    assert SumTo(c, 1, q) == Term(c[0], q);
    assert SumTo(c, 2, q) == SumTo(c, 1, q) + Term(c[1], q);
  }

  lemma WholeTerm(e: Entry, q: Query)
    requires e.start < e.end && (q.hi <= e.start || e.end <= q.lo || (q.lo <= e.start && e.end <= q.hi))
    ensures Term(e, q) == if Asked(e.cell, q) && q.lo <= e.start && e.end <= q.hi then e.n else 0.0
  {
    FractionEnds(e.start, e.end, q.lo, q.hi);
  }

  lemma ThreeWhole(c: Counts, q: Query)
    requires Valid(c) && |c| == 3
    requires forall i :: 0 <= i < 3 ==> q.hi <= c[i].start || c[i].end <= q.lo || (q.lo <= c[i].start && c[i].end <= q.hi)
    ensures Sum(c, q) == In(c[0], q) + In(c[1], q) + In(c[2], q)
  {
    SumOfThree(c, q);
    WholeTerm(c[0], q);
    WholeTerm(c[1], q);
    WholeTerm(c[2], q);
  }

  function In(e: Entry, q: Query): real
  {
    if Asked(e.cell, q) && q.lo <= e.start && e.end <= q.hi then e.n else 0.0
  }

  /** Two symbol chunks of 25 daily rows in January 2000, and 10 hourly rows of the first chunk in
      January 2020, which the pilot has written with that chunk's daily rows. */
  ghost predicate PilotCase(counts: Counts, w: Counts, inp: Inputs, spans: seq<Span>)
  {
    && counts == [Entry(Cell(D1, 0, Month(2000, 1)), Days(10957), Days(10988), 25.0),
                  Entry(Cell(D1, 1, Month(2000, 1)), Days(10957), Days(10988), 25.0),
                  Entry(Cell(H1, 0, Month(2020, 1)), Days(18262), Days(18293), 10.0)]
    && w == [counts[0], counts[1].(n := 0.0), counts[2]]
    && inp == Inputs(150, 0.5, 1.0, 5.0, 2.0, 0, DAY)
    && spans == [Span(Days(18262), Days(18628))]
  }

  lemma PilotCaseIsAPlan(counts: Counts, w: Counts, inp: Inputs, spans: seq<Span>)
    requires PilotCase(counts, w, inp, spans)
    ensures OnCalendar(counts) && Valid(counts) && Within(w, counts) && Valid(w) && ValidInputs(inp)
    ensures spans == [Span(Jan1(2020), Jan1(2021))] && SpansFollow(spans) && StartsWithSpans(counts, spans)
    ensures FAR_FUTURE == Days(2932532) && Limit(inp) == 75.0
  {
    assert Jan1(2020) == Days(18262) && Jan1(2021) == Days(18628);
    assert counts[0] == EntryOf(counts[0].cell, 25.0) && counts[1] == EntryOf(counts[1].cell, 25.0);
    assert counts[2] == EntryOf(counts[2].cell, 10.0);
  }

  lemma PilotDailyPeak(counts: Counts, w: Counts, inp: Inputs, spans: seq<Span>)
    requires PilotCase(counts, w, inp, spans) && Valid(counts) && ValidInputs(inp) && FAR_FUTURE == Days(2932532)
    ensures Total(DailyPeak(counts, inp)) == 75.0
  {
    ThreeWhole(counts, Query(EPOCH, FAR_FUTURE, DAILY, None));
    ThreeWhole(counts, Query(EPOCH, FAR_FUTURE, {D1}, Some(0)));
    ThreeWhole(counts, Query(EPOCH, FAR_FUTURE, {D1}, Some(1)));
    LargestOfThree(counts, EPOCH, FAR_FUTURE, DAILY);
  }

  lemma PilotSpanPeak(counts: Counts, w: Counts, inp: Inputs, spans: seq<Span>)
    requires PilotCase(counts, w, inp, spans) && Valid(counts) && ValidInputs(inp) && FAR_FUTURE == Days(2932532)
    ensures Total(SpanPeak(spans, 0, counts, inp)) == 30.0
  {
    var open, end := Days(18262), Days(18628);
    assert ChunkFloor(open, DAY) == open;
    ThreeWhole(counts, Query(open, end, INTRADAY, None));
    ThreeWhole(counts, Query(open, end, {H1}, Some(0)));
    ThreeWhole(counts, Query(open, FAR_FUTURE, DAILY, None));
    ThreeWhole(counts, Query(EPOCH, open, DAILY, None));
    ThreeWhole(counts, Query(EPOCH, open, INTRADAY, None));
    LargestOfThree(counts, open, end, INTRADAY);
  }

  /** A plan that fits whose 1d stage is refused once the pilot has run: the daily rows and their
      spools fill the limit of 75 bytes, and the pilot's hourly rows do not fit beside them. */
  lemma PilotCanFailTheDailyGate(counts: Counts, w: Counts, inp: Inputs, spans: seq<Span>)
    requires PilotCase(counts, w, inp, spans)
    ensures OnCalendar(counts) && Valid(counts) && Within(w, counts) && Valid(w) && ValidInputs(inp)
    ensures SpansFollow(spans) && StartsWithSpans(counts, spans) && PlanFits(spans, counts, inp)
    ensures GateBytes(spans, Progress(Daily, w, EPOCH), counts, inp) > Limit(inp)
  {
    PilotCaseIsAPlan(counts, w, inp, spans);
    PilotDailyPeak(counts, w, inp, spans);
    PilotSpanPeak(counts, w, inp, spans);
    ThreeWhole(w, Query(EPOCH, FAR_FUTURE, INTRADAY, None));
    DailyGateIs(spans, counts, w, inp);
  }

  lemma LargestOfThree(c: Counts, lo: Time, hi: Time, tfs: set<Tf>)
    requires Valid(c) && |c| == 3
    ensures LargestGroup(c, lo, hi, tfs) ==
            MaxReal(MaxReal(MaxReal(0.0, Group(c, 0, lo, hi, tfs)), Group(c, 1, lo, hi, tfs)), Group(c, 2, lo, hi, tfs))
  {
    assert LargestTo(c, 1, lo, hi, tfs) == MaxReal(0.0, Group(c, 0, lo, hi, tfs));
    assert LargestTo(c, 2, lo, hi, tfs) == MaxReal(LargestTo(c, 1, lo, hi, tfs), Group(c, 1, lo, hi, tfs));
  }

  function Group(c: Counts, i: nat, lo: Time, hi: Time, tfs: set<Tf>): real
    requires i < |c| && Valid(c)
  {
    if c[i].cell.tf in tfs then Sum(c, Query(lo, hi, {c[i].cell.tf}, Some(c[i].cell.chunk))) else 0.0
  }
}
