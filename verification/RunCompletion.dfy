/** What a corpus run has when its rebuild steps are all completed: a completed row for every planned
    unit, its own or adopted (services/corpus_rerun.py over the provenance rows of
    services/_batch_utils.py). Any number of sessions load units meanwhile; a stage reads provenance
    while it plans and again when it has ended. */
module RunCompletion {
  import opened Prelude
  import opened RowCounts
  import opened DiskBudget
  import opened BatchIdentity
  import opened LoadProtocol
  import opened LoadInvariant
  import opened LoadSafety
  import opened StageProblems
  import Chain = RunnerChain
  import Runner = StepRunner
  import Budget = BudgetRun
  import Table = Compression

  /** The one row an append-only unit can have completed, as the planner reads it. */
  ghost function OwnerOf(prov: Provenance, key: Key): StageProblems.Planned
  {
    if IsCompleted(prov, BatchId(key, 1)) then CompletedUnder(prov[BatchId(key, 1)].runId) else Pending
  }

  /** completed_rows: the asked keys that have a completed row, with the row's run. */
  ghost function CompletedRows(prov: Provenance, keys: set<Key>): map<Key, Option<RunId>>
  {
    map key | key in keys && IsCompleted(prov, BatchId(key, 1)) :: prov[BatchId(key, 1)].runId
  }

  ghost function ScopeKeys(scope: seq<Unit>): set<Key>
  {
    set i | 0 <= i < |scope| :: scope[i].key
  }

  /** One call of a stage: its summary, and when it read each unit's completion and had ended, as moments of
      the database. */
  datatype StageRun = StageRun(
    scope: seq<Unit>,
    failed: nat,
    abandoned: nat,
    diskRefused: bool,
    readAt: seq<nat>,
    end: nat)

  ghost predicate AppendOnly(scope: seq<Unit>)
  {
    forall i :: 0 <= i < |scope| ==> scope[i].key.unit.where.None?
  }

  /** The planned units are what the provenance rows said when they were read. */
  ghost predicate Observed(states: seq<State>, stage: StageRun)
  {
    && stage.end < |states| && |stage.readAt| == |stage.scope|
    && DistinctKeys(stage.scope) && AppendOnly(stage.scope)
    && forall i :: 0 <= i < |stage.scope| ==>
         stage.readAt[i] <= stage.end
         && stage.scope[i].planned == OwnerOf(states[stage.readAt[i]].prov, stage.scope[i].key)
  }

  ghost function RowsAtEnd(states: seq<State>, stage: StageRun): map<Key, Option<RunId>>
    requires stage.end < |states|
  {
    CompletedRows(states[stage.end].prov, ScopeKeys(stage.scope))
  }

  /** stage_problems has nothing to report. */
  ghost predicate EndsClean(states: seq<State>, stage: StageRun, run: RunId)
    requires stage.end < |states|
  {
    Clean(stage.failed, stage.abandoned, stage.diskRefused, stage.scope, RowsAtEnd(states, stage), run)
  }

  /** An append-only unit's completed row is there for good, under the same run. */
  lemma CompletedOwnerStays(w: World, states: seq<State>, actions: seq<Action>, i: nat, j: nat, key: Key)
    requires Run(w, states, actions) && i <= j < |states| && key.unit.where.None?
    requires IsCompleted(states[i].prov, BatchId(key, 1))
    ensures IsCompleted(states[j].prov, BatchId(key, 1))
    ensures states[j].prov[BatchId(key, 1)].runId == states[i].prov[BatchId(key, 1)].runId
  {
    var only := BatchId(key, 1);
    HistoryIsNeverRewritten(w, states, actions, i, j, only);
    assert states[j].prov[only].status != Superseded by {
      RunKeepsInv(w, states, actions, j);
      assert only.key.unit.where.None?;
    }
  }

  /** What a stage found completed is still completed under the same run when it has ended. */
  lemma RowsAreKept(w: World, states: seq<State>, actions: seq<Action>, stage: StageRun)
    requires Run(w, states, actions) && Observed(states, stage)
    ensures RowsKept(stage.scope, RowsAtEnd(states, stage))
  {
    forall i | 0 <= i < |stage.scope| && stage.scope[i].planned.CompletedUnder?
      ensures stage.scope[i].key in RowsAtEnd(states, stage)
      ensures RowsAtEnd(states, stage)[stage.scope[i].key] == stage.scope[i].planned.owner
    {
      assert stage.scope[i].key in ScopeKeys(stage.scope);
      CompletedOwnerStays(w, states, actions, stage.readAt[i], stage.end, stage.scope[i].key);
    }
  }

  /** A session of the run has committed the unit's load by moment n. */
  ghost predicate LoadedByTheRun(states: seq<State>, actions: seq<Action>, n: nat, key: Key, run: RunId)
    requires n < |states| == |actions| + 1
  {
    exists i: nat :: i < n && CommitsBatch(states, actions, i, BatchId(key, 1))
                     && CommittingRun(states, actions, i) == Some(run)
  }

  /** An append-only unit's completed row names the run exactly when a session of the run committed its
      load. */
  lemma OwnedIffLoaded(w: World, states: seq<State>, actions: seq<Action>, n: nat, key: Key, run: RunId)
    requires Run(w, states, actions) && n < |states| && key.unit.where.None?
    ensures IsCompleted(states[n].prov, BatchId(key, 1)) && states[n].prov[BatchId(key, 1)].runId == Some(run) <==>
            LoadedByTheRun(states, actions, n, key, run)
  {
    var only := BatchId(key, 1);
    if IsCompleted(states[n].prov, only) {
      var at := CompletedUnderItsRun(w, states, actions, n, only);
    }
    if LoadedByTheRun(states, actions, n, key, run) {
      var i: nat :| i < n && CommitsBatch(states, actions, i, only) && CommittingRun(states, actions, i) == Some(run);
      CommitStampsItsRun(w, states, actions, i, only);
      CompletedOwnerStays(w, states, actions, i + 1, n, key);
    }
  }

  /** At the end of a stage a unit counts for the run exactly when it was found completed at planning or a
      session of the run has committed its load: a unit another run completed in between fails the step. */
  lemma UnitCountsIff(w: World, states: seq<State>, actions: seq<Action>, stage: StageRun, run: RunId, i: nat)
    requires Run(w, states, actions) && Observed(states, stage) && i < |stage.scope|
    ensures var rows, key := RowsAtEnd(states, stage), stage.scope[i].key;
            key in rows && BelongsToRun(rows[key], key, run, Adoptions(stage.scope, run)) <==>
              stage.scope[i].planned.CompletedUnder? || LoadedByTheRun(states, actions, stage.end, key, run)
  {
    RowsAreKept(w, states, actions, stage);
    UnitBelongsIff(stage.scope, RowsAtEnd(states, stage), run, i);
    assert stage.scope[i].key in ScopeKeys(stage.scope);
    OwnedIffLoaded(w, states, actions, stage.end, stage.scope[i].key, run);
  }

  /** A retry adopts whatever was completed before it: once every unit of the scope has a completed row,
      whoever loaded it, a stage that plans after that has a problem only if it was itself refused,
      failed or abandoned something. */
  lemma RetryEndsClean(w: World, states: seq<State>, actions: seq<Action>, stage: StageRun, run: RunId, since: nat)
    requires Run(w, states, actions) && Observed(states, stage)
    requires forall i :: 0 <= i < |stage.scope| ==>
               since <= stage.readAt[i] && IsCompleted(states[since].prov, BatchId(stage.scope[i].key, 1))
    ensures EndsClean(states, stage, run) <==> stage.failed == 0 && stage.abandoned == 0 && !stage.diskRefused
  {
    forall i | 0 <= i < |stage.scope|
      ensures var rows, key := RowsAtEnd(states, stage), stage.scope[i].key;
              key in rows && BelongsToRun(rows[key], key, run, Adoptions(stage.scope, run))
    {
      CompletedOwnerStays(w, states, actions, since, stage.readAt[i], stage.scope[i].key);
      UnitCountsIff(w, states, actions, stage, run, i);
    }
  }

  // ----- All steps --------------------------------------------------------------------------------

  /** The scope of a step is the planned units it executes, by batch key. */
  ghost predicate IsScope(plan: Budget.Plan, keys: seq<Key>, step: Step, scope: seq<Unit>)
    requires |keys| == |plan.units| && StepOf(plan.spans, step)
  {
    forall u :: 0 <= u < |keys| && Budget.InScope(plan.spans, step, plan.units[u]) ==> keys[u] in ScopeKeys(scope)
  }

  /** Every step's last call had nothing to report: stage_1d and each timeframe of each span. */
  ghost predicate AllStepsClean(plan: Budget.Plan, keys: seq<Key>, states: seq<State>, stages: map<Step, StageRun>,
                                run: RunId)
    requires |keys| == |plan.units|
  {
    forall step :: StepOf(plan.spans, step) ==>
      && step in stages && Observed(states, stages[step]) && IsScope(plan, keys, step, stages[step].scope)
      && EndsClean(states, stages[step], run)
  }

  /** The run's adoptions: those of its completed steps, in whatever order they are read. */
  ghost predicate Gathered(adoptions: map<Key, Option<RunId>>, stages: map<Step, StageRun>, run: RunId)
  {
    && (forall step, key :: step in stages && key in Adoptions(stages[step].scope, run) ==> key in adoptions)
    && (forall key :: key in adoptions ==> AdoptedByAStep(key, adoptions[key], stages, run))
  }

  ghost predicate AdoptedByAStep(key: Key, owner: Option<RunId>, stages: map<Step, StageRun>, run: RunId)
  {
    exists step :: step in stages && key in Adoptions(stages[step].scope, run)
      && Adoptions(stages[step].scope, run)[key] == owner
  }

  /** One of the steps executes each planned unit. */
  lemma SomeStepExecutes(plan: Budget.Plan, u: nat) returns (step: Step)
    requires Budget.Planned(plan) && u < |plan.units|
    ensures StepOf(plan.spans, step) && Budget.InScope(plan.spans, step, plan.units[u])
  {
    if plan.units[u].tf == D1 {
      step := Daily;
    } else {
      var k := SpanHolding(plan.spans, plan.units[u].range.start, |plan.spans| - 1);
      step := Intraday(k, plan.units[u].tf);
    }
  }

  lemma {:induction false} SpanHolding(spans: seq<Span>, t: int, last: nat) returns (k: nat)
    requires Budget.SpansFollow(spans) && last < |spans| && spans[0].start <= t < spans[last].end
    ensures k < |spans| && spans[k].start <= t < spans[k].end
  {
    if spans[last].start <= t {
      k := last;
    } else {
      assert spans[last - 1].end == spans[last].start;
      k := SpanHolding(spans, t, last - 1);
    }
  }

  /** An adopted key is recorded under the run its completed row has, then and ever after. */
  lemma AdoptionIsTheOwner(w: World, states: seq<State>, actions: seq<Action>, stage: StageRun, run: RunId, n: nat,
                           key: Key)
    requires Run(w, states, actions) && Observed(states, stage) && stage.end <= n < |states|
    requires key in Adoptions(stage.scope, run)
    ensures key.unit.where.None? && IsCompleted(states[n].prov, BatchId(key, 1))
    ensures Adoptions(stage.scope, run)[key] == states[n].prov[BatchId(key, 1)].runId
  {
    if forall i :: 0 <= i < |stage.scope| ==> stage.scope[i].key != key {
      OnlyPlannedKeys(stage.scope, run, key);
      assert false;
    }
    var i :| 0 <= i < |stage.scope| && stage.scope[i].key == key;
    AdoptedIff(stage.scope, run, i);
    CompletedOwnerStays(w, states, actions, stage.readAt[i], n, key);
  }

  lemma BelongsAfterItsStep(w: World, states: seq<State>, actions: seq<Action>, stages: map<Step, StageRun>,
                            adoptions: map<Key, Option<RunId>>, run: RunId, step: Step, n: nat, key: Key)
    requires Run(w, states, actions) && Gathered(adoptions, stages, run) && n < |states| && step in stages
    requires forall other :: other in stages ==> Observed(states, stages[other]) && stages[other].end <= n
    requires key in ScopeKeys(stages[step].scope)
    requires EndsClean(states, stages[step], run)
    ensures IsCompleted(states[n].prov, BatchId(key, 1))
    ensures BelongsToRun(states[n].prov[BatchId(key, 1)].runId, key, run, adoptions)
  {
    var stage := stages[step];
    var i :| 0 <= i < |stage.scope| && stage.scope[i].key == key;
    assert key in RowsAtEnd(states, stage);
    CompletedOwnerStays(w, states, actions, stage.end, n, key);
    if RowsAtEnd(states, stage)[key] != Some(run) {
      assert key in Adoptions(stage.scope, run);
      assert AdoptedByAStep(key, adoptions[key], stages, run);
      var other :| other in stages && key in Adoptions(stages[other].scope, run)
                   && Adoptions(stages[other].scope, run)[key] == adoptions[key];
      AdoptionIsTheOwner(w, states, actions, stages[other], run, n, key);
    }
  }

  /** Once stage_1d and every span step have completed, each planned unit has a completed row that is the
      run's own or adopted under the same batch key, at any later moment, whatever other sessions do. */
  lemma EveryPlannedUnitBelongs(w: World, states: seq<State>, actions: seq<Action>, plan: Budget.Plan, keys: seq<Key>,
                                stages: map<Step, StageRun>, adoptions: map<Key, Option<RunId>>, run: RunId,
                                n: nat, u: nat)
    requires Run(w, states, actions) && Budget.Planned(plan) && |keys| == |plan.units| && u < |keys|
    requires AllStepsClean(plan, keys, states, stages, run) && Gathered(adoptions, stages, run)
    requires n < |states| && forall step :: step in stages ==> StepOf(plan.spans, step) && stages[step].end <= n
    ensures var rows := CompletedRows(states[n].prov, set k | k in keys);
            keys[u] in rows && BelongsToRun(rows[keys[u]], keys[u], run, adoptions)
  {
    var step := SomeStepExecutes(plan, u);
    BelongsAfterItsStep(w, states, actions, stages, adoptions, run, step, n, keys[u]);
    assert keys[u] in keys;
  }

  // ----- The runner's rows ---------------------------------------------------------------------------

  /** The runner's name of a rebuild step. */
  function NameOf(step: Step): string
  {
    Chain.NameOf(if step.Daily? then Chain.Stage1d else Chain.SpanStep(step.k, step.tf))
  }

  lemma NotTheDataGate(step: Step)
    ensures NameOf(step) != Chain.NameOf(Chain.DataGate)
  {
    assert step.Daily? ==> NameOf(step)[0] == 's';
    assert step.Intraday? ==> NameOf(step)[0] == 's';
    assert Chain.NameOf(Chain.DataGate)[0] == 'd';
  }

  ghost function AllSteps(spans: seq<Span>): (steps: set<Step>)
    ensures forall step :: step in steps <==> StepOf(spans, step)
  {
    {Daily} + set k: nat, tf | k < |spans| && tf in INTRADAY :: Intraday(k, tf)
  }

  /** The rebuild steps' rows are all completed. */
  ghost predicate AllCompleted(spans: seq<Span>, store: Runner.Store)
  {
    forall step :: StepOf(spans, step) ==> Runner.IsCompleted(store, NameOf(step))
  }

  /** The call that completed a step, if one did. */
  ghost function CallOf(kinds: seq<Chain.Kind>, calls: seq<Runner.Call>, name: string): (i: nat)
    ensures (exists j: nat :: j < |calls| && Runner.Completing(kinds, calls, j, name)) ==>
              i < |calls| && Runner.Completing(kinds, calls, i, name)
  {
    if j: nat :| j < |calls| && Runner.Completing(kinds, calls, j, name) then j else 0
  }

  /** A rebuild step's handler returns only if its stage had nothing to report: `stageOf` tells what stage each
      call ran. */
  ghost predicate HandlersReport(plan: Budget.Plan, keys: seq<Key>, states: seq<State>, kinds: seq<Chain.Kind>,
                                 calls: seq<Runner.Call>, stageOf: nat -> StageRun, run: RunId)
    requires |keys| == |plan.units|
  {
    forall i: nat, step ::
      (i < |calls| && StepOf(plan.spans, step) && Runner.Completing(kinds, calls, i, NameOf(step))) ==>
        && Observed(states, stageOf(i)) && IsScope(plan, keys, step, stageOf(i).scope)
        && EndsClean(states, stageOf(i), run)
  }

  lemma EachStepHasItsCall(spans: seq<Span>, kinds: seq<Chain.Kind>, calls: seq<Runner.Call>, step: Step)
    requires Runner.CallsFit(kinds, calls) && StepOf(spans, step) && AllCompleted(spans, Runner.After(kinds, calls))
    ensures var i := CallOf(kinds, calls, NameOf(step));
            i < |calls| && Runner.Completing(kinds, calls, i, NameOf(step))
  {
    NotTheDataGate(step);
    var i := Runner.CompletedByACall(kinds, calls, NameOf(step));
  }

  /** The stages of the calls that completed the steps. */
  ghost function StagesOf(spans: seq<Span>, kinds: seq<Chain.Kind>, calls: seq<Runner.Call>, stageOf: nat -> StageRun)
      : (stages: map<Step, StageRun>)
    ensures stages.Keys == AllSteps(spans)
  {
    map step | step in AllSteps(spans) :: stageOf(CallOf(kinds, calls, NameOf(step)))
  }

  /** A run whose rebuild steps' rows are all completed has, for each planned unit, a completed provenance row
      that is its own or adopted, over any calls, kills and retries of the runner and any other sessions. */
  lemma CompletedRunHasEveryUnit(w: World, states: seq<State>, actions: seq<Action>, plan: Budget.Plan, keys: seq<Key>,
                                 kinds: seq<Chain.Kind>, calls: seq<Runner.Call>, stageOf: nat -> StageRun,
                                 adoptions: map<Key, Option<RunId>>, run: RunId, n: nat, u: nat)
    requires Run(w, states, actions) && Budget.Planned(plan) && |keys| == |plan.units| && u < |keys|
    requires Runner.CallsFit(kinds, calls) && AllCompleted(plan.spans, Runner.After(kinds, calls))
    requires HandlersReport(plan, keys, states, kinds, calls, stageOf, run)
    requires Gathered(adoptions, StagesOf(plan.spans, kinds, calls, stageOf), run) && n < |states|
    requires forall stage :: stage in StagesOf(plan.spans, kinds, calls, stageOf).Values ==> stage.end <= n
    ensures var rows := CompletedRows(states[n].prov, set k | k in keys);
            keys[u] in rows && BelongsToRun(rows[keys[u]], keys[u], run, adoptions)
  {
    var stages := StagesOf(plan.spans, kinds, calls, stageOf);
    forall step | StepOf(plan.spans, step)
      ensures step in stages && Observed(states, stages[step]) && IsScope(plan, keys, step, stages[step].scope)
      ensures EndsClean(states, stages[step], run)
    {
      EachStepHasItsCall(plan.spans, kinds, calls, step);
      assert step in AllSteps(plan.spans);
      var i := CallOf(kinds, calls, NameOf(step));
      assert stages[step] == stageOf(i);
    }
    EveryPlannedUnitBelongs(w, states, actions, plan, keys, stages, adoptions, run, n, u);
  }
}
