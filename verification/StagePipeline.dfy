/** The two-deep pipeline of a rebuild stage (run_rebuild_stage of services/backfill_feature_factory.py) on values,
    against the stage that plans and loads one group after another. */
module StagePipeline {
  import opened Prelude
  import opened RebuildStage

  // ----- The stage without a pipeline -------------------------------------------------------------------

  /** How loading the first n groups one after another ends. */
  function HaltOf(jobs: seq<Job>, n: nat): Halt
    requires n <= |jobs|
  {
    if n == 0 then Ran
    else if HaltOf(jobs, n - 1) != Ran then HaltOf(jobs, n - 1)
    else jobs[n - 1].halt
  }

  /** The fates when each group is planned, then loaded, before the next is looked at. */
  function Sequential(jobs: seq<Job>, n: nat): (entries: seq<Entry>)
    requires n <= |jobs|
  {
    if n == 0 then []
    else if HaltOf(jobs, n - 1) != Ran then Sequential(jobs, n - 1)
    else Sequential(jobs, n - 1) + jobs[n - 1].skips + jobs[n - 1].loads
  }

  // ----- The pipeline ------------------------------------------------------------------------------------

  /** The stage after planning some groups: the group whose workers run, the fates so far, the scope. */
  datatype Flow = Flow(waiting: Option<nat>, ledger: seq<Entry>, scope: seq<Key>, halt: Halt)

  /** One more group is planned; if it has work, the group ahead of it is loaded first, and a disk
      refusal there abandons it. */
  function PlanNext(f: Flow, jobs: seq<Job>, g: nat): Flow
    requires g < |jobs| && f.halt == Ran && (f.waiting.Some? ==> f.waiting.value < g)
  {
    var planned := f.(ledger := f.ledger + jobs[g].skips, scope := f.scope + jobs[g].scope);
    if jobs[g].pending == [] then planned
    else if f.waiting.None? then planned.(waiting := Some(g))
    else
      var loads, halt := jobs[f.waiting.value].loads, jobs[f.waiting.value].halt;
      match halt
      case Ran => planned.(waiting := Some(g), ledger := planned.ledger + loads)
      case Raised => planned.(halt := Raised)
      case Refused =>
        planned.(waiting := None, halt := Refused,
                 ledger := planned.ledger + loads + AllWith(jobs[g].pending, Abandoned))
  }

  function FlowTo(jobs: seq<Job>, i: nat): (f: Flow)
    requires i <= |jobs|
    ensures f.waiting.Some? && f.halt == Ran ==> f.waiting.value < i
  {
    if i == 0 then Flow(None, [], [], Ran)
    else if FlowTo(jobs, i - 1).halt != Ran then FlowTo(jobs, i - 1)
    else PlanNext(FlowTo(jobs, i - 1), jobs, i - 1)
  }

  /** Once all groups are planned the last one waiting is loaded. */
  function LoadLast(f: Flow, jobs: seq<Job>): Flow
    requires f.halt == Ran && f.waiting.Some? ==> f.waiting.value < |jobs|
  {
    if f.halt != Ran || f.waiting.None? then f
    else
      var loads, halt := jobs[f.waiting.value].loads, jobs[f.waiting.value].halt;
      if halt == Raised then f.(halt := Raised)
      else f.(waiting := None, ledger := f.ledger + loads, halt := halt)
  }

  function FlowEnd(jobs: seq<Job>): Flow
  {
    LoadLast(FlowTo(jobs, |jobs|), jobs)
  }

  // ----- The pipeline against the sequence ----------------------------------------------------------------

  /** The fate is one the sequential stage decides in its first n groups. */
  predicate Settled(jobs: seq<Job>, n: nat, e: Entry)
    requires n <= |jobs|
  {
    n > 0 && (Settled(jobs, n - 1, e) || (HaltOf(jobs, n - 1) == Ran && (e in jobs[n - 1].skips || e in jobs[n - 1].loads)))
  }

  /** Planning groups a to b - 1 decides it. */
  predicate SkippedIn(jobs: seq<Job>, a: nat, b: nat, e: Entry)
    requires a <= b <= |jobs|
    decreases b
  {
    a < b && (SkippedIn(jobs, a, b - 1, e) || e in jobs[b - 1].skips)
  }

  lemma {:induction false} SettledIsSequential(jobs: seq<Job>, n: nat, e: Entry)
    requires n <= |jobs|
    ensures Settled(jobs, n, e) <==> e in Sequential(jobs, n)
  {
    if n > 0 {
      SettledIsSequential(jobs, n - 1, e);
    }
  }

  lemma {:induction false} SkippedSplits(jobs: seq<Job>, a: nat, b: nat, c: nat, e: Entry)
    requires a <= b <= c <= |jobs|
    ensures SkippedIn(jobs, a, c, e) <==> SkippedIn(jobs, a, b, e) || SkippedIn(jobs, b, c, e)
    decreases c
  {
    if b < c {
      SkippedSplits(jobs, a, b, c - 1, e);
    }
  }

  lemma SkippedFrom(jobs: seq<Job>, w: nat, i: nat, e: Entry)
    requires w < i <= |jobs|
    ensures SkippedIn(jobs, w, i, e) <==> e in jobs[w].skips || SkippedIn(jobs, w + 1, i, e)
  {
    SkippedSplits(jobs, w, w + 1, i, e);
    assert SkippedIn(jobs, w, w + 1, e) <==> e in jobs[w].skips;
  }

  lemma {:induction false} SkippedAreSkips(jobs: seq<Job>, a: nat, b: nat, e: Entry)
    requires Shaped(jobs) && a <= b <= |jobs|
    ensures SkippedIn(jobs, a, b, e) ==> e.fate.Skipped?
    decreases b
  {
    if a < b {
      SkippedAreSkips(jobs, a, b - 1, e);
      assert AllSkipped(jobs[b - 1].skips);
    }
  }

  ghost predicate NonePending(jobs: seq<Job>, a: nat, b: nat)
    requires b <= |jobs|
  {
    forall g :: a <= g < b ==> jobs[g].pending == []
  }

  /** Groups without a pending unit load nothing. */
  lemma {:induction false} NothingToLoad(jobs: seq<Job>, a: nat, b: nat, e: Entry)
    requires Shaped(jobs) && a <= b <= |jobs| && NonePending(jobs, a, b) && HaltOf(jobs, a) == Ran
    ensures HaltOf(jobs, b) == Ran
    ensures Settled(jobs, b, e) <==> Settled(jobs, a, e) || SkippedIn(jobs, a, b, e)
    decreases b
  {
    if a < b {
      NothingToLoad(jobs, a, b - 1, e);
      assert jobs[b - 1].pending == [];
    }
  }

  lemma {:induction false} HaltedStays(jobs: seq<Job>, n: nat, m: nat, e: Entry)
    requires n <= m <= |jobs| && HaltOf(jobs, n) != Ran
    ensures HaltOf(jobs, m) == HaltOf(jobs, n)
    ensures Settled(jobs, m, e) <==> Settled(jobs, n, e)
    decreases m
  {
    if n < m {
      HaltedStays(jobs, n, m - 1, e);
    }
  }

  /** Groups before w are loaded and groups before i planned: a fate is decided when the sequential stage of
      the loaded groups decides it, or planning one of the others does. */
  ghost predicate Reached(jobs: seq<Job>, w: nat, i: nat, decided: bool, e: Entry)
  {
    && w <= i <= |jobs| && HaltOf(jobs, w) == Ran
    && (decided <==> Settled(jobs, w, e) || SkippedIn(jobs, w, i, e))
  }

  /** Loading group w brings the loads up to `next`. */
  lemma LoadReaches(jobs: seq<Job>, w: nat, next: nat, i: nat, decided: bool, e: Entry)
    requires Shaped(jobs) && w < next <= i <= |jobs| && NonePending(jobs, w + 1, next)
    requires Reached(jobs, w, i, decided, e) && jobs[w].halt == Ran
    ensures Reached(jobs, next, i, decided || e in jobs[w].loads, e)
  {
    NothingToLoad(jobs, w + 1, next, e);
    SkippedFrom(jobs, w, i, e);
    SkippedSplits(jobs, w + 1, next, i, e);
  }

  /** The fate is decided if the sequential stage decides it; any other is a unit of a group planned beyond the
      halt, skipped as completed or abandoned. */
  predicate AsSequential(jobs: seq<Job>, decided: bool, e: Entry)
  {
    && (Settled(jobs, |jobs|, e) ==> decided)
    && (decided && !Settled(jobs, |jobs|, e) ==> e.fate.Skipped? || e.fate.Abandoned?)
  }

  lemma HaltSettles(jobs: seq<Job>, w: nat, e: Entry)
    requires w < |jobs| && HaltOf(jobs, w) == Ran && jobs[w].halt != Ran
    ensures HaltOf(jobs, |jobs|) == jobs[w].halt
    ensures Settled(jobs, |jobs|, e) <==> Settled(jobs, w, e) || e in jobs[w].skips || e in jobs[w].loads
  {
    HaltedStays(jobs, w + 1, |jobs|, e);
  }

  /** A refusal ends the loads where the sequential stage ends too. */
  lemma RefusalEnds(jobs: seq<Job>, w: nat, i: nat, decided: bool, abandoned: bool, e: Entry)
    requires w < i <= |jobs| && Reached(jobs, w, i, decided, e) && jobs[w].halt == Refused
    requires abandoned ==> e.fate.Abandoned?
    requires SkippedIn(jobs, w + 1, i, e) ==> e.fate.Skipped?
    ensures HaltOf(jobs, |jobs|) == Refused
    ensures AsSequential(jobs, decided || e in jobs[w].loads || abandoned, e)
  {
    HaltSettles(jobs, w, e);
    SkippedFrom(jobs, w, i, e);
  }

  /** What the flow has decided about one fate. */
  ghost predicate FlowInv(f: Flow, jobs: seq<Job>, i: nat, e: Entry)
    requires i <= |jobs|
  {
    match f.halt
    case Ran =>
      && (f.waiting.Some? ==> f.waiting.value < i && NonePending(jobs, f.waiting.value + 1, i))
      && Reached(jobs, if f.waiting.Some? then f.waiting.value else i, i, e in f.ledger, e)
    case Refused => AsSequential(jobs, e in f.ledger, e) && HaltOf(jobs, |jobs|) == Refused
    case Raised => HaltOf(jobs, |jobs|) == Raised
  }

  lemma PlanOnly(f: Flow, jobs: seq<Job>, g: nat, e: Entry)
    requires Shaped(jobs) && g < |jobs| && f.halt == Ran && FlowInv(f, jobs, g, e) && jobs[g].pending == []
    ensures FlowInv(PlanNext(f, jobs, g), jobs, g + 1, e)
  {
  }

  lemma FirstWaits(f: Flow, jobs: seq<Job>, g: nat, e: Entry)
    requires g < |jobs| && f.halt == Ran && f.waiting.None? && FlowInv(f, jobs, g, e) && jobs[g].pending != []
    ensures FlowInv(PlanNext(f, jobs, g), jobs, g + 1, e)
  {
  }

  lemma AheadLoads(f: Flow, jobs: seq<Job>, g: nat, e: Entry)
    requires Shaped(jobs) && g < |jobs| && f.halt == Ran && f.waiting.Some?
    requires FlowInv(f, jobs, g, e) && jobs[g].pending != []
    ensures FlowInv(PlanNext(f, jobs, g), jobs, g + 1, e)
  {
    var w, decided := f.waiting.value, e in f.ledger || e in jobs[g].skips;
    assert Reached(jobs, w, g + 1, decided, e);
    if jobs[w].halt == Ran {
      LoadReaches(jobs, w, g, g + 1, decided, e);
    } else if jobs[w].halt == Refused {
      AllWithIff(jobs[g].pending, Abandoned, e);
      SkippedAreSkips(jobs, w + 1, g + 1, e);
      RefusalEnds(jobs, w, g + 1, decided, e in AllWith(jobs[g].pending, Abandoned), e);
    } else {
      HaltedStays(jobs, w + 1, |jobs|, e);
    }
  }

  lemma {:induction false} FlowKeepsInv(jobs: seq<Job>, i: nat, e: Entry)
    requires Shaped(jobs) && i <= |jobs|
    ensures FlowInv(FlowTo(jobs, i), jobs, i, e)
  {
    if i > 0 {
      FlowKeepsInv(jobs, i - 1, e);
      var f := FlowTo(jobs, i - 1);
      if f.halt == Ran {
        NextKeepsInv(f, jobs, i - 1, e);
      }
    }
  }

  lemma NextKeepsInv(f: Flow, jobs: seq<Job>, g: nat, e: Entry)
    requires Shaped(jobs) && g < |jobs| && f.halt == Ran && FlowInv(f, jobs, g, e)
    ensures FlowInv(PlanNext(f, jobs, g), jobs, g + 1, e)
  {
    if jobs[g].pending == [] {
      PlanOnly(f, jobs, g, e);
    } else if f.waiting.None? {
      FirstWaits(f, jobs, g, e);
    } else {
      AheadLoads(f, jobs, g, e);
    }
  }

  /** What the stage ends with, for one fate. */
  ghost predicate Ends(f: Flow, jobs: seq<Job>, e: Entry)
  {
    && f.halt == HaltOf(jobs, |jobs|)
    && (f.halt == Ran ==> (e in f.ledger <==> Settled(jobs, |jobs|, e)))
    && (f.halt == Refused ==> AsSequential(jobs, e in f.ledger, e))
  }

  lemma PipelineEnds(jobs: seq<Job>, e: Entry)
    requires Shaped(jobs)
    ensures Ends(FlowEnd(jobs), jobs, e)
  {
    FlowKeepsInv(jobs, |jobs|, e);
    var f := FlowTo(jobs, |jobs|);
    if f.halt == Ran && f.waiting.Some? {
      LastLoads(f, jobs, f.waiting.value, e);
    }
  }

  lemma LastLoads(f: Flow, jobs: seq<Job>, w: nat, e: Entry)
    requires Shaped(jobs) && f.halt == Ran && f.waiting == Some(w) && FlowInv(f, jobs, |jobs|, e)
    ensures Ends(LoadLast(f, jobs), jobs, e)
  {
    if jobs[w].halt == Ran {
      LoadReaches(jobs, w, |jobs|, |jobs|, e in f.ledger, e);
    } else if jobs[w].halt == Refused {
      SkippedAreSkips(jobs, w + 1, |jobs|, e);
      RefusalEnds(jobs, w, |jobs|, e in f.ledger, false, e);
    } else {
      HaltedStays(jobs, w + 1, |jobs|, e);
    }
  }

  // ----- Every unit of the scope once ----------------------------------------------------------------------

  lemma PlanDecides(j: Job, ledger: seq<Entry>, scope: seq<Key>, waiting: seq<Key>)
    requires DecidesAll(j) && Decided(scope, ledger, waiting)
    ensures Decided(scope + j.scope, ledger + j.skips, waiting + j.pending)
  {
    KeysAdd(scope, j.scope);
    KeysAdd(waiting, j.pending);
    EntryKeysAdd(ledger, j.skips);
  }

  lemma LoadDecides(scope: seq<Key>, before: seq<Entry>, loads: seq<Entry>, loaded: seq<Key>, waiting: seq<Key>)
    requires Decided(scope, before, loaded + waiting) && EntryKeys(loads) == Keys(loaded) && |loads| == |loaded|
    ensures Decided(scope, before + loads, waiting)
  {
    EntryKeysAdd(before, loads);
    KeysAdd(loaded, waiting);
  }

  lemma AbandonsDecide(scope: seq<Key>, ledger: seq<Entry>, pending: seq<Key>)
    requires Decided(scope, ledger, pending)
    ensures Decided(scope, ledger + AllWith(pending, Abandoned), [])
  {
    AllWithKeys(pending, Abandoned);
    assert pending + [] == pending;
    LoadDecides(scope, ledger, AllWith(pending, Abandoned), pending, []);
  }

  /** The keys whose workers run. */
  function WaitingKeys(f: Flow, jobs: seq<Job>): seq<Key>
    requires f.waiting.Some? ==> f.waiting.value < |jobs|
  {
    if f.waiting.Some? then jobs[f.waiting.value].pending else []
  }

  /** A stage that goes on has decided every unit planned but those waiting; a refused one all of them. */
  ghost predicate FlowDecides(f: Flow, jobs: seq<Job>)
  {
    match f.halt
    case Ran => (f.waiting.Some? ==> f.waiting.value < |jobs|) && Decided(f.scope, f.ledger, WaitingKeys(f, jobs))
    case Refused => Decided(f.scope, f.ledger, [])
    case Raised => true
  }

  lemma AheadDecides(f: Flow, jobs: seq<Job>, g: nat)
    requires Fits(jobs) && g < |jobs| && f.halt == Ran && f.waiting.Some? && f.waiting.value < g
    requires FlowDecides(f, jobs) && jobs[g].pending != []
    ensures FlowDecides(PlanNext(f, jobs, g), jobs)
  {
    var w := f.waiting.value;
    var scope, ledger := f.scope + jobs[g].scope, f.ledger + jobs[g].skips;
    PlanDecides(jobs[g], f.ledger, f.scope, jobs[w].pending);
    if jobs[w].halt != Raised {
      assert DecidesAll(jobs[w]);
      LoadDecides(scope, ledger, jobs[w].loads, jobs[w].pending, jobs[g].pending);
      AbandonsDecide(scope, ledger + jobs[w].loads, jobs[g].pending);
    }
  }

  lemma NextDecides(f: Flow, jobs: seq<Job>, g: nat)
    requires Fits(jobs) && g < |jobs| && f.halt == Ran && (f.waiting.Some? ==> f.waiting.value < g) && FlowDecides(f, jobs)
    ensures FlowDecides(PlanNext(f, jobs, g), jobs)
  {
    if f.waiting.Some? && jobs[g].pending != [] {
      AheadDecides(f, jobs, g);
    } else {
      PlanDecides(jobs[g], f.ledger, f.scope, WaitingKeys(f, jobs));
      assert WaitingKeys(f, jobs) + [] == WaitingKeys(f, jobs) && [] + jobs[g].pending == jobs[g].pending;
    }
  }

  lemma {:induction false} FlowKeepsDeciding(jobs: seq<Job>, i: nat)
    requires Fits(jobs) && i <= |jobs|
    ensures FlowDecides(FlowTo(jobs, i), jobs)
  {
    if i > 0 {
      FlowKeepsDeciding(jobs, i - 1);
      if FlowTo(jobs, i - 1).halt == Ran {
        NextDecides(FlowTo(jobs, i - 1), jobs, i - 1);
      }
    }
  }

  lemma EndDecides(jobs: seq<Job>)
    requires Fits(jobs)
    ensures FlowEnd(jobs).halt != Raised ==> Decided(FlowEnd(jobs).scope, FlowEnd(jobs).ledger, [])
  {
    var f := FlowTo(jobs, |jobs|);
    FlowKeepsDeciding(jobs, |jobs|);
    if f.halt == Ran && f.waiting.Some? && jobs[f.waiting.value].halt != Raised {
      var job := jobs[f.waiting.value];
      assert DecidesAll(job);
      assert job.pending + [] == job.pending;
      LoadDecides(f.scope, f.ledger, job.loads, job.pending, []);
    }
  }

  // ----- The main results --------------------------------------------------------------------------------------

  /** `entries` are `all` of these fates, and otherwise only skips and abandonments. */
  ghost predicate OnlySkipsMore(all: seq<Entry>, entries: seq<Entry>)
  {
    && (forall e :: e in all ==> e in entries)
    && forall e :: e in entries && e !in all ==> e.fate.Skipped? || e.fate.Abandoned?
  }

  ghost predicate SameFates(a: seq<Entry>, b: seq<Entry>)
  {
    forall e :: e in a <==> e in b
  }

  /** The pipelined stage does what the sequential one does: it ends the same way, every fate the
      sequential stage decides is decided the same, and any other fate belongs to a group planned beyond a
      refusal. Every unit planned into the scope has a fate, and there are as many fates as units. */
  lemma PipelineRefinesSequence(groups: seq<seq<Planned>>, world: World)
    ensures var jobs := JobsOf(groups, world);
            var f, all := FlowEnd(jobs), Sequential(jobs, |jobs|);
            && f.halt == HaltOf(jobs, |jobs|)
            && (f.halt == Ran ==> SameFates(f.ledger, all))
            && (f.halt == Refused ==> OnlySkipsMore(all, f.ledger))
            && (f.halt != Raised ==> Decided(f.scope, f.ledger, []))
  {
    var jobs := JobsOf(groups, world);
    JobsFit(groups, world);
    EndDecides(jobs);
    PipelineEnds(jobs, Entry("", Failed));
    forall e: Entry
      ensures Ends(FlowEnd(jobs), jobs, e) && (Settled(jobs, |jobs|, e) <==> e in Sequential(jobs, |jobs|))
    {
      PipelineEnds(jobs, e);
      SettledIsSequential(jobs, |jobs|, e);
    }
  }

  // ----- What the fates mean ----------------------------------------------------------------------------------

  ghost predicate FromSome(groups: seq<seq<Planned>>, n: nat, world: World, e: Entry)
    requires n <= |groups|
  {
    exists g :: 0 <= g < n && FromGroup(groups[g], g, world, e)
  }

  lemma OneGroupMore(groups: seq<seq<Planned>>, g: nat, world: World, e: Entry)
    requires g < |groups|
    ensures FromSome(groups, g + 1, world, e) <==> FromSome(groups, g, world, e) || FromGroup(groups[g], g, world, e)
  {
  }

  /** A stage that runs to its end gives exactly these fates: every unit of the scope the one its own
      completion, its group's workers and its own load decide, and no other. */
  lemma {:induction false} FatesOfAFullRun(groups: seq<seq<Planned>>, jobs: seq<Job>, n: nat, world: World, e: Entry)
    requires n <= |groups| == |jobs| && HaltOf(jobs, n) == Ran
    requires forall g :: 0 <= g < |groups| ==> jobs[g] == JobOf(groups[g], g, world)
    ensures e in Sequential(jobs, n) <==> FromSome(groups, n, world, e)
  {
    if n > 0 {
      FatesOfAFullRun(groups, jobs, n - 1, world, e);
      GroupFates(groups[n - 1], n - 1, world, e);
      OneGroupMore(groups, n - 1, world, e);
    }
  }

  /** The fate is one of the group's skips or loads, or the group was abandoned. */
  ghost predicate FromJob(j: Job, e: Entry)
  {
    e in j.skips || (e in j.loads && j.halt != Raised) || (e.fate.Abandoned? && e.key in j.pending)
  }

  ghost predicate FromJobs(jobs: seq<Job>, n: nat, e: Entry)
    requires n <= |jobs|
  {
    exists g :: 0 <= g < n && FromJob(jobs[g], e)
  }

  lemma AbandonedFromJob(j: Job, e: Entry)
    requires e in AllWith(j.pending, Abandoned)
    ensures FromJob(j, e)
  {
    AllWithIff(j.pending, Abandoned, e);
  }

  lemma NextFromJobs(f: Flow, jobs: seq<Job>, g: nat, e: Entry)
    requires g < |jobs| && f.halt == Ran && (f.waiting.Some? ==> f.waiting.value < g)
    requires e in PlanNext(f, jobs, g).ledger
    ensures e in f.ledger || FromJobs(jobs, g + 1, e)
  {
    if e in jobs[g].skips {
      assert FromJob(jobs[g], e);
    } else if e in AllWith(jobs[g].pending, Abandoned) {
      AbandonedFromJob(jobs[g], e);
    } else if e !in f.ledger {
      assert FromJob(jobs[f.waiting.value], e);
    }
  }

  lemma {:induction false} FlowFromJobs(jobs: seq<Job>, i: nat, e: Entry)
    requires i <= |jobs| && e in FlowTo(jobs, i).ledger
    ensures FromJobs(jobs, i, e)
  {
    if e in FlowTo(jobs, i - 1).ledger {
      FlowFromJobs(jobs, i - 1, e);
    } else {
      NextFromJobs(FlowTo(jobs, i - 1), jobs, i - 1, e);
    }
  }

  lemma EndFromJobs(jobs: seq<Job>, e: Entry)
    requires e in FlowEnd(jobs).ledger
    ensures FromJobs(jobs, |jobs|, e)
  {
    var f := FlowTo(jobs, |jobs|);
    if e in f.ledger {
      FlowFromJobs(jobs, |jobs|, e);
    } else {
      assert FromJob(jobs[f.waiting.value], e);
    }
  }

  ghost predicate DecreedBySome(groups: seq<seq<Planned>>, world: World, e: Entry)
  {
    exists g :: 0 <= g < |groups| && Decreed(groups[g], g, world, e)
  }

  /** Every fate of a stage that returns is one the world decrees for some unit planned into the scope. */
  lemma StageFatesAreDecreed(groups: seq<seq<Planned>>, world: World, e: Entry)
    requires e in FlowEnd(JobsOf(groups, world)).ledger
    ensures DecreedBySome(groups, world, e)
  {
    var jobs := JobsOf(groups, world);
    EndFromJobs(jobs, e);
    var g :| 0 <= g < |jobs| && FromJob(jobs[g], e);
    JobDecrees(groups[g], g, world, e);
  }

  lemma JobDecrees(group: seq<Planned>, g: nat, world: World, e: Entry)
    requires FromJob(JobOf(group, g, world), e)
    ensures Decreed(group, g, world, e)
  {
    if e in PlanEntries(group) {
      PlanEntriesIff(group, e);
    } else if e.fate.Abandoned? && e.key in PendingOf(group) {
      PendingIff(group, e.key);
    } else {
      GroupDecrees(group, g, world, e);
    }
  }

  /** What completes a unit: its row was completed at planning, or, in the scope and its workers fine, its load
      found it completed or loaded it. */
  ghost predicate CompletedByWorld(groups: seq<seq<Planned>>, world: World, k: Key)
  {
    exists g, u {:trigger u in groups[g]} :: 0 <= g < |groups| && u in groups[g] && u.key == k
      && (u.completed || (u.inScope && !world.workersFail(g)
                          && (world.outcome(k).AlreadyCompleted? || world.outcome(k).Loads?)))
  }

  /** A completing fate of a stage that returns is the world's. */
  lemma CompletingFate(groups: seq<seq<Planned>>, world: World, e: Entry)
    requires e in FlowEnd(JobsOf(groups, world)).ledger && Completes(e.fate)
    ensures CompletedByWorld(groups, world, e.key)
  {
    StageFatesAreDecreed(groups, world, e);
    var g :| 0 <= g < |groups| && Decreed(groups[g], g, world, e);
    var u :| u in groups[g] && u.inScope && u.key == e.key && FateIs(u, g, world, e.fate);
  }

  /** In a stage that runs to its end every unit of the scope that the world completes has such a fate. */
  lemma CompletedHasItsFate(groups: seq<seq<Planned>>, world: World, g: nat, u: Planned) returns (e: Entry)
    requires HaltOf(JobsOf(groups, world), |groups|) == Ran && g < |groups| && u in groups[g] && u.inScope
    requires u.completed || (!world.workersFail(g) && (world.outcome(u.key).AlreadyCompleted? || world.outcome(u.key).Loads?))
    ensures e in Sequential(JobsOf(groups, world), |groups|) && e.key == u.key && Completes(e.fate)
  {
    e := Entry(u.key, if u.completed || world.outcome(u.key).AlreadyCompleted? then Skipped
                      else Loaded(world.outcome(u.key).rows));
    assert FateIs(u, g, world, e.fate);
    assert FromGroup(groups[g], g, world, e);
    FatesOfAFullRun(groups, JobsOf(groups, world), |groups|, world, e);
  }
}
