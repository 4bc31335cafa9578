/** run_rebuild_stage and _write_group of services/backfill_feature_factory.py as they update the
    summary: one group loads while the next one's workers run. */
module RebuildPipeline {
  import opened Prelude
  import opened RebuildStage
  import opened StagePipeline

  class Stage {
    var unitsTotal: nat
    var unitsSkipped: nat
    var unitsLoaded: nat
    var unitsFailed: nat
    var unitsAbandoned: nat
    var unitsOutOfScope: nat
    var rowsLoaded: nat
    var scopeKeys: seq<Key>
    var failedUnits: seq<Key>
    var completedKeys: set<Key>

    /** Every decided unit with its fate, in the order the fates were decided. */
    ghost var ledger: seq<Entry>
    /** Out-of-scope units found completed. */
    ghost var outsideDone: set<Key>

    ghost predicate Valid()
      reads this
    {
      && Counted(Tally(ledger), unitsSkipped, unitsLoaded, unitsFailed, unitsAbandoned, rowsLoaded)
      && completedKeys == outsideDone + Tally(ledger).done
      && unitsTotal == |scopeKeys| && unitsFailed == |failedUnits|
    }

    constructor ()
      ensures Valid() && ledger == [] && scopeKeys == [] && outsideDone == {}
    {
      unitsTotal, unitsSkipped, unitsLoaded, unitsFailed, unitsAbandoned, unitsOutOfScope := 0, 0, 0, 0, 0, 0;
      rowsLoaded, scopeKeys, failedUnits, completedKeys := 0, [], [], {};
      ledger, outsideDone := [], {};
    }

    /** A unit's fate is counted once. */
    method Decide(key: Key, fate: Fate)
      requires Valid()
      modifies this
      ensures Valid() && ledger == old(ledger) + [Entry(key, fate)]
      ensures scopeKeys == old(scopeKeys) && outsideDone == old(outsideDone)
    {
      match fate {
        case Skipped => unitsSkipped := unitsSkipped + 1;
        case Loaded(n) => unitsLoaded, rowsLoaded := unitsLoaded + 1, rowsLoaded + n;
        case Failed => unitsFailed, failedUnits := unitsFailed + 1, failedUnits + [key];
        case Abandoned => unitsAbandoned := unitsAbandoned + 1;
      }
      CompletesStep(outsideDone, Tally(ledger), Entry(key, fate));
      if Completes(fate) {
        completedKeys := completedKeys + {key};
      }
      TallyStep(ledger, Entry(key, fate));
      ledger := ledger + [Entry(key, fate)];
    }

    /** Counts one planned unit: out of scope, skipped because completed, or waiting for its load. */
    method PlanUnit(unit: Planned) returns (waits: bool)
      requires Valid()
      modifies this
      ensures Valid() && waits == (unit.inScope && !unit.completed)
      ensures ledger == old(ledger) + if unit.inScope && unit.completed then [Entry(unit.key, Skipped)] else []
      ensures scopeKeys == old(scopeKeys) + if unit.inScope then [unit.key] else []
      ensures outsideDone == old(outsideDone) + if !unit.inScope && unit.completed then {unit.key} else {}
    {
      waits := false;
      if !unit.inScope {
        unitsOutOfScope := unitsOutOfScope + 1;
        if unit.completed {
          completedKeys := completedKeys + {unit.key};
          outsideDone := outsideDone + {unit.key};
        }
      } else {
        unitsTotal, scopeKeys := unitsTotal + 1, scopeKeys + [unit.key];
        if unit.completed {
          Decide(unit.key, Skipped);
        } else {
          waits := true;
        }
      }
    }

    /** Plans one group; returns its pending units. */
    method Plan(group: seq<Planned>) returns (pending: seq<Key>)
      requires Valid()
      modifies this
      ensures Valid() && pending == PendingOf(group)
      ensures ledger == old(ledger) + PlanEntries(group)
      ensures scopeKeys == old(scopeKeys) + ScopeOf(group)
      ensures outsideDone == old(outsideDone) + OutsideDone(group)
    {
      pending := [];
      var i := 0;
      while i < |group|
        invariant 0 <= i <= |group| && Valid()
        invariant pending == PendingOf(group[..i])
        invariant ledger == old(ledger) + PlanEntries(group[..i])
        invariant scopeKeys == old(scopeKeys) + ScopeOf(group[..i])
        invariant outsideDone == old(outsideDone) + OutsideDone(group[..i])
      {
        PlanStep(group, i);
        ghost var ledgerNow, scopeNow, doneNow := ledger, scopeKeys, outsideDone;
        var waits := PlanUnit(group[i]);
        StillAdds(old(ledger), PlanEntries(group[..i]), ledgerNow, PlanEntries(group[..i + 1]), ledger);
        StillAdds(old(scopeKeys), ScopeOf(group[..i]), scopeNow, ScopeOf(group[..i + 1]), scopeKeys);
        if waits {
          pending := pending + [group[i].key];
        }
        i := i + 1;
      }
      assert group[..i] == group;
    }

    /** _write_group: the units of one group, one by one. */
    method WriteGroup(pending: seq<Key>, lostWorker: bool, outcome: Key -> Outcome) returns (halt: Halt)
      requires Valid()
      modifies this
      ensures halt != Raised ==>
                && Valid() && scopeKeys == old(scopeKeys) && outsideDone == old(outsideDone)
                && ledger == old(ledger) + GroupLoads(pending, lostWorker, outcome).0
      ensures halt == GroupLoads(pending, lostWorker, outcome).1
    {
      if lostWorker {
        FailAll(pending);
        return Ran;
      }
      var at := 0;
      ghost var all := LoadFrom(pending, 0, outcome);
      assert ledger + all.0 == old(ledger) + all.0;
      while at < |pending|
        invariant 0 <= at <= |pending| && Valid()
        invariant scopeKeys == old(scopeKeys) && outsideDone == old(outsideDone)
        invariant all.1 == LoadFrom(pending, at, outcome).1
        invariant old(ledger) + all.0 == ledger + LoadFrom(pending, at, outcome).0
      {
        var key, result := pending[at], outcome(pending[at]);
        ghost var before, rest := ledger, LoadFrom(pending, at, outcome).0;
        if result.TooManyRows? || result.RowsDiffer? {
          return Raised;
        }
        if result.GuardRefuses? {
          Decide(key, Failed);
          Abandon(pending[at + 1..]);
          assert ledger == before + rest;
          return Refused;
        }
        Decide(key, FateOf(result));
        Regroup(before, Entry(key, FateOf(result)), LoadFrom(pending, at + 1, outcome).0);
        at := at + 1;
      }
      return Ran;
    }

    method FailAll(pending: seq<Key>)
      requires Valid()
      modifies this
      ensures Valid() && scopeKeys == old(scopeKeys) && outsideDone == old(outsideDone)
      ensures ledger == old(ledger) + AllWith(pending, Failed)
    {
      var i := 0;
      while i < |pending|
        invariant 0 <= i <= |pending| && Valid()
        invariant scopeKeys == old(scopeKeys) && outsideDone == old(outsideDone)
        invariant ledger == old(ledger) + AllWith(pending[..i], Failed)
      {
        Decide(pending[i], Failed);
        i := i + 1;
      }
      assert pending[..i] == pending;
    }

    /** units_abandoned += len(pending). */
    method Abandon(pending: seq<Key>)
      requires Valid()
      modifies this
      ensures Valid() && scopeKeys == old(scopeKeys) && outsideDone == old(outsideDone)
      ensures ledger == old(ledger) + AllWith(pending, Abandoned)
    {
      unitsAbandoned := unitsAbandoned + |pending|;
      AbandonsMany(ledger, pending);
      ledger := ledger + AllWith(pending, Abandoned);
    }

    /** Loads the group whose workers were running. */
    method LoadWaiting(groups: seq<seq<Planned>>, w: nat, pending: seq<Key>, world: World, ghost job: Job)
        returns (halt: Halt)
      requires Valid() && w < |groups| && pending == PendingOf(groups[w]) && pending != []
      requires job == JobOf(groups[w], w, world)
      modifies this
      ensures halt == job.halt
      ensures halt != Raised ==>
                && Valid() && scopeKeys == old(scopeKeys) && outsideDone == old(outsideDone)
                && ledger == old(ledger) + job.loads
    {
      halt := WriteGroup(pending, world.workersFail(w), world.outcome);
    }

    /** Plans group i; if it has work, the group ahead of it is loaded, and a disk refusal there abandons
        it. */
    method PlanNextGroup(groups: seq<seq<Planned>>, i: nat, waiting: Option<(nat, seq<Key>)>, world: World,
                         ghost f: Flow, ghost jobs: seq<Job>) returns (halt: Halt, now: Option<(nat, seq<Key>)>)
      requires Valid() && i < |groups| && AreJobs(jobs, groups, world)
      requires Matches(waiting, jobs, f, ledger, scopeKeys) && (f.waiting.Some? ==> f.waiting.value < i)
      modifies this
      ensures halt == PlanNext(f, jobs, i).halt
      ensures halt != Raised ==>
                && Valid() && ledger == PlanNext(f, jobs, i).ledger && scopeKeys == PlanNext(f, jobs, i).scope
                && outsideDone == old(outsideDone) + OutsideDone(groups[i])
      ensures halt == Ran ==> Matches(now, jobs, PlanNext(f, jobs, i), ledger, scopeKeys)
    {
      halt, now := Ran, waiting;
      var pending := Plan(groups[i]);
      if pending != [] {
        now := Some((i, pending));
        if waiting.Some? {
          halt := LoadWaiting(groups, waiting.value.0, waiting.value.1, world, jobs[waiting.value.0]);
          if halt == Refused {
            Abandon(pending);
          }
        }
      }
    }

    /** Loads the last group waiting, if any. */
    method LoadLastGroup(groups: seq<seq<Planned>>, waiting: Option<(nat, seq<Key>)>, world: World, ghost f: Flow,
                         ghost jobs: seq<Job>) returns (halt: Halt)
      requires Valid() && AreJobs(jobs, groups, world) && Matches(waiting, jobs, f, ledger, scopeKeys)
      modifies this
      ensures halt == LoadLast(f, jobs).halt
      ensures halt != Raised ==>
                && Valid() && ledger == LoadLast(f, jobs).ledger && scopeKeys == LoadLast(f, jobs).scope
                && outsideDone == old(outsideDone)
    {
      halt := Ran;
      if waiting.Some? {
        halt := LoadWaiting(groups, waiting.value.0, waiting.value.1, world, jobs[waiting.value.0]);
      }
    }

    /** The stage's loop: each group is planned and handed to the workers before the group ahead of it
        loads. */
    method RunGroups(groups: seq<seq<Planned>>, world: World, ghost jobs: seq<Job>) returns (halt: Halt)
      requires Valid() && ledger == [] && scopeKeys == [] && outsideDone == {} && AreJobs(jobs, groups, world)
      modifies this
      ensures halt == FlowEnd(jobs).halt
      ensures halt != Raised ==>
                && Valid() && ledger == FlowEnd(jobs).ledger && scopeKeys == FlowEnd(jobs).scope
                && outsideDone <= OutsideOf(groups, |groups|)
      ensures halt == Ran ==> outsideDone == OutsideOf(groups, |groups|)
    {
      var i := 0;
      var waiting: Option<(nat, seq<Key>)> := None;
      ghost var f := FlowTo(jobs, 0);
      while i < |groups|
        invariant 0 <= i <= |groups| && Valid() && f == FlowTo(jobs, i)
        invariant Matches(waiting, jobs, f, ledger, scopeKeys) && outsideDone == OutsideOf(groups, i)
      {
        FlowStep(jobs, i);
        halt, waiting := PlanNextGroup(groups, i, waiting, world, f, jobs);
        f, i := PlanNext(f, jobs, i), i + 1;
        if halt != Ran {
          FlowStops(jobs, i);
          OutsideGrows(groups, i, |groups|);
          return;
        }
      }
      halt := LoadLastGroup(groups, waiting, world, f, jobs);
    }

    /** A unit of the scope is in the completed set exactly when it was skipped or loaded; the same key found
        completed outside the scope aside. */
    ghost predicate CompletedAreDone()
      reads this
    {
      forall i :: 0 <= i < |ledger| && ledger[i].key !in outsideDone ==>
        (ledger[i].key in completedKeys <==> Completes(ledger[i].fate))
    }

    /** What the counters, the row sum and the completed set say once every unit has its fate. */
    lemma SummaryAddsUp()
      requires Valid() && Decided(scopeKeys, ledger, [])
      ensures unitsTotal == unitsSkipped + unitsLoaded + unitsFailed + unitsAbandoned
      ensures rowsLoaded == LoadedRows(ledger) && Numbers(ledger, Tally(ledger))
      ensures Distinct(scopeKeys) ==> Distinct(KeysOf(ledger)) && CompletedAreDone()
      ensures unitsFailed == 0 && unitsAbandoned == 0 ==> forall k :: k in scopeKeys ==> k in completedKeys
    {
      StageAddsUp(scopeKeys, ledger);
      TallyAddsUp(ledger);
      if Distinct(scopeKeys) {
        FatesDistinct(scopeKeys, ledger);
        forall i | 0 <= i < |ledger| && ledger[i].key !in outsideDone
          ensures ledger[i].key in completedKeys <==> Completes(ledger[i].fate)
        {
          CompletedIff(scopeKeys, ledger, outsideDone, i);
        }
      }
      if unitsFailed == 0 && unitsAbandoned == 0 {
        CleanStageCompletesItsScope(scopeKeys, ledger);
      }
    }

    /** The completed set of a stage that returns holds only what the world completes. */
    lemma CompletedByTheWorld(groups: seq<seq<Planned>>, world: World)
      requires Valid() && ledger == FlowEnd(JobsOf(groups, world)).ledger && outsideDone <= OutsideOf(groups, |groups|)
      ensures forall k :: k in completedKeys ==> CompletedByWorld(groups, world, k)
    {
      forall k | k in completedKeys
        ensures CompletedByWorld(groups, world, k)
      {
        if k in outsideDone {
          OutsideIff(groups, |groups|, k);
        } else {
          TallyAddsUp(ledger);
          var i :| 0 <= i < |ledger| && ledger[i].key == k && Completes(ledger[i].fate);
          CompletingFate(groups, world, ledger[i]);
        }
      }
    }

    /** One that runs to its end holds all of it. */
    lemma AllCompletedByTheWorld(groups: seq<seq<Planned>>, world: World, k: Key)
      requires Valid() && outsideDone == OutsideOf(groups, |groups|) && HaltOf(JobsOf(groups, world), |groups|) == Ran
      requires SameFates(ledger, Sequential(JobsOf(groups, world), |groups|)) && CompletedByWorld(groups, world, k)
      ensures k in completedKeys
    {
      var g, u :| 0 <= g < |groups| && u in groups[g] && u.key == k
                  && (u.completed || (u.inScope && !world.workersFail(g)
                                      && (world.outcome(k).AlreadyCompleted? || world.outcome(k).Loads?)));
      if u.inScope {
        var e := CompletedHasItsFate(groups, world, g, u);
        assert e in ledger;
        var i :| 0 <= i < |ledger| && ledger[i] == e;
        TallyAddsUp(ledger);
      } else {
        OutsideIff(groups, |groups|, k);
      }
    }

    /** run_rebuild_stage's loading: it ends as the one-group-at-a-time stage does, with its fates (a refusal
        only adds skips and abandonments), every fate is what the world decides of some unit of the scope,
        every unit planned into the scope has one, the summary adds up, and the completed set is what the
        world completes. */
    method Run(groups: seq<seq<Planned>>, world: World) returns (halt: Halt)
      requires Valid() && ledger == [] && scopeKeys == [] && outsideDone == {}
      modifies this
      ensures halt == HaltOf(JobsOf(groups, world), |groups|)
      ensures halt != Raised ==> Valid() && Decided(scopeKeys, ledger, [])
      ensures halt == Ran ==> SameFates(ledger, Sequential(JobsOf(groups, world), |groups|))
      ensures halt == Refused ==> OnlySkipsMore(Sequential(JobsOf(groups, world), |groups|), ledger)
      ensures halt != Raised ==> forall e :: e in ledger ==> DecreedBySome(groups, world, e)
      ensures halt != Raised ==>
                && unitsTotal == unitsSkipped + unitsLoaded + unitsFailed + unitsAbandoned
                && rowsLoaded == LoadedRows(ledger) && Numbers(ledger, Tally(ledger))
                && (Distinct(scopeKeys) ==> Distinct(KeysOf(ledger)) && CompletedAreDone())
                && (unitsFailed == 0 && unitsAbandoned == 0 ==> forall k :: k in scopeKeys ==> k in completedKeys)
      ensures halt != Raised ==> forall k :: k in completedKeys ==> CompletedByWorld(groups, world, k)
      ensures halt == Ran ==> forall k :: CompletedByWorld(groups, world, k) ==> k in completedKeys
    {
      PipelineRefinesSequence(groups, world);
      halt := RunGroups(groups, world, JobsOf(groups, world));
      if halt != Raised {
        SummaryAddsUp();
        CompletedByTheWorld(groups, world);
        forall e | e in ledger
          ensures DecreedBySome(groups, world, e)
        {
          StageFatesAreDecreed(groups, world, e);
        }
      }
      if halt == Ran {
        forall k | CompletedByWorld(groups, world, k)
          ensures k in completedKeys
        {
          AllCompletedByTheWorld(groups, world, k);
        }
      }
    }
  }

  /** How a group ends: a lost worker fails every unit; otherwise each is tried in order up to the one the disk
      guard refuses, which fails, and those after it are abandoned. */
  ghost predicate GroupEnds(added: seq<Entry>, pending: seq<Key>, lostWorker: bool, halt: Halt, outcome: Key -> Outcome)
  {
    && |added| == |pending|
    && if lostWorker then halt == Ran && forall i :: 0 <= i < |added| ==> added[i] == Entry(pending[i], Failed)
       else exists m: nat :: EndsAt(added, pending, m, halt, outcome)
  }

  ghost predicate EndsAt(added: seq<Entry>, pending: seq<Key>, m: nat, halt: Halt, outcome: Key -> Outcome)
    requires |added| == |pending|
  {
    && m <= |pending| && (halt == Ran <==> m == |pending|)
    && (m < |pending| ==> outcome(pending[m]).GuardRefuses?)
    && forall i :: 0 <= i < |added| ==> InOrder(added[i], pending, i, m, outcome)
  }

  /** A group whose writing returns ends so. */
  lemma GroupLoadsEnd(pending: seq<Key>, lostWorker: bool, outcome: Key -> Outcome)
    ensures var r := GroupLoads(pending, lostWorker, outcome);
            r.1 != Raised ==> GroupEnds(r.0, pending, lostWorker, r.1, outcome)
  {
    var r := GroupLoads(pending, lostWorker, outcome);
    if r.1 != Raised && !lostWorker {
      var m := LoadsInOrder(pending, 0, outcome);
      forall i | 0 <= i < |r.0|
        ensures InOrder(r.0[i], pending, i, m, outcome)
      {
        assert InOrder(r.0[i], pending, 0 + i, m, outcome);
      }
      assert EndsAt(r.0, pending, m, r.1, outcome);
    }
  }

  /** The units of the first n groups found completed outside the scope. */
  function OutsideOf(groups: seq<seq<Planned>>, n: nat): set<Key>
    requires n <= |groups|
  {
    if n == 0 then {} else OutsideOf(groups, n - 1) + OutsideDone(groups[n - 1])
  }

  lemma {:induction false} OutsideGrows(groups: seq<seq<Planned>>, i: nat, n: nat)
    requires i <= n <= |groups|
    ensures OutsideOf(groups, i) <= OutsideOf(groups, n)
    decreases n
  {
    if i < n {
      OutsideGrows(groups, i, n - 1);
    }
  }

  lemma {:induction false} OutsideIff(groups: seq<seq<Planned>>, n: nat, k: Key)
    requires n <= |groups|
    ensures k in OutsideOf(groups, n) <==>
              exists g, u {:trigger u in groups[g]} :: 0 <= g < n && u in groups[g] && !u.inScope && u.completed && u.key == k
  {
    if n > 0 {
      OutsideIff(groups, n - 1, k);
      if k in OutsideDone(groups[n - 1]) {
        var u :| u in groups[n - 1] && !u.inScope && u.completed && u.key == k;
      }
    }
  }

  /** What was added before and what is added now are added together. */
  lemma StillAdds<T>(first: seq<T>, before: seq<T>, now: seq<T>, next: seq<T>, after: seq<T>)
    requires now == first + before && |before| <= |next| && next[..|before|] == before
    requires after == now + next[|before|..]
    ensures after == first + next
  {
    assert next == before + next[|before|..];
  }

  ghost predicate AreJobs(jobs: seq<Job>, groups: seq<seq<Planned>>, world: World)
  {
    |jobs| == |groups| && forall g :: 0 <= g < |groups| ==> jobs[g] == JobOf(groups[g], g, world)
  }

  lemma FlowStep(jobs: seq<Job>, i: nat)
    requires i < |jobs| && FlowTo(jobs, i).halt == Ran
    ensures FlowTo(jobs, i + 1) == PlanNext(FlowTo(jobs, i), jobs, i)
  {
  }

  predicate Counted(t: Counts, skipped: nat, loaded: nat, failed: nat, abandoned: nat, rows: nat)
  {
    && t.skipped == skipped && t.loaded == loaded && t.failed == failed && t.abandoned == abandoned
    && t.rows == rows
  }

  lemma CompletesStep(outside: set<Key>, t: Counts, e: Entry)
    ensures outside + Count(t, e).done == outside + t.done + if Completes(e.fate) then {e.key} else {}
  {
  }

  /** The loop's variables are the flow's. */
  ghost predicate Matches(waiting: Option<(nat, seq<Key>)>, jobs: seq<Job>, f: Flow, ledger: seq<Entry>, scope: seq<Key>)
  {
    && f.halt == Ran && ledger == f.ledger && scope == f.scope
    && match waiting
       case None => f.waiting.None?
       case Some(w) => f.waiting == Some(w.0) && w.0 < |jobs| && w.1 == jobs[w.0].pending && w.1 != []
  }

  lemma {:induction false} FlowStopsAt(jobs: seq<Job>, i: nat, n: nat)
    requires i <= n <= |jobs| && FlowTo(jobs, i).halt != Ran
    ensures FlowTo(jobs, n) == FlowTo(jobs, i)
    decreases n
  {
    if i < n {
      FlowStopsAt(jobs, i, n - 1);
    }
  }

  lemma FlowStops(jobs: seq<Job>, i: nat)
    requires i <= |jobs| && FlowTo(jobs, i).halt != Ran
    ensures FlowEnd(jobs) == FlowTo(jobs, i)
  {
    FlowStopsAt(jobs, i, |jobs|);
  }
}
