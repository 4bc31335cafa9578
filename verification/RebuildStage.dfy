/** One rebuild stage: groups are planned one ahead of the group being loaded, and the summary accounts
    for every unit (run_rebuild_stage and _write_group of services/backfill_feature_factory.py). What
    the database, the workers and the disk guard answer is a parameter. */
module RebuildStage {
  import opened Prelude

  type Key = string

  /** A unit as planned: its batch key, whether its provenance row is completed, and whether the stage's
      span and chunks execute it. */
  datatype Planned = Planned(key: Key, completed: bool, inScope: bool)

  /** What happens when a pending unit's turn comes, in the order _write_group checks. */
  datatype Outcome =
    | TooManyRows
    | GuardRefuses
    | LoadFails
    | AlreadyCompleted
    | RowsDiffer
    | Loads(rows: nat)

  datatype Fate = Skipped | Loaded(rows: nat) | Failed | Abandoned

  datatype Entry = Entry(key: Key, fate: Fate)

  /** How loading ends: all units had their turn, the disk guard refused one, or an error left the
      stage. */
  datatype Halt = Ran | Refused | Raised

  /** The world's answers: which groups lose a worker, and each unit's outcome. */
  datatype World = World(workersFail: nat -> bool, outcome: Key -> Outcome)

  // ----- One group, as values ------------------------------------------------------------------------

  function PendingOf(group: seq<Planned>): (pending: seq<Key>)
  {
    if group == [] then []
    else
      var u := group[|group| - 1];
      PendingOf(group[..|group| - 1]) + if u.inScope && !u.completed then [u.key] else []
  }

  function ScopeOf(group: seq<Planned>): (scope: seq<Key>)
  {
    if group == [] then []
    else
      var u := group[|group| - 1];
      ScopeOf(group[..|group| - 1]) + if u.inScope then [u.key] else []
  }

  /** Units found completed are skipped at once. */
  function PlanEntries(group: seq<Planned>): (entries: seq<Entry>)
  {
    if group == [] then []
    else
      var u := group[|group| - 1];
      PlanEntries(group[..|group| - 1]) + if u.inScope && u.completed then [Entry(u.key, Skipped)] else []
  }

  function AllWith(keys: seq<Key>, fate: Fate): (entries: seq<Entry>)
    ensures |entries| == |keys| && forall i :: 0 <= i < |keys| ==> entries[i] == Entry(keys[i], fate)
  {
    seq(|keys|, i requires 0 <= i < |keys| => Entry(keys[i], fate))
  }

  /** The fates of pending units from position `at` on, and how the group ends. */
  function LoadFrom(pending: seq<Key>, at: nat, outcome: Key -> Outcome): (r: (seq<Entry>, Halt))
    requires at <= |pending|
    ensures r.1 != Raised ==> |r.0| == |pending| - at
    decreases |pending| - at
  {
    if at == |pending| then ([], Ran)
    else
      var k := pending[at];
      if outcome(k).TooManyRows? || outcome(k).RowsDiffer? then ([], Raised)
      else if outcome(k).GuardRefuses? then
        ([Entry(k, Failed)] + AllWith(pending[at + 1..], Abandoned), Refused)
      else
        var rest := LoadFrom(pending, at + 1, outcome);
        ([Entry(k, FateOf(outcome(k)))] + rest.0, rest.1)
  }

  /** A unit whose outcome lets the group go on. */
  function FateOf(outcome: Outcome): Fate
    requires outcome.LoadFails? || outcome.AlreadyCompleted? || outcome.Loads?
  {
    match outcome
    case LoadFails => Failed
    case AlreadyCompleted => Skipped
    case Loads(n) => Loaded(n)
  }

  /** A group's loads: a lost worker fails every pending unit, since a unit needs all its symbols. */
  function LoadGroup(group: seq<Planned>, g: nat, world: World): (r: (seq<Entry>, Halt))
    ensures r.1 != Raised ==> |r.0| == |PendingOf(group)|
  {
    var pending := PendingOf(group);
    if pending == [] then ([], Ran)
    else if world.workersFail(g) then (AllWith(pending, Failed), Ran)
    else LoadFrom(pending, 0, world.outcome)
  }

  // ----- Counting entries ---------------------------------------------------------------------------------

  datatype Counts = Counts(skipped: nat, loaded: nat, failed: nat, abandoned: nat, rows: nat, done: set<Key>)

  predicate Completes(fate: Fate)
  {
    fate.Skipped? || fate.Loaded?
  }

  function Count(c: Counts, e: Entry): Counts
  {
    match e.fate
    case Skipped => c.(skipped := c.skipped + 1, done := c.done + {e.key})
    case Loaded(n) => c.(loaded := c.loaded + 1, rows := c.rows + n, done := c.done + {e.key})
    case Failed => c.(failed := c.failed + 1)
    case Abandoned => c.(abandoned := c.abandoned + 1)
  }

  /** The counters of a list of fates. */
  function Tally(entries: seq<Entry>): Counts
  {
    if entries == [] then Counts(0, 0, 0, 0, 0, {})
    else Count(Tally(entries[..|entries| - 1]), entries[|entries| - 1])
  }

  function KeysOf(entries: seq<Entry>): (keys: seq<Key>)
    ensures |keys| == |entries| && forall i :: 0 <= i < |entries| ==> keys[i] == entries[i].key
  {
    seq(|entries|, i requires 0 <= i < |entries| => entries[i].key)
  }

  lemma TallyStep(entries: seq<Entry>, e: Entry)
    ensures Tally(entries + [e]) == Count(Tally(entries), e)
  {
    assert (entries + [e])[..|entries|] == entries;
  }

  function RowsOf(fate: Fate): nat
  {
    if fate.Loaded? then fate.rows else 0
  }

  /** The rows of the loaded units. */
  function LoadedRows(entries: seq<Entry>): nat
  {
    if entries == [] then 0 else RowsOf(entries[0].fate) + LoadedRows(entries[1..])
  }

  lemma {:induction false} OneMoreLoad(entries: seq<Entry>, e: Entry)
    ensures LoadedRows(entries + [e]) == LoadedRows(entries) + RowsOf(e.fate)
  {
    if entries != [] {
      OneMoreLoad(entries[1..], e);
      assert (entries + [e])[1..] == entries[1..] + [e];
    }
  }

  /** The same kind of fate, whatever the rows. */
  predicate Alike(a: Fate, b: Fate)
  {
    (a.Skipped? && b.Skipped?) || (a.Loaded? && b.Loaded?) || (a.Failed? && b.Failed?) || (a.Abandoned? && b.Abandoned?)
  }

  ghost function Places(entries: seq<Entry>, fate: Fate): set<nat>
  {
    set i: nat | i < |entries| && Alike(entries[i].fate, fate)
  }

  lemma OneMorePlace(entries: seq<Entry>, e: Entry, fate: Fate)
    ensures |Places(entries + [e], fate)| == |Places(entries, fate)| + if Alike(e.fate, fate) then 1 else 0
  {
    assert Places(entries + [e], fate) == Places(entries, fate) + if Alike(e.fate, fate) then {|entries|} else {};
  }

  /** The counters are how often each kind of fate occurs. */
  ghost predicate Numbers(entries: seq<Entry>, t: Counts)
  {
    && t.skipped == |Places(entries, Skipped)| && t.loaded == |Places(entries, Loaded(0))|
    && t.failed == |Places(entries, Failed)| && t.abandoned == |Places(entries, Abandoned)|
  }

  /** Every entry is counted by the counter of its own kind, the rows are those of the loaded units, and
      exactly the completing entries mark their key. */
  lemma {:induction false} TallyAddsUp(entries: seq<Entry>)
    ensures var t := Tally(entries); |entries| == t.skipped + t.loaded + t.failed + t.abandoned
    ensures Numbers(entries, Tally(entries)) && Tally(entries).rows == LoadedRows(entries)
    ensures forall k :: k in Tally(entries).done <==>
              exists i :: 0 <= i < |entries| && entries[i].key == k && Completes(entries[i].fate)
  {
    if entries != [] {
      var before, last := entries[..|entries| - 1], entries[|entries| - 1];
      assert entries == before + [last];
      TallyAddsUp(before);
      OneMoreLoad(before, last);
      OneMorePlace(before, last, Skipped);
      OneMorePlace(before, last, Loaded(0));
      OneMorePlace(before, last, Failed);
      OneMorePlace(before, last, Abandoned);
      forall k | k in Tally(entries).done
        ensures exists i :: 0 <= i < |entries| && entries[i].key == k && Completes(entries[i].fate)
      {
        if k in Tally(before).done {
          var i :| 0 <= i < |before| && before[i].key == k && Completes(before[i].fate);
          assert entries[i] == before[i];
        }
      }
    }
  }

  lemma {:induction false} AbandonsMany(entries: seq<Entry>, keys: seq<Key>)
    ensures Tally(entries + AllWith(keys, Abandoned)) ==
            Tally(entries).(abandoned := Tally(entries).abandoned + |keys|)
    decreases |keys|
  {
    if keys == [] {
      assert entries + AllWith(keys, Abandoned) == entries;
    } else {
      var last := |keys| - 1;
      AbandonsMany(entries, keys[..last]);
      assert entries + AllWith(keys, Abandoned) ==
             (entries + AllWith(keys[..last], Abandoned)) + [Entry(keys[last], Abandoned)];
      TallyStep(entries + AllWith(keys[..last], Abandoned), Entry(keys[last], Abandoned));
    }
  }

  function GroupLoads(pending: seq<Key>, lostWorker: bool, outcome: Key -> Outcome): (r: (seq<Entry>, Halt))
  {
    if lostWorker then (AllWith(pending, Failed), Ran) else LoadFrom(pending, 0, outcome)
  }

  lemma PlanStep(group: seq<Planned>, i: nat)
    requires i < |group|
    ensures var u, next, now := group[i], group[..i + 1], group[..i];
            && PendingOf(next) == PendingOf(now) + (if u.inScope && !u.completed then [u.key] else [])
            && ScopeOf(next) == ScopeOf(now) + (if u.inScope then [u.key] else [])
            && PlanEntries(next) == PlanEntries(now) + (if u.inScope && u.completed then [Entry(u.key, Skipped)] else [])
            && OutsideDone(next) == OutsideDone(now) + (if !u.inScope && u.completed then {u.key} else {})
  {
    assert group[..i + 1][..i] == group[..i];
  }

  lemma Regroup(before: seq<Entry>, e: Entry, rest: seq<Entry>)
    ensures before + ([e] + rest) == (before + [e]) + rest
  {
  }

  function OutsideDone(group: seq<Planned>): set<Key>
  {
    set u | u in group && !u.inScope && u.completed :: u.key
  }

  // ----- Sets of fates and keys ------------------------------------------------------------------------------

  function Keys(keys: seq<Key>): set<Key>
  {
    set k | k in keys
  }

  function EntryKeys(entries: seq<Entry>): set<Key>
  {
    set e | e in entries :: e.key
  }

  lemma EntryKeysAdd(a: seq<Entry>, b: seq<Entry>)
    ensures EntryKeys(a + b) == EntryKeys(a) + EntryKeys(b)
  {
  }

  lemma KeysAdd(a: seq<Key>, b: seq<Key>)
    ensures Keys(a + b) == Keys(a) + Keys(b)
  {
  }

  lemma OneEntry(e: Entry)
    ensures EntryKeys([e]) == {e.key} && Keys([e.key]) == {e.key}
  {
    assert e in [e];
  }

  /** Every key of the scope has its fate or waits for it, and there are as many fates and waiting keys as
      keys. */
  ghost predicate Decided(scope: seq<Key>, ledger: seq<Entry>, waiting: seq<Key>)
  {
    Keys(scope) == EntryKeys(ledger) + Keys(waiting) && |scope| == |ledger| + |waiting|
  }

  /** A planned group's scope is what it skips and what it leaves pending. */
  lemma {:induction false} GroupKeys(group: seq<Planned>)
    ensures Decided(ScopeOf(group), PlanEntries(group), PendingOf(group))
  {
    if group != [] {
      var before, u := group[..|group| - 1], group[|group| - 1];
      GroupKeys(before);
      OneEntry(Entry(u.key, Skipped));
      KeysAdd(ScopeOf(before), [u.key]);
      KeysAdd(PendingOf(before), [u.key]);
      EntryKeysAdd(PlanEntries(before), [Entry(u.key, Skipped)]);
      assert ScopeOf(before) + [] == ScopeOf(before) && PendingOf(before) + [] == PendingOf(before);
      assert PlanEntries(before) + [] == PlanEntries(before);
    }
  }

  lemma {:induction false} PlanEntriesSkip(group: seq<Planned>)
    ensures forall e :: e in PlanEntries(group) ==> e.fate.Skipped?
  {
    if group != [] {
      PlanEntriesSkip(group[..|group| - 1]);
    }
  }

  lemma {:induction false} LoadFromKeys(pending: seq<Key>, at: nat, outcome: Key -> Outcome)
    requires at <= |pending| && LoadFrom(pending, at, outcome).1 != Raised
    ensures EntryKeys(LoadFrom(pending, at, outcome).0) == Keys(pending[at..])
    decreases |pending| - at
  {
    if at < |pending| {
      var k, o := pending[at], outcome(pending[at]);
      assert pending[at..] == [k] + pending[at + 1..];
      KeysAdd([k], pending[at + 1..]);
      if o.GuardRefuses? {
        AllWithKeys(pending[at + 1..], Abandoned);
        EntryKeysAdd([Entry(k, Failed)], AllWith(pending[at + 1..], Abandoned));
        OneEntry(Entry(k, Failed));
      } else {
        LoadFromKeys(pending, at + 1, outcome);
        EntryKeysAdd([Entry(k, FateOf(o))], LoadFrom(pending, at + 1, outcome).0);
        OneEntry(Entry(k, FateOf(o)));
      }
    }
  }

  lemma AllWithKeys(keys: seq<Key>, fate: Fate)
    ensures EntryKeys(AllWith(keys, fate)) == Keys(keys)
  {
    forall k | k in keys
      ensures k in EntryKeys(AllWith(keys, fate))
    {
      var i :| 0 <= i < |keys| && keys[i] == k;
      assert AllWith(keys, fate)[i] == Entry(k, fate);
    }
  }

  lemma LoadGroupKeys(group: seq<Planned>, g: nat, world: World)
    requires LoadGroup(group, g, world).1 != Raised
    ensures EntryKeys(LoadGroup(group, g, world).0) == Keys(PendingOf(group))
    ensures |LoadGroup(group, g, world).0| == |PendingOf(group)|
  {
    if PendingOf(group) != [] {
      AllWithKeys(PendingOf(group), Failed);
      if !world.workersFail(g) {
        LoadFromKeys(PendingOf(group), 0, world.outcome);
      }
    }
  }

  // ----- A group's job ---------------------------------------------------------------------------------------

  /** What planning and loading one group gives: the units waiting, those skipped, its scope, and how its load
      would go. */
  datatype Job = Job(pending: seq<Key>, skips: seq<Entry>, scope: seq<Key>, loads: seq<Entry>, halt: Halt)

  function JobOf(group: seq<Planned>, g: nat, world: World): Job
  {
    Job(PendingOf(group), PlanEntries(group), ScopeOf(group), LoadGroup(group, g, world).0, LoadGroup(group, g, world).1)
  }

  function JobsOf(groups: seq<seq<Planned>>, world: World): (jobs: seq<Job>)
    ensures |jobs| == |groups| && forall g :: 0 <= g < |groups| ==> jobs[g] == JobOf(groups[g], g, world)
  {
    seq(|groups|, g requires 0 <= g < |groups| => JobOf(groups[g], g, world))
  }

  ghost predicate AllSkipped(entries: seq<Entry>)
  {
    forall e :: e in entries ==> e.fate.Skipped?
  }

  /** A job without a pending unit loads nothing, and planning only skips. */
  ghost predicate Shaped(jobs: seq<Job>)
  {
    && (forall g :: 0 <= g < |jobs| && jobs[g].pending == [] ==> jobs[g].loads == [] && jobs[g].halt == Ran)
    && forall g :: 0 <= g < |jobs| ==> AllSkipped(jobs[g].skips)
  }

  /** The scope is what is skipped and what waits, and a load that returns gives each waiting unit a fate. */
  ghost predicate DecidesAll(j: Job)
  {
    && Decided(j.scope, j.skips, j.pending)
    && (j.halt != Raised ==> EntryKeys(j.loads) == Keys(j.pending) && |j.loads| == |j.pending|)
  }

  ghost predicate Fits(jobs: seq<Job>)
  {
    Shaped(jobs) && forall g :: 0 <= g < |jobs| ==> DecidesAll(jobs[g])
  }

  lemma JobFits(group: seq<Planned>, g: nat, world: World)
    ensures DecidesAll(JobOf(group, g, world)) && AllSkipped(PlanEntries(group))
  {
    GroupKeys(group);
    PlanEntriesSkip(group);
    if LoadGroup(group, g, world).1 != Raised {
      LoadGroupKeys(group, g, world);
    }
  }

  lemma JobsFit(groups: seq<seq<Planned>>, world: World)
    ensures Fits(JobsOf(groups, world))
  {
    forall g | 0 <= g < |groups|
      ensures DecidesAll(JobOf(groups[g], g, world)) && AllSkipped(PlanEntries(groups[g]))
    {
      JobFits(groups[g], g, world);
    }
  }

  // ----- What the fates mean ---------------------------------------------------------------------------------

  predicate Halts(outcome: Outcome)
  {
    outcome.TooManyRows? || outcome.GuardRefuses? || outcome.RowsDiffer?
  }

  /** What the world decides of a unit: skipped when found completed, or when its own load finds it so; loaded
      with exactly the rows its load wrote; failed when its group loses a worker, its load fails or the disk
      guard refuses it. An abandoned unit was not tried. */
  predicate FateIs(u: Planned, g: nat, world: World, fate: Fate)
  {
    match fate
    case Skipped => u.completed || (!world.workersFail(g) && world.outcome(u.key).AlreadyCompleted?)
    case Loaded(n) => !u.completed && !world.workersFail(g) && world.outcome(u.key) == Loads(n)
    case Failed =>
      !u.completed && (world.workersFail(g) || world.outcome(u.key).LoadFails? || world.outcome(u.key).GuardRefuses?)
    case Abandoned => !u.completed
  }

  /** The fate of some unit of the group's scope, as the world decides it. */
  ghost predicate Decreed(group: seq<Planned>, g: nat, world: World, e: Entry)
  {
    exists u :: u in group && u.inScope && u.key == e.key && FateIs(u, g, world, e.fate)
  }

  lemma {:induction false} LoadFromDecides(pending: seq<Key>, at: nat, world: World, e: Entry)
    requires at <= |pending| && LoadFrom(pending, at, world.outcome).1 != Raised
    requires e in LoadFrom(pending, at, world.outcome).0
    ensures e.key in pending
    ensures match e.fate
            case Skipped => world.outcome(e.key).AlreadyCompleted?
            case Loaded(n) => world.outcome(e.key) == Loads(n)
            case Failed => world.outcome(e.key).LoadFails? || world.outcome(e.key).GuardRefuses?
            case Abandoned => LoadFrom(pending, at, world.outcome).1 == Refused
    decreases |pending| - at
  {
    var k := pending[at];
    if world.outcome(k).GuardRefuses? {
      assert e == Entry(k, Failed) || e in AllWith(pending[at + 1..], Abandoned);
    } else if e != Entry(k, FateOf(world.outcome(k))) {
      LoadFromDecides(pending, at + 1, world, e);
    }
  }

  /** Every fate of a group is decreed, and a unit is abandoned only by a refusal. */
  lemma GroupDecrees(group: seq<Planned>, g: nat, world: World, e: Entry)
    requires LoadGroup(group, g, world).1 != Raised
    requires e in PlanEntries(group) || e in LoadGroup(group, g, world).0
    ensures Decreed(group, g, world, e)
    ensures e.fate.Abandoned? ==> LoadGroup(group, g, world).1 == Refused
  {
    var pending := PendingOf(group);
    if e in PlanEntries(group) {
      PlanEntriesIff(group, e);
    } else {
      if world.workersFail(g) {
        AllWithIff(pending, Failed, e);
      } else {
        LoadFromDecides(pending, 0, world, e);
      }
      PendingIff(group, e.key);
    }
  }

  /** The fate of a unit that was tried, constructor by constructor. */
  ghost predicate Tried(fate: Fate, outcome: Outcome)
  {
    && (fate.Failed? <==> outcome.LoadFails?)
    && (fate.Skipped? <==> outcome.AlreadyCompleted?)
    && forall n :: fate == Loaded(n) <==> outcome == Loads(n)
  }

  /** Unit i of a group whose units before m were tried and whose unit m was refused. */
  ghost predicate InOrder(e: Entry, pending: seq<Key>, i: nat, m: nat, outcome: Key -> Outcome)
    requires i < |pending|
  {
    && e.key == pending[i]
    && (i < m ==> Tried(e.fate, outcome(pending[i])))
    && (i == m ==> e.fate.Failed?)
    && (i > m ==> e.fate.Abandoned?)
  }

  /** A group in its order, when its workers do not fail it. One that runs gives each pending unit its own
      outcome's fate. One that is refused does so up to the refused unit, which fails; every unit after it is
      abandoned. */
  lemma {:induction false} LoadsInOrder(pending: seq<Key>, at: nat, outcome: Key -> Outcome) returns (m: nat)
    requires at <= |pending| && LoadFrom(pending, at, outcome).1 != Raised
    ensures var r := LoadFrom(pending, at, outcome);
            && at <= m <= |pending| && |r.0| == |pending| - at
            && (r.1 == Ran <==> m == |pending|)
            && (m < |pending| ==> outcome(pending[m]).GuardRefuses?)
            && forall j :: 0 <= j < |r.0| ==> InOrder(r.0[j], pending, at + j, m, outcome)
    decreases |pending| - at
  {
    if at == |pending| || outcome(pending[at]).GuardRefuses? {
      m := at;
    } else {
      m := LoadsInOrder(pending, at + 1, outcome);
      var r, rest := LoadFrom(pending, at, outcome).0, LoadFrom(pending, at + 1, outcome).0;
      forall j | 0 <= j < |r|
        ensures InOrder(r[j], pending, at + j, m, outcome)
      {
        if j > 0 {
          assert InOrder(rest[j - 1], pending, at + 1 + (j - 1), m, outcome);
        }
      }
    }
  }

  /** What becomes of a pending unit of group g, when nothing stops the stage. */
  function PendingFate(key: Key, g: nat, world: World): Fate
  {
    if world.workersFail(g) || Halts(world.outcome(key)) then Failed else FateOf(world.outcome(key))
  }

  /** A decreed fate of a unit that was tried or found completed. */
  ghost predicate FromGroup(group: seq<Planned>, g: nat, world: World, e: Entry)
  {
    Decreed(group, g, world, e) && !e.fate.Abandoned?
  }

  lemma {:induction false} PendingIff(group: seq<Planned>, k: Key)
    ensures k in PendingOf(group) <==> exists u :: u in group && u.inScope && !u.completed && u.key == k
  {
    if group != [] {
      var before, last := group[..|group| - 1], group[|group| - 1];
      PendingIff(before, k);
      assert group == before + [last];
    }
  }

  lemma {:induction false} PlanEntriesIff(group: seq<Planned>, e: Entry)
    ensures e in PlanEntries(group) <==> e.fate.Skipped? && exists u :: u in group && u.inScope && u.completed && u.key == e.key
  {
    if group != [] {
      var before, last := group[..|group| - 1], group[|group| - 1];
      PlanEntriesIff(before, e);
      assert group == before + [last];
    }
  }

  /** A group loaded to its end gives every pending unit its own outcome's fate. */
  lemma {:induction false} LoadFromIff(pending: seq<Key>, at: nat, g: nat, world: World, e: Entry)
    requires at <= |pending| && LoadFrom(pending, at, world.outcome).1 == Ran && !world.workersFail(g)
    ensures forall i :: at <= i < |pending| ==> !Halts(world.outcome(pending[i]))
    ensures e in LoadFrom(pending, at, world.outcome).0 <==> e.key in pending[at..] && e.fate == PendingFate(e.key, g, world)
    decreases |pending| - at
  {
    if at < |pending| {
      LoadFromIff(pending, at + 1, g, world, e);
      assert pending[at..] == [pending[at]] + pending[at + 1..];
    }
  }

  lemma AllWithIff(keys: seq<Key>, fate: Fate, e: Entry)
    ensures e in AllWith(keys, fate) <==> e.key in keys && e.fate == fate
  {
    if e.key in keys && e.fate == fate {
      var i :| 0 <= i < |keys| && keys[i] == e.key;
      assert AllWith(keys, fate)[i] == e;
    }
  }

  lemma LoadGroupIff(group: seq<Planned>, g: nat, world: World, e: Entry)
    requires LoadGroup(group, g, world).1 == Ran
    ensures e in LoadGroup(group, g, world).0 <==> e.key in PendingOf(group) && e.fate == PendingFate(e.key, g, world)
  {
    var pending := PendingOf(group);
    if pending != [] {
      if world.workersFail(g) {
        AllWithIff(pending, Failed, e);
      } else {
        LoadFromIff(pending, 0, g, world, e);
        assert pending[0..] == pending;
      }
    }
  }

  lemma GroupFates(group: seq<Planned>, g: nat, world: World, e: Entry)
    requires LoadGroup(group, g, world).1 == Ran
    ensures e in PlanEntries(group) || e in LoadGroup(group, g, world).0 <==> FromGroup(group, g, world, e)
  {
    if e in PlanEntries(group) || e in LoadGroup(group, g, world).0 {
      GroupDecrees(group, g, world, e);
    }
    if FromGroup(group, g, world, e) {
      var u :| u in group && u.inScope && u.key == e.key && FateIs(u, g, world, e.fate);
      PlanEntriesIff(group, e);
      PendingIff(group, e.key);
      LoadGroupIff(group, g, world, e);
      if !u.completed && !world.workersFail(g) {
        NoneHalts(group, g, world, e.key);
      }
    }
  }

  lemma NoneHalts(group: seq<Planned>, g: nat, world: World, k: Key)
    requires LoadGroup(group, g, world).1 == Ran && !world.workersFail(g) && k in PendingOf(group)
    ensures !Halts(world.outcome(k))
  {
    LoadFromIff(PendingOf(group), 0, g, world, Entry(k, Failed));
  }

  // ----- What the counters mean ------------------------------------------------------------------------------------

  predicate Distinct(keys: seq<Key>)
  {
    forall i, j :: 0 <= i < j < |keys| ==> keys[i] != keys[j]
  }

  lemma {:induction false} KeysSize(keys: seq<Key>)
    ensures |Keys(keys)| <= |keys|
    ensures Distinct(keys) ==> |Keys(keys)| == |keys|
  {
    if keys != [] {
      var rest := keys[..|keys| - 1];
      KeysSize(rest);
      assert Keys(keys) == Keys(rest) + {keys[|keys| - 1]};
    }
  }

  lemma RepeatsShrink(keys: seq<Key>, i: nat, j: nat)
    requires i < j < |keys| && keys[i] == keys[j]
    ensures |Keys(keys)| < |keys|
  {
    var rest := keys[..j] + keys[j + 1..];
    KeysSize(rest);
    forall k | k in keys
      ensures k in rest
    {
      var m :| 0 <= m < |keys| && keys[m] == k;
      if m == j {
        assert rest[i] == k;
      } else {
        assert rest[if m < j then m else m - 1] == k;
      }
    }
    assert Keys(keys) == Keys(rest);
  }

  /** The stage's accounting: the units of the scope are those skipped, loaded, failed and abandoned, and
      each has a fate. */
  lemma StageAddsUp(scope: seq<Key>, ledger: seq<Entry>)
    requires Decided(scope, ledger, [])
    ensures var t := Tally(ledger); |scope| == t.skipped + t.loaded + t.failed + t.abandoned
    ensures forall k :: k in scope ==> exists i :: 0 <= i < |ledger| && ledger[i].key == k
  {
    TallyAddsUp(ledger);
    EachHasAFate(scope, ledger);
  }

  /** With distinct batch keys no unit has two fates, and a unit of the scope ends in the completed set
      exactly when it was skipped or loaded. */
  lemma CompletedIff(scope: seq<Key>, ledger: seq<Entry>, outside: set<Key>, i: nat)
    requires Decided(scope, ledger, []) && Distinct(scope) && i < |ledger| && ledger[i].key !in outside
    ensures ledger[i].key in outside + Tally(ledger).done <==> Completes(ledger[i].fate)
    ensures forall j :: 0 <= j < |ledger| && ledger[j].key == ledger[i].key ==> j == i
  {
    TallyAddsUp(ledger);
    FatesDistinct(scope, ledger);
    forall j | 0 <= j < |ledger| && ledger[j].key == ledger[i].key
      ensures j == i
    {
      assert KeysOf(ledger)[i] == KeysOf(ledger)[j];
    }
  }

  /** In a stage where nothing failed and nothing was abandoned, every unit of the scope is in the completed
      set. */
  lemma CleanStageCompletesItsScope(scope: seq<Key>, ledger: seq<Entry>)
    requires Decided(scope, ledger, []) && Tally(ledger).failed == 0 && Tally(ledger).abandoned == 0
    ensures forall k :: k in scope ==> k in Tally(ledger).done
  {
    TallyAddsUp(ledger);
    EachHasAFate(scope, ledger);
    forall i: nat | i < |ledger|
      ensures Completes(ledger[i].fate)
    {
      assert i !in Places(ledger, Failed) && i !in Places(ledger, Abandoned);
    }
  }

  lemma EachHasAFate(scope: seq<Key>, ledger: seq<Entry>)
    requires Decided(scope, ledger, [])
    ensures forall k :: k in scope ==> exists i :: 0 <= i < |ledger| && ledger[i].key == k
  {
    forall k | k in scope
      ensures exists i :: 0 <= i < |ledger| && ledger[i].key == k
    {
      assert k in Keys(scope);
      var e :| e in ledger && e.key == k;
      var i :| 0 <= i < |ledger| && ledger[i] == e;
    }
  }

  lemma FatesDistinct(scope: seq<Key>, ledger: seq<Entry>)
    requires Decided(scope, ledger, []) && Distinct(scope)
    ensures Distinct(KeysOf(ledger))
  {
    KeysSize(scope);
    assert Keys(KeysOf(ledger)) == EntryKeys(ledger) by {
      forall e | e in ledger
        ensures e.key in KeysOf(ledger)
      {
        var i :| 0 <= i < |ledger| && ledger[i] == e;
        assert KeysOf(ledger)[i] == e.key;
      }
    }
    forall i, j | 0 <= i < j < |ledger|
      ensures KeysOf(ledger)[i] != KeysOf(ledger)[j]
    {
      if KeysOf(ledger)[i] == KeysOf(ledger)[j] {
        RepeatsShrink(KeysOf(ledger), i, j);
      }
    }
  }
}
