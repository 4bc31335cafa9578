/** Compressing finished chunks without ever locking a pending unit out (compression_bound of
    services/backfill_feature_factory.py; compress_completed_chunks and the precheck of
    services/_batch_utils.py). Chunks are named by their start; a unit is its timeframe and range. */
module Compression {
  import opened Civil
  import opened RowCounts
  import opened DiskBudget

  datatype Unit = Unit(tf: Tf, range: Span)

  /** What a corpus run fixes: the planned units of every timeframe, the chunk interval, and the open
      chunk floor. */
  datatype Corpus = Corpus(units: seq<Unit>, interval: int, floor: Time)

  ghost predicate WellFormed(c: Corpus)
  {
    c.interval > 0 && EPOCH <= c.floor && forall u :: 0 <= u < |c.units| ==> EPOCH <= c.units[u].range.start
  }

  // ----- The bound -----------------------------------------------------------------------------------

  /** One unit as the planner sees it: where it starts, and whether it is completed. */
  datatype Known = Known(start: Time, completed: bool)

  /** The least of the floor and every pending unit's start. */
  ghost predicate IsBound(bound: Time, groups: seq<seq<Known>>, floor: Time)
  {
    && bound <= floor
    && (forall g, i {:trigger groups[g][i]} :: 0 <= g < |groups| && 0 <= i < |groups[g]| && !groups[g][i].completed
          ==> bound <= groups[g][i].start)
    && (bound == floor || Attained(bound, groups))
  }

  ghost predicate Attained(bound: Time, groups: seq<seq<Known>>)
  {
    exists g, i {:trigger groups[g][i]} :: 0 <= g < |groups| && 0 <= i < |groups[g]|
      && !groups[g][i].completed && groups[g][i].start == bound
  }

  /** compression_bound over the groups of the full scope. */
  method CompressionBound(groups: seq<seq<Known>>, floor: Time) returns (bound: Time)
    ensures IsBound(bound, groups, floor)
  {
    bound := floor;
    var g := 0;
    while g < |groups|
      invariant 0 <= g <= |groups|
      invariant IsBound(bound, groups[..g], floor)
    {
      bound := GroupBound(groups[g], bound, groups[..g], floor);
      assert groups[..g] + [groups[g]] == groups[..g + 1];
      g := g + 1;
    }
    assert groups[..g] == groups;
  }

  method GroupBound(units: seq<Known>, before: Time, ghost done: seq<seq<Known>>, floor: Time) returns (bound: Time)
    requires IsBound(before, done, floor)
    ensures IsBound(bound, done + [units], floor)
  {
    bound := before;
    var i := 0;
    while i < |units|
      invariant 0 <= i <= |units|
      invariant bound <= before && forall j :: 0 <= j < i && !units[j].completed ==> bound <= units[j].start
      invariant bound == before || exists j :: 0 <= j < i && !units[j].completed && units[j].start == bound
    {
      if !units[i].completed {
        bound := if units[i].start < bound then units[i].start else bound;
      }
      i := i + 1;
    }
    MoreGroups(before, bound, done, units, floor);
  }

  lemma MoreGroups(before: Time, bound: Time, done: seq<seq<Known>>, units: seq<Known>, floor: Time)
    requires IsBound(before, done, floor) && bound <= before
    requires forall j :: 0 <= j < |units| && !units[j].completed ==> bound <= units[j].start
    requires bound == before || exists j :: 0 <= j < |units| && !units[j].completed && units[j].start == bound
    ensures IsBound(bound, done + [units], floor)
  {
    var all := done + [units];
    assert all[|done|] == units;
    if bound == before {
      if before != floor {
        var g, i :| 0 <= g < |done| && 0 <= i < |done[g]| && !done[g][i].completed && done[g][i].start == before;
        assert all[g][i] == done[g][i];
      }
    } else {
      var j :| 0 <= j < |units| && !units[j].completed && units[j].start == bound;
      assert all[|done|][j] == units[j];
    }
  }

  /** The bound is the open chunk floor exactly when no pending unit starts before the floor; a stage in which
      no unit failed besides calls its compression "done" then. */
  lemma DoneIff(bound: Time, groups: seq<seq<Known>>, floor: Time)
    requires IsBound(bound, groups, floor)
    ensures bound == floor <==>
              forall g, i {:trigger groups[g][i]} ::
                (0 <= g < |groups| && 0 <= i < |groups[g]| && !groups[g][i].completed)
                ==> floor <= groups[g][i].start
  {
  }

  /** The least of the floor and every start of a unit not known to be completed. */
  function BoundTo(c: Corpus, n: nat, known: set<nat>): (bound: Time)
    requires n <= |c.units|
    ensures bound <= c.floor && forall u: nat :: u < n && u !in known ==> bound <= c.units[u].range.start
    ensures bound == c.floor || exists u: nat :: u < n && u !in known && c.units[u].range.start == bound
  {
    if n == 0 then c.floor
    else
      var rest := BoundTo(c, n - 1, known);
      if n - 1 in known || rest <= c.units[n - 1].range.start then rest else c.units[n - 1].range.start
  }

  function Bound(c: Corpus, known: set<nat>): (bound: Time)
    ensures bound <= c.floor && forall u: nat :: u < |c.units| && u !in known ==> bound <= c.units[u].range.start
    ensures bound == c.floor || exists u: nat :: u < |c.units| && u !in known && c.units[u].range.start == bound
  {
    BoundTo(c, |c.units|, known)
  }

  function AsKnown(c: Corpus, known: set<nat>, u: nat): Known
    requires u < |c.units|
  {
    Known(c.units[u].range.start, u in known)
  }

  ghost predicate Listed(groups: seq<seq<Known>>, k: Known)
  {
    exists g, i {:trigger groups[g][i]} :: 0 <= g < |groups| && 0 <= i < |groups[g]| && groups[g][i] == k
  }

  ghost predicate Planned(c: Corpus, known: set<nat>, k: Known)
  {
    exists u: nat :: u < |c.units| && AsKnown(c, known, u) == k
  }

  /** The groups list the planned units, each once or more, and nothing else. */
  ghost predicate Lists(groups: seq<seq<Known>>, c: Corpus, known: set<nat>)
  {
    && (forall g, i {:trigger groups[g][i]} :: 0 <= g < |groups| && 0 <= i < |groups[g]| ==>
          Planned(c, known, groups[g][i]))
    && (forall u: nat :: u < |c.units| ==> Listed(groups, AsKnown(c, known, u)))
  }

  /** What the loop returns is the bound of the planned units. */
  lemma LoopBoundIsBound(bound: Time, groups: seq<seq<Known>>, c: Corpus, known: set<nat>)
    requires IsBound(bound, groups, c.floor) && Lists(groups, c, known)
    ensures bound == Bound(c, known)
  {
    var b := Bound(c, known);
    if b != c.floor {
      var u: nat :| u < |c.units| && u !in known && c.units[u].range.start == b;
      assert Listed(groups, AsKnown(c, known, u));
      var g, i :| 0 <= g < |groups| && 0 <= i < |groups[g]| && groups[g][i] == AsKnown(c, known, u);
    }
    if bound != c.floor {
      var g, i :| 0 <= g < |groups| && 0 <= i < |groups[g]|
                  && !groups[g][i].completed && groups[g][i].start == bound;
      assert Planned(c, known, groups[g][i]);
      var u: nat :| u < |c.units| && AsKnown(c, known, u) == groups[g][i];
    }
  }

  /** Knowing more never pulls the bound back. */
  lemma BoundGrows(c: Corpus, known: set<nat>, more: set<nat>)
    requires known <= more
    ensures Bound(c, known) <= Bound(c, more)
  {
  }

  // ----- The run of stages ----------------------------------------------------------------------------------

  ghost predicate Aligned(chunks: set<Time>, interval: int)
    requires interval > 0
  {
    forall t :: t in chunks ==> t == ChunkFloor(t, interval)
  }

  predicate Overlaps(chunk: Time, interval: int, unit: Span)
  {
    chunk < unit.end && unit.start < chunk + interval
  }

  /** A chunk overlaps a unit exactly when some instant lies in both. */
  lemma OverlapsIff(chunk: Time, interval: int, unit: Span)
    requires interval > 0 && unit.start < unit.end
    ensures Overlaps(chunk, interval, unit) <==>
              exists t: Time :: Within(t, chunk, chunk + interval) && Within(t, unit.start, unit.end)
  {
    var t := if chunk < unit.start then unit.start else chunk;
    if Overlaps(chunk, interval, unit) {
      assert Within(t, chunk, chunk + interval) && Within(t, unit.start, unit.end);
    }
  }

  predicate Within(t: Time, from: Time, to: Time)
  {
    from <= t < to
  }

  /** The completed units (by their place in the plan), those the running stage knows to be, the
      table's chunks, and the frontier compression has come to. */
  datatype State = State(completed: set<nat>, known: set<nat>, chunks: set<Time>, compressed: set<Time>, frontier: Time)

  /** A stage reads completions, loads units, compresses chunk after chunk and comes to the end of its
      list. Failed, refused and killed loads change nothing here, and a stage may stop anywhere. */
  datatype Action =
    | Learn(seen: set<nat>)
    | Load(unit: nat, touched: set<Time>)
    | CompressNext(chunk: Time)
    | Finish

  /** The precheck's compression test for an append unit. */
  ghost predicate PrecheckPasses(s: State, interval: int, unit: Span)
  {
    forall t :: t in s.compressed ==> !Overlaps(t, interval, unit)
  }

  /** Every chunk that ends by the bound is compressed. */
  ghost predicate NoneLeft(s: State, interval: int, before: Time)
  {
    forall t :: t in s.chunks && t + interval <= before ==> t in s.compressed
  }

  /** A load is of a unit not completed, passes the precheck and writes into its own range. The listed
      chunks end by the bound of what is known to be completed and are compressed in time order. */
  ghost predicate Enabled(c: Corpus, s: State, a: Action)
    requires WellFormed(c)
  {
    match a
    case Learn(seen) => seen <= s.completed
    case Load(u, touched) =>
      && u < |c.units| && u !in s.completed && PrecheckPasses(s, c.interval, c.units[u].range)
      && Aligned(touched, c.interval) && forall t :: t in touched ==> Overlaps(t, c.interval, c.units[u].range)
    case CompressNext(t) =>
      && t in s.chunks && t !in s.compressed && t + c.interval <= Bound(c, s.known)
      && forall d :: d in s.chunks && d < t ==> d in s.compressed
    case Finish => NoneLeft(s, c.interval, Bound(c, s.known))
  }

  function Apply(c: Corpus, s: State, a: Action): State
    requires c.interval > 0
  {
    match a
    case Learn(seen) => s.(known := s.known + seen)
    case Load(u, touched) => s.(completed := s.completed + {u}, chunks := s.chunks + touched)
    case CompressNext(t) => s.(compressed := s.compressed + {t}, frontier := t + c.interval)
    case Finish => s.(frontier := ChunkFloor(Bound(c, s.known), c.interval))
  }

  ghost predicate NextAt(c: Corpus, states: seq<State>, actions: seq<Action>, i: nat)
    requires WellFormed(c) && i < |actions| && |states| == |actions| + 1
  {
    Enabled(c, states[i], actions[i]) && states[i + 1] == Apply(c, states[i], actions[i])
  }

  /** Nothing compressed yet; rows and completed units may be there from before. */
  ghost predicate Start(c: Corpus, s: State)
    requires WellFormed(c)
  {
    && s.known <= s.completed && s.compressed == {} && s.frontier == EPOCH
    && Aligned(s.chunks, c.interval) && forall t :: t in s.chunks ==> EPOCH <= t
  }

  ghost predicate Run(c: Corpus, states: seq<State>, actions: seq<Action>)
  {
    && WellFormed(c)
    && |states| == |actions| + 1 && Start(c, states[0])
    && forall i :: 0 <= i < |actions| ==> NextAt(c, states, actions, i)
  }

  // ----- What every step keeps --------------------------------------------------------------------------------

  /** The compressed chunks are exactly those before the frontier, and no unit that is not known to be
      completed starts before it. */
  ghost predicate Sound(c: Corpus, s: State)
    requires WellFormed(c)
  {
    && s.known <= s.completed && Aligned(s.chunks, c.interval)
    && s.frontier == ChunkFloor(s.frontier, c.interval) && EPOCH <= s.frontier <= c.floor
    && (forall t :: t in s.compressed <==> t in s.chunks && t < s.frontier)
    && (forall u: nat :: u < |c.units| && u !in s.known ==> s.frontier <= c.units[u].range.start)
  }

  /** Of two chunk starts, the one before the other's end is not after it. */
  lemma ChunksInSteps(t: Time, d: Time, interval: int)
    requires interval > 0 && t == ChunkFloor(t, interval) && d == ChunkFloor(d, interval)
    ensures d < t + interval <==> d <= t
  {
    ChunkEndsByIff(t, d, interval);
  }

  lemma NextChunkStart(t: Time, interval: int)
    requires interval > 0 && t == ChunkFloor(t, interval)
    ensures t + interval == ChunkFloor(t + interval, interval)
  {
    Scaling(t / interval, 0, interval);
    ChunkOfMultiple(t / interval + 1, interval);
  }

  lemma LoadKeepsSound(c: Corpus, s: State, u: nat, touched: set<Time>)
    requires WellFormed(c) && Sound(c, s) && Enabled(c, s, Load(u, touched))
    ensures Sound(c, Apply(c, s, Load(u, touched)))
  {
    forall t | t in touched
      ensures s.frontier <= t
    {
      assert Overlaps(t, c.interval, c.units[u].range);
      ChunksInSteps(t, s.frontier, c.interval);
    }
  }

  lemma CompressKeepsSound(c: Corpus, s: State, t: Time)
    requires WellFormed(c) && Sound(c, s) && Enabled(c, s, CompressNext(t))
    ensures Sound(c, Apply(c, s, CompressNext(t))) && s.frontier <= t
  {
    NextChunkStart(t, c.interval);
    forall d | d in s.chunks
      ensures d < t + c.interval <==> d <= t
    {
      ChunksInSteps(t, d, c.interval);
    }
  }

  /** What the frontier is behind: the bound, to the chunk. */
  lemma FrontierWithinBound(c: Corpus, s: State)
    requires WellFormed(c) && Sound(c, s)
    ensures s.frontier <= ChunkFloor(Bound(c, s.known), c.interval) <= Bound(c, s.known)
    ensures EPOCH <= ChunkFloor(Bound(c, s.known), c.interval)
  {
    ChunkFloorHolds(s.frontier, Bound(c, s.known), c.interval);
    ChunkFloorHolds(Bound(c, s.known), s.frontier, c.interval);
  }

  lemma FloorOfFloor(t: Time, interval: int)
    requires interval > 0
    ensures ChunkFloor(ChunkFloor(t, interval), interval) == ChunkFloor(t, interval)
  {
    ChunkOfMultiple(t / interval, interval);
  }

  lemma FinishKeepsSound(c: Corpus, s: State)
    requires WellFormed(c) && Sound(c, s) && Enabled(c, s, Finish)
    ensures Sound(c, Apply(c, s, Finish))
  {
    var bound := Bound(c, s.known);
    FrontierWithinBound(c, s);
    FloorOfFloor(bound, c.interval);
    forall t | t in s.chunks
      ensures t + c.interval <= bound <==> t < ChunkFloor(bound, c.interval)
    {
      ChunkEndsByIff(t, bound, c.interval);
    }
  }

  /** Every step keeps it, and the frontier never goes back. */
  lemma StepKeepsSound(c: Corpus, s: State, a: Action)
    requires WellFormed(c) && Sound(c, s) && Enabled(c, s, a)
    ensures Sound(c, Apply(c, s, a)) && s.frontier <= Apply(c, s, a).frontier
  {
    match a
    case Learn(seen) =>
    case Load(u, touched) => LoadKeepsSound(c, s, u, touched);
    case CompressNext(t) => CompressKeepsSound(c, s, t);
    case Finish =>
      FinishKeepsSound(c, s);
      FrontierWithinBound(c, s);
  }

  lemma {:induction false} RunKeepsSound(c: Corpus, states: seq<State>, actions: seq<Action>, i: nat)
    requires Run(c, states, actions) && i < |states|
    ensures Sound(c, states[i])
  {
    if i > 0 {
      RunKeepsSound(c, states, actions, i - 1);
      assert NextAt(c, states, actions, i - 1);
      StepKeepsSound(c, states[i - 1], actions[i - 1]);
    } else {
      FloorOfFloor(EPOCH, c.interval);
    }
  }

  /** What a state of a run holds is what the run did: the completed units are those it began with and those
      loaded since, the chunks those written since, the compressed ones those compressed since, and it knows
      only what some reading showed. */
  lemma {:induction false} RunRemembers(c: Corpus, states: seq<State>, actions: seq<Action>, n: nat)
    requires Run(c, states, actions) && n < |states|
    ensures forall u :: u in states[n].completed <==>
              u in states[0].completed || exists i :: 0 <= i < n && actions[i].Load? && actions[i].unit == u
    ensures forall t :: t in states[n].chunks <==>
              t in states[0].chunks || exists i :: 0 <= i < n && actions[i].Load? && t in actions[i].touched
    ensures forall t :: t in states[n].compressed <==>
              exists i :: 0 <= i < n && actions[i].CompressNext? && actions[i].chunk == t
    ensures forall u :: u in states[n].known <==>
              u in states[0].known || exists i :: 0 <= i < n && actions[i].Learn? && u in actions[i].seen
  {
    if n > 0 {
      RunRemembers(c, states, actions, n - 1);
      assert NextAt(c, states, actions, n - 1);
    }
  }

  /** No unit is loaded twice in a run, and none that was completed before. */
  lemma LoadedOnce(c: Corpus, states: seq<State>, actions: seq<Action>, i: nat, j: nat)
    requires Run(c, states, actions) && i < j < |actions| && actions[i].Load? && actions[j].Load?
    ensures actions[i].unit != actions[j].unit && actions[j].unit !in states[0].completed
  {
    RunRemembers(c, states, actions, j);
    assert NextAt(c, states, actions, j);
  }

  /** Compression never locks out work: after any sequence of stages, whatever failed, was refused or
      was killed, the precheck passes for every unit that is not completed. */
  lemma NoPendingUnitIsLockedOut(c: Corpus, states: seq<State>, actions: seq<Action>, i: nat, u: nat)
    requires Run(c, states, actions) && i < |states| && u < |c.units| && u !in states[i].completed
    ensures PrecheckPasses(states[i], c.interval, c.units[u].range)
  {
    var s := states[i];
    RunKeepsSound(c, states, actions, i);
    forall t | t in s.compressed
      ensures t + c.interval <= c.units[u].range.start
    {
      ChunksInSteps(t, s.frontier, c.interval);
    }
  }

  /** No bar of the horizon's own year is ever in a compressed chunk: it stays open for later writes. */
  lemma OpenChunkStaysOpen(c: Corpus, states: seq<State>, actions: seq<Action>, i: nat, t: Time)
    requires Run(c, states, actions) && i < |states| && t in states[i].compressed
    ensures t + c.interval <= c.floor
  {
    RunKeepsSound(c, states, actions, i);
    ChunksInSteps(t, states[i].frontier, c.interval);
  }

  // ----- What is compressed when a stage has ended ---------------------------------------------------------------

  lemma {:induction false} KnowledgeGrows(c: Corpus, states: seq<State>, actions: seq<Action>, i: nat, j: nat)
    requires Run(c, states, actions) && i <= j < |states|
    ensures states[i].known <= states[j].known && states[i].frontier <= states[j].frontier
    decreases j
  {
    if i < j {
      KnowledgeGrows(c, states, actions, i, j - 1);
      RunKeepsSound(c, states, actions, j - 1);
      assert NextAt(c, states, actions, j - 1);
      StepKeepsSound(c, states[j - 1], actions[j - 1]);
    }
  }

  /** Step j ended a stage's compression, and none has begun between it and state i. */
  ghost predicate LastFinish(states: seq<State>, actions: seq<Action>, j: nat, i: nat)
    requires |states| == |actions| + 1
  {
    && j < i < |states| && actions[j].Finish?
    && forall m :: j < m < i ==> actions[m].Learn? || actions[m].Load?
  }

  lemma {:induction false} FrontierStays(c: Corpus, states: seq<State>, actions: seq<Action>, j: nat, i: nat)
    requires Run(c, states, actions) && LastFinish(states, actions, j, i)
    ensures states[i].frontier == ChunkFloor(Bound(c, states[j].known), c.interval)
    decreases i
  {
    assert NextAt(c, states, actions, i - 1);
    if j < i - 1 {
      FrontierStays(c, states, actions, j, i - 1);
    }
  }

  /** A unit the plan does not hold, such as one renamed by a restated bar or a code change, is refused
      after a stage's end exactly when a chunk it overlaps ends by the bound compressed then, which is
      the largest bound of the run so far. */
  lemma RenamedUnitIsRefusedIff(c: Corpus, states: seq<State>, actions: seq<Action>, j: nat, i: nat, unit: Span)
    requires Run(c, states, actions) && LastFinish(states, actions, j, i)
    ensures !PrecheckPasses(states[i], c.interval, unit) <==>
              exists t :: t in states[i].chunks && Overlaps(t, c.interval, unit)
                          && t + c.interval <= Bound(c, states[j].known)
    ensures forall m :: 0 <= m <= j ==> Bound(c, states[m].known) <= Bound(c, states[j].known)
  {
    var s, bound := states[i], Bound(c, states[j].known);
    RunKeepsSound(c, states, actions, i);
    FrontierStays(c, states, actions, j, i);
    forall t | t in s.chunks
      ensures t in s.compressed <==> t + c.interval <= bound
    {
      ChunkEndsByIff(t, bound, c.interval);
    }
    if t :| t in s.chunks && Overlaps(t, c.interval, unit) && t + c.interval <= bound {
      assert t in s.compressed;
    }
    forall m: nat | m <= j
      ensures Bound(c, states[m].known) <= bound
    {
      KnowledgeGrows(c, states, actions, m, j);
      BoundGrows(c, states[m].known, states[j].known);
    }
  }

  /** The stage has compressed up to the bound of what it knows. */
  ghost predicate UpToBound(c: Corpus, s: State)
    requires c.interval > 0
  {
    s.frontier == ChunkFloor(Bound(c, s.known), c.interval)
  }

  /** Once every unit that starts before `next` is known to be completed, a stage that compressed up to
      its bound leaves the frontier at or past the chunk holding `next`, and no chunk that ends by
      `next` uncompressed. */
  lemma FrontierReaches(c: Corpus, s: State, next: Time)
    requires WellFormed(c) && Sound(c, s) && UpToBound(c, s) && next <= c.floor
    requires forall u: nat :: u < |c.units| && c.units[u].range.start < next ==> u in s.known
    ensures ChunkFloor(next, c.interval) <= s.frontier && NoneLeft(s, c.interval, next)
  {
    var bound := Bound(c, s.known);
    assert next <= bound;
    ChunkFloorHolds(next, bound, c.interval);
    forall t | t in s.chunks && t + c.interval <= next
      ensures t < s.frontier
    {
      ChunkEndsByIff(t, bound, c.interval);
    }
  }

  // ----- The table ------------------------------------------------------------------------------------------------

  /** What the catalog query returns: the uncompressed chunks that end by `before`, in time order. */
  ghost predicate IsListing(listed: seq<Time>, s: State, interval: int, before: Time)
  {
    && (forall i, j :: 0 <= i < j < |listed| ==> listed[i] < listed[j])
    && (forall t :: t in listed <==> t in s.chunks && t !in s.compressed && t + interval <= before)
  }

  lemma RunExtends(c: Corpus, states: seq<State>, actions: seq<Action>, a: Action)
    requires Run(c, states, actions) && Enabled(c, states[|actions|], a)
    ensures Run(c, states + [Apply(c, states[|actions|], a)], actions + [a])
  {
    var longer, acts := states + [Apply(c, states[|actions|], a)], actions + [a];
    forall i: nat | i < |acts|
      ensures NextAt(c, longer, acts, i)
    {
      if i < |actions| {
        assert NextAt(c, states, actions, i);
      }
    }
  }

  /** The hypertable while the stages of a run work on it; the ghost fields are the run so far. */
  class FeatureTable {
    ghost const corpus: Corpus
    const interval: int
    const floor: Time
    var chunks: set<Time>
    var compressed: set<Time>
    ghost var states: seq<State>
    ghost var actions: seq<Action>

    ghost predicate Valid()
      reads this
    {
      && corpus.interval == interval && corpus.floor == floor
      && Run(corpus, states, actions)
      && Now().chunks == chunks && Now().compressed == compressed
    }

    ghost function Now(): State
      reads this
      requires states != []
    {
      states[|states| - 1]
    }

    constructor (ghost corpus: Corpus, interval: int, floor: Time, chunks: set<Time>, ghost completed: set<nat>)
      requires WellFormed(corpus) && corpus.interval == interval && corpus.floor == floor
      requires Aligned(chunks, interval) && forall t :: t in chunks ==> EPOCH <= t
      ensures Valid() && this.corpus == corpus && this.chunks == chunks && compressed == {}
      ensures Now() == State(completed, {}, chunks, {}, EPOCH)
    {
      this.corpus, this.interval, this.floor := corpus, interval, floor;
      this.chunks, compressed := chunks, {};
      states, actions := [State(completed, {}, chunks, {}, EPOCH)], [];
    }

    /** One more step of the run, for a table that has just taken it. */
    ghost method Record(a: Action)
      requires Run(corpus, states, actions) && corpus.interval == interval && corpus.floor == floor
      requires Enabled(corpus, Now(), a)
      requires chunks == Apply(corpus, Now(), a).chunks && compressed == Apply(corpus, Now(), a).compressed
      modifies this`states, this`actions
      ensures Valid() && actions == old(actions) + [a] && states == old(states) + [Apply(corpus, old(Now()), a)]
    {
      RunExtends(corpus, states, actions, a);
      states, actions := states + [Apply(corpus, Now(), a)], actions + [a];
    }

    /** compress_completed_chunks: one chunk at a time, each committed. */
    method CompressCompleted(before: Time, listed: seq<Time>) returns (count: nat)
      requires Valid() && before == Bound(corpus, Now().known) && IsListing(listed, Now(), interval, before)
      modifies this`compressed, this`states, this`actions
      ensures Valid() && count == |listed|
      ensures compressed == old(compressed) + set t | t in chunks && t + interval <= before
      ensures Now() == old(Now()).(compressed := compressed, frontier := ChunkFloor(before, interval))
    {
      var i := 0;
      while i < |listed|
        invariant 0 <= i <= |listed| && Valid()
        invariant compressed == old(compressed) + set t | t in listed[..i]
        invariant Now() == old(Now()).(compressed := compressed, frontier := Now().frontier)
      {
        NextIsLeast(old(Now()), listed, interval, before, i);
        compressed := compressed + {listed[i]};
        Record(CompressNext(listed[i]));
        i := i + 1;
      }
      assert listed[..i] == listed;
      Record(Finish);
      count := |listed|;
    }

    /** The end of a stage: the bound over the groups of the full scope, then the compression. The catalog
        is asked once the bound is known. */
    method EndStage(groups: seq<seq<Known>>, catalog: Time -> seq<Time>) returns (bound: Time, count: nat)
      requires Valid() && Lists(groups, corpus, Now().known)
      requires forall before :: IsListing(catalog(before), Now(), interval, before)
      modifies this`compressed, this`states, this`actions
      ensures Valid() && bound == Bound(corpus, Now().known)
      ensures Now() == old(Now()).(compressed := compressed, frontier := Now().frontier)
      ensures UpToBound(corpus, Now()) && NoneLeft(Now(), interval, bound)
    {
      bound := CompressionBound(groups, floor);
      LoopBoundIsBound(bound, groups, corpus, Now().known);
      count := CompressCompleted(bound, catalog(bound));
    }
  }

  /** Before the i-th listed chunk there is none left to compress. */
  lemma NextIsLeast(s: State, listed: seq<Time>, interval: int, before: Time, i: nat)
    requires IsListing(listed, s, interval, before) && i < |listed|
    ensures listed[i] in s.chunks && listed[i] !in s.compressed && listed[i] + interval <= before
    ensures listed[i] !in listed[..i]
    ensures forall d :: d in s.chunks && d < listed[i] ==> d in s.compressed || d in listed[..i]
  {
    assert listed[i] in listed;
    forall d | d in s.chunks && d < listed[i] && d !in s.compressed
      ensures d in listed[..i]
    {
      assert d in listed;
      var j :| 0 <= j < |listed| && listed[j] == d;
      assert listed[..i][j] == d;
    }
  }
}
