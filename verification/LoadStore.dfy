/** bulk_load as the code runs it (services/_batch_utils.py): the database tables it updates, one
    method per committed step, and the whole call made of them. Each method is proved to be a step
    of LoadProtocol, so everything LoadSafety proves of runs holds of these tables. */
module LoadStore {
  import opened Prelude
  import opened BatchIdentity
  import opened LoadStream
  import opened LoadProtocol
  import opened LoadInvariant
  import opened LoadSafety

  /** What the provenance transaction decided. */
  datatype Opening = Skip(rowCount: nat) | Begin(generation: nat)

  datatype DataOutcome = Done(rowCount: nat, replaced: nat) | Failure(error: string)

  datatype LoadResult =
    | Invalid
    | Loaded(rowCount: nat, rowsReplaced: nat)
    | Unacknowledged
    | Skipped(rowCount: nat)
    | Busy
    | Refused
    | Failing(error: string)

  /** What the call meets and cannot see coming: a precheck refusal, an error out of the row
      iterator or the server after the tuples, a failure mark that does not commit, and a data
      commit whose acknowledgement is lost (the error handler's mark then fails too: the guard
      refuses to fail a completed row). */
  datatype Environment = Environment(precheckRefuses: bool, breaks: Option<string>, markLost: bool, ackLost: bool)

  function IndexOf(columns: seq<string>, name: string): (i: nat)
    requires name in columns
    ensures i < |columns| && columns[i] == name && name !in columns[..i]
  {
    if columns[0] == name then 0 else 1 + IndexOf(columns[1..], name)
  }

  /** How a call reads its tuples: the time is where the spec's time column first stands. */
  function FormatOf(spec: Spec, columns: seq<string>, realPositions: set<nat>, preclamped: bool): (f: Format)
    requires spec.timeColumn in columns
    ensures f.width == |columns| && f.timeIdx < f.width && columns[f.timeIdx] == spec.timeColumn
  {
    Format(|columns|, IndexOf(columns, spec.timeColumn), realPositions, preclamped)
  }

  /** The table rows a stream of full-width tuples becomes. */
  function TableRows(columns: seq<string>, f: Format, tuples: seq<Tuple>): (rows: seq<Row>)
    requires Distinct(columns)
    ensures |rows| == |tuples|
  {
    seq(|tuples|, i requires 0 <= i < |tuples| =>
      if |tuples[i]| == |columns| then ToRow(columns, Stored(f, tuples[i])) else map[])
  }

  /** A clean stream becomes one row for each tuple, each column holding the tuple's value, clamped
      where the column is real. */
  lemma CleanStreamRows(spec: Spec, columns: seq<string>, f: Format, tuples: seq<Tuple>, i: nat, c: nat)
    requires Distinct(columns) && f.width == |columns| && Clean(spec, f, tuples)
    requires i < |tuples| && c < |columns|
    ensures |tuples[i]| == |columns|
    ensures columns[c] in TableRows(columns, f, tuples)[i]
    ensures TableRows(columns, f, tuples)[i][columns[c]] ==
            if c in f.realPositions && !f.preclamped then Clamp(tuples[i][c]) else tuples[i][c]
  {
    assert FaultAt(spec, f, tuples, i) == None;
    assert ToRow(columns, Stored(f, tuples[i]))[columns[c]] == Stored(f, tuples[i])[c];
  }

  /** COPY into the kept rows: the staged rows by key, or None at the first duplicate key. */
  method StageRows(w: World, table: string, kept: Table, batch: seq<Row>) returns (staged: Option<Table>)
    ensures staged.Some? <==> KeysDistinct(w, table, batch) && Keyed(w, table, batch).Keys !! kept.Keys
    ensures staged.Some? ==> staged.value == Keyed(w, table, batch)
  {
    var mine: Table := map[];
    var i := 0;
    assert batch[..0] == [];
    while i < |batch|
      invariant 0 <= i <= |batch|
      invariant KeysDistinct(w, table, batch[..i])
      invariant mine == Keyed(w, table, batch[..i])
      invariant mine.Keys !! kept.Keys
    {
      var k := KeyOf(w, table, batch[i]);
      assert batch[..i + 1][..i] == batch[..i];
      if k in mine {
        KeyedComesFrom(w, table, batch[..i], k);
        ghost var j :| 0 <= j < i && KeyOf(w, table, batch[..i][j]) == k;
        assert KeyOf(w, table, batch[j]) == KeyOf(w, table, batch[i]);
        return None;
      }
      if k in kept {
        if KeysDistinct(w, table, batch) {
          KeyedFinds(w, table, batch, i);
        }
        return None;
      }
      forall j | 0 <= j < i
        ensures KeyOf(w, table, batch[j]) != k
      {
        KeyedFinds(w, table, batch[..i], j);
      }
      mine := mine[k := batch[i]];
      i := i + 1;
    }
    assert batch[..i] == batch;
    return Some(mine);
  }

  ghost function LastBatch(prov: Provenance, key: BatchKey): BatchId
  {
    BatchId(key, Latest(prov, key))
  }

  /** The row a load starts from, field by field: started under its own run and without an error; one attempt
      more than a row taken over, the first of a new generation. */
  ghost predicate RestartedFor(prov: Provenance, next: Provenance, me: BatchId, runId: Option<string>)
  {
    && me in next && next[me].status == Started && next[me].error.None? && next[me].runId == runId
    && (if me in prov then
          && prov[me].status in {Started, Failed}
          && next[me].rowCount == prov[me].rowCount && next[me].attempts == prov[me].attempts + 1
        else
          && next[me].rowCount.None? && next[me].attempts == 1
          && me.generation == Latest(prov, me.key) + 1
          && (Latest(prov, me.key) > 0 ==> prov[LastBatch(prov, me.key)].status == Superseded))
  }

  ghost predicate AttemptCounted(prov: Provenance, next: Provenance, me: BatchId)
  {
    me in next && next[me].attempts == if me in prov then prov[me].attempts + 1 else 1
  }

  /** No other row has changed, come or gone. */
  ghost predicate OthersKept(prov: Provenance, next: Provenance, me: BatchId)
  {
    forall id :: id != me ==> (id in next <==> id in prov) && (id in prov ==> next[id] == prov[id])
  }

  /** The same, but for the completed rows of a replaced unit, which are superseded. */
  ghost predicate OthersSuperseded(prov: Provenance, next: Provenance, me: BatchId, spec: Spec)
  {
    forall id :: id != me ==>
      && (id in next <==> id in prov)
      && (id in prov ==>
            if spec.replaceWhere.Some? && id.key.unit == UnitOf(spec) && prov[id].status == Completed
            then next[id] == prov[id].(status := Superseded)
            else next[id] == prov[id])
  }

  /** The row of a load that is done. */
  ghost predicate CompletedFor(prov: Provenance, me: BatchId, rowCount: nat, runId: Option<string>)
  {
    && me in prov && prov[me].status == Completed && prov[me].rowCount == Some(rowCount) && prov[me].error.None?
    && prov[me].runId == runId
  }

  /** What a done load has made of the provenance table it found. */
  ghost predicate LoadDone(prov: Provenance, next: Provenance, me: BatchId, spec: Spec, rowCount: nat)
  {
    && CompletedFor(next, me, rowCount, spec.runId) && AttemptCounted(prov, next, me)
    && OthersSuperseded(prov, next, me, spec)
  }

  /** What a load that is not done has: its row failed with the error, or started. */
  ghost predicate LoadLeft(prov: Provenance, next: Provenance, me: BatchId, spec: Spec, error: Option<string>)
  {
    && AttemptCounted(prov, next, me) && OthersKept(prov, next, me)
    && next[me].status == (if error.Some? then Failed else Started)
    && next[me].error == error && next[me].runId == spec.runId
  }

  lemma FlipCompletes(prov: Provenance, me: BatchId, spec: Spec, rowCount: nat)
    requires StartedFor(prov, me, spec.runId)
    ensures var next := Flipped(UnitOf(spec), prov, me, rowCount);
            && CompletedFor(next, me, rowCount, spec.runId) && next[me].attempts == prov[me].attempts
            && OthersSuperseded(prov, next, me, spec) && next.Keys == prov.Keys
  {
  }

  lemma OpenedThenDone(was: Provenance, begun: Provenance, prov: Provenance, me: BatchId, spec: Spec, rowCount: nat)
    requires RestartedFor(was, begun, me, spec.runId) && OthersKept(was, begun, me)
    requires CompletedFor(prov, me, rowCount, spec.runId) && OthersSuperseded(begun, prov, me, spec)
    requires prov[me].attempts == begun[me].attempts
    ensures LoadDone(was, prov, me, spec, rowCount)
  {
  }

  lemma OpenedThenLeft(was: Provenance, begun: Provenance, prov: Provenance, me: BatchId, spec: Spec,
                       error: Option<string>)
    requires RestartedFor(was, begun, me, spec.runId) && OthersKept(was, begun, me)
    requires prov == if error.Some? then begun[me := begun[me].(status := Failed, error := error)] else begun
    ensures LoadLeft(was, prov, me, spec, error)
  {
  }

  /** The last generation is told by the keys alone. */
  lemma LatestIs(prov: Provenance, keys: set<BatchId>, key: BatchKey, g: nat)
    requires prov.Keys == keys && g > 0 && BatchId(key, g) in keys
    requires forall id :: id in keys && id.key == key ==> id.generation <= g
    ensures Latest(prov, key) == g
  {
    var m := Latest(prov, key);
    assert BatchId(key, m) in prov;
  }

  lemma RunExtends(w: World, states: seq<State>, actions: seq<Action>, a: Action, t: State)
    requires Run(w, states, actions) && Next(w, states[|actions|], a, t)
    ensures Run(w, states + [t], actions + [a])
  {
    var longer, acts := states + [t], actions + [a];
    forall i: nat | i < |acts|
      ensures NextAt(w, longer, acts, i)
    {
      if i < |actions| {
        assert NextAt(w, states, actions, i);
      }
    }
  }

  lemma CompletedIsCounted(w: World, states: seq<State>, actions: seq<Action>, id: BatchId)
    requires Run(w, states, actions) && IsCompleted(states[|actions|].prov, id)
    ensures states[|actions|].prov[id].rowCount.Some?
  {
    RunKeepsInv(w, states, actions, |actions|);
  }

  lemma OpenRowIsStarted(w: World, states: seq<State>, actions: seq<Action>, sid: SessionId, id: BatchId)
    requires Run(w, states, actions) && sid in states[|actions|].sessions
    requires states[|actions|].sessions[sid].Opened? || states[|actions|].sessions[sid].RolledBack?
    requires id == IdOf(states[|actions|].sessions[sid])
    ensures StartedFor(states[|actions|].prov, id, states[|actions|].sessions[sid].spec.runId)
  {
    RunKeepsInv(w, states, actions, |actions|);
  }

  lemma CommittedBatch(w: World, states: seq<State>, actions: seq<Action>, sid: SessionId, spec: Spec, g: nat,
                       batch: seq<Row>)
    requires Run(w, states, actions) && sid in states[|actions|].sessions
    requires states[|actions|].sessions[sid] == Opened(spec, g)
    requires Accepts(w, spec, states[|actions|].rows, batch)
    ensures Next(w, states[|actions|], Commit(sid, batch),
                 CommitStep(w, states[|actions|], sid, spec, g, batch))
    ensures HoldsBatch(CommitStep(w, states[|actions|], sid, spec, g, batch), BatchId(Key(spec), g),
                       Keyed(w, spec.target, batch))
  {
    var s := states[|actions|];
    RunKeepsInv(w, states, actions, |actions|);
    OpenRowIsStarted(w, states, actions, sid, BatchId(Key(spec), g));
    var t := CommitStep(w, s, sid, spec, g, batch);
    var same, me, mine, gone := CommitsAreCommitted(w, s, Commit(sid, batch), t);
    CommittedBatchIsHeld(s, t, me, mine, gone);
  }

  /** The tables of a deployment and the advisory locks its sessions hold. The ghost state is the
      run so far: every method extends it by the step it takes. */
  class Database {
    const w: World
    var prov: Provenance
    var rows: Table
    var locks: map<BatchKey, SessionId>
    ghost var sessions: map<SessionId, Phase>
    ghost var owner: map<RowKey, BatchId>
    ghost var streamed: map<BatchId, Table>
    ghost var states: seq<State>
    ghost var actions: seq<Action>

    ghost function Value(): State
      reads this
    {
      State(prov, rows, locks, sessions, owner, streamed)
    }

    /** The database is where its run has led it. */
    ghost predicate Valid()
      reads this
    {
      Run(w, states, actions) && Value() == states[|actions|]
    }

    constructor (w: World)
      ensures this.w == w && Valid() && Value() == Initial && actions == []
    {
      this.w := w;
      prov, rows, locks := map[], map[], map[];
      sessions, owner, streamed := map[], map[], map[];
      states, actions := [Initial], [];
    }

    /** One more step of the run, for a database whose tables have just taken it. */
    ghost method Record(a: Action)
      requires Run(w, states, actions) && Next(w, states[|actions|], a, Value())
      modifies this`states, this`actions
      ensures Valid() && actions == old(actions) + [a] && states == old(states) + [Value()]
    {
      RunExtends(w, states, actions, a, Value());
      states, actions := states + [Value()], actions + [a];
    }

    /** pg_try_advisory_lock on the batch key. */
    method TryLock(sid: SessionId, spec: Spec) returns (locked: bool)
      requires Valid() && sid !in sessions && spec in w.specs
      modifies this`locks, this`sessions, this`states, this`actions
      ensures Valid() && actions == old(actions) + [LoadProtocol.TryLock(sid, spec)]
      ensures locked <==> Key(spec) !in old(locks)
      ensures locked ==> locks == old(locks)[Key(spec) := sid]
      ensures locked ==> sessions == old(sessions)[sid := Locked(spec)]
      ensures !locked ==> Value() == old(Value())
    {
      locked := Key(spec) !in locks;
      if locked {
        locks := locks[Key(spec) := sid];
        sessions := sessions[sid := Locked(spec)];
      }
      Record(LoadProtocol.TryLock(sid, spec));
    }

    /** `ORDER BY generation DESC LIMIT 1`, 0 for a key without a row. */
    method LastGeneration(key: BatchKey) returns (g: nat)
      ensures g == Latest(prov, key)
    {
      var left := Generations(prov, key);
      ghost var all := left;
      g := 0;
      while left != {}
        invariant left <= all
        invariant forall x :: x in all && x !in left ==> x <= g
        invariant g == 0 || g in all
        decreases left
      {
        var x :| x in left;
        if x > g {
          g := x;
        }
        left := left - {x};
      }
      assert forall id :: id in prov && id.key == key ==> id.generation in all;
      ghost var m := Latest(prov, key);
      if m > 0 {
        assert BatchId(key, m) in prov && m in all;
      }
      if g > 0 {
        ghost var id :| id in prov && id.key == key && id.generation == g;
      }
    }

    /** Skip a completed identity, insert the next generation, or take the row over. */
    method OpenProvenance(sid: SessionId, spec: Spec) returns (r: Opening)
      requires Valid() && sid in sessions && sessions[sid] == Locked(spec)
      modifies this`prov, this`sessions, this`states, this`actions
      ensures Valid() && actions == old(actions) + [Open(sid)]
      ensures r.Skip? <==> IsCompleted(old(prov), LastBatch(old(prov), Key(spec)))
      ensures r.Skip? ==>
                && sessions == old(sessions)[sid := Closing(spec)] && prov == old(prov)
                && prov[LastBatch(prov, Key(spec))].rowCount == Some(r.rowCount)
      ensures r.Begin? ==>
                && sessions == old(sessions)[sid := Opened(spec, r.generation)]
                && r.generation > 0 && BatchId(Key(spec), r.generation) in prov
                && (forall id :: id in prov && id.key == Key(spec) ==> id.generation <= r.generation)
                && OthersKept(old(prov), prov, BatchId(Key(spec), r.generation))
                && RestartedFor(old(prov), prov, BatchId(Key(spec), r.generation), spec.runId)
    {
      var g := LastGeneration(Key(spec));
      var last := BatchId(Key(spec), g);
      if last !in prov || prov[last].status == Superseded {
        prov := prov[BatchId(Key(spec), g + 1) := Batch(Started, None, 1, None, spec.runId)];
        sessions := sessions[sid := Opened(spec, g + 1)];
        r := Begin(g + 1);
      } else if prov[last].status == Completed {
        CompletedIsCounted(w, states, actions, last);
        r := Skip(prov[last].rowCount.value);
        sessions := sessions[sid := Closing(spec)];
      } else {
        RowIsGenerated(w, states, actions, last);
        prov := prov[last := TakenOver(prov[last], spec)];
        sessions := sessions[sid := Opened(spec, g)];
        r := Begin(g);
      }
      Record(Open(sid));
    }

    /** The commit: the DELETE, the supersede flip, the rows and the completion land together. */
    method CommitData(sid: SessionId, spec: Spec, generation: nat, staged: Table, ghost batch: seq<Row>)
        returns (replaced: nat)
      requires Valid() && sid in sessions && sessions[sid] == Opened(spec, generation)
      requires Accepts(w, spec, rows, batch)
      requires staged == Keyed(w, spec.target, batch) && |staged| == |batch|
      modifies this`prov, this`rows, this`owner, this`streamed, this`sessions, this`states, this`actions
      ensures Valid() && actions == old(actions) + [Commit(sid, batch)]
      ensures rows == (old(rows) - Deleted(spec, old(rows))) + staged
      ensures HoldsBatch(Value(), BatchId(Key(spec), generation), staged)
      ensures sessions == old(sessions)[sid := Closing(spec)] && prov.Keys == old(prov).Keys
      ensures CompletedFor(prov, BatchId(Key(spec), generation), |batch|, spec.runId)
      ensures BatchId(Key(spec), generation) in old(prov)
      ensures prov[BatchId(Key(spec), generation)].attempts == old(prov)[BatchId(Key(spec), generation)].attempts
      ensures OthersSuperseded(old(prov), prov, BatchId(Key(spec), generation), spec)
      ensures replaced == |Deleted(spec, old(rows))|
    {
      CommittedBatch(w, states, actions, sid, spec, generation, batch);
      OpenRowIsStarted(w, states, actions, sid, BatchId(Key(spec), generation));
      ghost var after := CommitStep(w, Value(), sid, spec, generation, batch);
      var me := BatchId(Key(spec), generation);
      var gone := Deleted(spec, rows);
      FlipCompletes(prov, me, spec, |staged|);
      prov := Flipped(UnitOf(spec), prov, me, |staged|);
      rows := (rows - gone) + staged;
      owner := (owner - gone) + (map k | k in staged :: me);
      streamed := streamed[me := staged];
      sessions := sessions[sid := Closing(spec)];
      replaced := |gone|;
      assert Value() == after;
      Record(Commit(sid, batch));
    }

    /** The rollback: nothing of the transaction stays. */
    method RollBack(sid: SessionId, spec: Spec, generation: nat, error: string)
      requires Valid() && sid in sessions && sessions[sid] == Opened(spec, generation)
      modifies this`sessions, this`states, this`actions
      ensures Valid() && actions == old(actions) + [Abort(sid, error)]
      ensures sessions == old(sessions)[sid := RolledBack(spec, generation, error)]
    {
      sessions := sessions[sid := RolledBack(spec, generation, error)];
      Record(Abort(sid, error));
    }

    /** The data transaction: the stream is checked and copied into what the DELETE leaves; it is
        committed exactly when the stream is clean, the iterator and the server do not break, and
        no primary key is taken. */
    method DataTransaction(sid: SessionId, spec: Spec, generation: nat, columns: seq<string>, f: Format,
                           tuples: seq<Tuple>, breaks: Option<string>) returns (r: DataOutcome)
      requires Valid() && sid in sessions && sessions[sid] == Opened(spec, generation)
      requires Distinct(columns) && f.width == |columns| && f.timeIdx < f.width
      modifies this`prov, this`rows, this`owner, this`streamed, this`sessions, this`states, this`actions
      ensures Valid() && prov.Keys == old(prov).Keys
      ensures r.Done? <==>
                && Clean(spec, f, tuples) && breaks.None?
                && Accepts(w, spec, old(rows), TableRows(columns, f, tuples))
      ensures r.Done? ==>
                && actions == old(actions) + [Commit(sid, TableRows(columns, f, tuples))]
                && r.rowCount == |tuples| && r.replaced == |Deleted(spec, old(rows))|
                && rows == (old(rows) - Deleted(spec, old(rows))) + Keyed(w, spec.target, TableRows(columns, f, tuples))
                && HoldsBatch(Value(), BatchId(Key(spec), generation),
                              Keyed(w, spec.target, TableRows(columns, f, tuples)))
                && CompletedFor(prov, BatchId(Key(spec), generation), |tuples|, spec.runId)
                && OthersSuperseded(old(prov), prov, BatchId(Key(spec), generation), spec)
                && BatchId(Key(spec), generation) in old(prov)
                && prov[BatchId(Key(spec), generation)].attempts == old(prov)[BatchId(Key(spec), generation)].attempts
                && sessions == old(sessions)[sid := Closing(spec)]
      ensures r.Failure? ==>
                && actions == old(actions) + [Abort(sid, r.error)]
                && sessions == old(sessions)[sid := RolledBack(spec, generation, r.error)]
                && prov == old(prov) && rows == old(rows)
    {
      var copied := CopyRows(spec, f, tuples);
      if copied.Rejected? {
        RollBack(sid, spec, generation, "row");
        return Failure("row");
      }
      if breaks.Some? {
        RollBack(sid, spec, generation, breaks.value);
        return Failure(breaks.value);
      }
      ghost var batch := TableRows(columns, f, tuples);
      var staged := StageRows(w, spec.target, rows - Deleted(spec, rows), TableRows(columns, f, tuples));
      if staged.None? {
        RollBack(sid, spec, generation, "duplicate key");
        return Failure("duplicate key");
      }
      KeyedCount(w, spec.target, batch);
      var replaced := CommitData(sid, spec, generation, staged.value, batch);
      return Done(|copied.rows|, replaced);
    }

    /** The failure recorded in its own commit; a failure of the mark itself is only logged. */
    method MarkFailed(sid: SessionId, spec: Spec, generation: nat, error: string, lost: bool)
      requires Valid() && sid in sessions && sessions[sid] == RolledBack(spec, generation, error)
      modifies this`prov, this`sessions, this`states, this`actions
      ensures Valid()
      ensures actions == old(actions) + [if lost then MarkLost(sid) else LoadProtocol.MarkFailed(sid)]
      ensures sessions == old(sessions)[sid := Closing(spec)]
      ensures var me := BatchId(Key(spec), generation);
              && me in old(prov) && old(prov)[me].status == Started
              && prov == if lost then old(prov)
                         else old(prov)[me := old(prov)[me].(status := Failed, error := Some(error))]
    {
      var me := BatchId(Key(spec), generation);
      OpenRowIsStarted(w, states, actions, sid, me);
      if !lost {
        prov := prov[me := prov[me].(status := Failed, error := Some(error))];
      }
      sessions := sessions[sid := Closing(spec)];
      Record(if lost then MarkLost(sid) else LoadProtocol.MarkFailed(sid));
    }

    /** A precheck refusal: no error handler is in force yet, so the row stays started. */
    method RefuseLoad(sid: SessionId, spec: Spec, generation: nat)
      requires Valid() && sid in sessions && sessions[sid] == Opened(spec, generation)
      modifies this`sessions, this`states, this`actions
      ensures Valid() && actions == old(actions) + [Refuse(sid)]
      ensures sessions == old(sessions)[sid := Closing(spec)]
      ensures BatchId(Key(spec), generation) in prov && prov[BatchId(Key(spec), generation)].status == Started
    {
      OpenRowIsStarted(w, states, actions, sid, BatchId(Key(spec), generation));
      sessions := sessions[sid := Closing(spec)];
      Record(Refuse(sid));
    }

    /** The unlock in bulk_load's `finally`. */
    method Unlock(sid: SessionId, spec: Spec)
      requires Valid() && sid in sessions && sessions[sid] == Closing(spec)
      modifies this`locks, this`sessions, this`states, this`actions
      ensures Valid() && actions == old(actions) + [LoadProtocol.Unlock(sid)]
      ensures sessions == old(sessions) - {sid} && locks == old(locks) - {Key(spec)}
    {
      locks := locks - {Key(spec)};
      sessions := sessions - {sid};
      Record(LoadProtocol.Unlock(sid));
    }

    /** From an open provenance row to the end: precheck, data transaction, failure mark. */
    method LoadOpened(sid: SessionId, spec: Spec, generation: nat, columns: seq<string>, f: Format,
                      tuples: seq<Tuple>, env: Environment) returns (r: LoadResult)
      requires Valid() && sid in sessions && sessions[sid] == Opened(spec, generation)
      requires Distinct(columns) && f.width == |columns| && f.timeIdx < f.width
      modifies this`prov, this`rows, this`owner, this`streamed, this`sessions, this`states, this`actions
      ensures Valid() && sessions == old(sessions)[sid := Closing(spec)]
      ensures prov.Keys == old(prov).Keys && !r.Invalid? && !r.Busy? && !r.Skipped?
      ensures r.Refused? <==> env.precheckRefuses
      ensures r.Loaded? || r.Unacknowledged? <==>
                && !env.precheckRefuses && Clean(spec, f, tuples) && env.breaks.None?
                && Accepts(w, spec, old(rows), TableRows(columns, f, tuples))
      ensures r.Loaded? ==> !env.ackLost && r.rowCount == |tuples| && r.rowsReplaced == |Deleted(spec, old(rows))|
      ensures r.Unacknowledged? ==> env.ackLost
      ensures r.Loaded? || r.Unacknowledged? ==>
                && rows == (old(rows) - Deleted(spec, old(rows))) + Keyed(w, spec.target, TableRows(columns, f, tuples))
                && HoldsBatch(Value(), BatchId(Key(spec), generation),
                              Keyed(w, spec.target, TableRows(columns, f, tuples)))
                && CompletedFor(prov, BatchId(Key(spec), generation), |tuples|, spec.runId)
                && OthersSuperseded(old(prov), prov, BatchId(Key(spec), generation), spec)
                && BatchId(Key(spec), generation) in old(prov)
                && prov[BatchId(Key(spec), generation)].attempts == old(prov)[BatchId(Key(spec), generation)].attempts
      ensures r.Refused? ==> prov == old(prov)
      ensures r.Failing? ==>
                var me := BatchId(Key(spec), generation);
                && me in old(prov)
                && prov == if env.markLost then old(prov)
                           else old(prov)[me := old(prov)[me].(status := Failed, error := Some(r.error))]
      ensures r.Refused? || r.Failing? ==>
                && rows == old(rows)
                && BatchId(Key(spec), generation) in prov
                && prov[BatchId(Key(spec), generation)].status ==
                     if r.Failing? && !env.markLost then Failed else Started
    {
      if env.precheckRefuses {
        RefuseLoad(sid, spec, generation);
        return Refused;
      }
      var outcome := DataTransaction(sid, spec, generation, columns, f, tuples, env.breaks);
      match outcome
      case Done(rowCount, replaced) =>
        r := if env.ackLost then Unacknowledged else Loaded(rowCount, replaced);
      case Failure(error) =>
        MarkFailed(sid, spec, generation, error, env.markLost);
        r := Failing(error);
    }

    /** One call by one session that is not killed, whatever the environment does to it. */
    method BulkLoad(sid: SessionId, spec: Spec, columns: seq<string>, realPositions: set<nat>, preclamped: bool,
                    tuples: seq<Tuple>, env: Environment) returns (r: LoadResult)
      requires Valid() && sid !in sessions && spec in w.specs && Distinct(columns)
      modifies this`prov, this`rows, this`locks, this`owner, this`streamed, this`sessions, this`states, this`actions
      ensures Valid() && sid !in sessions && (Key(spec) in old(locks) <==> Key(spec) in locks)
      ensures r.Invalid? <==> spec.timeColumn !in columns
      ensures r.Busy? <==> !r.Invalid? && Key(spec) in old(locks)
      ensures r.Invalid? || r.Busy? ==> Value() == old(Value())
      ensures r.Skipped? <==> !r.Invalid? && !r.Busy? && IsCompleted(old(prov), LastBatch(old(prov), Key(spec)))
      ensures r.Refused? <==> !r.Invalid? && !r.Busy? && !r.Skipped? && env.precheckRefuses
      ensures r.Loaded? || r.Unacknowledged? <==>
                && !r.Invalid? && !r.Busy? && !r.Skipped? && !env.precheckRefuses && env.breaks.None?
                && var f := FormatOf(spec, columns, realPositions, preclamped);
                   Clean(spec, f, tuples) && Accepts(w, spec, old(rows), TableRows(columns, f, tuples))
      ensures r.Skipped? ==>
                && prov == old(prov) && rows == old(rows)
                && IsCompleted(prov, LastBatch(prov, Key(spec)))
                && prov[LastBatch(prov, Key(spec))].rowCount == Some(r.rowCount)
      ensures r.Loaded? ==> !env.ackLost && r.rowCount == |tuples| && r.rowsReplaced == |Deleted(spec, old(rows))|
      ensures r.Unacknowledged? ==> env.ackLost
      ensures r.Loaded? || r.Unacknowledged? ==>
                var mine := Keyed(w, spec.target,
                                  TableRows(columns, FormatOf(spec, columns, realPositions, preclamped), tuples));
                && rows == (old(rows) - Deleted(spec, old(rows))) + mine
                && HoldsBatch(Value(), LastBatch(prov, Key(spec)), mine)
                && LoadDone(old(prov), prov, LastBatch(prov, Key(spec)), spec, |tuples|)
      ensures r.Refused? || r.Failing? ==>
                && rows == old(rows)
                && LoadLeft(old(prov), prov, LastBatch(prov, Key(spec)), spec,
                            if r.Failing? && !env.markLost then Some(r.error) else None)
    {
      if spec.timeColumn !in columns {
        return Invalid;
      }
      var f := FormatOf(spec, columns, realPositions, preclamped);
      var locked := TryLock(sid, spec);
      if !locked {
        return Busy;
      }
      var opening := OpenProvenance(sid, spec);
      match opening {
        case Skip(rowCount) =>
          r := Skipped(rowCount);
        case Begin(generation) =>
          ghost var was, begun, me := old(prov), prov, BatchId(Key(spec), generation);
          r := LoadOpened(sid, spec, generation, columns, f, tuples, env);
          LatestIs(prov, begun.Keys, Key(spec), generation);
          if r.Loaded? || r.Unacknowledged? {
            OpenedThenDone(was, begun, prov, me, spec, |tuples|);
          } else {
            OpenedThenLeft(was, begun, prov, me, spec, if r.Failing? && !env.markLost then Some(r.error) else None);
          }
      }
      Unlock(sid, spec);
    }
  }

  lemma RowIsGenerated(w: World, states: seq<State>, actions: seq<Action>, id: BatchId)
    requires Run(w, states, actions) && id in states[|actions|].prov
    ensures id.generation > 0
  {
    RunKeepsInv(w, states, actions, |actions|);
  }
}
