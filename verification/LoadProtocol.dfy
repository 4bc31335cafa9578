/** bulk_load as a protocol (services/_batch_utils.py): any number of sessions load units at the
    same time, and each session can be refused, fail or be killed between any two of its steps.

    A step is one committed transaction, or one advisory-lock call. `owner` and `streamed` are
    history: which batch wrote a stored row, and what each completed batch streamed. No step
    reads them. */
module LoadProtocol {
  import opened Prelude
  import opened BatchIdentity

  datatype Status = Started | Completed | Failed | Superseded

  datatype Batch = Batch(
    status: Status,
    rowCount: Option<nat>,
    attempts: nat,
    error: Option<string>,
    runId: Option<string>)

  /** The primary key of provenance_batch. */
  datatype BatchId = BatchId(key: BatchKey, generation: nat)

  /** The primary key of a target row: its table and the values of that table's key columns. */
  datatype RowKey = RowKey(table: string, values: seq<Cell>)

  type SessionId = nat

  /** Where a session that holds a unit's lock stands inside bulk_load. */
  datatype Phase =
    | Locked(spec: Spec)
    | Opened(spec: Spec, generation: nat)
    | RolledBack(spec: Spec, generation: nat, error: string)
    | Closing(spec: Spec)

  type Provenance = map<BatchId, Batch>
  type Table = map<RowKey, Row>

  datatype State = State(
    prov: Provenance,
    rows: Table,
    locks: map<BatchKey, SessionId>,
    sessions: map<SessionId, Phase>,
    owner: map<RowKey, BatchId>,
    streamed: map<BatchId, Table>)

  /** What a deployment fixes: the units that may be loaded and each target's primary key. */
  datatype World = World(specs: set<Spec>, keyColumns: map<string, seq<string>>)

  datatype Action =
    | TryLock(sid: SessionId, spec: Spec)
    | Open(sid: SessionId)
    | Refuse(sid: SessionId)
    | Commit(sid: SessionId, batch: seq<Row>)
    | Abort(sid: SessionId, error: string)
    | MarkFailed(sid: SessionId)
    | MarkLost(sid: SessionId)
    | Unlock(sid: SessionId)
    | Kill(sid: SessionId)

  // ----- Reading provenance -----------------------------------------------------------------

  function Generations(prov: Provenance, key: BatchKey): set<nat>
  {
    set id | id in prov && id.key == key :: id.generation
  }

  ghost predicate IsMax(s: set<nat>, m: nat)
  {
    m in s && forall x :: x in s ==> x <= m
  }

  lemma {:induction false} MaxExists(s: set<nat>)
    requires s != {}
    ensures exists m: nat :: IsMax(s, m)
  {
    var x :| x in s;
    if s == {x} {
      assert IsMax(s, x);
    } else {
      MaxExists(s - {x});
      var m: nat :| IsMax(s - {x}, m);
      assert forall y :: y in s ==> y == x || y in s - {x};
      assert IsMax(s, if m < x then x else m);
    }
  }

  /** The row `ORDER BY generation DESC LIMIT 1` returns: the key's last generation, 0 if none. */
  ghost function Latest(prov: Provenance, key: BatchKey): (g: nat)
    ensures g == 0 ==> Generations(prov, key) == {} || BatchId(key, 0) in prov
    ensures g > 0 ==> BatchId(key, g) in prov
    ensures forall id :: id in prov && id.key == key ==> id.generation <= g
  {
    var s := Generations(prov, key);
    if s == {} then
      assert forall id :: id in prov && id.key == key ==> id.generation in s;
      0
    else
      MaxExists(s);
      var m: nat :| IsMax(s, m);
      assert forall id :: id in prov && id.key == key ==> id.generation in s;
      m
  }

  // ----- The data transaction ----------------------------------------------------------------

  /** The row's values in the given columns; a column the COPY leaves out is NULL. */
  function Project(columns: seq<string>, row: Row): seq<Cell>
  {
    if columns == [] then []
    else [if columns[0] in row then row[columns[0]] else Null] + Project(columns[1..], row)
  }

  function KeyOf(w: World, table: string, row: Row): RowKey
  {
    RowKey(table, Project(if table in w.keyColumns then w.keyColumns[table] else [], row))
  }

  /** The rows of one COPY by primary key. */
  function Keyed(w: World, table: string, batch: seq<Row>): (r: Table)
  {
    if batch == [] then map[]
    else
      var last := batch[|batch| - 1];
      Keyed(w, table, batch[..|batch| - 1])[KeyOf(w, table, last) := last]
  }

  /** No two rows of the COPY share a primary key. */
  predicate KeysDistinct(w: World, table: string, batch: seq<Row>)
  {
    forall i, j :: 0 <= i < j < |batch| ==> KeyOf(w, table, batch[i]) != KeyOf(w, table, batch[j])
  }

  predicate InDeleteScope(spec: Spec, key: RowKey, row: Row)
  {
    spec.replaceWhere.Some? && key.table == spec.target && Matches(spec.replaceWhere.value, row)
  }

  /** The rows the load's DELETE removes: none for an append-only load, else every row the mapping
      names, over all time. */
  function Deleted(spec: Spec, rows: Table): set<RowKey>
  {
    set k | k in rows && InDeleteScope(spec, k, rows[k])
  }

  /** The completion and the supersede flip, which touches every other completed row of the unit. */
  function Flipped(unit: UnitKey, prov: Provenance, me: BatchId, rowCount: nat): Provenance
  {
    map id | id in prov ::
      if id == me then prov[id].(status := Completed, rowCount := Some(rowCount), error := None)
      else if unit.where.Some? && id.key.unit == unit && prov[id].status == Completed
      then prov[id].(status := Superseded)
      else prov[id]
  }

  /** The transaction fits the database: no duplicate and no conflicting primary key. */
  predicate Accepts(w: World, spec: Spec, rows: Table, batch: seq<Row>)
  {
    && KeysDistinct(w, spec.target, batch)
    && Keyed(w, spec.target, batch).Keys !! (rows.Keys - Deleted(spec, rows))
  }

  // ----- The steps ---------------------------------------------------------------------------

  ghost predicate Enabled(w: World, s: State, a: Action)
  {
    match a
    case TryLock(sid, spec) => sid !in s.sessions && spec in w.specs
    case Open(sid) => sid in s.sessions && s.sessions[sid].Locked?
    case Refuse(sid) => sid in s.sessions && s.sessions[sid].Opened?
    case Commit(sid, batch) =>
      && sid in s.sessions && s.sessions[sid].Opened?
      && BatchId(Key(s.sessions[sid].spec), s.sessions[sid].generation) in s.prov
      && Accepts(w, s.sessions[sid].spec, s.rows, batch)
    case Abort(sid, error) => sid in s.sessions && s.sessions[sid].Opened?
    case MarkFailed(sid) =>
      && sid in s.sessions && s.sessions[sid].RolledBack?
      && BatchId(Key(s.sessions[sid].spec), s.sessions[sid].generation) in s.prov
    case MarkLost(sid) => sid in s.sessions && s.sessions[sid].RolledBack?
    case Unlock(sid) => sid in s.sessions && s.sessions[sid].Closing?
    case Kill(sid) => sid in s.sessions
  }

  /** _bulk_load_locked's provenance transaction: skip, insert the next generation, or take over. */
  ghost function OpenStep(s: State, sid: SessionId, spec: Spec): State
  {
    OpenAt(s, sid, spec, Latest(s.prov, Key(spec)))
  }

  /** The same transaction, g being the key's last generation. */
  ghost function OpenAt(s: State, sid: SessionId, spec: Spec, g: nat): State
  {
    var last := BatchId(Key(spec), g);
    if last !in s.prov || s.prov[last].status == Superseded then
      WriteRow(s, sid, BatchId(Key(spec), g + 1), Batch(Started, None, 1, None, spec.runId),
               Opened(spec, g + 1))
    else if s.prov[last].status == Completed then
      s.(sessions := s.sessions[sid := Closing(spec)])
    else
      WriteRow(s, sid, last, TakenOver(s.prov[last], spec), Opened(spec, g))
  }

  function TakenOver(row: Batch, spec: Spec): Batch
  {
    row.(status := Started, error := None, runId := spec.runId, attempts := row.attempts + 1)
  }

  /** One provenance row written, and the session moving on, in one commit. */
  ghost function WriteRow(s: State, sid: SessionId, id: BatchId, row: Batch, p: Phase): State
  {
    s.(prov := s.prov[id := row], sessions := s.sessions[sid := p])
  }

  /** DELETE, supersede, COPY and complete in one transaction. */
  ghost function CommitStep(w: World, s: State, sid: SessionId, spec: Spec, g: nat, batch: seq<Row>): State
  {
    var me := BatchId(Key(spec), g);
    var gone := Deleted(spec, s.rows);
    var mine := Keyed(w, spec.target, batch);
    s.(prov := Flipped(UnitOf(spec), s.prov, me, |batch|),
       rows := (s.rows - gone) + mine,
       owner := (s.owner - gone) + (map k | k in mine :: me),
       streamed := s.streamed[me := mine],
       sessions := s.sessions[sid := Closing(spec)])
  }

  ghost function MarkStep(s: State, sid: SessionId, spec: Spec, g: nat, error: string): State
    requires BatchId(Key(spec), g) in s.prov
  {
    var me := BatchId(Key(spec), g);
    WriteRow(s, sid, me, s.prov[me].(status := Failed, error := Some(error)), Closing(spec))
  }

  /** The session leaves bulk_load, or its connection is gone: its lock goes with it. */
  ghost function Leave(s: State, sid: SessionId): State
    requires sid in s.sessions
  {
    s.(sessions := s.sessions - {sid}, locks := s.locks - {Key(s.sessions[sid].spec)})
  }

  ghost function Apply(w: World, s: State, a: Action): State
    requires Enabled(w, s, a)
  {
    match a
    case TryLock(sid, spec) =>
      if Key(spec) in s.locks then s
      else s.(locks := s.locks[Key(spec) := sid], sessions := s.sessions[sid := Locked(spec)])
    case Open(sid) => OpenStep(s, sid, s.sessions[sid].spec)
    case Refuse(sid) => s.(sessions := s.sessions[sid := Closing(s.sessions[sid].spec)])
    case Commit(sid, batch) =>
      CommitStep(w, s, sid, s.sessions[sid].spec, s.sessions[sid].generation, batch)
    case Abort(sid, error) =>
      s.(sessions := s.sessions[sid := RolledBack(s.sessions[sid].spec, s.sessions[sid].generation, error)])
    case MarkFailed(sid) =>
      MarkStep(s, sid, s.sessions[sid].spec, s.sessions[sid].generation, s.sessions[sid].error)
    case MarkLost(sid) => s.(sessions := s.sessions[sid := Closing(s.sessions[sid].spec)])
    case Unlock(sid) => Leave(s, sid)
    case Kill(sid) => Leave(s, sid)
  }

  ghost const Initial := State(map[], map[], map[], map[], map[], map[])

  ghost predicate Next(w: World, s: State, a: Action, t: State)
  {
    Enabled(w, s, a) && t == Apply(w, s, a)
  }

  ghost predicate NextAt(w: World, states: seq<State>, actions: seq<Action>, i: nat)
    requires i < |actions| && |states| == |actions| + 1
  {
    Next(w, states[i], actions[i], states[i + 1])
  }

  /** A run: from the empty database, any enabled actions in any order. */
  ghost predicate Run(w: World, states: seq<State>, actions: seq<Action>)
  {
    && |states| == |actions| + 1
    && states[0] == Initial
    && forall i :: 0 <= i < |actions| ==> NextAt(w, states, actions, i)
  }

  // ----- What a deployment may keep to ----------------------------------------------------------

  /** No load of another unit's rows: a mapping that names the row has this unit's key. */
  ghost predicate Apart(w: World, unit: UnitKey, row: Row)
  {
    forall other :: (other in w.specs && other.target == unit.target && other.replaceWhere.Some? &&
                     UnitOf(other) != unit) ==> !Matches(other.replaceWhere.value, row)
  }

  /** The discipline asked of the writers: a replacing load streams only rows its own mapping names, and
      no load streams a row that another replacing unit's mapping names. */
  ghost predicate Fits(w: World, spec: Spec, batch: seq<Row>)
  {
    forall i :: 0 <= i < |batch| ==>
      && (spec.replaceWhere.Some? ==> Matches(spec.replaceWhere.value, batch[i]))
      && Apart(w, UnitOf(spec), batch[i])
  }

  ghost predicate FitsAt(w: World, s: State, a: Action)
  {
    a.Commit? && a.sid in s.sessions ==> Fits(w, s.sessions[a.sid].spec, a.batch)
  }

  /** Every data transaction of the run keeps to it. */
  ghost predicate Disciplined(w: World, states: seq<State>, actions: seq<Action>)
    requires |states| == |actions| + 1
  {
    forall i :: 0 <= i < |actions| ==> FitsAt(w, states[i], actions[i])
  }

  /** Unit keys tell the DELETEs apart: two units with one key delete the same rows. The key hashes
      the printed values and the DELETE compares the values themselves, so the code does not see to
      it; BatchIdentity.SameScopeIff says what it comes to. */
  ghost predicate KeysFixScopes(specs: set<Spec>)
  {
    forall a, b :: a in specs && b in specs && a.replaceWhere.Some? && UnitOf(a) == UnitOf(b) ==>
      b.replaceWhere.Some? && SameScope(a.replaceWhere.value, b.replaceWhere.value)
  }

  /** What both come to for a row of the unit: a mapping names it exactly when it is this unit's. */
  ghost predicate Belongs(w: World, unit: UnitKey, row: Row)
  {
    forall other :: other in w.specs && other.target == unit.target && other.replaceWhere.Some? ==>
      (Matches(other.replaceWhere.value, row) <==> UnitOf(other) == unit)
  }

  // ----- What every step keeps -----------------------------------------------------------------

  function IdOf(p: Phase): BatchId
    requires p.Opened? || p.RolledBack?
  {
    BatchId(Key(p.spec), p.generation)
  }

  /** A session inside bulk_load holds its unit's lock and no other lock is held. */
  ghost predicate LocksInv(w: World, locks: map<BatchKey, SessionId>, sessions: map<SessionId, Phase>)
  {
    && (forall sid :: sid in sessions ==>
          && sessions[sid].spec in w.specs
          && Key(sessions[sid].spec) in locks
          && locks[Key(sessions[sid].spec)] == sid)
    && (forall key :: key in locks ==>
          locks[key] in sessions && Key(sessions[locks[key]].spec) == key)
  }

  /** Generations start at 1 and have no gap, and every one below another is superseded. */
  ghost predicate HistoryInv(prov: Provenance)
  {
    && (forall id :: id in prov ==> id.generation >= 1)
    && (forall id, g: nat {:trigger id in prov, BatchId(id.key, g)} ::
          id in prov && 1 <= g < id.generation ==>
          BatchId(id.key, g) in prov && prov[BatchId(id.key, g)].status == Superseded)
  }

  /** The row is started, under the run of this load. */
  ghost predicate StartedFor(prov: Provenance, id: BatchId, runId: Option<string>)
  {
    id in prov && prov[id].status == Started && prov[id].runId == runId
  }

  /** An open load's own row is started under its own run. */
  ghost predicate PhaseInv(prov: Provenance, sessions: map<SessionId, Phase>)
  {
    forall sid :: sid in sessions && (sessions[sid].Opened? || sessions[sid].RolledBack?) ==>
      StartedFor(prov, IdOf(sessions[sid]), sessions[sid].spec.runId)
  }

  ghost predicate IsCompleted(prov: Provenance, id: BatchId)
  {
    id in prov && prov[id].status == Completed
  }

  /** A batch's streamed rows are all stored, unchanged, and owned by it. */
  ghost predicate HoldsAll(rows: Table, owner: map<RowKey, BatchId>, id: BatchId, batch: Table)
  {
    forall k :: k in batch ==> k in rows && k in owner && owner[k] == id && rows[k] == batch[k]
  }

  /** The batch was committed, and may have been superseded since. */
  ghost predicate IsSettled(prov: Provenance, id: BatchId)
  {
    id in prov && prov[id].status in {Completed, Superseded}
  }

  /** Every stored row is one a settled batch streamed, with the streamed values. */
  ghost predicate OwnerInv(prov: Provenance, rows: Table, owner: map<RowKey, BatchId>, streamed: map<BatchId, Table>)
  {
    && owner.Keys == rows.Keys
    && forall k :: k in owner ==>
         IsSettled(prov, owner[k]) && owner[k] in streamed && k in streamed[owner[k]] && rows[k] == streamed[owner[k]][k]
  }

  /** A completed row counts what its batch streamed. */
  ghost predicate CountInv(prov: Provenance, streamed: map<BatchId, Table>)
  {
    forall id :: IsCompleted(prov, id) ==> id in streamed && prov[id].rowCount == Some(|streamed[id]|)
  }

  /** A replacing unit has at most one completed row; an append-only identity is never superseded. */
  ghost predicate SingleInv(prov: Provenance)
  {
    && (forall a, b ::
          (IsCompleted(prov, a) && IsCompleted(prov, b) && a.key.unit == b.key.unit && a.key.unit.where.Some?)
          ==> a == b)
    && (forall id :: id in prov && id.key.unit.where.None? ==> prov[id].status != Superseded)
  }

  /** The part of the invariant that speaks of the two tables only. */
  ghost predicate TablesInv(s: State)
  {
    && HistoryInv(s.prov) && SingleInv(s.prov)
    && OwnerInv(s.prov, s.rows, s.owner, s.streamed) && CountInv(s.prov, s.streamed)
  }

  /** What every run keeps. */
  ghost predicate Inv(w: World, s: State)
  {
    TablesInv(s) && LocksInv(w, s.locks, s.sessions) && PhaseInv(s.prov, s.sessions)
  }

  /** Every streamed row lies in its unit's table and apart from the other units. */
  ghost predicate FitInv(w: World, streamed: map<BatchId, Table>)
  {
    forall id, k :: id in streamed && k in streamed[id] ==>
      k.table == id.key.unit.target && Apart(w, id.key.unit, streamed[id][k])
  }

  ghost predicate BatchesHeld(prov: Provenance, rows: Table, owner: map<RowKey, BatchId>, streamed: map<BatchId, Table>)
  {
    forall id :: IsCompleted(prov, id) && id in streamed ==> HoldsAll(rows, owner, id, streamed[id])
  }

  /** What a disciplined run keeps besides: a completed batch keeps all its rows. */
  ghost predicate HeldInv(w: World, s: State)
  {
    BatchesHeld(s.prov, s.rows, s.owner, s.streamed) && FitInv(w, s.streamed)
  }

  /** What it keeps where unit keys tell the DELETEs apart: no row is left without a completed batch. */
  ghost predicate ScopeInv(w: World, s: State)
  {
    && (forall k :: k in s.owner ==> IsCompleted(s.prov, s.owner[k]))
    && forall id, k :: id in s.streamed && k in s.streamed[id] ==> Belongs(w, id.key.unit, s.streamed[id][k])
  }
}
