/** Every step of the load protocol keeps the invariant of LoadProtocol. */
module LoadInvariant {
  import opened Prelude
  import opened BatchIdentity
  import opened LoadProtocol

  /** The value of a column; one the COPY leaves out is NULL. */
  function ValueAt(row: Row, column: string): Cell
  {
    if column in row then row[column] else Null
  }

  lemma {:induction false} ProjectionsAgree(columns: seq<string>, a: Row, b: Row)
    ensures Project(columns, a) == Project(columns, b) <==>
              forall i :: 0 <= i < |columns| ==> ValueAt(a, columns[i]) == ValueAt(b, columns[i])
  {
    if columns != [] {
      var x, y := Project(columns, a), Project(columns, b);
      ProjectionsAgree(columns[1..], a, b);
      assert x[1..] == Project(columns[1..], a) && y[1..] == Project(columns[1..], b);
      assert x == [x[0]] + x[1..] && y == [y[0]] + y[1..];
      assert forall i :: 1 <= i < |columns| ==> columns[i] == columns[1..][i - 1];
    }
  }

  /** Two rows have one primary key exactly when they agree in every key column of the table. */
  lemma KeysOfRowsAgree(w: World, table: string, a: Row, b: Row)
    requires table in w.keyColumns
    ensures KeyOf(w, table, a) == KeyOf(w, table, b) <==>
              forall i :: 0 <= i < |w.keyColumns[table]| ==>
                ValueAt(a, w.keyColumns[table][i]) == ValueAt(b, w.keyColumns[table][i])
  {
    ProjectionsAgree(w.keyColumns[table], a, b);
  }

  /** Every row of the COPY is found under its own key. */
  lemma {:induction false} KeyedFinds(w: World, table: string, batch: seq<Row>, i: nat)
    requires KeysDistinct(w, table, batch) && i < |batch|
    ensures KeyOf(w, table, batch[i]) in Keyed(w, table, batch)
    ensures Keyed(w, table, batch)[KeyOf(w, table, batch[i])] == batch[i]
  {
    var n := |batch| - 1;
    var rest := batch[..n];
    if i < n {
      assert forall j :: 0 <= j < n ==> rest[j] == batch[j];
      assert KeysDistinct(w, table, rest);
      KeyedFinds(w, table, rest, i);
    }
  }

  /** Every key found belongs to a row of the COPY. */
  lemma {:induction false} KeyedComesFrom(w: World, table: string, batch: seq<Row>, k: RowKey)
    requires k in Keyed(w, table, batch)
    ensures k.table == table
    ensures exists i :: 0 <= i < |batch| && batch[i] == Keyed(w, table, batch)[k] && KeyOf(w, table, batch[i]) == k
  {
    var n := |batch| - 1;
    var rest := batch[..n];
    if k == KeyOf(w, table, batch[n]) {
      assert batch[n] == Keyed(w, table, batch)[k];
    } else {
      KeyedComesFrom(w, table, rest, k);
      var i :| 0 <= i < |rest| && rest[i] == Keyed(w, table, rest)[k] && KeyOf(w, table, rest[i]) == k;
      assert batch[i] == rest[i];
    }
  }

  /** As many keys as rows. */
  lemma {:induction false} KeyedCount(w: World, table: string, batch: seq<Row>)
    requires KeysDistinct(w, table, batch)
    ensures |Keyed(w, table, batch)| == |batch|
  {
    if batch != [] {
      var n := |batch| - 1;
      var rest := batch[..n];
      assert forall j :: 0 <= j < n ==> rest[j] == batch[j];
      KeyedCount(w, table, rest);
      var k := KeyOf(w, table, batch[n]);
      if k in Keyed(w, table, rest) {
        KeyedComesFrom(w, table, rest, k);
        assert false;
      }
    }
  }

  // ----- Locks and phases ----------------------------------------------------------------------

  /** A session that moves on with the same spec keeps the lock table right. */
  lemma MovingKeepsLocks(w: World, s: State, sid: SessionId, p: Phase)
    requires LocksInv(w, s.locks, s.sessions) && sid in s.sessions && p.spec == s.sessions[sid].spec
    ensures LocksInv(w, s.locks, s.sessions[sid := p])
  {
  }

  lemma LockingKeepsLocks(w: World, s: State, sid: SessionId, spec: Spec)
    requires LocksInv(w, s.locks, s.sessions)
    requires sid !in s.sessions && spec in w.specs && Key(spec) !in s.locks
    ensures LocksInv(w, s.locks[Key(spec) := sid], s.sessions[sid := Locked(spec)])
  {
  }

  lemma LeavingKeepsLocks(w: World, s: State, sid: SessionId)
    requires LocksInv(w, s.locks, s.sessions) && sid in s.sessions
    ensures LocksInv(w, s.locks - {Key(s.sessions[sid].spec)}, s.sessions - {sid})
  {
    var sessions := s.sessions - {sid};
    forall other | other in sessions
      ensures Key(sessions[other].spec) != Key(s.sessions[sid].spec)
    {
      assert s.locks[Key(s.sessions[other].spec)] == other;
    }
  }

  /** Two sessions never work on one batch key. */
  lemma SessionsDiffer(w: World, s: State, a: SessionId, b: SessionId)
    requires LocksInv(w, s.locks, s.sessions)
    requires a in s.sessions && b in s.sessions && a != b
    ensures Key(s.sessions[a].spec) != Key(s.sessions[b].spec)
  {
    assert s.locks[Key(s.sessions[a].spec)] == a;
    assert s.locks[Key(s.sessions[b].spec)] == b;
  }

  /** Rewriting one key's rows cannot disturb a session on another key. */
  lemma PhasesSurvive(w: World, s: State, sid: SessionId, p: Phase, prov: Provenance)
    requires LocksInv(w, s.locks, s.sessions) && PhaseInv(s.prov, s.sessions) && sid in s.sessions
    requires p.Opened? || p.RolledBack? ==> StartedFor(prov, IdOf(p), p.spec.runId)
    requires StartedRowsSurvive(s.prov, prov, Key(s.sessions[sid].spec))
    ensures PhaseInv(prov, s.sessions[sid := p])
  {
    var sessions := s.sessions[sid := p];
    forall other | other in sessions && (sessions[other].Opened? || sessions[other].RolledBack?)
      ensures StartedFor(prov, IdOf(sessions[other]), sessions[other].spec.runId)
    {
      if other != sid {
        SessionsDiffer(w, s, other, sid);
        assert IdOf(s.sessions[other]).key != Key(s.sessions[sid].spec);
      }
    }
  }

  /** The started rows of every other key are as they were. */
  ghost predicate StartedRowsSurvive(prov: Provenance, next: Provenance, key: BatchKey)
  {
    forall id :: id in prov && id.key != key && prov[id].status == Started ==>
      id in next && next[id] == prov[id]
  }

  // ----- Opening the provenance row --------------------------------------------------------------

  /** A new row of a key goes on top of superseded rows only. */
  lemma InsertingKeepsHistory(prov: Provenance, key: BatchKey, g: nat, row: Batch)
    requires HistoryInv(prov) && g == Latest(prov, key)
    requires BatchId(key, g) !in prov || prov[BatchId(key, g)].status == Superseded
    ensures HistoryInv(prov[BatchId(key, g + 1) := row])
    ensures BatchId(key, g + 1) !in prov
  {
    var me := BatchId(key, g + 1);
    var next := prov[me := row];
    if g > 0 {
      assert BatchId(key, g) in prov;
    }
    forall id, h: nat | id in next && 1 <= h < id.generation
      ensures BatchId(id.key, h) in next && next[BatchId(id.key, h)].status == Superseded
    {
      assert BatchId(id.key, h) in prov && prov[BatchId(id.key, h)].status == Superseded;
      assert BatchId(id.key, h) != me;
    }
  }

  /** Changing a row that nothing follows, and that stays unsuperseded, keeps the history. */
  lemma RewritingKeepsHistory(prov: Provenance, me: BatchId, row: Batch)
    requires HistoryInv(prov) && me in prov && prov[me].status != Superseded
    ensures HistoryInv(prov[me := row])
  {
    var next := prov[me := row];
    forall id, h: nat | id in next && 1 <= h < id.generation
      ensures BatchId(id.key, h) in next && next[BatchId(id.key, h)].status == Superseded
    {
      assert BatchId(id.key, h) in prov && BatchId(id.key, h) != me;
    }
  }

  /** A row that is not settled before or after changes nothing for the stored rows. */
  lemma OwnersSurvive(s: State, me: BatchId, row: Batch)
    requires OwnerInv(s.prov, s.rows, s.owner, s.streamed) && CountInv(s.prov, s.streamed) && SingleInv(s.prov)
    requires me in s.prov ==> s.prov[me].status in {Started, Failed}
    requires row.status in {Started, Failed}
    ensures OwnerInv(s.prov[me := row], s.rows, s.owner, s.streamed) && CountInv(s.prov[me := row], s.streamed)
    ensures SingleInv(s.prov[me := row])
  {
    var next := s.prov[me := row];
    assert forall id :: IsCompleted(next, id) <==> IsCompleted(s.prov, id);
  }

  lemma InsertKeepsTables(s: State, key: BatchKey, g: nat, row: Batch)
    requires TablesInv(s) && g == Latest(s.prov, key) && row.status == Started
    requires BatchId(key, g) !in s.prov || s.prov[BatchId(key, g)].status == Superseded
    ensures TablesInv(s.(prov := s.prov[BatchId(key, g + 1) := row]))
    ensures BatchId(key, g + 1) !in s.prov
  {
    var me := BatchId(key, g + 1);
    assert HistoryInv(s.prov[me := row]) && me !in s.prov by { InsertingKeepsHistory(s.prov, key, g, row); }
    OwnersSurvive(s, me, row);
  }

  lemma RewriteKeepsTables(s: State, me: BatchId, row: Batch)
    requires TablesInv(s)
    requires me in s.prov && s.prov[me].status in {Started, Failed} && row.status in {Started, Failed}
    ensures TablesInv(s.(prov := s.prov[me := row]))
  {
    assert HistoryInv(s.prov[me := row]) by { RewritingKeepsHistory(s.prov, me, row); }
    OwnersSurvive(s, me, row);
  }

  lemma WritingOneKeyKeepsStarted(prov: Provenance, me: BatchId, row: Batch)
    ensures StartedRowsSurvive(prov, prov[me := row], me.key)
  {
  }

  /** One provenance row written as started or failed, with its session moving on. */
  lemma WriteKeepsSessions(w: World, s: State, sid: SessionId, me: BatchId, row: Batch, p: Phase)
    requires LocksInv(w, s.locks, s.sessions) && PhaseInv(s.prov, s.sessions)
    requires sid in s.sessions && p.spec == s.sessions[sid].spec && me.key == Key(p.spec)
    requires p.Opened? || p.RolledBack? ==> IdOf(p) == me && row.status == Started && row.runId == p.spec.runId
    ensures LocksInv(w, s.locks, s.sessions[sid := p])
    ensures PhaseInv(s.prov[me := row], s.sessions[sid := p])
  {
    MovingKeepsLocks(w, s, sid, p);
    WritingOneKeyKeepsStarted(s.prov, me, row);
    PhasesSurvive(w, s, sid, p, s.prov[me := row]);
  }

  /** A session moving on without touching a table. */
  lemma MoveKeepsInv(w: World, s: State, t: State, sid: SessionId, p: Phase)
    requires LocksInv(w, s.locks, s.sessions) && PhaseInv(s.prov, s.sessions)
    requires sid in s.sessions && p.spec == s.sessions[sid].spec
    requires p.Opened? || p.RolledBack? ==> StartedFor(s.prov, IdOf(p), p.spec.runId)
    requires t == s.(sessions := s.sessions[sid := p])
    ensures LocksInv(w, t.locks, t.sessions) && PhaseInv(t.prov, t.sessions)
  {
    MovingKeepsLocks(w, s, sid, p);
    PhasesSurvive(w, s, sid, p, s.prov);
  }

  /** One provenance row written, its tables and its sessions still in order. */
  lemma WriteKeepsInv(w: World, s: State, t: State, sid: SessionId, id: BatchId, row: Batch, p: Phase)
    requires TablesInv(s.(prov := s.prov[id := row]))
    requires LocksInv(w, s.locks, s.sessions) && PhaseInv(s.prov, s.sessions)
    requires sid in s.sessions && p.spec == s.sessions[sid].spec && id.key == Key(p.spec)
    requires p.Opened? || p.RolledBack? ==> IdOf(p) == id && row.status == Started && row.runId == p.spec.runId
    requires t == WriteRow(s, sid, id, row, p)
    ensures TablesInv(t) && LocksInv(w, t.locks, t.sessions) && PhaseInv(t.prov, t.sessions)
  {
    WriteKeepsSessions(w, s, sid, id, row, p);
  }

  lemma InsertKeepsInv(w: World, s: State, t: State, sid: SessionId, spec: Spec, g: nat)
    requires TablesInv(s) && LocksInv(w, s.locks, s.sessions) && PhaseInv(s.prov, s.sessions)
    requires sid in s.sessions && spec == s.sessions[sid].spec && g == Latest(s.prov, Key(spec))
    requires BatchId(Key(spec), g) !in s.prov || s.prov[BatchId(Key(spec), g)].status == Superseded
    requires t == WriteRow(s, sid, BatchId(Key(spec), g + 1), Batch(Started, None, 1, None, spec.runId),
                           Opened(spec, g + 1))
    ensures TablesInv(t) && LocksInv(w, t.locks, t.sessions) && PhaseInv(t.prov, t.sessions)
  {
    var row := Batch(Started, None, 1, None, spec.runId);
    InsertKeepsTables(s, Key(spec), g, row);
    WriteKeepsInv(w, s, t, sid, BatchId(Key(spec), g + 1), row, Opened(spec, g + 1));
  }

  lemma TakeoverKeepsInv(w: World, s: State, t: State, sid: SessionId, spec: Spec, last: BatchId)
    requires TablesInv(s) && LocksInv(w, s.locks, s.sessions) && PhaseInv(s.prov, s.sessions)
    requires sid in s.sessions && spec == s.sessions[sid].spec && last.key == Key(spec)
    requires last in s.prov && s.prov[last].status in {Started, Failed}
    requires t == WriteRow(s, sid, last, TakenOver(s.prov[last], spec), Opened(spec, last.generation))
    ensures TablesInv(t) && LocksInv(w, t.locks, t.sessions) && PhaseInv(t.prov, t.sessions)
  {
    RewriteKeepsTables(s, last, TakenOver(s.prov[last], spec));
    WriteKeepsInv(w, s, t, sid, last, TakenOver(s.prov[last], spec), Opened(spec, last.generation));
  }

  lemma OpenKeepsInv(w: World, s: State, t: State, sid: SessionId, spec: Spec, g: nat)
    requires TablesInv(s) && LocksInv(w, s.locks, s.sessions) && PhaseInv(s.prov, s.sessions)
    requires sid in s.sessions && spec == s.sessions[sid].spec && g == Latest(s.prov, Key(spec))
    requires t == OpenAt(s, sid, spec, g)
    ensures TablesInv(t) && LocksInv(w, t.locks, t.sessions) && PhaseInv(t.prov, t.sessions)
  {
    var last := BatchId(Key(spec), g);
    if last !in s.prov || s.prov[last].status == Superseded {
      InsertKeepsInv(w, s, t, sid, spec, g);
    } else if s.prov[last].status == Completed {
      MoveKeepsInv(w, s, t, sid, Closing(spec));
    } else {
      TakeoverKeepsInv(w, s, t, sid, spec, last);
    }
  }

  // ----- The data transaction --------------------------------------------------------------------

  lemma FlipKeepsHistory(unit: UnitKey, prov: Provenance, me: BatchId, rowCount: nat)
    requires HistoryInv(prov) && me in prov && prov[me].status == Started
    ensures HistoryInv(Flipped(unit, prov, me, rowCount))
  {
    var next := Flipped(unit, prov, me, rowCount);
    forall id, h: nat | id in next && 1 <= h < id.generation
      ensures BatchId(id.key, h) in next && next[BatchId(id.key, h)].status == Superseded
    {
      assert BatchId(id.key, h) in prov && BatchId(id.key, h) != me;
    }
  }

  lemma FlipKeepsSingle(prov: Provenance, me: BatchId, rowCount: nat)
    requires SingleInv(prov) && me in prov && prov[me].status == Started
    ensures SingleInv(Flipped(me.key.unit, prov, me, rowCount))
  {
    var next := Flipped(me.key.unit, prov, me, rowCount);
    forall a, b | IsCompleted(next, a) && IsCompleted(next, b) && a.key.unit == b.key.unit
                  && a.key.unit.where.Some?
      ensures a == b
    {
      if a != me && b != me {
        assert IsCompleted(prov, a) && IsCompleted(prov, b);
      }
    }
  }

  /** What the data transaction does to the tables, field by field. */
  ghost predicate Committed(s: State, t: State, me: BatchId, mine: Table, gone: set<RowKey>)
  {
    && s.owner.Keys == s.rows.Keys
    && mine.Keys !! (s.rows.Keys - gone)
    && me in s.prov && s.prov[me].status == Started
    && t.prov == Flipped(me.key.unit, s.prov, me, |mine|)
    && RowsAfter(s.rows, t.rows, mine, gone)
    && OwnerAfter(s.owner, t.owner, me, mine, gone)
    && t.streamed == s.streamed[me := mine]
  }

  ghost predicate RowsAfter(rows: Table, next: Table, mine: Table, gone: set<RowKey>)
  {
    forall k ::
      && (k in next <==> k in mine || (k in rows && k !in gone))
      && (k in next ==> next[k] == if k in mine then mine[k] else rows[k])
  }

  ghost predicate OwnerAfter(owner: map<RowKey, BatchId>, next: map<RowKey, BatchId>, me: BatchId, mine: Table,
                             gone: set<RowKey>)
  {
    forall k ::
      && (k in next <==> k in mine || (k in owner && k !in gone))
      && (k in next ==> next[k] == if k in mine then me else owner[k])
  }

  /** A completed batch stays completed exactly when the loading unit does not replace its own. */
  lemma FlippedIff(prov: Provenance, me: BatchId, n: nat, id: BatchId)
    requires id != me && me in prov && IsCompleted(prov, id)
    ensures IsCompleted(Flipped(me.key.unit, prov, me, n), id) <==>
              !(me.key.unit.where.Some? && id.key.unit == me.key.unit)
    ensures IsCompleted(Flipped(me.key.unit, prov, me, n), id) ==> Flipped(me.key.unit, prov, me, n)[id] == prov[id]
  {
  }

  lemma SettledStays(prov: Provenance, me: BatchId, n: nat, id: BatchId)
    requires me in prov && prov[me].status == Started && IsSettled(prov, id)
    ensures id != me && IsSettled(Flipped(me.key.unit, prov, me, n), id)
  {
  }

  lemma CommitKeepsKeys(s: State, t: State, me: BatchId, mine: Table, gone: set<RowKey>)
    requires Committed(s, t, me, mine, gone)
    ensures t.owner.Keys == t.rows.Keys
  {
    forall k
      ensures k in t.owner <==> k in t.rows
    {
    }
  }

  lemma CommitKeepsOwners(s: State, t: State, me: BatchId, mine: Table, gone: set<RowKey>)
    requires OwnerInv(s.prov, s.rows, s.owner, s.streamed) && Committed(s, t, me, mine, gone)
    ensures OwnerInv(t.prov, t.rows, t.owner, t.streamed)
  {
    CommitKeepsKeys(s, t, me, mine, gone);
    forall k | k in t.owner
      ensures IsSettled(t.prov, t.owner[k]) && t.owner[k] in t.streamed && k in t.streamed[t.owner[k]]
      ensures t.rows[k] == t.streamed[t.owner[k]][k]
    {
      if k !in mine {
        assert t.owner[k] == s.owner[k] && IsSettled(s.prov, s.owner[k]) && t.rows[k] == s.rows[k];
        SettledStays(s.prov, me, |mine|, s.owner[k]);
      }
    }
  }

  lemma CommitKeepsCount(s: State, t: State, me: BatchId, mine: Table, gone: set<RowKey>)
    requires CountInv(s.prov, s.streamed) && Committed(s, t, me, mine, gone)
    ensures CountInv(t.prov, t.streamed)
  {
    forall id | IsCompleted(t.prov, id)
      ensures id in t.streamed && t.prov[id].rowCount == Some(|t.streamed[id]|)
    {
      if id != me {
        assert IsCompleted(s.prov, id);
        FlippedIff(s.prov, me, |mine|, id);
      }
    }
  }

  lemma CommitKeepsTables(s: State, t: State, me: BatchId, mine: Table, gone: set<RowKey>)
    requires TablesInv(s) && Committed(s, t, me, mine, gone)
    ensures TablesInv(t)
  {
    assert OwnerInv(t.prov, t.rows, t.owner, t.streamed) by { CommitKeepsOwners(s, t, me, mine, gone); }
    assert CountInv(t.prov, t.streamed) by { CommitKeepsCount(s, t, me, mine, gone); }
    assert HistoryInv(t.prov) by { FlipKeepsHistory(me.key.unit, s.prov, me, |mine|); }
    assert SingleInv(t.prov) by { FlipKeepsSingle(s.prov, me, |mine|); }
  }

  lemma ReplacingRows(rows: Table, owner: map<RowKey, BatchId>, me: BatchId, mine: Table, gone: set<RowKey>)
    ensures RowsAfter(rows, (rows - gone) + mine, mine, gone)
    ensures OwnerAfter(owner, (owner - gone) + (map k | k in mine :: me), me, mine, gone)
  {
  }

  /** The data transaction, as the tables see it. */
  lemma CommitsAreCommitted(w: World, s: State, a: Action, t: State)
      returns (spec: Spec, me: BatchId, mine: Table, gone: set<RowKey>)
    requires Inv(w, s) && Next(w, s, a, t) && a.Commit?
    ensures a.sid in s.sessions && s.sessions[a.sid].Opened?
    ensures spec == s.sessions[a.sid].spec && me == IdOf(s.sessions[a.sid]) && spec in w.specs
    ensures mine == Keyed(w, spec.target, a.batch) && gone == Deleted(spec, s.rows)
    ensures Committed(s, t, me, mine, gone)
  {
    spec := s.sessions[a.sid].spec;
    me := IdOf(s.sessions[a.sid]);
    mine := Keyed(w, spec.target, a.batch);
    gone := Deleted(spec, s.rows);
    KeyedCount(w, spec.target, a.batch);
    ReplacingRows(s.rows, s.owner, me, mine, gone);
  }

  lemma FlipKeepsStarted(prov: Provenance, me: BatchId, n: nat)
    ensures StartedRowsSurvive(prov, Flipped(me.key.unit, prov, me, n), me.key)
  {
  }

  lemma CommitKeepsInv(w: World, s: State, a: Action, t: State)
    requires Inv(w, s) && Next(w, s, a, t) && a.Commit?
    ensures Inv(w, t)
  {
    var spec, me, mine, gone := CommitsAreCommitted(w, s, a, t);
    CommitKeepsTables(s, t, me, mine, gone);
    FlipKeepsStarted(s.prov, me, |mine|);
    assert t.sessions == s.sessions[a.sid := Closing(spec)] && t.locks == s.locks;
    MovingKeepsLocks(w, s, a.sid, Closing(spec));
    PhasesSurvive(w, s, a.sid, Closing(spec), t.prov);
  }

  // ----- Every step, every run ---------------------------------------------------------------------

  lemma LeavingKeepsInv(w: World, s: State, t: State, sid: SessionId)
    requires LocksInv(w, s.locks, s.sessions) && PhaseInv(s.prov, s.sessions)
    requires sid in s.sessions && t == Leave(s, sid)
    ensures LocksInv(w, t.locks, t.sessions) && PhaseInv(t.prov, t.sessions)
  {
    LeavingKeepsLocks(w, s, sid);
  }

  lemma MarkKeepsInv(w: World, s: State, t: State, sid: SessionId)
    requires TablesInv(s) && LocksInv(w, s.locks, s.sessions) && PhaseInv(s.prov, s.sessions)
    requires Next(w, s, MarkFailed(sid), t)
    ensures TablesInv(t) && LocksInv(w, t.locks, t.sessions) && PhaseInv(t.prov, t.sessions)
  {
    var p := s.sessions[sid];
    var row := s.prov[IdOf(p)].(status := Failed, error := Some(p.error));
    RewriteKeepsTables(s, IdOf(p), row);
    WriteKeepsInv(w, s, t, sid, IdOf(p), row, Closing(p.spec));
  }

  lemma LockKeepsInv(w: World, s: State, t: State, sid: SessionId, spec: Spec)
    requires LocksInv(w, s.locks, s.sessions) && PhaseInv(s.prov, s.sessions)
    requires Next(w, s, TryLock(sid, spec), t)
    ensures LocksInv(w, t.locks, t.sessions) && PhaseInv(t.prov, t.sessions)
  {
    if Key(spec) !in s.locks {
      LockingKeepsLocks(w, s, sid, spec);
    }
  }

  lemma AbortKeepsInv(w: World, s: State, t: State, sid: SessionId, error: string)
    requires LocksInv(w, s.locks, s.sessions) && PhaseInv(s.prov, s.sessions)
    requires Next(w, s, Abort(sid, error), t)
    ensures LocksInv(w, t.locks, t.sessions) && PhaseInv(t.prov, t.sessions)
  {
    var p := RolledBack(s.sessions[sid].spec, s.sessions[sid].generation, error);
    assert IdOf(p) == IdOf(s.sessions[sid]);
    MoveKeepsInv(w, s, t, sid, p);
  }

  /** A step that only moves sessions and locks. */
  lemma QuietStepKeepsSessions(w: World, s: State, a: Action, t: State)
    requires LocksInv(w, s.locks, s.sessions) && PhaseInv(s.prov, s.sessions)
    requires Next(w, s, a, t) && !a.Commit? && !a.Open? && !a.MarkFailed?
    ensures t.prov == s.prov && t.rows == s.rows && t.owner == s.owner && t.streamed == s.streamed
    ensures LocksInv(w, t.locks, t.sessions) && PhaseInv(t.prov, t.sessions)
  {
    match a
    case TryLock(sid, spec) => LockKeepsInv(w, s, t, sid, spec);
    case Refuse(sid) => MoveKeepsInv(w, s, t, sid, Closing(s.sessions[sid].spec));
    case Abort(sid, error) => AbortKeepsInv(w, s, t, sid, error);
    case MarkLost(sid) => MoveKeepsInv(w, s, t, sid, Closing(s.sessions[sid].spec));
    case Unlock(sid) => LeavingKeepsInv(w, s, t, sid);
    case Kill(sid) => LeavingKeepsInv(w, s, t, sid);
  }

  /** Whatever the step, the invariant survives it. */
  lemma StepKeepsInv(w: World, s: State, a: Action, t: State)
    requires Inv(w, s) && Next(w, s, a, t)
    ensures Inv(w, t)
  {
    if a.Commit? {
      CommitKeepsInv(w, s, a, t);
    } else if a.Open? {
      var spec := s.sessions[a.sid].spec;
      OpenKeepsInv(w, s, t, a.sid, spec, Latest(s.prov, Key(spec)));
    } else if a.MarkFailed? {
      MarkKeepsInv(w, s, t, a.sid);
    } else {
      QuietStepKeepsSessions(w, s, a, t);
    }
  }

  /** The invariant holds in every state of every run. */
  lemma {:induction false} RunKeepsInv(w: World, states: seq<State>, actions: seq<Action>, i: nat)
    requires Run(w, states, actions) && i < |states|
    ensures Inv(w, states[i])
    decreases i
  {
    if i == 0 {
      assert Inv(w, Initial);
    } else {
      RunKeepsInv(w, states, actions, i - 1);
      assert NextAt(w, states, actions, i - 1);
      StepKeepsInv(w, states[i - 1], actions[i - 1], states[i]);
    }
  }

  // ----- What one step does to the tables -----------------------------------------------------------

  /** The same completed rows of provenance in both states. */
  ghost predicate SameCompleted(prov: Provenance, next: Provenance)
  {
    && (forall id :: IsCompleted(prov, id) <==> IsCompleted(next, id))
    && (forall id :: IsCompleted(prov, id) ==> next[id] == prov[id])
  }

  /** A provenance row that is completed neither before nor after. */
  lemma WriteLeavesCompleted(prov: Provenance, id: BatchId, row: Batch)
    requires !IsCompleted(prov, id) && row.status != Completed
    ensures SameCompleted(prov, prov[id := row])
  {
  }

  lemma OpenLeavesCompleted(s: State, t: State, sid: SessionId, spec: Spec, g: nat)
    requires t == OpenAt(s, sid, spec, g) && BatchId(Key(spec), g + 1) !in s.prov
    ensures t.rows == s.rows && t.owner == s.owner && t.streamed == s.streamed
    ensures SameCompleted(s.prov, t.prov)
  {
    var last, above := BatchId(Key(spec), g), BatchId(Key(spec), g + 1);
    if last !in s.prov || s.prov[last].status == Superseded {
      WriteLeavesCompleted(s.prov, above, Batch(Started, None, 1, None, spec.runId));
    } else if s.prov[last].status != Completed {
      WriteLeavesCompleted(s.prov, last, TakenOver(s.prov[last], spec));
    }
  }

  /** Every step but the data transaction leaves the stored rows and the completed batches alone. */
  lemma OnlyCommitsChangeTables(w: World, s: State, a: Action, t: State)
    requires PhaseInv(s.prov, s.sessions) && Next(w, s, a, t) && !a.Commit?
    ensures t.rows == s.rows && t.owner == s.owner && t.streamed == s.streamed
    ensures SameCompleted(s.prov, t.prov)
  {
    if a.Open? {
      var spec := s.sessions[a.sid].spec;
      OpenLeavesCompleted(s, t, a.sid, spec, Latest(s.prov, Key(spec)));
    } else if a.MarkFailed? {
      assert s.prov[IdOf(s.sessions[a.sid])].status == Started;
    }
  }

  // ----- What discipline keeps ------------------------------------------------------------------------

  /** The DELETE removes no stored row of another unit. */
  ghost predicate DeletesWithin(rows: Table, owner: map<RowKey, BatchId>, unit: UnitKey, gone: set<RowKey>)
  {
    forall k :: k in rows && k in gone ==> k in owner && unit.where.Some? && owner[k].key.unit == unit
  }

  lemma DeleteStaysInUnit(w: World, s: State, spec: Spec)
    requires OwnerInv(s.prov, s.rows, s.owner, s.streamed) && FitInv(w, s.streamed) && spec in w.specs
    ensures DeletesWithin(s.rows, s.owner, UnitOf(spec), Deleted(spec, s.rows))
  {
    forall k | k in s.rows && k in Deleted(spec, s.rows)
      ensures s.owner[k].key.unit == UnitOf(spec)
    {
      var id := s.owner[k];
      assert k in s.owner && id in s.streamed && k in s.streamed[id];
      assert Apart(w, id.key.unit, s.streamed[id][k]);
    }
  }

  /** The rows of a batch that the transaction does not replace are kept. */
  lemma RowsOfOthersStay(rows: Table, owner: map<RowKey, BatchId>, next: Table, ownerNext: map<RowKey, BatchId>,
                         me: BatchId, mine: Table, gone: set<RowKey>, id: BatchId, batch: Table)
    requires HoldsAll(rows, owner, id, batch) && DeletesWithin(rows, owner, me.key.unit, gone)
    requires mine.Keys !! (rows.Keys - gone)
    requires RowsAfter(rows, next, mine, gone) && OwnerAfter(owner, ownerNext, me, mine, gone)
    requires !(me.key.unit.where.Some? && id.key.unit == me.key.unit)
    ensures HoldsAll(next, ownerNext, id, batch)
  {
    forall k | k in batch
      ensures k !in gone && k !in mine
    {
      assert k in rows && owner[k] == id;
    }
  }

  lemma CommitKeepsHeld(s: State, t: State, me: BatchId, mine: Table, gone: set<RowKey>)
    requires BatchesHeld(s.prov, s.rows, s.owner, s.streamed)
    requires Committed(s, t, me, mine, gone) && DeletesWithin(s.rows, s.owner, me.key.unit, gone)
    ensures BatchesHeld(t.prov, t.rows, t.owner, t.streamed)
  {
    forall id | IsCompleted(t.prov, id) && id in t.streamed
      ensures HoldsAll(t.rows, t.owner, id, t.streamed[id])
    {
      if id != me {
        assert IsCompleted(s.prov, id) && id in s.streamed;
        FlippedIff(s.prov, me, |mine|, id);
        RowsOfOthersStay(s.rows, s.owner, t.rows, t.owner, me, mine, gone, id, s.streamed[id]);
      }
    }
  }

  lemma CommitKeepsFit(w: World, streamed: map<BatchId, Table>, me: BatchId, spec: Spec, batch: seq<Row>)
    requires FitInv(w, streamed) && Fits(w, spec, batch) && me.key == Key(spec)
    ensures FitInv(w, streamed[me := Keyed(w, spec.target, batch)])
  {
    var mine := Keyed(w, spec.target, batch);
    forall k | k in mine
      ensures k.table == spec.target && Apart(w, UnitOf(spec), mine[k])
    {
      KeyedComesFrom(w, spec.target, batch, k);
    }
  }

  lemma StepKeepsHeld(w: World, s: State, a: Action, t: State)
    requires Inv(w, s) && HeldInv(w, s) && Next(w, s, a, t) && FitsAt(w, s, a)
    ensures HeldInv(w, t)
  {
    if a.Commit? {
      var spec, me, mine, gone := CommitsAreCommitted(w, s, a, t);
      DeleteStaysInUnit(w, s, spec);
      CommitKeepsHeld(s, t, me, mine, gone);
      CommitKeepsFit(w, s.streamed, me, spec, a.batch);
    } else {
      OnlyCommitsChangeTables(w, s, a, t);
    }
  }

  /** While every load streams rows of its own unit only, a completed batch keeps all its rows. */
  lemma {:induction false} RunKeepsHeld(w: World, states: seq<State>, actions: seq<Action>, i: nat)
    requires Run(w, states, actions) && Disciplined(w, states, actions) && i < |states|
    ensures HeldInv(w, states[i])
    decreases i
  {
    if i > 0 {
      RunKeepsHeld(w, states, actions, i - 1);
      RunKeepsInv(w, states, actions, i - 1);
      assert NextAt(w, states, actions, i - 1);
      StepKeepsHeld(w, states[i - 1], actions[i - 1], states[i]);
    }
  }

  // ----- What unit keys that fix the scopes keep ------------------------------------------------------------

  /** Where every replace_where value is a text, unit keys do tell the DELETEs apart. */
  lemma LabelsFixScopes(specs: set<Spec>)
    requires forall spec :: spec in specs && spec.replaceWhere.Some? ==> OfLabels(spec.replaceWhere.value)
    ensures KeysFixScopes(specs)
  {
    forall a, b | a in specs && b in specs && a.replaceWhere.Some? && UnitOf(a) == UnitOf(b)
      ensures b.replaceWhere.Some? && SameScope(a.replaceWhere.value, b.replaceWhere.value)
    {
      UnitsAgree(a, b);
      LabelsKeepTheirScopes(a, b);
    }
  }

  /** A row its load may stream belongs to the load's unit: any other spec of the unit names it too. */
  lemma FittingBelongs(w: World, spec: Spec, row: Row)
    requires KeysFixScopes(w.specs) && spec in w.specs && Apart(w, UnitOf(spec), row)
    requires spec.replaceWhere.Some? ==> Matches(spec.replaceWhere.value, row)
    ensures Belongs(w, UnitOf(spec), row)
  {
    forall other | other in w.specs && other.replaceWhere.Some? && UnitOf(other) == UnitOf(spec)
      ensures Matches(other.replaceWhere.value, row)
    {
      SameScopeIff(other.replaceWhere.value, spec.replaceWhere.value);
      assert DeletesAlike(other.replaceWhere.value, spec.replaceWhere.value);
    }
  }

  /** The DELETE removes exactly the stored rows of this unit. */
  ghost predicate DeletesUnit(rows: Table, owner: map<RowKey, BatchId>, unit: UnitKey, gone: set<RowKey>)
  {
    forall k :: k in rows ==>
      k in owner && (k in gone <==> unit.where.Some? && owner[k].key.unit == unit)
  }

  /** Where unit keys tell the DELETEs apart, the DELETE of a load reaches exactly the rows of its own
      unit. */
  lemma DeleteReachesOwnUnit(w: World, s: State, spec: Spec)
    requires OwnerInv(s.prov, s.rows, s.owner, s.streamed) && FitInv(w, s.streamed) && ScopeInv(w, s)
    requires spec in w.specs
    ensures DeletesUnit(s.rows, s.owner, UnitOf(spec), Deleted(spec, s.rows))
  {
    forall k | k in s.rows
      ensures k in Deleted(spec, s.rows) <==> spec.replaceWhere.Some? && s.owner[k].key.unit == UnitOf(spec)
    {
      var id := s.owner[k];
      assert k in s.owner && id in s.streamed && k in s.streamed[id];
      assert k.table == id.key.unit.target;
      assert Belongs(w, id.key.unit, s.streamed[id][k]);
    }
  }

  lemma CommitKeepsOwnersCompleted(s: State, t: State, me: BatchId, mine: Table, gone: set<RowKey>)
    requires forall k :: k in s.owner ==> IsCompleted(s.prov, s.owner[k])
    requires Committed(s, t, me, mine, gone) && DeletesUnit(s.rows, s.owner, me.key.unit, gone)
    ensures forall k :: k in t.owner ==> IsCompleted(t.prov, t.owner[k])
  {
    forall k | k in t.owner
      ensures IsCompleted(t.prov, t.owner[k])
    {
      if k !in mine {
        assert t.owner[k] == s.owner[k] && k in s.rows && k !in gone;
        FlippedIff(s.prov, me, |mine|, s.owner[k]);
      }
    }
  }

  lemma CommitKeepsBelonging(w: World, s: State, me: BatchId, spec: Spec, batch: seq<Row>)
    requires forall id, k :: id in s.streamed && k in s.streamed[id] ==> Belongs(w, id.key.unit, s.streamed[id][k])
    requires KeysFixScopes(w.specs) && Fits(w, spec, batch) && spec in w.specs && me.key == Key(spec)
    ensures var streamed := s.streamed[me := Keyed(w, spec.target, batch)];
            forall id, k :: id in streamed && k in streamed[id] ==> Belongs(w, id.key.unit, streamed[id][k])
  {
    var mine := Keyed(w, spec.target, batch);
    forall k | k in mine
      ensures Belongs(w, UnitOf(spec), mine[k])
    {
      KeyedComesFrom(w, spec.target, batch, k);
      FittingBelongs(w, spec, mine[k]);
    }
  }

  lemma StepKeepsScopes(w: World, s: State, a: Action, t: State)
    requires KeysFixScopes(w.specs) && Inv(w, s) && HeldInv(w, s) && ScopeInv(w, s)
    requires Next(w, s, a, t) && FitsAt(w, s, a)
    ensures ScopeInv(w, t)
  {
    if a.Commit? {
      var spec, me, mine, gone := CommitsAreCommitted(w, s, a, t);
      DeleteReachesOwnUnit(w, s, spec);
      CommitKeepsOwnersCompleted(s, t, me, mine, gone);
      CommitKeepsBelonging(w, s, me, spec, a.batch);
    } else {
      OnlyCommitsChangeTables(w, s, a, t);
    }
  }

  /** Where unit keys tell the DELETEs apart besides, no row is ever left without a completed batch. */
  lemma {:induction false} RunKeepsScopes(w: World, states: seq<State>, actions: seq<Action>, i: nat)
    requires Run(w, states, actions) && Disciplined(w, states, actions) && KeysFixScopes(w.specs) && i < |states|
    ensures ScopeInv(w, states[i])
    decreases i
  {
    if i > 0 {
      RunKeepsScopes(w, states, actions, i - 1);
      RunKeepsHeld(w, states, actions, i - 1);
      RunKeepsInv(w, states, actions, i - 1);
      assert NextAt(w, states, actions, i - 1);
      StepKeepsScopes(w, states[i - 1], actions[i - 1], states[i]);
    }
  }
}
