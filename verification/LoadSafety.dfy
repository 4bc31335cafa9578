/** What bulk_load promises over every run of LoadProtocol: loads happen once, replacements swap
    whole batches, provenance history is never rewritten, and a unit can always be retried. */
module LoadSafety {
  import opened Prelude
  import opened BatchIdentity
  import opened LoadProtocol
  import opened LoadInvariant

  // ----- The table and the completed batches ------------------------------------------------------

  /** The stored rows written by any generation of one batch key. */
  ghost function RowsOf(s: State, key: BatchKey): Table
  {
    map k | k in s.rows && k in s.owner && s.owner[k].key == key :: s.rows[k]
  }

  /** The stored rows a replacing unit's mapping names. */
  ghost function ScopeRows(s: State, spec: Spec): Table
  {
    map k | k in s.rows && InDeleteScope(spec, k, s.rows[k]) :: s.rows[k]
  }

  /** Row k of the table is one of the rows batch id streamed. */
  ghost predicate ComesFrom(s: State, id: BatchId, k: RowKey)
  {
    IsCompleted(s.prov, id) && id in s.streamed && k in s.streamed[id]
  }

  /** A settled batch streamed this row, and it is stored as streamed. */
  ghost predicate StoredFrom(s: State, id: BatchId, k: RowKey)
  {
    IsSettled(s.prov, id) && id in s.streamed && k in s.streamed[id] && k in s.rows && s.rows[k] == s.streamed[id][k]
  }

  /** No partial load is ever visible: a stored row is one a committed batch streamed, with its values, and
      of an append-only unit one its completed batch streamed. While every load streams rows of its own
      unit only, the completed batches' rows are all stored, and no two of them share a row; where unit keys
      tell the DELETEs apart besides, no other row is stored. */
  lemma TableIsUnionOfBatches(w: World, states: seq<State>, actions: seq<Action>, i: nat, k: RowKey)
    requires Run(w, states, actions) && i < |states|
    ensures var s := states[i];
            && (k in s.rows ==> k in s.owner && StoredFrom(s, s.owner[k], k))
            && (k in s.rows && s.owner[k].key.unit.where.None? ==> ComesFrom(s, s.owner[k], k))
    ensures Disciplined(w, states, actions) ==>
              var s := states[i];
              && (forall id :: ComesFrom(s, id, k) ==> k in s.rows && s.rows[k] == s.streamed[id][k])
              && (forall a, b :: ComesFrom(s, a, k) && ComesFrom(s, b, k) ==> a == b)
    ensures Disciplined(w, states, actions) && KeysFixScopes(w.specs) ==>
              (k in states[i].rows <==> exists id :: ComesFrom(states[i], id, k))
  {
    var s := states[i];
    RunKeepsInv(w, states, actions, i);
    if Disciplined(w, states, actions) {
      RunKeepsHeld(w, states, actions, i);
      forall id | ComesFrom(s, id, k)
        ensures k in s.rows && s.rows[k] == s.streamed[id][k] && s.owner[k] == id
      {
        assert HoldsAll(s.rows, s.owner, id, s.streamed[id]);
      }
      if KeysFixScopes(w.specs) && k in s.rows {
        RunKeepsScopes(w, states, actions, i);
        assert ComesFrom(s, s.owner[k], k);
      }
    }
  }

  /** An append-only key has at most its first generation. */
  lemma AppendOnlyHasOneGeneration(prov: Provenance, first: BatchId, id: BatchId)
    requires HistoryInv(prov) && SingleInv(prov) && id in prov
    requires id.key.unit.where.None? && first == BatchId(id.key, 1)
    ensures id == first
  {
  }

  /** Exactly once. An append-only unit has one provenance row at most. Until it is completed no row of the
      unit is stored; from then on only rows its one load streamed, and exactly those while no other load's
      mapping names them. The provenance row says how many it streamed. */
  lemma ExactlyOnce(w: World, states: seq<State>, actions: seq<Action>, i: nat, spec: Spec)
    requires Run(w, states, actions) && i < |states| && spec.replaceWhere.None?
    ensures var s := states[i];
            var only := BatchId(Key(spec), 1);
            && (forall g: nat :: BatchId(Key(spec), g) in s.prov ==> g == 1)
            && (!IsCompleted(s.prov, only) ==> RowsOf(s, Key(spec)) == map[])
            && (IsCompleted(s.prov, only) ==>
                  && only in s.streamed && s.prov[only].rowCount == Some(|s.streamed[only]|)
                  && PartOf(RowsOf(s, Key(spec)), s.streamed[only])
                  && (Disciplined(w, states, actions) ==> RowsOf(s, Key(spec)) == s.streamed[only]))
  {
    var s := states[i];
    var only := BatchId(Key(spec), 1);
    RunKeepsInv(w, states, actions, i);
    forall g: nat | BatchId(Key(spec), g) in s.prov
      ensures g == 1
    {
      AppendOnlyHasOneGeneration(s.prov, only, BatchId(Key(spec), g));
    }
    AppendOnlyRows(s, Key(spec));
    if IsCompleted(s.prov, only) && Disciplined(w, states, actions) {
      RunKeepsHeld(w, states, actions, i);
      HeldRowsAreAll(s, only);
    }
  }

  ghost predicate PartOf(some: Table, all: Table)
  {
    forall k :: k in some ==> k in all && some[k] == all[k]
  }

  lemma AppendOnlyRows(s: State, key: BatchKey)
    requires OwnerInv(s.prov, s.rows, s.owner, s.streamed) && SingleInv(s.prov) && key.unit.where.None?
    requires CountInv(s.prov, s.streamed)
    requires forall g: nat :: BatchId(key, g) in s.prov ==> g == 1
    ensures var only := BatchId(key, 1);
            && (IsCompleted(s.prov, only) ==> only in s.streamed && PartOf(RowsOf(s, key), s.streamed[only]))
            && (!IsCompleted(s.prov, only) ==> RowsOf(s, key) == map[])
  {
    var only := BatchId(key, 1);
    forall k | k in RowsOf(s, key)
      ensures s.owner[k] == only && IsCompleted(s.prov, only) && k in s.streamed[only] && s.rows[k] == s.streamed[only][k]
    {
      assert IsSettled(s.prov, s.owner[k]);
      assert s.owner[k] == BatchId(key, s.owner[k].generation);
    }
  }

  lemma HeldRowsAreAll(s: State, only: BatchId)
    requires BatchesHeld(s.prov, s.rows, s.owner, s.streamed) && IsCompleted(s.prov, only) && only in s.streamed
    requires PartOf(RowsOf(s, only.key), s.streamed[only])
    ensures RowsOf(s, only.key) == s.streamed[only]
  {
    assert HoldsAll(s.rows, s.owner, only, s.streamed[only]);
    forall k
      ensures k in RowsOf(s, only.key) <==> k in s.streamed[only]
    {
    }
  }

  lemma ScopeIsTheBatch(w: World, s: State, spec: Spec, id: BatchId)
    requires OwnerInv(s.prov, s.rows, s.owner, s.streamed) && SingleInv(s.prov) && CountInv(s.prov, s.streamed)
    requires BatchesHeld(s.prov, s.rows, s.owner, s.streamed)
    requires forall k :: k in s.owner ==> IsCompleted(s.prov, s.owner[k])
    requires DeletesUnit(s.rows, s.owner, UnitOf(spec), Deleted(spec, s.rows))
    requires spec.replaceWhere.Some? && IsCompleted(s.prov, id) && id.key.unit == UnitOf(spec)
    ensures id in s.streamed && ScopeRows(s, spec) == s.streamed[id]
  {
    assert HoldsAll(s.rows, s.owner, id, s.streamed[id]);
    forall k | k in s.rows
      ensures k in Deleted(spec, s.rows) <==> k in s.streamed[id]
      ensures k in s.streamed[id] ==> s.rows[k] == s.streamed[id][k]
    {
      assert IsCompleted(s.prov, s.owner[k]);
    }
  }

  /** Replacement. A replacing unit has at most one completed row. In a disciplined run, where unit keys tell
      the DELETEs apart, the rows its mapping names are exactly that batch's rows, or none when nothing is
      completed. */
  lemma ScopeIsTheCurrentBatch(w: World, states: seq<State>, actions: seq<Action>, i: nat, spec: Spec)
    requires Run(w, states, actions) && i < |states| && spec in w.specs && spec.replaceWhere.Some?
    ensures var s := states[i];
            forall a, b ::
              (IsCompleted(s.prov, a) && a.key.unit == UnitOf(spec) &&
               IsCompleted(s.prov, b) && b.key.unit == UnitOf(spec)) ==> a == b
    ensures Disciplined(w, states, actions) && KeysFixScopes(w.specs) ==>
              var s := states[i];
              && (forall id :: IsCompleted(s.prov, id) && id.key.unit == UnitOf(spec) ==>
                    && id in s.streamed && ScopeRows(s, spec) == s.streamed[id]
                    && s.prov[id].rowCount == Some(|ScopeRows(s, spec)|))
              && ((forall id :: IsCompleted(s.prov, id) ==> id.key.unit != UnitOf(spec)) ==>
                    ScopeRows(s, spec) == map[])
  {
    RunKeepsInv(w, states, actions, i);
    if Disciplined(w, states, actions) && KeysFixScopes(w.specs) {
      RunKeepsHeld(w, states, actions, i);
      RunKeepsScopes(w, states, actions, i);
      CurrentScope(w, states[i], spec);
    }
  }

  lemma CurrentScope(w: World, s: State, spec: Spec)
    requires Inv(w, s) && HeldInv(w, s) && ScopeInv(w, s) && spec in w.specs && spec.replaceWhere.Some?
    ensures forall id :: IsCompleted(s.prov, id) && id.key.unit == UnitOf(spec) ==>
              && id in s.streamed && ScopeRows(s, spec) == s.streamed[id]
              && s.prov[id].rowCount == Some(|ScopeRows(s, spec)|)
    ensures (forall id :: IsCompleted(s.prov, id) ==> id.key.unit != UnitOf(spec)) ==> ScopeRows(s, spec) == map[]
  {
    DeleteReachesOwnUnit(w, s, spec);
    forall id | IsCompleted(s.prov, id) && id.key.unit == UnitOf(spec)
      ensures id in s.streamed && ScopeRows(s, spec) == s.streamed[id]
    {
      ScopeIsTheBatch(w, s, spec, id);
    }
    forall k | k in s.rows && k in Deleted(spec, s.rows)
      ensures IsCompleted(s.prov, s.owner[k]) && s.owner[k].key.unit == UnitOf(spec)
    {
    }
  }

  // ----- What a step leaves alone -------------------------------------------------------------------

  ghost predicate CommitsUnit(s: State, a: Action, unit: UnitKey)
  {
    a.Commit? && a.sid in s.sessions && UnitOf(s.sessions[a.sid].spec) == unit
  }

  /** The stored rows of one unit, whatever the batch. */
  ghost function UnitRows(rows: Table, owner: map<RowKey, BatchId>, unit: UnitKey): Table
  {
    map k | k in rows && k in owner && owner[k].key.unit == unit :: rows[k]
  }

  /** The unit has the same completed rows of provenance in both states. */
  ghost predicate SameBatches(prov: Provenance, next: Provenance, unit: UnitKey)
  {
    forall id: BatchId :: id.key.unit == unit ==>
      && (IsCompleted(next, id) <==> IsCompleted(prov, id))
      && (IsCompleted(prov, id) ==> next[id] == prov[id])
  }

  lemma FlipLeavesOtherUnits(prov: Provenance, me: BatchId, n: nat, unit: UnitKey)
    requires me.key.unit != unit
    ensures SameBatches(prov, Flipped(me.key.unit, prov, me, n), unit)
  {
  }

  lemma OtherUnitsSurviveACommit(s: State, t: State, me: BatchId, mine: Table, gone: set<RowKey>, unit: UnitKey)
    requires Committed(s, t, me, mine, gone) && DeletesWithin(s.rows, s.owner, me.key.unit, gone)
    requires me.key.unit != unit
    ensures UnitRows(t.rows, t.owner, unit) == UnitRows(s.rows, s.owner, unit)
  {
    forall k
      ensures k in UnitRows(t.rows, t.owner, unit) <==> k in UnitRows(s.rows, s.owner, unit)
      ensures k in UnitRows(s.rows, s.owner, unit) ==> t.rows[k] == s.rows[k]
    {
    }
  }

  /** Only the data transaction of the unit itself changes the unit's completed batch, and, while every load
      streams rows of its own unit only, its rows: a refusal, a failed transaction, a lost failure mark, a
      kill or another unit's load leaves both exactly as they were. */
  lemma OnlyItsOwnCommitTouchesAUnit(w: World, s: State, a: Action, t: State, unit: UnitKey)
    requires Inv(w, s) && Next(w, s, a, t) && !CommitsUnit(s, a, unit)
    ensures SameBatches(s.prov, t.prov, unit)
    ensures !a.Commit? || HeldInv(w, s) ==> UnitRows(t.rows, t.owner, unit) == UnitRows(s.rows, s.owner, unit)
  {
    if a.Commit? {
      var spec, me, mine, gone := CommitsAreCommitted(w, s, a, t);
      FlipLeavesOtherUnits(s.prov, me, |mine|, unit);
      if HeldInv(w, s) {
        DeleteStaysInUnit(w, s, spec);
        OtherUnitsSurviveACommit(s, t, me, mine, gone, unit);
      }
    } else {
      OnlyCommitsChangeTables(w, s, a, t);
    }
  }

  // ----- Provenance is history ------------------------------------------------------------------------

  /** The guard trigger of provenance_batch (migrations 386, 416, 418, 578): the moves an UPDATE may
      make, and what a completed or superseded row may change. */
  predicate GuardAllows(was: Batch, next: Batch)
  {
    || next == was
    || (was.status == Started && next.status in {Started, Failed, Completed}
        && (next.runId != was.runId ==> next.status == Started))
    || (was.status == Failed && next.status == Started)
    || (was.status == Completed && next == was.(status := Superseded))
  }

  /** The guard's transitions, or no change. */
  predicate StatusMoves(was: Status, next: Status)
  {
    match was
    case Started => next in {Started, Completed, Failed}
    case Failed => next in {Failed, Started}
    case Completed => next in {Completed, Superseded}
    case Superseded => next == Superseded
  }

  ghost predicate Follows(prov: Provenance, next: Provenance)
  {
    forall id :: id in prov ==> id in next && GuardAllows(prov[id], next[id])
  }

  lemma OpeningPassesTheGuard(s: State, t: State, sid: SessionId, spec: Spec, g: nat)
    requires t == OpenAt(s, sid, spec, g) && BatchId(Key(spec), g + 1) !in s.prov
    ensures Follows(s.prov, t.prov)
  {
  }

  lemma FlipPassesTheGuard(prov: Provenance, me: BatchId, n: nat)
    requires me in prov && prov[me].status == Started
    ensures Follows(prov, Flipped(me.key.unit, prov, me, n))
  {
  }

  /** No step deletes a provenance row or makes an update the guard would refuse. */
  lemma StepsPassTheGuard(w: World, s: State, a: Action, t: State)
    requires Inv(w, s) && Next(w, s, a, t)
    ensures Follows(s.prov, t.prov)
  {
    if a.Open? {
      var spec := s.sessions[a.sid].spec;
      OpeningPassesTheGuard(s, t, a.sid, spec, Latest(s.prov, Key(spec)));
    } else if a.Commit? {
      var spec, me, mine, gone := CommitsAreCommitted(w, s, a, t);
      FlipPassesTheGuard(s.prov, me, |mine|);
    } else if a.MarkFailed? {
      assert s.prov[IdOf(s.sessions[a.sid])].status == Started;
    }
  }

  lemma RunStepFollows(w: World, states: seq<State>, actions: seq<Action>, i: nat)
    requires Run(w, states, actions) && i < |actions|
    ensures Follows(states[i].prov, states[i + 1].prov)
  {
    RunKeepsInv(w, states, actions, i);
    assert NextAt(w, states, actions, i);
    StepsPassTheGuard(w, states[i], actions[i], states[i + 1]);
  }

  /** In every run each provenance row makes the guard's transitions only. */
  lemma StatusesMove(w: World, states: seq<State>, actions: seq<Action>, i: nat, id: BatchId)
    requires Run(w, states, actions) && i < |actions| && id in states[i].prov
    ensures id in states[i + 1].prov && StatusMoves(states[i].prov[id].status, states[i + 1].prov[id].status)
  {
    RunStepFollows(w, states, actions, i);
  }

  /** A completed row can only keep its content or be superseded with the same content. */
  predicate Settled(was: Batch, later: Batch)
  {
    later == was || (was.status == Completed && later == was.(status := Superseded))
  }

  /** Over any stretch of a run a superseded row never changes again, a completed row changes only
      by being superseded, and no row disappears. */
  lemma {:induction false} HistoryIsNeverRewritten(w: World, states: seq<State>, actions: seq<Action>,
                                                   i: nat, j: nat, id: BatchId)
    requires Run(w, states, actions) && i <= j < |states| && id in states[i].prov
    ensures id in states[j].prov
    ensures states[i].prov[id].status in {Completed, Superseded} ==>
              Settled(states[i].prov[id], states[j].prov[id])
    decreases j - i
  {
    if i < j {
      HistoryIsNeverRewritten(w, states, actions, i, j - 1, id);
      RunStepFollows(w, states, actions, j - 1);
    }
  }

  /** The generations of a key are 1..n with no gap, and every one below n is superseded. */
  lemma GenerationsAreContiguous(w: World, states: seq<State>, actions: seq<Action>, i: nat, key: BatchKey)
    requires Run(w, states, actions) && i < |states|
    ensures var n := Latest(states[i].prov, key);
            && (forall g: nat :: BatchId(key, g) in states[i].prov <==> 1 <= g <= n)
            && (forall g: nat :: 1 <= g < n ==> BatchId(key, g) in states[i].prov
                                                && states[i].prov[BatchId(key, g)].status == Superseded)
  {
    var prov := states[i].prov;
    RunKeepsInv(w, states, actions, i);
    var n := Latest(prov, key);
    var top := BatchId(key, n);
    if n == 0 {
      assert forall id :: id in prov && id.key == key ==> id.generation == 0;
    }
    forall g: nat | 1 <= g < n
      ensures BatchId(key, g) in prov && prov[BatchId(key, g)].status == Superseded
    {
      assert top in prov && BatchId(top.key, g) == BatchId(key, g);
    }
  }

  // ----- What was streamed is what is stored ----------------------------------------------------------

  /** Step i of the run is the data transaction of this batch. */
  ghost predicate CommitsBatch(states: seq<State>, actions: seq<Action>, i: nat, id: BatchId)
    requires i < |actions| < |states|
  {
    && actions[i].Commit? && actions[i].sid in states[i].sessions
    && states[i].sessions[actions[i].sid].Opened?
    && IdOf(states[i].sessions[actions[i].sid]) == id
  }

  /** The data transaction of a batch finds its row started, leaves it completed, and records its
      rows; any other step leaves what the batch streamed alone. */
  lemma RunStepStreams(w: World, states: seq<State>, actions: seq<Action>, i: nat, id: BatchId)
    requires Run(w, states, actions) && i < |actions|
    ensures CommitsBatch(states, actions, i, id) ==>
              && id in states[i].prov && states[i].prov[id].status == Started
              && IsCompleted(states[i + 1].prov, id)
              && id in states[i + 1].streamed
              && states[i + 1].streamed[id] == Keyed(w, id.key.unit.target, actions[i].batch)
    ensures !CommitsBatch(states, actions, i, id) ==>
              && (id in states[i + 1].streamed <==> id in states[i].streamed)
              && (id in states[i].streamed ==> states[i + 1].streamed[id] == states[i].streamed[id])
  {
    var s, a, t := states[i], actions[i], states[i + 1];
    RunKeepsInv(w, states, actions, i);
    assert NextAt(w, states, actions, i);
    if a.Commit? {
      var spec, me, mine, gone := CommitsAreCommitted(w, s, a, t);
    } else {
      OnlyCommitsChangeTables(w, s, a, t);
    }
  }

  /** The run of the session whose data transaction step i is. */
  ghost function CommittingRun(states: seq<State>, actions: seq<Action>, i: nat): Option<string>
    requires i < |actions| < |states| && actions[i].Commit? && actions[i].sid in states[i].sessions
  {
    states[i].sessions[actions[i].sid].spec.runId
  }

  /** A data transaction leaves its row completed under its own session's run, counted, without an error and
      with the attempts it has taken. */
  lemma CommitStampsItsRun(w: World, states: seq<State>, actions: seq<Action>, i: nat, id: BatchId)
    requires Run(w, states, actions) && i < |actions| && CommitsBatch(states, actions, i, id)
    ensures id in states[i].prov && id in states[i + 1].prov
    ensures states[i + 1].prov[id] == Batch(Completed, Some(|actions[i].batch|), states[i].prov[id].attempts, None,
                                            CommittingRun(states, actions, i))
  {
    RunKeepsInv(w, states, actions, i);
    assert NextAt(w, states, actions, i);
  }

  /** Another batch that is completed after a step was completed before it. */
  lemma OnlyItsCommitCompletes(w: World, states: seq<State>, actions: seq<Action>, i: nat, id: BatchId)
    requires Run(w, states, actions) && i < |actions| && !CommitsBatch(states, actions, i, id)
    requires IsCompleted(states[i + 1].prov, id)
    ensures IsCompleted(states[i].prov, id)
  {
    var s, a, t := states[i], actions[i], states[i + 1];
    RunKeepsInv(w, states, actions, i);
    assert NextAt(w, states, actions, i);
    if a.Commit? {
      var spec, me, mine, gone := CommitsAreCommitted(w, s, a, t);
      assert id != me;
    } else {
      OnlyCommitsChangeTables(w, s, a, t);
    }
  }

  /** A completed batch's row names the run of the session whose data transaction completed it: a load that
      takes a row over stamps it anew. */
  lemma {:induction false} CompletedUnderItsRun(w: World, states: seq<State>, actions: seq<Action>, i: nat, id: BatchId)
      returns (at: nat)
    requires Run(w, states, actions) && i < |states| && IsCompleted(states[i].prov, id)
    ensures at < i && CommitsBatch(states, actions, at, id)
    ensures states[i].prov[id].runId == CommittingRun(states, actions, at)
    decreases i
  {
    if CommitsBatch(states, actions, i - 1, id) {
      at := i - 1;
      CommitStampsItsRun(w, states, actions, at, id);
    } else {
      OnlyItsCommitCompletes(w, states, actions, i - 1, id);
      at := CompletedUnderItsRun(w, states, actions, i - 1, id);
      HistoryIsNeverRewritten(w, states, actions, i - 1, i, id);
    }
  }

  /** What a settled batch streamed is never restated. */
  lemma {:induction false} StreamedIsKept(w: World, states: seq<State>, actions: seq<Action>,
                                          i: nat, j: nat, id: BatchId)
    requires Run(w, states, actions) && i <= j < |states|
    requires id in states[i].prov && states[i].prov[id].status in {Completed, Superseded}
    requires id in states[i].streamed
    ensures id in states[j].streamed && states[j].streamed[id] == states[i].streamed[id]
    decreases j - i
  {
    if i < j {
      StreamedIsKept(w, states, actions, i, j - 1, id);
      HistoryIsNeverRewritten(w, states, actions, i, j - 1, id);
      RunStepStreams(w, states, actions, j - 1, id);
    }
  }

  /** The rows recorded for a batch are the rows of one data transaction that really happened. */
  lemma {:induction false} StreamedWasCommitted(w: World, states: seq<State>, actions: seq<Action>,
                                                i: nat, id: BatchId) returns (at: nat)
    requires Run(w, states, actions) && i < |states| && id in states[i].streamed
    ensures at < i && CommitsBatch(states, actions, at, id)
    ensures states[i].streamed[id] == Keyed(w, id.key.unit.target, actions[at].batch)
    decreases i
  {
    RunStepStreams(w, states, actions, i - 1, id);
    if CommitsBatch(states, actions, i - 1, id) {
      at := i - 1;
    } else {
      at := StreamedWasCommitted(w, states, actions, i - 1, id);
    }
  }

  /** No batch is committed twice in a run. */
  lemma CommittedOnce(w: World, states: seq<State>, actions: seq<Action>, i: nat, j: nat, id: BatchId)
    requires Run(w, states, actions) && i < j < |actions|
    requires CommitsBatch(states, actions, i, id)
    ensures !CommitsBatch(states, actions, j, id)
  {
    RunStepStreams(w, states, actions, i, id);
    RunStepStreams(w, states, actions, j, id);
    HistoryIsNeverRewritten(w, states, actions, i + 1, j, id);
  }

  /** An append-only unit that is completed stays completed, under the same row, for good, and with the same
      rows while every load streams rows of its own unit only. */
  lemma CompletedLoadIsFinal(w: World, states: seq<State>, actions: seq<Action>, i: nat, j: nat, spec: Spec)
    requires Run(w, states, actions) && i <= j < |states| && spec.replaceWhere.None?
    requires IsCompleted(states[i].prov, BatchId(Key(spec), 1))
    ensures IsCompleted(states[j].prov, BatchId(Key(spec), 1))
    ensures states[j].prov[BatchId(Key(spec), 1)] == states[i].prov[BatchId(Key(spec), 1)]
    ensures Disciplined(w, states, actions) ==> RowsOf(states[j], Key(spec)) == RowsOf(states[i], Key(spec))
  {
    var only := BatchId(Key(spec), 1);
    HistoryIsNeverRewritten(w, states, actions, i, j, only);
    assert IsCompleted(states[j].prov, only) by {
      RunKeepsInv(w, states, actions, j);
      assert only.key.unit.where.None?;
    }
    ExactlyOnce(w, states, actions, i, spec);
    ExactlyOnce(w, states, actions, j, spec);
    StreamedIsKept(w, states, actions, i, j, only);
  }

  // ----- A unit can always be loaded ----------------------------------------------------------------------

  /** A completed batch with these rows, counted on its provenance row and stored. */
  ghost predicate HoldsBatch(s: State, id: BatchId, batch: Table)
  {
    && IsCompleted(s.prov, id) && s.prov[id].rowCount == Some(|batch|)
    && HoldsAll(s.rows, s.owner, id, batch)
  }

  lemma OpeningStartsALoad(s: State, t: State, sid: SessionId, spec: Spec, g: nat)
    requires t == OpenAt(s, sid, spec, g) && !IsCompleted(s.prov, BatchId(Key(spec), g))
    ensures sid in t.sessions && t.sessions[sid].Opened? && t.sessions[sid].spec == spec
    ensures BatchId(Key(spec), t.sessions[sid].generation) in t.prov
    ensures t.rows == s.rows
  {
    var last := BatchId(Key(spec), g);
    if last !in s.prov || s.prov[last].status == Superseded {
      assert t.sessions[sid] == Opened(spec, g + 1);
    } else {
      assert t.sessions[sid] == Opened(spec, g);
    }
  }

  lemma LockingLeavesTables(w: World, s: State, sid: SessionId, spec: Spec) returns (t: State)
    requires Inv(w, s) && sid !in s.sessions && spec in w.specs && Key(spec) !in s.locks
    ensures Next(w, s, TryLock(sid, spec), t) && Inv(w, t) && t.prov == s.prov && t.rows == s.rows
    ensures sid in t.sessions && t.sessions[sid] == Locked(spec)
  {
    t := Apply(w, s, TryLock(sid, spec));
    StepKeepsInv(w, s, TryLock(sid, spec), t);
  }

  lemma OpeningLeavesRows(w: World, s: State, sid: SessionId, spec: Spec) returns (t: State)
    requires Inv(w, s) && sid in s.sessions && s.sessions[sid] == Locked(spec)
    requires !IsCompleted(s.prov, BatchId(Key(spec), Latest(s.prov, Key(spec))))
    ensures Next(w, s, Open(sid), t) && Inv(w, t) && t.rows == s.rows
    ensures sid in t.sessions && t.sessions[sid].Opened? && t.sessions[sid].spec == spec
    ensures BatchId(Key(spec), t.sessions[sid].generation) in t.prov
  {
    t := OpenStep(s, sid, spec);
    OpeningStartsALoad(s, t, sid, spec, Latest(s.prov, Key(spec)));
    StepKeepsInv(w, s, Open(sid), t);
  }

  lemma OpenedLoadCommits(w: World, s: State, sid: SessionId, spec: Spec, batch: seq<Row>)
      returns (t: State, me: BatchId)
    requires Inv(w, s) && sid in s.sessions && s.sessions[sid].Opened? && s.sessions[sid].spec == spec
    requires BatchId(Key(spec), s.sessions[sid].generation) in s.prov
    requires Accepts(w, spec, s.rows, batch)
    ensures Next(w, s, Commit(sid, batch), t)
    ensures me.key == Key(spec) && HoldsBatch(t, me, Keyed(w, spec.target, batch))
  {
    t := CommitStep(w, s, sid, spec, s.sessions[sid].generation, batch);
    var same, id, mine, gone := CommitsAreCommitted(w, s, Commit(sid, batch), t);
    CommittedBatchIsHeld(s, t, id, mine, gone);
    me := id;
  }

  lemma CommittedBatchIsHeld(s: State, t: State, me: BatchId, mine: Table, gone: set<RowKey>)
    requires Committed(s, t, me, mine, gone)
    ensures HoldsBatch(t, me, mine)
  {
  }

  /** Whatever kills, refusals and failures came before, a session that gets the lock of a unit
      that is not completed can load it: a row left started or failed is taken over, a superseded
      one gets the next generation. */
  lemma RetryAlwaysPossible(w: World, s: State, sid: SessionId, spec: Spec, batch: seq<Row>)
      returns (locked: State, begun: State, loaded: State, me: BatchId)
    requires Inv(w, s) && sid !in s.sessions && spec in w.specs && Key(spec) !in s.locks
    requires !IsCompleted(s.prov, BatchId(Key(spec), Latest(s.prov, Key(spec))))
    requires Accepts(w, spec, s.rows, batch)
    ensures Next(w, s, TryLock(sid, spec), locked)
    ensures Next(w, locked, Open(sid), begun)
    ensures Next(w, begun, Commit(sid, batch), loaded)
    ensures me.key == Key(spec) && HoldsBatch(loaded, me, Keyed(w, spec.target, batch))
  {
    locked := LockingLeavesTables(w, s, sid, spec);
    begun := OpeningLeavesRows(w, locked, sid, spec);
    loaded, me := OpenedLoadCommits(w, begun, sid, spec, batch);
  }

  // ----- When two units can share a target -------------------------------------------------------------

  /** A completed batch keeps all its rows across another unit's load exactly when none of its rows
      matches that load's mapping. Nothing else about the two units matters. */
  lemma BatchSurvivesIff(rows: Table, owner: map<RowKey, BatchId>, id: BatchId, batch: Table,
                         spec: Spec, me: BatchId, mine: Table, rows': Table, owner': map<RowKey, BatchId>)
    requires HoldsAll(rows, owner, id, batch) && id != me
    requires mine.Keys !! (rows.Keys - Deleted(spec, rows))
    requires RowsAfter(rows, rows', mine, Deleted(spec, rows))
    requires OwnerAfter(owner, owner', me, mine, Deleted(spec, rows))
    ensures HoldsAll(rows', owner', id, batch) <==>
              forall k :: k in batch ==> !InDeleteScope(spec, k, batch[k])
  {
    forall k | k in batch
      ensures k in Deleted(spec, rows) <==> InDeleteScope(spec, k, batch[k])
      ensures k in rows' && k in owner' && owner'[k] == id <==> k !in Deleted(spec, rows)
    {
      assert k in rows && rows[k] == batch[k];
    }
  }

  /** Two units that differ only in tf share a mapping, so the second load deletes the first one's
      row and leaves its batch completed with a row count of 1. */
  lemma UnitsOfTwoTimeframesDoNotCoexist(w: World, a: Spec, b: Spec, s: State, sid: SessionId)
    requires a.replaceWhere == Some(map["job" := Exactly(Label("drift"))])
    requires b == a.(tf := "1h") && a.tf == "1d"
    requires var k := KeyOf(w, a.target, map["job" := Label("drift")]);
             var one := map[k := map["job" := Label("drift")]];
             s == State(map[BatchId(Key(a), 1) := Batch(Completed, Some(1), 1, None, None)], one, map[],
                        map[], map[k := BatchId(Key(a), 1)], map[BatchId(Key(a), 1) := one])
    ensures UnitOf(a) != UnitOf(b)
    ensures var t := CommitStep(w, s, sid, b, 1, []);
            && IsCompleted(t.prov, BatchId(Key(a), 1)) && t.prov[BatchId(Key(a), 1)].rowCount == Some(1)
            && t.rows == map[]
  {
    var row: Row := map["job" := Label("drift")];
    var k := KeyOf(w, a.target, row);
    assert Matches(b.replaceWhere.value, row);
    assert InDeleteScope(b, k, row);
    assert k in Deleted(b, s.rows);
    assert Keyed(w, b.target, []) == map[];
  }

  // ----- Where the flip and the DELETE part ------------------------------------------------------------

  /** The flip goes by the printed mapping and the DELETE by its values: a completed batch of the same
      unit key is always retired, but keeps each row the loading mapping does not name. */
  lemma RetiredBatchKeepsRowIff(w: World, s: State, sid: SessionId, spec: Spec, g: nat, batch: seq<Row>, id: BatchId,
                                k: RowKey)
    requires spec.replaceWhere.Some? && id.key.unit == UnitOf(spec) && id != BatchId(Key(spec), g)
    requires IsCompleted(s.prov, id) && Accepts(w, spec, s.rows, batch)
    requires k in s.rows && k in s.owner && s.owner[k] == id
    ensures var t := CommitStep(w, s, sid, spec, g, batch);
            && id in t.prov && t.prov[id].status == Superseded
            && (k in t.rows && k in t.owner && t.owner[k] == id <==> !InDeleteScope(spec, k, s.rows[k]))
  {
    var t := CommitStep(w, s, sid, spec, g, batch);
    var mine, gone := Keyed(w, spec.target, batch), Deleted(spec, s.rows);
    ReplacingRows(s.rows, s.owner, BatchId(Key(spec), g), mine, gone);
    assert k in gone <==> InDeleteScope(spec, k, s.rows[k]);
  }

  /** A mapping that asks for a missing value shares its unit key with one that asks for the text
      "None": its load deletes nothing and retires the other's batch, whose row then stays stored
      with no completed batch behind it. */
  lemma RetiredButNotDeleted(w: World, a: Spec, b: Spec, s: State, sid: SessionId)
    requires a.replaceWhere == Some(map["job" := Exactly(Label("None"))])
    requires b == a.(replaceWhere := Some(map["job" := Exactly(Null)]), inputDigest := b.inputDigest)
    requires b.inputDigest != a.inputDigest
    requires var k := KeyOf(w, a.target, map["job" := Label("None")]);
             var one := map[k := map["job" := Label("None")]];
             s == State(map[BatchId(Key(a), 1) := Batch(Completed, Some(1), 1, None, None)], one, map[],
                        map[], map[k := BatchId(Key(a), 1)], map[BatchId(Key(a), 1) := one])
    ensures UnitOf(a) == UnitOf(b) && Key(a) != Key(b)
    ensures var t := CommitStep(w, s, sid, b, 1, []);
            && t.prov[BatchId(Key(a), 1)].status == Superseded
            && t.rows == s.rows && forall id, k :: k in t.rows ==> !ComesFrom(t, id, k)
  {
    var row: Row := map["job" := Label("None")];
    var k, id := KeyOf(w, a.target, row), BatchId(Key(a), 1);
    UnitsAgree(a, b);
    assert Keyed(w, b.target, []) == map[];
    assert !Matches(b.replaceWhere.value, row);
    assert s.rows[k] == row && Deleted(b, s.rows) == {};
    RetiredBatchKeepsRowIff(w, s, sid, b, 1, [], id, k);
  }
}
