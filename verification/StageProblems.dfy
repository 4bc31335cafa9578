/** When a stage's executed scope counts as complete under a run: adoption, belongs_to_run and
    stage_problems (services/backfill_feature_factory.py, services/_batch_utils.py and
    services/corpus_rerun.py). */
module StageProblems {
  import opened Prelude
  import opened BatchIdentity

  type Key = BatchKey
  type RunId = string

  /** A completed provenance row counts for the run that loaded it, or for one that adopted exactly this
      batch key from exactly the run the row records. */
  predicate BelongsToRun(rowRun: Option<RunId>, key: Key, run: RunId, adoptions: map<Key, Option<RunId>>)
  {
    rowRun == Some(run) || (key in adoptions && adoptions[key] == rowRun)
  }

  /** A unit at planning: pending, or completed under some run or none. */
  datatype Planned = Pending | CompletedUnder(owner: Option<RunId>)

  datatype Unit = Unit(key: Key, planned: Planned)

  function Adoptions(scope: seq<Unit>, run: RunId): (adopted: map<Key, Option<RunId>>)
  {
    if scope == [] then map[]
    else
      var before, u := Adoptions(scope[..|scope| - 1], run), scope[|scope| - 1];
      if u.planned.CompletedUnder? && u.planned.owner != Some(run) then before[u.key := u.planned.owner] else before
  }

  ghost predicate DistinctKeys(scope: seq<Unit>)
  {
    forall i, j :: 0 <= i < j < |scope| ==> scope[i].key != scope[j].key
  }

  lemma {:induction false} AdoptedIff(scope: seq<Unit>, run: RunId, i: nat)
    requires DistinctKeys(scope) && i < |scope|
    ensures var adopted, u := Adoptions(scope, run), scope[i];
            && (u.key in adopted <==> u.planned.CompletedUnder? && u.planned.owner != Some(run))
            && (u.key in adopted ==> adopted[u.key] == u.planned.owner)
  {
    var last := |scope| - 1;
    if i < last {
      assert scope[i].key != scope[last].key;
      AdoptedIff(scope[..last], run, i);
    } else {
      OnlyPlannedKeys(scope[..last], run, scope[last].key);
    }
  }

  lemma {:induction false} OnlyPlannedKeys(scope: seq<Unit>, run: RunId, key: Key)
    requires forall i :: 0 <= i < |scope| ==> scope[i].key != key
    ensures key !in Adoptions(scope, run)
  {
    if scope != [] {
      OnlyPlannedKeys(scope[..|scope| - 1], run, key);
    }
  }

  datatype Problem =
    | UnitsFailed(n: nat)
    | UnitsAbandoned(n: nat)
    | DiskRefused
    | Missing(keys: seq<Key>)
    | Foreign(keys: seq<Key>)

  function MissingKeys(scope: seq<Unit>, rows: map<Key, Option<RunId>>): (keys: seq<Key>)
    ensures keys == [] <==> forall i :: 0 <= i < |scope| ==> scope[i].key in rows
  {
    if scope == [] then []
    else
      var u := scope[|scope| - 1];
      MissingKeys(scope[..|scope| - 1], rows) + if u.key !in rows then [u.key] else []
  }

  predicate IsForeign(u: Unit, rows: map<Key, Option<RunId>>, run: RunId, adopted: map<Key, Option<RunId>>)
  {
    u.key in rows && !BelongsToRun(rows[u.key], u.key, run, adopted)
  }

  function ForeignKeys(scope: seq<Unit>, rows: map<Key, Option<RunId>>, run: RunId, adopted: map<Key, Option<RunId>>)
      : (keys: seq<Key>)
    ensures keys == [] <==> forall i :: 0 <= i < |scope| ==> !IsForeign(scope[i], rows, run, adopted)
  {
    if scope == [] then []
    else
      var u := scope[|scope| - 1];
      ForeignKeys(scope[..|scope| - 1], rows, run, adopted) + if IsForeign(u, rows, run, adopted) then [u.key] else []
  }

  /** Nothing failed or was abandoned, and each unit of the scope has a completed row that is the run's own
      or adopted. */
  ghost predicate Clean(failed: nat, abandoned: nat, diskRefused: bool, scope: seq<Unit>, rows: map<Key, Option<RunId>>,
                        run: RunId)
  {
    && failed == 0 && abandoned == 0 && !diskRefused
    && forall i :: 0 <= i < |scope| ==>
         scope[i].key in rows && BelongsToRun(rows[scope[i].key], scope[i].key, run, Adoptions(scope, run))
  }

  /** stage_problems over the stage's summary and the completed rows of its scope. */
  method Problems(failed: nat, abandoned: nat, diskRefused: bool, scope: seq<Unit>, rows: map<Key, Option<RunId>>,
                  run: RunId) returns (problems: seq<Problem>)
    ensures problems == [] <==> Clean(failed, abandoned, diskRefused, scope, rows, run)
  {
    problems := [];
    if failed > 0 {
      problems := problems + [UnitsFailed(failed)];
    }
    if abandoned > 0 {
      problems := problems + [UnitsAbandoned(abandoned)];
    }
    if diskRefused {
      problems := problems + [DiskRefused];
    }
    var missing, foreign := MissingKeys(scope, rows), ForeignKeys(scope, rows, run, Adoptions(scope, run));
    if missing != [] {
      problems := problems + [Missing(missing)];
    }
    if foreign != [] {
      problems := problems + [Foreign(foreign)];
    }
  }

  /** A row completed at planning is still there, under the same run: completed rows are frozen. */
  ghost predicate RowsKept(scope: seq<Unit>, rows: map<Key, Option<RunId>>)
  {
    forall i :: 0 <= i < |scope| && scope[i].planned.CompletedUnder? ==>
      scope[i].key in rows && rows[scope[i].key] == scope[i].planned.owner
  }

  /** A unit's row is the run's own or adopted exactly when it was completed at planning or the run loaded it
      since: a unit another run completed meanwhile fails the step. */
  lemma UnitBelongsIff(scope: seq<Unit>, rows: map<Key, Option<RunId>>, run: RunId, i: nat)
    requires DistinctKeys(scope) && RowsKept(scope, rows) && i < |scope|
    ensures scope[i].key in rows && BelongsToRun(rows[scope[i].key], scope[i].key, run, Adoptions(scope, run)) <==>
              scope[i].planned.CompletedUnder? || (scope[i].key in rows && rows[scope[i].key] == Some(run))
  {
    AdoptedIff(scope, run, i);
  }
}
