/** The write contract's pure core: incoming rows against stored rows (src/intelligence/bars/
    write_contract.py), and what applying a delta does to a table. */
module WriteContract {
  import opened Prelude

  datatype Num = Real(x: real) | NaN

  datatype Bar = Bar(
    open: Option<Num>,
    high: Option<Num>,
    low: Option<Num>,
    close: Option<Num>,
    volume: Option<int>,
    vendor: string,
    kind: string)

  type Table<!K> = map<K, Bar>

  predicate HasNaN(b: Bar)
  {
    b.open == Some(NaN) || b.high == Some(NaN) || b.low == Some(NaN) || b.close == Some(NaN)
  }

  datatype Delta<!K> = Delta(
    added: map<K, Bar>,
    changed: map<K, (Bar, Bar)>,
    same: nat,
    removed: map<K, Bar>)

  // ----- What a delta is ---------------------------------------------------------------------------

  /** A NaN was compared: in an incoming row, or in the stored row of its key. */
  predicate ComparesNaN<K>(incoming: Table<K>, stored: Table<K>)
  {
    exists k :: k in incoming && (HasNaN(incoming[k]) || (k in stored && HasNaN(stored[k])))
  }

  function NewRows<K>(incoming: Table<K>, stored: Table<K>): map<K, Bar>
  {
    map k | k in incoming && k !in stored :: incoming[k]
  }

  function ChangedRows<K>(incoming: Table<K>, stored: Table<K>): map<K, (Bar, Bar)>
  {
    map k | k in incoming && k in stored && incoming[k] != stored[k] :: (incoming[k], stored[k])
  }

  function SameKeys<K>(incoming: Table<K>, stored: Table<K>): set<K>
  {
    set k | k in incoming && k in stored && incoming[k] == stored[k]
  }

  /** Stored rows of the scope that incoming no longer has; without a scope nothing is removed. */
  function RemovedRows<K>(incoming: Table<K>, stored: Table<K>, scope: Option<set<K>>): map<K, Bar>
  {
    if scope.None? then map[]
    else map k | k in stored && k in scope.value && k !in incoming :: stored[k]
  }

  function DeltaOf<K>(incoming: Table<K>, stored: Table<K>, scope: Option<set<K>>): Delta<K>
  {
    Delta(NewRows(incoming, stored), ChangedRows(incoming, stored), |SameKeys(incoming, stored)|,
          RemovedRows(incoming, stored, scope))
  }

  lemma OneMoreNew<K>(seen: Table<K>, stored: Table<K>, k: K, v: Bar)
    requires k !in seen
    ensures NewRows(seen[k := v], stored) == if k in stored then NewRows(seen, stored) else NewRows(seen, stored)[k := v]
  {
  }

  lemma OneMoreChanged<K>(seen: Table<K>, stored: Table<K>, k: K, v: Bar)
    requires k !in seen
    ensures ChangedRows(seen[k := v], stored) ==
            if k in stored && v != stored[k] then ChangedRows(seen, stored)[k := (v, stored[k])]
            else ChangedRows(seen, stored)
  {
  }

  lemma OneMoreSame<K>(seen: Table<K>, stored: Table<K>, k: K, v: Bar)
    requires k !in seen
    ensures |SameKeys(seen[k := v], stored)| == |SameKeys(seen, stored)| + if k in stored && v == stored[k] then 1 else 0
  {
    assert SameKeys(seen[k := v], stored) == SameKeys(seen, stored) + if k in stored && v == stored[k] then {k} else {};
  }

  lemma OneMoreCompared<K>(seen: Table<K>, stored: Table<K>, k: K, v: Bar)
    requires k !in seen && !ComparesNaN(seen, stored)
    ensures ComparesNaN(seen[k := v], stored) <==> HasNaN(v) || (k in stored && HasNaN(stored[k]))
  {
    if HasNaN(v) || (k in stored && HasNaN(stored[k])) {
      assert k in seen[k := v];
    }
  }

  lemma StillCompares<K>(seen: Table<K>, incoming: Table<K>, stored: Table<K>)
    requires seen.Items <= incoming.Items && ComparesNaN(seen, stored)
    ensures ComparesNaN(incoming, stored)
  {
    var k :| k in seen && (HasNaN(seen[k]) || (k in stored && HasNaN(stored[k])));
    assert (k, seen[k]) in incoming.Items;
  }

  /** A row whose four prices are each missing or a number. */
  ghost predicate IsClean(b: Bar)
  {
    forall x :: x in [b.open, b.high, b.low, b.close] ==> x.None? || x.value.Real?
  }

  /** A comparison stays clear of NaN exactly when each incoming row and the stored row it meets are clean. */
  lemma ComparesNaNIff<K>(incoming: Table<K>, stored: Table<K>)
    ensures !ComparesNaN(incoming, stored) <==>
              forall k :: k in incoming ==> IsClean(incoming[k]) && (k in stored ==> IsClean(stored[k]))
  {
    if ComparesNaN(incoming, stored) {
      var k :| k in incoming && (HasNaN(incoming[k]) || (k in stored && HasNaN(stored[k])));
      NaNIsNotClean(incoming[k]);
      if k in stored {
        NaNIsNotClean(stored[k]);
      }
    } else {
      forall k | k in incoming
        ensures IsClean(incoming[k]) && (k in stored ==> IsClean(stored[k]))
      {
        NaNIsNotClean(incoming[k]);
        if k in stored {
          NaNIsNotClean(stored[k]);
        }
      }
    }
  }

  lemma NaNIsNotClean(b: Bar)
    ensures HasNaN(b) <==> !IsClean(b)
  {
    var prices := [b.open, b.high, b.low, b.close];
    assert prices[0] == b.open && prices[1] == b.high && prices[2] == b.low && prices[3] == b.close;
  }

  /** classify: the loop over the incoming rows, and the removals. NaN is equal to nothing, itself
      included, so it never passes for an unchanged row. */
  method Classify<K(==)>(incoming: Table<K>, stored: Table<K>, scope: Option<set<K>>) returns (r: Result<Delta<K>, string>)
    ensures r.Err? <==> ComparesNaN(incoming, stored)
    ensures r.Ok? ==> r.value == DeltaOf(incoming, stored, scope)
  {
    var added: map<K, Bar>, changed: map<K, (Bar, Bar)>, same: nat := map[], map[], 0;
    var todo := incoming.Keys;
    ghost var seen: Table<K> := map[];
    while todo != {}
      invariant todo <= incoming.Keys && seen == incoming - todo && !ComparesNaN(seen, stored)
      invariant added == NewRows(seen, stored) && changed == ChangedRows(seen, stored)
      invariant same == |SameKeys(seen, stored)|
      decreases todo
    {
      var key :| key in todo;
      var values := incoming[key];
      ghost var next := seen[key := values];
      OneMoreCompared(seen, stored, key, values);
      if HasNaN(values) || (key in stored && HasNaN(stored[key])) {
        StillCompares(next, incoming, stored);
        return Err("missing is None, never NaN");
      }
      OneMoreNew(seen, stored, key, values);
      OneMoreChanged(seen, stored, key, values);
      OneMoreSame(seen, stored, key, values);
      if key !in stored {
        added := added[key := values];
      } else if values == stored[key] {
        same := same + 1;
      } else {
        changed := changed[key := (values, stored[key])];
      }
      todo, seen := todo - {key}, next;
    }
    assert seen == incoming;
    r := Ok(Delta(added, changed, same, RemovedRows(incoming, stored, scope)));
  }

  // ----- What applying it does ----------------------------------------------------------------------

  /** The rows whose old values are kept: changed and removed ones. */
  function OldValues<K>(d: Delta<K>): map<K, Bar>
  {
    map k | k in d.changed.Keys + d.removed.Keys :: if k in d.changed then d.changed[k].1 else d.removed[k]
  }

  function NewValues<K>(d: Delta<K>): map<K, Bar>
  {
    map k | k in d.changed :: d.changed[k].0
  }

  datatype WriteError = Stale | Conflict

  /** Stale rows deleted (all of them, or the write fails), new rows inserted (none of them there, or the
      write fails), changed rows upserted. */
  function Write<K(!new)>(table: Table<K>, d: Delta<K>): (r: Result<Table<K>, WriteError>)
  {
    if !(d.removed.Keys <= table.Keys) then Err(Stale)
    else
      var kept := table - d.removed.Keys;
      if exists k :: k in d.added && k in kept then Err(Conflict)
      else Ok(kept + d.added + NewValues(d))
  }

  /** What a table should hold after a write: the incoming rows, and outside the scope what it held. */
  function Expected<K>(incoming: Table<K>, stored: Table<K>, scope: set<K>): Table<K>
  {
    map k | k in incoming.Keys + (stored.Keys - scope) :: if k in incoming then incoming[k] else stored[k]
  }

  /** Undoing a write from its revision rows and the keys it inserted. */
  function Undo<K>(now: Table<K>, old_: map<K, Bar>, inserted: set<K>): Table<K>
  {
    (now - inserted) + old_
  }

  /** A delta of what the table holds always applies, and gives the incoming rows inside the scope and the
      table's own outside it. */
  lemma WriteGivesExpected<K(!new)>(incoming: Table<K>, stored: Table<K>, scope: set<K>)
    ensures Write(stored, DeltaOf(incoming, stored, Some(scope))) == Ok(Expected(incoming, stored, scope))
  {
    var d := DeltaOf(incoming, stored, Some(scope));
    var kept := stored - d.removed.Keys;
    var now := kept + d.added + NewValues(d);
    assert d.removed.Keys <= stored.Keys;
    assert forall k :: k in d.added ==> k !in kept;
    assert now.Keys == Expected(incoming, stored, scope).Keys;
    assert forall k :: k in now ==> now[k] == Expected(incoming, stored, scope)[k];
    assert now == Expected(incoming, stored, scope);
  }

  /** When the scope is everything stored, the table becomes the incoming rows. */
  lemma FullScopeGivesIncoming<K>(incoming: Table<K>, stored: Table<K>)
    ensures Expected(incoming, stored, stored.Keys) == incoming
  {
  }

  /** The revision rows and the inserted keys give the table before the write back. */
  lemma UndoGivesStored<K(!new)>(incoming: Table<K>, stored: Table<K>, scope: set<K>)
    ensures var d := DeltaOf(incoming, stored, Some(scope));
            Undo(Expected(incoming, stored, scope), OldValues(d), d.added.Keys) == stored
  {
    var d := DeltaOf(incoming, stored, Some(scope));
    var back := Undo(Expected(incoming, stored, scope), OldValues(d), d.added.Keys);
    assert back.Keys == stored.Keys;
    assert forall k :: k in back ==> back[k] == stored[k];
  }

  predicate Plans<K>(d: Delta<K>)
  {
    d.added != map[] || d.changed != map[] || d.removed != map[]
  }

  /** Writing the same rows again plans nothing, for any scope that reaches no further than the first: what
      the first write left inside its scope is the incoming rows. */
  lemma SecondWritePlansNothing<K(!new)>(incoming: Table<K>, stored: Table<K>, scope: set<K>, again: set<K>)
    requires again * stored.Keys <= scope
    ensures !Plans(DeltaOf(incoming, Expected(incoming, stored, scope), Some(again)))
  {
    var now := Expected(incoming, stored, scope);
    assert NewRows(incoming, now) == map[];
    assert ChangedRows(incoming, now) == map[];
    assert RemovedRows(incoming, now, Some(again)) == map[];
  }

  /** And conversely: a write plans nothing only when the scope already held exactly the incoming rows. */
  lemma PlansNothingIff<K(!new)>(incoming: Table<K>, stored: Table<K>, scope: set<K>)
    ensures !Plans(DeltaOf(incoming, stored, Some(scope))) <==> Expected(incoming, stored, scope) == stored
  {
    var d, now := DeltaOf(incoming, stored, Some(scope)), Expected(incoming, stored, scope);
    if !Plans(d) {
      UndoGivesStored(incoming, stored, scope);
      assert OldValues(d) == map[];
      assert now - {} == now && now + map[] == now;
    } else if now == stored {
      SecondWritePlansNothing(incoming, stored, scope, scope);
    }
  }

  /** Every stored row is new-valued, kept, or in the log, never silently lost: the old value of a key that
      changed or vanished is in the revision rows, and of no other key. */
  lemma LoggedIff<K(!new)>(incoming: Table<K>, stored: Table<K>, scope: set<K>, k: K)
    requires k in stored
    ensures var now := Expected(incoming, stored, scope);
            k in OldValues(DeltaOf(incoming, stored, Some(scope))) <==> k !in now || now[k] != stored[k]
    ensures k in OldValues(DeltaOf(incoming, stored, Some(scope))) ==>
              OldValues(DeltaOf(incoming, stored, Some(scope)))[k] == stored[k]
  {
  }

  // ----- Ratios --------------------------------------------------------------------------------------------

  datatype Limits = Limits(maxRatio: real, minStored: int)

  function RevisionRatio<K>(d: Delta<K>, nStored: nat): real
  {
    if nStored <= 0 then 0.0 else (|d.changed| + |d.removed|) as real / nStored as real
  }

  predicate RevisionFlagged<K>(d: Delta<K>, nStored: nat, limits: Limits)
  {
    nStored >= limits.minStored && RevisionRatio(d, nStored) > limits.maxRatio
  }

  predicate OverRatio(part: nat, all: nat, ratio: real)
    requires all > 0
  {
    part as real / all as real > ratio
  }

  predicate RefusesRemoval<K>(d: Delta<K>, nStored: nat, limits: Limits, waived: bool)
  {
    if waived || nStored < limits.minStored || nStored <= 0 then false
    else OverRatio(|d.removed|, nStored, limits.maxRatio)
  }

  /** Going from one table to the other loses more than the allowed share of enough keys. */
  predicate LosesTooMuch<K>(before: Table<K>, after: Table<K>, limits: Limits)
  {
    |before| >= limits.minStored && |before| > 0 && TooMany(|before.Keys - after.Keys|, |before|, limits.maxRatio)
  }

  predicate TooMany(part: nat, all: nat, ratio: real)
  {
    part as real > ratio * all as real
  }

  lemma OverRatioIff(part: nat, all: nat, ratio: real)
    requires all > 0
    ensures OverRatio(part, all, ratio) <==> TooMany(part, all, ratio)
  {
    var x, w := part as real, all as real;
    assert x / w * w == x;
    if x / w > ratio {
      assert (x / w - ratio) * w > 0.0;
    } else {
      assert (ratio - x / w) * w >= 0.0;
    }
  }

  /** At least all but that share. */
  predicate KeepsShare(kept: nat, all: nat, ratio: real)
  {
    kept as real >= (1.0 - ratio) * all as real
  }

  lemma RestIsKept(lost: nat, kept: nat, all: nat, ratio: real)
    requires lost + kept == all
    ensures KeepsShare(kept, all, ratio) <==> !TooMany(lost, all, ratio)
  {
    assert all == 0 ==> ratio * all as real == 0.0;
    assert kept as real == all as real - lost as real;
    assert (1.0 - ratio) * all as real == all as real - ratio * all as real;
  }

  /** A write is refused for removal exactly when it is not waived and would lose too many of the stored
      keys. */
  lemma RefusesRemovalIff<K>(incoming: Table<K>, stored: Table<K>, scope: set<K>, limits: Limits, waived: bool)
    ensures RefusesRemoval(DeltaOf(incoming, stored, Some(scope)), |stored|, limits, waived) <==>
              !waived && LosesTooMuch(stored, Expected(incoming, stored, scope), limits)
  {
    var d, after := DeltaOf(incoming, stored, Some(scope)), Expected(incoming, stored, scope);
    assert d.removed.Keys == stored.Keys - after.Keys;
    assert |d.removed| == |d.removed.Keys|;
    if |stored| > 0 {
      OverRatioIff(|d.removed|, |stored|, limits.maxRatio);
    }
  }

  /** The keys whose stored row a write replaces or deletes. */
  function Revised<K>(before: Table<K>, after: Table<K>): set<K>
  {
    set k | k in before && (k !in after || after[k] != before[k])
  }

  /** A write is flagged exactly when it revises too many of enough stored rows. */
  lemma RevisionFlaggedIff<K(!new)>(incoming: Table<K>, stored: Table<K>, scope: set<K>, limits: Limits)
    requires limits.maxRatio >= 0.0
    ensures RevisionFlagged(DeltaOf(incoming, stored, Some(scope)), |stored|, limits) <==>
              && |stored| >= limits.minStored && |stored| > 0
              && TooMany(|Revised(stored, Expected(incoming, stored, scope))|, |stored|, limits.maxRatio)
  {
    RevisedRows(incoming, stored, scope);
    FlaggedByNumber(DeltaOf(incoming, stored, Some(scope)), |stored|, limits);
  }

  lemma RevisedRows<K(!new)>(incoming: Table<K>, stored: Table<K>, scope: set<K>)
    ensures var d := DeltaOf(incoming, stored, Some(scope));
            |Revised(stored, Expected(incoming, stored, scope))| == |d.changed| + |d.removed|
  {
    RevisedAreLogged(incoming, stored, scope);
    ChangedOrRemoved(incoming, stored, Some(scope));
    LoggedRows(DeltaOf(incoming, stored, Some(scope)));
  }

  lemma RevisedAreLogged<K(!new)>(incoming: Table<K>, stored: Table<K>, scope: set<K>)
    ensures Revised(stored, Expected(incoming, stored, scope)) == OldValues(DeltaOf(incoming, stored, Some(scope))).Keys
  {
    var revised := Revised(stored, Expected(incoming, stored, scope));
    var logged := OldValues(DeltaOf(incoming, stored, Some(scope)));
    forall k
      ensures k in revised <==> k in logged
    {
      if k in stored {
        LoggedIff(incoming, stored, scope, k);
      } else {
        OnlyStoredIsLogged(incoming, stored, Some(scope), k);
      }
    }
  }

  lemma OnlyStoredIsLogged<K>(incoming: Table<K>, stored: Table<K>, scope: Option<set<K>>, k: K)
    requires k !in stored
    ensures k !in OldValues(DeltaOf(incoming, stored, scope))
  {
  }

  lemma ChangedOrRemoved<K>(incoming: Table<K>, stored: Table<K>, scope: Option<set<K>>)
    ensures DeltaOf(incoming, stored, scope).changed.Keys !! DeltaOf(incoming, stored, scope).removed.Keys
  {
  }

  lemma LoggedRows<K>(d: Delta<K>)
    requires d.changed.Keys !! d.removed.Keys
    ensures |OldValues(d).Keys| == |d.changed| + |d.removed|
  {
    assert OldValues(d).Keys == d.changed.Keys + d.removed.Keys;
    assert |d.changed| == |d.changed.Keys| && |d.removed| == |d.removed.Keys|;
  }

  lemma FlaggedByNumber<K>(d: Delta<K>, nStored: nat, limits: Limits)
    requires limits.maxRatio >= 0.0
    ensures RevisionFlagged(d, nStored, limits) <==>
              nStored >= limits.minStored && nStored > 0 && TooMany(|d.changed| + |d.removed|, nStored, limits.maxRatio)
  {
    if nStored > 0 {
      OverRatioIff(|d.changed| + |d.removed|, nStored, limits.maxRatio);
    }
  }

  /** A table that does not lose too much keeps the rest of its keys. */
  lemma KeepsTheRest<K>(before: Table<K>, after: Table<K>, limits: Limits)
    requires !LosesTooMuch(before, after, limits) && |before| >= limits.minStored
    ensures KeepsShare(|before.Keys * after.Keys|, |before|, limits.maxRatio)
    ensures |before.Keys * after.Keys| as real >= (1.0 - limits.maxRatio) * |before| as real
  {
    LostAndKept(before, after);
    RestIsKept(|before.Keys - after.Keys|, |before.Keys * after.Keys|, |before|, limits.maxRatio);
  }

  lemma LostAndKept<K>(before: Table<K>, after: Table<K>)
    ensures |before.Keys - after.Keys| + |before.Keys * after.Keys| == |before|
  {
    var lost, kept := before.Keys - after.Keys, before.Keys * after.Keys;
    assert lost + kept == before.Keys && lost !! kept;
    assert |before.Keys| == |before|;
  }

  lemma Proportion(a: nat, b: nat, n: nat, ratio: real)
    requires n > 0 && OverRatio(a, n, ratio) && a <= b
    ensures b as real / n as real > ratio
  {
    var x, y, w := a as real, b as real, n as real;
    var d := y - x;
    assert d >= 0.0;
    assert (x + d) / w == x / w + d / w;
    assert d / w >= 0.0;
  }

  /** A refused write is always also one that would have been flagged. */
  lemma RefusedIsFlagged<K>(d: Delta<K>, nStored: nat, limits: Limits, waived: bool)
    requires RefusesRemoval(d, nStored, limits, waived)
    ensures RevisionFlagged(d, nStored, limits)
  {
    Proportion(|d.removed|, |d.changed| + |d.removed|, nStored, limits.maxRatio);
  }

  /** A write that plans nothing is neither flagged nor refused. */
  lemma NothingPlannedNothingRefused<K>(d: Delta<K>, nStored: nat, limits: Limits, waived: bool)
    requires !Plans(d) && limits.maxRatio >= 0.0
    ensures !RevisionFlagged(d, nStored, limits) && !RefusesRemoval(d, nStored, limits, waived)
  {
    if nStored > 0 {
      assert 0.0 / nStored as real == 0.0;
    }
  }
}
