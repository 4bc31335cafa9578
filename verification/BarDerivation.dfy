/** Applying a derivation to one symbol's stores: the grid stage's bars, revision log, flags, digests and
    load rows, and the daily stage's 1d bars (_plan_grid, _run_symbol, _write_derived, _run_daily_symbol,
    _write_daily and _apply_1d_delta of services/bar_derivation.py). A transaction either takes effect
    whole or leaves everything as it was. */
module BarDerivation {
  import opened Prelude
  import opened WriteContract

  const DERIVED_VENDOR := "derived"
  const DERIVED_KIND := "5m_grid"

  predicate IsDerived(b: Bar)
  {
    b.vendor == DERIVED_VENDOR && b.kind == DERIVED_KIND
  }

  datatype Outcome = Applied | Refused | Failed

  /** One ohlcv_load row; its id is its place in the log. */
  datatype LoadRow = LoadRow(tf: nat, outcome: Outcome, added: nat, changed: nat, same: nat, removed: nat)

  datatype FlagKey = FlagKey(tf: nat, ts: int, rule: string)

  datatype Flag = Flag(version: string, detail: string)

  datatype DigestKey = DigestKey(tf: nat, start: int)

  function LoadOf(tf: nat, outcome: Outcome, d: Delta<int>): LoadRow
  {
    LoadRow(tf, outcome, |d.added|, |d.changed|, d.same, |d.removed|)
  }

  function LoadsOf(deltas: seq<Delta<int>>, outcome: Outcome): (rows: seq<LoadRow>)
    ensures |rows| == |deltas|
  {
    seq(|deltas|, tf requires 0 <= tf < |deltas| => LoadOf(tf, outcome, deltas[tf]))
  }

  /** The revision rows of each load: the old values it displaced; none for a refused load. */
  function LogsOf(deltas: seq<Delta<int>>, outcome: Outcome): (logs: seq<map<int, Bar>>)
    ensures |logs| == |deltas|
  {
    seq(|deltas|, tf requires 0 <= tf < |deltas| => if outcome.Applied? then OldValues(deltas[tf]) else map[])
  }

  // ----- Flags ---------------------------------------------------------------------------------------

  function FlagWrites(desired: map<FlagKey, string>, flags: map<FlagKey, Flag>, version: string): map<FlagKey, Flag>
  {
    map k | k in desired && !(k in flags && flags[k] == Flag(version, desired[k])) :: Flag(version, desired[k])
  }

  function FlagDeletes(desired: map<FlagKey, string>, flags: map<FlagKey, Flag>): set<FlagKey>
  {
    set k | k in flags && k !in desired
  }

  function DesiredFlags(desired: map<FlagKey, string>, version: string): map<FlagKey, Flag>
  {
    map k | k in desired :: Flag(version, desired[k])
  }

  /** Deleting and writing the planned flags leaves exactly the desired ones. */
  lemma FlagsBecomeDesired(desired: map<FlagKey, string>, flags: map<FlagKey, Flag>, version: string)
    ensures (flags - FlagDeletes(desired, flags)) + FlagWrites(desired, flags, version) == DesiredFlags(desired, version)
  {
    var now := (flags - FlagDeletes(desired, flags)) + FlagWrites(desired, flags, version);
    assert now.Keys == DesiredFlags(desired, version).Keys;
  }

  lemma DesiredFlagsNeedNothing(desired: map<FlagKey, string>, version: string)
    ensures FlagWrites(desired, DesiredFlags(desired, version), version) == map[]
    ensures FlagDeletes(desired, DesiredFlags(desired, version)) == {}
  {
  }

  // ----- Digests ----------------------------------------------------------------------------------------

  function DigestWrites(rows: map<DigestKey, string>, current: map<DigestKey, string>): map<DigestKey, string>
  {
    map k | k in rows && !(k in current && current[k] == rows[k]) :: rows[k]
  }

  /** Writing the planned digests makes every given one current and leaves the others. */
  lemma DigestsBecomeCurrent(rows: map<DigestKey, string>, current: map<DigestKey, string>)
    ensures current + DigestWrites(rows, current) == current + rows
    ensures DigestWrites(rows, current + rows) == map[]
  {
  }

  // ----- The grid stage -------------------------------------------------------------------------------------

  predicate AllDerived(t: Table<int>)
  {
    forall k :: k in t ==> IsDerived(t[k])
  }

  function DerivedRows(t: Table<int>): Table<int>
  {
    map k | k in t && IsDerived(t[k]) :: t[k]
  }

  function GridDelta(derived: Table<int>, table: Table<int>): Delta<int>
  {
    DeltaOf(derived, DerivedRows(table), Some(DerivedRows(table).Keys))
  }

  ghost predicate Compares(derived: seq<Table<int>>, tables: seq<Table<int>>, tf: nat)
    requires tf < |tables| == |derived|
  {
    ComparesNaN(derived[tf], DerivedRows(tables[tf]))
  }

  ghost predicate HoldsVendorRows(tables: seq<Table<int>>)
  {
    exists tf :: 0 <= tf < |tables| && !AllDerived(tables[tf])
  }

  ghost predicate GridFails(derived: seq<Table<int>>, tables: seq<Table<int>>)
    requires |derived| == |tables|
  {
    || HoldsVendorRows(tables)
    || (exists tf :: 0 <= tf < |tables| && Compares(derived, tables, tf))
  }

  /** Some timeframe would lose too many of its stored bars. */
  ghost predicate GridRefuses(derived: seq<Table<int>>, tables: seq<Table<int>>, limits: Limits)
    requires |derived| == |tables|
  {
    exists tf :: 0 <= tf < |tables| && LosesTooMuch(DerivedRows(tables[tf]), derived[tf], limits)
  }

  /** Each timeframe with enough stored bars keeps its share of them. */
  ghost predicate GridKeeps(derived: seq<Table<int>>, tables: seq<Table<int>>, limits: Limits)
    requires |derived| == |tables|
  {
    forall tf :: 0 <= tf < |tables| && |DerivedRows(tables[tf])| >= limits.minStored ==>
      KeepsShare(|DerivedRows(tables[tf]).Keys * derived[tf].Keys|, |DerivedRows(tables[tf])|, limits.maxRatio)
  }

  lemma UnrefusedKeeps(derived: seq<Table<int>>, tables: seq<Table<int>>, limits: Limits)
    requires |derived| == |tables| && !GridRefuses(derived, tables, limits)
    ensures GridKeeps(derived, tables, limits)
  {
    forall tf | 0 <= tf < |tables| && |DerivedRows(tables[tf])| >= limits.minStored
      ensures KeepsShare(|DerivedRows(tables[tf]).Keys * derived[tf].Keys|, |DerivedRows(tables[tf])|, limits.maxRatio)
    {
      KeepsTheRest(DerivedRows(tables[tf]), derived[tf], limits);
    }
  }

  lemma RefusesAtIff(derived: seq<Table<int>>, tables: seq<Table<int>>, limits: Limits, tf: nat)
    requires tf < |tables| == |derived|
    ensures RefusesAt(derived, tables, limits, tf) <==> LosesTooMuch(DerivedRows(tables[tf]), derived[tf], limits)
  {
    var stored := DerivedRows(tables[tf]);
    RefusesRemovalIff(derived[tf], stored, stored.Keys, limits, false);
    assert Expected(derived[tf], stored, stored.Keys).Keys == derived[tf].Keys;
  }

  predicate RefusesAt(derived: seq<Table<int>>, tables: seq<Table<int>>, limits: Limits, tf: nat)
    requires tf < |tables| == |derived|
  {
    RefusesRemoval(GridDelta(derived[tf], tables[tf]), |DerivedRows(tables[tf])|, limits, false)
  }

  function GridDeltas(derived: seq<Table<int>>, tables: seq<Table<int>>): (deltas: seq<Delta<int>>)
    requires |derived| == |tables|
    ensures |deltas| == |tables|
  {
    seq(|tables|, tf requires 0 <= tf < |tables| => GridDelta(derived[tf], tables[tf]))
  }

  /** A stored row of another vendor or of another kind fails the grid; a load of one symbol reads and compares
      the derived grid's rows only. */
  lemma HoldsVendorRowsIff(tables: seq<Table<int>>)
    ensures HoldsVendorRows(tables) <==>
              exists tf, k :: 0 <= tf < |tables| && k in tables[tf]
                              && (tables[tf][k].vendor != "derived" || tables[tf][k].kind != "5m_grid")
    ensures forall tf, k :: 0 <= tf < |tables| ==>
              (k in DerivedRows(tables[tf]) <==>
                 k in tables[tf] && tables[tf][k].vendor == "derived" && tables[tf][k].kind == "5m_grid")
  {
    if HoldsVendorRows(tables) {
      var tf :| 0 <= tf < |tables| && !AllDerived(tables[tf]);
      var k :| k in tables[tf] && !IsDerived(tables[tf][k]);
      assert tables[tf][k].vendor != "derived" || tables[tf][k].kind != "5m_grid";
    }
    if tf, k :| 0 <= tf < |tables| && k in tables[tf]
                && (tables[tf][k].vendor != "derived" || tables[tf][k].kind != "5m_grid") {
      assert !IsDerived(tables[tf][k]);
    }
  }

  lemma DerivedRowsAreAll(t: Table<int>)
    requires AllDerived(t)
    ensures DerivedRows(t) == t
  {
    forall k | k in t
      ensures k in DerivedRows(t)
    {
      assert IsDerived(t[k]);
    }
  }

  lemma MoreVendorRows(tables: seq<Table<int>>, tf: nat)
    requires tf < |tables|
    ensures HoldsVendorRows(tables[..tf + 1]) <==> HoldsVendorRows(tables[..tf]) || !AllDerived(tables[tf])
  {
    if HoldsVendorRows(tables[..tf]) {
      var i :| 0 <= i < tf && !AllDerived(tables[..tf][i]);
      assert !AllDerived(tables[..tf + 1][i]);
    }
    if !AllDerived(tables[tf]) {
      assert !AllDerived(tables[..tf + 1][tf]);
    }
    if HoldsVendorRows(tables[..tf + 1]) && AllDerived(tables[tf]) {
      var i :| 0 <= i < tf + 1 && !AllDerived(tables[..tf + 1][i]);
      assert !AllDerived(tables[..tf][i]);
    }
  }

  ghost predicate AnyOf(found: seq<bool>)
  {
    exists i :: 0 <= i < |found| && found[i]
  }

  lemma OneMore(found: seq<bool>, b: bool)
    ensures AnyOf(found + [b]) == (AnyOf(found) || b)
  {
    if AnyOf(found) {
      var i :| 0 <= i < |found| && found[i];
      assert (found + [b])[i];
    }
    if b {
      assert (found + [b])[|found|];
    }
  }

  lemma AnyRefusal(derived: seq<Table<int>>, tables: seq<Table<int>>, limits: Limits, refused: seq<bool>)
    requires |derived| == |tables| == |refused|
    requires forall i {:trigger refused[i]} :: 0 <= i < |refused| ==> refused[i] == RefusesAt(derived, tables, limits, i)
    ensures GridRefuses(derived, tables, limits) == AnyOf(refused)
  {
    if GridRefuses(derived, tables, limits) {
      var tf :| 0 <= tf < |tables| && LosesTooMuch(DerivedRows(tables[tf]), derived[tf], limits);
      RefusesAtIff(derived, tables, limits, tf);
      assert refused[tf];
    }
    if AnyOf(refused) {
      var tf :| 0 <= tf < |refused| && refused[tf];
      RefusesAtIff(derived, tables, limits, tf);
    }
  }

  /** The rows of one symbol's grid timeframes, its grid flags, current digests and load rows, and the
      revision rows of each load. */
  class GridStore {
    var tables: seq<Table<int>>
    var flags: map<FlagKey, Flag>
    var digests: map<DigestKey, string>
    var loads: seq<LoadRow>
    var logs: seq<map<int, Bar>>

    ghost predicate Valid()
      reads this
    {
      |logs| == |loads|
    }

    /** One timeframe. */
    method PlanOne(derived: seq<Table<int>>, tf: nat, limits: Limits) returns (delta: Result<Delta<int>, string>, refused: bool)
      requires tf < |tables| == |derived|
      ensures delta.Err? <==> Compares(derived, tables, tf)
      ensures delta.Ok? ==> delta.value == GridDelta(derived[tf], tables[tf])
      ensures delta.Ok? ==> refused == RefusesAt(derived, tables, limits, tf)
    {
      var stored := DerivedRows(tables[tf]);
      delta := Classify(derived[tf], stored, Some(stored.Keys));
      refused := delta.Ok? && RefusesRemoval(delta.value, |stored|, limits, false);
    }

    /** Reads the stored grid and classifies it timeframe by timeframe. */
    method PlanGrid(derived: seq<Table<int>>, limits: Limits)
        returns (deltas: Result<seq<Delta<int>>, string>, vendorRows: bool, refuses: bool)
      requires |derived| == |tables|
      ensures deltas.Err? <==> exists tf :: 0 <= tf < |tables| && Compares(derived, tables, tf)
      ensures deltas.Ok? ==> deltas.value == GridDeltas(derived, tables)
      ensures deltas.Ok? ==> (vendorRows <==> HoldsVendorRows(tables))
      ensures deltas.Ok? ==> (refuses <==> GridRefuses(derived, tables, limits))
    {
      var found: seq<Delta<int>>, refused: seq<bool> := [], [];
      vendorRows, refuses := false, false;
      var tf := 0;
      while tf < |tables|
        invariant 0 <= tf <= |tables| && |found| == |refused| == tf
        invariant forall i :: 0 <= i < tf ==> !Compares(derived, tables, i)
        invariant forall i :: 0 <= i < tf ==> found[i] == GridDelta(derived[i], tables[i])
        invariant vendorRows <==> HoldsVendorRows(tables[..tf])
        invariant forall i {:trigger refused[i]} :: 0 <= i < tf ==> refused[i] == RefusesAt(derived, tables, limits, i)
        invariant refuses == AnyOf(refused)
      {
        MoreVendorRows(tables, tf);
        vendorRows := vendorRows || !AllDerived(tables[tf]);
        var delta, refusal := PlanOne(derived, tf, limits);
        if delta.Err? {
          return Err(delta.error), vendorRows, refuses;
        }
        OneMore(refused, refusal);
        refuses := refuses || refusal;
        found, refused := found + [delta.value], refused + [refusal];
        tf := tf + 1;
      }
      assert tables[..tf] == tables;
      AnyRefusal(derived, tables, limits, refused);
      deltas := Ok(found);
    }

    /** _write_derived: old values to the log, stale rows deleted, new rows inserted, changed rows upserted;
        nothing takes effect when a statement fails. */
    method WriteDerived(deltas: seq<Delta<int>>) returns (ok: bool)
      requires |deltas| == |tables|
      modifies this`tables, this`logs
      ensures ok <==> forall tf :: 0 <= tf < |deltas| ==> Write(old(tables)[tf], deltas[tf]).Ok?
      ensures ok ==>
                && |tables| == |deltas| && logs == old(logs) + LogsOf(deltas, Applied)
                && forall tf :: 0 <= tf < |deltas| ==> Write(old(tables)[tf], deltas[tf]) == Ok(tables[tf])
      ensures !ok ==> tables == old(tables) && logs == old(logs)
    {
      var written: seq<Table<int>>, log: seq<map<int, Bar>> := [], [];
      var tf := 0;
      while tf < |deltas|
        invariant 0 <= tf <= |deltas| && |written| == tf && |log| == tf
        invariant tables == old(tables) && logs == old(logs)
        invariant forall i :: 0 <= i < tf ==> log[i] == OldValues(deltas[i])
        invariant forall i :: 0 <= i < tf ==> Write(tables[i], deltas[i]) == Ok(written[i])
      {
        log := log + [OldValues(deltas[tf])];
        var after := Write(tables[tf], deltas[tf]);
        if after.Err? {
          return false;
        }
        written := written + [after.value];
        tf := tf + 1;
      }
      assert log == LogsOf(deltas, Applied);
      tables, logs := written, logs + log;
      ok := true;
    }

    /** One symbol of the grid stage with --apply. */
    method RunSymbol(derived: seq<Table<int>>, desired: map<FlagKey, string>, digestRows: map<DigestKey, string>,
                     version: string, limits: Limits) returns (outcome: Outcome)
      requires Valid() && |derived| == |tables| && forall tf :: 0 <= tf < |derived| ==> AllDerived(derived[tf])
      modifies this
      ensures Valid()
      ensures outcome.Failed? <==> GridFails(derived, old(tables))
      ensures outcome.Refused? <==> !GridFails(derived, old(tables)) && GridRefuses(derived, old(tables), limits)
      ensures outcome.Failed? ==> loads == old(loads) && logs == old(logs)
      ensures !outcome.Failed? ==>
                && loads == old(loads) + LoadsOf(GridDeltas(derived, old(tables)), outcome)
                && logs == old(logs) + LogsOf(GridDeltas(derived, old(tables)), outcome)
      ensures !outcome.Applied? ==> tables == old(tables) && flags == old(flags) && digests == old(digests)
      ensures outcome.Applied? ==> GridKeeps(derived, old(tables), limits)
      ensures outcome.Applied? ==>
                && tables == derived && flags == DesiredFlags(desired, version)
                && digests == old(digests) + digestRows
    {
      var planned, vendorRows, refuses := PlanGrid(derived, limits);
      if planned.Err? || vendorRows {
        return Failed;
      }
      outcome := if refuses then Refused else Applied;
      loads := loads + LoadsOf(planned.value, outcome);
      if refuses {
        logs := logs + LogsOf(planned.value, Refused);
        return;
      }
      UnrefusedKeeps(derived, tables, limits);
      GridWrites(derived, tables);
      var written := WriteDerived(planned.value);
      assert tables == derived;
      WriteFlags(desired, version);
      WriteDigests(digestRows);
    }

    /** Flags no longer produced are deleted, new and changed ones upserted. */
    method WriteFlags(desired: map<FlagKey, string>, version: string)
      modifies this`flags
      ensures flags == DesiredFlags(desired, version)
    {
      FlagsBecomeDesired(desired, flags, version);
      flags := (flags - FlagDeletes(desired, flags)) + FlagWrites(desired, flags, version);
    }

    method WriteDigests(digestRows: map<DigestKey, string>)
      modifies this`digests
      ensures digests == old(digests) + digestRows
    {
      DigestsBecomeCurrent(digestRows, digests);
      digests := digests + DigestWrites(digestRows, digests);
    }
  }

  /** Every planned write of the stored grid applies and gives the derived bars. */
  lemma GridWrites(derived: seq<Table<int>>, tables: seq<Table<int>>)
    requires |derived| == |tables| && forall tf :: 0 <= tf < |tables| ==> AllDerived(tables[tf])
    ensures forall tf :: 0 <= tf < |tables| ==>
              Write(tables[tf], GridDeltas(derived, tables)[tf]) == Ok(derived[tf])
  {
    forall tf | 0 <= tf < |tables|
      ensures Write(tables[tf], GridDeltas(derived, tables)[tf]) == Ok(derived[tf])
    {
      DerivedRowsAreAll(tables[tf]);
      WriteGivesExpected(derived[tf], tables[tf], tables[tf].Keys);
      FullScopeGivesIncoming(derived[tf], tables[tf]);
    }
  }

  /** An applied load can be undone: each timeframe's bars before it are its bars now, less the keys the load
      inserted, with the load's revision rows put back. */
  lemma AppliedLoadIsReversible(derived: seq<Table<int>>, tables: seq<Table<int>>, tf: nat)
    requires |derived| == |tables| && tf < |tables| && AllDerived(tables[tf])
    ensures var deltas := GridDeltas(derived, tables);
            Undo(derived[tf], LogsOf(deltas, Applied)[tf], deltas[tf].added.Keys) == tables[tf]
  {
    DerivedRowsAreAll(tables[tf]);
    FullScopeGivesIncoming(derived[tf], tables[tf]);
    UndoGivesStored(derived[tf], tables[tf], tables[tf].Keys);
  }

  lemma SecondDeltaIsEmpty(derived: Table<int>, limits: Limits)
    requires AllDerived(derived) && limits.maxRatio >= 0.0
    ensures !Plans(GridDelta(derived, derived))
    ensures !RefusesRemoval(GridDelta(derived, derived), |DerivedRows(derived)|, limits, false)
  {
    DerivedRowsAreAll(derived);
    FullScopeGivesIncoming(derived, derived);
    PlansNothingIff(derived, derived, derived.Keys);
    NothingPlannedNothingRefused(GridDelta(derived, derived), |DerivedRows(derived)|, limits, false);
  }

  /** A second run on the same inputs plans no bar, flag or digest write, and is not refused. */
  lemma SecondRunPlansNothing(derived: seq<Table<int>>, desired: map<FlagKey, string>, digestRows: map<DigestKey, string>,
                              digests: map<DigestKey, string>, version: string, limits: Limits)
    requires forall tf :: 0 <= tf < |derived| ==> AllDerived(derived[tf])
    requires limits.maxRatio >= 0.0
    ensures forall tf :: 0 <= tf < |derived| ==> !Plans(GridDelta(derived[tf], derived[tf]))
    ensures !GridRefuses(derived, derived, limits)
    ensures FlagWrites(desired, DesiredFlags(desired, version), version) == map[]
    ensures FlagDeletes(desired, DesiredFlags(desired, version)) == {}
    ensures DigestWrites(digestRows, digests + digestRows) == map[]
  {
    forall tf | 0 <= tf < |derived|
      ensures !Plans(GridDelta(derived[tf], derived[tf])) && !RefusesAt(derived, derived, limits, tf)
    {
      SecondDeltaIsEmpty(derived[tf], limits);
    }
    DesiredFlagsNeedNothing(desired, version);
    DigestsBecomeCurrent(digestRows, digests);
  }

  // ----- The daily stage ---------------------------------------------------------------------------------------

  datatype Days = Days(first: int, last: int)

  function CanonicalRows(t: Table<int>, canonical: Bar -> bool): Table<int>
  {
    map k | k in t && canonical(t[k]) :: t[k]
  }

  function OtherRows(t: Table<int>, canonical: Bar -> bool): Table<int>
  {
    map k | k in t && !canonical(t[k]) :: t[k]
  }

  /** The stored days inside the observed span. */
  function InSpan(stored: Table<int>, span: Days): set<int>
  {
    set k | k in stored && span.first <= k <= span.last
  }

  function DailyDelta(incoming: Table<int>, table: Table<int>, canonical: Bar -> bool, span: Days): Delta<int>
  {
    var stored := CanonicalRows(table, canonical);
    DeltaOf(incoming, stored, Some(InSpan(stored, span)))
  }

  /** An incoming day holds a row of another vendor or kind: its insert conflicts. */
  predicate Blocked(incoming: Table<int>, table: Table<int>, canonical: Bar -> bool)
  {
    exists k :: k in incoming && k in table && !canonical(table[k])
  }

  /** What the table should hold: rows of other vendors, and the canonical rows of a write. */
  function DailyExpected(incoming: Table<int>, table: Table<int>, canonical: Bar -> bool, span: Days): Table<int>
  {
    var stored := CanonicalRows(table, canonical);
    Expected(incoming, stored, InSpan(stored, span)) + OtherRows(table, canonical)
  }

  lemma BlockedConflicts(incoming: Table<int>, table: Table<int>, canonical: Bar -> bool, span: Days)
    requires Blocked(incoming, table, canonical)
    ensures Write(table, DailyDelta(incoming, table, canonical, span)) == Err(Conflict)
  {
    var d := DailyDelta(incoming, table, canonical, span);
    var k :| k in incoming && k in table && !canonical(table[k]);
    assert d.removed.Keys <= table.Keys;
    assert k in d.added && k in table - d.removed.Keys;
  }

  lemma UnblockedWrites(incoming: Table<int>, table: Table<int>, canonical: Bar -> bool, span: Days)
    requires !Blocked(incoming, table, canonical)
    ensures Write(table, DailyDelta(incoming, table, canonical, span)) ==
            Ok(DailyExpected(incoming, table, canonical, span))
  {
    var d := DailyDelta(incoming, table, canonical, span);
    var kept := table - d.removed.Keys;
    NoConflict(incoming, table, canonical, span);
    assert forall k :: k in d.added ==> k !in kept;
    WrittenRows(incoming, table, canonical, span);
    assert kept + d.added + NewValues(d) == DailyExpected(incoming, table, canonical, span);
  }

  lemma NoConflict(incoming: Table<int>, table: Table<int>, canonical: Bar -> bool, span: Days)
    requires !Blocked(incoming, table, canonical)
    ensures var d := DailyDelta(incoming, table, canonical, span);
            d.removed.Keys <= table.Keys && forall k :: k in d.added ==> k !in table - d.removed.Keys
  {
  }

  lemma WrittenAt(incoming: Table<int>, table: Table<int>, canonical: Bar -> bool, span: Days, k: int)
    requires !Blocked(incoming, table, canonical)
    ensures var d, expected := DailyDelta(incoming, table, canonical, span), DailyExpected(incoming, table, canonical, span);
            var now := table - d.removed.Keys + d.added + NewValues(d);
            (k in now <==> k in expected) && (k in now ==> now[k] == expected[k])
  {
  }

  lemma WrittenRows(incoming: Table<int>, table: Table<int>, canonical: Bar -> bool, span: Days)
    requires !Blocked(incoming, table, canonical)
    ensures var d := DailyDelta(incoming, table, canonical, span);
            table - d.removed.Keys + d.added + NewValues(d) == DailyExpected(incoming, table, canonical, span)
  {
    var d, expected := DailyDelta(incoming, table, canonical, span), DailyExpected(incoming, table, canonical, span);
    var now := table - d.removed.Keys + d.added + NewValues(d);
    forall k: int
      ensures k in now <==> k in expected
      ensures k in now ==> now[k] == expected[k]
    {
      WrittenAt(incoming, table, canonical, span, k);
    }
    assert now.Keys == expected.Keys;
    assert now == expected;
  }

  /** How the daily stage ends for a symbol. */
  function DailyOutcome(incoming: Table<int>, table: Table<int>, canonical: Bar -> bool, span: Days, limits: Limits,
                        waived: bool): Outcome
  {
    var stored := CanonicalRows(table, canonical);
    if ComparesNaN(incoming, stored) then Failed
    else if RefusesRemoval(DailyDelta(incoming, table, canonical, span), |stored|, limits, waived) then Refused
    else if Blocked(incoming, table, canonical) then Failed
    else Applied
  }

  /** With enough stored days, the load keeps its share of them. */
  ghost predicate DailyKeeps(incoming: Table<int>, table: Table<int>, canonical: Bar -> bool, span: Days, limits: Limits)
  {
    var stored := CanonicalRows(table, canonical);
    |stored| >= limits.minStored ==>
      KeepsShare(|stored.Keys * Expected(incoming, stored, InSpan(stored, span)).Keys|, |stored|, limits.maxRatio)
  }

  lemma DailyRefusalIff(incoming: Table<int>, table: Table<int>, canonical: Bar -> bool, span: Days, limits: Limits,
                        waived: bool)
    ensures var stored, outcome := CanonicalRows(table, canonical),
                                   DailyOutcome(incoming, table, canonical, span, limits, waived);
            var refuses := RefusesRemoval(DailyDelta(incoming, table, canonical, span), |stored|, limits, waived);
            && (outcome.Refused? <==> !ComparesNaN(incoming, stored) && refuses)
            && (outcome.Applied? ==> !refuses)
  {
  }

  lemma DailyRefusedIff(incoming: Table<int>, table: Table<int>, canonical: Bar -> bool, span: Days, limits: Limits,
                        waived: bool)
    ensures var stored, outcome := CanonicalRows(table, canonical),
                                   DailyOutcome(incoming, table, canonical, span, limits, waived);
            && (outcome.Refused? <==>
                  !ComparesNaN(incoming, stored) && !waived
                  && LosesTooMuch(stored, Expected(incoming, stored, InSpan(stored, span)), limits))
            && (outcome.Applied? && !waived ==> DailyKeeps(incoming, table, canonical, span, limits))
  {
    var stored := CanonicalRows(table, canonical);
    RefusesRemovalIff(incoming, stored, InSpan(stored, span), limits, waived);
    DailyRefusalIff(incoming, table, canonical, span, limits, waived);
    if |stored| >= limits.minStored && !LosesTooMuch(stored, Expected(incoming, stored, InSpan(stored, span)), limits) {
      KeepsTheRest(stored, Expected(incoming, stored, InSpan(stored, span)), limits);
    }
  }

  class DailyStore {
    var table: Table<int>
    var loads: seq<LoadRow>
    var logs: seq<map<int, Bar>>

    /** One symbol of the daily stage with --apply. `waived` is a recorded corporate action, policy change
        or restore since the last applied load. Only an applied load changes a bar or logs an old value;
        only a failed one leaves no load row. */
    method RunSymbol(incoming: Table<int>, canonical: Bar -> bool, span: Days, limits: Limits, waived: bool)
        returns (outcome: Outcome)
      modifies this
      ensures outcome == DailyOutcome(incoming, old(table), canonical, span, limits, waived)
      ensures outcome.Refused? <==>
                var stored := CanonicalRows(old(table), canonical);
                && !ComparesNaN(incoming, stored) && !waived
                && LosesTooMuch(stored, Expected(incoming, stored, InSpan(stored, span)), limits)
      ensures outcome.Applied? && !waived ==> DailyKeeps(incoming, old(table), canonical, span, limits)
      ensures table == if outcome.Applied? then DailyExpected(incoming, old(table), canonical, span) else old(table)
      ensures loads == old(loads) + if outcome.Failed? then []
                                    else [LoadOf(0, outcome, DailyDelta(incoming, old(table), canonical, span))]
      ensures logs == old(logs) + if outcome.Failed? then [] else if outcome.Refused? then [map[]]
                                  else [OldValues(DailyDelta(incoming, old(table), canonical, span))]
    {
      var delta;
      DailyRefusedIff(incoming, table, canonical, span, limits, waived);
      delta, outcome := Judge(incoming, canonical, span, limits, waived);
      if outcome.Applied? {
        ApplyDelta(incoming, delta, canonical, span);
      }
      if !outcome.Failed? {
        loads := loads + [LoadOf(0, outcome, delta)];
        logs := logs + [if outcome.Applied? then OldValues(delta) else map[]];
      }
    }

    /** Classifies the incoming days and decides; a write that would conflict fails. */
    method Judge(incoming: Table<int>, canonical: Bar -> bool, span: Days, limits: Limits, waived: bool)
        returns (delta: Delta<int>, outcome: Outcome)
      ensures outcome == DailyOutcome(incoming, table, canonical, span, limits, waived)
      ensures !outcome.Failed? ==> delta == DailyDelta(incoming, table, canonical, span)
    {
      var stored := CanonicalRows(table, canonical);
      var classified := Classify(incoming, stored, Some(InSpan(stored, span)));
      if classified.Err? {
        return Delta(map[], map[], 0, map[]), Failed;
      }
      delta := classified.value;
      if RefusesRemoval(delta, |stored|, limits, waived) {
        return delta, Refused;
      }
      var conflicts := Conflicts(incoming, delta, canonical, span);
      return delta, if conflicts then Failed else Applied;
    }

    /** _apply_1d_delta, once the write is known to go through. */
    method ApplyDelta(incoming: Table<int>, delta: Delta<int>, canonical: Bar -> bool, span: Days)
      requires delta == DailyDelta(incoming, table, canonical, span) && !Blocked(incoming, table, canonical)
      modifies this`table
      ensures table == DailyExpected(incoming, old(table), canonical, span)
    {
      UnblockedWrites(incoming, table, canonical, span);
      table := Write(table, delta).value;
    }

    /** Whether the insert meets another vendor's row. */
    method Conflicts(incoming: Table<int>, delta: Delta<int>, canonical: Bar -> bool, span: Days) returns (conflicts: bool)
      requires delta == DailyDelta(incoming, table, canonical, span)
      ensures conflicts == Blocked(incoming, table, canonical)
    {
      if Blocked(incoming, table, canonical) {
        BlockedConflicts(incoming, table, canonical, span);
      } else {
        UnblockedWrites(incoming, table, canonical, span);
      }
      conflicts := Write(table, delta).Err?;
    }
  }

  lemma CanonicalOfExpected(incoming: Table<int>, table: Table<int>, canonical: Bar -> bool, span: Days)
    requires !Blocked(incoming, table, canonical) && forall k :: k in incoming ==> canonical(incoming[k])
    ensures var stored := CanonicalRows(table, canonical);
            CanonicalRows(DailyExpected(incoming, table, canonical, span), canonical) ==
            Expected(incoming, stored, InSpan(stored, span))
  {
    var stored := CanonicalRows(table, canonical);
    var expected := Expected(incoming, stored, InSpan(stored, span));
    var now := CanonicalRows(DailyExpected(incoming, table, canonical, span), canonical);
    forall k
      ensures k in now <==> k in expected
    {
      if k in OtherRows(table, canonical) {
        assert k in table && !canonical(table[k]);
      }
    }
    assert forall k :: k in now ==> now[k] == expected[k];
  }

  /** After an applied daily load: inside the observed span the canonical days are exactly the incoming ones,
      and outside it every row is as it was. */
  lemma DailyLoadHolds(incoming: Table<int>, table: Table<int>, canonical: Bar -> bool, span: Days, k: int)
    requires !Blocked(incoming, table, canonical) && forall k :: k in incoming ==> canonical(incoming[k])
    requires forall k :: k in incoming ==> span.first <= k <= span.last
    ensures var now := DailyExpected(incoming, table, canonical, span);
            if span.first <= k <= span.last then
              && (k in CanonicalRows(now, canonical) <==> k in incoming)
              && (k in incoming ==> k in now && now[k] == incoming[k])
            else
              && (k in now <==> k in table) && (k in now ==> now[k] == table[k])
  {
    CanonicalOfExpected(incoming, table, canonical, span);
  }

  /** The canonical days before an applied daily load can be read back from its revision rows and inserted
      keys, and a second run on the same inputs plans nothing. */
  lemma DailyLoadIsReversible(incoming: Table<int>, table: Table<int>, canonical: Bar -> bool, span: Days)
    requires !Blocked(incoming, table, canonical) && forall k :: k in incoming ==> canonical(incoming[k])
    requires forall k :: k in incoming ==> span.first <= k <= span.last
    ensures var now, d := DailyExpected(incoming, table, canonical, span), DailyDelta(incoming, table, canonical, span);
            && Undo(CanonicalRows(now, canonical), OldValues(d), d.added.Keys) == CanonicalRows(table, canonical)
            && !Plans(DailyDelta(incoming, now, canonical, span))
  {
    var stored := CanonicalRows(table, canonical);
    CanonicalOfExpected(incoming, table, canonical, span);
    UndoGivesStored(incoming, stored, InSpan(stored, span));
    SecondWritePlansNothing(incoming, stored, InSpan(stored, span),
                            InSpan(Expected(incoming, stored, InSpan(stored, span)), span));
  }
}
