/** A unit from its workers' rows to its COPY: what the spools hold is always accepted by the load's own
    checks, and the load writes every kept row exactly once. */
module SpoolLoad {
  import opened Prelude
  import opened Civil
  import opened DiskBudget
  import opened BatchIdentity
  import opened LoadStream
  import opened LoadStore
  import opened Spool
  import opened SpoolUnit

  function LabelOrNull(o: Option<string>): Cell
  {
    if o.Some? then Label(o.value) else Null
  }

  /** The tuple read_spool_rows yields for a row. */
  function ToTuple(row: FeatureRow): (t: Tuple)
    ensures |t| == 5 + |row.values| && t[2] == Instant(row.us)
  {
    [Label(row.symbol), Label(row.tf), Instant(row.us), LabelOrNull(row.regime), LabelOrNull(row.volatility)]
    + seq(|row.values|, i requires 0 <= i < |row.values| =>
        if row.values[i].Some? then Number(row.values[i].value) else Null)
  }

  function Tuples(rows: Stream): (ts: seq<Tuple>)
    ensures |ts| == |rows| && forall i :: 0 <= i < |rows| ==> ts[i] == ToTuple(rows[i])
  {
    seq(|rows|, i requires 0 <= i < |rows| => ToTuple(rows[i]))
  }

  /** The COPY of the feature table: the time is the third column, and the producer has clamped. */
  predicate FeatureFormat(f: Format)
  {
    f.width >= 5 && f.timeIdx == 2 && f.preclamped
  }

  predicate FitsUnit(spec: Spec, f: Format, row: FeatureRow)
  {
    spec.rangeStart <= row.us < spec.rangeEnd && 5 + |row.values| == f.width
  }

  /** A preclamped tuple is stored as it is. */
  lemma StoredUnchanged(f: Format, t: Tuple)
    requires f.preclamped
    ensures Stored(f, t) == t
  {
  }

  /** Rows of the unit in time order pass every check of the load. */
  lemma InOrderIsClean(spec: Spec, f: Format, rows: Stream)
    requires FeatureFormat(f) && InTimeOrder(rows)
    requires forall i :: 0 <= i < |rows| ==> FitsUnit(spec, f, rows[i])
    ensures Clean(spec, f, Tuples(rows))
  {
    forall i | 0 <= i < |rows|
      ensures FaultAt(spec, f, Tuples(rows), i) == None
    {
      assert FitsUnit(spec, f, rows[i]);
      if i > 0 {
        assert rows[i - 1].us <= rows[i].us;
      }
    }
  }

  /** One symbol's part of a unit: its bar times, which of them trade, and its feature rows. */
  datatype Part = Part(times: seq<Time>, isTrading: int -> bool, rowAt: int -> FeatureRow)

  ghost predicate GoodPart(p: Printer, f: Format, part: Part, firstRow: nat, range: Span)
  {
    && Ascending(part.times)
    && forall k: int :: k in Kept(part.times, range, firstRow, part.isTrading) ==> GoodRow(p, f, part, k)
  }

  /** A kept row carries its bar's time and the columns of the COPY, and its texts hold no line break. */
  ghost predicate GoodRow(p: Printer, f: Format, part: Part, k: int)
  {
    && 0 <= k < |part.times| && part.rowAt(k).us == part.times[k] && 5 + |part.rowAt(k).values| == f.width
    && RowPrints(p, part.rowAt(k)) && Spoolable(part.rowAt(k)) && ReturnFree(part.rowAt(k))
  }

  function KeptRows(part: Part, firstRow: nat, range: Span): Stream
  {
    RowsAt(Kept(part.times, range, firstRow, part.isTrading), part.rowAt)
  }

  lemma KeptRowsAreGood(p: Printer, f: Format, part: Part, firstRow: nat, range: Span)
    requires GoodPart(p, f, part, firstRow, range)
    ensures var rows := KeptRows(part, firstRow, range);
            AllPrint(p, rows) && AllSpoolable(rows) && AllReturnFree(rows)
  {
    var kept := Kept(part.times, range, firstRow, part.isTrading);
    forall i | 0 <= i < |kept|
      ensures GoodRow(p, f, part, kept[i])
    {
      assert kept[i] in kept;
    }
  }

  /** What is read back of one symbol's spool: its kept rows, in time order, all of the unit. */
  lemma PartReadsBack(p: Printer, f: Format, spec: Spec, part: Part, firstRow: nat)
    requires GoodPart(p, f, part, firstRow, Span(spec.rangeStart, spec.rangeEnd))
    ensures var rows := KeptRows(part, firstRow, Span(spec.rangeStart, spec.rangeEnd));
            && SpoolText(p, rows).Ok? && ReadSpool(p, SpoolText(p, rows).value) == Some(NormalRows(rows))
            && InTimeOrder(NormalRows(rows))
            && forall i :: 0 <= i < |rows| ==> FitsUnit(spec, f, NormalRows(rows)[i])
  {
    var range := Span(spec.rangeStart, spec.rangeEnd);
    var kept := Kept(part.times, range, firstRow, part.isTrading);
    KeptRowsAreGood(p, f, part, firstRow, range);
    SpoolRoundTrip(p, KeptRows(part, firstRow, range));
    forall i | 0 <= i < |kept|
      ensures GoodRow(p, f, part, kept[i]) && spec.rangeStart <= part.times[kept[i]] < spec.rangeEnd
    {
      assert kept[i] in kept;
      KeptIff(part.times, range, firstRow, part.isTrading, kept[i]);
    }
  }

  /** What read_spool_rows gives for each file. */
  function ReadFiles(p: Printer, files: seq<string>): (streams: seq<Stream>)
    ensures |streams| == |files|
  {
    seq(|files|, j requires 0 <= j < |files| =>
      if ReadSpool(p, files[j]).Some? then ReadSpool(p, files[j]).value else [])
  }

  /** The files the workers wrote, one for each symbol's part of the unit. */
  ghost predicate AreSpools(p: Printer, files: seq<string>, parts: seq<Part>, firstRow: nat, range: Span)
  {
    |files| == |parts| &&
    forall j :: 0 <= j < |files| ==> SpoolText(p, KeptRows(parts[j], firstRow, range)) == Ok(files[j])
  }

  /** A unit's spools all read back, and merged they are a time-ordered permutation of exactly its kept rows:
      the load accepts the stream, and writes as many rows as the workers declared. */
  lemma SpooledUnitLoads(p: Printer, f: Format, spec: Spec, parts: seq<Part>, firstRow: nat, files: seq<string>)
    requires FeatureFormat(f) && AreSpools(p, files, parts, firstRow, Span(spec.rangeStart, spec.rangeEnd))
    requires forall j :: 0 <= j < |parts| ==> GoodPart(p, f, parts[j], firstRow, Span(spec.rangeStart, spec.rangeEnd))
    ensures var streams := ReadFiles(p, files);
            && (forall j :: 0 <= j < |files| ==>
                  ReadSpool(p, files[j]) == Some(streams[j]) &&
                  streams[j] == NormalRows(KeptRows(parts[j], firstRow, Span(spec.rangeStart, spec.rangeEnd))))
            && Clean(spec, f, Tuples(Merge(streams))) && InTimeOrder(Merge(streams))
            && multiset(Merge(streams)) == All(streams) && |Merge(streams)| == RowTotal(streams)
            && forall i :: 0 <= i < |Merge(streams)| ==> Stored(f, Tuples(Merge(streams))[i]) == ToTuple(Merge(streams)[i])
  {
    var streams := ReadFiles(p, files);
    forall j | 0 <= j < |parts|
      ensures ReadSpool(p, files[j]) == Some(streams[j])
      ensures streams[j] == NormalRows(KeptRows(parts[j], firstRow, Span(spec.rangeStart, spec.rangeEnd)))
      ensures InTimeOrder(streams[j]) && forall i :: 0 <= i < |streams[j]| ==> FitsUnit(spec, f, streams[j][i])
    {
      PartReadsBack(p, f, spec, parts[j], firstRow);
    }
    MergeKeepsRows(streams);
    MergeIsInOrder(streams);
    MergedFits(spec, f, streams);
    InOrderIsClean(spec, f, Merge(streams));
    forall i | 0 <= i < |Merge(streams)|
      ensures Stored(f, ToTuple(Merge(streams)[i])) == ToTuple(Merge(streams)[i])
    {
      StoredUnchanged(f, ToTuple(Merge(streams)[i]));
    }
  }

  lemma MergedFits(spec: Spec, f: Format, streams: seq<Stream>)
    requires forall j :: 0 <= j < |streams| ==> forall i :: 0 <= i < |streams[j]| ==> FitsUnit(spec, f, streams[j][i])
    ensures forall i :: 0 <= i < |Merge(streams)| ==> FitsUnit(spec, f, Merge(streams)[i])
  {
    MergeKeepsRows(streams);
    forall i | 0 <= i < |Merge(streams)|
      ensures FitsUnit(spec, f, Merge(streams)[i])
    {
      assert Merge(streams)[i] in multiset(Merge(streams));
      FromSomeStream(streams, Merge(streams)[i]);
      var j :| 0 <= j < |streams| && Merge(streams)[i] in streams[j];
      var k :| 0 <= k < |streams[j]| && streams[j][k] == Merge(streams)[i];
    }
  }

  // ----- Column by column ---------------------------------------------------------------------------

  const KEY_COLUMNS: seq<string> := ["symbol", "tf", "bar_ts", "regime", "regime_volatility"]

  /** The COPY's column list: the keys, the two regime texts, then the numeric columns. */
  function FeatureColumns(numeric: seq<string>): (columns: seq<string>)
    ensures |columns| == 5 + |numeric|
  {
    KEY_COLUMNS + numeric
  }

  /** An empty text is a missing one. */
  predicate HoldsText(cell: Cell, text: Option<string>)
  {
    cell == if text.None? || text.value == "" then Null else Label(text.value)
  }

  /** The table row holds the feature row's values, each under its own column, and nothing else. */
  ghost predicate RowHolds(row: Row, kept: FeatureRow, numeric: seq<string>)
  {
    && |kept.values| == |numeric|
    && row.Keys == (set c | c in FeatureColumns(numeric))
    && "symbol" in row && row["symbol"] == Label(kept.symbol)
    && "tf" in row && row["tf"] == Label(kept.tf)
    && "bar_ts" in row && row["bar_ts"] == Instant(kept.us)
    && "regime" in row && HoldsText(row["regime"], kept.regime)
    && "regime_volatility" in row && HoldsText(row["regime_volatility"], kept.volatility)
    && forall i :: 0 <= i < |numeric| ==>
         numeric[i] in row && row[numeric[i]] == if kept.values[i].Some? then Number(kept.values[i].value) else Null
  }

  /** The tuple's cells, in the order of the column list. */
  ghost predicate TupleHolds(tuple: Tuple, kept: FeatureRow)
  {
    && |tuple| == 5 + |kept.values|
    && tuple[0] == Label(kept.symbol) && tuple[1] == Label(kept.tf) && tuple[2] == Instant(kept.us)
    && HoldsText(tuple[3], kept.regime) && HoldsText(tuple[4], kept.volatility)
    && forall i :: 0 <= i < |kept.values| ==>
         tuple[5 + i] == if kept.values[i].Some? then Number(kept.values[i].value) else Null
  }

  lemma TupleHoldsKept(kept: FeatureRow)
    ensures TupleHolds(ToTuple(Normal(kept)), kept)
  {
  }

  lemma RowHoldsTuple(numeric: seq<string>, kept: FeatureRow, tuple: Tuple, row: Row)
    requires TupleHolds(tuple, kept) && |kept.values| == |numeric|
    requires row.Keys == set c | c in FeatureColumns(numeric)
    requires forall i :: 0 <= i < 5 + |numeric| ==> row[FeatureColumns(numeric)[i]] == tuple[i]
    ensures RowHolds(row, kept, numeric)
  {
    var columns := FeatureColumns(numeric);
    assert columns[0] == "symbol" && columns[1] == "tf" && columns[2] == "bar_ts" && columns[3] == "regime";
    assert columns[4] == "regime_volatility";
    forall i | 0 <= i < |numeric|
      ensures numeric[i] in row && row[numeric[i]] == tuple[5 + i]
    {
      assert columns[5 + i] == numeric[i];
    }
  }

  lemma RowHoldsKept(f: Format, numeric: seq<string>, kept: FeatureRow)
    requires Distinct(FeatureColumns(numeric)) && f.preclamped && |kept.values| == |numeric|
    ensures var row := ToRow(FeatureColumns(numeric), Stored(f, ToTuple(Normal(kept)))); RowHolds(row, kept, numeric)
  {
    StoredUnchanged(f, ToTuple(Normal(kept)));
    TupleHoldsKept(kept);
    RowHoldsTuple(numeric, kept, ToTuple(Normal(kept)), ToRow(FeatureColumns(numeric), ToTuple(Normal(kept))));
  }

  /** A kept row of some symbol's part. */
  ghost predicate IsKept(parts: seq<Part>, firstRow: nat, range: Span, row: FeatureRow)
  {
    exists j :: 0 <= j < |parts| && row in KeptRows(parts[j], firstRow, range)
  }

  /** The table rows a unit's load writes are its kept rows, column by column: each is one, and there are as
      many. */
  lemma UnitRowsAreKeptRows(p: Printer, f: Format, spec: Spec, parts: seq<Part>, firstRow: nat, files: seq<string>,
                            numeric: seq<string>, i: nat) returns (kept: FeatureRow)
    requires FeatureFormat(f) && AreSpools(p, files, parts, firstRow, Span(spec.rangeStart, spec.rangeEnd))
    requires forall j :: 0 <= j < |parts| ==> GoodPart(p, f, parts[j], firstRow, Span(spec.rangeStart, spec.rangeEnd))
    requires Distinct(FeatureColumns(numeric)) && f.width == 5 + |numeric|
    requires i < |Merge(ReadFiles(p, files))|
    ensures var rows := TableRows(FeatureColumns(numeric), f, Tuples(Merge(ReadFiles(p, files))));
            && |rows| == RowTotal(ReadFiles(p, files))
            && Normal(kept) == Merge(ReadFiles(p, files))[i] && RowHolds(rows[i], kept, numeric)
    ensures IsKept(parts, firstRow, Span(spec.rangeStart, spec.rangeEnd), kept)
  {
    var range, streams := Span(spec.rangeStart, spec.rangeEnd), ReadFiles(p, files);
    var merged := Merge(streams);
    SpooledUnitLoads(p, f, spec, parts, firstRow, files);
    assert merged[i] in multiset(merged);
    FromSomeStream(streams, merged[i]);
    var j :| 0 <= j < |streams| && merged[i] in streams[j];
    var n :| 0 <= n < |streams[j]| && streams[j][n] == merged[i];
    kept := KeptRows(parts[j], firstRow, range)[n];
    KeptWidth(p, f, parts[j], firstRow, range, n);
    RowHoldsKept(f, numeric, kept);
    assert Tuples(merged)[i] == ToTuple(Normal(kept));
  }

  lemma KeptWidth(p: Printer, f: Format, part: Part, firstRow: nat, range: Span, n: nat)
    requires GoodPart(p, f, part, firstRow, range) && n < |KeptRows(part, firstRow, range)|
    ensures 5 + |KeptRows(part, firstRow, range)[n].values| == f.width
  {
    var kept := Kept(part.times, range, firstRow, part.isTrading);
    assert kept[n] in kept;
    assert GoodRow(p, f, part, kept[n]);
  }
}
