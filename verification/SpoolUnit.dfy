/** From a symbol's rows to a unit's load: writing the rows of a range to the spool, and merging the
    symbols' spools in time order (_write_unit_spool and the merge of _write_group in
    services/backfill_feature_factory.py). */
module SpoolUnit {
  import opened Prelude
  import opened Civil
  import opened DiskBudget
  import opened SpanCuts
  import opened RebuildUnits
  import opened Spool

  // ----- The rows of a range ---------------------------------------------------------------------

  ghost predicate Ascending(times: seq<Time>)
  {
    forall i, j :: 0 <= i < j < |times| ==> times[i] <= times[j]
  }

  /** np.searchsorted(times, t, side="left"). */
  function SearchSorted(times: seq<Time>, t: Time): (i: nat)
    ensures i <= |times|
    ensures forall j :: 0 <= j < i ==> times[j] < t
    ensures Ascending(times) ==> forall j :: i <= j < |times| ==> t <= times[j]
  {
    if times == [] || t <= times[0] then 0 else 1 + SearchSorted(times[1..], t)
  }

  /** The trading rows from index lo up to hi. */
  function Trading(lo: int, hi: int, isTrading: int -> bool): (kept: seq<int>)
    ensures forall k :: k in kept <==> lo <= k < hi && isTrading(k)
    ensures forall i, j :: 0 <= i < j < |kept| ==> kept[i] < kept[j]
    decreases hi - lo
  {
    if lo >= hi then []
    else
      var before := Trading(lo, hi - 1, isTrading);
      assert forall i :: 0 <= i < |before| ==> before[i] in before;
      if isTrading(hi - 1) then before + [hi - 1] else before
  }

  /** The rows a unit keeps: inside its range, past the warmup, and trading. */
  function Kept(times: seq<Time>, range: Span, firstRow: nat, isTrading: int -> bool): (kept: seq<int>)
  {
    var from := SearchSorted(times, range.start);
    Trading(if from > firstRow then from else firstRow, SearchSorted(times, range.end), isTrading)
  }

  lemma KeptIff(times: seq<Time>, range: Span, firstRow: nat, isTrading: int -> bool, k: int)
    requires Ascending(times)
    ensures k in Kept(times, range, firstRow, isTrading) <==>
              firstRow <= k < |times| && range.start <= times[k] < range.end && isTrading(k)
  {
  }

  /** Over a symbol's units every trading row past the warmup and before the horizon is kept by exactly
      one: its calendar year's. */
  lemma EveryRowInOneUnit(jan1: Calendar, times: seq<Time>, ranges: seq<Span>, first: int, end: Time, firstRow: nat,
                          isTrading: int -> bool, k: int, year: int, i: nat)
    requires Ascending(times) && YearsApart(jan1) && YearByYear(jan1, ranges, first, end)
    requires firstRow <= k < |times| && isTrading(k) && times[k] < end && InYear(jan1, times[k], year)
    requires first <= year && i < |ranges|
    ensures year - first < |ranges|
    ensures k in Kept(times, ranges[i], firstRow, isTrading) <==> i == year - first
  {
    EveryBarHasAUnit(jan1, ranges, first, end, times[k], year);
    EveryBarInItsYearsUnit(jan1, ranges, first, end, times[k], year, i);
    KeptIff(times, ranges[i], firstRow, isTrading, k);
  }

  function RowsAt(kept: seq<int>, rowAt: int -> FeatureRow): (rows: seq<FeatureRow>)
    ensures |rows| == |kept| && forall i :: 0 <= i < |kept| ==> rows[i] == rowAt(kept[i])
  {
    seq(|kept|, i requires 0 <= i < |kept| => rowAt(kept[i]))
  }

  /** Writes one symbol's rows of the range, block by block; returns the file and the row count. */
  method WriteUnitSpool(p: Printer, times: seq<Time>, range: Span, firstRow: nat, isTrading: int -> bool,
                        rowAt: int -> FeatureRow, blockRows: nat) returns (r: Result<(string, nat), string>)
    ensures blockRows == 0 ==> r.Err?
    ensures blockRows > 0 ==>
              var kept := Kept(times, range, firstRow, isTrading);
              match SpoolText(p, RowsAt(kept, rowAt))
              case Ok(text) => r == Ok((text, |kept|))
              case Err(_) => r.Err?
  {
    if blockRows == 0 {
      return Err("range() arg 3 must not be zero");
    }
    var from, hi := SearchSorted(times, range.start), SearchSorted(times, range.end);
    var kept := Trading(if from > firstRow then from else firstRow, hi, isTrading);
    var contents, b := "", 0;
    while b < |kept|
      invariant 0 <= b <= |kept|
      invariant SpoolText(p, RowsAt(kept[..b], rowAt)) == Ok(contents)
      decreases |kept| - b
    {
      var next := if b + blockRows < |kept| then b + blockRows else |kept|;
      var block := SpoolText(p, RowsAt(kept[b..next], rowAt));
      BlockAdds(p, kept, b, next, rowAt);
      if block.Err? {
        return Err(block.error);
      }
      contents, b := contents + block.value, next;
    }
    assert kept[..b] == kept;
    r := Ok((contents, |kept|));
  }

  /** One more block: a refused block refuses the unit. */
  lemma BlockAdds(p: Printer, kept: seq<int>, b: nat, next: nat, rowAt: int -> FeatureRow)
    requires b <= next <= |kept| && SpoolText(p, RowsAt(kept[..b], rowAt)).Ok?
    ensures var block := SpoolText(p, RowsAt(kept[b..next], rowAt));
            if block.Err? then SpoolText(p, RowsAt(kept, rowAt)).Err?
            else SpoolText(p, RowsAt(kept[..next], rowAt)) ==
                 Ok(SpoolText(p, RowsAt(kept[..b], rowAt)).value + block.value)
  {
    assert RowsAt(kept[..next], rowAt) == RowsAt(kept[..b], rowAt) + RowsAt(kept[b..next], rowAt);
    SpoolTextAdds(p, RowsAt(kept[..b], rowAt), RowsAt(kept[b..next], rowAt));
    assert RowsAt(kept, rowAt) == RowsAt(kept[..next], rowAt) + RowsAt(kept[next..], rowAt);
    SpoolTextAdds(p, RowsAt(kept[..next], rowAt), RowsAt(kept[next..], rowAt));
  }

  lemma {:induction false} SpoolTextAdds(p: Printer, a: seq<FeatureRow>, b: seq<FeatureRow>)
    ensures SpoolText(p, a).Err? || SpoolText(p, b).Err? ==> SpoolText(p, a + b).Err?
    ensures SpoolText(p, a).Ok? && SpoolText(p, b).Ok? ==>
              SpoolText(p, a + b) == Ok(SpoolText(p, a).value + SpoolText(p, b).value)
  {
    if a == [] {
      assert a + b == b;
      assert SpoolText(p, b).Ok? ==> "" + SpoolText(p, b).value == SpoolText(p, b).value;
    } else {
      SpoolTextAdds(p, a[1..], b);
      assert (a + b)[0] == a[0] && (a + b)[1..] == a[1..] + b;
      var line, rest, more := SpoolLine(p, a[0]), SpoolText(p, a[1..]), SpoolText(p, b);
      if line.Ok? && rest.Ok? && more.Ok? {
        assert line.value + (rest.value + more.value) == (line.value + rest.value) + more.value;
      }
    }
  }

  // ----- The merge ----------------------------------------------------------------------------------

  type Stream = seq<FeatureRow>

  ghost predicate InTimeOrder(rows: Stream)
  {
    forall i, j :: 0 <= i < j < |rows| ==> rows[i].us <= rows[j].us
  }

  function RowTotal(streams: seq<Stream>): nat
  {
    if streams == [] then 0 else RowTotal(streams[..|streams| - 1]) + |streams[|streams| - 1]|
  }

  function All(streams: seq<Stream>): multiset<FeatureRow>
  {
    if streams == [] then multiset{}
    else All(streams[..|streams| - 1]) + multiset(streams[|streams| - 1])
  }

  lemma {:induction false} NoneLeft(streams: seq<Stream>)
    ensures RowTotal(streams) == 0 <==> forall j :: 0 <= j < |streams| ==> streams[j] == []
  {
    if streams != [] {
      NoneLeft(streams[..|streams| - 1]);
      assert forall j :: 0 <= j < |streams| - 1 ==> streams[j] == streams[..|streams| - 1][j];
    }
  }

  /** The stream whose head comes first in time, the earliest stream among equals. */
  function Earliest(streams: seq<Stream>): (j: int)
    ensures j < |streams|
    ensures j < 0 <==> forall i :: 0 <= i < |streams| ==> streams[i] == []
    ensures j >= 0 ==> streams[j] != []
    ensures j >= 0 ==> forall i :: 0 <= i < |streams| && streams[i] != [] ==> streams[j][0].us <= streams[i][0].us
    ensures j >= 0 ==> forall i :: 0 <= i < j && streams[i] != [] ==> streams[j][0].us < streams[i][0].us
  {
    if streams == [] then -1
    else
      var last := |streams| - 1;
      var j := Earliest(streams[..last]);
      assert forall i :: 0 <= i < last ==> streams[i] == streams[..last][i];
      if streams[last] != [] && (j < 0 || streams[last][0].us < streams[j][0].us) then last else j
  }

  lemma {:induction false} TakeOne(streams: seq<Stream>, j: nat)
    requires j < |streams| && streams[j] != []
    ensures var rest := streams[j := streams[j][1..]];
            && RowTotal(rest) + 1 == RowTotal(streams)
            && All(rest) + multiset{streams[j][0]} == All(streams)
  {
    var last := |streams| - 1;
    var rest := streams[j := streams[j][1..]];
    if j < last {
      TakeOne(streams[..last], j);
      assert rest[..last] == streams[..last][j := streams[j][1..]];
    } else {
      assert rest[..last] == streams[..last];
      assert streams[j] == [streams[j][0]] + streams[j][1..];
    }
  }

  /** heapq.merge by time. */
  function Merge(streams: seq<Stream>): (merged: Stream)
    decreases RowTotal(streams)
  {
    var j := Earliest(streams);
    if j < 0 then []
    else
      TakeOne(streams, j);
      [streams[j][0]] + Merge(streams[j := streams[j][1..]])
  }

  /** Nothing is lost, added or repeated. */
  lemma {:induction false} MergeKeepsRows(streams: seq<Stream>)
    ensures multiset(Merge(streams)) == All(streams) && |Merge(streams)| == RowTotal(streams)
    decreases RowTotal(streams)
  {
    var j := Earliest(streams);
    if j < 0 {
      AllEmpty(streams);
      NoneLeft(streams);
    } else {
      TakeOne(streams, j);
      MergeKeepsRows(streams[j := streams[j][1..]]);
    }
  }

  lemma {:induction false} AllEmpty(streams: seq<Stream>)
    requires forall j :: 0 <= j < |streams| ==> streams[j] == []
    ensures All(streams) == multiset{}
  {
    if streams != [] {
      AllEmpty(streams[..|streams| - 1]);
    }
  }

  lemma {:induction false} FromSomeStream(streams: seq<Stream>, row: FeatureRow)
    requires row in All(streams)
    ensures exists j :: 0 <= j < |streams| && row in streams[j]
  {
    var last := |streams| - 1;
    if row in All(streams[..last]) {
      FromSomeStream(streams[..last], row);
      var j :| 0 <= j < last && row in streams[..last][j];
      assert row in streams[j];
    }
  }

  ghost predicate AllInOrder(streams: seq<Stream>)
  {
    forall j :: 0 <= j < |streams| ==> InTimeOrder(streams[j])
  }

  /** The head taken is no later than any row left. */
  lemma HeadIsFirst(streams: seq<Stream>, row: FeatureRow)
    requires AllInOrder(streams) && Earliest(streams) >= 0 && row in All(streams)
    ensures streams[Earliest(streams)][0].us <= row.us
  {
    FromSomeStream(streams, row);
    var j :| 0 <= j < |streams| && row in streams[j];
    var i :| 0 <= i < |streams[j]| && streams[j][i] == row;
    assert InTimeOrder(streams[j]);
  }

  lemma RowsLeft(streams: seq<Stream>, i: nat)
    requires AllInOrder(streams) && Earliest(streams) >= 0
    ensures var j := Earliest(streams);
            var rest := streams[j := streams[j][1..]];
            RowTotal(rest) < RowTotal(streams) && (i < |Merge(rest)| ==> streams[j][0].us <= Merge(rest)[i].us)
  {
    var j := Earliest(streams);
    var rest := streams[j := streams[j][1..]];
    TakeOne(streams, j);
    MergeKeepsRows(rest);
    if i < |Merge(rest)| {
      assert Merge(rest)[i] in multiset(Merge(rest));
      HeadIsFirst(streams, Merge(rest)[i]);
    }
  }

  lemma TailsInOrder(streams: seq<Stream>, j: nat)
    requires AllInOrder(streams) && j < |streams| && streams[j] != []
    ensures AllInOrder(streams[j := streams[j][1..]])
  {
    assert InTimeOrder(streams[j]);
  }

  /** Merging ordered streams gives one ordered stream. */
  lemma {:induction false} MergeIsInOrder(streams: seq<Stream>)
    requires AllInOrder(streams)
    ensures InTimeOrder(Merge(streams))
    decreases RowTotal(streams)
  {
    var j := Earliest(streams);
    if j >= 0 {
      TakeOne(streams, j);
      var rest := streams[j := streams[j][1..]];
      TailsInOrder(streams, j);
      MergeIsInOrder(rest);
      forall i: nat | i < |Merge(rest)|
        ensures streams[j][0].us <= Merge(rest)[i].us
      {
        RowsLeft(streams, i);
      }
      assert Merge(streams) == [streams[j][0]] + Merge(rest);
    }
  }
}
