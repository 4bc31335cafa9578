/** The COPY loop of _bulk_load_locked (services/_batch_utils.py): every streamed tuple is checked
    (aware time, inside the half-open unit range, never before the previous one), clamped in its
    real columns and written, or the whole stream is rejected at its first bad tuple. */
module LoadStream {
  import opened Prelude
  import opened BatchIdentity

  type Tuple = seq<Cell>

  // Postgres real (IEEE 754 single): 2^-149 and (2 - 2^-23) * 2^127.
  const REAL_MIN_MAGNITUDE := 1.0 / 713623846352979940529142984724747568191373312.0
  const REAL_MAX_MAGNITUDE := 340282346638528859811704183484516925440.0

  function Magnitude(x: real): (m: real)
  {
    if x < 0.0 then -x else x
  }

  /** clamp_to_real_range: only a finite float can change. */
  function Clamp(c: Cell): (r: Cell)
  {
    if !c.Number? then c
    else
      var m := Magnitude(c.x);
      if m == 0.0 || REAL_MIN_MAGNITUDE <= m <= REAL_MAX_MAGNITUDE then c
      else if m < REAL_MIN_MAGNITUDE then Number(0.0)
      else if c.x < 0.0 then Number(-REAL_MAX_MAGNITUDE)
      else Number(REAL_MAX_MAGNITUDE)
  }

  /** The value is one a real column stores without an out-of-range error. */
  predicate Storable(c: Cell)
  {
    c.Number? ==> c.x == 0.0 || REAL_MIN_MAGNITUDE <= Magnitude(c.x) <= REAL_MAX_MAGNITUDE
  }

  /** A clamped value is storable, a storable value is left alone (so clamping twice is clamping
      once), and clamping keeps the order of two floats. */
  lemma ClampIsProjection(a: Cell, b: Cell)
    ensures Storable(Clamp(a)) && Clamp(Clamp(a)) == Clamp(a)
    ensures Storable(a) <==> Clamp(a) == a
    ensures a.Number? && b.Number? && a.x <= b.x ==>
            Clamp(a).Number? && Clamp(b).Number? && Clamp(a).x <= Clamp(b).x
  {
    assert 0.0 < REAL_MIN_MAGNITUDE < REAL_MAX_MAGNITUDE;
  }

  /** The clamp region by region: too small becomes zero, too large the largest of its sign, all else stays. */
  lemma ClampOf(x: real)
    ensures -REAL_MIN_MAGNITUDE < x < REAL_MIN_MAGNITUDE ==> Clamp(Number(x)) == Number(0.0)
    ensures x > REAL_MAX_MAGNITUDE ==> Clamp(Number(x)) == Number(REAL_MAX_MAGNITUDE)
    ensures x < -REAL_MAX_MAGNITUDE ==> Clamp(Number(x)) == Number(-REAL_MAX_MAGNITUDE)
    ensures REAL_MIN_MAGNITUDE <= x <= REAL_MAX_MAGNITUDE ==> Clamp(Number(x)) == Number(x)
    ensures -REAL_MAX_MAGNITUDE <= x <= -REAL_MIN_MAGNITUDE ==> Clamp(Number(x)) == Number(x)
  {
    assert 0.0 < REAL_MIN_MAGNITUDE < REAL_MAX_MAGNITUDE;
  }

  /** How one load reads its tuples: the width of the COPY, where the time is, which positions the
      live schema types as real, and whether the producer clamped them already. */
  datatype Format = Format(width: nat, timeIdx: nat, realPositions: set<nat>, preclamped: bool)

  function Stored(f: Format, tuple: Tuple): (r: Tuple)
    ensures |r| == |tuple|
  {
    seq(|tuple|, i requires 0 <= i < |tuple| =>
      if !f.preclamped && i in f.realPositions then Clamp(tuple[i]) else tuple[i])
  }

  datatype Fault = WrongWidth | NotAware | OutsideRange | OutOfOrder

  predicate HasTime(f: Format, tuple: Tuple)
  {
    f.timeIdx < |tuple| && tuple[f.timeIdx].Instant?
  }

  /** The first thing wrong with tuple i, in the order the loop finds it. */
  function FaultAt(spec: Spec, f: Format, tuples: seq<Tuple>, i: nat): (fault: Option<Fault>)
    requires i < |tuples|
  {
    var t := tuples[i];
    if f.timeIdx >= |t| then Some(WrongWidth)
    else if !t[f.timeIdx].Instant? then Some(NotAware)
    else if t[f.timeIdx].us < spec.rangeStart || t[f.timeIdx].us >= spec.rangeEnd then Some(OutsideRange)
    else if i > 0 && HasTime(f, tuples[i - 1]) && t[f.timeIdx].us < tuples[i - 1][f.timeIdx].us then
      Some(OutOfOrder)
    else if |t| != f.width then Some(WrongWidth)
    else None
  }

  ghost predicate Clean(spec: Spec, f: Format, tuples: seq<Tuple>)
  {
    forall i :: 0 <= i < |tuples| ==> FaultAt(spec, f, tuples, i) == None
  }

  datatype Copied = Copied(rows: seq<Tuple>) | Rejected(at: nat, fault: Fault)

  /** The loop. It accepts exactly the clean streams, stores every tuple of an accepted one in
      order, and names the first bad tuple of any other. */
  method CopyRows(spec: Spec, f: Format, tuples: seq<Tuple>) returns (result: Copied)
    requires f.timeIdx < f.width
    ensures result.Copied? <==> Clean(spec, f, tuples)
    ensures result.Copied? ==>
              && |result.rows| == |tuples|
              && forall i :: 0 <= i < |tuples| ==> result.rows[i] == Stored(f, tuples[i])
    ensures result.Rejected? ==>
              && result.at < |tuples|
              && FaultAt(spec, f, tuples, result.at) == Some(result.fault)
              && Clean(spec, f, tuples[..result.at])
  {
    var written: seq<Tuple> := [];
    var lastTime: Option<int> := None;
    var rowIdx := 0;
    while rowIdx < |tuples|
      invariant 0 <= rowIdx <= |tuples|
      invariant |written| == rowIdx
      invariant forall i :: 0 <= i < rowIdx ==> FaultAt(spec, f, tuples, i) == None
      invariant forall i :: 0 <= i < rowIdx ==> written[i] == Stored(f, tuples[i])
      invariant rowIdx == 0 ==> lastTime == None
      invariant rowIdx > 0 ==> HasTime(f, tuples[rowIdx - 1])
      invariant rowIdx > 0 ==> lastTime == Some(tuples[rowIdx - 1][f.timeIdx].us)
    {
      var tuple := tuples[rowIdx];
      ghost var before := tuples[..rowIdx];
      assert forall i :: 0 <= i < rowIdx ==> FaultAt(spec, f, before, i) == FaultAt(spec, f, tuples, i);
      ghost var fault := FaultAt(spec, f, tuples, rowIdx);
      if f.timeIdx >= |tuple| {
        assert fault == Some(WrongWidth);
        return Rejected(rowIdx, WrongWidth);
      }
      var time := tuple[f.timeIdx];
      if !time.Instant? {
        return Rejected(rowIdx, NotAware);
      }
      if time.us < spec.rangeStart || time.us >= spec.rangeEnd {
        return Rejected(rowIdx, OutsideRange);
      }
      if lastTime.Some? && time.us < lastTime.value {
        return Rejected(rowIdx, OutOfOrder);
      }
      lastTime := Some(time.us);
      if |tuple| != f.width {
        return Rejected(rowIdx, WrongWidth);
      }
      written := written + [Stored(f, tuple)];
      rowIdx := rowIdx + 1;
    }
    return Copied(written);
  }

  /** A clean stream is time-ordered end to end and never leaves the unit range, whatever the gap
      between two tuples. */
  lemma {:induction false} CleanIsOrdered(spec: Spec, f: Format, tuples: seq<Tuple>, i: nat, j: nat)
    requires Clean(spec, f, tuples) && i <= j < |tuples|
    ensures HasTime(f, tuples[i]) && HasTime(f, tuples[j])
    ensures spec.rangeStart <= tuples[i][f.timeIdx].us <= tuples[j][f.timeIdx].us < spec.rangeEnd
    decreases j - i
  {
    assert FaultAt(spec, f, tuples, i) == None;
    assert FaultAt(spec, f, tuples, j) == None;
    if i < j {
      CleanIsOrdered(spec, f, tuples, i, j - 1);
    }
  }

  // ----- From tuples to table rows ---------------------------------------------------------

  predicate Distinct(columns: seq<string>)
  {
    forall i, j :: 0 <= i < j < |columns| ==> columns[i] != columns[j]
  }

  /** The table row a tuple becomes under the COPY's column list. */
  function ToRow(columns: seq<string>, tuple: Tuple): (row: Row)
    requires Distinct(columns) && |tuple| == |columns|
    ensures row.Keys == set c | c in columns
    ensures forall i :: 0 <= i < |columns| ==> row[columns[i]] == tuple[i]
  {
    map i | 0 <= i < |columns| :: columns[i] := tuple[i]
  }
}
