/** The hard guard before each COPY (UnitDiskGuard of services/corpus_rerun_budget.py). */
module DiskGuard {
  import opened Prelude

  datatype Setup = Setup(freeAtLaunch: int, maxFraction: real, reserve: int, wal: nat)

  datatype Breach = FractionLimit | Reserve

  function Growth(g: Setup, free: int): real
  {
    (g.freeAtLaunch - free) as real
  }

  function Limit(g: Setup): real
  {
    g.maxFraction * g.freeAtLaunch as real
  }

  /** Storing this much more, with the WAL beside it, keeps the growth within the limit and the free space
      above the reserve. */
  predicate HasRoom(g: Setup, free: int, stored: real)
  {
    Growth(g, free) + stored + g.wal as real <= Limit(g) && free as real - stored - g.wal as real >= g.reserve as real
  }

  /** With that much stored and the WAL written, no more of the space free at launch is used than its share,
      and the reserve is still free. */
  predicate LeavesRoom(g: Setup, free: int, stored: real)
  {
    var left := free as real - stored - g.wal as real;
    g.freeAtLaunch as real - left <= g.maxFraction * g.freeAtLaunch as real && left >= g.reserve as real
  }

  lemma HasRoomIff(g: Setup, free: int, stored: real)
    ensures HasRoom(g, free, stored) <==> LeavesRoom(g, free, stored)
  {
  }

  /** One load: its spool, what it stored, and how many rows. */
  datatype Load = Load(spoolBytes: nat, stored: nat, rows: nat)

  /** The load tells a ratio. */
  predicate Measured(load: Load)
  {
    load.rows > 0 && load.spoolBytes > 0
  }

  function PerSpool(load: Load): real
    requires Measured(load)
  {
    load.stored as real / load.spoolBytes as real
  }

  /** The free space and the guard's ratio between two loads. */
  datatype Moment = Moment(free: int, ratio: real)

  predicate Admits(g: Setup, m: Moment, load: Load)
  {
    HasRoom(g, m.free, load.spoolBytes as real * m.ratio)
  }

  function After(m: Moment, load: Load): Moment
  {
    Moment(m.free - load.stored, if Measured(load) && PerSpool(load) > m.ratio then PerSpool(load) else m.ratio)
  }

  ghost predicate GuardedAt(g: Setup, moments: seq<Moment>, loads: seq<Load>, i: nat)
    requires i < |loads| && |moments| == |loads| + 1
  {
    Admits(g, moments[i], loads[i]) && moments[i + 1] == After(moments[i], loads[i])
  }

  /** Each load passed the guard with the free space and the ratio the loads before it had left. */
  ghost predicate Guarded(g: Setup, moments: seq<Moment>, loads: seq<Load>)
  {
    |moments| == |loads| + 1 && forall i: nat :: i < |loads| ==> GuardedAt(g, moments, loads, i)
  }

  /** The ratio of stored to spool bytes is the largest seen, the seed included. */
  class UnitDiskGuard {
    const g: Setup
    var ratio: real

    constructor (setup: Setup, first: real)
      ensures g == setup && ratio == first
    {
      g, ratio := setup, first;
    }

    method Observe(storedPerSpool: real)
      modifies this
      ensures ratio == if storedPerSpool > old(ratio) then storedPerSpool else old(ratio)
    {
      if storedPerSpool > ratio {
        ratio := storedPerSpool;
      }
    }

    /** One unit: checked, loaded, measured; nothing is loaded when the guard refuses. */
    method LoadUnit(free: int, load: Load) returns (breach: Option<Breach>, left: int)
      modifies this
      ensures breach.None? <==> Admits(g, Moment(free, old(ratio)), load)
      ensures var m := Moment(free, old(ratio)); Moment(left, ratio) == if breach.None? then After(m, load) else m
    {
      left := free;
      breach := Check(free, load.spoolBytes);
      if breach.None? {
        left := free - load.stored;
        if load.rows > 0 && load.spoolBytes > 0 {
          Observe(load.stored as real / load.spoolBytes as real);
        }
      }
    }

    /** The loads of a stage; it stops at the first refused one. */
    method LoadUnits(free: int, loads: seq<Load>) returns (done: nat, left: int, breach: Option<Breach>,
                                                           ghost moments: seq<Moment>)
      modifies this
      ensures done <= |loads| && Guarded(g, moments, loads[..done])
      ensures moments[0] == Moment(free, old(ratio)) && moments[done] == Moment(left, ratio)
      ensures breach.None? <==> done == |loads|
      ensures breach.Some? ==> done < |loads| && !Admits(g, moments[done], loads[done])
    {
      done, left, breach := 0, free, None;
      moments := [Moment(free, ratio)];
      while done < |loads|
        invariant 0 <= done <= |loads| && Guarded(g, moments, loads[..done]) && breach.None?
        invariant moments[0] == Moment(free, old(ratio)) && moments[done] == Moment(left, ratio)
      {
        breach, left := LoadUnit(left, loads[done]);
        if breach.Some? {
          return;
        }
        GuardedOneMore(g, moments, loads, done);
        moments := moments + [Moment(left, ratio)];
        done := done + 1;
      }
      assert loads[..done] == loads;
    }

    /** A unit is refused exactly when its projected bytes leave no room; the fraction is named first. */
    method Check(free: int, spoolBytes: nat) returns (breach: Option<Breach>)
      ensures breach.None? <==> HasRoom(g, free, spoolBytes as real * ratio)
      ensures breach.None? ==> LeavesRoom(g, free, spoolBytes as real * ratio)
      ensures breach == Some(Reserve) ==>
                Growth(g, free) + spoolBytes as real * ratio + g.wal as real <= Limit(g)
    {
      var projected := spoolBytes as real * ratio;
      var growth := (g.freeAtLaunch - free) as real;
      if growth + projected + g.wal as real > g.maxFraction * g.freeAtLaunch as real {
        return Some(FractionLimit);
      }
      if free as real - projected - g.wal as real < g.reserve as real {
        return Some(Reserve);
      }
      return None;
    }
  }

  // ----- A run of guarded loads ------------------------------------------------------------------------

  lemma GuardedOneMore(g: Setup, moments: seq<Moment>, loads: seq<Load>, done: nat)
    requires done < |loads| && Guarded(g, moments, loads[..done]) && Admits(g, moments[done], loads[done])
    ensures Guarded(g, moments + [After(moments[done], loads[done])], loads[..done + 1])
  {
    var longer, some := moments + [After(moments[done], loads[done])], loads[..done + 1];
    forall i: nat | i < |some|
      ensures GuardedAt(g, longer, some, i)
    {
      if i < done {
        assert GuardedAt(g, moments, loads[..done], i);
        assert some[i] == loads[..done][i] && longer[i] == moments[i] && longer[i + 1] == moments[i + 1];
      }
    }
  }

  /** The ratio is the largest of the seed and all that was measured. */
  lemma {:induction false} RatioIsLargest(g: Setup, moments: seq<Moment>, loads: seq<Load>, i: nat)
    requires Guarded(g, moments, loads) && i <= |loads|
    ensures moments[i].ratio >= moments[0].ratio
    ensures forall j :: 0 <= j < i && Measured(loads[j]) ==> PerSpool(loads[j]) <= moments[i].ratio
    ensures moments[i].ratio == moments[0].ratio || MeasuredAs(loads[..i], moments[i].ratio)
  {
    if i > 0 {
      RatioIsLargest(g, moments, loads, i - 1);
      assert GuardedAt(g, moments, loads, i - 1);
      if moments[i].ratio != moments[0].ratio {
        MeasuredBefore(loads, i, moments[i].ratio);
      }
    }
  }

  /** Some load was measured with this ratio. */
  ghost predicate MeasuredAs(loads: seq<Load>, ratio: real)
  {
    exists j :: 0 <= j < |loads| && Measured(loads[j]) && PerSpool(loads[j]) == ratio
  }

  lemma MeasuredBefore(loads: seq<Load>, i: nat, ratio: real)
    requires 0 < i <= |loads|
    requires MeasuredAs(loads[..i - 1], ratio) || (Measured(loads[i - 1]) && PerSpool(loads[i - 1]) == ratio)
    ensures MeasuredAs(loads[..i], ratio)
  {
    if MeasuredAs(loads[..i - 1], ratio) {
      var j :| 0 <= j < i - 1 && Measured(loads[..i - 1][j]) && PerSpool(loads[..i - 1][j]) == ratio;
      assert loads[..i][j] == loads[..i - 1][j];
    } else {
      assert loads[..i][i - 1] == loads[i - 1];
    }
  }

  lemma RoomForLess(g: Setup, m: Moment, load: Load)
    requires Admits(g, m, load) && m.ratio >= 0.0
    ensures HasRoom(g, m.free, 0.0)
  {
    assert load.spoolBytes as real * m.ratio >= 0.0;
  }

  /** The load stored no more per spool byte than the guard projected. */
  predicate WithinRatio(load: Load, ratio: real)
  {
    load.stored as real <= load.spoolBytes as real * ratio
  }

  lemma RoomAfter(g: Setup, m: Moment, load: Load)
    requires Admits(g, m, load) && WithinRatio(load, m.ratio)
    ensures HasRoom(g, m.free - load.stored, 0.0)
  {
    assert (m.free - load.stored) as real == m.free as real - load.stored as real;
  }

  /** In every run of guarded loads, all but the last leave the growth within the limit and the free space
      above the reserve, the WAL included; and so does the last, unless it stored more per spool byte than
      the seed and every load before it. */
  lemma OnlyARecordLoadPassesTheLimit(g: Setup, moments: seq<Moment>, loads: seq<Load>, i: nat)
    requires Guarded(g, moments, loads) && i <= |loads|
    requires HasRoom(g, moments[0].free, 0.0) && moments[0].ratio >= 0.0
    ensures LeavesRoom(g, moments[i].free, 0.0) ||
            (0 < i == |loads| && !WithinRatio(loads[i - 1], moments[i - 1].ratio))
  {
    RatioIsLargest(g, moments, loads, i);
    HasRoomIff(g, moments[i].free, 0.0);
    if i < |loads| {
      assert GuardedAt(g, moments, loads, i);
      RoomForLess(g, moments[i], loads[i]);
    } else if i > 0 && WithinRatio(loads[i - 1], moments[i - 1].ratio) {
      assert GuardedAt(g, moments, loads, i - 1);
      RoomAfter(g, moments[i - 1], loads[i - 1]);
    }
  }

  lemma WithinLargerRatio(load: Load, bound: real, ratio: real)
    requires WithinRatio(load, bound) && bound <= ratio
    ensures WithinRatio(load, ratio)
  {
    assert load.spoolBytes as real * (ratio - bound) >= 0.0;
    assert load.spoolBytes as real * ratio == load.spoolBytes as real * bound + load.spoolBytes as real * (ratio - bound);
  }

  /** While no load stores more per spool byte than the seed, no run of guarded loads ever takes the growth
      past the limit or the free space below the reserve. */
  lemma GuardedLoadsKeepTheLimit(g: Setup, moments: seq<Moment>, loads: seq<Load>, i: nat)
    requires Guarded(g, moments, loads) && i <= |loads|
    requires HasRoom(g, moments[0].free, 0.0) && moments[0].ratio >= 0.0
    requires forall j :: 0 <= j < |loads| ==> WithinRatio(loads[j], moments[0].ratio)
    ensures LeavesRoom(g, moments[i].free, 0.0)
  {
    OnlyARecordLoadPassesTheLimit(g, moments, loads, i);
    if i > 0 {
      RatioIsLargest(g, moments, loads, i - 1);
      WithinLargerRatio(loads[i - 1], moments[0].ratio, moments[i - 1].ratio);
    }
  }

  /** A tighter ratio only refuses more. */
  lemma LargerRatioRefusesMore(g: Setup, free: int, spoolBytes: nat, ratio: real, larger: real)
    requires ratio <= larger && HasRoom(g, free, spoolBytes as real * larger)
    ensures HasRoom(g, free, spoolBytes as real * ratio)
  {
    assert spoolBytes as real * larger == spoolBytes as real * ratio + spoolBytes as real * (larger - ratio);
    assert spoolBytes as real * (larger - ratio) >= 0.0;
  }
}
