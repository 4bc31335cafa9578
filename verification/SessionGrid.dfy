/** The session-anchored grid: slot starts, bucketing fine volume into coarse slots, and the 5m slots a derived
    bar lacks (session_slots and bucket_fine_volume of services/bar_reconciliation_audit.py,
    _missing_constituent_slots of services/bar_derivation.py). Times are in one unit throughout. */
module SessionGrid {
  import opened Prelude

  type Time = int

  datatype Session = Session(day: int, open: Time, close: Time)

  /** Sessions in day order, one after the other. */
  ghost predicate InOrder(sessions: seq<Session>)
  {
    && (forall i :: 0 <= i < |sessions| ==> sessions[i].open <= sessions[i].close)
    && forall i, j :: 0 <= i < j < |sessions| ==> sessions[i].day < sessions[j].day && sessions[i].close <= sessions[j].open
  }

  /** Every instant of a session falls on its calendar day. */
  ghost predicate OnTheirDays(sessions: seq<Session>, dayOf: Time -> int)
  {
    forall i, t :: 0 <= i < |sessions| && sessions[i].open <= t < sessions[i].close ==> dayOf(t) == sessions[i].day
  }

  /** The k-th slot of a session. */
  function SlotAt(s: Session, k: nat, interval: int): Time
  {
    s.open + k * interval
  }

  predicate Between(t: Time, start: Time, end: Time)
  {
    start <= t < end
  }

  /** Slot k exists and is asked for. */
  predicate Asked(s: Session, k: nat, interval: int, start: Time, end: Time)
  {
    SlotAt(s, k, interval) < s.close && Between(SlotAt(s, k, interval), start, end)
  }

  ghost predicate Rising(slots: seq<Time>)
  {
    forall i, j :: 0 <= i < j < |slots| ==> slots[i] < slots[j]
  }

  lemma AtLeastOne(d: int, interval: int)
    requires interval > 0 && d >= 1
    ensures d * interval >= interval
  {
    var e := d - 1;
    assert e * interval >= 0;
    assert d * interval == e * interval + interval;
  }

  lemma SlotsRise(s: Session, j: nat, k: nat, interval: int)
    requires interval > 0 && j < k
    ensures SlotAt(s, j, interval) + interval <= SlotAt(s, k, interval)
  {
    AtLeastOne(k - j, interval);
    Splits(k, j, interval);
  }

  lemma Splits(k: int, j: int, interval: int)
    ensures k * interval == j * interval + (k - j) * interval
  {
  }

  lemma RisingAdds(slots: seq<Time>, t: Time)
    requires Rising(slots) && forall u :: u in slots ==> u < t
    ensures Rising(slots + [t])
  {
    forall i | 0 <= i < |slots|
      ensures slots[i] < t
    {
      assert slots[i] in slots;
    }
  }

  /** One of the session's asked slots. */
  ghost predicate IsAsked(s: Session, t: Time, interval: int, start: Time, end: Time)
  {
    exists k: nat :: Asked(s, k, interval, start, end) && t == SlotAt(s, k, interval)
  }

  /** The slots of one session from its open on, before its close, that are asked for. */
  method OneSession(s: Session, interval: int, start: Time, end: Time) returns (slots: seq<Time>)
    requires interval > 0
    ensures Rising(slots)
    ensures forall t :: t in slots <==> IsAsked(s, t, interval, start, end)
    ensures forall t :: t in slots ==> s.open <= t < s.close
  {
    slots := [];
    var slot, k := s.open, 0;
    while slot < s.close
      invariant k >= 0 && slot == SlotAt(s, k, interval) && slot >= s.open
      invariant Rising(slots) && forall t :: t in slots ==> s.open <= t < slot && t < s.close
      invariant forall t :: t in slots ==> IsAsked(s, t, interval, start, end)
      invariant forall j: nat :: j < k && Asked(s, j, interval, start, end) ==> SlotAt(s, j, interval) in slots
      decreases s.close - slot
    {
      if start <= slot < end {
        assert Asked(s, k, interval, start, end);
        RisingAdds(slots, slot);
        slots := slots + [slot];
      }
      Splits(k + 1, k, interval);
      slot, k := slot + interval, k + 1;
    }
    forall j: nat | Asked(s, j, interval, start, end)
      ensures SlotAt(s, j, interval) in slots
    {
      if j > k {
        SlotsRise(s, k, j, interval);
      }
    }
  }

  /** The asked slot of some session up to the n-th. */
  ghost predicate AskedOfSome(sessions: seq<Session>, n: nat, t: Time, interval: int, start: Time, end: Time)
    requires n <= |sessions|
  {
    exists i :: 0 <= i < n && IsAsked(sessions[i], t, interval, start, end)
  }

  /** session_slots: strictly increasing, and exactly the asked slots of the sessions. */
  method SessionSlots(sessions: seq<Session>, interval: int, start: Time, end: Time) returns (slots: seq<Time>)
    requires interval > 0 && InOrder(sessions)
    ensures Rising(slots)
    ensures forall t :: t in slots <==> AskedOfSome(sessions, |sessions|, t, interval, start, end)
  {
    slots := [];
    var i := 0;
    while i < |sessions|
      invariant 0 <= i <= |sessions| && Rising(slots)
      invariant forall t :: t in slots <==> AskedOfSome(sessions, i, t, interval, start, end)
      invariant forall t :: t in slots ==> exists j :: 0 <= j < i && sessions[j].open <= t < sessions[j].close
    {
      var more := OneSession(sessions[i], interval, start, end);
      forall a, b | 0 <= a < |slots| && 0 <= b < |more|
        ensures slots[a] < more[b]
      {
        assert slots[a] in slots && more[b] in more;
      }
      slots := slots + more;
      i := i + 1;
    }
  }

  // ----- The slot of an instant --------------------------------------------------------------------------

  function SlotOf(s: Session, t: Time, interval: int): Time
    requires interval > 0
  {
    s.open + (t - s.open) / interval * interval
  }

  function SlotEnd(s: Session, slot: Time, interval: int): Time
  {
    if slot + interval < s.close then slot + interval else s.close
  }

  /** Every instant of a session lies in exactly one of its slots, clipped at the close. */
  lemma InstantInOneSlot(s: Session, t: Time, interval: int, k: nat)
    requires interval > 0 && s.open <= t < s.close
    ensures SlotOf(s, t, interval) <= t < SlotEnd(s, SlotOf(s, t, interval), interval)
    ensures SlotAt(s, k, interval) <= t < SlotEnd(s, SlotAt(s, k, interval), interval) <==>
              SlotAt(s, k, interval) == SlotOf(s, t, interval)
    ensures var slot := SlotOf(s, t, interval);
            SlotEnd(s, slot, interval) <= s.close && SlotEnd(s, slot, interval) <= slot + interval
  {
    var q := (t - s.open) / interval;
    assert t - s.open == q * interval + (t - s.open) % interval;
    assert q >= 0;
    if k < q {
      SlotsRise(s, k, q, interval);
    } else if q < k {
      SlotsRise(s, q, k, interval);
    }
  }

  // ----- Fine volume in coarse slots ------------------------------------------------------------------------

  datatype Fine = Fine(at: Time, volume: int)

  /** sessions.get(ts.date()). */
  function SessionOn(sessions: seq<Session>, day: int): (r: Option<Session>)
    ensures r.Some? ==> r.value in sessions && r.value.day == day
    ensures r.None? ==> forall i :: 0 <= i < |sessions| ==> sessions[i].day != day
  {
    if sessions == [] then None
    else if sessions[0].day == day then Some(sessions[0])
    else SessionOn(sessions[1..], day)
  }

  /** The coarse slot a fine bar falls in, if it is in a session. */
  function CoarseSlot(sessions: seq<Session>, dayOf: Time -> int, interval: int, t: Time): Option<Time>
    requires interval > 0
  {
    match SessionOn(sessions, dayOf(t))
    case None => None
    case Some(s) => if s.open <= t < s.close then Some(SlotOf(s, t, interval)) else None
  }

  function VolumeIn(fine: seq<Fine>, sessions: seq<Session>, dayOf: Time -> int, interval: int, slot: Time): int
    requires interval > 0
  {
    if fine == [] then 0
    else
      var last := fine[|fine| - 1];
      VolumeIn(fine[..|fine| - 1], sessions, dayOf, interval, slot)
      + if CoarseSlot(sessions, dayOf, interval, last.at) == Some(slot) then last.volume else 0
  }

  function InSessionVolume(fine: seq<Fine>, sessions: seq<Session>, dayOf: Time -> int, interval: int): int
    requires interval > 0
  {
    if fine == [] then 0
    else
      var last := fine[|fine| - 1];
      InSessionVolume(fine[..|fine| - 1], sessions, dayOf, interval)
      + if CoarseSlot(sessions, dayOf, interval, last.at).Some? then last.volume else 0
  }

  method BucketFineVolume(fine: seq<Fine>, sessions: seq<Session>, dayOf: Time -> int, interval: int)
      returns (out: map<Time, int>)
    requires interval > 0
    ensures forall slot :: slot in out <==>
              exists i :: 0 <= i < |fine| && CoarseSlot(sessions, dayOf, interval, fine[i].at) == Some(slot)
    ensures forall slot :: slot in out ==> out[slot] == VolumeIn(fine, sessions, dayOf, interval, slot)
  {
    out := map[];
    var i := 0;
    while i < |fine|
      invariant 0 <= i <= |fine|
      invariant forall slot :: slot in out <==>
                  exists j :: 0 <= j < i && CoarseSlot(sessions, dayOf, interval, fine[j].at) == Some(slot)
      invariant forall slot :: (if slot in out then out[slot] else 0) ==
                  VolumeIn(fine[..i], sessions, dayOf, interval, slot)
    {
      assert fine[..i + 1][..i] == fine[..i];
      var slot := CoarseSlot(sessions, dayOf, interval, fine[i].at);
      if slot.Some? {
        out := out[slot.value := (if slot.value in out then out[slot.value] else 0) + fine[i].volume];
      }
      i := i + 1;
    }
    assert fine[..i] == fine;
  }

  function Total(slots: seq<Time>, fine: seq<Fine>, sessions: seq<Session>, dayOf: Time -> int, interval: int): int
    requires interval > 0
  {
    if slots == [] then 0
    else
      Total(slots[..|slots| - 1], fine, sessions, dayOf, interval)
      + VolumeIn(fine, sessions, dayOf, interval, slots[|slots| - 1])
  }

  lemma {:induction false} OneBarMore(slots: seq<Time>, fine: seq<Fine>, sessions: seq<Session>, dayOf: Time -> int,
                                      interval: int)
    requires interval > 0 && Rising(slots) && fine != []
    ensures var last := fine[|fine| - 1];
            var slot := CoarseSlot(sessions, dayOf, interval, last.at);
            Total(slots, fine, sessions, dayOf, interval) ==
            Total(slots, fine[..|fine| - 1], sessions, dayOf, interval)
            + if slot.Some? && slot.value in slots then last.volume else 0
  {
    if slots != [] {
      OneBarMore(slots[..|slots| - 1], fine, sessions, dayOf, interval);
      var last := |slots| - 1;
      assert slots == slots[..last] + [slots[last]];
    }
  }

  /** No volume of a session is lost or counted twice: over any slots that hold every bar's slot, the buckets
      sum to the in-session volume. */
  lemma {:induction false} VolumeIsConserved(slots: seq<Time>, fine: seq<Fine>, sessions: seq<Session>,
                                             dayOf: Time -> int, interval: int)
    requires interval > 0 && Rising(slots)
    requires forall i :: 0 <= i < |fine| ==>
               var slot := CoarseSlot(sessions, dayOf, interval, fine[i].at); slot.Some? ==> slot.value in slots
    ensures Total(slots, fine, sessions, dayOf, interval) == InSessionVolume(fine, sessions, dayOf, interval)
  {
    if fine == [] {
      NoBars(slots, sessions, dayOf, interval);
    } else {
      VolumeIsConserved(slots, fine[..|fine| - 1], sessions, dayOf, interval);
      OneBarMore(slots, fine, sessions, dayOf, interval);
    }
  }

  lemma {:induction false} NoBars(slots: seq<Time>, sessions: seq<Session>, dayOf: Time -> int, interval: int)
    requires interval > 0
    ensures Total(slots, [], sessions, dayOf, interval) == 0
  {
    if slots != [] {
      NoBars(slots[..|slots| - 1], sessions, dayOf, interval);
    }
  }

  lemma {:induction false} SessionOnItsDay(sessions: seq<Session>, i: nat)
    requires InOrder(sessions) && i < |sessions|
    ensures SessionOn(sessions, sessions[i].day) == Some(sessions[i])
  {
    if i > 0 {
      assert sessions[0].day < sessions[i].day;
      SessionOnItsDay(sessions[1..], i - 1);
    }
  }

  /** The bucket of an in-session bar is one of its own session's slots. */
  lemma BucketIsASlot(sessions: seq<Session>, dayOf: Time -> int, interval: int, t: Time, i: nat)
    requires interval > 0 && InOrder(sessions) && OnTheirDays(sessions, dayOf) && i < |sessions|
    requires sessions[i].open <= t < sessions[i].close
    ensures CoarseSlot(sessions, dayOf, interval, t) == Some(SlotOf(sessions[i], t, interval))
    ensures SlotOf(sessions[i], t, interval) == SlotAt(sessions[i], (t - sessions[i].open) / interval, interval)
  {
    assert dayOf(t) == sessions[i].day;
    SessionOnItsDay(sessions, i);
  }

  lemma BucketHoldsIt(sessions: seq<Session>, dayOf: Time -> int, interval: int, t: Time, slot: Time)
      returns (i: nat, k: nat)
    requires interval > 0 && CoarseSlot(sessions, dayOf, interval, t) == Some(slot)
    ensures i < |sessions| && slot == SlotAt(sessions[i], k, interval)
    ensures slot <= t && t < slot + interval && t < sessions[i].close
  {
    var s := SessionOn(sessions, dayOf(t)).value;
    i :| 0 <= i < |sessions| && sessions[i] == s;
    k := (t - s.open) / interval;
    InstantInOneSlot(s, t, interval, k);
  }

  /** A bar is bucketed exactly into the slot of a session that holds its instant, clipped at the close; a bar
      outside every session into none. */
  lemma CoarseSlotIff(sessions: seq<Session>, dayOf: Time -> int, interval: int, t: Time, slot: Time)
    requires interval > 0 && InOrder(sessions) && OnTheirDays(sessions, dayOf)
    ensures CoarseSlot(sessions, dayOf, interval, t) == Some(slot) <==>
              exists i, k: nat {:trigger SlotAt(sessions[i], k, interval)} ::
                0 <= i < |sessions| && slot == SlotAt(sessions[i], k, interval)
                && slot <= t && t < slot + interval && t < sessions[i].close
  {
    if CoarseSlot(sessions, dayOf, interval, t) == Some(slot) {
      var i, k := BucketHoldsIt(sessions, dayOf, interval, t, slot);
      assert slot == SlotAt(sessions[i], k, interval);
    }
    if i, k: nat :| 0 <= i < |sessions| && slot == SlotAt(sessions[i], k, interval)
                    && slot <= t && t < slot + interval && t < sessions[i].close {
      SlotsStartAtTheOpen(sessions[i], k, interval);
      BucketIsASlot(sessions, dayOf, interval, t, i);
      InstantInOneSlot(sessions[i], t, interval, k);
    }
  }

  lemma SlotsStartAtTheOpen(s: Session, k: nat, interval: int)
    requires interval > 0
    ensures s.open <= SlotAt(s, k, interval)
  {
    if k > 0 {
      AtLeastOne(k, interval);
    }
  }

  // ----- Missing constituents ---------------------------------------------------------------------------------

  const FIVE_MINUTES := 300

  function BarEnd(bar: Time, minutes: nat, close: Option<Time>): Time
  {
    var end := bar + minutes * 60;
    if close.Some? && close.value < end then close.value else end
  }

  /** _missing_constituent_slots: in order, exactly the bar's 5m slots before its clipped end that are neither
      stored nor answered. */
  method MissingSlots(bar: Time, minutes: nat, close: Option<Time>, stored: set<Time>, answered: Time -> bool)
      returns (missing: seq<Time>)
    ensures Rising(missing)
    ensures forall t :: t in missing <==>
              && bar <= t < bar + minutes * 60 && (close.Some? ==> t < close.value)
              && (t - bar) % 300 == 0 && t !in stored && !answered(t)
  {
    var end := BarEnd(bar, minutes, close);
    missing := [];
    var slot := bar;
    while slot < end
      invariant slot >= bar && (slot - bar) % FIVE_MINUTES == 0 && Rising(missing)
      invariant forall t :: t in missing <==>
                  bar <= t < end && t < slot && (t - bar) % FIVE_MINUTES == 0 && t !in stored && !answered(t)
      decreases end - slot
    {
      if slot !in stored && !answered(slot) {
        RisingAdds(missing, slot);
        missing := missing + [slot];
      }
      slot := slot + FIVE_MINUTES;
    }
  }
}
