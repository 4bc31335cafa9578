/** Reading a bar's past value back through the revision log (value_as_of and adjusted_pairs of
    services/bar_reconciliation_audit.py), against the history of last-wins writes that made the log
    (write_raw of services/ohlcv_raw_writer.py). An answer has two times: when the vendor gave it, and when
    its load stored it. */
module BarHistory {
  import opened Prelude

  type Time = int
  type Close = real

  /** The reader's view of raw's row: the close, and when it was served (not known for a legacy import). */
  datatype Current = Current(close: Close, servedAt: Option<Time>)

  /** One revision row: the close an overwrite displaced, and when the displacing load stored its own. */
  datatype Displaced = Displaced(close: Close, at: Time)

  /** The earlier of two, by time and then by close. */
  predicate Before(a: Displaced, b: Displaced)
  {
    a.at < b.at || (a.at == b.at && a.close <= b.close)
  }

  function Later(log: seq<Displaced>, at: Time): (later: seq<Displaced>)
    ensures forall d :: d in later <==> d in log && d.at > at
  {
    if log == [] then []
    else
      var rest := Later(log[..|log| - 1], at);
      var last := log[|log| - 1];
      if last.at > at then rest + [last] else rest
  }

  function Least(log: seq<Displaced>): (d: Displaced)
    requires log != []
    ensures d in log
    ensures forall e :: e in log ==> Before(d, e) && d.at <= e.at && (e.at == d.at ==> d.close <= e.close)
  {
    if |log| == 1 then log[0]
    else
      var least := Least(log[..|log| - 1]);
      var last := log[|log| - 1];
      assert forall e :: e in log ==> e in log[..|log| - 1] || e == last;
      assert least in log[..|log| - 1] && last in log;
      if Before(least, last) then least else last
  }

  function ValueAsOf(current: Option<Current>, log: seq<Displaced>, at: Time): (r: Option<Close>)
  {
    var later := Later(log, at);
    if later != [] then Some(Least(later).close)
    else if current.None? then None
    else if current.value.servedAt.None? || current.value.servedAt.value <= at then Some(current.value.close)
    else None
  }

  // ----- The history ---------------------------------------------------------------------------------

  /** What a vendor serves for a bar; an offer changes the bar when any of it differs. */
  datatype Bar = Bar(open: real, high: real, low: real, close: Close, volume: Option<int>)

  datatype Write = Write(bar: Bar, answered: Time, loaded: Time)

  /** What raw held at a time: the last value stored by then, or the legacy value before any. */
  function HeldAt(legacy: Option<Bar>, writes: seq<Write>, at: Time): (r: Option<Close>)
  {
    if writes == [] then CloseOf(legacy)
    else
      var last := writes[|writes| - 1];
      if last.loaded <= at then Some(last.bar.close) else HeldAt(legacy, writes[..|writes| - 1], at)
  }

  function CloseOf(bar: Option<Bar>): Option<Close>
  {
    if bar.Some? then Some(bar.value.close) else None
  }

  /** Writes stored one after another, each of an answer no older than the one it replaces. */
  ghost predicate History(writes: seq<Write>)
  {
    && (forall i :: 0 <= i < |writes| ==> writes[i].answered <= writes[i].loaded)
    && (forall i, j :: 0 <= i < j < |writes| ==>
          writes[i].loaded < writes[j].loaded && writes[i].answered <= writes[j].answered)
  }

  /** Raw's row after some writes. */
  datatype Stored = Stored(bar: Bar, servedAt: Option<Time>)

  function StoredAfter(legacy: Option<Bar>, writes: seq<Write>): Option<Stored>
  {
    if writes != [] then Some(Stored(writes[|writes| - 1].bar, Some(writes[|writes| - 1].answered)))
    else if legacy.Some? then Some(Stored(legacy.value, None))
    else None
  }

  function RowOf(legacy: Option<Bar>, writes: seq<Write>): Option<Current>
  {
    match StoredAfter(legacy, writes)
    case None => None
    case Some(row) => Some(Current(row.bar.close, row.servedAt))
  }

  /** The log once a row has been replaced. */
  function Logged(row: Option<Stored>, log: seq<Displaced>, loaded: Time): seq<Displaced>
  {
    if row.Some? then log + [Displaced(row.value.bar.close, loaded)] else log
  }

  /** The closes the writes displaced: each write's predecessor, at that write's load. */
  function LogOf(legacy: Option<Bar>, writes: seq<Write>): (log: seq<Displaced>)
  {
    if writes == [] then []
    else
      var before := writes[..|writes| - 1];
      Logged(StoredAfter(legacy, before), LogOf(legacy, before), writes[|writes| - 1].loaded)
  }

  /** An offer is stored when it changes the bar and is no older than the stored answer. */
  predicate Replaces(stored: Option<Stored>, bar: Bar, answered: Time)
  {
    stored.None? ||
    (stored.value.bar != bar && (stored.value.servedAt.None? || stored.value.servedAt.value <= answered))
  }

  /** One bar of raw. An equal offer does nothing and does not move the serve time; a changed one replaces
      the row and logs what it displaced, be it the close or another column that changed; a changed offer
      older than the stored answer is only logged, apart from the displaced values. */
  class RawBar {
    var stored: Option<Stored>
    var log: seq<Displaced>
    var superseded: seq<Write>
    ghost var legacy: Option<Bar>
    ghost var writes: seq<Write>

    ghost predicate Valid()
      reads this
    {
      History(writes) && stored == StoredAfter(legacy, writes) && log == LogOf(legacy, writes)
    }

    constructor (imported: Option<Bar>)
      ensures Valid() && legacy == imported && writes == [] && superseded == []
    {
      stored := if imported.None? then None else Some(Stored(imported.value, None));
      log, superseded, legacy, writes := [], [], imported, [];
    }

    method Serve(bar: Bar, answered: Time, loaded: Time)
      requires Valid() && answered <= loaded && (writes != [] ==> writes[|writes| - 1].loaded < loaded)
      modifies this
      ensures Valid() && legacy == old(legacy)
      ensures writes == old(writes) + if Replaces(old(stored), bar, answered) then [Write(bar, answered, loaded)] else []
      ensures superseded == old(superseded) +
                if old(stored).Some? && old(stored).value.bar != bar && !Replaces(old(stored), bar, answered)
                then [Write(bar, answered, loaded)] else []
    {
      if stored.Some? && stored.value.bar == bar {
        return;
      }
      if stored.Some? && stored.value.servedAt.Some? && answered < stored.value.servedAt.value {
        superseded := superseded + [Write(bar, answered, loaded)];
      } else {
        Replace(bar, answered, loaded);
      }
    }

    /** The old close first, then the new row. */
    method Replace(bar: Bar, answered: Time, loaded: Time)
      requires Valid() && answered <= loaded && (writes != [] ==> writes[|writes| - 1].loaded < loaded)
      requires stored.Some? && stored.value.servedAt.Some? ==> stored.value.servedAt.value <= answered
      modifies this`stored, this`log, this`writes
      ensures Valid() && writes == old(writes) + [Write(bar, answered, loaded)]
    {
      ghost var w := Write(bar, answered, loaded);
      assert writes != [] ==> stored.value.servedAt == Some(writes[|writes| - 1].answered);
      LaterWrite(legacy, writes, w);
      log, stored, writes := Logged(stored, log, loaded), Some(Stored(bar, Some(answered))), writes + [w];
    }
  }

  lemma LaterWrite(legacy: Option<Bar>, writes: seq<Write>, w: Write)
    requires History(writes) && w.answered <= w.loaded
    requires writes != [] ==> writes[|writes| - 1].loaded < w.loaded && writes[|writes| - 1].answered <= w.answered
    ensures History(writes + [w]) && StoredAfter(legacy, writes + [w]) == Some(Stored(w.bar, Some(w.answered)))
    ensures LogOf(legacy, writes + [w]) == Logged(StoredAfter(legacy, writes), LogOf(legacy, writes), w.loaded)
  {
    assert (writes + [w])[..|writes|] == writes;
    forall i | 0 <= i < |writes|
      ensures writes[i].loaded < w.loaded && writes[i].answered <= w.answered
    {
      assert i == |writes| - 1 || writes[i].loaded < writes[|writes| - 1].loaded;
    }
  }

  // ----- Reading it back ----------------------------------------------------------------------------------

  /** The first write after a time; the number of writes if there is none. */
  function FirstAfter(writes: seq<Write>, at: Time): (i: nat)
    ensures i <= |writes|
    ensures forall j :: 0 <= j < i ==> writes[j].loaded <= at
    ensures i < |writes| ==> writes[i].loaded > at
  {
    if writes == [] || writes[0].loaded > at then 0 else 1 + FirstAfter(writes[1..], at)
  }

  lemma {:induction false} FirstAfterMore(writes: seq<Write>, w: Write, at: Time)
    requires History(writes + [w])
    ensures FirstAfter(writes + [w], at) == if w.loaded <= at then |writes| + 1 else FirstAfter(writes, at)
  {
    if writes != [] {
      assert (writes + [w])[1..] == writes[1..] + [w];
      assert (writes + [w])[0].loaded < (writes + [w])[|writes|].loaded;
      FirstAfterMore(writes[1..], w, at);
    }
  }

  lemma {:induction false} HeldIs(legacy: Option<Bar>, writes: seq<Write>, at: Time)
    requires History(writes)
    ensures var i := FirstAfter(writes, at);
            HeldAt(legacy, writes, at) == if i > 0 then Some(writes[i - 1].bar.close) else CloseOf(legacy)
  {
    if writes != [] {
      var before, last := writes[..|writes| - 1], writes[|writes| - 1];
      assert writes == before + [last];
      assert HeldAt(legacy, writes, at) == if last.loaded <= at then Some(last.bar.close) else HeldAt(legacy, before, at);
      HeldIs(legacy, before, at);
      FirstAfterMore(before, last, at);
    }
  }

  /** The first write that displaced something: all do over a legacy value, else all but the first. */
  function Offset(legacy: Option<Bar>): nat
  {
    if legacy.Some? then 0 else 1
  }

  function Prior(legacy: Option<Bar>, writes: seq<Write>, i: nat): Close
    requires Offset(legacy) <= i <= |writes|
  {
    if i == 0 then legacy.value.close else writes[i - 1].bar.close
  }

  /** The log holds one entry per overwrite: what the write found, at the write's time. */
  lemma {:induction false} LogIs(legacy: Option<Bar>, writes: seq<Write>)
    ensures var log := LogOf(legacy, writes);
            && |log| == (if |writes| > Offset(legacy) then |writes| - Offset(legacy) else 0)
            && forall j :: 0 <= j < |log| ==>
                 log[j] == Displaced(Prior(legacy, writes, j + Offset(legacy)), writes[j + Offset(legacy)].loaded)
  {
    if writes != [] {
      LogIs(legacy, writes[..|writes| - 1]);
    }
  }

  ghost predicate SameRows(a: seq<Displaced>, b: seq<Displaced>)
  {
    forall d :: d in a <==> d in b
  }

  /** The first write after the asked time that displaced something. */
  function FirstOverwrite(legacy: Option<Bar>, writes: seq<Write>, at: Time): nat
  {
    var i := FirstAfter(writes, at);
    if i < Offset(legacy) then Offset(legacy) else i
  }

  lemma OverwriteIsLogged(legacy: Option<Bar>, writes: seq<Write>, log: seq<Displaced>, at: Time, m: nat)
    requires History(writes) && SameRows(log, LogOf(legacy, writes))
    requires m == FirstOverwrite(legacy, writes, at) < |writes|
    ensures Displaced(Prior(legacy, writes, m), writes[m].loaded) in Later(log, at)
  {
    LogIs(legacy, writes);
    var made := LogOf(legacy, writes)[m - Offset(legacy)];
    assert made in log;
    assert writes[FirstAfter(writes, at)].loaded <= writes[m].loaded;
  }

  /** The log from the asked time on starts with the first overwrite after it. */
  lemma LeastLater(legacy: Option<Bar>, writes: seq<Write>, log: seq<Displaced>, at: Time)
    requires History(writes) && SameRows(log, LogOf(legacy, writes))
    ensures var m := FirstOverwrite(legacy, writes, at);
            if m < |writes| then
              Later(log, at) != [] && Least(Later(log, at)).close == Prior(legacy, writes, m)
            else Later(log, at) == []
  {
    var m := FirstOverwrite(legacy, writes, at);
    if m < |writes| {
      OverwriteIsLogged(legacy, writes, log, at, m);
      LaterIsAfter(legacy, writes, log, at, m, Least(Later(log, at)));
    } else if Later(log, at) != [] {
      LaterIsAfter(legacy, writes, log, at, m, Later(log, at)[0]);
    }
  }

  /** Any row of the log later than the asked time was made by write m or one after it. */
  lemma LaterIsAfter(legacy: Option<Bar>, writes: seq<Write>, log: seq<Displaced>, at: Time, m: nat, d: Displaced)
    requires History(writes) && SameRows(log, LogOf(legacy, writes)) && d in Later(log, at)
    requires m == FirstOverwrite(legacy, writes, at)
    ensures m < |writes| && (d.at > writes[m].loaded || d == Displaced(Prior(legacy, writes, m), writes[m].loaded))
  {
    LogIs(legacy, writes);
    var made := LogOf(legacy, writes);
    var j :| 0 <= j < |made| && made[j] == d;
    var k := j + Offset(legacy);
    assert writes[k].loaded > at;
  }

  /** First stored after the time, and since overwritten or answered by then. */
  predicate StoredLate(legacy: Option<Bar>, writes: seq<Write>, at: Time)
  {
    && legacy.None? && writes != [] && writes[0].loaded > at
    && (|writes| > 1 || writes[0].answered <= at)
  }

  /** value_as_of gives exactly the value raw held at the asked time, in whatever order the log is read,
      unless the bar was first stored after that time and has since been overwritten, or was answered by
      then: it gives the first stored value although raw held none. */
  lemma ValueAsOfIsHeldIff(legacy: Option<Bar>, writes: seq<Write>, log: seq<Displaced>, at: Time)
    requires History(writes) && SameRows(log, LogOf(legacy, writes))
    ensures ValueAsOf(RowOf(legacy, writes), log, at) == HeldAt(legacy, writes, at) <==> !StoredLate(legacy, writes, at)
    ensures StoredLate(legacy, writes, at) ==>
              && ValueAsOf(RowOf(legacy, writes), log, at) == Some(writes[0].bar.close)
              && HeldAt(legacy, writes, at) == None
  {
    HeldIs(legacy, writes, at);
    LeastLater(legacy, writes, log, at);
    var i := FirstAfter(writes, at);
    if i == |writes| && writes != [] {
      assert writes[|writes| - 1].loaded <= at;
    }
  }

  // ----- The pairs of a run ------------------------------------------------------------------------------

  type Day = int

  datatype Series = Trades | Adjusted

  datatype Key = Key(series: Series, day: Day)

  datatype Run = Run(end: Time, answeredDay: Day, fromDay: Option<Day>, toDay: Option<Day>)

  datatype Pair = Pair(day: Day, trades: Close, adjusted: Close)

  function FirstDay(run: Run, pairFrom: Day): Day
  {
    if run.fromDay.Some? && run.fromDay.value > pairFrom then run.fromDay.value else pairFrom
  }

  /** The last complete day: the day of the answer itself may still be forming. */
  function LastDay(run: Run): Day
  {
    var complete := run.answeredDay - 1;
    if run.toDay.Some? && run.toDay.value < complete then run.toDay.value else complete
  }

  function ReadKey(current: map<Key, Current>, displaced: map<Key, seq<Displaced>>, key: Key, at: Time): Option<Close>
  {
    ValueAsOf(if key in current then Some(current[key]) else None,
              if key in displaced then displaced[key] else [], at)
  }

  function PairOf(current: map<Key, Current>, displaced: map<Key, seq<Displaced>>, at: Time, day: Day): Option<Pair>
  {
    var trades, adjusted := ReadKey(current, displaced, Key(Trades, day), at),
                            ReadKey(current, displaced, Key(Adjusted, day), at);
    if trades.Some? && adjusted.Some? then Some(Pair(day, trades.value, adjusted.value)) else None
  }

  /** What became of one bar of raw: its legacy value and its writes. */
  datatype Past = Past(legacy: Option<Bar>, writes: seq<Write>)

  /** The two tables are what the bars' pasts have left, whatever the order of the log. */
  ghost predicate Recorded(past: Key -> Past, current: map<Key, Current>, displaced: map<Key, seq<Displaced>>)
  {
    forall key {:trigger past(key)} ::
      && History(past(key).writes)
      && (if key in current then Some(current[key]) else None) == RowOf(past(key).legacy, past(key).writes)
      && SameRows(if key in displaced then displaced[key] else [], LogOf(past(key).legacy, past(key).writes))
  }

  function Held(past: Key -> Past, key: Key, at: Time): Option<Close>
  {
    HeldAt(past(key).legacy, past(key).writes, at)
  }

  /** The pair of a day as raw held both closes. */
  function HeldPair(past: Key -> Past, at: Time, day: Day): Option<Pair>
  {
    var trades, adjusted := Held(past, Key(Trades, day), at), Held(past, Key(Adjusted, day), at);
    if trades.Some? && adjusted.Some? then Some(Pair(day, trades.value, adjusted.value)) else None
  }

  predicate IsLate(p: Past, at: Time)
  {
    StoredLate(p.legacy, p.writes, at)
  }

  lemma ReadIsHeldIff(past: Key -> Past, current: map<Key, Current>, displaced: map<Key, seq<Displaced>>, key: Key,
                      at: Time)
    requires Recorded(past, current, displaced)
    ensures ReadKey(current, displaced, key, at) == Held(past, key, at) <==> !IsLate(past(key), at)
    ensures IsLate(past(key), at) ==> Held(past, key, at) == None && ReadKey(current, displaced, key, at).Some?
  {
    var p := past(key);
    ValueAsOfIsHeldIff(p.legacy, p.writes, if key in displaced then displaced[key] else [], at);
  }

  /** A day's pair is the pair held exactly when neither close was stored late, or there is no pair; a pair that
      was held is always found. */
  lemma PairIsHeldIff(past: Key -> Past, current: map<Key, Current>, displaced: map<Key, seq<Displaced>>, at: Time,
                      day: Day)
    requires Recorded(past, current, displaced)
    ensures PairOf(current, displaced, at, day) == HeldPair(past, at, day) <==>
              || PairOf(current, displaced, at, day).None?
              || (!IsLate(past(Key(Trades, day)), at) && !IsLate(past(Key(Adjusted, day)), at))
    ensures HeldPair(past, at, day).Some? ==> PairOf(current, displaced, at, day) == HeldPair(past, at, day)
  {
    ReadIsHeldIff(past, current, displaced, Key(Trades, day), at);
    ReadIsHeldIff(past, current, displaced, Key(Adjusted, day), at);
  }

  /** A day of the run's span from `pairFrom` on, over before the day of the answer. */
  predicate Complete(run: Run, pairFrom: Day, day: Day)
  {
    && pairFrom <= day < run.answeredDay
    && (run.fromDay.Some? ==> run.fromDay.value <= day) && (run.toDay.Some? ==> day <= run.toDay.value)
  }

  lemma CompleteIff(run: Run, pairFrom: Day, day: Day)
    ensures Complete(run, pairFrom, day) <==> FirstDay(run, pairFrom) <= day <= LastDay(run)
  {
  }

  /** The pairs are those of the complete days, in day order. */
  ghost predicate ArePairs(rows: seq<Pair>, run: Run, current: map<Key, Current>, displaced: map<Key, seq<Displaced>>,
                           pairFrom: Day)
  {
    && (forall i :: 0 <= i < |rows| ==>
          Complete(run, pairFrom, rows[i].day) && PairOf(current, displaced, run.end, rows[i].day) == Some(rows[i]))
    && (forall day :: Complete(run, pairFrom, day) && PairOf(current, displaced, run.end, day).Some? ==>
          PairOf(current, displaced, run.end, day).value in rows)
    && (forall i, j :: 0 <= i < j < |rows| ==> rows[i].day < rows[j].day)
  }

  /** adjusted_pairs: one pair for each complete day of the run's span both of whose closes read back as of
      the run's end, in day order. */
  method AdjustedPairs(run: Run, current: map<Key, Current>, displaced: map<Key, seq<Displaced>>, pairFrom: Day)
      returns (rows: seq<Pair>)
    ensures ArePairs(rows, run, current, displaced, pairFrom)
  {
    rows := [];
    var day, last := FirstDay(run, pairFrom), LastDay(run);
    while day <= last
      invariant FirstDay(run, pairFrom) <= day
      invariant forall i :: 0 <= i < |rows| ==>
                  FirstDay(run, pairFrom) <= rows[i].day < day && rows[i].day <= last &&
                  PairOf(current, displaced, run.end, rows[i].day) == Some(rows[i])
      invariant forall d :: FirstDay(run, pairFrom) <= d < day && PairOf(current, displaced, run.end, d).Some?
                  ==> PairOf(current, displaced, run.end, d).value in rows
      invariant forall i, j :: 0 <= i < j < |rows| ==> rows[i].day < rows[j].day
      decreases last - day
    {
      var trades := ReadKey(current, displaced, Key(Trades, day), run.end);
      var adjusted := ReadKey(current, displaced, Key(Adjusted, day), run.end);
      if trades.Some? && adjusted.Some? {
        rows := rows + [Pair(day, trades.value, adjusted.value)];
      }
      day := day + 1;
    }
  }

  /** Every pair of closes held when the run ended is among the rows, and a row is such a pair exactly when
      neither close was stored late. */
  lemma PairsAreHeldPairs(rows: seq<Pair>, run: Run, past: Key -> Past, current: map<Key, Current>,
                          displaced: map<Key, seq<Displaced>>, pairFrom: Day, day: Day)
    requires Recorded(past, current, displaced) && ArePairs(rows, run, current, displaced, pairFrom)
    requires Complete(run, pairFrom, day)
    ensures HeldPair(past, run.end, day).Some? ==> HeldPair(past, run.end, day).value in rows
    ensures forall row :: row in rows && row.day == day ==>
              (HeldPair(past, run.end, day) == Some(row) <==>
                 !IsLate(past(Key(Trades, day)), run.end) && !IsLate(past(Key(Adjusted, day)), run.end))
  {
    PairIsHeldIff(past, current, displaced, run.end, day);
  }
}
