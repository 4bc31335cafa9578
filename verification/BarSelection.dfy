/** The selection writer (select_and_write, _write and record_session_choices of services/bar_selection.py)
    for one symbol and direct timeframe. The pure selection itself is not part of this model: what it
    returns is a parameter. */
module BarSelection {
  import opened Prelude

  type Time = int
  type Session = int

  datatype Row = Row(values: seq<real>, volume: Option<int>, vendor: string, kind: string)

  datatype Winner = Winner(at: Time, row: Row)

  datatype Choice = Choice(session: Session, vendor: string, detail: string)

  /** What select_slots returns. */
  datatype Selected = Selected(
    winners: seq<Winner>,
    dropped: seq<Time>,
    unselected: seq<Time>,
    sessions: seq<Session>,
    choices: seq<Choice>)

  datatype Counts = Counts(added: nat, changed: nat, same: nat, skipped: nat, dropped: nat)

  type Table = map<Time, Row>

  /** One winner and one choice at most for a slot or a session. */
  ghost predicate OneEach(sel: Selected)
  {
    && (forall i, j :: 0 <= i < j < |sel.winners| ==> sel.winners[i].at != sel.winners[j].at)
    && (forall i, j :: 0 <= i < j < |sel.choices| ==> sel.choices[i].session != sel.choices[j].session)
    && (forall i :: 0 <= i < |sel.choices| ==> sel.choices[i].session in sel.sessions)
  }

  // ----- Writing rows in batches ------------------------------------------------------------------------

  const MAX_PARAMS := 65535
  const PARAMS_PER_ROW := 10

  /** The rows by slot; a later one of a slot wins. */
  function RowsBySlot(rows: seq<Winner>): (m: Table)
  {
    if rows == [] then map[] else RowsBySlot(rows[..|rows| - 1])[rows[|rows| - 1].at := rows[|rows| - 1].row]
  }

  lemma {:induction false} RowsBySlotAdds(a: seq<Winner>, b: seq<Winner>)
    ensures RowsBySlot(a + b) == RowsBySlot(a) + RowsBySlot(b)
  {
    if b == [] {
      assert a + b == a;
    } else {
      var last := |b| - 1;
      assert (a + b)[..|a + b| - 1] == a + b[..last];
      RowsBySlotAdds(a, b[..last]);
    }
  }

  lemma {:induction false} SlotRow(rows: seq<Winner>, i: nat)
    requires i < |rows| && forall i, j :: 0 <= i < j < |rows| ==> rows[i].at != rows[j].at
    ensures rows[i].at in RowsBySlot(rows) && RowsBySlot(rows)[rows[i].at] == rows[i].row
  {
    var last := |rows| - 1;
    if i < last {
      assert rows[i].at != rows[last].at;
      SlotRow(rows[..last], i);
    }
  }

  lemma {:induction false} SlotOf(rows: seq<Winner>, t: Time)
    ensures t in RowsBySlot(rows) <==> exists i :: 0 <= i < |rows| && rows[i].at == t
  {
    if rows != [] {
      SlotOf(rows[..|rows| - 1], t);
    }
  }

  lemma NextChunk(before: Table, rows: seq<Winner>, start: nat, next: nat)
    requires start <= next <= |rows|
    ensures before + RowsBySlot(rows[..start]) + RowsBySlot(rows[start..next]) == before + RowsBySlot(rows[..next])
  {
    assert rows[..start] + rows[start..next] == rows[..next];
    RowsBySlotAdds(rows[..start], rows[start..next]);
    Regroup(before, RowsBySlot(rows[..start]), RowsBySlot(rows[start..next]));
  }

  lemma Regroup(a: Table, b: Table, c: Table)
    ensures (a + b) + c == a + (b + c)
  {
  }

  // ----- One slot --------------------------------------------------------------------------------------------

  /** The slot's winner, if any. */
  function WinnerAt(sel: Selected, t: Time): Option<Row>
  {
    if t in RowsBySlot(sel.winners) then Some(RowsBySlot(sel.winners)[t]) else None
  }

  predicate LeftOut(sel: Selected, t: Time)
  {
    t in sel.dropped || t in sel.unselected
  }

  /** What a slot holds after the writer: an excluded slot its own row, a winner with a volume the winner's, a
      dropped or unselected slot nothing a ranked vendor wrote, any other its own. */
  function SlotAfter(table: Table, sel: Selected, exclude: set<Time>, ranked: set<string>, t: Time): Option<Row>
  {
    var held := if t in table then Some(table[t]) else None;
    var winner := WinnerAt(sel, t);
    if t in exclude then held
    else if winner.Some? && winner.value.volume.Some? then winner
    else if LeftOut(sel, t) && held.Some? && held.value.vendor in ranked then None
    else held
  }

  ghost predicate IsAfter(after: Table, table: Table, sel: Selected, exclude: set<Time>, ranked: set<string>)
  {
    forall t :: (if t in after then Some(after[t]) else None) == SlotAfter(table, sel, exclude, ranked, t)
  }

  // ----- The steps --------------------------------------------------------------------------------------------

  function Retractables(table: Table, slots: seq<Time>, exclude: set<Time>, ranked: set<string>): set<Time>
  {
    set t | t in slots && t in table && t !in exclude && table[t].vendor in ranked
  }

  lemma OneMoreSlot(table: Table, slots: seq<Time>, exclude: set<Time>, ranked: set<string>, i: nat)
    requires i < |slots|
    ensures var gone, next := Retractables(table, slots[..i], exclude, ranked),
                              Retractables(table, slots[..i + 1], exclude, ranked);
            var t, left := slots[i], table - gone;
            if t !in exclude && t in left && left[t].vendor in ranked
            then next == gone + {t} && |next| == |gone| + 1 && table - next == left - {t}
            else next == gone
  {
    assert slots[..i + 1] == slots[..i] + [slots[i]];
  }

  function LeftOutSlots(sel: Selected): seq<Time>
  {
    sel.dropped + sel.unselected
  }

  predicate Writable(w: Winner, exclude: set<Time>)
  {
    w.at !in exclude && w.row.volume.Some?
  }

  function Added(winners: seq<Winner>, table: Table, exclude: set<Time>): seq<Winner>
  {
    if winners == [] then []
    else
      var w := winners[|winners| - 1];
      Added(winners[..|winners| - 1], table, exclude) + if Writable(w, exclude) && w.at !in table then [w] else []
  }

  function Changed(winners: seq<Winner>, table: Table, exclude: set<Time>): seq<Winner>
  {
    if winners == [] then []
    else
      var w := winners[|winners| - 1];
      Changed(winners[..|winners| - 1], table, exclude)
      + if Writable(w, exclude) && w.at in table && table[w.at] != w.row then [w] else []
  }

  function Written(table: Table, winners: seq<Winner>, exclude: set<Time>): Table
  {
    table + RowsBySlot(Added(winners, table, exclude)) + RowsBySlot(Changed(winners, table, exclude))
  }

  /** The write leaves every writable winner's row at its slot, and every other slot as it was. */
  lemma {:induction false} WrittenSlot(table: Table, winners: seq<Winner>, exclude: set<Time>, t: Time)
    requires forall i, j :: 0 <= i < j < |winners| ==> winners[i].at != winners[j].at
    ensures var after := Written(table, winners, exclude);
            if t in RowsBySlot(winners) && t !in exclude && RowsBySlot(winners)[t].volume.Some? then
              t in after && after[t] == RowsBySlot(winners)[t]
            else (t in after <==> t in table) && (t in after ==> after[t] == table[t])
    ensures t in RowsBySlot(Added(winners, table, exclude)) ==> t in RowsBySlot(winners)
    ensures t in RowsBySlot(Changed(winners, table, exclude)) ==> t in RowsBySlot(winners)
  {
    if winners != [] {
      var last := |winners| - 1;
      var before, w := winners[..last], winners[last];
      WrittenSlot(table, before, exclude, t);
      LastWinner(table, winners, exclude);
      if t == w.at {
        NotBefore(winners, t);
      }
    }
  }

  lemma LastWinner(table: Table, winners: seq<Winner>, exclude: set<Time>)
    requires winners != []
    ensures var before, w := winners[..|winners| - 1], winners[|winners| - 1];
            && RowsBySlot(Added(winners, table, exclude)) ==
               (if Writable(w, exclude) && w.at !in table then RowsBySlot(Added(before, table, exclude))[w.at := w.row]
                else RowsBySlot(Added(before, table, exclude)))
            && RowsBySlot(Changed(winners, table, exclude)) ==
               (if Writable(w, exclude) && w.at in table && table[w.at] != w.row then
                  RowsBySlot(Changed(before, table, exclude))[w.at := w.row]
                else RowsBySlot(Changed(before, table, exclude)))
  {
    var before, w := winners[..|winners| - 1], winners[|winners| - 1];
    OneSlot(Added(before, table, exclude), w);
    OneSlot(Changed(before, table, exclude), w);
    assert Added(before, table, exclude) + [] == Added(before, table, exclude);
    assert Changed(before, table, exclude) + [] == Changed(before, table, exclude);
  }

  lemma OneSlot(rows: seq<Winner>, w: Winner)
    ensures RowsBySlot(rows + [w]) == RowsBySlot(rows)[w.at := w.row]
  {
    assert (rows + [w])[..|rows|] == rows;
  }

  lemma NotBefore(winners: seq<Winner>, t: Time)
    requires winners != [] && t == winners[|winners| - 1].at
    requires forall i, j :: 0 <= i < j < |winners| ==> winners[i].at != winners[j].at
    ensures t !in RowsBySlot(winners[..|winners| - 1])
  {
    SlotOf(winners[..|winners| - 1], t);
  }

  /** What a call leaves in the table. */
  function TableAfter(table: Table, sel: Selected, exclude: set<Time>, ranked: set<string>): Table
  {
    Written(table - Retractables(table, LeftOutSlots(sel), exclude, ranked), sel.winners, exclude)
  }

  /** Slot by slot, whatever the batch size: winners with a volume are held, dropped and unselected slots are
      retracted if a ranked vendor wrote them, everything else is untouched. */
  lemma EverySlot(table: Table, sel: Selected, exclude: set<Time>, ranked: set<string>)
    requires OneEach(sel)
    ensures IsAfter(TableAfter(table, sel, exclude, ranked), table, sel, exclude, ranked)
  {
    var after := TableAfter(table, sel, exclude, ranked);
    forall t
      ensures (if t in after then Some(after[t]) else None) == SlotAfter(table, sel, exclude, ranked, t)
    {
      WrittenSlot(table - Retractables(table, LeftOutSlots(sel), exclude, ranked), sel.winners, exclude, t);
    }
  }

  function CountsOf(table: Table, sel: Selected, exclude: set<Time>, ranked: set<string>): Counts
  {
    var gone := Retractables(table, LeftOutSlots(sel), exclude, ranked);
    Counts(|Added(sel.winners, table - gone, exclude)|, |Changed(sel.winners, table - gone, exclude)|,
           Same(sel.winners, table - gone, exclude), NoVolume(sel.winners, exclude), |gone|)
  }

  function Same(winners: seq<Winner>, table: Table, exclude: set<Time>): nat
  {
    if winners == [] then 0
    else
      var w := winners[|winners| - 1];
      Same(winners[..|winners| - 1], table, exclude)
      + if Writable(w, exclude) && w.at in table && table[w.at] == w.row then 1 else 0
  }

  function NoVolume(winners: seq<Winner>, exclude: set<Time>): nat
  {
    if winners == [] then 0
    else
      var w := winners[|winners| - 1];
      NoVolume(winners[..|winners| - 1], exclude) + if w.at !in exclude && w.row.volume.None? then 1 else 0
  }

  /** Winners that agree with the rows held are added where none is held and change nothing. */
  lemma {:induction false} NothingToWrite(winners: seq<Winner>, table: Table, exclude: set<Time>)
    requires forall i :: 0 <= i < |winners| && Writable(winners[i], exclude) && winners[i].at in table ==>
               table[winners[i].at] == winners[i].row
    ensures Changed(winners, table, exclude) == []
    ensures (forall i :: 0 <= i < |winners| && Writable(winners[i], exclude) ==> winners[i].at in table) ==>
              Added(winners, table, exclude) == []
  {
    if winners != [] {
      NothingToWrite(winners[..|winners| - 1], table, exclude);
    }
  }

  /** No row to be written is one the next call would retract: its slot is not left out as well, or no ranked
      vendor wrote it. A selection that puts each slot in one list only is of this kind. */
  ghost predicate Settles(sel: Selected, exclude: set<Time>, ranked: set<string>)
  {
    forall i :: 0 <= i < |sel.winners| && Writable(sel.winners[i], exclude) ==>
      !LeftOut(sel, sel.winners[i].at) || sel.winners[i].row.vendor !in ranked
  }

  /** What a call retracts from the table a call before it left: rows that call wrote into slots left out. */
  lemma RetractedAgain(table: Table, sel: Selected, exclude: set<Time>, ranked: set<string>, t: Time)
    requires OneEach(sel)
    ensures var after := TableAfter(table, sel, exclude, ranked);
            t in Retractables(after, LeftOutSlots(sel), exclude, ranked) <==>
              exists i :: 0 <= i < |sel.winners| && sel.winners[i].at == t && Writable(sel.winners[i], exclude)
                          && LeftOut(sel, t) && sel.winners[i].row.vendor in ranked
  {
    var after := TableAfter(table, sel, exclude, ranked);
    EverySlot(table, sel, exclude, ranked);
    assert (if t in after then Some(after[t]) else None) == SlotAfter(table, sel, exclude, ranked, t);
    SlotOf(sel.winners, t);
    if i :| 0 <= i < |sel.winners| && sel.winners[i].at == t {
      SlotRow(sel.winners, i);
    }
  }

  /** The table is the same after a second call on the same selection, and that call adds, changes and drops
      nothing exactly when the selection settles. */
  lemma SecondCallDoesNothingIff(table: Table, sel: Selected, exclude: set<Time>, ranked: set<string>)
    requires OneEach(sel)
    ensures var after := TableAfter(table, sel, exclude, ranked);
            && TableAfter(after, sel, exclude, ranked) == after
            && (CountsOf(after, sel, exclude, ranked).dropped == 0 <==> Settles(sel, exclude, ranked))
            && (Settles(sel, exclude, ranked) ==> CountsOf(after, sel, exclude, ranked).added == 0)
            && CountsOf(after, sel, exclude, ranked).changed == 0
  {
    var after := TableAfter(table, sel, exclude, ranked);
    var gone := Retractables(after, LeftOutSlots(sel), exclude, ranked);
    SecondTableIsTheSame(table, sel, exclude, ranked);
    WinnersAreHeld(table, sel, exclude, ranked);
    NothingToWrite(sel.winners, after - gone, exclude);
    if Settles(sel, exclude, ranked) {
      forall t | t in gone
        ensures false
      {
        RetractedAgain(table, sel, exclude, ranked, t);
      }
      assert gone == {};
      assert after - gone == after;
    } else {
      var i :| 0 <= i < |sel.winners| && Writable(sel.winners[i], exclude)
               && LeftOut(sel, sel.winners[i].at) && sel.winners[i].row.vendor in ranked;
      RetractedAgain(table, sel, exclude, ranked, sel.winners[i].at);
      assert sel.winners[i].at in gone;
    }
  }

  lemma WinnersAreHeld(table: Table, sel: Selected, exclude: set<Time>, ranked: set<string>)
    requires OneEach(sel)
    ensures var after := TableAfter(table, sel, exclude, ranked);
            forall i :: 0 <= i < |sel.winners| && Writable(sel.winners[i], exclude) ==>
              sel.winners[i].at in after && after[sel.winners[i].at] == sel.winners[i].row
  {
    var after := TableAfter(table, sel, exclude, ranked);
    EverySlot(table, sel, exclude, ranked);
    forall i | 0 <= i < |sel.winners| && Writable(sel.winners[i], exclude)
      ensures sel.winners[i].at in after && after[sel.winners[i].at] == sel.winners[i].row
    {
      SlotRow(sel.winners, i);
      assert SlotAfter(table, sel, exclude, ranked, sel.winners[i].at) == Some(sel.winners[i].row);
    }
  }

  lemma SecondTableIsTheSame(table: Table, sel: Selected, exclude: set<Time>, ranked: set<string>)
    requires OneEach(sel)
    ensures var after := TableAfter(table, sel, exclude, ranked); TableAfter(after, sel, exclude, ranked) == after
  {
    var after := TableAfter(table, sel, exclude, ranked);
    var again := TableAfter(after, sel, exclude, ranked);
    EverySlot(table, sel, exclude, ranked);
    EverySlot(after, sel, exclude, ranked);
    forall t
      ensures (t in again <==> t in after) && (t in again ==> again[t] == after[t])
    {
      assert SlotAfter(after, sel, exclude, ranked, t) == SlotAfter(table, sel, exclude, ranked, t);
    }
  }

  class CanonicalBars {
    var table: Table
    var choices: map<Session, Choice>

    /** _write: upserts in statements of at most `batchRows` rows and of the driver's parameter limit. */
    method WriteRows(rows: seq<Winner>, batchRows: nat)
      requires batchRows > 0
      modifies this`table
      ensures table == old(table) + RowsBySlot(rows)
    {
      var size := if batchRows < MAX_PARAMS / PARAMS_PER_ROW then batchRows else MAX_PARAMS / PARAMS_PER_ROW;
      var start := 0;
      assert old(table) + map[] == old(table);
      while start < |rows|
        invariant 0 <= start <= |rows|
        invariant table == old(table) + RowsBySlot(rows[..start])
        decreases |rows| - start
      {
        var next := if start + size < |rows| then start + size else |rows|;
        NextChunk(old(table), rows, start, next);
        table := table + RowsBySlot(rows[start..next]);
        start := next;
      }
      assert rows[..start] == rows;
    }

    /** Deletes a slot's row if a ranked vendor wrote it. */
    method Retract(t: Time, ranked: set<string>) returns (n: nat)
      modifies this`table
      ensures n == if t in old(table) && old(table)[t].vendor in ranked then 1 else 0
      ensures table == if n == 1 then old(table) - {t} else old(table)
    {
      if t in table && table[t].vendor in ranked {
        table := table - {t};
        return 1;
      }
      return 0;
    }

    /** record_session_choices: the selected sessions hold exactly the choices, the others what they held. */
    method RecordChoices(sessions: seq<Session>, made: seq<Choice>)
      requires forall i :: 0 <= i < |made| ==> made[i].session in sessions
      requires forall i, j :: 0 <= i < j < |made| ==> made[i].session != made[j].session
      modifies this`choices
      ensures forall i :: 0 <= i < |made| ==> made[i].session in choices && choices[made[i].session] == made[i]
      ensures forall s :: s in sessions && s in choices ==> choices[s] in made
      ensures forall s :: s !in sessions ==>
                (s in choices <==> s in old(choices)) && (s in choices ==> choices[s] == old(choices)[s])
    {
      if sessions == [] {
        return;
      }
      var kept := set i | 0 <= i < |made| :: made[i].session;
      choices := choices - set s | s in sessions && s !in kept;
      var i := 0;
      while i < |made|
        invariant 0 <= i <= |made|
        invariant forall j :: 0 <= j < i ==> made[j].session in choices && choices[made[j].session] == made[j]
        invariant forall s :: s in sessions && s in choices ==>
                    exists j :: 0 <= j < |made| && made[j].session == s && (choices[s] == made[j] || j >= i)
        invariant forall s :: s !in sessions ==>
                    (s in choices <==> s in old(choices)) && (s in choices ==> choices[s] == old(choices)[s])
      {
        choices := choices[made[i].session := made[i]];
        i := i + 1;
      }
    }

    /** Retracts every slot left out, but for excluded ones. */
    method RetractAll(slots: seq<Time>, exclude: set<Time>, ranked: set<string>) returns (dropped: nat)
      modifies this`table
      ensures table == old(table) - Retractables(old(table), slots, exclude, ranked)
      ensures dropped == |Retractables(old(table), slots, exclude, ranked)|
    {
      dropped := 0;
      var i := 0;
      assert old(table) - {} == old(table);
      while i < |slots|
        invariant 0 <= i <= |slots|
        invariant table == old(table) - Retractables(old(table), slots[..i], exclude, ranked)
        invariant dropped == |Retractables(old(table), slots[..i], exclude, ranked)|
      {
        OneMoreSlot(old(table), slots, exclude, ranked, i);
        if slots[i] !in exclude {
          var n := Retract(slots[i], ranked);
          dropped := dropped + n;
        }
        i := i + 1;
      }
      assert slots[..i] == slots;
    }

    /** Sorts the winners against the stored rows: new, changed, unchanged, or left out for want of a volume. */
    method Compare(winners: seq<Winner>, exclude: set<Time>)
        returns (added: seq<Winner>, changed: seq<Winner>, same: nat, skipped: nat)
      ensures added == Added(winners, table, exclude) && changed == Changed(winners, table, exclude)
      ensures same == Same(winners, table, exclude) && skipped == NoVolume(winners, exclude)
    {
      added, changed, same, skipped := [], [], 0, 0;
      var i := 0;
      while i < |winners|
        invariant 0 <= i <= |winners|
        invariant added == Added(winners[..i], table, exclude) && changed == Changed(winners[..i], table, exclude)
        invariant same == Same(winners[..i], table, exclude) && skipped == NoVolume(winners[..i], exclude)
      {
        var w := winners[i];
        assert winners[..i + 1][..i] == winners[..i];
        if w.at !in exclude {
          if w.row.volume.None? {
            skipped := skipped + 1;
          } else if w.at !in table {
            added := added + [w];
          } else if table[w.at] == w.row {
            same := same + 1;
          } else {
            changed := changed + [w];
          }
        }
        i := i + 1;
      }
      assert winners[..i] == winners;
    }

    /** select_and_write. */
    method SelectAndWrite(sel: Selected, exclude: set<Time>, ranked: set<string>, batchRows: int)
        returns (counts: Result<Counts, string>)
      requires OneEach(sel)
      modifies this
      ensures counts.Err? <==> batchRows < 1
      ensures counts.Err? ==> table == old(table) && choices == old(choices)
      ensures counts.Ok? ==> table == TableAfter(old(table), sel, exclude, ranked)
      ensures counts.Ok? ==> counts.value == CountsOf(old(table), sel, exclude, ranked)
      ensures counts.Ok? ==> ChoicesRecorded(sel, old(choices), choices)
    {
      if batchRows < 1 {
        return Err("batch_rows must be >= 1");
      }
      RecordChoices(sel.sessions, sel.choices);
      var dropped := RetractAll(LeftOutSlots(sel), exclude, ranked);
      var added, changed, same, skipped := Compare(sel.winners, exclude);
      WriteRows(added, batchRows);
      WriteRows(changed, batchRows);
      counts := Ok(Counts(|added|, |changed|, same, skipped, dropped));
    }
  }

  /** bar_session_choice holds exactly the choices on the selected sessions, and elsewhere what it held. */
  ghost predicate ChoicesRecorded(sel: Selected, before: map<Session, Choice>, after: map<Session, Choice>)
  {
    && (forall i :: 0 <= i < |sel.choices| ==>
          sel.choices[i].session in after && after[sel.choices[i].session] == sel.choices[i])
    && (forall s :: s in sel.sessions && s in after ==> after[s] in sel.choices)
    && (forall s :: s !in sel.sessions ==> (s in after <==> s in before) && (s in after ==> after[s] == before[s]))
  }
}
