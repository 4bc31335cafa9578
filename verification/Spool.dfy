/** The spool file between a rebuild worker and the load: one text line per feature row, written by
    _spool_line and read back by read_spool_rows (services/backfill_feature_factory.py).

    Formatting a float to nine significant digits and parsing it are a given pair of functions; field
    joining, integer times, missing values and Python's newline translation are concrete. */
module Spool {
  import opened Prelude
  import opened Text
  import opened Decimals

  datatype FeatureRow = FeatureRow(
    symbol: string,
    tf: string,
    us: int,
    regime: Option<string>,
    volatility: Option<string>,
    values: seq<Option<real>>)

  datatype Printer = Printer(show: real -> string, read: string -> Option<real>)

  /** The float survives its printing, which is never empty and holds no separator. */
  ghost predicate Prints(p: Printer, v: real)
  {
    p.read(p.show(v)) == Some(v) && p.show(v) != "" && Plain(p.show(v))
  }

  predicate Plain(s: string)
  {
    ',' !in s && '\n' !in s && '\r' !in s
  }

  ghost predicate RowPrints(p: Printer, row: FeatureRow)
  {
    forall i :: 0 <= i < |row.values| && row.values[i].Some? ==> Prints(p, row.values[i].value)
  }

  // ----- One line -----------------------------------------------------------------------------------

  function TextOf(o: Option<string>): string
  {
    if o.Some? then o.value else ""
  }

  function Cells(p: Printer, values: seq<Option<real>>): (cells: seq<string>)
    ensures |cells| == |values|
  {
    seq(|values|, i requires 0 <= i < |values| => if values[i].None? then "" else p.show(values[i].value))
  }

  function Fields(p: Printer, row: FeatureRow): (fields: seq<string>)
    ensures |fields| == 5 + |row.values|
  {
    [row.symbol, row.tf, ShowInt(row.us), TextOf(row.regime), TextOf(row.volatility)] + Cells(p, row.values)
  }

  predicate Spoolable(row: FeatureRow)
  {
    forall text :: text in [row.symbol, row.tf, TextOf(row.regime), TextOf(row.volatility)] ==>
      ',' !in text && '\n' !in text
  }

  /** _spool_line: a text holding a separator is refused. */
  function SpoolLine(p: Printer, row: FeatureRow): (r: Result<string, string>)
  {
    if Spoolable(row) then Ok(Join(Fields(p, row), ',') + "\n") else Err("it holds a separator")
  }

  function ReadCells(p: Printer, cells: seq<string>): (r: Option<seq<Option<real>>>)
  {
    if cells == [] then Some([])
    else
      match ReadCells(p, cells[..|cells| - 1])
      case None => None
      case Some(before) =>
        var last := cells[|cells| - 1];
        if last == "" then Some(before + [None])
        else match p.read(last) case None => None case Some(v) => Some(before + [Some(v)])
  }

  function OrNone(text: string): Option<string>
  {
    if text == "" then None else Some(text)
  }

  /** One line, its newline stripped; nothing when it does not parse. */
  function ReadLine(p: Printer, line: string): (r: Option<FeatureRow>)
  {
    var parts := Split(line, ',');
    if |parts| < 5 then None
    else
      match ReadInt(parts[2])
      case None => None
      case Some(us) =>
        match ReadCells(p, parts[5..])
        case None => None
        case Some(values) => Some(FeatureRow(parts[0], parts[1], us, OrNone(parts[3]), OrNone(parts[4]), values))
  }

  /** What can be read back: an empty label is a missing one. */
  function Normal(row: FeatureRow): FeatureRow
  {
    row.(regime := OrNone(TextOf(row.regime)), volatility := OrNone(TextOf(row.volatility)))
  }

  lemma FieldsPlain(p: Printer, row: FeatureRow)
    requires Spoolable(row) && RowPrints(p, row)
    ensures SeparatorFree(Fields(p, row), ',') && SeparatorFree(Fields(p, row), '\n')
  {
    var texts := [row.symbol, row.tf, TextOf(row.regime), TextOf(row.volatility)];
    assert texts[0] in texts && texts[1] in texts && texts[2] in texts && texts[3] in texts;
    forall i | 0 <= i < |row.values| && row.values[i].Some?
      ensures Plain(Cells(p, row.values)[i])
    {
      assert Prints(p, row.values[i].value);
    }
  }

  lemma {:induction false} CellsRoundTrip(p: Printer, values: seq<Option<real>>)
    requires forall i :: 0 <= i < |values| && values[i].Some? ==> Prints(p, values[i].value)
    ensures ReadCells(p, Cells(p, values)) == Some(values)
  {
    if values != [] {
      var last := |values| - 1;
      CellsRoundTrip(p, values[..last]);
      assert Cells(p, values)[..last] == Cells(p, values[..last]);
      assert values == values[..last] + [values[last]];
      if values[last].Some? {
        assert Prints(p, values[last].value);
      }
    }
  }

  /** A line reads back as its row, but for empty labels. */
  lemma LineRoundTrip(p: Printer, row: FeatureRow)
    requires Spoolable(row) && RowPrints(p, row)
    ensures ReadLine(p, Join(Fields(p, row), ',')) == Some(Normal(row))
  {
    FieldsPlain(p, row);
    FieldsRoundTrip(Fields(p, row), ',');
    IntRoundTrip(row.us);
    assert Fields(p, row)[5..] == Cells(p, row.values);
    CellsRoundTrip(p, row.values);
  }

  // ----- The file ----------------------------------------------------------------------------------------

  /** The lines of some rows, or a refusal. */
  function SpoolText(p: Printer, rows: seq<FeatureRow>): (r: Result<string, string>)
  {
    if rows == [] then Ok("")
    else
      match SpoolLine(p, rows[0])
      case Err(e) => Err(e)
      case Ok(line) =>
        match SpoolText(p, rows[1..])
        case Err(e) => Err(e)
        case Ok(rest) => Ok(line + rest)
  }

  /** Reading in text mode: "\r\n" and a lone "\r" both arrive as "\n". */
  function Universal(s: string): string
  {
    if s == "" then ""
    else if s[0] == '\r' then
      ['\n'] + Universal(if |s| > 1 && s[1] == '\n' then s[2..] else s[1..])
    else [s[0]] + Universal(s[1..])
  }

  /** The text with each newline written as `newline`. */
  function WithNewlines(s: string, newline: string): string
  {
    if s == "" then "" else (if s[0] == '\n' then newline else [s[0]]) + WithNewlines(s[1..], newline)
  }

  /** Whichever of the three newlines a text without a carriage return was written with, it reads back. */
  lemma {:induction false} AnyNewlineReadsBack(s: string, newline: string)
    requires '\r' !in s && newline in {"\n", "\r\n", "\r"}
    ensures Universal(WithNewlines(s, newline)) == s
  {
    if s != "" {
      var rest := WithNewlines(s[1..], newline);
      AnyNewlineReadsBack(s[1..], newline);
      if s[0] == '\n' {
        var text := newline + rest;
        assert newline == "\r" && rest != "" ==> rest[0] != '\n';
        assert text[1..] == newline[1..] + rest;
        assert newline == "\r\n" ==> text[2..] == rest;
      } else {
        assert (([s[0]] + rest)[1..]) == rest;
      }
    }
  }

  /** The lines of a text, each without its newline. */
  function Lines(s: string): (lines: seq<string>)
  {
    var pieces := Split(s, '\n');
    if pieces[|pieces| - 1] == "" then pieces[..|pieces| - 1] else pieces
  }

  function ReadLines(p: Printer, lines: seq<string>): (r: Option<seq<FeatureRow>>)
    ensures r.Some? ==> |r.value| == |lines|
  {
    if lines == [] then Some([])
    else
      match ReadLine(p, lines[0])
      case None => None
      case Some(row) =>
        match ReadLines(p, lines[1..])
        case None => None
        case Some(rest) => Some([row] + rest)
  }

  function ReadSpool(p: Printer, contents: string): Option<seq<FeatureRow>>
  {
    ReadLines(p, Lines(Universal(contents)))
  }

  ghost predicate AllPrint(p: Printer, rows: seq<FeatureRow>)
  {
    forall i :: 0 <= i < |rows| ==> RowPrints(p, rows[i])
  }

  ghost predicate AllSpoolable(rows: seq<FeatureRow>)
  {
    forall i :: 0 <= i < |rows| ==> Spoolable(rows[i])
  }

  /** A text is refused exactly when some row holds a separator. */
  lemma {:induction false} SpooledIff(p: Printer, rows: seq<FeatureRow>)
    ensures SpoolText(p, rows).Ok? <==> AllSpoolable(rows)
  {
    if rows != [] {
      SpooledIff(p, rows[1..]);
      assert rows[0] == rows[0];
      assert forall i :: 0 < i < |rows| ==> rows[i] == rows[1..][i - 1];
    }
  }

  function NormalRows(rows: seq<FeatureRow>): (r: seq<FeatureRow>)
    ensures |r| == |rows|
  {
    seq(|rows|, i requires 0 <= i < |rows| => Normal(rows[i]))
  }

  /** The line's fields hold no newline, so the lines of a spool are its rows' joined fields. */
  function JoinedRows(p: Printer, rows: seq<FeatureRow>): (lines: seq<string>)
    ensures |lines| == |rows|
  {
    seq(|rows|, i requires 0 <= i < |rows| => Join(Fields(p, rows[i]), ','))
  }

  lemma {:induction false} JoinFree(parts: seq<string>, sep: char, c: char)
    requires SeparatorFree(parts, c) && c != sep
    ensures c !in Join(parts, sep)
  {
    if |parts| > 1 {
      JoinFree(parts[1..], sep, c);
    }
  }

  lemma {:induction false} SpoolLines(p: Printer, rows: seq<FeatureRow>)
    requires AllPrint(p, rows) && AllSpoolable(rows)
    ensures SpoolText(p, rows).Ok?
    ensures Split(SpoolText(p, rows).value, '\n') == JoinedRows(p, rows) + [""]
  {
    if rows != [] {
      var line := Join(Fields(p, rows[0]), ',');
      assert RowPrints(p, rows[0]) && Spoolable(rows[0]);
      SpoolLines(p, rows[1..]);
      FieldsPlain(p, rows[0]);
      JoinFree(Fields(p, rows[0]), ',', '\n');
      var rest := SpoolText(p, rows[1..]).value;
      SplitFree(line, '\n');
      SplitAround(line, rest, '\n');
      assert line + "\n" + rest == line + ['\n'] + rest;
      assert JoinedRows(p, rows) == [line] + JoinedRows(p, rows[1..]);
    }
  }

  lemma {:induction false} ReadJoined(p: Printer, rows: seq<FeatureRow>)
    requires AllPrint(p, rows) && AllSpoolable(rows)
    ensures ReadLines(p, JoinedRows(p, rows)) == Some(NormalRows(rows))
  {
    if rows != [] {
      var lines := JoinedRows(p, rows);
      assert ReadLine(p, lines[0]) == Some(Normal(rows[0])) by {
        assert RowPrints(p, rows[0]) && Spoolable(rows[0]);
        LineRoundTrip(p, rows[0]);
      }
      ReadJoined(p, rows[1..]);
      assert lines[1..] == JoinedRows(p, rows[1..]);
      ReadsOn(p, lines, Normal(rows[0]), NormalRows(rows[1..]));
      assert NormalRows(rows) == [Normal(rows[0])] + NormalRows(rows[1..]);
    }
  }

  lemma ReadsOn(p: Printer, lines: seq<string>, row: FeatureRow, rest: seq<FeatureRow>)
    requires lines != [] && ReadLine(p, lines[0]) == Some(row) && ReadLines(p, lines[1..]) == Some(rest)
    ensures ReadLines(p, lines) == Some([row] + rest)
  {
  }

  lemma {:induction false} UniversalKeeps(s: string)
    requires '\r' !in s
    ensures Universal(s) == s
  {
    if s != "" {
      assert forall c :: c in s[1..] ==> c in s;
      UniversalKeeps(s[1..]);
      assert s == [s[0]] + s[1..];
    }
  }

  predicate ReturnFree(row: FeatureRow)
  {
    '\r' !in row.symbol && '\r' !in row.tf && '\r' !in TextOf(row.regime) && '\r' !in TextOf(row.volatility)
  }

  ghost predicate AllReturnFree(rows: seq<FeatureRow>)
  {
    forall i :: 0 <= i < |rows| ==> ReturnFree(rows[i])
  }

  lemma RowReturnFree(p: Printer, row: FeatureRow)
    requires RowPrints(p, row) && ReturnFree(row)
    ensures '\r' !in Join(Fields(p, row), ',')
  {
    forall i | 0 <= i < |row.values| && row.values[i].Some?
      ensures Plain(Cells(p, row.values)[i])
    {
      assert Prints(p, row.values[i].value);
    }
    JoinFree(Fields(p, row), ',', '\r');
  }

  lemma {:induction false} TextReturnFree(p: Printer, rows: seq<FeatureRow>)
    requires AllPrint(p, rows) && AllSpoolable(rows) && AllReturnFree(rows)
    ensures SpoolText(p, rows).Ok? && '\r' !in SpoolText(p, rows).value
  {
    SpoolLines(p, rows);
    if rows != [] {
      assert RowPrints(p, rows[0]) && ReturnFree(rows[0]);
      RowReturnFree(p, rows[0]);
      TextReturnFree(p, rows[1..]);
    }
  }

  /** A spool without a carriage return reads back as its rows, empty labels apart. */
  lemma SpoolRoundTrip(p: Printer, rows: seq<FeatureRow>)
    requires AllPrint(p, rows) && AllSpoolable(rows) && AllReturnFree(rows)
    ensures SpoolText(p, rows).Ok? && ReadSpool(p, SpoolText(p, rows).value) == Some(NormalRows(rows))
  {
    TextReturnFree(p, rows);
    SpoolLines(p, rows);
    UniversalKeeps(SpoolText(p, rows).value);
    assert (JoinedRows(p, rows) + [""])[..|rows|] == JoinedRows(p, rows);
    ReadJoined(p, rows);
  }

  // ----- Carriage returns --------------------------------------------------------------------------------

  function Breaks(s: string): nat
  {
    if s == "" then 0 else (if s[0] == '\r' || s[0] == '\n' then 1 else 0) + Breaks(s[1..])
  }

  ghost predicate NoReturnNewline(s: string)
  {
    forall i, j :: 0 <= i < j < |s| && j == i + 1 ==> !(s[i] == '\r' && s[j] == '\n')
  }

  lemma {:induction false} UniversalBreaks(s: string)
    requires NoReturnNewline(s)
    ensures |Split(Universal(s), '\n')| == 1 + Breaks(s)
  {
    if s != "" {
      assert !(|s| > 1 && s[0] == '\r' && s[1] == '\n');
      UniversalBreaks(s[1..]);
    }
  }

  lemma {:induction false} BreaksAdd(a: string, b: string)
    ensures Breaks(a + b) == Breaks(a) + Breaks(b)
  {
    if a == "" {
      assert a + b == b;
    } else {
      BreaksAdd(a[1..], b);
      assert (a + b)[1..] == a[1..] + b;
    }
  }

  lemma {:induction false} BreaksFound(s: string)
    ensures '\r' in s ==> Breaks(s) > 0
  {
    if s != "" {
      BreaksFound(s[1..]);
      assert s == [s[0]] + s[1..];
    }
  }

  lemma {:induction false} JoinLast(parts: seq<string>, sep: char)
    requires |parts| >= 2
    ensures var s, last := Join(parts, sep), parts[|parts| - 1];
            s != "" && s[|s| - 1] == if last == "" then sep else last[|last| - 1]
  {
    if |parts| > 2 {
      JoinLast(parts[1..], sep);
    } else {
      assert Join(parts[1..], sep) == parts[1];
    }
  }

  lemma {:induction false} JoinHolds(parts: seq<string>, sep: char, c: char, i: nat)
    requires i < |parts| && c in parts[i]
    ensures c in Join(parts, sep)
  {
    if |parts| > 1 && i > 0 {
      JoinHolds(parts[1..], sep, c, i - 1);
    }
  }

  /** A row's line does not end in a carriage return, and holds one exactly when a text of the row does. */
  lemma LineEnds(p: Printer, row: FeatureRow)
    requires Spoolable(row) && RowPrints(p, row) && row.values != []
    ensures var line := Join(Fields(p, row), ',');
            line != "" && line[|line| - 1] != '\r' && '\n' !in line && (ReturnFree(row) || '\r' in line)
  {
    var fields := Fields(p, row);
    FieldsPlain(p, row);
    JoinFree(fields, ',', '\n');
    JoinLast(fields, ',');
    var last := row.values[|row.values| - 1];
    if last.Some? {
      assert Prints(p, last.value);
    }
    if !ReturnFree(row) {
      var i := if '\r' in row.symbol then 0 else if '\r' in row.tf then 1
               else if '\r' in TextOf(row.regime) then 3 else 4;
      JoinHolds(fields, ',', '\r', i);
    }
  }

  ghost predicate AllHaveValues(rows: seq<FeatureRow>)
  {
    forall i :: 0 <= i < |rows| ==> rows[i].values != []
  }

  lemma LinePrefix(line: string, rest: string)
    requires line != "" && line[|line| - 1] != '\r' && '\n' !in line && NoReturnNewline(rest)
    ensures NoReturnNewline(line + "\n" + rest)
    ensures Breaks(line + "\n" + rest) == Breaks(line) + 1 + Breaks(rest)
  {
    BreaksAdd(line + "\n", rest);
    BreaksAdd(line, "\n");
  }

  /** Every row ends one line, and every carriage return starts another. */
  lemma {:induction false} TextBreaks(p: Printer, rows: seq<FeatureRow>)
    requires AllPrint(p, rows) && AllSpoolable(rows) && AllHaveValues(rows)
    ensures SpoolText(p, rows).Ok? && NoReturnNewline(SpoolText(p, rows).value)
    ensures Breaks(SpoolText(p, rows).value) >= |rows|
    ensures !AllReturnFree(rows) ==> Breaks(SpoolText(p, rows).value) > |rows|
  {
    SpoolLines(p, rows);
    if rows != [] {
      var line := Join(Fields(p, rows[0]), ',');
      assert RowPrints(p, rows[0]) && Spoolable(rows[0]) && rows[0].values != [];
      TextBreaks(p, rows[1..]);
      LineEnds(p, rows[0]);
      LinePrefix(line, SpoolText(p, rows[1..]).value);
      BreaksFound(line);
    }
  }

  /** The spool reads back exactly when no text holds a carriage return: one in a label starts a line of
      its own. */
  lemma SpoolReadsBackIff(p: Printer, rows: seq<FeatureRow>)
    requires AllPrint(p, rows) && AllSpoolable(rows) && AllHaveValues(rows)
    ensures SpoolText(p, rows).Ok?
    ensures ReadSpool(p, SpoolText(p, rows).value) == Some(NormalRows(rows)) <==> AllReturnFree(rows)
  {
    TextBreaks(p, rows);
    if AllReturnFree(rows) {
      SpoolRoundTrip(p, rows);
    } else {
      UniversalBreaks(SpoolText(p, rows).value);
    }
  }

  /** Nothing is lost on the way exactly when, besides, no label is the empty text. */
  lemma NormalIff(row: FeatureRow)
    ensures Normal(row) == row <==> row.regime != Some("") && row.volatility != Some("")
  {
  }
}
