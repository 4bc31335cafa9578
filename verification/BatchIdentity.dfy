/** The identity of a bulk-load unit: BulkLoadSpec, its unit_key and its batch_key
    (services/_batch_utils.py).

    sha256 and the canonical JSON encoding are taken as injective, so a key is the record that is
    hashed. Everything the source turns into text before hashing stays concrete: the symbols enter
    the batch key joined with '|', the values of replace_where enter the unit key printed with str. */
module BatchIdentity {
  import opened Prelude
  import opened Text
  import opened TextOrder
  import opened Decimals

  /** A stored value. A float outside the finite range is kept apart from the finite ones. */
  datatype Cell =
    | Null
    | Label(text: string)
    | Whole(n: int)
    | Flag(on: bool)
    | Number(x: real)
    | NotFinite(tag: string)
    | Instant(us: int)
    | NaiveInstant(us: int)

  /** A table row, keyed by column. */
  type Row = map<string, Cell>

  /** One entry of replace_where: `col = v`, or `col = ANY(vs)`. */
  datatype Scope = Exactly(v: Cell) | AnyOf(vs: seq<Cell>)

  type Where = map<string, Scope>

  datatype Spec = Spec(
    writer: string,
    target: string,
    timeColumn: string,
    tf: string,
    rangeStart: int,
    rangeEnd: int,
    symbols: seq<string>,
    codeKey: string,
    apr: string,
    inputDigest: string,
    replaceWhere: Option<Where>,
    runId: Option<string>)

  /** An entry as the unit key hashes it: printed, a list sorted after printing. */
  datatype Printout = One(text: string) | Several(texts: seq<string>)

  datatype UnitKey = UnitKey(writer: string, target: string, tf: string, where: Option<map<string, Printout>>)

  datatype BatchKey = BatchKey(
    writer: string,
    target: string,
    tf: string,
    rangeStart: int,
    rangeEnd: int,
    symbolsText: string,
    codeKey: string,
    apr: string,
    inputDigest: string,
    unit: UnitKey)

  const SYMBOL_SEPARATOR := '|'

  /** The checks of __post_init__ that matter to a load; it stores the symbols sorted. */
  ghost predicate WellFormed(spec: Spec)
  {
    && spec.writer != "" && spec.target != "" && spec.timeColumn != "" && spec.tf != ""
    && spec.rangeStart < spec.rangeEnd
    && spec.symbols != [] && Ordered(spec.symbols)
    && (spec.replaceWhere.Some? ==> spec.replaceWhere.value != map[])
  }

  // What str gives for a finite float, an aware instant and a naive one: given functions.
  const FloatText: real -> string
  const InstantText: int -> string
  const NaiveText: int -> string

  /** str(value). */
  function Printed(c: Cell): string
  {
    match c
    case Null => "None"
    case Label(text) => text
    case Whole(n) => ShowInt(n)
    case Flag(on) => if on then "True" else "False"
    case Number(x) => FloatText(x)
    case NotFinite(tag) => tag
    case Instant(us) => InstantText(us)
    case NaiveInstant(us) => NaiveText(us)
  }

  function Texts(vs: seq<Cell>): (texts: seq<string>)
    ensures |texts| == |vs|
  {
    seq(|vs|, i requires 0 <= i < |vs| => Printed(vs[i]))
  }

  function Print(scope: Scope): Printout
  {
    match scope
    case Exactly(v) => One(Printed(v))
    case AnyOf(vs) => Several(Sort(Texts(vs)))
  }

  function PrintAll(where: Where): map<string, Printout>
  {
    map c | c in where :: Print(where[c])
  }

  function UnitOf(spec: Spec): UnitKey
  {
    UnitKey(spec.writer, spec.target, spec.tf,
            if spec.replaceWhere.None? then None else Some(PrintAll(spec.replaceWhere.value)))
  }

  function Key(spec: Spec): BatchKey
  {
    BatchKey(spec.writer, spec.target, spec.tf, spec.rangeStart, spec.rangeEnd,
             Join(spec.symbols, SYMBOL_SEPARATOR), spec.codeKey, spec.apr, spec.inputDigest,
             UnitOf(spec))
  }

  /** SQL equality: NULL never matches. */
  predicate SqlEquals(stored: Cell, wanted: Cell)
  {
    stored == wanted && wanted != Null
  }

  predicate InScope(stored: Cell, scope: Scope)
  {
    match scope
    case Exactly(v) => SqlEquals(stored, v)
    case AnyOf(vs) => stored in vs && stored != Null
  }

  /** The DELETE predicate of a replacing load: every entry of the mapping holds of the row. */
  predicate Matches(where: Where, row: Row)
  {
    forall c :: c in where ==> c in row && InScope(row[c], where[c])
  }

  // ----- What the keys tell apart ----------------------------------------------------------------

  /** Two entries print alike: both scalars or both lists, with the same texts in any order. */
  predicate PrintAlike(a: Scope, b: Scope)
  {
    match (a, b)
    case (Exactly(v), Exactly(w)) => Printed(v) == Printed(w)
    case (AnyOf(vs), AnyOf(ws)) => multiset(Texts(vs)) == multiset(Texts(ws))
    case _ => false
  }

  ghost predicate MappingsPrintAlike(a: Option<Where>, b: Option<Where>)
  {
    && (a.Some? <==> b.Some?)
    && (a.Some? ==>
          && a.value.Keys == b.value.Keys
          && forall c :: c in a.value ==> PrintAlike(a.value[c], b.value[c]))
  }

  lemma PrintsAgree(a: Scope, b: Scope)
    ensures Print(a) == Print(b) <==> PrintAlike(a, b)
  {
    if a.AnyOf? && b.AnyOf? {
      SortsAgree(Texts(a.vs), Texts(b.vs));
    }
  }

  lemma MappingsAgree(a: Where, b: Where)
    ensures PrintAll(a) == PrintAll(b) <==> MappingsPrintAlike(Some(a), Some(b))
  {
    forall c | c in a && c in b
      ensures Print(a[c]) == Print(b[c]) <==> PrintAlike(a[c], b[c])
    {
      PrintsAgree(a[c], b[c]);
    }
    assert PrintAll(a).Keys == a.Keys && PrintAll(b).Keys == b.Keys;
    if PrintAll(a) == PrintAll(b) {
      forall c | c in a
        ensures c in b && Print(a[c]) == Print(b[c])
      {
        assert c in PrintAll(b).Keys && PrintAll(a)[c] == PrintAll(b)[c];
      }
    }
  }

  /** Two specs name one unit exactly when they share writer, target and tf and their mappings print
      alike. */
  lemma UnitsAgree(a: Spec, b: Spec)
    ensures UnitOf(a) == UnitOf(b) <==>
            && a.writer == b.writer && a.target == b.target && a.tf == b.tf
            && MappingsPrintAlike(a.replaceWhere, b.replaceWhere)
  {
    if a.replaceWhere.Some? && b.replaceWhere.Some? {
      MappingsAgree(a.replaceWhere.value, b.replaceWhere.value);
    }
  }

  /** b with what no batch key looks at, or looks at through its text only, taken from a. */
  function Relabelled(b: Spec, a: Spec): Spec
  {
    b.(timeColumn := a.timeColumn, runId := a.runId, symbols := a.symbols, replaceWhere := a.replaceWhere)
  }

  /** Two specs have one batch key exactly when they agree on everything but the time column, the
      run, the grouping of symbols that hold the separator themselves, and replace_where values
      that print alike. */
  lemma KeysAgree(a: Spec, b: Spec)
    requires WellFormed(a) && WellFormed(b)
    ensures Key(a) == Key(b) <==>
            && a == Relabelled(b, a)
            && Pieces(a.symbols, SYMBOL_SEPARATOR) == Pieces(b.symbols, SYMBOL_SEPARATOR)
            && MappingsPrintAlike(a.replaceWhere, b.replaceWhere)
  {
    JoinsAgree(a.symbols, b.symbols, SYMBOL_SEPARATOR);
    UnitsAgree(a, b);
  }

  /** While no symbol holds the separator, the symbols are part of the identity as a list. */
  lemma KeysAgreeOnPlainSymbols(a: Spec, b: Spec)
    requires WellFormed(a) && WellFormed(b)
    requires SeparatorFree(a.symbols, SYMBOL_SEPARATOR)
    requires SeparatorFree(b.symbols, SYMBOL_SEPARATOR)
    ensures Key(a) == Key(b) <==>
            && a == b.(timeColumn := a.timeColumn, runId := a.runId, replaceWhere := a.replaceWhere)
            && MappingsPrintAlike(a.replaceWhere, b.replaceWhere)
  {
    KeysAgree(a, b);
    PiecesOfFree(a.symbols, SYMBOL_SEPARATOR);
    PiecesOfFree(b.symbols, SYMBOL_SEPARATOR);
  }

  /** The order a caller lists the symbols in never changes the identity. */
  lemma SymbolOrderNeverMatters(spec: Spec, listed: seq<string>)
    requires multiset(listed) == multiset(spec.symbols)
    ensures Key(spec.(symbols := Sort(listed))) == Key(spec.(symbols := Sort(spec.symbols)))
  {
    SortsAgree(listed, spec.symbols);
  }

  /** Two different symbol lists, one batch key: a completed load of the first makes a load of the
      second a skip. */
  lemma SymbolsCanCollide(a: Spec, b: Spec)
    requires WellFormed(a)
    requires a.symbols == ["A|B"] && b == a.(symbols := ["A", "B"])
    ensures WellFormed(b) && a != b && Key(a) == Key(b)
  {
    assert AtMost("A", "B");
    assert Pieces(a.symbols, SYMBOL_SEPARATOR) == ["A", "B"] by { PiecesOfJoined(); }
    assert Pieces(b.symbols, SYMBOL_SEPARATOR) == ["A", "B"] by { PiecesOfFree(["A", "B"], SYMBOL_SEPARATOR); }
    KeysAgree(a, b);
  }

  lemma PiecesOfJoined()
    ensures Pieces(["A|B"], SYMBOL_SEPARATOR) == ["A", "B"]
  {
    SplitAround("A", "B", SYMBOL_SEPARATOR);
    SplitFree("A", SYMBOL_SEPARATOR);
    SplitFree("B", SYMBOL_SEPARATOR);
    assert "A" + [SYMBOL_SEPARATOR] + "B" == "A|B";
    assert Pieces([], SYMBOL_SEPARATOR) == [];
  }

  // ----- What a unit key says of the DELETE --------------------------------------------------------

  /** The values a stored cell may have to be in the scope. */
  function Wanted(scope: Scope): set<Cell>
  {
    match scope
    case Exactly(v) => {v} - {Null}
    case AnyOf(vs) => (set v | v in vs) - {Null}
  }

  /** Some row can match: no entry asks for NULL alone. */
  ghost predicate Reaches(where: Where)
  {
    forall c :: c in where ==> Wanted(where[c]) != {}
  }

  /** The same columns with the same values wanted, or two mappings that match nothing. */
  ghost predicate SameScope(a: Where, b: Where)
  {
    || (!Reaches(a) && !Reaches(b))
    || (a.Keys == b.Keys && forall c :: c in a ==> Wanted(a[c]) == Wanted(b[c]))
  }

  ghost predicate DeletesAlike(a: Where, b: Where)
  {
    forall row :: Matches(a, row) <==> Matches(b, row)
  }

  /** One cell for each entry. */
  ghost function Witness(where: Where): (row: Row)
    requires Reaches(where)
    ensures row.Keys == where.Keys && forall c :: c in where ==> row[c] in Wanted(where[c])
  {
    map c | c in where :: PickOne(Wanted(where[c]))
  }

  ghost function PickOne(s: set<Cell>): (v: Cell)
    requires s != {}
    ensures v in s
  {
    var v :| v in s;
    v
  }

  lemma MatchesIff(where: Where, row: Row)
    ensures Matches(where, row) <==> forall c :: c in where ==> c in row && row[c] in Wanted(where[c])
  {
    forall c | c in where && c in row
      ensures InScope(row[c], where[c]) <==> row[c] in Wanted(where[c])
    {
    }
  }

  /** A mapping that matches something and deletes as another does wants no more than it. */
  lemma AlikeWantsNoMore(a: Where, b: Where)
    requires Reaches(a) && DeletesAlike(a, b)
    ensures Reaches(b) && b.Keys <= a.Keys
    ensures forall c :: c in b ==> Wanted(a[c]) <= Wanted(b[c])
  {
    var row := Witness(a);
    MatchesIff(a, row);
    MatchesIff(b, row);
    assert Matches(a, row) <==> Matches(b, row);
    forall c, v | c in b && v in Wanted(a[c])
      ensures v in Wanted(b[c])
    {
      var other := row[c := v];
      MatchesIff(a, other);
      MatchesIff(b, other);
      assert Matches(a, other) <==> Matches(b, other);
    }
  }

  /** Two mappings delete the same rows of every table exactly when they want the same values. */
  lemma SameScopeIff(a: Where, b: Where)
    ensures SameScope(a, b) <==> DeletesAlike(a, b)
  {
    if SameScope(a, b) {
      forall row
        ensures Matches(a, row) <==> Matches(b, row)
      {
        MatchesIff(a, row);
        MatchesIff(b, row);
      }
    }
    if DeletesAlike(a, b) && (Reaches(a) || Reaches(b)) {
      assert DeletesAlike(b, a);
      if Reaches(a) {
        AlikeWantsNoMore(a, b);
      } else {
        AlikeWantsNoMore(b, a);
      }
      AlikeWantsNoMore(a, b);
      AlikeWantsNoMore(b, a);
    }
  }

  /** Every value of the mapping is a text. */
  predicate OfLabels(where: Where)
  {
    forall c :: c in where ==>
      match where[c]
      case Exactly(v) => v.Label?
      case AnyOf(vs) => forall v :: v in vs ==> v.Label?
  }

  lemma LabelsPrintThemselves(a: Scope, b: Scope, v: Cell)
    requires PrintAlike(a, b) && v in Wanted(a)
    requires a.AnyOf? ==> forall x :: x in a.vs ==> x.Label?
    requires b.AnyOf? ==> forall x :: x in b.vs ==> x.Label?
    requires (a.Exactly? ==> a.v.Label?) && (b.Exactly? ==> b.v.Label?)
    ensures v in Wanted(b)
  {
    if a.AnyOf? {
      var i :| 0 <= i < |a.vs| && a.vs[i] == v;
      assert Texts(a.vs)[i] in multiset(Texts(b.vs));
      var j :| 0 <= j < |b.vs| && Texts(b.vs)[j] == Texts(a.vs)[i];
      assert b.vs[j] in b.vs && b.vs[j].Label? && a.vs[i].Label?;
      assert b.vs[j].text == Texts(b.vs)[j] && a.vs[i].text == Texts(a.vs)[i];
    }
  }

  /** While every value is a text, one unit key means one DELETE. */
  lemma LabelsKeepTheirScopes(a: Spec, b: Spec)
    requires a.replaceWhere.Some? && b.replaceWhere.Some? && UnitOf(a) == UnitOf(b)
    requires OfLabels(a.replaceWhere.value) && OfLabels(b.replaceWhere.value)
    ensures SameScope(a.replaceWhere.value, b.replaceWhere.value)
  {
    UnitsAgree(a, b);
    var x, y := a.replaceWhere.value, b.replaceWhere.value;
    forall c | c in x
      ensures Wanted(x[c]) == Wanted(y[c])
    {
      assert PrintAlike(x[c], y[c]);
      forall v
        ensures v in Wanted(x[c]) <==> v in Wanted(y[c])
      {
        if v in Wanted(x[c]) {
          LabelsPrintThemselves(x[c], y[c], v);
        }
        if v in Wanted(y[c]) {
          LabelsPrintThemselves(y[c], x[c], v);
        }
      }
    }
  }

  /** The kinds whose text is written out here. */
  predicate Concrete(c: Cell)
  {
    c.Null? || c.Label? || c.Whole? || c.Flag?
  }

  lemma FirstOfText(c: Cell)
    requires c.Null? || c.Whole? || c.Flag?
    ensures Printed(c) != ""
    ensures Printed(c)[0] == 'N' <==> c == Null
    ensures Printed(c)[0] == 'T' <==> c == Flag(true)
    ensures Printed(c)[0] == 'F' <==> c == Flag(false)
  {
    assert "None"[0] == 'N' && "True"[0] == 'T' && "False"[0] == 'F';
  }

  /** Two different values with one text: one of them is that text. */
  lemma OneTextTwoValues(x: Cell, y: Cell)
    requires Concrete(x) && Concrete(y) && x != y && Printed(x) == Printed(y)
    ensures x == Label(Printed(x)) || y == Label(Printed(x))
  {
    if !x.Label? && !y.Label? {
      FirstOfText(x);
      FirstOfText(y);
      IntRoundTrip(if x.Whole? then x.n else 0);
      IntRoundTrip(if y.Whole? then y.n else 0);
    }
  }

  /** A missing value and the text "None", a number and its digits: one batch key, two DELETEs. */
  lemma PrintsCanCollide(none: Spec, text: Spec, number: Spec, digits: Spec)
    requires none.replaceWhere == Some(map["job" := Exactly(Null)])
    requires text == none.(replaceWhere := Some(map["job" := Exactly(Label("None"))]))
    requires number == none.(replaceWhere := Some(map["job" := Exactly(Whole(1))]))
    requires digits == none.(replaceWhere := Some(map["job" := Exactly(Label("1"))]))
    ensures Key(none) == Key(text) && !DeletesAlike(none.replaceWhere.value, text.replaceWhere.value)
    ensures Key(number) == Key(digits) && !DeletesAlike(number.replaceWhere.value, digits.replaceWhere.value)
  {
    UnitsAgree(none, text);
    UnitsAgree(number, digits);
    assert ShowInt(1) == "1";
    SameScopeIff(none.replaceWhere.value, text.replaceWhere.value);
    SameScopeIff(number.replaceWhere.value, digits.replaceWhere.value);
    assert Wanted(text.replaceWhere.value["job"]) == {Label("None")};
    assert Wanted(number.replaceWhere.value["job"]) == {Whole(1)};
    assert Wanted(digits.replaceWhere.value["job"]) == {Label("1")};
    assert Label("None") in Wanted(text.replaceWhere.value["job"]);
    assert Whole(1) !in Wanted(digits.replaceWhere.value["job"]);
  }
}
