/** Joining fields with a separator character and splitting them again: the text layer of the
    symbol hash (services/_batch_utils.py) and of the spool line (backfill_feature_factory.py). */
module Text {

  function Join(parts: seq<string>, sep: char): (r: string)
  {
    if |parts| == 0 then ""
    else if |parts| == 1 then parts[0]
    else parts[0] + [sep] + Join(parts[1..], sep)
  }

  function Split(s: string, sep: char): (r: seq<string>)
    ensures |r| >= 1
    ensures forall i :: 0 <= i < |r| ==> sep !in r[i]
  {
    if s == "" then [""] else Prepend(s[0], Split(s[1..], sep), sep)
  }

  /** One more character in front of split fields. */
  function Prepend(c: char, rest: seq<string>, sep: char): (r: seq<string>)
    requires rest != []
  {
    if c == sep then [""] + rest else [[c] + rest[0]] + rest[1..]
  }

  /** The separator-free pieces of a list of fields. */
  function Pieces(parts: seq<string>, sep: char): (r: seq<string>)
  {
    if parts == [] then [] else Split(parts[0], sep) + Pieces(parts[1..], sep)
  }

  ghost predicate SeparatorFree(parts: seq<string>, sep: char)
  {
    forall i :: 0 <= i < |parts| ==> sep !in parts[i]
  }

  lemma PrependToFirst(c: char, a: seq<string>, b: seq<string>, sep: char)
    requires a != []
    ensures Prepend(c, a + b, sep) == Prepend(c, a, sep) + b
  {
  }

  lemma {:induction false} SplitAround(a: string, b: string, sep: char)
    ensures Split(a + [sep] + b, sep) == Split(a, sep) + Split(b, sep)
  {
    var whole := a + [sep] + b;
    if a == "" {
      assert whole[1..] == b;
    } else {
      assert whole[1..] == a[1..] + [sep] + b;
      SplitAround(a[1..], b, sep);
      PrependToFirst(a[0], Split(a[1..], sep), Split(b, sep), sep);
    }
  }

  lemma {:induction false} SplitOfJoin(parts: seq<string>, sep: char)
    requires parts != []
    ensures Split(Join(parts, sep), sep) == Pieces(parts, sep)
  {
    if |parts| == 1 {
      assert Pieces(parts[1..], sep) == [];
    } else {
      SplitAround(parts[0], Join(parts[1..], sep), sep);
      SplitOfJoin(parts[1..], sep);
    }
  }

  lemma JoinOfPrepend(c: char, rest: seq<string>, sep: char)
    requires rest != []
    ensures Join(Prepend(c, rest, sep), sep) == [c] + Join(rest, sep)
  {
    var r := Prepend(c, rest, sep);
    if c == sep {
      assert r[1..] == rest;
    } else if |rest| > 1 {
      assert r[1..] == rest[1..];
      assert Join(r, sep) == r[0] + ([sep] + Join(rest[1..], sep));
      assert Join(rest, sep) == rest[0] + ([sep] + Join(rest[1..], sep));
    }
  }

  lemma {:induction false} JoinOfSplit(s: string, sep: char)
    ensures Join(Split(s, sep), sep) == s
  {
    if s != "" {
      JoinOfSplit(s[1..], sep);
      JoinOfPrepend(s[0], Split(s[1..], sep), sep);
      assert [s[0]] + s[1..] == s;
    }
  }

  lemma {:induction false} SplitFree(s: string, sep: char)
    requires sep !in s
    ensures Split(s, sep) == [s]
  {
    if s != "" {
      assert forall c :: c in s[1..] ==> c in s;
      SplitFree(s[1..], sep);
      assert [s[0]] + s[1..] == s;
    }
  }

  lemma {:induction false} PiecesOfFree(parts: seq<string>, sep: char)
    requires SeparatorFree(parts, sep)
    ensures Pieces(parts, sep) == parts
  {
    if parts != [] {
      SplitFree(parts[0], sep);
      PiecesOfFree(parts[1..], sep);
    }
  }

  /** Two joined lists are the same text exactly when they break into the same pieces. */
  lemma JoinsAgree(xs: seq<string>, ys: seq<string>, sep: char)
    requires xs != [] && ys != []
    ensures Join(xs, sep) == Join(ys, sep) <==> Pieces(xs, sep) == Pieces(ys, sep)
  {
    SplitOfJoin(xs, sep);
    SplitOfJoin(ys, sep);
    JoinOfSplit(Join(xs, sep), sep);
    JoinOfSplit(Join(ys, sep), sep);
  }

  /** Splitting undoes joining for any non-empty list of fields that hold no separator. */
  lemma FieldsRoundTrip(parts: seq<string>, sep: char)
    requires parts != [] && SeparatorFree(parts, sep)
    ensures Split(Join(parts, sep), sep) == parts
  {
    SplitOfJoin(parts, sep);
    PiecesOfFree(parts, sep);
  }
}
