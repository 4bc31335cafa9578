/** Row counts by timeframe, symbol chunk and month, and their pro-rated sums over any interval
    (RowCounts of services/corpus_rerun_budget.py). */
module RowCounts {
  import opened Prelude
  import opened Civil

  datatype Tf = D1 | H1 | M15 | M5

  const DAILY: set<Tf> := {D1}
  const INTRADAY: set<Tf> := {H1, M15, M5}
  const EVERY_TF: set<Tf> := {D1, H1, M15, M5}

  /** The key of one count. */
  datatype Cell = Cell(tf: Tf, chunk: nat, month: Month)

  /** One count, with its month's bounds as rows() computes them. */
  datatype Entry = Entry(cell: Cell, start: Time, end: Time, n: real)

  type Counts = seq<Entry>

  /** The entry of a dictionary item. */
  function EntryOf(cell: Cell, n: real): Entry
    requires IsMonth(cell.month)
  {
    Entry(cell, MonthStart(cell.month), MonthEnd(cell.month), n)
  }

  /** No count is negative and every month has a length. */
  ghost predicate Valid(counts: Counts)
  {
    forall i :: 0 <= i < |counts| ==> counts[i].start < counts[i].end && counts[i].n >= 0.0
  }

  /** A dictionary on the calendar: true months with their true bounds, no key twice. */
  ghost predicate OnCalendar(counts: Counts)
  {
    && (forall i :: 0 <= i < |counts| ==>
          IsMonth(counts[i].cell.month) && counts[i] == EntryOf(counts[i].cell, counts[i].n))
    && (forall i, j :: 0 <= i < j < |counts| ==> counts[i].cell != counts[j].cell)
  }

  /** What rows() is asked: an interval, timeframes, and one symbol chunk or all. */
  datatype Query = Query(lo: Time, hi: Time, tfs: set<Tf>, chunk: Option<nat>)

  function Min(a: int, b: int): int { if a < b then a else b }

  function Max(a: int, b: int): int { if a > b then a else b }

  /** The share of [start, end) inside [lo, hi). */
  function Fraction(start: Time, end: Time, lo: Time, hi: Time): (r: real)
    requires start < end
    ensures 0.0 <= r <= 1.0
  {
    var overlap := Min(end, hi) - Max(start, lo);
    if overlap > 0 then
      Quotients(overlap, 0, end - start);
      overlap as real / (end - start) as real
    else 0.0
  }

  lemma Quotients(a: int, b: int, width: int)
    requires width > 0 && a >= 0 && b >= 0
    ensures a as real / width as real >= 0.0
    ensures a <= width ==> a as real / width as real <= 1.0
    ensures (a + b) as real / width as real == a as real / width as real + b as real / width as real
    ensures width as real / width as real == 1.0
  {
    var x, y, w := a as real, b as real, width as real;
    assert (a + b) as real == x + y;
    assert (x + y) / w == x / w + y / w;
    assert x / w >= 0.0;
    assert w != 0.0;
    assert w / w == 1.0;
    if a <= width {
      assert x / w <= w / w;
    }
  }

  lemma Distributes(n: real, a: real, b: real)
    ensures n * (a + b) == n * a + n * b
  {
  }

  lemma ScaleOrders(n: real, m: real, f: real)
    requires 0.0 <= n <= m && 0.0 <= f <= 1.0
    ensures 0.0 <= n * f <= m * f
    ensures n * f <= n
  {
    Distributes(f, n, m - n);
    assert f * (m - n) >= 0.0;
    Distributes(n, f, 1.0 - f);
    assert n * (1.0 - f) >= 0.0;
  }

  /** Cutting the interval cuts the fraction. */
  lemma FractionAdds(start: Time, end: Time, lo: Time, mid: Time, hi: Time)
    requires start < end && lo <= mid <= hi
    ensures Fraction(start, end, lo, hi) == Fraction(start, end, lo, mid) + Fraction(start, end, mid, hi)
  {
    var a, b := Min(end, mid) - Max(start, lo), Min(end, hi) - Max(start, mid);
    if a > 0 && b > 0 {
      Quotients(a, b, end - start);
    }
  }

  /** A stretch inside the month counts its share of the month's length. */
  lemma FractionIsShare(start: Time, end: Time, lo: Time, hi: Time)
    requires start < end && start <= lo <= hi <= end
    ensures Fraction(start, end, lo, hi) * (end - start) as real == (hi - lo) as real
  {
    var part, all := (hi - lo) as real, (end - start) as real;
    assert part / all * all == part;
  }

  /** A month inside the interval counts whole, one outside counts nothing. */
  lemma FractionEnds(start: Time, end: Time, lo: Time, hi: Time)
    requires start < end
    ensures lo <= start && end <= hi ==> Fraction(start, end, lo, hi) == 1.0
    ensures hi <= start || end <= lo ==> Fraction(start, end, lo, hi) == 0.0
  {
    Quotients(end - start, 0, end - start);
  }

  predicate Asked(cell: Cell, q: Query)
  {
    cell.tf in q.tfs && (q.chunk.None? || q.chunk.value == cell.chunk)
  }

  function Term(e: Entry, q: Query): (r: real)
    requires e.start < e.end
  {
    if Asked(e.cell, q) then e.n * Fraction(e.start, e.end, q.lo, q.hi) else 0.0
  }

  lemma TermCuts(e: Entry, lo: Time, mid: Time, hi: Time, tfs: set<Tf>)
    requires e.start < e.end && lo <= mid <= hi
    ensures Term(e, Query(lo, hi, tfs, None)) ==
            Term(e, Query(lo, mid, tfs, None)) + Term(e, Query(mid, hi, tfs, None))
  {
    FractionAdds(e.start, e.end, lo, mid, hi);
    Distributes(e.n, Fraction(e.start, e.end, lo, mid), Fraction(e.start, e.end, mid, hi));
  }

  lemma TermGrows(d: Entry, e: Entry, q: Query)
    requires e.start < e.end && d == e.(n := d.n) && 0.0 <= d.n <= e.n
    ensures 0.0 <= Term(d, q) <= Term(e, q) <= e.n
  {
    var f := Fraction(e.start, e.end, q.lo, q.hi);
    ScaleOrders(d.n, e.n, f);
    ScaleOrders(e.n, e.n, f);
  }

  /** The sum over the first k entries. */
  function SumTo(counts: Counts, k: nat, q: Query): (r: real)
    requires k <= |counts| && forall i :: 0 <= i < |counts| ==> counts[i].start < counts[i].end
  {
    if k == 0 then 0.0 else SumTo(counts, k - 1, q) + Term(counts[k - 1], q)
  }

  function Sum(counts: Counts, q: Query): real
    requires forall i :: 0 <= i < |counts| ==> counts[i].start < counts[i].end
  {
    SumTo(counts, |counts|, q)
  }

  function Rows(counts: Counts, lo: Time, hi: Time, tfs: set<Tf>): real
    requires forall i :: 0 <= i < |counts| ==> counts[i].start < counts[i].end
  {
    Sum(counts, Query(lo, hi, tfs, None))
  }

  /** RowCounts.rows: the loop over the dictionary. */
  method CountRows(counts: Counts, q: Query) returns (total: real)
    requires Valid(counts)
    ensures total == Sum(counts, q)
  {
    total := 0.0;
    var i := 0;
    while i < |counts|
      invariant 0 <= i <= |counts|
      invariant total == SumTo(counts, i, q)
    {
      var e := counts[i];
      if !(e.cell.tf !in q.tfs || (q.chunk.Some? && e.cell.chunk != q.chunk.value)) {
        var overlap := Min(e.end, q.hi) - Max(e.start, q.lo);
        if overlap > 0 {
          total := total + e.n * (overlap as real / (e.end - e.start) as real);
        }
      }
      i := i + 1;
    }
  }

  /** One month's rows are spread evenly over it: a stretch inside it holds its share of them. */
  lemma RowsAreSpreadEvenly(e: Entry, lo: Time, hi: Time)
    requires e.start < e.end && e.start <= lo <= hi <= e.end
    ensures Rows([e], lo, hi, {e.cell.tf}) * (e.end - e.start) as real == e.n * (hi - lo) as real
  {
    var q := Query(lo, hi, {e.cell.tf}, None);
    var f, all := Fraction(e.start, e.end, lo, hi), (e.end - e.start) as real;
    FractionIsShare(e.start, e.end, lo, hi);
    assert SumTo([e], 1, q) == SumTo([e], 0, q) + Term(e, q);
    assert e.n * f * all == e.n * (f * all);
  }

  // ----- Comparing and cutting sums ----------------------------------------------------------------

  lemma {:induction false} SumToOrders(c: Counts, d: Counts, k: nat, q: Query, r: Query)
    requires Valid(c) && Valid(d) && k <= |c| == |d|
    requires forall i :: 0 <= i < k ==> Term(c[i], q) <= Term(d[i], r)
    ensures SumTo(c, k, q) <= SumTo(d, k, r)
  {
    if k > 0 {
      SumToOrders(c, d, k - 1, q, r);
    }
  }

  lemma {:induction false} SumToCuts(c: Counts, k: nat, q: Query, a: Query, b: Query)
    requires Valid(c) && k <= |c|
    requires forall i :: 0 <= i < k ==> Term(c[i], q) == Term(c[i], a) + Term(c[i], b)
    ensures SumTo(c, k, q) == SumTo(c, k, a) + SumTo(c, k, b)
  {
    if k > 0 {
      SumToCuts(c, k - 1, q, a, b);
    }
  }

  lemma {:induction false} SumToVanishes(c: Counts, k: nat, q: Query)
    requires Valid(c) && k <= |c|
    requires forall i :: 0 <= i < k ==> Term(c[i], q) == 0.0
    ensures SumTo(c, k, q) == 0.0
  {
    if k > 0 {
      SumToVanishes(c, k - 1, q);
    }
  }

  /** A sum is never negative. */
  lemma RowsNonNegative(c: Counts, q: Query)
    requires Valid(c)
    ensures Sum(c, q) >= 0.0
  {
    NonNegativeTo(c, |c|, q);
  }

  lemma {:induction false} NonNegativeTo(c: Counts, k: nat, q: Query)
    requires Valid(c) && k <= |c|
    ensures SumTo(c, k, q) >= 0.0
  {
    if k > 0 {
      TermGrows(c[k - 1], c[k - 1], q);
      NonNegativeTo(c, k - 1, q);
    }
  }

  /** Cutting the interval cuts the rows: no row is counted twice and none is lost. */
  lemma RowsAddOverTime(c: Counts, lo: Time, mid: Time, hi: Time, tfs: set<Tf>)
    requires Valid(c) && lo <= mid <= hi
    ensures Rows(c, lo, hi, tfs) == Rows(c, lo, mid, tfs) + Rows(c, mid, hi, tfs)
  {
    var q, a, b := Query(lo, hi, tfs, None), Query(lo, mid, tfs, None), Query(mid, hi, tfs, None);
    forall i | 0 <= i < |c|
      ensures Term(c[i], q) == Term(c[i], a) + Term(c[i], b)
    {
      TermCuts(c[i], lo, mid, hi, tfs);
    }
    SumToCuts(c, |c|, q, a, b);
  }

  /** Disjoint sets of timeframes cut the rows too. */
  lemma RowsAddOverTfs(c: Counts, lo: Time, hi: Time, tfs: set<Tf>, a: set<Tf>, b: set<Tf>)
    requires Valid(c) && a !! b && tfs == a + b
    ensures Rows(c, lo, hi, tfs) == Rows(c, lo, hi, a) + Rows(c, lo, hi, b)
  {
    var q, p, r := Query(lo, hi, tfs, None), Query(lo, hi, a, None), Query(lo, hi, b, None);
    forall i | 0 <= i < |c|
      ensures Term(c[i], q) == Term(c[i], p) + Term(c[i], r)
    {
      assert Asked(c[i].cell, q) <==> Asked(c[i].cell, p) || Asked(c[i].cell, r);
    }
    SumToCuts(c, |c|, q, p, r);
  }

  // ----- A part of the counts -------------------------------------------------------------------------

  /** The same cells with at most the same counts: what is already written of them, say. */
  ghost predicate Within(w: Counts, c: Counts)
  {
    && |w| == |c|
    && forall i :: 0 <= i < |c| ==> w[i] == c[i].(n := w[i].n) && 0.0 <= w[i].n <= c[i].n
  }

  lemma PartIsValid(w: Counts, c: Counts)
    requires Valid(c) && Within(w, c)
    ensures Valid(w)
  {
  }

  lemma PartIsLess(w: Counts, c: Counts, q: Query)
    requires Valid(c) && Valid(w) && Within(w, c)
    ensures Sum(w, q) <= Sum(c, q)
  {
    forall i | 0 <= i < |c|
      ensures Term(w[i], q) <= Term(c[i], q)
    {
      TermGrows(w[i], c[i], q);
    }
    SumToOrders(w, c, |c|, q, q);
  }

  /** Nothing is counted where every asked cell is empty or lies outside the interval. */
  lemma RowsVanish(c: Counts, lo: Time, hi: Time, tfs: set<Tf>)
    requires Valid(c)
    requires hi <= lo || forall i :: 0 <= i < |c| && c[i].cell.tf in tfs ==>
               c[i].n == 0.0 || hi <= c[i].start || c[i].end <= lo
    ensures Rows(c, lo, hi, tfs) == 0.0
  {
    var q := Query(lo, hi, tfs, None);
    forall i | 0 <= i < |c|
      ensures Term(c[i], q) == 0.0
    {
      FractionEnds(c[i].start, c[i].end, lo, hi);
    }
    SumToVanishes(c, |c|, q);
  }

  // ----- minus: rows already stored are not growth ------------------------------------------------------

  function CountOf(counts: Counts, cell: Cell): (n: real)
  {
    if counts == [] then 0.0
    else if counts[0].cell == cell then counts[0].n
    else CountOf(counts[1..], cell)
  }

  function Minus(counts: Counts, stored: Counts): (r: Counts)
    ensures |r| == |counts|
  {
    seq(|counts|, i requires 0 <= i < |counts| =>
      var left := counts[i].n - CountOf(stored, counts[i].cell);
      counts[i].(n := if left > 0.0 then left else 0.0))
  }

  lemma {:induction false} CountOfIs(counts: Counts, cell: Cell, j: nat)
    requires j <= |counts| && forall i :: 0 <= i < j ==> counts[i].cell != cell
    requires j < |counts| ==> counts[j].cell == cell
    ensures CountOf(counts, cell) == if j < |counts| then counts[j].n else 0.0
  {
    if j > 0 {
      CountOfIs(counts[1..], cell, j - 1);
    }
  }

  /** Nothing of a cell that is not stored is taken off, and of a stored one its rows, down to zero. */
  lemma MinusTakesTheCell(counts: Counts, stored: Counts, i: nat, j: nat)
    requires Valid(counts) && Valid(stored) && i < |counts| && j <= |stored|
    requires forall k :: 0 <= k < j ==> stored[k].cell != counts[i].cell
    requires j < |stored| ==> stored[j].cell == counts[i].cell
    ensures Minus(counts, stored)[i].cell == counts[i].cell
    ensures j == |stored| ==> Minus(counts, stored)[i].n == counts[i].n
    ensures j < |stored| && stored[j].n <= counts[i].n ==> Minus(counts, stored)[i].n == counts[i].n - stored[j].n
    ensures j < |stored| && stored[j].n >= counts[i].n ==> Minus(counts, stored)[i].n == 0.0
  {
    CountOfIs(stored, counts[i].cell, j);
    MinusLeavesTheRest(counts, stored);
  }

  lemma {:induction false} CountOfStored(stored: Counts, cell: Cell)
    requires Valid(stored)
    ensures CountOf(stored, cell) >= 0.0
  {
    if stored != [] {
      CountOfStored(stored[1..], cell);
    }
  }

  /** What is left to write is part of the counts, and with what is stored covers them: cell by
      cell, left + stored is at least the count, and exactly the count unless more is stored. */
  lemma MinusLeavesTheRest(counts: Counts, stored: Counts)
    requires Valid(counts) && Valid(stored)
    ensures Within(Minus(counts, stored), counts) && Valid(Minus(counts, stored))
    ensures forall i :: 0 <= i < |counts| ==>
              var s := CountOf(stored, counts[i].cell);
              Minus(counts, stored)[i].n == if s <= counts[i].n then counts[i].n - s else 0.0
  {
    forall i | 0 <= i < |counts|
      ensures CountOf(stored, counts[i].cell) >= 0.0
    {
      CountOfStored(stored, counts[i].cell);
    }
  }
}
