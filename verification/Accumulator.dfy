/** Float32ChunkAccumulator (services/_batch_utils.py): rows buffered into chunks in memory, or written at a
    running offset into a preallocated scratch file. Conversion to float32 happens row by row and is taken as
    done. */
module Accumulator {
  import opened Prelude

  // ----- What an accumulator does, in either mode ------------------------------------------------

  /** Rows already in a chunk or on disk, and rows still buffered. */
  datatype State<R> = State(flushed: seq<R>, buf: seq<R>)

  datatype Op<R> = Row(row: R) | Chunk(rows: seq<R>)

  function Apply<R>(s: State<R>, op: Op<R>, flushAt: Option<int>): State<R>
  {
    match op
    case Row(row) =>
      var buf := s.buf + [row];
      if flushAt.Some? && |buf| >= flushAt.value then State(s.flushed + buf, []) else s.(buf := buf)
    case Chunk(rows) => s.(flushed := s.flushed + rows)
  }

  function ApplyAll<R>(s: State<R>, ops: seq<Op<R>>, flushAt: Option<int>): State<R>
    decreases |ops|
  {
    if ops == [] then s else ApplyAll(Apply(s, ops[0], flushAt), ops[1..], flushAt)
  }

  /** The rows finalize returns. */
  function Final<R>(s: State<R>): seq<R>
  {
    s.flushed + s.buf
  }

  function RowsOf<R>(op: Op<R>): seq<R>
  {
    match op case Row(row) => [row] case Chunk(rows) => rows
  }

  function CallOrder<R>(ops: seq<Op<R>>): seq<R>
  {
    if ops == [] then [] else RowsOf(ops[0]) + CallOrder(ops[1..])
  }

  /** Some chunk is appended while rows are buffered, so it overtakes them. */
  predicate Overtakes<R(==)>(s: State<R>, ops: seq<Op<R>>, flushAt: Option<int>)
    decreases |ops|
  {
    ops != [] &&
    ((ops[0].Chunk? && ops[0].rows != [] && s.buf != []) || Overtakes(Apply(s, ops[0], flushAt), ops[1..], flushAt))
  }

  lemma {:induction false} InCallOrder<R>(s: State<R>, ops: seq<Op<R>>, flushAt: Option<int>)
    requires !Overtakes(s, ops, flushAt)
    ensures Final(ApplyAll(s, ops, flushAt)) == Final(s) + CallOrder(ops)
    decreases |ops|
  {
    if ops != [] {
      InCallOrder(Apply(s, ops[0], flushAt), ops[1..], flushAt);
      assert Final(Apply(s, ops[0], flushAt)) == Final(s) + RowsOf(ops[0]);
    }
  }

  /** One append mode alone keeps the rows in call order. */
  lemma {:induction false} OneModeKeepsOrder<R>(s: State<R>, ops: seq<Op<R>>, flushAt: Option<int>)
    requires (forall i :: 0 <= i < |ops| ==> ops[i].Row?) ||
             (s.buf == [] && forall i :: 0 <= i < |ops| ==> ops[i].Chunk?)
    ensures !Overtakes(s, ops, flushAt)
    ensures Final(ApplyAll(s, ops, flushAt)) == Final(s) + CallOrder(ops)
    decreases |ops|
  {
    if ops != [] {
      assert forall i :: 0 <= i < |ops[1..]| ==> ops[1..][i] == ops[i + 1];
      OneModeKeepsOrder(Apply(s, ops[0], flushAt), ops[1..], flushAt);
    }
    InCallOrder(s, ops, flushAt);
  }

  lemma {:induction false} FlushedStays<R>(s: State<R>, ops: seq<Op<R>>, flushAt: Option<int>)
    ensures var f := ApplyAll(s, ops, flushAt).flushed; |s.flushed| <= |f| && f[..|s.flushed|] == s.flushed
    decreases |ops|
  {
    if ops != [] {
      var next := Apply(s, ops[0], flushAt);
      FlushedStays(next, ops[1..], flushAt);
      var f := ApplyAll(s, ops, flushAt).flushed;
      assert f[..|next.flushed|][..|s.flushed|] == f[..|s.flushed|];
    }
  }

  ghost predicate AllDistinct<R>(rows: seq<R>)
  {
    forall i, j :: 0 <= i < j < |rows| ==> rows[i] != rows[j]
  }

  lemma OvertakingShows<R>(s: State<R>, ops: seq<Op<R>>, flushAt: Option<int>)
    requires ops != [] && ops[0].Chunk? && ops[0].rows != [] && s.buf != []
    requires AllDistinct(Final(s) + CallOrder(ops))
    ensures Final(ApplyAll(s, ops, flushAt)) != Final(s) + CallOrder(ops)
  {
    var next, at := Apply(s, ops[0], flushAt), |s.flushed|;
    FlushedStays(next, ops[1..], flushAt);
    var f := ApplyAll(s, ops, flushAt).flushed;
    assert f[at] == f[..|next.flushed|][at] == ops[0].rows[0];
    var inOrder := Final(s) + CallOrder(ops);
    assert inOrder[at] == s.buf[0] && inOrder[|Final(s)|] == ops[0].rows[0];
  }

  /** With distinct rows, finalize gives them in call order exactly when no chunk overtook buffered rows. */
  lemma {:induction false} CallOrderIff<R>(s: State<R>, ops: seq<Op<R>>, flushAt: Option<int>)
    requires AllDistinct(Final(s) + CallOrder(ops))
    ensures Final(ApplyAll(s, ops, flushAt)) == Final(s) + CallOrder(ops) <==> !Overtakes(s, ops, flushAt)
    decreases |ops|
  {
    if !Overtakes(s, ops, flushAt) {
      InCallOrder(s, ops, flushAt);
    } else if ops[0].Chunk? && ops[0].rows != [] && s.buf != [] {
      OvertakingShows(s, ops, flushAt);
    } else {
      var next := Apply(s, ops[0], flushAt);
      assert Final(next) == Final(s) + RowsOf(ops[0]);
      assert Final(next) + CallOrder(ops[1..]) == Final(s) + CallOrder(ops);
      CallOrderIff(next, ops[1..], flushAt);
    }
  }

  // ----- Overflow --------------------------------------------------------------------------------------

  /** A disk-backed append that does not fit the estimate, or a row append that would never reach the disk. */
  predicate Overflows<R>(s: State<R>, op: Op<R>, flushAt: Option<int>, estimated: nat)
  {
    match op
    case Row(_) => flushAt.None? || |Apply(s, op, flushAt).flushed| > estimated
    case Chunk(rows) => rows != [] && |s.flushed| + |rows| > estimated
  }

  /** No call and no finalize raises. */
  predicate Completes<R>(s: State<R>, ops: seq<Op<R>>, flushAt: Option<int>, estimated: nat)
    decreases |ops|
  {
    if ops == [] then s.buf == [] || |Final(s)| <= estimated
    else !Overflows(s, ops[0], flushAt, estimated) && Completes(Apply(s, ops[0], flushAt), ops[1..], flushAt, estimated)
  }

  predicate AppendsRow<R>(ops: seq<Op<R>>)
  {
    exists i :: 0 <= i < |ops| && ops[i].Row?
  }

  /** A disk-backed accumulator raises exactly when the rows exceed the estimate (or rows are appended one by
      one without a flush size): it never truncates. */
  lemma {:induction false} CompletesIff<R>(s: State<R>, ops: seq<Op<R>>, flushAt: Option<int>, estimated: nat)
    requires |s.flushed| <= estimated
    ensures Completes(s, ops, flushAt, estimated) <==>
              |Final(s)| + |CallOrder(ops)| <= estimated && (flushAt.Some? || !AppendsRow(ops))
    decreases |ops|
  {
    if ops != [] {
      var next := Apply(s, ops[0], flushAt);
      assert |Final(next)| == |Final(s)| + |RowsOf(ops[0])|;
      assert AppendsRow(ops) <==> ops[0].Row? || AppendsRow(ops[1..]) by {
        if AppendsRow(ops[1..]) {
          var i :| 0 <= i < |ops| - 1 && ops[1..][i].Row?;
          assert ops[i + 1].Row?;
        }
        if AppendsRow(ops) && !ops[0].Row? {
          var i :| 0 <= i < |ops| && ops[i].Row?;
          assert ops[1..][i - 1].Row?;
        }
      }
      if |next.flushed| <= estimated {
        CompletesIff(next, ops[1..], flushAt, estimated);
      }
    }
  }

  // ----- The class -----------------------------------------------------------------------------------------

  function Flatten<R>(chunks: seq<seq<R>>): seq<R>
  {
    if chunks == [] then [] else Flatten(chunks[..|chunks| - 1]) + chunks[|chunks| - 1]
  }

  lemma FlattenStep<R>(chunks: seq<seq<R>>, chunk: seq<R>)
    ensures Flatten(chunks + [chunk]) == Flatten(chunks) + chunk
  {
    assert (chunks + [chunk])[..|chunks|] == chunks;
  }

  type Values = seq<real>

  class ChunkAccumulator {
    const flushAt: Option<int>
    const diskBacked: bool
    const memmap: array<Values>
    var chunks: seq<seq<Values>>
    var buf: seq<Values>
    var writeOffset: nat

    ghost predicate Valid()
      reads this, memmap
    {
      && writeOffset <= memmap.Length && (diskBacked ==> chunks == []) && (!diskBacked ==> writeOffset == 0)
      && forall i :: 0 <= i < |chunks| ==> chunks[i] != []
    }

    ghost function Value(): State<Values>
      reads this, memmap
      requires Valid()
    {
      State(if diskBacked then memmap[..writeOffset] else Flatten(chunks), buf)
    }

    /** Disk-backed, the scratch file holds `estimatedRows` rows, and an estimate must be given. */
    constructor (flush: Option<int>, disk: bool, estimatedRows: nat)
      requires disk ==> estimatedRows > 0
      ensures Valid() && fresh(memmap) && flushAt == flush && diskBacked == disk
      ensures Value() == State([], []) && (disk ==> memmap.Length == estimatedRows)
    {
      flushAt, diskBacked := flush, disk;
      memmap := new Values[if disk then estimatedRows else 0](i => []);
      chunks, buf, writeOffset := [], [], 0;
    }

    /** _write_disk_chunk. */
    method WriteDiskChunk(rows: seq<Values>) returns (ok: bool)
      requires Valid() && diskBacked
      modifies this`writeOffset, memmap
      ensures Valid() && ok == (old(writeOffset) + |rows| <= memmap.Length)
      ensures Value() == if ok then State(old(Value()).flushed + rows, buf) else old(Value())
    {
      if writeOffset + |rows| > memmap.Length {
        return false;
      }
      var i := 0;
      while i < |rows|
        invariant 0 <= i <= |rows| && writeOffset == old(writeOffset)
        invariant memmap[..writeOffset] == old(memmap[..writeOffset])
        invariant memmap[writeOffset..writeOffset + i] == rows[..i]
      {
        memmap[writeOffset + i] := rows[i];
        i := i + 1;
      }
      assert memmap[..writeOffset + |rows|] == memmap[..writeOffset] + memmap[writeOffset..writeOffset + |rows|];
      writeOffset := writeOffset + |rows|;
      ok := true;
    }

    /** _flush_buf: on disk the buffer is written, or kept when it does not fit. */
    method FlushBuf() returns (ok: bool)
      requires Valid()
      modifies this`chunks, this`buf, this`writeOffset, memmap
      ensures Valid()
      ensures ok == !(diskBacked && old(buf) != [] && |Final(old(Value()))| > memmap.Length)
      ensures ok ==> Value() == State(old(Value()).flushed + old(buf), [])
      ensures !ok ==> Value() == old(Value())
    {
      if buf == [] {
        return true;
      }
      if diskBacked {
        ok := WriteDiskChunk(buf);
        if !ok {
          return;
        }
      } else {
        FlattenStep(chunks, buf);
        chunks := chunks + [buf];
        ok := true;
      }
      buf := [];
    }

    /** append_row. */
    method AppendRow(row: Values) returns (ok: bool)
      requires Valid()
      modifies this`chunks, this`buf, this`writeOffset, memmap
      ensures Valid() && ok == !(diskBacked && Overflows(old(Value()), Row(row), flushAt, memmap.Length))
      ensures ok ==> Value() == Apply(old(Value()), Row(row), flushAt)
      ensures !ok ==> Value() == if flushAt.None? then old(Value())
                                 else State(old(Value()).flushed, old(Value()).buf + [row])
    {
      if diskBacked && flushAt.None? {
        return false;
      }
      ghost var before := Value();
      buf := buf + [row];
      assert Value() == State(before.flushed, before.buf + [row]);
      ok := true;
      if flushAt.Some? && |buf| >= flushAt.value {
        ok := FlushBuf();
      }
    }

    /** append_chunk. */
    method AppendChunk(rows: seq<Values>) returns (ok: bool)
      requires Valid()
      modifies this`chunks, this`writeOffset, memmap
      ensures Valid() && ok == !(diskBacked && Overflows(old(Value()), Chunk(rows), flushAt, memmap.Length))
      ensures ok ==> Value() == Apply(old(Value()), Chunk(rows), flushAt)
      ensures !ok ==> Value() == old(Value())
    {
      if rows == [] {
        return true;
      }
      if diskBacked {
        ok := WriteDiskChunk(rows);
      } else {
        FlattenStep(chunks, rows);
        chunks := chunks + [rows];
        ok := true;
      }
    }

    /** finalize: nothing appended gives None. In memory the chunks are given up, so a second call starts from
        nothing; on disk the rows stay. */
    method Finalize() returns (ok: bool, result: Option<seq<Values>>)
      requires Valid()
      modifies this`chunks, this`buf, this`writeOffset, memmap
      ensures Valid()
      ensures ok == !(diskBacked && old(buf) != [] && |Final(old(Value()))| > memmap.Length)
      ensures ok ==> result == if Final(old(Value())) == [] then None else Some(Final(old(Value())))
      ensures Value() == if !ok then old(Value()) else State(if diskBacked then Final(old(Value())) else [], [])
    {
      ok := FlushBuf();
      if !ok {
        return ok, None;
      }
      if diskBacked {
        result := if writeOffset == 0 then None else Some(memmap[..writeOffset]);
      } else {
        result := if chunks == [] then None else Some(Flatten(chunks));
        chunks := [];
      }
    }
  }
}
