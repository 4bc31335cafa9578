/** Several processes running steps of one corpus run at once, statement by statement
    (CorpusRerun.execute over RunStore, services/corpus_rerun.py): what StepRunner proves of whole calls,
    with the reads and writes of different calls in any order between one another. */
module StepRaces {
  import opened Prelude
  import opened RunnerChain
  import opened StepRunner

  /** A process inside execute, on step `at`: its upstream read completed, then its row begun. */
  datatype Process = Checked(at: nat) | Begun(at: nat)

  type Pid = nat

  datatype Shared = Shared(store: Store, running: map<Pid, Process>)

  /** One statement of one process, or its end, kills included. */
  datatype Statement =
    | ReadUpstream(pid: Pid, at: nat)
    | BeginRow(pid: Pid)
    | WriteGate(pid: Pid, w: GateWrite)
    | FinishRow(pid: Pid, status: Status, summary: string)
    | Leave(pid: Pid)

  /** The data gate's step is completed by its own transaction only. */
  predicate Enabled(s: Shared, kinds: seq<Kind>, st: Statement)
  {
    match st
    case ReadUpstream(pid, at) => pid !in s.running && at < |kinds| && UpstreamDone(s.store, StepAt(kinds, at))
    case BeginRow(pid) => pid in s.running && s.running[pid].Checked?
    case WriteGate(pid, w) =>
      pid in s.running && s.running[pid].Begun? && s.running[pid].at < |kinds| && kinds[s.running[pid].at] == DataGate
    case FinishRow(pid, status, summary) =>
      && pid in s.running && s.running[pid].Begun? && status != Started && s.running[pid].at < |kinds|
      && (kinds[s.running[pid].at] == DataGate ==> status == Failed)
    case Leave(pid) => pid in s.running
  }

  function Apply(s: Shared, kinds: seq<Kind>, st: Statement): Shared
    requires Enabled(s, kinds, st) && forall pid :: pid in s.running ==> s.running[pid].at < |kinds|
  {
    match st
    case ReadUpstream(pid, at) => s.(running := s.running[pid := Checked(at)])
    case BeginRow(pid) =>
      Shared(Begin(s.store, NameOf(kinds[s.running[pid].at])), s.running[pid := Begun(s.running[pid].at)])
    case WriteGate(pid, w) => s.(store := CompleteGate(s.store, NameOf(kinds[s.running[pid].at]), w))
    case FinishRow(pid, status, summary) =>
      s.(store := Finish(s.store, NameOf(kinds[s.running[pid].at]), status, summary))
    case Leave(pid) => s.(running := s.running - {pid})
  }

  /** Every step before this one is completed. */
  ghost predicate BelowDone(s: Store, kinds: seq<Kind>, at: nat)
  {
    at < |kinds| && forall i :: 0 <= i < at ==> DoneAt(s, kinds, i)
  }

  ghost predicate RunningInv(s: Store, kinds: seq<Kind>, running: map<Pid, Process>)
  {
    forall pid :: pid in running ==> BelowDone(s, kinds, running[pid].at)
  }

  ghost predicate SharedInv(s: Shared, kinds: seq<Kind>)
  {
    Inv(s.store, kinds) && RunningInv(s.store, kinds, s.running)
  }

  /** What a statement may do to the store: rows of one step, which is completed only with all before it, and
      a completed row stays as it is. */
  ghost predicate Touches(s: Store, next: Store, kinds: seq<Kind>, at: nat)
    requires at < |kinds|
  {
    && (forall name: string :: name != NameOf(kinds[at]) ==> (IsCompleted(next, name) <==> IsCompleted(s, name)))
    && (forall name: string :: IsCompleted(s, name) ==> IsCompleted(next, name) && next.rows[name] == s.rows[name])
  }

  lemma TouchKeepsPrefix(s: Store, next: Store, kinds: seq<Kind>, at: nat)
    requires IsChain(kinds) && CompletedPrefix(s, kinds) && BelowDone(s, kinds, at) && Touches(s, next, kinds, at)
    ensures CompletedPrefix(next, kinds)
  {
    forall i, j | 0 <= i < j < |kinds| && DoneAt(next, kinds, j)
      ensures DoneAt(next, kinds, i)
    {
      if j == at {
        assert DoneAt(s, kinds, i);
      } else {
        assert NameOf(kinds[j]) != NameOf(kinds[at]);
        assert DoneAt(s, kinds, j) && DoneAt(s, kinds, i);
      }
    }
  }

  lemma TouchKeepsRunning(s: Store, next: Store, kinds: seq<Kind>, at: nat, running: map<Pid, Process>)
    requires at < |kinds| && Touches(s, next, kinds, at) && RunningInv(s, kinds, running)
    ensures RunningInv(next, kinds, running)
  {
    forall pid | pid in running
      ensures BelowDone(next, kinds, running[pid].at)
    {
      forall i | 0 <= i < running[pid].at
        ensures DoneAt(next, kinds, i)
      {
        assert DoneAt(s, kinds, i);
      }
    }
  }

  lemma BeginTouches(s: Store, kinds: seq<Kind>, at: nat)
    requires IsChain(kinds) && GateStored(s) && at < |kinds|
    ensures Touches(s, Begin(s, NameOf(kinds[at])), kinds, at) && GateStored(Begin(s, NameOf(kinds[at])))
  {
  }

  lemma FinishTouches(s: Store, kinds: seq<Kind>, at: nat, status: Status, summary: string)
    requires IsChain(kinds) && GateStored(s) && at < |kinds| && status != Started
    requires kinds[at] == DataGate ==> status == Failed
    ensures var next := Finish(s, NameOf(kinds[at]), status, summary); Touches(s, next, kinds, at) && GateStored(next)
  {
    if at > 0 {
      assert NameOf(kinds[0]) != NameOf(kinds[at]);
    }
  }

  lemma GateTouches(s: Store, kinds: seq<Kind>, at: nat, w: GateWrite)
    requires IsChain(kinds) && GateStored(s) && at < |kinds| && kinds[at] == DataGate
    ensures var next := CompleteGate(s, NameOf(kinds[at]), w); Touches(s, next, kinds, at) && GateStored(next)
  {
    CaveatOnce(s.caveats, w.caveat);
  }

  lemma UpstreamIsBelow(s: Store, kinds: seq<Kind>, at: nat)
    requires CompletedPrefix(s, kinds) && at < |kinds| && UpstreamDone(s, StepAt(kinds, at))
    ensures BelowDone(s, kinds, at)
  {
    forall i | 0 <= i < at
      ensures DoneAt(s, kinds, i)
    {
      assert DoneAt(s, kinds, at - 1);
    }
  }

  lemma StatementKeepsInv(s: Shared, kinds: seq<Kind>, st: Statement)
    requires IsChain(kinds) && SharedInv(s, kinds) && Enabled(s, kinds, st)
    ensures SharedInv(Apply(s, kinds, st), kinds)
    ensures forall name: string :: IsCompleted(s.store, name) ==>
              IsCompleted(Apply(s, kinds, st).store, name)
              && Apply(s, kinds, st).store.rows[name] == s.store.rows[name]
  {
    if st.ReadUpstream? {
      UpstreamIsBelow(s.store, kinds, st.at);
    } else if !st.Leave? {
      var at := s.running[st.pid].at;
      assert BelowDone(s.store, kinds, at);
      var next := Apply(s, kinds, st).store;
      match st {
        case BeginRow(_) => BeginTouches(s.store, kinds, at);
        case WriteGate(_, w) => GateTouches(s.store, kinds, at, w);
        case FinishRow(_, status, summary) => FinishTouches(s.store, kinds, at, status, summary);
      }
      TouchKeepsPrefix(s.store, next, kinds, at);
      TouchKeepsRunning(s.store, next, kinds, at, s.running);
    }
  }

  ghost predicate NextAt(kinds: seq<Kind>, states: seq<Shared>, statements: seq<Statement>, i: nat)
    requires i < |statements| && |states| == |statements| + 1
  {
    && (forall pid :: pid in states[i].running ==> states[i].running[pid].at < |kinds|)
    && Enabled(states[i], kinds, statements[i]) && states[i + 1] == Apply(states[i], kinds, statements[i])
  }

  /** A new run's store, and the statements of any processes in any order. */
  ghost predicate Run(kinds: seq<Kind>, states: seq<Shared>, statements: seq<Statement>)
  {
    && |states| == |statements| + 1 && states[0] == Shared(Store(map[], None, []), map[])
    && forall i :: 0 <= i < |statements| ==> NextAt(kinds, states, statements, i)
  }

  lemma {:induction false} RunKeepsInv(kinds: seq<Kind>, states: seq<Shared>, statements: seq<Statement>, i: nat)
    requires IsChain(kinds) && Run(kinds, states, statements) && i < |states|
    ensures SharedInv(states[i], kinds)
  {
    if i > 0 {
      RunKeepsInv(kinds, states, statements, i - 1);
      assert NextAt(kinds, states, statements, i - 1);
      StatementKeepsInv(states[i - 1], kinds, statements[i - 1]);
    }
  }

  /** However many processes run steps of one chain at once, the completed steps are a prefix of it, and the
      data gate's result is stored exactly when its step is completed. */
  lemma PrefixNeedsNoLock(n: nat, states: seq<Shared>, statements: seq<Statement>, m: nat)
    requires Run(Chain(n), states, statements) && m < |states|
    ensures forall i, j :: 0 <= i < j < 3 * n + 8 && DoneAt(states[m].store, Chain(n), j) ==>
              DoneAt(states[m].store, Chain(n), i)
    ensures states[m].store.dataGate.Some? <==> IsCompleted(states[m].store, NameOf(DataGate))
  {
    TheChain(n);
    RunKeepsInv(Chain(n), states, statements, m);
  }

  /** Nor does any statement of any process change a completed step's row. */
  lemma {:induction false} CompletedRowsStay(n: nat, states: seq<Shared>, statements: seq<Statement>, i: nat, j: nat,
                                             name: string)
    requires Run(Chain(n), states, statements) && i <= j < |states| && IsCompleted(states[i].store, name)
    ensures IsCompleted(states[j].store, name) && states[j].store.rows[name] == states[i].store.rows[name]
    decreases j
  {
    if i < j {
      TheChain(n);
      CompletedRowsStay(n, states, statements, i, j - 1, name);
      RunKeepsInv(Chain(n), states, statements, j - 1);
      assert NextAt(Chain(n), states, statements, j - 1);
      StatementKeepsInv(states[j - 1], Chain(n), statements[j - 1]);
    }
  }

  /** A process that runs no step completes any pending step whose upstream is completed, in three statements,
      whatever the other processes are doing. */
  lemma PendingStepCanComplete(s: Shared, kinds: seq<Kind>, pid: Pid, at: nat, w: GateWrite, summary: string)
    requires IsChain(kinds) && SharedInv(s, kinds) && pid !in s.running && at < |kinds|
    requires (at == 0 || DoneAt(s.store, kinds, at - 1)) && !DoneAt(s.store, kinds, at)
    ensures Enabled(s, kinds, ReadUpstream(pid, at))
    ensures var read := Apply(s, kinds, ReadUpstream(pid, at));
            Enabled(read, kinds, BeginRow(pid)) &&
            var begun := Apply(read, kinds, BeginRow(pid));
            var last := if kinds[at] == DataGate then WriteGate(pid, w) else FinishRow(pid, Completed, summary);
            Enabled(begun, kinds, last) && DoneAt(Apply(begun, kinds, last).store, kinds, at)
  {
    UpstreamIsBelow(s.store, kinds, at);
  }
}
