/** The durable step runner of a corpus rerun: RunStore's step rows, the data gate's transaction, and
    CorpusRerun.execute and through (services/corpus_rerun.py; the tables are migration 578's). A step's
    handler is any outcome, a kill at any point included. */
module StepRunner {
  import opened Prelude
  import opened RunnerChain

  datatype Status = Started | Completed | Failed

  datatype StepRow = StepRow(status: Status, summary: string)

  datatype Caveat = Caveat(code: string, text: string)

  /** corpus_run.data_gate: the measured counts, and the code of the caveat stored with them. */
  datatype GateRecord = GateRecord(counts: string, code: string)

  datatype Store = Store(rows: map<string, StepRow>, dataGate: Option<GateRecord>, caveats: seq<Caveat>)

  /** How a handler ends; Killed leaves no trace beyond what it committed. */
  datatype End = Returns(summary: string) | Fails(summary: string) | Errs(text: string) | Killed

  datatype GateWrite = GateWrite(counts: string, caveat: Caveat, summary: string)

  /** What a handler does: the data gate's commit, if it got that far, and its end. */
  datatype Handler = Handler(gate: Option<GateWrite>, end: End)

  /** Only the data gate completes its own step; it returns only once it has, and a refusing gate commits
      nothing. */
  predicate Fits(kind: Kind, h: Handler)
  {
    && (h.gate.Some? ==> kind.DataGate?)
    && (kind.DataGate? && h.end.Returns? ==> h.gate.Some?)
    && (h.end.Fails? ==> h.gate.None?)
  }

  datatype Outcome =
    | Done(summary: string)
    | Refused
    | StepFailed(summary: string)
    | Raised(text: string)
    | Dead

  // ----- The store's statements ----------------------------------------------------------------------

  predicate IsCompleted(s: Store, name: string)
  {
    name in s.rows && s.rows[name].status == Completed
  }

  /** Insert as started, or restart a row that is not completed. */
  function Begin(s: Store, name: string): Store
  {
    if IsCompleted(s, name) then s else s.(rows := s.rows[name := StepRow(Started, "")])
  }

  /** The update takes effect only on a started row. */
  function Finish(s: Store, name: string, status: Status, summary: string): Store
  {
    if name in s.rows && s.rows[name].status == Started then s.(rows := s.rows[name := StepRow(status, summary)])
    else s
  }

  predicate HasCode(caveats: seq<Caveat>, code: string)
  {
    exists i :: 0 <= i < |caveats| && caveats[i].code == code
  }

  function AddCaveat(caveats: seq<Caveat>, caveat: Caveat): seq<Caveat>
  {
    if HasCode(caveats, caveat.code) then caveats else caveats + [caveat]
  }

  /** The result, the caveat and the step's completion in one transaction; nothing unless the step is
      started. */
  function CompleteGate(s: Store, name: string, w: GateWrite): Store
  {
    if name in s.rows && s.rows[name].status == Started then
      Store(s.rows[name := StepRow(Completed, w.summary)], Some(GateRecord(w.counts, w.caveat.code)),
            AddCaveat(s.caveats, w.caveat))
    else s
  }

  // ----- One step -----------------------------------------------------------------------------------------

  function Find(kinds: seq<Kind>, name: string, i: nat): (r: Option<nat>)
    requires i <= |kinds|
    ensures r.Some? ==> i <= r.value < |kinds| && NameOf(kinds[r.value]) == name
    ensures forall j {:trigger kinds[j]} :: i <= j < (if r.Some? then r.value else |kinds|) ==> NameOf(kinds[j]) != name
    decreases |kinds| - i
  {
    if i == |kinds| then None
    else if NameOf(kinds[i]) == name then Some(i)
    else Find(kinds, name, i + 1)
  }

  /** A step is found by its own name. */
  lemma FindIs(kinds: seq<Kind>, at: nat)
    requires DistinctNames(kinds) && at < |kinds|
    ensures Find(kinds, NameOf(kinds[at]), 0) == Some(at)
  {
  }

  /** May the step start? */
  predicate UpstreamDone(s: Store, step: Step)
  {
    step.upstream.None? || IsCompleted(s, step.upstream.value)
  }

  /** What running the step's handler leaves, once it has begun. */
  function RunHandler(s: Store, name: string, h: Handler): (r: (Store, Outcome))
  {
    var gated := if h.gate.Some? then CompleteGate(s, name, h.gate.value) else s;
    match h.end
    case Killed => (gated, Dead)
    case Fails(summary) => (Finish(gated, name, Failed, summary), StepFailed(summary))
    case Errs(text) => (Finish(gated, name, Failed, text), Raised(text))
    case Returns(summary) =>
      var finished := if h.gate.Some? then gated else Finish(gated, name, Completed, summary);
      (finished, Done(if name in finished.rows then finished.rows[name].summary else ""))
  }

  /** execute: a no-op on a completed step, a refusal before any write when its upstream is not completed. */
  function Execute(s: Store, kinds: seq<Kind>, name: string, h: Handler): (r: (Store, Outcome))
  {
    var found := Find(kinds, name, 0);
    if found.None? then (s, Refused)
    else if IsCompleted(s, name) then (s, Done(s.rows[name].summary))
    else if !UpstreamDone(s, StepAt(kinds, found.value)) then (s, Refused)
    else RunHandler(Begin(s, name), name, h)
  }

  // ----- The invariant ----------------------------------------------------------------------------------------

  predicate DoneAt(s: Store, kinds: seq<Kind>, i: nat)
    requires i < |kinds|
  {
    IsCompleted(s, NameOf(kinds[i]))
  }

  ghost predicate DistinctNames(kinds: seq<Kind>)
  {
    forall i, j :: 0 <= i < j < |kinds| ==> NameOf(kinds[i]) != NameOf(kinds[j])
  }

  /** The completed steps are a prefix of the chain. */
  ghost predicate CompletedPrefix(s: Store, kinds: seq<Kind>)
  {
    forall i, j :: 0 <= i < j < |kinds| && DoneAt(s, kinds, j) ==> DoneAt(s, kinds, i)
  }

  ghost predicate DistinctCodes(caveats: seq<Caveat>)
  {
    forall i, j :: 0 <= i < j < |caveats| ==> caveats[i].code != caveats[j].code
  }

  ghost predicate OnceIn(caveats: seq<Caveat>, code: string)
  {
    HasCode(caveats, code) &&
    forall i, j :: 0 <= i < j < |caveats| ==> !(caveats[i].code == code && caveats[j].code == code)
  }

  /** The data gate's result is stored exactly when its step is completed, with its caveat. */
  ghost predicate GateStored(s: Store)
  {
    && (s.dataGate.Some? <==> IsCompleted(s, NameOf(DataGate)))
    && DistinctCodes(s.caveats)
    && (s.dataGate.Some? ==> HasCode(s.caveats, s.dataGate.value.code))
  }

  ghost predicate Inv(s: Store, kinds: seq<Kind>)
  {
    CompletedPrefix(s, kinds) && GateStored(s)
  }

  ghost predicate IsChain(kinds: seq<Kind>)
  {
    DistinctNames(kinds) && |kinds| > 0 && kinds[0] == DataGate
  }

  lemma TheChain(n: nat)
    ensures IsChain(Chain(n))
  {
    forall i, j | 0 <= i < j < 3 * n + 8
      ensures NameOf(Chain(n)[i]) != NameOf(Chain(n)[j])
    {
      StepNamesAreDistinct(n, i, j);
    }
  }

  /** A step's row and what else one step's handler may touch. */
  lemma HandlerTouches(s: Store, name: string, kind: Kind, h: Handler, other: string)
    requires Fits(kind, h) && name == NameOf(kind) && !IsCompleted(s, name)
    ensures var after := RunHandler(Begin(s, name), name, h).0;
            && (other != name ==> (other in after.rows <==> other in s.rows))
            && (other != name && other in s.rows ==> after.rows[other] == s.rows[other])
            && (IsCompleted(after, name) <==> h.gate.Some? || h.end.Returns?)
            && (if h.gate.Some? then
                  && after.dataGate == Some(GateRecord(h.gate.value.counts, h.gate.value.caveat.code))
                  && after.caveats == AddCaveat(s.caveats, h.gate.value.caveat)
                else after.dataGate == s.dataGate && after.caveats == s.caveats)
  {
  }

  /** How a call of a step ends, by what its handler does: completed steps and steps whose upstream is not
      completed are left alone; a handler that returns completes its step with its summary (the data gate with
      the one it stored), one that fails or raises leaves it failed unless the gate had completed it, and a
      killed one leaves it started. */
  ghost predicate CallEnds(s: Store, after: Store, outcome: Outcome, kinds: seq<Kind>, at: nat, h: Handler)
    requires at < |kinds|
  {
    var name := NameOf(kinds[at]);
    if IsCompleted(s, name) then after == s && outcome == Done(s.rows[name].summary)
    else if at > 0 && !IsCompleted(s, NameOf(kinds[at - 1])) then after == s && outcome == Refused
    else
      && (forall other :: other != name ==>
            (other in after.rows <==> other in s.rows) && (other in s.rows ==> after.rows[other] == s.rows[other]))
      && name in after.rows
      && match (h.gate, h.end)
         case (Some(w), Killed) => after.rows[name] == StepRow(Completed, w.summary) && outcome == Dead
         case (Some(w), Errs(text)) => after.rows[name] == StepRow(Completed, w.summary) && outcome == Raised(text)
         case (Some(w), _) => after.rows[name] == StepRow(Completed, w.summary) && outcome == Done(w.summary)
         case (None, Killed) => after.rows[name] == StepRow(Started, "") && outcome == Dead
         case (None, Errs(text)) => after.rows[name] == StepRow(Failed, text) && outcome == Raised(text)
         case (None, Fails(summary)) => after.rows[name] == StepRow(Failed, summary) && outcome == StepFailed(summary)
         case (None, Returns(summary)) => after.rows[name] == StepRow(Completed, summary) && outcome == Done(summary)
  }

  lemma ExecuteEnds(s: Store, kinds: seq<Kind>, at: nat, h: Handler)
    requires DistinctNames(kinds) && at < |kinds| && Fits(kinds[at], h)
    ensures var r := Execute(s, kinds, NameOf(kinds[at]), h); CallEnds(s, r.0, r.1, kinds, at, h)
  {
    FindIs(kinds, at);
  }

  lemma CaveatOnce(caveats: seq<Caveat>, caveat: Caveat)
    requires DistinctCodes(caveats)
    ensures DistinctCodes(AddCaveat(caveats, caveat)) && HasCode(AddCaveat(caveats, caveat), caveat.code)
  {
    if !HasCode(caveats, caveat.code) {
      assert AddCaveat(caveats, caveat)[|caveats|] == caveat;
    }
  }

  lemma HandlerKeepsGate(s: Store, kinds: seq<Kind>, at: nat, h: Handler)
    requires IsChain(kinds) && GateStored(s) && at < |kinds| && Fits(kinds[at], h) && !DoneAt(s, kinds, at)
    ensures GateStored(RunHandler(Begin(s, NameOf(kinds[at])), NameOf(kinds[at]), h).0)
  {
    var name, gate := NameOf(kinds[at]), NameOf(DataGate);
    HandlerTouches(s, name, kinds[at], h, gate);
    if h.gate.Some? {
      CaveatOnce(s.caveats, h.gate.value.caveat);
    }
    if at > 0 {
      assert NameOf(kinds[0]) != NameOf(kinds[at]);
    }
  }

  lemma HandlerKeepsPrefix(s: Store, kinds: seq<Kind>, at: nat, h: Handler)
    requires IsChain(kinds) && CompletedPrefix(s, kinds) && at < |kinds| && Fits(kinds[at], h)
    requires !DoneAt(s, kinds, at) && UpstreamDone(s, StepAt(kinds, at))
    ensures CompletedPrefix(RunHandler(Begin(s, NameOf(kinds[at])), NameOf(kinds[at]), h).0, kinds)
  {
    var name := NameOf(kinds[at]);
    var after := RunHandler(Begin(s, name), name, h).0;
    forall i, j | 0 <= i < j < |kinds| && DoneAt(after, kinds, j)
      ensures DoneAt(after, kinds, i)
    {
      HandlerTouches(s, name, kinds[at], h, NameOf(kinds[i]));
      HandlerTouches(s, name, kinds[at], h, NameOf(kinds[j]));
      if j == at {
        assert DoneAt(s, kinds, at - 1);
        assert i == at - 1 || DoneAt(s, kinds, i);
      } else {
        assert DoneAt(s, kinds, j);
        assert DoneAt(s, kinds, i);
      }
    }
  }

  lemma ExecuteKeepsInv(s: Store, kinds: seq<Kind>, name: string, h: Handler)
    requires IsChain(kinds) && Inv(s, kinds)
    requires Find(kinds, name, 0).Some? ==> Fits(kinds[Find(kinds, name, 0).value], h)
    ensures Inv(Execute(s, kinds, name, h).0, kinds)
  {
    var found := Find(kinds, name, 0);
    if found.Some? && !IsCompleted(s, name) && UpstreamDone(s, StepAt(kinds, found.value)) {
      HandlerKeepsPrefix(s, kinds, found.value, h);
      HandlerKeepsGate(s, kinds, found.value, h);
    }
  }

  // ----- Every run -----------------------------------------------------------------------------------------------

  /** One call of the runner, by whichever process: a step's name and what its handler would do. */
  datatype Call = Call(name: string, h: Handler)

  ghost predicate CallsFit(kinds: seq<Kind>, calls: seq<Call>)
  {
    forall i :: 0 <= i < |calls| && Find(kinds, calls[i].name, 0).Some? ==>
      Fits(kinds[Find(kinds, calls[i].name, 0).value], calls[i].h)
  }

  /** The store after some calls, from a new run's. */
  function After(kinds: seq<Kind>, calls: seq<Call>): Store
  {
    if calls == [] then Store(map[], None, [])
    else
      var last := calls[|calls| - 1];
      Execute(After(kinds, calls[..|calls| - 1]), kinds, last.name, last.h).0
  }

  lemma {:induction false} EveryRunKeepsInv(kinds: seq<Kind>, calls: seq<Call>)
    requires IsChain(kinds) && CallsFit(kinds, calls)
    ensures Inv(After(kinds, calls), kinds)
  {
    if calls != [] {
      EveryRunKeepsInv(kinds, calls[..|calls| - 1]);
      var last := calls[|calls| - 1];
      ExecuteKeepsInv(After(kinds, calls[..|calls| - 1]), kinds, last.name, last.h);
    }
  }

  /** Over any sequence of calls, kills included, the completed steps are a prefix of the chain. */
  lemma CompletedStepsAreAPrefix(n: nat, calls: seq<Call>, i: nat, j: nat)
    requires CallsFit(Chain(n), calls) && i < j < 3 * n + 8 && DoneAt(After(Chain(n), calls), Chain(n), j)
    ensures DoneAt(After(Chain(n), calls), Chain(n), i)
  {
    TheChain(n);
    EveryRunKeepsInv(Chain(n), calls);
  }

  /** The data gate's result is stored exactly when its step is completed, and its caveat's code then stands
      in the run's caveats exactly once. */
  lemma GateStoredIffCompleted(n: nat, calls: seq<Call>)
    requires CallsFit(Chain(n), calls)
    ensures var s := After(Chain(n), calls);
            && (s.dataGate.Some? <==> IsCompleted(s, NameOf(DataGate)))
            && (s.dataGate.Some? ==> OnceIn(s.caveats, s.dataGate.value.code))
  {
    TheChain(n);
    EveryRunKeepsInv(Chain(n), calls);
  }

  /** A call leaves a completed step's row as it is. */
  lemma ExecuteKeepsCompleted(s: Store, kinds: seq<Kind>, name: string, h: Handler, other: string)
    requires IsCompleted(s, other)
    requires Find(kinds, name, 0).Some? ==> Fits(kinds[Find(kinds, name, 0).value], h)
    ensures var after := Execute(s, kinds, name, h).0; IsCompleted(after, other) && after.rows[other] == s.rows[other]
  {
    var found := Find(kinds, name, 0);
    if found.Some? && !IsCompleted(s, name) {
      HandlerTouches(s, name, kinds[found.value], h, other);
    }
  }

  lemma LastCallKeepsCompleted(kinds: seq<Kind>, calls: seq<Call>, name: string)
    requires CallsFit(kinds, calls) && calls != [] && IsCompleted(After(kinds, calls[..|calls| - 1]), name)
    ensures IsCompleted(After(kinds, calls), name)
    ensures After(kinds, calls).rows[name] == After(kinds, calls[..|calls| - 1]).rows[name]
  {
    var last := calls[|calls| - 1];
    ExecuteKeepsCompleted(After(kinds, calls[..|calls| - 1]), kinds, last.name, last.h, name);
  }

  /** Once completed, a step's row never changes again. */
  lemma {:induction false} CompletedStaysAsItIs(kinds: seq<Kind>, calls: seq<Call>, at: nat, name: string)
    requires CallsFit(kinds, calls) && at <= |calls| && IsCompleted(After(kinds, calls[..at]), name)
    ensures IsCompleted(After(kinds, calls), name)
    ensures After(kinds, calls).rows[name] == After(kinds, calls[..at]).rows[name]
    decreases |calls|
  {
    if at == |calls| {
      assert calls[..at] == calls;
    } else {
      var before := calls[..|calls| - 1];
      assert before[..at] == calls[..at];
      CompletedStaysAsItIs(kinds, before, at, name);
      assert IsCompleted(After(kinds, before), name);
      LastCallKeepsCompleted(kinds, calls, name);
    }
  }

  /** Call i ran the step's handler, which returned, and completed the step. */
  ghost predicate Completing(kinds: seq<Kind>, calls: seq<Call>, i: nat, name: string)
    requires i < |calls|
  {
    && calls[i].name == name && calls[i].h.end.Returns?
    && !IsCompleted(After(kinds, calls[..i]), name) && IsCompleted(After(kinds, calls[..i + 1]), name)
  }

  lemma LastCallCompletes(kinds: seq<Kind>, calls: seq<Call>, name: string)
    requires CallsFit(kinds, calls) && name != NameOf(DataGate) && calls != []
    requires IsCompleted(After(kinds, calls), name) && !IsCompleted(After(kinds, calls[..|calls| - 1]), name)
    ensures calls[|calls| - 1].name == name && calls[|calls| - 1].h.end.Returns?
  {
    var s, last := After(kinds, calls[..|calls| - 1]), calls[|calls| - 1];
    var found := Find(kinds, last.name, 0);
    if found.Some? && !IsCompleted(s, last.name) {
      HandlerTouches(s, last.name, kinds[found.value], last.h, name);
    }
  }

  /** A step other than the data gate, which completes itself, is completed by a call whose handler
      returned. */
  lemma {:induction false} CompletedByACall(kinds: seq<Kind>, calls: seq<Call>, name: string) returns (i: nat)
    requires CallsFit(kinds, calls) && name != NameOf(DataGate) && IsCompleted(After(kinds, calls), name)
    ensures i < |calls| && Completing(kinds, calls, i, name)
  {
    var last := |calls| - 1;
    var before := calls[..last];
    assert calls[..last + 1] == calls;
    if IsCompleted(After(kinds, before), name) {
      i := CompletedByACall(kinds, before, name);
      assert before[..i] == calls[..i] && before[..i + 1] == calls[..i + 1];
    } else {
      LastCallCompletes(kinds, calls, name);
      i := last;
    }
  }

  /** No later call completes it again. */
  lemma CompletedByOneCall(kinds: seq<Kind>, calls: seq<Call>, i: nat, j: nat, name: string)
    requires CallsFit(kinds, calls) && i < j < |calls| && Completing(kinds, calls, i, name)
    ensures !Completing(kinds, calls, j, name)
  {
    assert calls[..j][..i + 1] == calls[..i + 1];
    CompletedStaysAsItIs(kinds, calls[..j], i + 1, name);
  }

  /** Whatever was left behind (started by a killed process, or failed), the first step not completed can
      always be run, and completes if its handler does. */
  lemma FirstPendingStepCanRun(s: Store, kinds: seq<Kind>, at: nat, h: Handler)
    requires IsChain(kinds) && at < |kinds| && !DoneAt(s, kinds, at) && (at > 0 ==> DoneAt(s, kinds, at - 1))
    requires Fits(kinds[at], h) && h.end.Returns?
    ensures Execute(s, kinds, NameOf(kinds[at]), h).1.Done?
    ensures DoneAt(Execute(s, kinds, NameOf(kinds[at]), h).0, kinds, at)
  {
    var name := NameOf(kinds[at]);
    FindIs(kinds, at);
    HandlerTouches(s, name, kinds[at], h, name);
  }

  /** A handler runs only for a step that is not completed and whose upstream is. */
  lemma RunsIff(s: Store, kinds: seq<Kind>, at: nat, h: Handler)
    requires IsChain(kinds) && at < |kinds| && Inv(s, kinds) && Fits(kinds[at], h)
    ensures var r := Execute(s, kinds, NameOf(kinds[at]), h);
            r.1 == Refused <==> at > 0 && !DoneAt(s, kinds, at - 1)
  {
    var name := NameOf(kinds[at]);
    FindIs(kinds, at);
    assert at > 0 && DoneAt(s, kinds, at) ==> DoneAt(s, kinds, at - 1);
  }

  // ----- through ----------------------------------------------------------------------------------------------------

  /** Every step in order up to and including `upto`, stopping at the first that does not end well. */
  function Through(s: Store, kinds: seq<Kind>, i: nat, upto: nat, handlers: string -> Handler): (r: (Store, Outcome))
    requires i <= upto < |kinds|
    decreases upto - i
  {
    var name := NameOf(kinds[i]);
    var (after, outcome) := Execute(s, kinds, name, handlers(name));
    if !outcome.Done? || i == upto then (after, outcome)
    else Through(after, kinds, i + 1, upto, handlers)
  }

  lemma ExecutedIsDone(s: Store, kinds: seq<Kind>, at: nat, h: Handler)
    requires IsChain(kinds) && at < |kinds| && Fits(kinds[at], h)
    requires Execute(s, kinds, NameOf(kinds[at]), h).1.Done?
    ensures DoneAt(Execute(s, kinds, NameOf(kinds[at]), h).0, kinds, at)
  {
    FindIs(kinds, at);
    if !DoneAt(s, kinds, at) {
      HandlerTouches(s, NameOf(kinds[at]), kinds[at], h, NameOf(kinds[at]));
    }
  }

  ghost predicate HandlersFit(kinds: seq<Kind>, handlers: string -> Handler)
  {
    forall i :: 0 <= i < |kinds| ==> Fits(kinds[i], handlers(NameOf(kinds[i])))
  }

  /** through(s) returns normally only with every step up to s completed; however it ends, it keeps the
      invariant and every step completed before. */
  lemma {:induction false} ThroughReturnsCompleted(s: Store, kinds: seq<Kind>, i: nat, upto: nat,
                                                   handlers: string -> Handler, other: nat)
    requires IsChain(kinds) && Inv(s, kinds) && i <= upto < |kinds| && HandlersFit(kinds, handlers)
    requires forall j :: 0 <= j < i ==> DoneAt(s, kinds, j)
    requires other < |kinds|
    ensures var r := Through(s, kinds, i, upto, handlers);
            && Inv(r.0, kinds)
            && (r.1.Done? && other <= upto ==> DoneAt(r.0, kinds, other))
            && (DoneAt(s, kinds, other) ==>
                  DoneAt(r.0, kinds, other) && r.0.rows[NameOf(kinds[other])] == s.rows[NameOf(kinds[other])])
            && (other > upto ==> (DoneAt(r.0, kinds, other) <==> DoneAt(s, kinds, other)))
    decreases upto - i
  {
    var name := NameOf(kinds[i]);
    var h := handlers(name);
    var after := Execute(s, kinds, name, h).0;
    FindIs(kinds, i);
    ExecuteKeepsInv(s, kinds, name, h);
    if DoneAt(s, kinds, other) {
      ExecuteKeepsCompleted(s, kinds, name, h, NameOf(kinds[other]));
    } else if other > upto {
      LaterStepUntouched(s, kinds, i, h, other);
    }
    if Execute(s, kinds, name, h).1.Done? {
      ExecutedIsDone(s, kinds, i, h);
      forall j | 0 <= j < i + 1
        ensures DoneAt(after, kinds, j)
      {
        assert j == i || DoneAt(after, kinds, j);
      }
      if i < upto {
        ThroughReturnsCompleted(after, kinds, i + 1, upto, handlers, other);
      }
    }
  }

  lemma LaterStepUntouched(s: Store, kinds: seq<Kind>, at: nat, h: Handler, other: nat)
    requires IsChain(kinds) && at < other < |kinds| && Fits(kinds[at], h) && !DoneAt(s, kinds, other)
    ensures !DoneAt(Execute(s, kinds, NameOf(kinds[at]), h).0, kinds, other)
  {
    FindIs(kinds, at);
    if !DoneAt(s, kinds, at) {
      HandlerTouches(s, NameOf(kinds[at]), kinds[at], h, NameOf(kinds[other]));
    }
  }

  class Runner {
    const n: nat
    var rows: map<string, StepRow>
    var dataGate: Option<GateRecord>
    var caveats: seq<Caveat>

    function Value(): Store
      reads this
    {
      Store(rows, dataGate, caveats)
    }

    constructor (spans: nat)
      ensures n == spans && Value() == Store(map[], None, [])
    {
      n := spans;
      rows, dataGate, caveats := map[], None, [];
    }

    /** RunStore.begin. */
    method BeginStep(name: string)
      modifies this
      ensures Value() == Begin(old(Value()), name)
    {
      if !(name in rows && rows[name].status == Completed) {
        rows := rows[name := StepRow(Started, "")];
      }
    }

    /** RunStore.finish. */
    method FinishStep(name: string, status: Status, summary: string)
      modifies this
      ensures Value() == Finish(old(Value()), name, status, summary)
    {
      if name in rows && rows[name].status == Started {
        rows := rows[name := StepRow(status, summary)];
      }
    }

    /** RunStore.complete_data_gate. */
    method StoreGate(name: string, w: GateWrite)
      modifies this
      ensures Value() == CompleteGate(old(Value()), name, w)
    {
      if name in rows && rows[name].status == Started {
        dataGate := Some(GateRecord(w.counts, w.caveat.code));
        if !HasCode(caveats, w.caveat.code) {
          caveats := caveats + [w.caveat];
        }
        rows := rows[name := StepRow(Completed, w.summary)];
      }
    }

    method RunStep(name: string, h: Handler) returns (outcome: Outcome)
      modifies this
      ensures (Value(), outcome) == Execute(old(Value()), Chain(n), name, h)
    {
      var found := Find(Chain(n), name, 0);
      if found.None? {
        return Refused;
      }
      if name in rows && rows[name].status == Completed {
        return Done(rows[name].summary);
      }
      var step := StepAt(Chain(n), found.value);
      if step.upstream.Some? && !(step.upstream.value in rows && rows[step.upstream.value].status == Completed) {
        return Refused;
      }
      BeginStep(name);
      if h.gate.Some? {
        StoreGate(name, h.gate.value);
      }
      match h.end {
        case Killed => return Dead;
        case Fails(summary) =>
          FinishStep(name, Failed, summary);
          return StepFailed(summary);
        case Errs(text) =>
          FinishStep(name, Failed, text);
          return Raised(text);
        case Returns(summary) =>
          if h.gate.None? {
            FinishStep(name, Completed, summary);
          }
          return Done(if name in rows then rows[name].summary else "");
      }
    }

    method RunThrough(upto: nat, handlers: string -> Handler) returns (outcome: Outcome)
      requires upto < 3 * n + 8
      modifies this
      ensures (Value(), outcome) == Through(old(Value()), Chain(n), 0, upto, handlers)
    {
      var i := 0;
      while true
        invariant 0 <= i <= upto
        invariant Through(old(Value()), Chain(n), 0, upto, handlers) == Through(Value(), Chain(n), i, upto, handlers)
        decreases upto - i
      {
        var name := NameOf(Chain(n)[i]);
        outcome := RunStep(name, handlers(name));
        if !outcome.Done? || i == upto {
          return;
        }
        i := i + 1;
      }
    }
  }
}
