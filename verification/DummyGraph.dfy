/**
 * The scheduler's locked sections on its own fields: the queue of atoms, the free tasks, the counters and
 * flags of the phase, the sink and the shared cancellation flag. Each method does to `Abs()` what
 * `GraphSpec` says.
 */
module GraphScheduler {
  import opened GpuTypes
  import opened GraphSpec
  import opened GraphInvariant

  class PhaseGate {
    var released: bool
    ghost const id: nat

    constructor (ghost id: nat)
      ensures !released && this.id == id
    {
      released := false;
      this.id := id;
    }

    method Release()
      modifies this
      ensures released
    {
      released := true;
    }
  }

  class CancellationFlag {
    var raised: bool

    constructor ()
      ensures !raised
    {
      raised := false;
    }
  }

  /** One frame's private data; only its result flag matters to the scheduler. */
  class FrameCpuAtom {
    const frameId: nat
    var resultId: nat
    var resultOk: bool
    ghost const frame: nat

    constructor (frameId: nat, ghost frame: nat)
      ensures this.frameId == frameId && this.frame == frame
    {
      this.frameId := frameId;
      this.frame := frame;
      resultId, resultOk := 0, true;
    }
  }

  function CountFailed(log: seq<Delivery>): nat {
    if log == [] then 0 else CountFailed(log[..|log| - 1]) + (if log[|log| - 1].ok then 0 else 1)
  }

  class GraphSink {
    var deliveredResults: nat
    var failedResults: nat
    ghost var log: seq<Delivery>

    ghost predicate Valid()
      reads this
    {
      deliveredResults == |log| && failedResults == CountFailed(log)
    }

    constructor ()
      ensures Valid() && log == []
    {
      deliveredResults, failedResults, log := 0, 0, [];
    }

    method Deliver(ok: bool, ghost frame: nat)
      requires Valid()
      modifies this
      ensures Valid() && log == old(log) + [Delivery(frame, ok)]
    {
      deliveredResults := deliveredResults + 1;
      if !ok {
        failedResults := failedResults + 1;
      }
      log := log + [Delivery(frame, ok)];
      assert log[..|log| - 1] == old(log);
    }
  }

  ghost function IndicesOf(atoms: seq<FrameCpuAtom>): (fs: seq<nat>)
    ensures |fs| == |atoms| && forall i :: 0 <= i < |fs| ==> fs[i] == atoms[i].frame
  {
    seq(|atoms|, i requires 0 <= i < |atoms| => atoms[i].frame)
  }

  ghost function ResultsOf(atoms: seq<FrameCpuAtom>): (results: seq<bool>)
    reads atoms`resultOk
    ensures |results| == |atoms| && forall i :: 0 <= i < |results| ==> results[i] == atoms[i].resultOk
  {
    if atoms == [] then [] else ResultsOf(atoms[..|atoms| - 1]) + [atoms[|atoms| - 1].resultOk]
  }

  /** One frame fails. */
  ghost function FailOne(g: Graph, f: nat): Graph
    requires f < |g.results|
  {
    g.(results := g.results[f := false], log := g.log + [Delivery(f, false)])
  }

  /** One step of emptying the queue. */
  ghost function CancelOne(g: Graph): Graph
    requires g.ready != [] && g.ready[0] < |g.results|
  {
    FailOne(g, g.ready[0]).(ready := g.ready[1..], terminal := g.terminal + 1)
  }

  lemma MarkFirst(results: seq<bool>, fs: seq<nat>)
    requires fs != [] && fs[0] < |results|
    ensures MarkAll(results[fs[0] := false], fs[1..], false) == MarkAll(results, fs, false)
  {
    assert forall f :: f in fs <==> f == fs[0] || f in fs[1..] by {
      assert fs == [fs[0]] + fs[1..];
    }
    var one, all := MarkAll(results[fs[0] := false], fs[1..], false), MarkAll(results, fs, false);
    assert forall f :: 0 <= f < |results| ==> one[f] == all[f];
  }

  lemma FailFirst(log: seq<Delivery>, fs: seq<nat>)
    requires fs != []
    ensures (log + [Delivery(fs[0], false)]) + Failures(fs[1..]) == log + Failures(fs)
  {
  }

  /** Cancelling the queue frame by frame, in order, cancels it as a whole. */
  lemma CancelOneAtATime(g: Graph)
    requires g.ready != [] && g.ready[0] < |g.results|
    ensures CancelReady(CancelOne(g)) == CancelReady(g)
  {
    MarkFirst(g.results, g.ready);
    FailFirst(g.log, g.ready);
    hide MarkAll, Failures;
  }

  lemma NothingToCancel(g: Graph)
    requires g.ready == []
    ensures CancelReady(g) == g.(phaseSucceeded := false)
  {
    assert MarkAll(g.results, [], false) == g.results;
    assert g.log + Failures([]) == g.log;
  }

  /** The first frames of a phase, [lo, i), have failed. */
  ghost function FailedUpTo(g: Graph, lo: nat, i: nat): Graph
    requires lo <= i
  {
    g.(results := MarkAll(g.results, Range(lo, i), false), log := g.log + Failures(Range(lo, i)))
  }

  lemma NothingFailed(g: Graph, lo: nat)
    ensures FailedUpTo(g, lo, lo) == g
  {
    assert Range(lo, lo) == [];
    assert MarkAll(g.results, Range(lo, lo), false) == g.results;
    assert g.log + Failures(Range(lo, lo)) == g.log;
  }

  lemma FailNext(g: Graph, lo: nat, i: nat)
    requires lo <= i < |g.results|
    ensures |FailedUpTo(g, lo, i).results| == |g.results|
    ensures FailedUpTo(g, lo, i + 1) == FailOne(FailedUpTo(g, lo, i), i)
  {
    assert Range(lo, i + 1) == Range(lo, i) + [i];
    assert MarkAll(g.results, Range(lo, i + 1), false) == MarkAll(g.results, Range(lo, i), false)[i := false];
    assert g.log + Failures(Range(lo, i + 1)) == g.log + Failures(Range(lo, i)) + [Delivery(i, false)];
  }

  lemma SubmitOnly(g: Graph, phase: FramePhase)
    ensures Submit(g, phase).results == g.results && Submit(g, phase).log == g.log
  {
  }

  lemma FailedIsCancelled(g: Graph, phase: FramePhase)
    requires g.warmups <= g.frames && !g.Submitted(phase)
    ensures FailedUpTo(Submit(g, phase), g.Low(phase), g.High(phase)) == CancelPhase(g, phase)
  {
  }

  ghost predicate AllFit(valid: seq<bool>, low: nat, high: nat)
    requires high <= |valid|
  {
    forall i :: low <= i < high ==> valid[i]
  }

  /** The queue runs out of room before a frame fails its validation. */
  ghost predicate QueueFails(valid: seq<bool>, low: nat, high: nat, room: nat)
    requires high <= |valid|
  {
    low + room < high && AllFit(valid, low, low + room + 1)
  }

  /** The first frames of a phase, [lo, i), have a clean result. */
  ghost function MarkedUpTo(g: Graph, lo: nat, i: nat): Graph
    requires lo <= i
  {
    g.(results := MarkAll(g.results, Range(lo, i), true))
  }

  lemma NothingMarked(g: Graph, lo: nat)
    ensures MarkedUpTo(g, lo, lo) == g
  {
    assert Range(lo, lo) == [];
    assert MarkAll(g.results, Range(lo, lo), true) == g.results;
  }

  lemma MarkNext(g: Graph, lo: nat, i: nat)
    requires lo <= i < |g.results|
    ensures |MarkedUpTo(g, lo, i).results| == |g.results|
    ensures MarkedUpTo(g, lo, i + 1) == MarkedUpTo(g, lo, i).(results := MarkedUpTo(g, lo, i).results[i := true])
  {
    assert Range(lo, i + 1) == Range(lo, i) + [i];
    assert MarkAll(g.results, Range(lo, i + 1), true) == MarkAll(g.results, Range(lo, i), true)[i := true];
  }

  class DummyGraph {
    const sink: GraphSink
    const cancellation: CancellationFlag
    // Every prepared atom, the warmup ones first.
    const atoms: seq<FrameCpuAtom>
    const warmupCount: nat
    const taskCount: nat
    var readyFrames: seq<FrameCpuAtom>
    var freeTasks: seq<nat>
    var phaseGate: PhaseGate?
    var phaseTotal: nat
    var phaseTerminal: nat
    var inFlight: nat
    var lastMaxInFlight: nat
    var warmupSubmitted: bool
    var timedSubmitted: bool
    var phaseActive: bool
    var phaseSucceeded: bool
    var initialized: bool
    var executionCycleStarted: bool
    var executionCycleStopped: bool
    var stopping: bool
    ghost var phaseNotices: nat
    ghost var current: Option<FramePhase>

    /** The atoms are distinct objects, numbered in order, and the queue holds some of them. */
    ghost predicate Valid()
      reads this, sink
    {
      && sink.Valid() && warmupCount <= |atoms|
      && (forall i :: 0 <= i < |atoms| ==> atoms[i].frame == i)
      && (forall i :: 0 <= i < |readyFrames| ==>
            readyFrames[i].frame < |atoms| && atoms[readyFrames[i].frame] == readyFrames[i])
      && (phaseActive ==> phaseGate != null)
    }

    ghost function Abs(): Graph
      reads this, sink, cancellation, atoms`resultOk
    {
      Graph(warmupCount, |atoms|, taskCount, IndicesOf(readyFrames), freeTasks,
            if phaseGate == null then None else Some(phaseGate.id),
            phaseTotal, phaseTerminal, inFlight, lastMaxInFlight,
            warmupSubmitted, timedSubmitted, phaseActive, phaseSucceeded,
            initialized, executionCycleStarted, executionCycleStopped, stopping,
            cancellation.raised, ResultsOf(atoms), sink.log, phaseNotices, current)
    }

    /** Everything a section may write. */
    ghost function Parts(): set<object>
    {
      {this, sink, cancellation} + (set i | 0 <= i < |atoms| :: atoms[i] as object)
    }

    constructor (atoms: seq<FrameCpuAtom>, warmupCount: nat, taskCount: nat, sink: GraphSink,
        cancellation: CancellationFlag)
      requires warmupCount <= |atoms| && (forall i :: 0 <= i < |atoms| ==> atoms[i].frame == i) && sink.Valid()
      ensures Valid() && this.atoms == atoms && this.sink == sink && this.cancellation == cancellation
      ensures Abs() == Graph(warmupCount, |atoms|, taskCount, [], seq(taskCount, i requires 0 <= i => i), None, 0, 0,
              0, 0,
                             false, false, false, true, true, false, false, false,
                             cancellation.raised, ResultsOf(atoms), sink.log, 0, None)
    {
      this.atoms, this.warmupCount, this.taskCount, this.sink, this.cancellation := atoms, warmupCount, taskCount,
        sink, cancellation;
      readyFrames, freeTasks, phaseGate := [], seq(taskCount, i requires 0 <= i => i), null;
      phaseTotal, phaseTerminal, inFlight, lastMaxInFlight := 0, 0, 0, 0;
      warmupSubmitted, timedSubmitted, phaseActive, phaseSucceeded := false, false, false, true;
      initialized, executionCycleStarted, executionCycleStopped, stopping := true, false, false, false;
      phaseNotices, current := 0, None;
    }

    /** What changes in a section that leaves the queue of objects to its caller. */
    lemma FieldsOfAbs()
      ensures var g := Abs();
              && g.ready == IndicesOf(readyFrames) && g.free == freeTasks && (g.gate == None <==> phaseGate == null)
              && g.total == phaseTotal && g.terminal == phaseTerminal && g.inFlight == inFlight
              && g.maxInFlight == lastMaxInFlight
              && g.warmupSubmitted == warmupSubmitted && g.timedSubmitted == timedSubmitted
              && g.phaseActive == phaseActive && g.phaseSucceeded == phaseSucceeded && g.initialized == initialized
              && g.cycleStarted == executionCycleStarted && g.cycleStopped == executionCycleStopped
              && g.stopping == stopping
              && g.cancelled == cancellation.raised && g.log == sink.log && g.warmups == warmupCount
              && g.frames == |atoms|
              && |g.results| == |atoms|
    {
    }

    // -------------------------------------------------------------- delivery

    method SendResult(ok: bool, ghost frame: nat)
      requires Valid()
      modifies sink
      ensures Valid() && Abs() == old(Abs()).(log := old(Abs()).log + [Delivery(frame, ok)])
    {
      hide IndicesOf, ResultsOf;
      sink.Deliver(ok, frame);
    }

    lemma ResultOfAbs(atom: FrameCpuAtom)
      requires Valid() && atom.frame < |atoms| && atoms[atom.frame] == atom
      ensures atom.frame < |Abs().results| && Abs().results[atom.frame] == atom.resultOk
    {
    }

    method DeliverFrameResult(atom: FrameCpuAtom)
      requires Valid() && atom.frame < |atoms| && atoms[atom.frame] == atom
      modifies sink
      ensures Valid() && atom.frame < |old(Abs()).results| && Abs() == DeliverFrame(old(Abs()), atom.frame)
    {
      hide Abs, Valid;
      ResultOfAbs(atom);
      SendResult(atom.resultOk, atom.frame);
    }

    method ClearResult(atom: FrameCpuAtom)
      requires Valid() && atom.frame < |atoms| && atoms[atom.frame] == atom
      modifies atom`resultOk
      ensures Valid() && Abs() == old(Abs()).(results := old(Abs()).results[atom.frame := false])
    {
      hide IndicesOf;
      atom.resultOk := false;
      assert ResultsOf(atoms) == old(ResultsOf(atoms))[atom.frame := false];
    }

    /** A frame fails without having been executed. */
    method FailFrame(atom: FrameCpuAtom)
      requires Valid() && atom.frame < |atoms| && atoms[atom.frame] == atom
      modifies Parts()
      ensures Valid() && readyFrames == old(readyFrames)
      ensures atom.frame < |old(Abs()).results| && Abs() == FailOne(old(Abs()), atom.frame)
    {
      ClearResult(atom);
      DeliverFrameResult(atom);
    }

    // -------------------------------------------------------------- cancellation and completion

    method CancelFirst()
      requires Valid() && readyFrames != []
      modifies Parts()
      ensures Valid() && old(Abs()).ready != [] && old(Abs()).ready[0] < |old(Abs()).results|
              && Abs() == CancelOne(old(Abs()))
      ensures |readyFrames| < old(|readyFrames|)
    {
      var readyFrame := PopReady();
      FailFrame(readyFrame);
      CountTerminal();
    }

    method PopReady() returns (atom: FrameCpuAtom)
      requires Valid() && readyFrames != []
      modifies this
      ensures Valid() && |readyFrames| == |old(readyFrames)| - 1 && freeTasks == old(freeTasks)
      ensures atom.frame < |atoms| && atoms[atom.frame] == atom && old(Abs()).ready != []
              && atom.frame == old(Abs()).ready[0]
      ensures Abs() == old(Abs()).(ready := old(Abs()).ready[1..])
    {
      hide ResultsOf;
      atom := readyFrames[0];
      readyFrames := readyFrames[1..];
      assert IndicesOf(readyFrames) == old(IndicesOf(readyFrames))[1..];
    }

    method CountTerminal()
      requires Valid()
      modifies this
      ensures Valid() && readyFrames == old(readyFrames) && Abs() == old(Abs()).(terminal := old(Abs()).terminal + 1)
    {
      hide ResultsOf, IndicesOf;
      phaseTerminal := phaseTerminal + 1;
    }

    method FailPhaseResult()
      requires Valid()
      modifies this
      ensures Valid() && Abs() == old(Abs()).(phaseSucceeded := false)
    {
      hide ResultsOf, IndicesOf;
      phaseSucceeded := false;
    }

    method CancelReadyFramesLocked()
      requires Valid()
      modifies Parts()
      ensures Valid() && Abs() == CancelReady(old(Abs()))
    {
      hide Valid, Abs, CancelReady, CancelOne;
      while readyFrames != []
        invariant Valid() && CancelReady(Abs()) == CancelReady(old(Abs()))
        decreases |readyFrames|
      {
        FieldsOfAbs();
        QueueOfAbs();
        CancelOneAtATime(Abs());
        CancelFirst();
      }
      FieldsOfAbs();
      NothingToCancel(Abs());
      FailPhaseResult();
    }

    lemma QueueOfAbs()
      requires Valid()
      ensures forall i :: 0 <= i < |Abs().ready| ==> Abs().ready[i] < |Abs().results|
    {
    }

    method MarkSubmitted(phase: FramePhase)
      requires Valid()
      modifies this
      ensures Valid() && Abs() == Submit(old(Abs()), phase)
    {
      hide ResultsOf, IndicesOf;
      if phase == Warmup {
        warmupSubmitted := true;
      } else {
        timedSubmitted := true;
      }
    }

    /** Fails every atom of a phase that was never submitted. */
    method CancelAtoms(phase: FramePhase)
      requires Valid()
      modifies Parts()
      ensures Valid() && old(Abs()).warmups <= old(Abs()).frames && Abs() == CancelPhase(old(Abs()), phase)
    {
      hide Abs, FailPhase, FailedUpTo, Submit, FailOne;
      FieldsOfAbs();
      if (if phase == Warmup then warmupSubmitted else timedSubmitted) {
        return;
      }
      ghost var g := Submit(Abs(), phase);
      SubmitOnly(Abs(), phase);
      MarkSubmitted(phase);
      var low := if phase == Warmup then 0 else warmupCount;
      var high := if phase == Warmup then warmupCount else |atoms|;
      NothingFailed(g, low);
      for index := low to high
        invariant Valid() && Abs() == FailedUpTo(g, low, index)
      {
        FieldsOfAbs();
        FailNext(g, low, index);
        FailFrame(atoms[index]);
      }
      FailedIsCancelled(old(Abs()), phase);
    }

    method CancelPreparedFramesLocked()
      requires Valid()
      modifies Parts()
      ensures Valid() && old(Abs()).warmups <= old(Abs()).frames && Abs() == CancelPrepared(old(Abs()))
    {
      hide Abs, CancelPhase;
      CancelAtoms(Warmup);
      CancelAtoms(Timed);
    }

    method FinishPhaseIfCompleteLocked()
      requires Valid()
      modifies this
      ensures Valid() && Abs() == Finish(old(Abs()))
    {
      hide ResultsOf, IndicesOf;
      if phaseActive && readyFrames == [] && inFlight == 0 && phaseTerminal == phaseTotal {
        assert IndicesOf(readyFrames) == [];
        phaseActive := false;
        phaseGate := null;
        phaseNotices := phaseNotices + 1;
      } else {
        assert readyFrames != [] ==> |IndicesOf(readyFrames)| > 0;
      }
    }

    // -------------------------------------------------------------- workers

    method RaiseCancellation()
      requires Valid()
      modifies cancellation
      ensures Valid() && Abs() == old(Abs()).(cancelled := true)
    {
      hide ResultsOf, IndicesOf;
      cancellation.raised := true;
    }

    method PopTask() returns (task: nat)
      requires Valid() && freeTasks != []
      modifies this
      ensures Valid() && readyFrames == old(readyFrames) && phaseGate == old(phaseGate)
              && phaseActive == old(phaseActive)
      ensures old(Abs()).free != [] && task == old(Abs()).free[|old(Abs()).free| - 1]
      ensures Abs() == old(Abs()).(free := old(Abs()).free[..|old(Abs()).free| - 1])
    {
      hide ResultsOf, IndicesOf;
      task := freeTasks[|freeTasks| - 1];
      freeTasks := freeTasks[..|freeTasks| - 1];
    }

    method AddInFlight()
      requires Valid()
      modifies this`inFlight
      ensures Valid() && Abs() == old(Abs()).(inFlight := old(Abs()).inFlight + 1)
    {
      hide ResultsOf, IndicesOf;
      inFlight := inFlight + 1;
    }

    method RaisePeak(peak: nat)
      requires Valid()
      modifies this`lastMaxInFlight
      ensures Valid() && Abs() == old(Abs()).(maxInFlight := peak)
    {
      hide ResultsOf, IndicesOf;
      lastMaxInFlight := peak;
    }

    method CountInFlight()
      requires Valid()
      modifies this`inFlight, this`lastMaxInFlight
      ensures Valid()
      ensures var g := old(Abs());
              Abs() == g.(inFlight := g.inFlight + 1,
                          maxInFlight := if g.maxInFlight < g.inFlight + 1 then g.inFlight + 1 else g.maxInFlight)
    {
      hide Abs;
      FieldsOfAbs();
      AddInFlight();
      FieldsOfAbs();
      if lastMaxInFlight < inFlight {
        RaisePeak(inFlight);
      }
    }

    method TakeFrame() returns (atom: FrameCpuAtom, task: nat, gate: PhaseGate)
      requires Valid() && readyFrames != [] && freeTasks != [] && phaseActive
      modifies this
      ensures Valid() && atom.frame < |atoms| && atoms[atom.frame] == atom
      ensures var g := old(Abs());
              && g.ready != [] && g.free != [] && g.gate == Some(gate.id) && atom.frame == g.ready[0]
              && task == g.free[|g.free| - 1]
              && Abs() == g.(ready := g.ready[1..], free := g.free[..|g.free| - 1], inFlight := g.inFlight + 1,
                             maxInFlight := if g.maxInFlight < g.inFlight + 1 then g.inFlight + 1 else g.maxInFlight)
    {
      FieldsOfAbs();
      GateOfAbs();
      hide Abs, ResultsOf, IndicesOf;
      gate := phaseGate;
      atom := PopReady();
      FieldsOfAbs();
      task := PopTask();
      CountInFlight();
    }

    lemma GateOfAbs()
      ensures phaseGate != null ==> Abs().gate == Some(phaseGate.id)
    {
    }

    /** The locked section in which a worker looks for something to do; `frame` is null unless it claims a frame. */
    method ClaimFrame() returns (waits: bool, exits: bool, frame: FrameCpuAtom?, task: nat, gate: PhaseGate?)
      requires Valid()
      modifies Parts()
      ensures Valid() && (old(Abs()).phaseActive ==> old(Abs()).gate.Some?)
      ensures match ClaimSection(old(Abs()))
              case Sleep => waits && !exits && frame == null && Abs() == old(Abs())
              case Exit => !waits && exits && frame == null && Abs() == old(Abs())
              case Swept(g) => !waits && !exits && frame == null && Abs() == g
              case Taken(g, f, t, id) =>
                !waits && !exits && frame != null && frame.frame == f && task == t && gate != null && gate.id == id
                  && Abs() == g
    {
      hide Abs, CancelReady, Finish;
      FieldsOfAbs();
      waits, exits, frame, task, gate := false, false, null, 0, null;
      if !(stopping || (phaseActive && (cancellation.raised || (readyFrames != [] && freeTasks != [])))) {
        QueueIsEmpty();
        waits := true;
      } else if stopping {
        exits := true;
      } else if cancellation.raised {
        CancelReadyFramesLocked();
        FinishPhaseIfCompleteLocked();
      } else {
        frame, task, gate := TakeFrame();
      }
    }

    lemma QueueIsEmpty()
      ensures Abs().ready == [] <==> readyFrames == []
    {
      assert |Abs().ready| == |readyFrames|;
    }

    /** A worker whose task failed raises the flag. */
    method RaiseOnFailure(succeeded: bool)
      requires Valid()
      modifies cancellation
      ensures Valid() && Abs() == RaisedGraph(old(Abs()), succeeded)
    {
      hide Abs;
      if !succeeded {
        RaiseCancellation();
      }
    }

    /** The result of a failed or cancelled frame is cleared. */
    method JudgeFrame(atom: FrameCpuAtom, succeeded: bool)
      requires Valid() && atom.frame < |atoms| && atoms[atom.frame] == atom
      modifies atom`resultOk
      ensures Valid() && |old(Abs()).results| == |atoms| && Abs() == ClearedGraph(old(Abs()), atom.frame, succeeded)
    {
      hide Abs;
      FieldsOfAbs();
      var cancelled := cancellation.raised;
      if !succeeded || cancelled {
        ClearResult(atom);
      }
    }

    /** A worker that has executed its frame raises the flag on failure, judges and delivers. */
    method FinishFrame(atom: FrameCpuAtom, succeeded: bool)
      requires Valid() && atom.frame < |atoms| && atoms[atom.frame] == atom
      modifies Parts()
      ensures Valid() && |old(Abs()).results| == old(Abs()).frames == |atoms|
      ensures Abs() == DeliverFrame(JudgedGraph(old(Abs()), atom.frame, succeeded), atom.frame)
    {
      hide Abs, DeliverFrame, RaisedGraph, ClearedGraph, JudgedGraph;
      FieldsOfAbs();
      RaisedThenCleared(Abs(), atom.frame, succeeded);
      RaiseOnFailure(succeeded);
      JudgeFrame(atom, succeeded);
      DeliverFrameResult(atom);
    }

    method ReturnTask(task: nat)
      requires Valid() && inFlight > 0
      modifies this
      ensures Valid()
      ensures var g := old(Abs());
              && g.inFlight > 0
              && Abs() == g.(free := g.free + [task], inFlight := g.inFlight - 1, terminal := g.terminal + 1)
    {
      hide ResultsOf, IndicesOf;
      freeTasks := freeTasks + [task];
      inFlight := inFlight - 1;
      phaseTerminal := phaseTerminal + 1;
    }

    /** The locked section in which a worker returns its task and accounts for its frame. */
    method AccountFrame(task: nat, succeeded: bool)
      requires Valid() && inFlight > 0
      modifies Parts()
      ensures Valid() && old(Abs()).inFlight > 0 && Abs() == AccountSection(old(Abs()), task, succeeded)
    {
      hide Abs, CancelReady, Finish;
      FieldsOfAbs();
      ReturnTask(task);
      FieldsOfAbs();
      if !succeeded || cancellation.raised {
        CancelReadyFramesLocked();
      }
      FinishPhaseIfCompleteLocked();
    }

    // -------------------------------------------------------------- callers

    method SetStopping()
      requires Valid()
      modifies this
      ensures Valid() && phaseGate == old(phaseGate) && Abs() == old(Abs()).(stopping := true)
    {
      hide ResultsOf, IndicesOf;
      stopping := true;
    }

    /**
     * The first locked section of shutdown; `unloaded` says that workers, tasks, frames and static data are all gone.
     */
    method BeginShutdown(unloaded: bool) returns (nothingToDo: bool)
      requires Valid()
      modifies Parts(), phaseGate
      ensures Valid() && old(Abs()).warmups <= old(Abs()).frames && nothingToDo == (!old(initialized) && unloaded)
      ensures Abs() == if nothingToDo then old(Abs()) else ShutdownSection(old(Abs()))
      ensures !nothingToDo && old(phaseActive) && old(phaseGate) != null ==> old(phaseGate).released
    {
      hide Abs, CancelReady, CancelPrepared;
      FieldsOfAbs();
      nothingToDo := !initialized && unloaded;
      if nothingToDo {
        return;
      }
      var gate := phaseGate;
      SetStopping();
      FieldsOfAbs();
      if phaseActive {
        RaiseCancellation();
        CancelReadyFramesLocked();
        if gate != null {
          gate.Release();
        }
      }
      CancelPreparedFramesLocked();
    }

    method ForgetWork()
      requires Valid() && !phaseActive
      modifies this`readyFrames, this`freeTasks, this`phaseGate
      ensures Valid() && Abs() == old(Abs()).(ready := [], free := [], gate := None)
    {
      hide ResultsOf, IndicesOf;
      readyFrames := [];
      freeTasks := [];
      phaseGate := null;
    }

    method ForgetCycle()
      requires Valid()
      modifies this`initialized, this`executionCycleStarted, this`phaseActive
      ensures Valid() && !phaseActive
      ensures Abs() == old(Abs()).(initialized := false, cycleStarted := false, phaseActive := false)
    {
      hide ResultsOf, IndicesOf;
      initialized := false;
      executionCycleStarted := false;
      phaseActive := false;
    }

    /** The last locked section of shutdown, after every worker has been joined. */
    method EndShutdown()
      requires Valid()
      modifies this
      ensures Valid() && Abs() == ClearAfterJoin(old(Abs()))
    {
      hide Abs;
      ForgetCycle();
      ForgetWork();
    }

    /** Starts the execution cycle; `started` is the outcome of starting the tasks. */
    method Start(started: bool) returns (ok: bool)
      requires Valid()
      modifies this`executionCycleStarted, cancellation
      ensures Valid() && Reply(Abs(), ok) == StartCycle(old(Abs()), started)
    {
      hide ResultsOf, IndicesOf;
      if !initialized || executionCycleStarted || executionCycleStopped || phaseActive || stopping ||
         cancellation.raised {
        return false;
      }
      if !started {
        cancellation.raised := true;
        return false;
      }
      executionCycleStarted := true;
      return true;
    }

    /** Stops the execution cycle for good; `stopped` is the outcome of stopping the tasks. */
    method Stop(stopped: bool) returns (ok: bool)
      requires Valid()
      modifies this`executionCycleStarted, this`executionCycleStopped, cancellation
      ensures Valid() && Reply(Abs(), ok) == StopCycle(old(Abs()), stopped)
    {
      hide ResultsOf, IndicesOf;
      if !initialized || !executionCycleStarted || executionCycleStopped || phaseActive || inFlight != 0 || stopping {
        return false;
      }
      if !stopped {
        cancellation.raised := true;
        return false;
      }
      executionCycleStarted := false;
      executionCycleStopped := true;
      return true;
    }

    method ResetResult(atom: FrameCpuAtom)
      requires Valid() && atom.frame < |atoms| && atoms[atom.frame] == atom
      modifies atom`resultId, atom`resultOk
      ensures Valid() && atom.resultId == atom.frameId
      ensures Abs() == old(Abs()).(results := old(Abs()).results[atom.frame := true])
    {
      hide IndicesOf;
      atom.resultId := atom.frameId;
      atom.resultOk := true;
      assert ResultsOf(atoms) == old(ResultsOf(atoms))[atom.frame := true];
    }

    /**
     * The queue of a phase: `ok` is false as soon as a frame fails validation, or when the queue cannot grow past
     * `room` frames; only the latter raises the flag.
     */
    method QueuePhase(low: nat, high: nat, valid: seq<bool>, room: nat) returns (ok: bool, pending: seq<FrameCpuAtom>)
      requires Valid() && low <= high <= |atoms| == |valid|
      modifies cancellation
      ensures Valid() && (ok <==> AllFit(valid, low, high) && !QueueFails(valid, low, high, room))
      ensures ok ==> pending == atoms[low..high]
      ensures Abs() == if QueueFails(valid, low, high, room) then old(Abs()).(cancelled := true) else old(Abs())
    {
      hide Abs;
      pending := [];
      for index := low to high
        invariant pending == atoms[low..index] && AllFit(valid, low, index) && index - low <= room
        invariant Valid() && Abs() == old(Abs())
      {
        if !valid[index] {
          return false, pending;
        }
        if |pending| == room {
          RaiseCancellation();
          return false, pending;
        }
        pending := pending + [atoms[index]];
      }
      ok := true;
    }

    method ResetResults(low: nat, high: nat)
      requires Valid() && low <= high <= |atoms|
      modifies Parts()
      ensures Valid() && Abs() == MarkedUpTo(old(Abs()), low, high)
    {
      hide Abs, MarkedUpTo;
      ghost var g := Abs();
      FieldsOfAbs();
      NothingMarked(g, low);
      for index := low to high
        invariant Valid() && Abs() == MarkedUpTo(g, low, index)
      {
        MarkNext(g, low, index);
        ResetResult(atoms[index]);
      }
    }

    method SetQueue(gate: PhaseGate, low: nat, high: nat)
      requires Valid() && low <= high <= |atoms|
      modifies this`readyFrames, this`phaseGate
      ensures Valid() && Abs() == old(Abs()).(ready := Range(low, high), gate := Some(gate.id))
    {
      hide ResultsOf;
      readyFrames := atoms[low..high];
      phaseGate := gate;
      assert IndicesOf(readyFrames) == Range(low, high);
    }

    method ResetCounters(total: nat)
      requires Valid()
      modifies this`phaseTotal, this`phaseTerminal, this`inFlight, this`lastMaxInFlight
      ensures Valid() && Abs() == old(Abs()).(total := total, terminal := 0, inFlight := 0, maxInFlight := 0)
    {
      hide ResultsOf, IndicesOf;
      phaseTotal, phaseTerminal, inFlight, lastMaxInFlight := total, 0, 0, 0;
    }

    method SetPhaseFlags(phase: FramePhase)
      requires Valid() && phaseGate != null
      modifies this`phaseSucceeded, this`phaseActive, this`current, this`phaseNotices
      ensures Valid()
      ensures var g := old(Abs());
              Abs() == g.(phaseSucceeded := true, phaseActive := g.total != 0, current := Some(phase),
                          phaseNotices := if g.total == 0 then g.phaseNotices + 1 else g.phaseNotices)
    {
      hide ResultsOf, IndicesOf;
      phaseSucceeded := true;
      phaseActive := phaseTotal != 0;
      current := Some(phase);
      if !phaseActive {
        phaseNotices := phaseNotices + 1;
      }
    }

    method OpenPhase(phase: FramePhase, gate: PhaseGate, low: nat, high: nat)
      requires Valid() && low <= high <= |atoms|
      modifies this
      ensures Valid()
      ensures var g := old(Abs());
              Abs() == g.(ready := Range(low, high), gate := Some(gate.id), total := high - low, terminal := 0,
                inFlight := 0,
                          maxInFlight := 0, phaseSucceeded := true, phaseActive := low < high, current := Some(phase),
                          phaseNotices := if low == high then g.phaseNotices + 1 else g.phaseNotices)
    {
      hide Abs, Range, Valid;
      SetQueue(gate, low, high);
      FieldsOfAbs();
      ResetCounters(high - low);
      SetPhaseFlags(phase);
    }

    /**
     * Submits the frames of a phase. `valid` is the validation of each frame against the static layout, and `room`
     * how many frames can be queued before an allocation fails.
     */
    method BeginPhase(phase: FramePhase, gate: PhaseGate, valid: seq<bool>, room: nat) returns (ok: bool)
      requires Valid() && |valid| == |atoms|
      modifies Parts()
      ensures Valid() && old(Abs()).warmups <= old(Abs()).frames == |valid|
      ensures var low, high := old(Abs()).Low(phase), old(Abs()).High(phase);
              Reply(Abs(), ok) ==
              StartPhase(old(Abs()), phase, gate.id, AllFit(valid, low, high), !QueueFails(valid, low, high, room))
    {
      hide Abs, MarkAll, Range, AllFit, QueueFails;
      FieldsOfAbs();
      ok := false;
      if !initialized || !executionCycleStarted || phaseActive || stopping || cancellation.raised ||
         (if phase == Warmup then warmupSubmitted else timedSubmitted) {
        return;
      }
      var low := if phase == Warmup then 0 else warmupCount;
      var high := if phase == Warmup then warmupCount else |atoms|;
      var pending;
      ok, pending := QueuePhase(low, high, valid, room);
      if ok {
        ResetResults(low, high);
        MarkSubmitted(phase);
        OpenPhase(phase, gate, low, high);
      }
    }
  }
}
