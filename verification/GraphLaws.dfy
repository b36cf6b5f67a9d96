/**
 * What each section of the scheduler does and when, field by field, and what that means over runs: nothing fails
 * without a cause, and a phase that nobody cancels or stops ends with a good result for every frame.
 */
module GraphLaws {
  import opened Counting
  import opened GpuTypes
  import opened GraphSpec
  import opened GraphSystem
  import opened GraphInvariant
  import opened GraphRuns
  import opened GraphTheorems

  // ---------------------------------------------------------------- workers

  /** The queued frames have failed, in their order, each delivered once as failed; the phase has not succeeded. */
  ghost predicate QueueFailed(g: Graph, g': Graph) {
    && g'.ready == [] && !g'.phaseSucceeded && g'.terminal == g.terminal + |g.ready|
    && |g'.log| == |g.log| + |g.ready|
    && (forall i :: 0 <= i < |g.log| ==> g'.log[i] == g.log[i])
    && (forall i :: |g.log| <= i < |g'.log| ==> g'.log[i] == Delivery(g.ready[i - |g.log|], false))
    && |g'.results| == |g.results|
    && (forall f :: 0 <= f < |g.results| ==> g'.results[f] == (g.results[f] && f !in g.ready))
  }

  /** The phase is over: nothing is queued, in flight or unaccounted. It ends once, and its callers are notified. */
  ghost predicate EndsIfOver(g: Graph, g': Graph) {
    var over := g.phaseActive && g.ready == [] && g.inFlight == 0 && g.terminal == g.total;
    g' == if over then g.(phaseActive := false, gate := None, phaseNotices := g.phaseNotices + 1) else g
  }

  /** Only fields of frames have changed. */
  ghost predicate OnlyFrames(g: Graph, g': Graph) {
    g' == g.(ready := g'.ready, phaseSucceeded := g'.phaseSucceeded, terminal := g'.terminal, log := g'.log,
             results := g'.results)
  }

  /**
   * A worker that looks leaves a stopping graph, sweeps the queue exactly when the phase has been cancelled,
   * claims the first frame with the last free task exactly when both are there and nobody cancelled, and
   * otherwise sleeps.
   */
  lemma ClaimLaw(g: Graph)
    requires g.phaseActive ==> g.gate.Some?
    ensures match ClaimSection(g)
            case Exit => g.stopping
            case Sleep => !g.stopping && (!g.phaseActive || (!g.cancelled && (g.ready == [] || g.free == [])))
            case Swept(g') =>
              && !g.stopping && g.phaseActive && g.cancelled
              && exists g1: Graph :: QueueFailed(g, g1) && OnlyFrames(g, g1) && EndsIfOver(g1, g')
            case Taken(g', frame, task, gate) =>
              && !g.stopping && g.phaseActive && !g.cancelled && g.ready != [] && g.free != []
              && g.ready == [frame] + g'.ready && g.free == g'.free + [task] && g.gate == Some(gate)
              && g' == g.(ready := g'.ready, free := g'.free, inFlight := g.inFlight + 1,
                          maxInFlight := if g.maxInFlight > g.inFlight then g.maxInFlight else g.inFlight + 1)
  {
    hide CancelReady, Finish, QueueFailed, OnlyFrames, EndsIfOver;
    QueueLaw(g);
    FinishLaw(CancelReady(g));
  }

  lemma QueueLaw(g: Graph)
    ensures QueueFailed(g, CancelReady(g)) && OnlyFrames(g, CancelReady(g))
  {
  }

  lemma FinishLaw(g: Graph)
    ensures EndsIfOver(g, Finish(g))
  {
  }

  /** A worker that accounts returns its task and its frame; a failed or cancelled frame takes the queue with it. */
  lemma AccountLaw(g: Graph, task: nat, ok: bool)
    requires g.inFlight > 0
    ensures var g1 := g.(free := g.free + [task], inFlight := g.inFlight - 1, terminal := g.terminal + 1);
            var g' := AccountSection(g, task, ok);
            if ok && !g.cancelled then EndsIfOver(g1, g')
            else exists g2: Graph :: QueueFailed(g1, g2) && OnlyFrames(g1, g2) && EndsIfOver(g2, g')
  {
    hide CancelReady, Finish, QueueFailed, OnlyFrames, EndsIfOver;
    var g1 := g.(free := g.free + [task], inFlight := g.inFlight - 1, terminal := g.terminal + 1);
    if ok && !g.cancelled {
      FinishLaw(g1);
    } else {
      QueueLaw(g1);
      FinishLaw(CancelReady(g1));
    }
  }

  /** A worker delivers what the frame's result says, and a failed or cancelled frame says that it failed. */
  lemma JudgeLaw(g: Graph, f: nat, ok: bool)
    requires f < |g.results|
    ensures var g' := DeliverFrame(JudgedGraph(g, f, ok), f);
            var good := ok && !g.cancelled && g.results[f];
            && g'.cancelled == (g.cancelled || !ok)
            && g'.results == g.results[f := good] && g'.log == g.log + [Delivery(f, good)]
            && g' == g.(cancelled := g'.cancelled, results := g'.results, log := g'.log)
  {
    var g1 := JudgedGraph(g, f, ok);
    assert g1.results == g.results[f := ok && !g.cancelled && g.results[f]];
    assert g1 == g.(cancelled := g1.cancelled, results := g1.results);
    hide JudgedGraph;
  }

  // ---------------------------------------------------------------- callers

  /**
   * A phase starts exactly for a started, idle, healthy graph that has not seen it, and then queues its frames in
   * order.
   */
  lemma StartPhaseLaw(g: Graph, phase: FramePhase, gate: nat, valid: bool, queued: bool)
    requires g.warmups <= g.frames && |g.results| == g.frames
    ensures var Reply(g', ok) := StartPhase(g, phase, gate, valid, queued);
            var seen := if phase == Warmup then g.warmupSubmitted else g.timedSubmitted;
            var low, high := if phase == Warmup then 0 else g.warmups, if phase == Warmup then g.warmups else g.frames;
            var may := g.initialized && g.cycleStarted && !g.phaseActive && !g.stopping && !g.cancelled && !seen;
            && (ok <==> may && queued && valid)
            && (!ok ==> g' == if may && !queued then g.(cancelled := true) else g)
            && (ok ==>
                  && |g'.ready| == high - low == g'.total && (forall i :: 0 <= i < |g'.ready| ==>
                     g'.ready[i] == low + i)
                  && |g'.results| == g.frames
                  && (forall f :: 0 <= f < g.frames ==> g'.results[f] == (g.results[f] || low <= f < high))
                  && g'.gate == Some(gate) && g'.current == Some(phase) && g'.phaseSucceeded
                  && g'.terminal == g'.inFlight == g'.maxInFlight == 0
                  && g'.phaseActive == (low < high) && g'.phaseNotices == g.phaseNotices + One(low == high)
                  && g'.warmupSubmitted == (g.warmupSubmitted || phase == Warmup)
                  && g'.timedSubmitted == (g.timedSubmitted || phase == Timed)
                  && g'.log == g.log && g'.free == g.free && g'.cancelled == g.cancelled && g'.stopping == g.stopping
                  && g'.initialized && g'.cycleStarted && g'.cycleStopped == g.cycleStopped)
  {
    var fs := PhaseFrames(g, phase);
    assert |fs| == g.High(phase) - g.Low(phase);
    PhaseFramesAre(g, phase);
  }

  /** A cycle starts once, on an idle healthy graph, and stops once, when nothing is in flight. */
  lemma CycleLaw(g: Graph, ok: bool)
    ensures var idle := g.initialized && !g.cycleStopped && !g.phaseActive && !g.stopping;
            && StartCycle(g, ok) == (
                 if !(idle && !g.cycleStarted && !g.cancelled) then Reply(g, false)
                 else if ok then Reply(g.(cycleStarted := true), true) else Reply(g.(cancelled := true), false))
            && StopCycle(g, ok) == (
                 if !(idle && g.cycleStarted && g.inFlight == 0) then Reply(g, false)
                 else if ok then Reply(g.(cycleStarted := false, cycleStopped := true), true)
                 else Reply(g.(cancelled := true), false))
  {
  }

  /** The frames of a phase that was never submitted have failed, in order, each delivered once as failed. */
  ghost predicate PreparedFailed(g: Graph, g': Graph, low: nat, high: nat) {
    && low <= high && |g'.log| == |g.log| + (high - low)
    && (forall i :: 0 <= i < |g.log| ==> g'.log[i] == g.log[i])
    && (forall i :: |g.log| <= i < |g'.log| ==> g'.log[i] == Delivery(low + (i - |g.log|), false))
    && |g'.results| == |g.results|
    && (forall f :: 0 <= f < |g.results| ==> g'.results[f] == (g.results[f] && !(low <= f < high)))
  }

  lemma CancelPhaseLaw(g: Graph, phase: FramePhase)
    requires g.warmups <= g.frames
    ensures var g' := CancelPhase(g, phase);
            && (if g.Submitted(phase) then g' == g
                else PreparedFailed(g, g', if phase == Warmup then 0 else g.warmups, if phase == Warmup then g.warmups
                  else g.frames))
            && g'.warmupSubmitted == (g.warmupSubmitted || phase == Warmup)
            && g'.timedSubmitted == (g.timedSubmitted || phase == Timed)
            && g' == g.(warmupSubmitted := g'.warmupSubmitted, timedSubmitted := g'.timedSubmitted,
               results := g'.results,
                        log := g'.log)
  {
    hide MarkAll, Failures, PhaseFrames, PreparedFailed;
    if !g.Submitted(phase) {
      PhaseFails(g, phase);
    }
  }

  lemma PhaseFails(g: Graph, phase: FramePhase)
    requires g.warmups <= g.frames
    ensures PreparedFailed(g, FailPhase(g, phase, PhaseFrames(g, phase)), g.Low(phase), g.High(phase))
  {
    hide PreparedFailed, FailPhase;
    FramesFail(g, phase, PhaseFrames(g, phase), g.Low(phase), g.High(phase));
  }

  lemma FramesFail(g: Graph, phase: FramePhase, fs: seq<nat>, low: nat, high: nat)
    requires low <= high && fs == Range(low, high)
    ensures PreparedFailed(g, FailPhase(g, phase, fs), low, high)
  {
    forall f: nat
      ensures f in fs <==> low <= f < high
    {
      if low <= f < high {
        assert fs[f - low] == f;
      }
    }
  }

  /** The queue of an active phase goes first, to g1, then the warmup frames, to g2, then the timed frames, to g'. */
  ghost predicate GoesDown(g: Graph, g1: Graph, g2: Graph, g': Graph) {
    && (if g.phaseActive then QueueFailed(g, g1) && OnlyFrames(g, g1) else g1 == g)
    && (if g.warmupSubmitted then g2.log == g1.log && g2.results == g1.results
        else PreparedFailed(g1, g2, 0, g.warmups))
    && (if g.timedSubmitted then g'.log == g2.log && g'.results == g2.results
        else PreparedFailed(g2, g', g.warmups, g.frames))
    && g' == g1.(stopping := true, cancelled := g.cancelled || g.phaseActive, warmupSubmitted := true,
                 timedSubmitted := true, log := g'.log, results := g'.results)
  }

  /**
   * Shutdown stops the graph; an active phase is cancelled and loses its queue; then the warmup frames and the
   * timed frames fail as far as they were never submitted, and nothing remains to be submitted.
   */
  lemma ShutdownLaw(g: Graph)
    requires g.warmups <= g.frames
    ensures exists g1: Graph, g2: Graph :: GoesDown(g, g1, g2, ShutdownSection(g))
  {
    hide CancelReady, CancelPhase, QueueFailed, OnlyFrames, PreparedFailed;
    var g0 := g.(stopping := true, cancelled := g.cancelled || g.phaseActive);
    var g1 := if g.phaseActive then CancelReady(g) else g;
    var s1 := if g.phaseActive then CancelReady(g0) else g0;
    QueueLaw(g);
    SweepIgnoresTheFlag(g);
    var g2 := CancelPhase(s1, Warmup);
    CancelPhaseLaw(s1, Warmup);
    CancelPhaseLaw(g2, Timed);
    SameFailures(s1, g1, g2, 0, g.warmups);
    assert GoesDown(g, g1, g2, ShutdownSection(g));
  }

  lemma SweepIgnoresTheFlag(g: Graph)
    ensures CancelReady(g.(stopping := true, cancelled := true)) == CancelReady(g).(stopping := true, cancelled := true)
    ensures OnlyFrames(g, CancelReady(g))
  {
  }

  lemma SameFailures(g: Graph, g1: Graph, g': Graph, low: nat, high: nat)
    requires g.log == g1.log && g.results == g1.results
    ensures PreparedFailed(g, g', low, high) == PreparedFailed(g1, g', low, high)
  {
  }

  lemma JoinLaw(g: Graph)
    ensures var g' := ClearAfterJoin(g);
            && !g'.initialized && !g'.cycleStarted && !g'.phaseActive && g'.ready == [] && g'.free == []
            && g'.gate == None
            && g'.log == g.log && g'.results == g.results && g'.stopping == g.stopping && g'.cancelled == g.cancelled
            && g'.phaseSucceeded == g.phaseSucceeded && g'.warmupSubmitted == g.warmupSubmitted
            && g'.timedSubmitted == g.timedSubmitted && g'.cycleStopped == g.cycleStopped
            && g'.inFlight == g.inFlight && g'.total == g.total && g'.terminal == g.terminal
  {
  }

  // ---------------------------------------------------------------- nothing fails without a cause

  /** What raises the flag: a failed execution, a call that fails, somebody else, or the shutdown of an active phase. */
  ghost predicate RaisesTheFlag(s: System, step: Step) {
    match step
    case RaiseFlag(w) => w < |s.workers| && s.workers[w].Executed? && !s.workers[w].ok
    case StartCycleCall(ok) => !ok
    case StopCycleCall(ok) => !ok
    case StartPhaseCall(_, _, _, queued) => !queued
    case CancelElsewhere => true
    case ShutdownCall => s.graph.initialized && s.graph.phaseActive
    case _ => false
  }

  lemma FlagHasACause(s: System, step: Step, s': System)
    requires Next(s, step, s') && !s.graph.cancelled && s'.graph.cancelled
    ensures RaisesTheFlag(s, step)
  {
    hide Next, RaisesTheFlag;
    if step.ByWorker() {
      WorkerRaises(s, step, s');
    } else {
      CallerRaises(s, step, s');
    }
  }

  lemma WorkerRaises(s: System, step: Step, s': System)
    requires Next(s, step, s') && !s.graph.cancelled && s'.graph.cancelled && step.ByWorker()
    ensures RaisesTheFlag(s, step)
  {
    hide NotifiedWorkers, NotifiedCallers, Moved, Put, CancelReady, Finish, AccountSection, RaisesTheFlag;
    var w := WorkerOf(step);
    if step.Account? {
      AccountFlags(s.graph, s.workers[w].task, s.workers[w].ok);
    } else if step.Look? {
      SweepFlags(s.graph);
    } else {
      OnlyRaisersRaise(s, step, s');
    }
  }

  lemma OnlyRaisersRaise(s: System, step: Step, s': System)
    requires Next(s, step, s') && !s.graph.cancelled && s'.graph.cancelled
    requires step.ByWorker() && !step.Account? && !step.Look?
    ensures RaisesTheFlag(s, step)
  {
    hide NotifiedCallers, Put;
    if step.RaiseFlag? {
    } else {
    }
  }

  lemma CallerRaises(s: System, step: Step, s': System)
    requires Next(s, step, s') && !s.graph.cancelled && s'.graph.cancelled && !step.ByWorker()
    ensures RaisesTheFlag(s, step)
  {
    hide MarkAll, Failures, Moved, MovedWithin, NotifiedWorkers, NotifiedCallers, ShutdownSection;
    if step.ShutdownCall? {
      ShutdownFlags(s.graph);
    } else if step.StartPhaseCall? {
    } else {
    }
  }

  /** Sweeping the queue leaves the flags as they are. */
  lemma SweepFlags(g: Graph)
    ensures var g' := Finish(CancelReady(g)); g'.cancelled == g.cancelled && g'.stopping == g.stopping
  {
  }

  /** So does accounting for a frame, which delivers nothing if the frame is good and nobody has cancelled. */
  lemma AccountFlags(g: Graph, task: nat, ok: bool)
    requires g.inFlight > 0
    ensures var g' := AccountSection(g, task, ok);
            && g'.cancelled == g.cancelled && g'.stopping == g.stopping
            && (ok && !g.cancelled ==> g'.log == g.log && g'.phaseSucceeded == g.phaseSucceeded)
  {
  }

  lemma ShutdownFlags(g: Graph)
    requires g.warmups <= g.frames
    ensures ShutdownSection(g).stopping && ShutdownSection(g).cancelled == (g.cancelled || g.phaseActive)
    ensures !g.phaseActive ==> ShutdownSection(g).phaseSucceeded == g.phaseSucceeded
  {
    hide CancelReady, CancelPhase, QueueFailed, OnlyFrames, PreparedFailed;
    ShutdownLaw(g);
  }

  /** A caller of waitForPhase leaves when it finds the phase over, and is notified only when a phase ends. */
  lemma CallersLeaveForAReason(s: System, step: Step, s': System, id: nat)
    requires Next(s, step, s') && id in s.waiters
    ensures id !in s'.waiters ==> step == WakeCaller(id) && !s.graph.phaseActive
    ensures id in s'.waiters && !s.waiters[id] && s'.waiters[id] ==> s'.graph.phaseNotices != s.graph.phaseNotices
  {
    hide MarkAll, Failures, Moved, MovedWithin, NotifiedWorkers, Put, CancelReady, Finish, ShutdownSection,
         AccountSection;
    if step.ByWorker() {
      var w := WorkerOf(step);
    } else if step.StartPhaseCall? {
    } else {
    }
  }

  /** An execution that has failed did fail, or its worker saw the flag before it began. */
  lemma FailureIsExecuted(s: System, step: Step, s': System, w: nat)
    requires Next(s, step, s') && w < |s.workers| && !s.workers[w].Executed?
    ensures w < |s'.workers|
    ensures s'.workers[w].Executed? && !s'.workers[w].ok ==>
              step == Execute(w, false) || (step == CheckFlag(w) && s.graph.cancelled)
  {
    hide MarkAll, Failures, Moved, MovedWithin, NotifiedCallers, Put, CancelReady, Finish;
    match step
    case _ =>
  }

  /** Whoever is told of a failure can point to the flag or to a shutdown; and without the flag the phase succeeds. */
  ghost predicate BlameInv(g: Graph) {
    && (!g.cancelled ==> g.phaseSucceeded)
    && (forall i :: 0 <= i < |g.log| && !g.log[i].ok ==> g.cancelled || g.stopping)
  }

  /** What a step does that leaves the flag down: it fails nothing, unless it shuts the graph down. */
  ghost predicate Quiet(g: Graph, g': Graph) {
    && !g.cancelled && (g'.phaseSucceeded || g'.phaseSucceeded == g.phaseSucceeded)
    && (g.stopping ==> g'.stopping)
    && (g'.stopping || g'.log == g.log || exists f: nat :: g'.log == g.log + [Delivery(f, true)])
  }

  lemma QuietStep(s: System, step: Step, s': System)
    requires GraphInv(s) && Next(s, step, s') && !s'.graph.cancelled
    ensures Quiet(s.graph, s'.graph)
  {
    hide GraphInv, Next, Quiet;
    if step.ByWorker() {
      QuietWorker(s, step, s');
    } else {
      QuietCaller(s, step, s');
    }
  }

  lemma QuietWorker(s: System, step: Step, s': System)
    requires GraphInv(s) && Next(s, step, s') && !s'.graph.cancelled && step.ByWorker()
    ensures Quiet(s.graph, s'.graph)
  {
    hide GraphInv, WorkerOk, NotifiedWorkers, NotifiedCallers, Moved, Put, CancelReady, Finish, AccountSection;
    Facts(s);
    var w := WorkerOf(step);
    WhatWorkersKnow(s, w);
    if step.Account? {
      AccountFlags(s.graph, s.workers[w].task, s.workers[w].ok);
    } else if step.Look? {
      SweepFlags(s.graph);
    } else if step.Deliver? {
    } else {
    }
  }

  lemma QuietCaller(s: System, step: Step, s': System)
    requires Next(s, step, s') && !s'.graph.cancelled && !step.ByWorker()
    ensures Quiet(s.graph, s'.graph)
  {
    hide MarkAll, Failures, Moved, MovedWithin, NotifiedWorkers, NotifiedCallers, ShutdownSection;
    if step.ShutdownCall? {
      ShutdownFlags(s.graph);
    } else if step.StartPhaseCall? {
    } else {
    }
  }

  lemma WhatWorkersKnow(s: System, w: nat)
    requires WorkerOk(s, w)
    ensures s.workers[w].Delivered? && !s.workers[w].ok ==> s.graph.cancelled
    ensures s.workers[w].Judged? && !s.graph.cancelled ==>
              s.workers[w].frame < |s.graph.results| && s.graph.results[s.workers[w].frame]
  {
  }

  lemma BlameStep(s: System, step: Step, s': System)
    requires GraphInv(s) && BlameInv(s.graph) && Next(s, step, s')
    ensures BlameInv(s'.graph)
  {
    hide GraphInv, Next;
    if !s'.graph.cancelled {
      QuietStep(s, step, s');
    }
  }

  lemma FreshGraphBlames(s: System)
    requires Start(s)
    ensures GraphInv(s) && BlameInv(s.graph)
  {
    StartHolds(s);
  }

  lemma {:induction false} BlameHolds(states: seq<System>, steps: seq<Step>, k: nat)
    requires IsRun(states, steps) && Start(states[0]) && k < |states|
    ensures GraphInv(states[k]) && BlameInv(states[k].graph)
  {
    hide GraphInv, Next, BlameInv;
    FreshGraphBlames(states[0]);
    RunsAreSafe(states, steps, k);
    if k > 0 {
      RunsAreSafe(states, steps, k - 1);
      BlameHolds(states, steps, k - 1);
      BlameStep(states[k - 1], steps[k - 1], states[k]);
    }
  }

  /** Nobody is told of a failure before the flag has risen or the graph is shutting down. */
  lemma FailureHasACause(states: seq<System>, steps: seq<Step>, k: nat, i: nat)
    requires IsRun(states, steps) && Start(states[0]) && k < |states| && i < |states[k].graph.log|
    ensures !states[k].graph.log[i].ok ==> states[k].graph.cancelled || states[k].graph.stopping
  {
    BlameHolds(states, steps, k);
  }

  /** waitForPhase returns true if and only if the phase is over and the flag is down. */
  lemma WaitingIsExact(states: seq<System>, steps: seq<Step>, k: nat)
    requires IsRun(states, steps) && Start(states[0]) && k < |states|
    ensures WaitReturnsTrue(states[k].graph) <==> !states[k].graph.phaseActive && !states[k].graph.cancelled
  {
    BlameHolds(states, steps, k);
  }

  /**
   * A phase that nobody cancels succeeds: when it is over and the flag is down, waitForPhase returns true, and each
   * of its frames was executed successfully and delivered once, as good.
   */
  lemma HealthyPhaseSucceeds(states: seq<System>, steps: seq<Step>, k: nat, f: nat)
    requires IsRun(states, steps) && Start(states[0]) && k < |states|
    requires !states[k].graph.phaseActive && !states[k].graph.cancelled && states[k].graph.InCurrent(f)
    ensures states[k].graph.phaseSucceeded && WaitReturnsTrue(states[k].graph)
    ensures DeliveredOnce(states[k].graph.log, f) && f in states[k].executed
    ensures exists i :: 0 <= i < |states[k].graph.log| && states[k].graph.log[i] == Delivery(f, true)
  {
    BlameHolds(states, steps, k);
    WaitingTellsTheTruth(states, steps, k, f);
    var log := states[k].graph.log;
    var i: nat :| i < |log| && log[i] == Delivery(f, true);
    GoodMeansExecuted(states, steps, k, i);
  }
}
