/** The guarantees of the graph scheduler over whole runs. */
module GraphTheorems {
  import opened Counting
  import opened GpuTypes
  import opened GraphSpec
  import opened GraphSystem
  import opened GraphInvariant
  import opened GraphRuns

  ghost predicate Next(s: System, step: Step, s': System) {
    && Enabled(s, step) && s.graph.warmups <= s.graph.frames && (s.graph.phaseActive ==> s.graph.gate.Some?)
    && s' == Apply(s, step)
  }

  /** A run from any state; `Start(states[0])` makes it a run of a fresh graph. */
  ghost predicate IsRun(states: seq<System>, steps: seq<Step>) {
    && |states| == |steps| + 1
    && (forall k :: 0 <= k < |steps| ==> Next(states[k], steps[k], states[k + 1]))
  }

  // ---------------------------------------------------------------- the end of an execution, undisturbed

  /** The phase's configuration and the number of results are what they were. */
  ghost predicate SamePhase(g: Graph, g': Graph) {
    && g'.warmups == g.warmups && g'.frames == g.frames && g'.phaseActive == g.phaseActive && g'.gate == g.gate
    && |g'.results| == |g.results|
  }

  lemma RaiseEffect(s: System, w: nat)
    requires Enabled(s, RaiseFlag(w)) && s.graph.warmups <= s.graph.frames
             && (s.graph.phaseActive ==> s.graph.gate.Some?)
    ensures var s', worker := Apply(s, RaiseFlag(w)), s.workers[w];
            && s'.graph == RaisedGraph(s.graph, worker.ok) && SamePhase(s.graph, s'.graph) && s'.place == s.place
            && s'.workers == s.workers[w := Flagged(worker.frame, worker.task, worker.ok)]
  {
    hide NotifiedCallers;
  }

  lemma JudgeEffect(s: System, w: nat)
    requires Enabled(s, Judge(w)) && s.graph.warmups <= s.graph.frames && (s.graph.phaseActive ==> s.graph.gate.Some?)
    ensures var s', worker := Apply(s, Judge(w)), s.workers[w];
            && s'.graph == ClearedGraph(s.graph, worker.frame, worker.ok) && SamePhase(s.graph, s'.graph)
            && s'.place == s.place
            && s'.workers == s.workers[w := Judged(worker.frame, worker.task, worker.ok)]
  {
    hide NotifiedCallers;
  }

  lemma DeliverEffect(s: System, w: nat)
    requires Enabled(s, Deliver(w)) && s.graph.warmups <= s.graph.frames && (s.graph.phaseActive ==> s.graph.gate.Some?)
    ensures var s', worker := Apply(s, Deliver(w)), s.workers[w];
            && s'.graph == DeliverFrame(s.graph, worker.frame) && s'.place == Put(s.place, worker.frame, Done)
            && s'.workers == s.workers[w := Delivered(worker.frame, worker.task, worker.ok)]
  {
    hide NotifiedCallers;
  }

  /**
   * Without other threads in between, the three unlocked actions after an execution are one section of the scheduler.
   */
  lemma FinishIsThreeSteps(s: System, w: nat)
    requires Enabled(s, RaiseFlag(w)) && s.workers[w].frame < |s.graph.results|
    requires s.graph.warmups <= s.graph.frames && (s.graph.phaseActive ==> s.graph.gate.Some?)
    ensures var s1 := Apply(s, RaiseFlag(w));
            && Enabled(s1, Judge(w)) && SamePhase(s.graph, s1.graph)
            && var s2 := Apply(s1, Judge(w));
            && Enabled(s2, Deliver(w)) && SamePhase(s.graph, s2.graph)
            && var s3, worker := Apply(s2, Deliver(w)), s.workers[w];
            && s3.graph == DeliverFrame(JudgedGraph(s.graph, worker.frame, worker.ok), worker.frame)
            && s3.workers == s.workers[w := Delivered(worker.frame, worker.task, worker.ok)]
            && s3.place == Put(s.place, worker.frame, Done)
  {
    hide Apply, Put, RaisedGraph, ClearedGraph, JudgedGraph, DeliverFrame;
    var worker := s.workers[w];
    RaiseEffect(s, w);
    var s1 := Apply(s, RaiseFlag(w));
    JudgeEffect(s1, w);
    DeliverEffect(Apply(s1, Judge(w)), w);
    RaisedThenCleared(s.graph, worker.frame, worker.ok);
  }

  // ---------------------------------------------------------------- runs

  lemma {:induction false} RunsAreSafe(states: seq<System>, steps: seq<Step>, k: nat)
    requires IsRun(states, steps) && GraphInv(states[0]) && k < |states|
    ensures GraphInv(states[k])
  {
    hide GraphInv, Apply, Enabled;
    if k > 0 {
      RunsAreSafe(states, steps, k - 1);
      assert Next(states[k - 1], steps[k - 1], states[k]);
      StepKeeps(states[k - 1], steps[k - 1]);
    }
  }

  // ---------------------------------------------------------------- exactly-once results

  ghost predicate AllExited(s: System) {
    forall w :: 0 <= w < |s.workers| ==> s.workers[w].Exited?
  }

  ghost predicate DeliveredOnce(log: seq<Delivery>, f: nat) {
    exists i :: 0 <= i < |log| && log[i].frame == f && forall j :: 0 <= j < |log| && log[j].frame == f ==> j == i
  }

  /** However cancellation and shutdown interleave, no frame is ever delivered twice. */
  lemma AtMostOnce(states: seq<System>, steps: seq<Step>, k: nat, f: nat)
    requires IsRun(states, steps) && Start(states[0]) && k < |states|
    ensures InLog(states[k].graph.log, f) ==> DeliveredOnce(states[k].graph.log, f)
    ensures InLog(states[k].graph.log, f) ==> f < states[k].graph.frames
  {
    StartHolds(states[0]);
    RunsAreSafe(states, steps, k);
    var log := states[k].graph.log;
    if InLog(log, f) {
      var i :| 0 <= i < |log| && log[i].frame == f;
      forall j | 0 <= j < |log| && log[j].frame == f
        ensures j == i
      {
      }
    }
  }

  /**
   * When shutdown has joined the workers, every frame of both phases has been delivered exactly once, and nothing else
   * has.
   */
  lemma ExactlyOnce(states: seq<System>, steps: seq<Step>, k: nat)
    requires IsRun(states, steps) && Start(states[0]) && k < |states|
    requires states[k].graph.stopping && AllExited(states[k])
    ensures forall f :: 0 <= f < states[k].graph.frames ==> DeliveredOnce(states[k].graph.log, f)
    ensures |states[k].graph.log| == states[k].graph.frames
  {
    StartHolds(states[0]);
    RunsAreSafe(states, steps, k);
    var s := states[k];
    forall f: nat | f < s.graph.frames
      ensures InLog(s.graph.log, f)
    {
      assert FramePlaced(s, f);
    }
    forall f: nat | f < s.graph.frames
      ensures DeliveredOnce(s.graph.log, f)
    {
      AtMostOnce(states, steps, k, f);
    }
    CompleteLogLength(s.graph.log, s.graph.frames);
  }

  ghost function Logged(log: seq<Delivery>): set<nat> {
    set i | 0 <= i < |log| :: log[i].frame
  }

  lemma {:induction false} LoggedSize(log: seq<Delivery>)
    requires OncePerFrame(log)
    ensures |Logged(log)| == |log|
  {
    if log != [] {
      var n := |log| - 1;
      LoggedSize(log[..n]);
      assert Logged(log) == Logged(log[..n]) + {log[n].frame};
      assert log[n].frame !in Logged(log[..n]);
    }
  }

  lemma CompleteLogLength(log: seq<Delivery>, n: nat)
    requires OncePerFrame(log) && (forall i :: 0 <= i < |log| ==> log[i].frame < n)
             && (forall f :: 0 <= f < n ==> InLog(log, f))
    ensures |log| == n
  {
    LoggedSize(log);
    forall f: nat
      ensures f in Logged(log) <==> f in UpTo(n)
    {
      if f < n {
        assert InLog(log, f);
      }
    }
    assert Logged(log) == UpTo(n);
  }

  // ---------------------------------------------------------------- conservation and exclusivity

  /**
   * While a phase is active its frames are queued, in flight or accounted for; every task is free or held
   * by exactly one worker; and whoever waits on a gate waits on the gate of the active phase.
   */
  lemma PhaseIsConserved(states: seq<System>, steps: seq<Step>, k: nat)
    requires IsRun(states, steps) && Start(states[0]) && k < |states|
    ensures var s, g := states[k], states[k].graph;
            && g.inFlight == |Busy(s.workers)|
            && (g.phaseActive ==> g.total == |g.ready| + g.inFlight + g.terminal)
            && (g.inFlight > 0 ==> g.phaseActive)
            && (g.initialized ==> |g.free| + g.inFlight == g.tasks)
            && Distinct(g.free)
            && (forall w :: 0 <= w < |s.workers| && s.workers[w].Busy() ==> s.workers[w].task !in g.free)
            && (forall v, w :: 0 <= v < w < |s.workers| && s.workers[v].Busy() && s.workers[w].Busy() ==>
               s.workers[v].task != s.workers[w].task)
            && (forall w :: 0 <= w < |s.workers| && s.workers[w].Claimed? ==>
               g.phaseActive && g.gate == Some(s.workers[w].gate))
  {
    StartHolds(states[0]);
    RunsAreSafe(states, steps, k);
    var s := states[k];
    forall w | 0 <= w < |s.workers| && s.workers[w].Busy()
      ensures s.workers[w].task !in s.graph.free && s.graph.inFlight > 0
      ensures s.workers[w].Claimed? ==> s.graph.gate == Some(s.workers[w].gate)
    {
      assert WorkerOk(s, w);
      var counted := w in Busy(s.workers);
    }
  }

  // ---------------------------------------------------------------- results

  /** A good result is only ever delivered for a frame whose task succeeded. */
  lemma GoodMeansExecuted(states: seq<System>, steps: seq<Step>, k: nat, i: nat)
    requires IsRun(states, steps) && Start(states[0]) && k < |states| && i < |states[k].graph.log|
    ensures states[k].graph.log[i].ok ==> states[k].graph.log[i].frame in states[k].executed
  {
    StartHolds(states[0]);
    RunsAreSafe(states, steps, k);
  }

  /** When waitForPhase returns true, every frame of the phase has been delivered with a good result. */
  lemma WaitingTellsTheTruth(states: seq<System>, steps: seq<Step>, k: nat, f: nat)
    requires IsRun(states, steps) && Start(states[0]) && k < |states|
    requires WaitReturnsTrue(states[k].graph) && states[k].graph.InCurrent(f)
    ensures exists i :: 0 <= i < |states[k].graph.log| && states[k].graph.log[i] == Delivery(f, true)
    ensures DeliveredOnce(states[k].graph.log, f)
  {
    StartHolds(states[0]);
    RunsAreSafe(states, steps, k);
    var s := states[k];
    NobodyBusy(s.workers);
    assert FramePlaced(s, f);
    AtMostOnce(states, steps, k, f);
    var i :| 0 <= i < |s.graph.log| && s.graph.log[i].frame == f;
    assert s.graph.log[i] == Delivery(f, true);
  }

  // ---------------------------------------------------------------- progress

  /** The worker can take a step without a notification or a gate it is still waiting for. */
  ghost predicate CanMove(s: System, w: nat) {
    && w < |s.workers|
    && match s.workers[w]
       case Asleep(notified) => notified
       case Claimed(_, _, gate) => gate in s.released
       case Exited => false
       case _ => true
  }

  /** There is something for an idle worker to do: a frame to claim or a queue to sweep. */
  ghost predicate WorkToDo(g: Graph) {
    HasWork(g) && (g.ready != [] || g.inFlight == 0)
  }

  /** A phase whose gate is open cannot get stuck: somebody at work can go on, or somebody idle can go to work. */
  lemma PhaseCannotStall(states: seq<System>, steps: seq<Step>, k: nat)
    requires IsRun(states, steps) && Start(states[0]) && k < |states| && |states[k].workers| > 0
    requires states[k].graph.phaseActive && !states[k].graph.stopping
    requires states[k].graph.gate.Some? && states[k].graph.gate.value in states[k].released
    ensures exists w: nat :: CanMove(states[k], w) && (states[k].workers[w].Busy() || WorkToDo(states[k].graph))
  {
    StartHolds(states[0]);
    RunsAreSafe(states, steps, k);
    var s := states[k];
    if s.graph.inFlight > 0 {
      var w := SomebodyBusy(s.workers);
      assert WorkerOk(s, w);
      assert CanMove(s, w);
    } else {
      NobodyBusy(s.workers);
      assert s.workers[0] != Asleep(false) && !s.workers[0].Exited?;
      assert CanMove(s, 0);
    }
  }

  /** How far a worker is from the end of its duties. */
  function Rank(worker: Worker): nat {
    match worker
    case Exited => 0
    case Awake => 1
    case Asleep(_) => 2
    case Delivered(_, _, _) => 3
    case Judged(_, _, _) => 4
    case Flagged(_, _, _) => 5
    case Executed(_, _, _) => 6
    case Executing(_, _) => 7
    case Gated(_, _) => 8
    case Claimed(_, _, _) => 9
  }

  /** How far a worker is from accounting for the frame that it has. */
  function FrameRank(worker: Worker): nat {
    if worker.Busy() then Rank(worker) - 2 else 0
  }

  function Ranks(workers: seq<Worker>): (ranks: seq<nat>)
    ensures |ranks| == |workers| && forall w :: 0 <= w < |ranks| ==> ranks[w] == Rank(workers[w])
  {
    seq(|workers|, w requires 0 <= w < |workers| => Rank(workers[w]))
  }

  function FrameRanks(workers: seq<Worker>): (ranks: seq<nat>)
    ensures |ranks| == |workers| && forall w :: 0 <= w < |ranks| ==> ranks[w] == FrameRank(workers[w])
  {
    seq(|workers|, w requires 0 <= w < |workers| => FrameRank(workers[w]))
  }

  function TotalRank(workers: seq<Worker>): nat {
    Sum(Ranks(workers))
  }

  lemma RanksAfterSet(workers: seq<Worker>, w: nat, worker: Worker)
    requires w < |workers|
    ensures TotalRank(workers[w := worker]) == TotalRank(workers) - Rank(workers[w]) + Rank(worker)
    ensures Sum(FrameRanks(workers[w := worker])) ==
            Sum(FrameRanks(workers)) - FrameRank(workers[w]) + FrameRank(worker)
  {
    assert Ranks(workers[w := worker]) == Ranks(workers)[w := Rank(worker)];
    assert FrameRanks(workers[w := worker]) == FrameRanks(workers)[w := FrameRank(worker)];
    SumAfterUpdate(Ranks(workers), w, Rank(worker));
    SumAfterUpdate(FrameRanks(workers), w, FrameRank(worker));
  }

  lemma RanksAfterNotify(workers: seq<Worker>)
    ensures TotalRank(NotifiedWorkers(workers)) == TotalRank(workers)
    ensures Sum(FrameRanks(NotifiedWorkers(workers))) == Sum(FrameRanks(workers))
  {
    assert Ranks(NotifiedWorkers(workers)) == Ranks(workers);
    assert FrameRanks(NotifiedWorkers(workers)) == FrameRanks(workers);
  }

  lemma RankIsBounded(workers: seq<Worker>)
    ensures TotalRank(workers) <= 9 * |workers|
    ensures TotalRank(workers) == 0 <==> forall w :: 0 <= w < |workers| ==> workers[w].Exited?
  {
    SumIsBounded(Ranks(workers), 9);
    SumIsZero(Ranks(workers));
    assert forall w :: 0 <= w < |workers| ==> (Ranks(workers)[w] == 0 <==> workers[w].Exited?);
  }

  lemma WorkerOf(step: Step) returns (w: nat)
    requires step.ByWorker()
    ensures step.OfWorker(w)
  {
    w := match step
      case WakeWorker(w) => w
      case Look(w) => w
      case PassGate(w) => w
      case CheckFlag(w) => w
      case Execute(w, _) => w
      case RaiseFlag(w) => w
      case Judge(w) => w
      case Deliver(w) => w
      case Account(w) => w;
  }

  /** A step of one worker that involves nobody else brings it closer to the end of its duties. */
  lemma OwnStep(s: System, step: Step, s': System, w: nat)
    requires Next(s, step, s') && step.OfWorker(w) && !step.Look? && !step.Account?
    ensures w < |s.workers| == |s'.workers| && s'.workers == s.workers[w := s'.workers[w]]
    ensures Rank(s'.workers[w]) < Rank(s.workers[w]) && s'.workers[w].Busy() == s.workers[w].Busy() == !step.WakeWorker?
    ensures s'.graph.ready == s.graph.ready && s'.graph.stopping == s.graph.stopping
  {
    hide NotifiedCallers, Put;
    match step
    case _ =>
  }

  // ---------------------------------------------------------------- a phase ends

  /** The step does something for the phase: a worker handles its frame, or goes to work. */
  ghost predicate Productive(s: System, step: Step) {
    step.ByWorker() && !step.WakeWorker? && (step.Look? ==> WorkToDo(s.graph))
  }

  /** What is left to do: ten steps at most for a queued frame, and what the workers still owe for theirs. */
  function WorkLeft(s: System): nat {
    10 * |s.graph.ready| + Sum(FrameRanks(s.workers))
  }

  lemma SectionsShrinkTheQueue(g: Graph, task: nat, ok: bool)
    requires g.warmups <= g.frames && g.inFlight > 0
    ensures |AccountSection(g, task, ok).ready| <= |g.ready|
  {
  }

  lemma WorkOfWorker(s: System, step: Step, s': System)
    requires GraphInv(s) && s.graph.phaseActive && !s.graph.stopping && Next(s, step, s') && step.ByWorker()
    ensures WorkLeft(s') <= WorkLeft(s) && (Productive(s, step) ==> WorkLeft(s') < WorkLeft(s))
  {
    hide GraphInv, AccountSection, FrameRanks, Put, Moved, NotifiedCallers, NotifiedWorkers, CancelReady, Finish;
    PhaseFacts(s);
    var w := WorkerOf(step);
    if step.Account? {
      SectionsShrinkTheQueue(s.graph, s.workers[w].task, s.workers[w].ok);
      RanksAfterSet(s.workers, w, Awake);
      RanksAfterNotify(s.workers[w := Awake]);
    } else if step.Look? {
      SweepEmptiesTheQueue(s.graph);
      RanksAfterSet(s.workers, w, s'.workers[w]);
    } else {
      OwnStep(s, step, s', w);
      RanksAfterSet(s.workers, w, s'.workers[w]);
    }
  }

  lemma SweepEmptiesTheQueue(g: Graph)
    ensures Finish(CancelReady(g)).ready == []
  {
  }

  lemma PhaseFacts(s: System)
    requires GraphInv(s) && s.graph.phaseActive && !s.graph.stopping
    ensures s.graph.ready != [] || s.graph.inFlight > 0
  {
  }

  lemma WorkOfCaller(s: System, step: Step, s': System)
    requires GraphInv(s) && s.graph.phaseActive && Next(s, step, s') && !step.ByWorker()
    ensures WorkLeft(s') <= WorkLeft(s)
  {
    hide GraphInv, ShutdownSection, FrameRanks, NotifiedCallers, Moved, MovedWithin;
    ShutdownIsSilent(s.graph);
    RanksAfterNotify(s.workers);
    match step
    case _ =>
  }

  ghost function ProductiveSteps(states: seq<System>, steps: seq<Step>): nat
    requires |states| == |steps| + 1
  {
    if steps == [] then 0
    else
      var n := |steps| - 1;
      ProductiveSteps(states[..n + 1], steps[..n]) + One(Productive(states[n], steps[n]))
  }

  /**
   * A phase takes a bounded number of productive steps: ten for each frame still queued and seven for each frame
   * in flight. With `PhaseCannotStall`, workers that are scheduled bring every phase with an open gate to its end.
   */
  lemma {:induction false} PhaseIsBounded(states: seq<System>, steps: seq<Step>)
    requires IsRun(states, steps) && GraphInv(states[0])
    requires forall k :: 0 <= k < |steps| ==> states[k].graph.phaseActive && !states[k].graph.stopping
    ensures ProductiveSteps(states, steps) + WorkLeft(states[|steps|]) <= WorkLeft(states[0])
    ensures WorkLeft(states[0]) <= 10 * |states[0].graph.ready| + 7 * |states[0].workers|
  {
    hide GraphInv, Next, WorkLeft, Productive;
    WorkIsBounded(states[0]);
    if steps != [] {
      var n := |steps| - 1;
      PhaseIsBounded(states[..n + 1], steps[..n]);
      RunsAreSafe(states, steps, n);
      assert Next(states[n], steps[n], states[n + 1]);
      WorkOfStep(states[n], steps[n], states[n + 1]);
    }
  }

  lemma WorkOfStep(s: System, step: Step, s': System)
    requires GraphInv(s) && s.graph.phaseActive && !s.graph.stopping && Next(s, step, s')
    ensures WorkLeft(s') + One(Productive(s, step)) <= WorkLeft(s)
  {
    hide GraphInv, Next, WorkLeft;
    if step.ByWorker() {
      WorkOfWorker(s, step, s');
    } else {
      WorkOfCaller(s, step, s');
    }
  }

  lemma WorkIsBounded(s: System)
    ensures WorkLeft(s) <= 10 * |s.graph.ready| + 7 * |s.workers|
  {
    SumIsBounded(FrameRanks(s.workers), 7);
  }

  // ---------------------------------------------------------------- shutdown drains

  /** Repeating shutdown's first section once the graph is down changes nothing, so a retry is harmless. */
  lemma SecondShutdownIsIdle(s: System)
    requires GraphInv(s) && !s.graph.initialized
    ensures ShutdownSection(s.graph) == s.graph
  {
  }

  /**
   * After shutdown's first section every worker that has not exited can take its next step: neither the gate nor the
   * work condition holds it.
   */
  lemma NobodyBlocksShutdown(s: System, w: nat) returns (step: Step)
    requires GraphInv(s) && s.graph.stopping && w < |s.workers| && !s.workers[w].Exited?
    ensures step.OfWorker(w) && Enabled(s, step)
    ensures CanMove(s, w)
  {
    assert WorkerOk(s, w);
    var counted := w in Busy(s.workers);
    match s.workers[w]
    case Awake => step := Look(w);
    case Asleep(_) => step := WakeWorker(w);
    case Claimed(_, _, _) => step := PassGate(w);
    case Gated(_, _) => step := CheckFlag(w);
    case Executing(_, _) => step := Execute(w, true);
    case Executed(_, _, _) => step := RaiseFlag(w);
    case Flagged(_, _, _) => step := Judge(w);
    case Judged(_, _, _) => step := Deliver(w);
    case Delivered(_, _, _) => step := Account(w);
  }

  /** The sections a worker or a caller can still run after stopping leave the graph stopping. */
  lemma SectionsKeepStopping(g: Graph, task: nat, ok: bool)
    requires g.warmups <= g.frames
    ensures ShutdownSection(g).stopping
    ensures g.stopping && g.inFlight > 0 ==> AccountSection(g, task, ok).stopping
  {
    hide ShutdownSection, MarkAll, Failures;
    ShutdownIsSilent(g);
  }

  lemma DrainOfWorker(s: System, step: Step, s': System)
    requires s.graph.stopping && Next(s, step, s') && step.ByWorker()
    ensures s'.graph.stopping && |s'.workers| == |s.workers| && TotalRank(s'.workers) < TotalRank(s.workers)
  {
    hide AccountSection, ShutDown, StartedPhase, TotalRank, FrameRanks, Put, Moved, NotifiedCallers;
    var w := WorkerOf(step);
    if step.Account? {
      SectionsKeepStopping(s.graph, s.workers[w].task, s.workers[w].ok);
      RanksAfterSet(s.workers, w, Awake);
      RanksAfterNotify(s.workers[w := Awake]);
    } else if step.Look? {
      RanksAfterSet(s.workers, w, s'.workers[w]);
    } else {
      OwnStep(s, step, s', w);
      RanksAfterSet(s.workers, w, s'.workers[w]);
    }
  }

  lemma DrainOfCaller(s: System, step: Step, s': System)
    requires s.graph.stopping && Next(s, step, s') && !step.ByWorker()
    ensures s'.graph.stopping && |s'.workers| == |s.workers| && TotalRank(s'.workers) == TotalRank(s.workers)
  {
    hide ShutdownSection;
    SectionsKeepStopping(s.graph, 0, true);
    RanksAfterNotify(s.workers);
    match step
    case _ =>
  }

  /**
   * After shutdown's first section a worker step brings the workers closer to their exit, and nothing else moves them
   * away from it.
   */
  lemma DrainStep(s: System, step: Step, s': System)
    requires s.graph.stopping && Next(s, step, s')
    ensures s'.graph.stopping && |s'.workers| == |s.workers|
    ensures step.ByWorker() ==> TotalRank(s'.workers) < TotalRank(s.workers)
    ensures TotalRank(s'.workers) <= TotalRank(s.workers)
  {
    if step.ByWorker() {
      DrainOfWorker(s, step, s');
    } else {
      DrainOfCaller(s, step, s');
    }
  }

  ghost function WorkerSteps(steps: seq<Step>): nat {
    if steps == [] then 0 else WorkerSteps(steps[..|steps| - 1]) + One(steps[|steps| - 1].ByWorker())
  }

  /**
   * Shutdown drains: after its first section the workers take at most nine steps each, whether or not the
   * caller ever opens the gate, and as long as one of them has not exited it can take a step.
   */
  lemma {:induction false} DrainIsBounded(states: seq<System>, steps: seq<Step>)
    requires IsRun(states, steps) && GraphInv(states[0]) && states[0].graph.stopping
    ensures states[|steps|].graph.stopping && |states[|steps|].workers| == |states[0].workers|
    ensures WorkerSteps(steps) + TotalRank(states[|steps|].workers) <= TotalRank(states[0].workers)
    ensures TotalRank(states[0].workers) <= 9 * |states[0].workers|
  {
    hide GraphInv, Next;
    RankIsBounded(states[0].workers);
    if steps != [] {
      var n := |steps| - 1;
      DrainIsBounded(states[..n + 1], steps[..n]);
      RunsAreSafe(states, steps, n);
      DrainStep(states[n], steps[n], states[n + 1]);
    }
  }

  /** Once shutdown has begun no worker claims a frame: whoever is busy is still busy with the frame it had. */
  lemma NoClaimAfterShutdown(s: System, step: Step, s': System, w: nat)
    requires s.graph.stopping && Next(s, step, s') && w < |s.workers|
    ensures w < |s'.workers|
    ensures s'.workers[w].Busy() ==> s.workers[w].Busy() && s'.workers[w].frame == s.workers[w].frame
  {
  }

  // ---------------------------------------------------------------- who wakes waitForPhase during shutdown

  ghost predicate NoWakeOf(steps: seq<Step>, id: nat) {
    forall k :: 0 <= k < |steps| ==> steps[k] != WakeCaller(id)
  }

  /** Nobody is left to notify the caller: the phase was abandoned with nothing in flight. */
  ghost predicate Forgotten(s: System, id: nat) {
    s.graph.stopping && s.graph.inFlight == 0 && id in s.waiters && !s.waiters[id]
  }

  /** The caller has been notified, or the last frame in flight will notify it. */
  ghost predicate Remembered(s: System, id: nat) {
    && s.graph.stopping && id in s.waiters
    && (s.waiters[id] || (s.graph.initialized && s.graph.phaseActive && s.graph.inFlight > 0))
  }

  lemma ForgottenStays(s: System, step: Step, s': System, id: nat)
    requires GraphInv(s) && Forgotten(s, id) && Next(s, step, s') && step != WakeCaller(id)
    ensures Forgotten(s', id)
  {
    hide GraphInv, Next;
    IdleFacts(s);
    if step.ByWorker() {
      IdleWorkerStep(s, step, s');
    } else {
      IdleCallerStep(s, step, s', id);
    }
  }

  /** In a stopped graph with nothing in flight the workers only wake up and exit. */
  lemma IdleWorkerStep(s: System, step: Step, s': System)
    requires s.graph.stopping && (forall w :: 0 <= w < |s.workers| ==> !s.workers[w].Busy())
    requires Next(s, step, s') && step.ByWorker()
    ensures s'.graph == s.graph && s'.waiters == s.waiters
  {
    hide AccountSection, NotifiedCallers;
    match step
    case WakeWorker(w) =>
    case Look(w) =>
    case _ => assert false;
  }

  lemma IdleCallerStep(s: System, step: Step, s': System, id: nat)
    requires Forgotten(s, id) && Next(s, step, s') && !step.ByWorker() && step != WakeCaller(id)
    ensures Forgotten(s', id)
  {
    hide ShutdownSection, MarkAll, Failures, Moved, MovedWithin, NotifiedWorkers;
    ShutdownIsSilent(s.graph);
    match step
    case _ =>
  }

  lemma IdleFacts(s: System)
    requires GraphInv(s) && s.graph.inFlight == 0
    ensures s.graph.warmups <= s.graph.frames && (s.graph.phaseActive ==> s.graph.gate.Some?)
    ensures forall w :: 0 <= w < |s.workers| ==> !s.workers[w].Busy()
    ensures !s.graph.initialized ==> s.graph.stopping
  {
    NobodyBusy(s.workers);
  }

  /** The section hands out nothing new and leaves alone what the callers of waitForPhase look at. */
  ghost predicate Silent(g: Graph, g': Graph) {
    && g'.phaseNotices == g.phaseNotices && g'.inFlight == g.inFlight && g'.phaseActive == g.phaseActive
    && g'.initialized == g.initialized && g'.warmups == g.warmups && g'.frames == g.frames && g'.stopping == g.stopping
    && |g'.ready| <= |g.ready|
  }

  lemma CancellingIsSilent(g: Graph, phase: FramePhase)
    requires g.warmups <= g.frames
    ensures Silent(g, CancelPhase(g, phase))
  {
    hide MarkAll, Failures, Range;
    if g.Submitted(phase) {
    } else {
    }
  }

  lemma SweepingIsSilentToo(g: Graph)
    ensures Silent(g, CancelReady(g.(cancelled := true)))
  {
    hide MarkAll, Failures;
  }

  lemma ShutdownIsSilent(g: Graph)
    requires g.warmups <= g.frames
    ensures Silent(g.(stopping := true), ShutdownSection(g))
  {
    var g1 := g.(stopping := true);
    var g2 := if g.phaseActive then CancelReady(g1.(cancelled := true)) else g1;
    SweepingIsSilentToo(g1);
    CancellingIsSilent(g2, Warmup);
    CancellingIsSilent(CancelPhase(g2, Warmup), Timed);
    hide CancelPhase, CancelReady;
  }

  lemma RememberedStays(s: System, step: Step, s': System, id: nat)
    requires GraphInv(s) && Remembered(s, id) && Next(s, step, s') && step != WakeCaller(id)
    ensures Remembered(s', id)
  {
    hide GraphInv, Next, Remembered;
    if step.ByWorker() {
      WorkerRemembers(s, step, s', id);
    } else {
      CallerRemembers(s, step, s', id);
    }
  }

  lemma WorkerRemembers(s: System, step: Step, s': System, id: nat)
    requires GraphInv(s) && Remembered(s, id) && Next(s, step, s') && step.ByWorker()
    ensures Remembered(s', id)
  {
    hide GraphInv, AccountSection, Moved, Put, NotifiedWorkers, HasWork;
    PhaseIsSound(s);
    var w := WorkerOf(step);
    if step.Account? {
      AccountingNotifies(s.graph, s.workers[w].task, s.workers[w].ok);
    } else if step.Look? {
      StoppingIsWork(s.graph);
    } else {
    }
  }

  lemma StoppingIsWork(g: Graph)
    requires g.stopping
    ensures HasWork(g)
  {
  }

  lemma PhaseIsSound(s: System)
    requires GraphInv(s)
    ensures PhaseBase(s.graph)
  {
  }

  lemma CallerRemembers(s: System, step: Step, s': System, id: nat)
    requires GraphInv(s) && Remembered(s, id) && Next(s, step, s') && !step.ByWorker() && step != WakeCaller(id)
    ensures Remembered(s', id)
  {
    hide GraphInv, ShutdownSection, MarkAll, Failures, Moved, MovedWithin, NotifiedWorkers;
    ShutdownIsSilent(s.graph);
    if step.AfterJoin? {
      NobodyLeft(s);
    } else if step.StartPhaseCall? {
    } else {
    }
  }

  lemma NobodyLeft(s: System)
    requires GraphInv(s) && AllExited(s)
    ensures s.graph.inFlight == 0
  {
    assert Busy(s.workers) == {};
  }

  /** The last frame in flight completes an abandoned phase and notifies its callers. */
  lemma AccountingNotifies(g: Graph, task: nat, ok: bool)
    requires PhaseBase(g) && g.stopping && g.inFlight > 0
    ensures var g' := AccountSection(g, task, ok);
            && g'.stopping && g'.initialized == g.initialized
            && (g'.phaseNotices != g.phaseNotices || (g'.phaseActive && g'.inFlight > 0))
  {
  }

  lemma {:induction false} ForgottenForever(states: seq<System>, steps: seq<Step>, id: nat)
    requires IsRun(states, steps) && GraphInv(states[0]) && Forgotten(states[0], id) && NoWakeOf(steps, id)
    ensures Forgotten(states[|steps|], id)
  {
    hide GraphInv, Next, Forgotten;
    if steps != [] {
      var n := |steps| - 1;
      ForgottenForever(states[..n + 1], steps[..n], id);
      RunsAreSafe(states, steps, n);
      ForgottenStays(states[n], steps[n], states[n + 1], id);
    }
  }

  lemma {:induction false} RememberedForever(states: seq<System>, steps: seq<Step>, id: nat)
    requires IsRun(states, steps) && GraphInv(states[0]) && Remembered(states[0], id) && NoWakeOf(steps, id)
    ensures Remembered(states[|steps|], id)
  {
    hide GraphInv, Next, Remembered;
    if steps != [] {
      var n := |steps| - 1;
      RememberedForever(states[..n + 1], steps[..n], id);
      RunsAreSafe(states, steps, n);
      RememberedStays(states[n], steps[n], states[n + 1], id);
    }
  }

  /**
   * Shutdown itself never notifies the callers of waitForPhase. A caller asleep when it begins is notified by
   * the time the workers have exited if and only if a frame was in flight at shutdown's first section.
   */
  lemma ShutdownWakesWaiters(s: System, states: seq<System>, steps: seq<Step>, id: nat)
    requires GraphInv(s) && s.graph.initialized && !s.graph.stopping && id in s.waiters && !s.waiters[id]
    requires IsRun(states, steps) && Next(s, ShutdownCall, states[0])
    requires NoWakeOf(steps, id) && AllExited(states[|steps|])
    ensures id in states[|steps|].waiters
    ensures states[|steps|].waiters[id] <==> s.graph.inFlight > 0
  {
    StepKeeps(s, ShutdownCall);
    ShutdownIsSilent(s.graph);
    RunsAreSafe(states, steps, |steps|);
    if s.graph.inFlight > 0 {
      RememberedForever(states, steps, id);
      assert Busy(states[|steps|].workers) == {};
    } else {
      ForgottenForever(states, steps, id);
    }
  }

  /** A caller sleeps in waitForPhase while the only frame of the phase is still queued. */
  ghost predicate CallerAsleep(s: System) {
    && s.graph.initialized && !s.graph.stopping && s.graph.inFlight == 0 && s.workers == [Awake]
    && 7 in s.waiters && !s.waiters[7]
  }

  lemma CallerFallsAsleep() returns (states: seq<System>, steps: seq<Step>)
    ensures IsRun(states, steps) && Start(states[0]) && CallerAsleep(states[|steps|]) && NoWakeOf(steps, 7)
  {
    var g := Graph(1, 1, 1, [], [0], None, 0, 0, 0, 0, false, false, false, true, true, false, false, false, false,
                   [true], [], 0, None);
    var s0 := System(g, [Awake], {}, map[], [Unsubmitted], {});
    steps := [StartCycleCall(true), StartPhaseCall(Warmup, 0, true, true), AskPhase(7)];
    hide MarkAll, MovedWithin;
    NotNotified(s0.waiters);
    var s1 := s0.(graph := g.(cycleStarted := true));
    var s2 := StartedPhase(s1, Warmup, 0, true, true);
    NotNotified(s1.waiters);
    var s3 := s2.(waiters := s2.waiters[7 := false]);
    assert Next(s0, steps[0], s1) && Next(s1, steps[1], s2) && Next(s2, steps[2], s3);
    hide Next, StartedPhase;
    states := [s0, s1, s2, s3];
  }

  lemma AbandonCaller(s: System) returns (after: seq<System>)
    requires GraphInv(s) && CallerAsleep(s)
    ensures |after| == 3 && Next(s, ShutdownCall, after[0]) && Next(after[0], Look(0), after[1])
            && Next(after[1], AfterJoin, after[2])
    ensures Forgotten(after[2], 7) && !after[2].graph.initialized
  {
    hide GraphInv, ShutdownSection, AccountSection, StartPhase, Moved, Finish, CancelReady;
    Facts(s);
    StepKeeps(s, ShutdownCall);
    ShutdownIsSilent(s.graph);
    SectionsKeepStopping(s.graph, 0, true);
    var s1 := Apply(s, ShutdownCall);
    Facts(s1);
    var s2 := Apply(s1, Look(0));
    StepKeeps(s1, Look(0));
    ForgottenStays(s1, Look(0), s2, 7);
    Facts(s2);
    var s3 := Apply(s2, AfterJoin);
    ForgottenStays(s2, AfterJoin, s3, 7);
    after := [s1, s2, s3];
  }

  lemma RunGrows(states: seq<System>, steps: seq<Step>, step: Step, s': System)
    requires IsRun(states, steps) && Next(states[|steps|], step, s')
    ensures IsRun(states + [s'], steps + [step]) && (states + [s'])[0] == states[0]
    ensures (states + [s'])[|steps| + 1] == s' && |steps + [step]| == |steps| + 1
  {
    hide Next;
  }

  /**
   * Such a run exists: one worker, one frame, a caller asleep in waitForPhase, and a shutdown before the frame is
   * claimed.
   */
  lemma ShutdownCanForgetACaller() returns (states: seq<System>, steps: seq<Step>)
    ensures IsRun(states, steps) && Start(states[0]) && NoWakeOf(steps, 7)
    ensures var s := states[|steps|]; !s.graph.initialized && 7 in s.waiters && !s.waiters[7]
  {
    hide GraphInv, Start, Next, CallerAsleep, IsRun;
    states, steps := CallerFallsAsleep();
    RunIsLong(states, steps);
    StartHolds(states[0]);
    RunsAreSafe(states, steps, |steps|);
    var after := AbandonCaller(states[|steps|]);
    RunGrows(states, steps, ShutdownCall, after[0]);
    states, steps := states + [after[0]], steps + [ShutdownCall];
    RunGrows(states, steps, Look(0), after[1]);
    states, steps := states + [after[1]], steps + [Look(0)];
    RunGrows(states, steps, AfterJoin, after[2]);
    states, steps := states + [after[2]], steps + [AfterJoin];
  }

  lemma RunIsLong(states: seq<System>, steps: seq<Step>)
    requires IsRun(states, steps)
    ensures |states| == |steps| + 1
  {
  }
}
