/**
 * The graph scheduler with its workers and callers as a transition system. A locked section is one step;
 * between sections a worker waits on the gate, reads the cancellation flag, executes, raises the flag,
 * judges and delivers, each as a step of its own, so cancellation and shutdown can interleave anywhere.
 */
module GraphSystem {
  import opened GpuTypes
  import opened GraphSpec

  datatype Worker =
    | Awake
    | Asleep(notified: bool)
    | Claimed(frame: nat, task: nat, gate: nat)
    | Gated(frame: nat, task: nat)
    | Executing(frame: nat, task: nat)
    | Executed(frame: nat, task: nat, ok: bool)
    | Flagged(frame: nat, task: nat, ok: bool)
    | Judged(frame: nat, task: nat, ok: bool)
    | Delivered(frame: nat, task: nat, ok: bool)
    | Exited
  {
    /** The worker has a task checked out and a frame to account for. */
    predicate Busy() {
      !Awake? && !Asleep? && !Exited?
    }

    /** The worker is responsible for the delivery of its frame. */
    predicate Owes() {
      Busy() && !Delivered?
    }
  }

  /** Where a frame is: a history variable that only the invariants read. */
  datatype Place = Unsubmitted | Queued | With(worker: nat) | Done

  datatype System = System(graph: Graph, workers: seq<Worker>, released: set<nat>,
                           // Callers asleep in waitForPhase, and whether they have been notified.
                           waiters: map<nat, bool>,
                           place: seq<Place>,
                           // The frames whose task executed successfully.
                           executed: set<nat>)

  datatype Step =
    | StartPhaseCall(phase: FramePhase, gate: nat, valid: bool, queued: bool)
    | StartCycleCall(ok: bool)
    | StopCycleCall(ok: bool)
    | ReleaseGate(gate: nat)
    | CancelElsewhere
    | AskPhase(id: nat)
    | WakeCaller(id: nat)
    | ShutdownCall
    | AfterJoin
    | WakeWorker(w: nat)
    | Look(w: nat)
    | PassGate(w: nat)
    | CheckFlag(w: nat)
    | Execute(w: nat, ok: bool)
    | RaiseFlag(w: nat)
    | Judge(w: nat)
    | Deliver(w: nat)
    | Account(w: nat)
  {
    predicate ByWorker() {
      WakeWorker? || Look? || PassGate? || CheckFlag? || Execute? || RaiseFlag? || Judge? || Deliver? || Account?
    }

    predicate OfWorker(i: nat) {
      match this
      case WakeWorker(w) => w == i
      case Look(w) => w == i
      case PassGate(w) => w == i
      case CheckFlag(w) => w == i
      case Execute(w, _) => w == i
      case RaiseFlag(w) => w == i
      case Judge(w) => w == i
      case Deliver(w) => w == i
      case Account(w) => w == i
      case _ => false
    }
  }

  ghost predicate Enabled(s: System, step: Step) {
    match step
    case StartPhaseCall(phase, gate, valid, queued) => true
    case StartCycleCall(ok) => true
    case StopCycleCall(ok) => true
    case ReleaseGate(gate) => true
    case CancelElsewhere => true
    case AskPhase(id) => id !in s.waiters
    case WakeCaller(id) => id in s.waiters
    case ShutdownCall => true
    case AfterJoin => s.graph.stopping && s.graph.initialized && forall w :: 0 <= w < |s.workers| ==>
      s.workers[w].Exited?
    case WakeWorker(w) => w < |s.workers| && s.workers[w].Asleep?
    case Look(w) => w < |s.workers| && s.workers[w].Awake?
    case PassGate(w) => w < |s.workers| && s.workers[w].Claimed? && s.workers[w].gate in s.released
    case CheckFlag(w) => w < |s.workers| && s.workers[w].Gated?
    case Execute(w, ok) => w < |s.workers| && s.workers[w].Executing?
    case RaiseFlag(w) => w < |s.workers| && s.workers[w].Executed?
    case Judge(w) => w < |s.workers| && s.workers[w].Flagged? && s.workers[w].frame < |s.graph.results|
    case Deliver(w) => w < |s.workers| && s.workers[w].Judged? && s.workers[w].frame < |s.graph.results|
    case Account(w) => w < |s.workers| && s.workers[w].Delivered? && s.graph.inFlight > 0
  }

  // ---------------------------------------------------------------- effects

  /** Every sleeping worker is notified. */
  ghost function NotifiedWorkers(workers: seq<Worker>): (after: seq<Worker>)
    ensures |after| == |workers|
    ensures forall w :: 0 <= w < |workers| ==> after[w] == if workers[w].Asleep? then Asleep(true) else workers[w]
  {
    seq(|workers|, w requires 0 <= w < |workers| => if workers[w].Asleep? then Asleep(true) else workers[w])
  }

  ghost function NotifiedCallers(waiters: map<nat, bool>, now: bool): map<nat, bool> {
    map id | id in waiters :: waiters[id] || now
  }

  /** The graph after a section, with the callers notified if the section did so. */
  ghost function WithGraph(s: System, g: Graph): System {
    s.(graph := g, waiters := NotifiedCallers(s.waiters, g.phaseNotices != s.graph.phaseNotices))
  }

  ghost function SetWorker(s: System, w: nat, worker: Worker): System
    requires w < |s.workers|
  {
    s.(workers := s.workers[w := worker])
  }

  /** All frames that are at `from` move to `to`. */
  ghost function Moved(place: seq<Place>, from: Place, to: Place): (after: seq<Place>)
    ensures |after| == |place|
    ensures forall f :: 0 <= f < |place| ==> after[f] == if place[f] == from then to else place[f]
  {
    seq(|place|, f requires 0 <= f < |place| => if place[f] == from then to else place[f])
  }

  /** The frames in [lo, hi) that are at `from` move to `to`. */
  ghost function MovedWithin(place: seq<Place>, lo: nat, hi: nat, from: Place, to: Place): (after: seq<Place>)
    ensures |after| == |place|
    ensures forall f :: 0 <= f < |place| ==> after[f] == if lo <= f < hi && place[f] == from then to else place[f]
  {
    seq(|place|, f requires 0 <= f < |place| => if lo <= f < hi && place[f] == from then to else place[f])
  }

  ghost function Put(place: seq<Place>, f: nat, to: Place): seq<Place> {
    if f < |place| then place[f := to] else place
  }

  ghost function StartedPhase(s: System, phase: FramePhase, gate: nat, valid: bool, queued: bool): System
    requires s.graph.warmups <= s.graph.frames
  {
    var Reply(g, ok) := StartPhase(s.graph, phase, gate, valid, queued);
    var s1 := WithGraph(s, g);
    if !ok then s1
    else
      s1.(place := MovedWithin(s.place, s.graph.Low(phase), s.graph.High(phase), Unsubmitted, Queued),
          workers := if g.phaseActive then NotifiedWorkers(s.workers) else s.workers)
  }

  ghost function Looked(s: System, w: nat): System
    requires w < |s.workers| && (s.graph.phaseActive ==> s.graph.gate.Some?)
  {
    match ClaimSection(s.graph)
    case Sleep => SetWorker(s, w, Asleep(false))
    case Exit => SetWorker(s, w, Exited)
    case Swept(g) => WithGraph(s, g).(place := Moved(s.place, Queued, Done))
    case Taken(g, frame, task, gate) =>
      SetWorker(WithGraph(s, g), w, Claimed(frame, task, gate)).(place := Put(s.place, frame, With(w)))
  }

  ghost function Accounted(s: System, w: nat): System
    requires w < |s.workers| && s.workers[w].Delivered? && s.graph.inFlight > 0
  {
    var worker := s.workers[w];
    var swept := !worker.ok || s.graph.cancelled;
    var s1 := WithGraph(s, AccountSection(s.graph, worker.task, worker.ok));
    s1.(workers := NotifiedWorkers(s.workers[w := Awake]),
        place := if swept then Moved(s.place, Queued, Done) else s.place)
  }

  ghost function ShutDown(s: System): System
    requires s.graph.warmups <= s.graph.frames
  {
    if !s.graph.initialized then s
    else
      WithGraph(s, ShutdownSection(s.graph)).(
        workers := NotifiedWorkers(s.workers),
        released := if s.graph.phaseActive && s.graph.gate.Some? then s.released + {s.graph.gate.value} else s.released,
        place := Moved(if s.graph.phaseActive then Moved(s.place, Queued, Done) else s.place, Unsubmitted, Done))
  }

  ghost function Apply(s: System, step: Step): System
    requires Enabled(s, step)
    requires s.graph.warmups <= s.graph.frames && (s.graph.phaseActive ==> s.graph.gate.Some?)
  {
    match step
    case StartPhaseCall(phase, gate, valid, queued) => StartedPhase(s, phase, gate, valid, queued)
    case StartCycleCall(ok) => WithGraph(s, StartCycle(s.graph, ok).graph)
    case StopCycleCall(ok) => WithGraph(s, StopCycle(s.graph, ok).graph)
    case ReleaseGate(gate) => s.(released := s.released + {gate})
    case CancelElsewhere => WithGraph(s, s.graph.(cancelled := true))
    case AskPhase(id) => if s.graph.initialized && s.graph.phaseActive then s.(waiters := s.waiters[id := false]) else s
    // A woken caller looks again, and sleeps again while the phase is active.
    case WakeCaller(id) => s.(waiters := if s.graph.phaseActive then s.waiters[id := false] else s.waiters - {id})
    case ShutdownCall => ShutDown(s)
    case AfterJoin => WithGraph(s, ClearAfterJoin(s.graph))
    case WakeWorker(w) => SetWorker(s, w, Awake)
    case Look(w) => Looked(s, w)
    case PassGate(w) => SetWorker(s, w, Gated(s.workers[w].frame, s.workers[w].task))
    case CheckFlag(w) =>
      SetWorker(s, w, if s.graph.cancelled then Executed(s.workers[w].frame, s.workers[w].task, false)
                      else Executing(s.workers[w].frame, s.workers[w].task))
    case Execute(w, ok) =>
      SetWorker(s, w, Executed(s.workers[w].frame, s.workers[w].task, ok)).(
        executed := if ok then s.executed + {s.workers[w].frame} else s.executed)
    case RaiseFlag(w) =>
      var worker := s.workers[w];
      SetWorker(if worker.ok then s else WithGraph(s, s.graph.(cancelled := true)), w,
        Flagged(worker.frame, worker.task, worker.ok))
    case Judge(w) =>
      var worker := s.workers[w];
      var failed := !worker.ok || s.graph.cancelled;
      SetWorker(if failed then WithGraph(s, s.graph.(results := s.graph.results[worker.frame := false])) else s,
                w, Judged(worker.frame, worker.task, worker.ok))
    case Deliver(w) =>
      var worker := s.workers[w];
      SetWorker(WithGraph(s, DeliverFrame(s.graph, worker.frame)), w, Delivered(worker.frame, worker.task, worker.ok)).(
        place := Put(s.place, worker.frame, Done))
    case Account(w) => Accounted(s, w)
  }

  /** A graph that has just been initialised: every frame is prepared, every task free, every worker about to look. */
  ghost predicate Start(s: System) {
    var g := s.graph;
    && g.warmups <= g.frames && g.tasks > 0 && |s.workers| > 0
    && g.ready == [] && g.gate == None && g.total == g.terminal == g.inFlight == g.maxInFlight == 0
    && |g.free| == g.tasks && (forall i :: 0 <= i < g.tasks ==> g.free[i] == i)
    && !g.warmupSubmitted && !g.timedSubmitted && !g.phaseActive && g.phaseSucceeded
    && g.initialized && !g.cycleStarted && !g.cycleStopped && !g.stopping
    && |g.results| == g.frames && g.log == [] && g.current == None
    && (forall w :: 0 <= w < |s.workers| ==> s.workers[w] == Awake)
    && s.waiters == map[] && s.executed == {}
    && |s.place| == g.frames && (forall f :: 0 <= f < g.frames ==> s.place[f] == Unsubmitted)
  }
}
