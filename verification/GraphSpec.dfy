/**
 * The graph scheduler as one value and its locked sections as functions on it.
 *
 * Frames are numbered: [0, warmups) are the warmup frames, [warmups, frames) the timed ones; the frame
 * id of the program is the configured first id plus this number. `DummyGraph` is the class whose queue,
 * counters and atoms realise this value.
 */
module GraphSpec {
  import opened GpuTypes

  datatype FramePhase = Warmup | Timed

  /** One result handed to the sink. */
  datatype Delivery = Delivery(frame: nat, ok: bool)

  datatype Graph = Graph(
    warmups: nat, frames: nat, tasks: nat,
    ready: seq<nat>, free: seq<nat>, gate: Option<nat>,
    total: nat, terminal: nat, inFlight: nat, maxInFlight: nat,
    warmupSubmitted: bool, timedSubmitted: bool, phaseActive: bool, phaseSucceeded: bool,
    initialized: bool, cycleStarted: bool, cycleStopped: bool, stopping: bool,
    // The global flag that every graph and every worker may raise and nobody lowers.
    cancelled: bool,
    // The result flag of every frame, and everything the sink has received, in order.
    results: seq<bool>, log: seq<Delivery>,
    // How often the callers of waitForPhase have been notified, and the phase started last.
    phaseNotices: nat, current: Option<FramePhase>)
  {
    /** The frames of a phase are those in [Low, High). */
    function Low(phase: FramePhase): nat {
      if phase == Warmup then 0 else warmups
    }

    function High(phase: FramePhase): nat {
      if phase == Warmup then warmups else frames
    }

    predicate Submitted(phase: FramePhase) {
      if phase == Warmup then warmupSubmitted else timedSubmitted
    }

    function PhaseOf(f: nat): FramePhase {
      if f < warmups then Warmup else Timed
    }

    predicate InCurrent(f: nat) {
      current.Some? && f < frames && PhaseOf(f) == current.value
    }
  }

  datatype Reply = Reply(graph: Graph, ok: bool)

  ghost function Range(lo: nat, hi: nat): (fs: seq<nat>)
    requires lo <= hi
    ensures |fs| == hi - lo && forall i :: 0 <= i < |fs| ==> fs[i] == lo + i
  {
    seq(hi - lo, i requires 0 <= i => lo + i)
  }

  /** The frames of a phase in their order of submission. */
  ghost function PhaseFrames(g: Graph, phase: FramePhase): seq<nat>
    requires g.warmups <= g.frames
  {
    Range(g.Low(phase), g.High(phase))
  }

  ghost function MarkAll(results: seq<bool>, fs: seq<nat>, ok: bool): (after: seq<bool>)
    ensures |after| == |results|
    ensures forall f :: 0 <= f < |results| ==> after[f] == if f in fs then ok else results[f]
  {
    seq(|results|, f requires 0 <= f < |results| => if f in fs then ok else results[f])
  }

  /** Failed deliveries of the given frames, in order. */
  ghost function Failures(fs: seq<nat>): (ds: seq<Delivery>)
    ensures |ds| == |fs| && forall i :: 0 <= i < |ds| ==> ds[i] == Delivery(fs[i], false)
  {
    seq(|fs|, i requires 0 <= i < |fs| => Delivery(fs[i], false))
  }

  // ---------------------------------------------------------------- callers

  ghost predicate MayStartPhase(g: Graph, phase: FramePhase) {
    g.initialized && g.cycleStarted && !g.phaseActive && !g.stopping && !g.cancelled && !g.Submitted(phase)
  }

  ghost function Submit(g: Graph, phase: FramePhase): Graph {
    g.(warmupSubmitted := g.warmupSubmitted || phase == Warmup, timedSubmitted := g.timedSubmitted || phase == Timed)
  }

  /**
   * `valid` is whether every frame of the phase passes validation, `queued` whether the queue could be
   * built; a queue that cannot be built raises the cancellation flag.
   */
  ghost function StartPhase(g: Graph, phase: FramePhase, gate: nat, valid: bool, queued: bool): Reply
    requires g.warmups <= g.frames
  {
    if !MayStartPhase(g, phase) then Reply(g, false)
    else if !queued then Reply(g.(cancelled := true), false)
    else if !valid then Reply(g, false)
    else
      var fs := PhaseFrames(g, phase);
      Reply(Submit(g, phase).(
              results := MarkAll(g.results, fs, true), ready := fs, gate := Some(gate), total := |fs|, terminal := 0,
              inFlight := 0, maxInFlight := 0, phaseSucceeded := true, phaseActive := fs != [], current := Some(phase),
              phaseNotices := if fs == [] then g.phaseNotices + 1 else g.phaseNotices),
            true)
  }

  /** A call of waitForPhase that has passed its first check returns true. */
  ghost predicate WaitReturnsTrue(g: Graph) {
    !g.phaseActive && g.phaseSucceeded && !g.cancelled
  }

  ghost function StartCycle(g: Graph, ok: bool): Reply {
    if !g.initialized || g.cycleStarted || g.cycleStopped || g.phaseActive || g.stopping ||
      g.cancelled then Reply(g, false)
    else if !ok then Reply(g.(cancelled := true), false)
    else Reply(g.(cycleStarted := true), true)
  }

  ghost function StopCycle(g: Graph, ok: bool): Reply {
    if !g.initialized || !g.cycleStarted || g.cycleStopped || g.phaseActive || g.inFlight != 0 ||
      g.stopping then Reply(g, false)
    else if !ok then Reply(g.(cancelled := true), false)
    else Reply(g.(cycleStarted := false, cycleStopped := true), true)
  }

  // ---------------------------------------------------------------- cancellation and completion

  /** Every queued frame fails without being executed. */
  ghost function CancelReady(g: Graph): Graph {
    g.(results := MarkAll(g.results, g.ready, false), log := g.log + Failures(g.ready),
      terminal := g.terminal + |g.ready|,
       ready := [], phaseSucceeded := false)
  }

  ghost function FailPhase(g: Graph, phase: FramePhase, fs: seq<nat>): Graph {
    g.(warmupSubmitted := g.warmupSubmitted || phase == Warmup, timedSubmitted := g.timedSubmitted || phase == Timed,
       results := MarkAll(g.results, fs, false), log := g.log + Failures(fs))
  }

  ghost function CancelPhase(g: Graph, phase: FramePhase): Graph
    requires g.warmups <= g.frames
  {
    if g.Submitted(phase) then g else FailPhase(g, phase, PhaseFrames(g, phase))
  }

  /** Every frame of a phase that was never submitted fails. */
  ghost function CancelPrepared(g: Graph): Graph
    requires g.warmups <= g.frames
  {
    CancelPhase(CancelPhase(g, Warmup), Timed)
  }

  ghost predicate Complete(g: Graph) {
    g.phaseActive && g.ready == [] && g.inFlight == 0 && g.terminal == g.total
  }

  ghost function Finish(g: Graph): Graph {
    if Complete(g) then g.(phaseActive := false, gate := None, phaseNotices := g.phaseNotices + 1) else g
  }

  // ---------------------------------------------------------------- workers

  datatype Claim = Sleep | Exit | Swept(graph: Graph) | Taken(graph: Graph, frame: nat, task: nat, gate: nat)

  ghost predicate HasWork(g: Graph) {
    g.stopping || (g.phaseActive && (g.cancelled || (g.ready != [] && g.free != [])))
  }

  /** The locked section in which a worker looks for something to do. */
  ghost function ClaimSection(g: Graph): Claim
    requires g.phaseActive ==> g.gate.Some?
  {
    if !HasWork(g) then Sleep
    else if g.stopping then Exit
    else if g.cancelled then Swept(Finish(CancelReady(g)))
    else
      Taken(g.(ready := g.ready[1..], free := g.free[..|g.free| - 1], inFlight := g.inFlight + 1,
               maxInFlight := if g.maxInFlight < g.inFlight + 1 then g.inFlight + 1 else g.maxInFlight),
            g.ready[0], g.free[|g.free| - 1], g.gate.value)
  }

  /** The locked section in which a worker returns its task and accounts for its frame. */
  ghost function AccountSection(g: Graph, task: nat, succeeded: bool): Graph
    requires g.inFlight > 0
  {
    var g1 := g.(free := g.free + [task], inFlight := g.inFlight - 1, terminal := g.terminal + 1);
    Finish(if !succeeded || g.cancelled then CancelReady(g1) else g1)
  }

  ghost function DeliverFrame(g: Graph, f: nat): Graph
    requires f < |g.results|
  {
    g.(log := g.log + [Delivery(f, g.results[f])])
  }

  /** A worker whose task failed raises the flag. */
  ghost function RaisedGraph(g: Graph, ok: bool): Graph {
    if ok then g else g.(cancelled := true)
  }

  /** A failed or cancelled frame has no good result. */
  ghost function ClearedGraph(g: Graph, f: nat, ok: bool): (g': Graph)
    requires f < |g.results|
    ensures |g'.results| == |g.results|
  {
    if !ok || g.cancelled then g.(results := g.results[f := false]) else g
  }

  /** Both at once. */
  ghost function JudgedGraph(g: Graph, f: nat, succeeded: bool): (g': Graph)
    requires f < |g.results|
    ensures |g'.results| == |g.results|
  {
    var g1 := if succeeded then g else g.(cancelled := true);
    if !succeeded || g1.cancelled then g1.(results := g1.results[f := false]) else g1
  }

  lemma RaisedThenCleared(g: Graph, f: nat, ok: bool)
    requires f < |g.results|
    ensures |RaisedGraph(g, ok).results| == |g.results|
    ensures ClearedGraph(RaisedGraph(g, ok), f, ok) == JudgedGraph(g, f, ok)
  {
  }

  // ---------------------------------------------------------------- shutdown

  /** The first locked section of shutdown; the phase gate is released beside it. */
  ghost function ShutdownSection(g: Graph): Graph
    requires g.warmups <= g.frames
  {
    var g1 := g.(stopping := true);
    CancelPrepared(if g.phaseActive then CancelReady(g1.(cancelled := true)) else g1)
  }

  /** The last locked section of shutdown, after every worker has been joined. */
  ghost function ClearAfterJoin(g: Graph): Graph {
    g.(initialized := false, cycleStarted := false, ready := [], free := [], gate := None, phaseActive := false)
  }
}
