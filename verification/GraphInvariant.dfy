/**
 * What every interleaving of workers, callers, cancellation and shutdown keeps: each frame is in exactly
 * one place, each task is free or checked out by one worker, and the counters of the phase balance.
 */
module GraphInvariant {
  import opened Counting
  import opened GpuTypes
  import opened GraphSpec
  import opened GraphSystem

  ghost predicate InLog(log: seq<Delivery>, f: nat) {
    exists i :: 0 <= i < |log| && log[i].frame == f
  }

  /** No frame has been delivered twice. */
  ghost predicate OncePerFrame(log: seq<Delivery>) {
    forall i, j :: 0 <= i < j < |log| ==> log[i].frame != log[j].frame
  }

  // ---------------------------------------------------------------- frames

  /** Frame `f` is exactly where its place says. */
  ghost predicate FramePlaced(s: System, f: nat) {
    && f < s.graph.frames && f < |s.place|
    && (s.place[f] == Unsubmitted <==> !s.graph.Submitted(s.graph.PhaseOf(f)))
    && (s.place[f] == Queued <==> f in s.graph.ready)
    && (s.place[f] == Done <==> InLog(s.graph.log, f))
    && (s.place[f].With? ==>
          s.place[f].worker < |s.workers| && s.workers[s.place[f].worker].Owes()
            && s.workers[s.place[f].worker].frame == f)
    && (s.place[f].Queued? || s.place[f].With? ==> s.graph.InCurrent(f))
    && (s.place[f].Queued? ==> f < |s.graph.results| && s.graph.results[f])
  }

  ghost predicate FrameInv(s: System) {
    && |s.place| == s.graph.frames == |s.graph.results| && s.graph.warmups <= s.graph.frames
    && Distinct(s.graph.ready) && (forall i :: 0 <= i < |s.graph.ready| ==> s.graph.ready[i] < s.graph.frames)
    && OncePerFrame(s.graph.log) && (forall i :: 0 <= i < |s.graph.log| ==> s.graph.log[i].frame < s.graph.frames)
    && (forall f {:trigger FramePlaced(s, f)} :: 0 <= f < s.graph.frames ==> FramePlaced(s, f))
  }

  // ---------------------------------------------------------------- workers

  ghost function Busy(workers: seq<Worker>): set<nat> {
    set w | 0 <= w < |workers| && workers[w].Busy()
  }

  /** What a worker holds, and what it knows about its frame's result. */
  ghost predicate WorkerOk(s: System, w: nat) {
    && w < |s.workers|
    && var worker := s.workers[w];
       && (worker.Busy() ==>
             worker.task < s.graph.tasks && worker.task !in s.graph.free && worker.frame < |s.graph.results|
               && s.graph.InCurrent(worker.frame))
       && (worker.Owes() ==> worker.frame < |s.place| && s.place[worker.frame] == With(w))
       && (worker.Claimed? ==> s.graph.gate == Some(worker.gate))
       // A result that is still good belongs to a task that may yet succeed or has succeeded.
       && (worker.Claimed? || worker.Gated? || worker.Executing? || worker.Executed? || worker.Flagged? ==>
             s.graph.results[worker.frame])
       && (worker.Executed? || worker.Flagged? || worker.Judged? ==> worker.ok ==> worker.frame in s.executed)
       && (worker.Flagged? || worker.Judged? || worker.Delivered? ==> !worker.ok ==> s.graph.cancelled)
       && (worker.Judged? ==> if s.graph.results[worker.frame] then worker.ok else s.graph.cancelled)
  }

  ghost predicate TasksApart(workers: seq<Worker>) {
    forall v, w :: 0 <= v < w < |workers| && workers[v].Busy() && workers[w].Busy() ==>
      workers[v].task != workers[w].task
  }

  ghost predicate WorkerInv(s: System) {
    && Distinct(s.graph.free) && (forall i :: 0 <= i < |s.graph.free| ==> s.graph.free[i] < s.graph.tasks)
    && TasksApart(s.workers)
    && (forall w {:trigger WorkerOk(s, w)} :: 0 <= w < |s.workers| ==> WorkerOk(s, w))
    && |Busy(s.workers)| == s.graph.inFlight
  }

  // ---------------------------------------------------------------- the phase

  ghost predicate PhaseBase(g: Graph) {
    && g.tasks > 0 && (g.current.Some? ==> g.Submitted(g.current.value))
    && (g.initialized ==> |g.free| + g.inFlight == g.tasks)
    && (g.phaseActive ==> g.gate.Some? && g.current.Some? && g.total == |g.ready| + g.inFlight + g.terminal)
    && (!g.phaseActive ==> g.ready == [] && g.inFlight == 0)
    && (g.stopping ==> g.ready == [] && g.warmupSubmitted && g.timedSubmitted && (g.phaseActive ==> g.cancelled))
    && (!g.initialized ==> g.stopping && g.inFlight == 0 && !g.phaseActive)
  }

  /** A phase that still runs has a frame to hand out or somebody at work; only shutdown may leave it behind. */
  ghost predicate Moving(g: Graph) {
    g.phaseActive && !g.stopping ==> g.ready != [] || g.inFlight > 0
  }

  /** Sleepers cannot be forgotten: whoever still has to be notified is going to be. */
  ghost predicate SleepInv(s: System) {
    && (forall w :: 0 <= w < |s.workers| && s.workers[w] == Asleep(false) ==>
          !s.graph.stopping && (s.graph.phaseActive ==> s.graph.inFlight > 0))
    && (!s.graph.stopping ==> forall w :: 0 <= w < |s.workers| ==> !s.workers[w].Exited?)
    && (s.graph.stopping ==> forall w :: 0 <= w < |s.workers| && s.workers[w].Claimed? ==>
       s.workers[w].gate in s.released)
    && (forall id :: id in s.waiters && !s.waiters[id] ==> s.graph.phaseActive || !s.graph.initialized)
  }

  // ---------------------------------------------------------------- results

  /** A failed result of the current phase is known to the phase, or is about to be. */
  ghost predicate ResultInv(s: System) {
    && (forall i :: 0 <= i < |s.graph.log| && s.graph.log[i].ok ==> s.graph.log[i].frame in s.executed)
    && (forall i :: 0 <= i < |s.graph.log| && !s.graph.log[i].ok && s.graph.InCurrent(s.graph.log[i].frame) ==>
          !s.graph.phaseSucceeded || s.graph.cancelled)
  }

  /** The invariant in the middle of a locked section, before the phase is checked for completion. */
  ghost predicate CoreInv(s: System) {
    FrameInv(s) && WorkerInv(s) && PhaseBase(s.graph) && SleepInv(s) && ResultInv(s)
  }

  ghost predicate GraphInv(s: System) {
    CoreInv(s) && Moving(s.graph)
  }
}
