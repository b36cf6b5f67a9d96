/** Every step of the graph scheduler keeps its invariant. */
module GraphRuns {
  import opened Counting
  import opened GpuTypes
  import opened GraphSpec
  import opened GraphSystem
  import opened GraphInvariant

  // ---------------------------------------------------------------- counting

  lemma BusyAfterSet(workers: seq<Worker>, w: nat, worker: Worker)
    requires w < |workers|
    ensures |Busy(workers[w := worker])| == |Busy(workers)| - One(workers[w].Busy()) + One(worker.Busy())
  {
    var before, after := Busy(workers), Busy(workers[w := worker]);
    assert w in before <==> workers[w].Busy();
    assert w in after <==> worker.Busy();
    assert forall v :: v != w ==> (v in after <==> v in before);
    assert after - {w} == before - {w};
    hide Busy;
    assert |before - {w}| == |before| - One(w in before);
    assert |after - {w}| == |after| - One(w in after);
  }

  lemma NobodyBusy(workers: seq<Worker>)
    requires |Busy(workers)| == 0
    ensures forall w :: 0 <= w < |workers| ==> !workers[w].Busy()
  {
    forall w | 0 <= w < |workers|
      ensures !workers[w].Busy()
    {
      var counted := w in Busy(workers);
    }
  }

  lemma SomebodyBusy(workers: seq<Worker>) returns (w: nat)
    requires |Busy(workers)| > 0
    ensures w < |workers| && workers[w].Busy()
  {
    w :| w in Busy(workers);
  }

  lemma NotifyingKeepsBusy(workers: seq<Worker>)
    ensures Busy(NotifiedWorkers(workers)) == Busy(workers)
    ensures TasksApart(workers) ==> TasksApart(NotifiedWorkers(workers))
  {
  }

  lemma NotNotified(waiters: map<nat, bool>)
    ensures NotifiedCallers(waiters, false) == waiters
  {
  }

  // ---------------------------------------------------------------- a worker on its own

  /** The step of one worker between locked sections: nothing but its own state and the flag changes. */
  ghost predicate OwnStep(s: System, s': System, w: nat) {
    && w < |s.workers| && |s'.workers| == |s.workers| && s'.workers == s.workers[w := s'.workers[w]]
    && (s.graph.cancelled ==> s'.graph.cancelled) && s'.graph == s.graph.(cancelled := s'.graph.cancelled)
    && s'.released == s.released && s'.waiters == s.waiters && s'.place == s.place && s.executed <= s'.executed
    && s'.workers[w].Busy() == s.workers[w].Busy() && s'.workers[w].Owes() == s.workers[w].Owes()
    && (s.workers[w].Busy() ==> s'.workers[w].frame == s.workers[w].frame && s'.workers[w].task == s.workers[w].task)
  }

  lemma OwnStepKeeps(s: System, s': System, w: nat)
    requires GraphInv(s) && OwnStep(s, s', w) && WorkerOk(s', w)
    requires s'.workers[w] == Asleep(false) ==>
               s.workers[w] == Asleep(false) || (!s.graph.stopping && (s.graph.phaseActive ==> s.graph.inFlight > 0))
    requires s'.workers[w].Exited? ==> s.graph.stopping
    requires s'.workers[w].Claimed? ==> s'.workers[w] == s.workers[w]
    ensures GraphInv(s')
  {
    BusyAfterSet(s.workers, w, s'.workers[w]);
    forall f | 0 <= f < s'.graph.frames
      ensures FramePlaced(s', f)
    {
      assert FramePlaced(s, f);
    }
    forall v | 0 <= v < |s'.workers|
      ensures WorkerOk(s', v)
    {
      assert WorkerOk(s, v);
    }
  }

  lemma WaitingKeeps(s: System, w: nat, x: Worker)
    requires GraphInv(s) && w < |s.workers| && !s.workers[w].Busy() && !x.Busy()
    requires x == Asleep(false) ==> !s.graph.stopping && (s.graph.phaseActive ==> s.graph.inFlight > 0)
    requires x.Exited? ==> s.graph.stopping
    ensures GraphInv(SetWorker(s, w, x))
  {
    OwnStepKeeps(s, SetWorker(s, w, x), w);
  }

  /** A worker whose predicate fails goes to sleep; then there is no phase, or somebody who will notify it. */
  lemma FallingAsleepIsSafe(s: System)
    requires GraphInv(s) && !HasWork(s.graph)
    ensures !s.graph.stopping && (s.graph.phaseActive ==> s.graph.inFlight > 0)
  {
  }

  lemma Facts(s: System)
    requires GraphInv(s)
    ensures s.graph.warmups <= s.graph.frames && (s.graph.phaseActive ==> s.graph.gate.Some?)
    ensures forall w {:trigger WorkerOk(s, w)} :: 0 <= w < |s.workers| ==> WorkerOk(s, w)
  {
  }

  lemma PassGateKeeps(s: System, w: nat)
    requires GraphInv(s) && Enabled(s, PassGate(w))
    ensures GraphInv(Apply(s, PassGate(w)))
  {
    hide GraphInv;
    Facts(s);
    assert WorkerOk(s, w);
    OwnStepKeeps(s, Apply(s, PassGate(w)), w);
  }

  lemma CheckFlagKeeps(s: System, w: nat)
    requires GraphInv(s) && Enabled(s, CheckFlag(w))
    ensures GraphInv(Apply(s, CheckFlag(w)))
  {
    hide GraphInv;
    Facts(s);
    assert WorkerOk(s, w);
    OwnStepKeeps(s, Apply(s, CheckFlag(w)), w);
  }

  lemma ExecuteKeeps(s: System, w: nat, ok: bool)
    requires GraphInv(s) && Enabled(s, Execute(w, ok))
    ensures GraphInv(Apply(s, Execute(w, ok)))
  {
    hide GraphInv;
    Facts(s);
    assert WorkerOk(s, w);
    OwnStepKeeps(s, Apply(s, Execute(w, ok)), w);
  }

  lemma FlagRaised(s: System)
    ensures WithGraph(s, s.graph.(cancelled := true)) == s.(graph := s.graph.(cancelled := true))
  {
    NotNotified(s.waiters);
  }

  ghost function Raised(s: System, w: nat): System
    requires w < |s.workers| && s.workers[w].Executed?
  {
    var worker := s.workers[w];
    SetWorker(if worker.ok then s else s.(graph := s.graph.(cancelled := true)), w,
      Flagged(worker.frame, worker.task, worker.ok))
  }

  lemma RaiseFlagIs(s: System, w: nat)
    requires Enabled(s, RaiseFlag(w))
    requires s.graph.warmups <= s.graph.frames && (s.graph.phaseActive ==> s.graph.gate.Some?)
    ensures Apply(s, RaiseFlag(w)) == Raised(s, w)
  {
    FlagRaised(s);
    hide WithGraph;
  }

  lemma RaiseFlagIsOwn(s: System, w: nat)
    requires WorkerOk(s, w) && Enabled(s, RaiseFlag(w))
    ensures OwnStep(s, Raised(s, w), w) && WorkerOk(Raised(s, w), w) && Raised(s, w).workers[w].Flagged?
  {
    if s.workers[w].ok {
    } else {
    }
  }

  lemma RaiseFlagKeeps(s: System, w: nat)
    requires GraphInv(s) && Enabled(s, RaiseFlag(w))
    ensures GraphInv(Apply(s, RaiseFlag(w)))
  {
    hide GraphInv, OwnStep, Apply, WorkerOk, Raised;
    Facts(s);
    assert WorkerOk(s, w);
    RaiseFlagIs(s, w);
    RaiseFlagIsOwn(s, w);
    OwnStepKeeps(s, Raised(s, w), w);
  }

  lemma JudgeKeeps(s: System, w: nat)
    requires GraphInv(s) && Enabled(s, Judge(w))
    ensures GraphInv(Apply(s, Judge(w)))
  {
    hide FrameInv, WorkerInv, ResultInv, Busy;
    Facts(s);
    JudgeFrames(s, w);
    JudgeWorkers(s, w);
    JudgeResults(s, w);
    NotNotified(s.waiters);
  }

  lemma JudgeResults(s: System, w: nat)
    requires GraphInv(s) && Enabled(s, Judge(w))
    ensures ResultInv(Apply(s, Judge(w)))
  {
    hide FrameInv, WorkerInv, SleepInv, NotifiedCallers;
    Facts(s);
  }

  lemma JudgeFrames(s: System, w: nat)
    requires GraphInv(s) && Enabled(s, Judge(w))
    ensures FrameInv(Apply(s, Judge(w)))
  {
    hide WorkerInv, SleepInv, ResultInv, InLog, OncePerFrame, Distinct;
    Facts(s);
    var s' := Apply(s, Judge(w));
    assert WorkerOk(s, w);
    forall f | 0 <= f < s'.graph.frames
      ensures FramePlaced(s', f)
    {
      assert FramePlaced(s, f);
    }
  }

  lemma JudgeWorkers(s: System, w: nat)
    requires GraphInv(s) && Enabled(s, Judge(w))
    ensures WorkerInv(Apply(s, Judge(w)))
  {
    hide FrameInv, SleepInv, ResultInv, Distinct;
    Facts(s);
    var s' := Apply(s, Judge(w));
    BusyAfterSet(s.workers, w, s'.workers[w]);
    assert WorkerOk(s, w);
    forall v | 0 <= v < |s'.workers|
      ensures WorkerOk(s', v)
    {
      assert WorkerOk(s, v);
    }
  }

  lemma AppendToLog(log: seq<Delivery>, d: Delivery)
    ensures forall f :: InLog(log + [d], f) <==> InLog(log, f) || f == d.frame
    ensures OncePerFrame(log) && !InLog(log, d.frame) ==> OncePerFrame(log + [d])
  {
    var log' := log + [d];
    forall f
      ensures InLog(log', f) <==> InLog(log, f) || f == d.frame
    {
      if InLog(log, f) {
        var i :| 0 <= i < |log| && log[i].frame == f;
        assert log'[i].frame == f;
      }
      if f == d.frame {
        assert log'[|log|].frame == f;
      }
    }
  }

  lemma DeliverKeeps(s: System, w: nat)
    requires GraphInv(s) && Enabled(s, Deliver(w))
    ensures GraphInv(Apply(s, Deliver(w)))
  {
    hide FrameInv, WorkerInv, Busy;
    Facts(s);
    DeliverFrames(s, w);
    DeliverWorkers(s, w);
    assert WorkerOk(s, w);
    NotNotified(s.waiters);
  }

  lemma DeliverFrames(s: System, w: nat)
    requires GraphInv(s) && Enabled(s, Deliver(w))
    ensures FrameInv(Apply(s, Deliver(w)))
  {
    hide WorkerInv, SleepInv, ResultInv, InLog, OncePerFrame, Distinct;
    Facts(s);
    var s', f0 := Apply(s, Deliver(w)), s.workers[w].frame;
    assert WorkerOk(s, w) && FramePlaced(s, f0);
    AppendToLog(s.graph.log, Delivery(f0, s.graph.results[f0]));
    forall f | 0 <= f < s'.graph.frames
      ensures FramePlaced(s', f)
    {
      assert FramePlaced(s, f);
    }
  }

  lemma DeliverWorkers(s: System, w: nat)
    requires GraphInv(s) && Enabled(s, Deliver(w))
    ensures WorkerInv(Apply(s, Deliver(w)))
  {
    hide FrameInv, SleepInv, ResultInv, Distinct;
    Facts(s);
    var s' := Apply(s, Deliver(w));
    BusyAfterSet(s.workers, w, s'.workers[w]);
    assert WorkerOk(s, w);
    forall v | 0 <= v < |s'.workers|
      ensures WorkerOk(s', v)
    {
      assert WorkerOk(s, v);
    }
  }

  // ---------------------------------------------------------------- sections in parts

  lemma {:induction false} AppendFailures(log: seq<Delivery>, fs: seq<nat>)
    ensures forall f :: InLog(log + Failures(fs), f) <==> InLog(log, f) || f in fs
    ensures OncePerFrame(log) && Distinct(fs) && (forall f :: f in fs ==> !InLog(log, f)) ==>
            OncePerFrame(log + Failures(fs))
  {
    var log' := log + Failures(fs);
    forall f
      ensures InLog(log', f) <==> InLog(log, f) || f in fs
    {
      if InLog(log, f) {
        var i :| 0 <= i < |log| && log[i].frame == f;
        assert log'[i].frame == f;
      }
      if f in fs {
        var i :| 0 <= i < |fs| && fs[i] == f;
        assert log'[|log| + i].frame == f;
      }
    }
    if OncePerFrame(log) && Distinct(fs) && (forall f :: f in fs ==> !InLog(log, f)) {
      forall i, j | 0 <= i < j < |log'|
        ensures log'[i].frame != log'[j].frame
      {
        if i < |log| <= j {
          assert fs[j - |log|] in fs;
        }
      }
    }
  }

  ghost function QueueCancelled(s: System): System {
    s.(graph := CancelReady(s.graph), place := Moved(s.place, Queued, Done))
  }

  lemma SweepKeeps(s: System)
    requires CoreInv(s)
    ensures CoreInv(QueueCancelled(s))
  {
    var s' := QueueCancelled(s);
    forall f | f in s.graph.ready
      ensures !InLog(s.graph.log, f) && s.graph.InCurrent(f)
    {
      assert FramePlaced(s, f);
    }
    AppendFailures(s.graph.log, s.graph.ready);
    hide InLog, OncePerFrame;
    forall f | 0 <= f < s'.graph.frames
      ensures FramePlaced(s', f)
    {
      assert FramePlaced(s, f);
    }
    forall v | 0 <= v < |s'.workers|
      ensures WorkerOk(s', v)
    {
      assert WorkerOk(s, v);
      if s.workers[v].Owes() {
        assert FramePlaced(s, s.workers[v].frame);
      }
    }
  }

  lemma FinishKeeps(s: System)
    requires CoreInv(s)
    ensures GraphInv(WithGraph(s, Finish(s.graph)))
  {
    var s' := WithGraph(s, Finish(s.graph));
    if Complete(s.graph) {
      NobodyBusy(s.workers);
    } else {
      NotNotified(s.waiters);
    }
    forall f | 0 <= f < s'.graph.frames
      ensures FramePlaced(s', f)
    {
      assert FramePlaced(s, f);
    }
    forall v | 0 <= v < |s'.workers|
      ensures WorkerOk(s', v)
    {
      assert WorkerOk(s, v);
    }
  }

  ghost function NotifyAll(s: System): System {
    s.(workers := NotifiedWorkers(s.workers))
  }

  lemma NotifyKeeps(s: System)
    requires CoreInv(s)
    ensures CoreInv(NotifyAll(s)) && (Moving(s.graph) ==> GraphInv(NotifyAll(s)))
    ensures forall w :: 0 <= w < |s.workers| ==> NotifyAll(s).workers[w] != Asleep(false)
  {
    var s' := NotifyAll(s);
    NotifyingKeepsBusy(s.workers);
    forall f | 0 <= f < s'.graph.frames
      ensures FramePlaced(s', f)
    {
      assert FramePlaced(s, f);
    }
    forall v | 0 <= v < |s'.workers|
      ensures WorkerOk(s', v)
    {
      assert WorkerOk(s, v);
    }
  }

  // ---------------------------------------------------------------- claiming and accounting

  /** Taking the first element of the queue and the last of the free tasks. */
  lemma Popped(g: Graph)
    requires g.ready != [] && g.free != [] && Distinct(g.ready) && Distinct(g.free)
    ensures var ready', free' := g.ready[1..], g.free[..|g.free| - 1];
            && Distinct(ready') && Distinct(free')
            && (forall f :: f in ready' <==> f in g.ready && f != g.ready[0])
            && (forall t :: t in free' <==> t in g.free && t != g.free[|g.free| - 1])
            && (forall i :: 0 <= i < |ready'| ==> ready'[i] == g.ready[i + 1])
            && (forall i :: 0 <= i < |free'| ==> free'[i] == g.free[i])
  {
    var n := |g.free| - 1;
    assert g.ready == [g.ready[0]] + g.ready[1..] && g.free == g.free[..n] + [g.free[n]];
  }

  lemma TakenKeeps(s: System, w: nat)
    requires GraphInv(s) && w < |s.workers| && s.workers[w].Awake? && ClaimSection(s.graph).Taken?
    ensures GraphInv(Looked(s, w))
  {
    var s' := Looked(s, w);
    var g, n := s.graph, |s.graph.free| - 1;
    NotNotified(s.waiters);
    BusyAfterSet(s.workers, w, s'.workers[w]);
    assert FramePlaced(s, g.ready[0]);
    Popped(g);
    hide Busy, InLog, OncePerFrame, Distinct;
    forall f | 0 <= f < s'.graph.frames
      ensures FramePlaced(s', f)
    {
      assert FramePlaced(s, f);
    }
    forall v | 0 <= v < |s'.workers|
      ensures WorkerOk(s', v)
    {
      assert WorkerOk(s, v);
    }
    forall v | 0 <= v < |s.workers| && s.workers[v].Busy()
      ensures s.workers[v].task != g.free[n]
    {
      assert WorkerOk(s, v);
    }
  }

  lemma LookKeeps(s: System, w: nat)
    requires GraphInv(s) && Enabled(s, Look(w))
    ensures GraphInv(Apply(s, Look(w)))
  {
    match ClaimSection(s.graph)
    case Sleep =>
      FallingAsleepIsSafe(s);
      WaitingKeeps(s, w, Asleep(false));
    case Exit =>
      WaitingKeeps(s, w, Exited);
    case Swept(g) =>
      SweepKeeps(s);
      FinishKeeps(QueueCancelled(s));
    case Taken(_, _, _, _) =>
      TakenKeeps(s, w);
  }

  /** The task is free again and the frame is accounted for. */
  ghost function Returned(s: System, w: nat): System
    requires w < |s.workers| && s.workers[w].Delivered? && s.graph.inFlight > 0
  {
    SetWorker(s.(graph := s.graph.(free := s.graph.free + [s.workers[w].task], inFlight := s.graph.inFlight - 1,
                                   terminal := s.graph.terminal + 1)),
              w, Awake)
  }

  lemma ReturnKeeps(s: System, w: nat)
    requires CoreInv(s) && w < |s.workers| && s.workers[w].Delivered? && s.graph.inFlight > 0
    requires forall v :: 0 <= v < |s.workers| ==> s.workers[v] != Asleep(false)
    ensures CoreInv(Returned(s, w))
  {
    var s' := Returned(s, w);
    BusyAfterSet(s.workers, w, Awake);
    assert WorkerOk(s, w);
    forall f | 0 <= f < s'.graph.frames
      ensures FramePlaced(s', f)
    {
      assert FramePlaced(s, f);
    }
    forall v | 0 <= v < |s'.workers|
      ensures WorkerOk(s', v)
    {
      assert WorkerOk(s, v);
    }
  }

  lemma AccountInParts(s: System, w: nat)
    requires w < |s.workers| && s.workers[w].Delivered? && s.graph.inFlight > 0
    ensures var worker := s.workers[w];
            var s1 := Returned(NotifyAll(s), w);
            var s2 := if !worker.ok || s.graph.cancelled then QueueCancelled(s1) else s1;
            Accounted(s, w) == WithGraph(s2, Finish(s2.graph))
  {
    hide CancelReady, Finish, NotifiedCallers, Moved;
    assert NotifiedWorkers(s.workers[w := Awake]) == NotifiedWorkers(s.workers)[w := Awake];
    var s1 := Returned(NotifyAll(s), w);
    SweepingIsSilent(s1.graph);
    if !s.workers[w].ok || s.graph.cancelled {
      assert AccountSection(s.graph, s.workers[w].task, s.workers[w].ok) == Finish(QueueCancelled(s1).graph);
    } else {
      assert AccountSection(s.graph, s.workers[w].task, s.workers[w].ok) == Finish(s1.graph);
    }
  }

  lemma SweepingIsSilent(g: Graph)
    ensures CancelReady(g).phaseNotices == g.phaseNotices
  {
  }

  lemma AccountKeeps(s: System, w: nat)
    requires GraphInv(s) && Enabled(s, Account(w))
    ensures GraphInv(Accounted(s, w))
  {
    AccountInParts(s, w);
    NotifyKeeps(s);
    ReturnKeeps(NotifyAll(s), w);
    var s1 := Returned(NotifyAll(s), w);
    hide CoreInv, GraphInv, Finish, Accounted, NotifyAll, Returned, QueueCancelled;
    if !s.workers[w].ok || s.graph.cancelled {
      SweepKeeps(s1);
      FinishKeeps(QueueCancelled(s1));
    } else {
      FinishKeeps(s1);
    }
  }

  // ---------------------------------------------------------------- callers

  lemma PhaseFramesAre(g: Graph, phase: FramePhase)
    requires g.warmups <= g.frames
    ensures Distinct(PhaseFrames(g, phase))
    ensures forall f: nat :: f in PhaseFrames(g, phase) <==> f < g.frames && g.PhaseOf(f) == phase
    ensures forall f: nat :: g.Low(phase) <= f < g.High(phase) <==> f < g.frames && g.PhaseOf(f) == phase
  {
    var fs := PhaseFrames(g, phase);
    forall f: nat | f < g.frames && g.PhaseOf(f) == phase
      ensures f in fs
    {
      assert fs[f - g.Low(phase)] == f;
    }
  }

  lemma CancelKeeps(s: System)
    requires CoreInv(s)
    ensures CoreInv(s.(graph := s.graph.(cancelled := true)))
  {
    var s' := s.(graph := s.graph.(cancelled := true));
    forall f | 0 <= f < s'.graph.frames
      ensures FramePlaced(s', f)
    {
      assert FramePlaced(s, f);
    }
    forall v | 0 <= v < |s'.workers|
      ensures WorkerOk(s', v)
    {
      assert WorkerOk(s, v);
    }
  }

  lemma CyclesKeep(s: System, g': Graph)
    requires GraphInv(s) && g' == s.graph.(cycleStarted := g'.cycleStarted, cycleStopped := g'.cycleStopped)
    ensures GraphInv(s.(graph := g'))
  {
    var s' := s.(graph := g');
    forall f | 0 <= f < s'.graph.frames
      ensures FramePlaced(s', f)
    {
      assert FramePlaced(s, f);
    }
    forall v | 0 <= v < |s'.workers|
      ensures WorkerOk(s', v)
    {
      assert WorkerOk(s, v);
    }
  }

  lemma CallersKeep(s: System, s': System)
    requires GraphInv(s) && s' == s.(waiters := s'.waiters, released := s'.released) && s.released <= s'.released
    requires forall id :: id in s'.waiters && !s'.waiters[id] ==> s.graph.phaseActive || !s.graph.initialized
    ensures GraphInv(s')
  {
    forall f | 0 <= f < s'.graph.frames
      ensures FramePlaced(s', f)
    {
      assert FramePlaced(s, f);
    }
    forall v | 0 <= v < |s'.workers|
      ensures WorkerOk(s', v)
    {
      assert WorkerOk(s, v);
    }
  }

  lemma PhaseStartKeeps(s: System, phase: FramePhase, gate: nat)
    requires GraphInv(s) && MayStartPhase(s.graph, phase)
    ensures s.graph.warmups <= s.graph.frames && GraphInv(StartedPhase(s, phase, gate, true, true))
  {
    var s' := StartedPhase(s, phase, gate, true, true);
    PhaseFramesAre(s.graph, phase);
    NobodyBusy(s.workers);
    NotifyingKeepsBusy(s.workers);
    hide InLog, Busy, PhaseFrames, Graph.Low, Graph.High;
    forall f | 0 <= f < s'.graph.frames
      ensures FramePlaced(s', f)
    {
      assert FramePlaced(s, f);
    }
    forall v | 0 <= v < |s'.workers|
      ensures WorkerOk(s', v)
    {
    }
    forall i | 0 <= i < |s.graph.log|
      ensures !s'.graph.InCurrent(s.graph.log[i].frame)
    {
      assert FramePlaced(s, s.graph.log[i].frame);
      LoggedIsInLog(s.graph.log, i);
    }
  }

  lemma LoggedIsInLog(log: seq<Delivery>, i: nat)
    requires i < |log|
    ensures InLog(log, log[i].frame)
  {
  }

  // ---------------------------------------------------------------- shutdown

  ghost function PreparedCancelled(s: System, phase: FramePhase): System
    requires s.graph.warmups <= s.graph.frames
  {
    s.(graph := CancelPhase(s.graph, phase),
       place := MovedWithin(s.place, s.graph.Low(phase), s.graph.High(phase), Unsubmitted, Done))
  }

  lemma CancelPhaseKeeps(s: System, phase: FramePhase)
    requires CoreInv(s)
    ensures s.graph.warmups <= s.graph.frames && CoreInv(PreparedCancelled(s, phase))
    ensures var g := PreparedCancelled(s, phase).graph;
            && g.Submitted(phase) && (forall other :: s.graph.Submitted(other) ==> g.Submitted(other))
            && g == s.graph.(warmupSubmitted := g.warmupSubmitted, timedSubmitted := g.timedSubmitted,
               results := g.results, log := g.log)
  {
    if s.graph.Submitted(phase) {
      PhaseFramesAre(s.graph, phase);
      forall f | 0 <= f < |s.place|
        ensures PreparedCancelled(s, phase).place[f] == s.place[f]
      {
        assert FramePlaced(s, f);
      }
      assert PreparedCancelled(s, phase).place == s.place;
    } else {
      UnsubmittedPhaseKeeps(s, phase);
    }
  }

  lemma UnsubmittedPhaseKeeps(s: System, phase: FramePhase)
    requires CoreInv(s) && !s.graph.Submitted(phase)
    ensures CoreInv(PreparedCancelled(s, phase))
  {
    PlacesPassBy(s, phase);
    WorkersPassBy(s, phase);
    UnsubmittedFrames(s, phase);
    hide FrameInv, WorkerOk, PhaseFrames, Busy, Graph.Low, Graph.High, MarkAll, MovedWithin, Distinct, TasksApart;
  }

  lemma PlacesPassBy(s: System, phase: FramePhase)
    requires CoreInv(s) && !s.graph.Submitted(phase)
    ensures FrameInv(PreparedCancelled(s, phase))
  {
    hide WorkerInv, SleepInv, ResultInv, PhaseBase;
    var s', fs := PreparedCancelled(s, phase), PhaseFrames(s.graph, phase);
    PhaseFramesAre(s.graph, phase);
    UnsubmittedFrames(s, phase);
    AppendFailures(s.graph.log, fs);
    hide InLog, OncePerFrame, PhaseFrames, Distinct, Failures, Graph.Low, Graph.High, MarkAll;
    forall f | 0 <= f < s'.graph.frames
      ensures FramePlaced(s', f)
    {
      assert FramePlaced(s, f);
    }
  }

  lemma UnsubmittedFrames(s: System, phase: FramePhase)
    requires CoreInv(s) && !s.graph.Submitted(phase)
    ensures forall f :: f in PhaseFrames(s.graph, phase) ==> !InLog(s.graph.log, f) && !s.graph.InCurrent(f)
  {
    PhaseFramesAre(s.graph, phase);
    forall f | f in PhaseFrames(s.graph, phase)
      ensures !InLog(s.graph.log, f) && !s.graph.InCurrent(f)
    {
      assert FramePlaced(s, f);
    }
  }

  /** No worker holds a frame of an unsubmitted phase. */
  lemma WorkersPassBy(s: System, phase: FramePhase)
    requires CoreInv(s) && !s.graph.Submitted(phase)
    ensures forall v :: 0 <= v < |s.workers| ==> WorkerOk(PreparedCancelled(s, phase), v)
  {
    UnsubmittedFrames(s, phase);
    PhaseFramesAre(s.graph, phase);
    forall v | 0 <= v < |s.workers|
      ensures WorkerOk(s, v) && (s.workers[v].Owes() ==> FramePlaced(s, s.workers[v].frame))
    {
      assert WorkerOk(s, v);
    }
    hide CoreInv, FramePlaced, InLog, PhaseFrames, Failures;
  }

  /** Stopping, once nothing is left to hand out: every sleeper is notified and the gate is open. */
  ghost function Stopped(s: System): System {
    s.(graph := s.graph.(stopping := true), workers := NotifiedWorkers(s.workers),
       released := if s.graph.phaseActive && s.graph.gate.Some? then s.released + {s.graph.gate.value} else s.released)
  }

  lemma StopKeeps(s: System)
    requires CoreInv(s) && s.graph.ready == [] && s.graph.warmupSubmitted && s.graph.timedSubmitted
    requires s.graph.phaseActive ==> s.graph.cancelled
    ensures GraphInv(Stopped(s))
  {
    var s' := Stopped(s);
    NotifyingKeepsBusy(s.workers);
    forall f | 0 <= f < s'.graph.frames
      ensures FramePlaced(s', f)
    {
      assert FramePlaced(s, f);
    }
    forall v | 0 <= v < |s'.workers|
      ensures WorkerOk(s', v) && (s'.workers[v].Claimed? ==> s'.workers[v].gate in s'.released)
    {
      assert WorkerOk(s, v);
      if s.workers[v].Claimed? {
        var counted := v in Busy(s.workers);
      }
    }
  }

  ghost function SweptIfActive(s: System): System {
    if s.graph.phaseActive then QueueCancelled(s.(graph := s.graph.(cancelled := true))) else s
  }

  lemma SectionInParts(g: Graph)
    requires g.warmups <= g.frames && g.initialized
    ensures var g1 := if g.phaseActive then CancelReady(g.(cancelled := true)) else g;
            var g2 := CancelPhase(CancelPhase(g1, Warmup), Timed);
            && ShutdownSection(g) == g2.(stopping := true)
            && g2.phaseActive == g.phaseActive && g2.gate == g.gate && g2.phaseNotices == g.phaseNotices
  {
    var g1 := if g.phaseActive then CancelReady(g.(cancelled := true)) else g;
    StoppingCommutes(g1, Warmup);
    StoppingCommutes(CancelPhase(g1, Warmup), Timed);
    hide CancelPhase;
  }

  lemma StoppingCommutes(g: Graph, phase: FramePhase)
    requires g.warmups <= g.frames
    ensures CancelPhase(g.(stopping := true), phase) == CancelPhase(g, phase).(stopping := true)
    ensures var g' := CancelPhase(g, phase);
            g'.phaseActive == g.phaseActive && g'.gate == g.gate && g'.phaseNotices == g.phaseNotices
              && g'.frames == g.frames &&
            g'.warmups == g.warmups
  {
    var fs := PhaseFrames(g, phase);
    assert PhaseFrames(g.(stopping := true), phase) == fs;
    FailingCommutes(g, phase, fs);
    hide PhaseFrames, FailPhase;
    if g.Submitted(phase) {
    } else {
    }
  }

  lemma FailingCommutes(g: Graph, phase: FramePhase, fs: seq<nat>)
    ensures FailPhase(g.(stopping := true), phase, fs) == FailPhase(g, phase, fs).(stopping := true)
    ensures var g' := FailPhase(g, phase, fs);
            g'.phaseActive == g.phaseActive && g'.gate == g.gate && g'.phaseNotices == g.phaseNotices
              && g'.frames == g.frames &&
            g'.warmups == g.warmups
  {
    hide MarkAll, Failures;
  }

  lemma ShutdownInParts(s: System)
    requires CoreInv(s) && s.graph.initialized
    ensures s.graph.warmups <= s.graph.frames
    ensures ShutDown(s) == Stopped(PreparedCancelled(PreparedCancelled(SweptIfActive(s), Warmup), Timed))
  {
    NotNotified(s.waiters);
    SectionInParts(s.graph);
    ShutdownPlaces(s);
    hide CoreInv, CancelPhase, CancelReady, ShutdownSection;
  }

  lemma ShutdownPlaces(s: System)
    requires CoreInv(s) && s.graph.initialized
    ensures ShutDown(s).place == PreparedCancelled(PreparedCancelled(SweptIfActive(s), Warmup), Timed).place
  {
    var s1 := SweptIfActive(s);
    StoppingCommutes(s1.graph, Warmup);
    hide CancelPhase, CancelReady, ShutdownSection, NotifiedCallers;
    var s3 := PreparedCancelled(PreparedCancelled(s1, Warmup), Timed);
    assert |s.place| == s.graph.frames;
    assert ShutDown(s).place == s3.place;
  }

  lemma SweptKeeps(s: System)
    requires CoreInv(s)
    ensures CoreInv(SweptIfActive(s)) && SweptIfActive(s).graph.ready == []
    ensures SweptIfActive(s).graph.phaseActive ==> SweptIfActive(s).graph.cancelled
  {
    if s.graph.phaseActive {
      CancelKeeps(s);
      SweepKeeps(s.(graph := s.graph.(cancelled := true)));
    }
    hide FrameInv, WorkerInv, SleepInv, ResultInv;
  }

  lemma ShutdownKeeps(s: System)
    requires GraphInv(s)
    ensures s.graph.warmups <= s.graph.frames && GraphInv(ShutDown(s))
  {
    hide CoreInv, ShutDown, SweptIfActive, PreparedCancelled, Stopped;
    assert s.graph.warmups <= s.graph.frames by { Facts(s); }
    if s.graph.initialized {
      ShutdownInParts(s);
      SweptKeeps(s);
      var s1 := SweptIfActive(s);
      CancelPhaseKeeps(s1, Warmup);
      CancelPhaseKeeps(PreparedCancelled(s1, Warmup), Timed);
      StopKeeps(PreparedCancelled(PreparedCancelled(s1, Warmup), Timed));
    } else {
      DownStaysDown(s);
    }
  }

  lemma DownStaysDown(s: System)
    requires s.graph.warmups <= s.graph.frames && !s.graph.initialized
    ensures ShutDown(s) == s
  {
  }

  lemma AfterJoinKeeps(s: System)
    requires GraphInv(s) && Enabled(s, AfterJoin)
    ensures GraphInv(Apply(s, AfterJoin))
  {
    var s' := Apply(s, AfterJoin);
    NotNotified(s.waiters);
    assert Busy(s.workers) == {};
    forall f | 0 <= f < s'.graph.frames
      ensures FramePlaced(s', f)
    {
      assert FramePlaced(s, f);
    }
    forall v | 0 <= v < |s'.workers|
      ensures WorkerOk(s', v)
    {
    }
  }

  lemma CallerStepKeeps(s: System, step: Step)
    requires GraphInv(s) && Enabled(s, step)
    requires step.StartCycleCall? || step.StopCycleCall? || step.CancelElsewhere? || step.StartPhaseCall?
    ensures GraphInv(Apply(s, step))
  {
    NotNotified(s.waiters);
    CancelKeeps(s);
    match step
    case StartPhaseCall(phase, gate, valid, queued) =>
      if MayStartPhase(s.graph, phase) && valid && queued {
        PhaseStartKeeps(s, phase, gate);
      }
    case StartCycleCall(ok) => CyclesKeep(s, s.graph.(cycleStarted := true));
    case StopCycleCall(ok) => CyclesKeep(s, s.graph.(cycleStarted := false, cycleStopped := true));
    case CancelElsewhere =>
  }

  /** The invariant is kept by every step of every worker and caller. */
  lemma StepKeeps(s: System, step: Step)
    requires GraphInv(s) && Enabled(s, step)
    ensures s.graph.warmups <= s.graph.frames && (s.graph.phaseActive ==> s.graph.gate.Some?)
    ensures GraphInv(Apply(s, step))
  {
    hide GraphInv;
    Facts(s);
    match step
    case StartPhaseCall(_, _, _, _) => CallerStepKeeps(s, step);
    case StartCycleCall(_) => CallerStepKeeps(s, step);
    case StopCycleCall(_) => CallerStepKeeps(s, step);
    case CancelElsewhere => CallerStepKeeps(s, step);
    case ReleaseGate(gate) => WaitersKeep(s, step);
    case AskPhase(id) => WaitersKeep(s, step);
    case WakeCaller(id) => WaitersKeep(s, step);
    case ShutdownCall => ShutdownKeeps(s);
    case AfterJoin => AfterJoinKeeps(s);
    case WakeWorker(w) => WaitingKeeps(s, w, Awake);
    case Look(w) => LookKeeps(s, w);
    case PassGate(w) => PassGateKeeps(s, w);
    case CheckFlag(w) => CheckFlagKeeps(s, w);
    case Execute(w, ok) => ExecuteKeeps(s, w, ok);
    case RaiseFlag(w) => RaiseFlagKeeps(s, w);
    case Judge(w) => JudgeKeeps(s, w);
    case Deliver(w) => DeliverKeeps(s, w);
    case Account(w) => AccountKeeps(s, w);
  }

  lemma WaitersKeep(s: System, step: Step)
    requires GraphInv(s) && Enabled(s, step) && (step.ReleaseGate? || step.AskPhase? || step.WakeCaller?)
    ensures GraphInv(Apply(s, step))
  {
    match step
    case ReleaseGate(gate) => CallersKeep(s, Apply(s, step));
    case AskPhase(id) => CallersKeep(s, Apply(s, step));
    case WakeCaller(id) => CallersKeep(s, Apply(s, step));
  }

  lemma StartHolds(s: System)
    requires Start(s)
    ensures GraphInv(s)
  {
    assert Busy(s.workers) == {};
    forall f | 0 <= f < s.graph.frames
      ensures FramePlaced(s, f)
    {
    }
    forall w | 0 <= w < |s.workers|
      ensures WorkerOk(s, w)
    {
    }
  }
}
