/**
 * What the steps of the pipeline do to the queues and counters, one by one, and what that means over runs: the
 * pipeline fails for a cause, a failure is final, and the recorded peak is the most slots ever in use at once.
 */
module PipelineLaws {
  import opened GpuTypes
  import opened PipelineSchedule
  import opened PipelineRuns
  import opened CacheSpec
  import opened CacheInvariant
  import opened CacheLeases
  import PP = PipelineSystem
  import PT = PipelineTransparency
  import CS = CacheSystem
  import CR = CacheRuns
  import CEL = CacheEndLaws

  // ---------------------------------------------------------------- single steps

  /** A stage takes the front of its own queue; only the producer counts the slot and labels it with its frame. */
  lemma TakeLaw(s: Schedule, i: nat)
    requires Inv(s) && Enabled(s, Take(i)) && !s.failed
    ensures i < 3 && s.stages[i].Taking?
    ensures var s', frame := Apply(s, Take(i)), s.stages[i].frame;
            && s'.stages[i].Busy? && s'.stages == s.stages[i := Busy(frame, s'.stages[i].slot, Entered)]
            && var slot := s'.stages[i].slot;
               && s.free == (if i == 0 then [slot] + s'.free else s'.free)
               && s.cpuQueue == (if i == 1 then [slot] + s'.cpuQueue else s'.cpuQueue)
               && s.consumerQueue == (if i == 2 then [slot] + s'.consumerQueue else s'.consumerQueue)
               && (i == 0 ==> slot < |s.carries| && s'.carries == s.carries[slot := frame]
                              && s'.active == s.active + 1 && s'.peak == if s.active < s.peak then s.peak
                                 else s.active + 1)
               && (i != 0 ==> s'.carries == s.carries && s'.active == s.active && s'.peak == s.peak)
               && s' == s.(stages := s'.stages, free := s'.free, cpuQueue := s'.cpuQueue,
                  consumerQueue := s'.consumerQueue,
                           carries := s'.carries, active := s'.active, peak := s'.peak)
  {
    assert forall k :: 0 <= k < |s.free| ==> s.free[k] in s.free;
  }

  /** A stage hands its slot to the end of the next queue; the consumer gives it back and completes the frame. */
  lemma PassLaw(s: Schedule, i: nat)
    requires Inv(s) && Enabled(s, Step.Pass(i))
    ensures i < 3 && s.stages[i].Busy?
    ensures var s', frame, slot := Apply(s, Step.Pass(i)), s.stages[i].frame, s.stages[i].slot;
            && s'.stages == s.stages[i := if frame + 1 < s.frames then Taking(frame + 1) else Finished]
            && s'.free == (if i == 2 then s.free + [slot] else s.free)
            && s'.cpuQueue == (if i == 0 then s.cpuQueue + [slot] else s.cpuQueue)
            && s'.consumerQueue == (if i == 1 then s.consumerQueue + [slot] else s.consumerQueue)
            && s'.completed == (if i == 2 then s.completed + 1 else s.completed)
            && s'.active == (if i == 2 then s.active - 1 else s.active)
            && s' == s.(stages := s'.stages, free := s'.free, cpuQueue := s'.cpuQueue,
               consumerQueue := s'.consumerQueue,
                        completed := s'.completed, active := s'.active)
  {
  }

  /** A stage departs once, into its first frame, when all three have arrived or something has failed. */
  lemma DepartLaw(s: Schedule, i: nat)
    requires Inv(s) && Enabled(s, Depart(i))
    ensures i < 3 && s.stages[i].Waiting? && (s.failed || s.ready == 3)
    ensures Apply(s, Depart(i)) == s.(stages := s.stages[i := if s.failed then Stopped(None) else Taking(0)])
  {
  }

  /** The pipeline fails when a stage gives up or cannot load, and in no other way. */
  lemma FailureHasACause(s: Schedule, step: Step)
    requires Enabled(s, step)
    ensures !s.failed ==> (Apply(s, step).failed <==> step.Fail? || (step.Arrive? && !step.loaded))
  {
  }

  /** A failure is final: the flag stays up, and no stage takes a slot any more. */
  lemma FailureIsFinal(s: Schedule, step: Step, i: nat)
    requires Inv(s) && Enabled(s, step) && s.failed && i < 3
    ensures Apply(s, step).failed && |Apply(s, step).stages| == |s.stages| == 3
    ensures var after := Apply(s, step).stages[i];
            && (after.Busy? ==> s.stages[i].Busy? && after.slot == s.stages[i].slot && after.frame == s.stages[i].frame)
            && (s.stages[i].Taking? ==> after == s.stages[i] || after == Stopped(None))
            && (s.stages[i].Waiting? ==> after == s.stages[i] || after == Stopped(None))
  {
  }

  // ---------------------------------------------------------------- over runs

  lemma PeakStep(s: Schedule, step: Step)
    requires Inv(s) && Enabled(s, step) && s.active <= s.peak
    ensures var s' := Apply(s, step);
            s'.active <= s'.peak && (s'.peak == s.peak || s'.peak == s'.active) && s.peak <= s'.peak
  {
    hide Inv;
    ThreeStages(s);
  }

  lemma ThreeStages(s: Schedule)
    requires Inv(s)
    ensures |s.stages| == 3
  {
  }

  /** The recorded peak is exactly the largest number of slots that were in use in any state so far. */
  lemma {:induction false} PeakIsHighest(states: seq<Schedule>, steps: seq<Step>, k: nat)
    requires IsRun(states, steps) && k < |states|
    ensures forall j :: 0 <= j <= k ==> states[j].active <= states[k].peak
    ensures exists j :: 0 <= j <= k && states[j].active == states[k].peak
  {
    hide Inv, Apply, Enabled, Start;
    if k == 0 {
      FreshCounts(states[0]);
      assert states[0].active == states[k].peak;
    } else {
      PeakIsHighest(states, steps, k - 1);
      RunsAreSafe(states, steps, k - 1);
      PeakStep(states[k - 1], steps[k - 1]);
      if states[k].peak == states[k].active {
      } else {
        var j :| 0 <= j <= k - 1 && states[j].active == states[k - 1].peak;
        assert states[j].active == states[k].peak;
      }
    }
  }

  lemma FreshCounts(s: Schedule)
    requires Start(s)
    ensures s.active == 0 && s.peak == 0
  {
  }

  // ---------------------------------------------------------------- together with the cache

  /**
   * A stage ends its lease as the pipeline is configured: the producer's result stays for the consumer, and the
   * consumer keeps or discards it as it was told.
   */
  lemma LeasesEndAsConfigured(cfg: PP.Config, s: PP.Pipeline, i: nat)
    requires PT.PipelineInv(cfg, s) && PP.Enabled(s, PP.EndLease(i))
    ensures PP.CacheReady(s) && CS.Live(s.cache, i)
    ensures var a, c, c' := s.cache.accesses[i], s.cache.cache, PP.Apply(cfg, s, PP.EndLease(i)).cache.cache;
            var keeps := i == PRODUCER || cfg.retention == Keep;
            && (a.status == CacheFill ==>
                  a.entryIndex < |c.entries| && CEL.FillerLeft(c, c', a.entryIndex, true, keeps))
            && (a.status == CacheHit ==>
                  a.entryIndex < |c.entries| && CEL.ReaderLeft(c, c', a.entryIndex, !keeps))
            && (a.status == TaskFallback ==> c.fallbacks > 0 && c' == c.(fallbacks := c.fallbacks - 1))
  {
    hide PT.PipelineInv, PP.CacheReady, PP.Apply, CS.Apply, Complete, CEL.FillerLeft, CEL.ReaderLeft, CR.SysInv, RepInv,
         LeaseInv, PT.CacheOk, PT.StageCall, PT.CountsOk, PT.AtomsOk, PT.ScheduleOk, PT.Healthy, IndicesInRange;
    PT.CacheIsReady(cfg, s);
    PT.Parts(cfg, s);
    PT.LeaseIsHeld(cfg, s, i);
    PT.Facts(cfg, s.cache);
    CR.LiveLeaseMeansRunning(s.cache, i);
    var c, retention := s.cache.cache, if i == PRODUCER then Keep else cfg.retention;
    LeasesAreSound(s.cache);
    CR.CompletionIsValid(c, s.cache.accesses, i, true, retention);
    PT.EndLeaves(cfg, s, i);
    EndIsCompletion(cfg, s, i, retention);
    match s.cache.accesses[i].status
    case CacheHit => CEL.ReaderEndLaw(c, s.cache.accesses, i, true, retention);
    case CacheFill => CEL.FillEndLaw(c, s.cache.accesses, i, true, retention);
    case TaskFallback => CEL.FallbackEndLaw(c, s.cache.accesses, i, true, retention);
    case Invalid =>
  }

  lemma LeasesAreSound(cs: CS.System)
    requires CR.SysInv(cs) && cs.cache.initialized
    ensures RepInv(cs.cache) && LeaseInv(cs.cache, cs.accesses)
  {
  }

  lemma EndIsCompletion(cfg: PP.Config, s: PP.Pipeline, i: nat, retention: CacheRetention)
    requires PP.CacheReady(s) && PP.Enabled(s, PP.EndLease(i)) && CS.Live(s.cache, i)
    requires PP.EndedLease(cfg, s, i).cache == CS.Apply(s.cache, CS.Finish(i, true, retention))
    ensures PP.Apply(cfg, s, PP.EndLease(i)).cache.cache ==
            Complete(s.cache.cache, s.cache.accesses[i], true, retention).cache
  {
    hide PP.EndedLease, PP.CacheReady, Complete, CS.IdleStamps, CS.FillStamps;
  }

  /** A live lease of a stage is on the stage's own stream, in every state of every run. */
  lemma StagesKeepTheirStreams(cfg: PP.Config, states: seq<PP.Pipeline>, steps: seq<PP.Step>, k: nat, i: nat)
    requires PT.IsRun(cfg, states, steps) && k < |states| && PP.CallsCache(i) && PP.AtWork(states[k], i)
    requires var activity := states[k].schedule.stages[i].activity; activity.Leased? || activity.Written?
    ensures CS.Live(states[k].cache, i)
    ensures states[k].cache.accesses[i].stream == if i == PRODUCER then cfg.producerStream else cfg.consumerStream
    ensures states[k].cache.accesses[i].status == TaskFallback ==>
              states[k].cache.accesses[i].data == if i == PRODUCER then cfg.producerBuffer else cfg.consumerBuffer
  {
    hide PT.IsRun, PT.PipelineInv, PT.StageCall, PT.CacheOk;
    PT.RunsAreSafe(cfg, states, steps, k);
    PT.Parts(cfg, states[k]);
    PT.LeaseIsHeld(cfg, states[k], i);
  }
}
