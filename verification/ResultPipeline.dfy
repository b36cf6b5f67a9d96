/** The scheduler object of the result pipeline: its locked operations refine the steps of `PipelineSchedule`. */
module ResultPipeline {
  import opened GpuTypes
  import PS = PipelineSchedule

  class Scheduler {
    var freeSlots: seq<nat>
    var cpuQueue: seq<nat>
    var consumerQueue: seq<nat>
    var ready: nat
    var active: nat
    var peak: nat
    var start: bool
    var failed: bool

    /** The fields are those of the schedule `s`; what the stages do between operations is not stored here. */
    ghost predicate Realises(s: PS.Schedule)
      reads this
    {
      && freeSlots == s.free && cpuQueue == s.cpuQueue && consumerQueue == s.consumerQueue
      && ready == s.ready && active == s.active && peak == s.peak && start == s.start && failed == s.failed
    }

    /** The pool of min(inFlight, frames) slots, all free. */
    constructor (inFlight: nat, frames: nat)
      ensures |freeSlots| == (if inFlight < frames then inFlight else frames)
      ensures forall s: PS.Schedule :: PS.Start(s) && s.slots == |freeSlots| ==> Realises(s)
    {
      var slots := if inFlight < frames then inFlight else frames;
      var free: seq<nat> := [];
      for index := 0 to slots
        invariant |free| == index && forall j :: 0 <= j < index ==> free[j] == j
      {
        free := free + [index];
      }
      freeSlots, cpuQueue, consumerQueue := free, [], [];
      ready, active, peak, start, failed := 0, 0, 0, false, false;
      new;
      forall s: PS.Schedule | PS.Start(s) && s.slots == |freeSlots|
        ensures Realises(s)
      {
        assert s.free == freeSlots;
      }
    }

    /** Whoever gives up raises the flag; for a stage that holds a slot this is the failure step of the schedule. */
    method Cancel(ghost s: PS.Schedule)
      requires Realises(s)
      modifies this`failed
      ensures Realises(s.(failed := true))
      ensures forall stage :: PS.Enabled(s, PS.Fail(stage)) ==> Realises(PS.Apply(s, PS.Fail(stage)))
    {
      failed := true;
    }

    /** The first half of awaitStart: the stage reports that it has loaded, or that it could not. */
    method Arrive(loaded: bool, ghost s: PS.Schedule, ghost stage: nat)
      requires Realises(s) && PS.Enabled(s, PS.Arrive(stage, loaded))
      modifies this
      ensures Realises(PS.Apply(s, PS.Arrive(stage, loaded)))
    {
      ready := ready + 1;
      if !loaded {
        failed := true;
      }
    }

    /** The second half of awaitStart; `waits` means that the stage has to wait for the signal. */
    method AwaitStart(ghost s: PS.Schedule, ghost stage: nat) returns (waits: bool, ok: bool)
      requires Realises(s) && stage < |s.stages| && s.stages[stage].Waiting?
      ensures waits <==> !PS.Enabled(s, PS.Depart(stage))
      ensures !waits ==> Realises(PS.Apply(s, PS.Depart(stage)))
      ensures !waits ==> (ok <==> !PS.Apply(s, PS.Depart(stage)).stages[stage].Stopped?)
    {
      waits := !(start || failed);
      ok := !failed;
    }

    /** The signal of the calling thread, once all three stages have arrived or one has failed. */
    method GiveSignal(ghost s: PS.Schedule) returns (waits: bool)
      requires Realises(s) && !s.start
      modifies this
      ensures waits <==> !PS.Enabled(s, PS.GoAhead)
      ensures if waits then Realises(s) else Realises(PS.Apply(s, PS.GoAhead))
    {
      waits := !(ready == 3 || failed);
      if !waits {
        start := true;
      }
    }

    /** Takes the front of the queue of `stage`; `waits` means that the queue is empty and nothing has failed. */
    method Take(stage: nat, ghost s: PS.Schedule) returns (waits: bool, ok: bool, slot: nat)
      requires Realises(s) && stage < |s.stages| && s.stages[stage].Taking?
      modifies this
      ensures waits <==> !PS.Enabled(s, PS.Take(stage))
      ensures waits ==> Realises(s)
      ensures !waits ==> Realises(PS.Apply(s, PS.Take(stage)))
      ensures !waits ==> ok == !s.failed
      ensures !waits && ok ==>
                PS.Apply(s, PS.Take(stage)).stages[stage] == PS.Busy(s.stages[stage].frame, slot, PS.Entered)
    {
      slot := 0;
      var queue := if stage == PS.PRODUCER then freeSlots else if stage == PS.CPU then cpuQueue else consumerQueue;
      waits := !failed && queue == [];
      ok := !waits && !failed;
      if ok {
        slot := queue[0];
        if stage == PS.PRODUCER {
          freeSlots := freeSlots[1..];
          active := active + 1;
          if peak < active {
            peak := active;
          }
        } else if stage == PS.CPU {
          cpuQueue := cpuQueue[1..];
        } else {
          consumerQueue := consumerQueue[1..];
        }
      }
    }

    /** Passes a slot on to the stage that comes next; the consumer returns it to the pool. */
    method Pass(stage: nat, slot: nat, ghost s: PS.Schedule)
      requires Realises(s) && PS.Inv(s) && PS.Enabled(s, PS.Pass(stage)) && s.stages[stage].slot == slot
      modifies this
      ensures Realises(PS.Apply(s, PS.Pass(stage)))
    {
      if stage == PS.PRODUCER {
        cpuQueue := cpuQueue + [slot];
      } else if stage == PS.CPU {
        consumerQueue := consumerQueue + [slot];
      } else {
        freeSlots := freeSlots + [slot];
        ActiveIsPositive(s, stage);
        active := active - 1;
      }
    }

    lemma ActiveIsPositive(s: PS.Schedule, i: nat)
      requires PS.SlotInv(s) && i < |s.stages| && s.stages[i].Busy?
      ensures s.active > 0
    {
      assert PS.Holds(s.stages[i]).Some?;
    }
  }
}
