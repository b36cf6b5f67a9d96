/** The pool of slots, the order of frames, freedom from deadlock and termination of the pipeline. */
module PipelineRuns {
  import opened Counting
  import opened GpuTypes
  import opened PipelineSchedule

  lemma TailIsApart(queue: seq<nat>)
    requires Distinct(queue) && queue != []
    ensures Distinct(queue[1..])
    ensures forall x :: x in queue[1..] <==> x in queue && x != queue[0]
  {
    assert queue == [queue[0]] + queue[1..];
  }

  lemma AppendIsApart(queue: seq<nat>, x: nat)
    requires Distinct(queue) && x !in queue
    ensures Distinct(queue + [x])
    ensures forall y :: y in queue + [x] <==> y in queue || y == x
  {
  }

  lemma TakeKeepsSlots(s: Schedule, i: nat)
    requires SlotInv(s) && Enabled(s, Take(i)) && !s.failed
    ensures SlotInv(Apply(s, Take(i)))
  {
    TailIsApart(Queue(s, i));
    assert Queue(s, i)[0] in Queue(s, i);
    hide Distinct;
    if i == PRODUCER {
    } else if i == CPU {
    } else {
    }
  }

  lemma TailInOrder(carries: seq<nat>, queue: seq<nat>, from: nat)
    requires InOrder(carries, queue, from) && queue != []
    ensures Carries(carries, queue[0], from) && InOrder(carries, queue[1..], from + 1)
  {
    forall k | 0 <= k < |queue[1..]|
      ensures Carries(carries, queue[1..][k], from + 1 + k)
    {
      assert Carries(carries, queue[k + 1], from + (k + 1));
    }
  }

  lemma AppendInOrder(carries: seq<nat>, queue: seq<nat>, from: nat, slot: nat)
    requires InOrder(carries, queue, from) && Carries(carries, slot, from + |queue|)
    ensures InOrder(carries, queue + [slot], from)
  {
  }

  lemma StoreInOrder(carries: seq<nat>, queue: seq<nat>, from: nat, slot: nat, frame: nat)
    requires InOrder(carries, queue, from) && slot !in queue && slot < |carries|
    ensures InOrder(carries[slot := frame], queue, from)
  {
    forall k | 0 <= k < |queue|
      ensures Carries(carries[slot := frame], queue[k], from + k)
    {
      assert Carries(carries, queue[k], from + k) && queue[k] in queue;
    }
  }

  lemma TakeCounts(s: Schedule, i: nat)
    requires |s.stages| == 3 && Enabled(s, Take(i)) && !s.failed
    ensures var s' := Apply(s, Take(i));
            && Taken(s', i) == Taken(s, i) + 1 && Passed(s', i) == Passed(s, i) && Taken(s, i) == s.stages[i].frame
            && forall j :: 0 <= j < 3 && j != i ==> Passed(s', j) == Passed(s, j) && Taken(s', j) == Taken(s, j)
  {
  }

  lemma TakeKeepsFrames(s: Schedule, i: nat)
    requires SlotInv(s) && FifoInv(s) && Enabled(s, Take(i)) && !s.failed
    ensures FifoInv(Apply(s, Take(i)))
  {
    var slot, frame := Queue(s, i)[0], s.stages[i].frame;
    assert slot in Queue(s, i);
    TakeCounts(s, i);
    if i == PRODUCER {
      StoreInOrder(s.carries, s.cpuQueue, Taken(s, CPU), slot, frame);
      StoreInOrder(s.carries, s.consumerQueue, Taken(s, CONSUMER), slot, frame);
    } else {
      TailInOrder(s.carries, Queue(s, i), Taken(s, i));
    }
    hide Distinct, InOrder, Taken, Passed;
    if i == PRODUCER {
    } else if i == CPU {
    } else {
    }
  }

  lemma PassKeepsSlots(s: Schedule, i: nat)
    requires SlotInv(s) && Enabled(s, Pass(i))
    ensures SlotInv(Apply(s, Pass(i)))
  {
    PassKeepsApart(s, i);
    NextHoldsNothing(s.frames, s.stages[i].frame + 1);
    hide SlotsApart, Next;
  }

  lemma PassKeepsApart(s: Schedule, i: nat)
    requires SlotsApart(s) && Enabled(s, Pass(i))
    ensures SlotsApart(Apply(s, Pass(i)))
  {
    AppendIsApart(Queue(s, Target(i)), s.stages[i].slot);
    NextHoldsNothing(s.frames, s.stages[i].frame + 1);
    hide Distinct, Next;
    if i == PRODUCER {
    } else if i == CPU {
    } else {
    }
  }

  lemma NextHoldsNothing(frames: nat, frame: nat)
    ensures Holds(Next(frames, frame)) == None
  {
  }

  lemma NextCounts(s: Schedule, i: nat, frame: nat)
    requires i < |s.stages| && frame < s.frames && s.stages[i] == Next(s.frames, frame + 1)
    ensures Passed(s, i) == Taken(s, i) == frame + 1
  {
  }

  lemma SameCounts(s: Schedule, s': Schedule, j: nat)
    requires j < |s.stages| == |s'.stages| && s'.stages[j] == s.stages[j] && s'.frames == s.frames
    ensures Passed(s', j) == Passed(s, j) && Taken(s', j) == Taken(s, j)
  {
  }

  lemma PassCounts(s: Schedule, i: nat)
    requires FifoInv(s) && Enabled(s, Pass(i))
    ensures var s' := Apply(s, Pass(i));
            && Passed(s', i) == Passed(s, i) + 1 && Taken(s', i) == Taken(s, i)
            && forall j :: 0 <= j < 3 && j != i ==> Passed(s', j) == Passed(s, j) && Taken(s', j) == Taken(s, j)
  {
    var s' := Apply(s, Pass(i));
    assert s.stages[i].frame < s.frames;
    hide FifoInv, InOrder, Passed, Taken, Next;
    BusyCounts(s, i);
    NextCounts(s', i, s.stages[i].frame);
    forall j | 0 <= j < 3 && j != i
      ensures Passed(s', j) == Passed(s, j) && Taken(s', j) == Taken(s, j)
    {
      SameCounts(s, s', j);
    }
  }

  lemma PassKeepsFrames(s: Schedule, i: nat)
    requires FifoInv(s) && Enabled(s, Pass(i))
    ensures FifoInv(Apply(s, Pass(i)))
  {
    PassCounts(s, i);
    BusyCounts(s, i);
    if !s.failed && i != CONSUMER {
      AppendInOrder(s.carries, Queue(s, Target(i)), Taken(s, Target(i)), s.stages[i].slot);
    }
    hide Passed, Taken, InOrder, Carries;
    if i == PRODUCER {
    } else if i == CPU {
    } else {
    }
  }

  lemma BusyCounts(s: Schedule, i: nat)
    requires i < |s.stages| && s.stages[i].Busy?
    ensures Passed(s, i) == s.stages[i].frame && Taken(s, i) == s.stages[i].frame + 1
  {
  }

  lemma StartKeeps(s: Schedule, step: Step)
    requires Inv(s) && Enabled(s, step)
    ensures StartInv(Apply(s, step))
  {
    hide SlotInv, InOrder, StageOk;
    match step
    case Arrive(i, _) =>
    case GoAhead =>
    case Depart(i) =>
    case Take(i) =>
    case Work(i, _) =>
    case Pass(i) =>
    case Fail(i) =>
  }

  /** A step that moves no slot. */
  ghost predicate Still(s: Schedule, s': Schedule, i: nat) {
    && i < |s.stages| == |s'.stages| && s'.stages == s.stages[i := s'.stages[i]] && (s.failed ==> s'.failed)
    && s' == s.(stages := s'.stages, failed := s'.failed, ready := s'.ready, start := s'.start)
    && Holds(s'.stages[i]) == Holds(s.stages[i])
  }

  lemma StillKeepsSlots(s: Schedule, s': Schedule, i: nat)
    requires SlotInv(s) && Still(s, s', i)
    ensures SlotInv(s')
  {
    hide Distinct;
  }

  lemma RestIsStill(s: Schedule, step: Step)
    requires |s.stages| == 3 && Enabled(s, step) && !step.Pass? && (step.Take? ==> s.failed)
    ensures Still(s, Apply(s, step), if step.GoAhead? then 0 else step.stage)
  {
  }

  lemma RestCounts(s: Schedule, step: Step, j: nat)
    requires |s.stages| == 3 && j < 3 && StageOk(s, j) && 0 < s.frames
    requires Enabled(s, step) && !step.Pass? && (step.Take? ==> s.failed)
    ensures var s' := Apply(s, step);
            && |s'.stages| == 3 && StageOk(s', j) && (s.failed ==> s'.failed)
            && (!s'.failed ==> Passed(s', j) == Passed(s, j) && Taken(s', j) == Taken(s, j))
  {
    match step
    case Arrive(i, _) =>
    case GoAhead =>
    case Depart(i) =>
    case Take(i) =>
    case Work(i, _) =>
    case Fail(i) =>
  }

  lemma RestKeepsFrames(s: Schedule, step: Step)
    requires FifoInv(s) && 0 < s.frames && Enabled(s, step) && !step.Pass? && (step.Take? ==> s.failed)
    requires Still(s, Apply(s, step), if step.GoAhead? then 0 else step.stage)
    ensures FifoInv(Apply(s, step))
  {
    RestCounts(s, step, 0);
    RestCounts(s, step, 1);
    RestCounts(s, step, 2);
    hide Apply, Enabled, StageOk, InOrder, Passed, Taken;
  }

  lemma RestKeeps(s: Schedule, step: Step)
    requires SlotInv(s) && FifoInv(s) && StartInv(s) && Enabled(s, step) && !step.Pass? && (step.Take? ==> s.failed)
    ensures SlotInv(Apply(s, step)) && FifoInv(Apply(s, step))
  {
    assert |s.stages| == 3 && 0 < s.frames;
    hide SlotInv, FifoInv, Still;
    RestIsStill(s, step);
    StillKeepsSlots(s, Apply(s, step), if step.GoAhead? then 0 else step.stage);
    RestKeepsFrames(s, step);
  }

  /** Every step of every stage keeps the pool, the order and the start-up protocol. */
  lemma StepKeeps(s: Schedule, step: Step)
    requires Inv(s) && Enabled(s, step)
    ensures Inv(Apply(s, step))
  {
    hide SlotInv, FifoInv, StartInv, Apply, Enabled;
    StartKeeps(s, step);
    match step
    case Take(i) =>
      if s.failed {
        RestKeeps(s, step);
      } else {
        TakeKeepsSlots(s, i);
        TakeKeepsFrames(s, i);
      }
    case Pass(i) =>
      PassKeepsSlots(s, i);
      PassKeepsFrames(s, i);
    case _ => RestKeeps(s, step);
  }

  lemma StartHolds(s: Schedule)
    requires Start(s)
    ensures Inv(s)
  {
    forall x | x in s.free
      ensures x < s.slots
    {
    }
  }

  // ---------------------------------------------------------------- runs

  ghost predicate IsRun(states: seq<Schedule>, steps: seq<Step>) {
    && |states| == |steps| + 1 && Start(states[0])
    && (forall k :: 0 <= k < |steps| ==> Enabled(states[k], steps[k]) && states[k + 1] == Apply(states[k], steps[k]))
  }

  lemma {:induction false} RunsAreSafe(states: seq<Schedule>, steps: seq<Step>, k: nat)
    requires IsRun(states, steps) && k < |states|
    ensures Inv(states[k])
  {
    hide Inv, Apply, Enabled, Start;
    if k == 0 {
      StartHolds(states[0]);
    } else {
      RunsAreSafe(states, steps, k - 1);
      StepKeeps(states[k - 1], steps[k - 1]);
    }
  }

  /** In every state of every run a slot is in exactly one place, and free and active slots make up the pool. */
  lemma SlotsAreConserved(states: seq<Schedule>, steps: seq<Step>, k: nat)
    requires IsRun(states, steps) && k < |states|
    ensures SlotInv(states[k])
    ensures |states[k].free| + states[k].active == states[k].slots && states[k].peak <= states[k].slots
  {
    RunsAreSafe(states, steps, k);
  }

  /** The slot that a later stage takes as its k-th carries the k-th frame, and so does the slot it works on. */
  lemma FramesKeepTheirOrder(states: seq<Schedule>, steps: seq<Step>, k: nat, i: nat)
    requires IsRun(states, steps) && k < |states| && i < 3 && !states[k].failed
    ensures |states[k].stages| == 3
    ensures var s := states[k];
            && (s.stages[i].Taking? && i != PRODUCER && Queue(s, i) != [] ==>
               Carries(s.carries, Queue(s, i)[0], s.stages[i].frame))
            && (s.stages[i].Busy? ==> Carries(s.carries, s.stages[i].slot, s.stages[i].frame))
  {
    RunsAreSafe(states, steps, k);
  }

  // ---------------------------------------------------------------- progress

  predicate Done(s: Schedule) {
    forall i :: 0 <= i < |s.stages| ==> s.stages[i].Finished? || s.stages[i].Stopped?
  }

  /** The next activity of a stage that holds a slot; sleeping in the cache ends at the latest with a fallback lease. */
  function NextActivity(stage: nat, activity: Activity): Activity {
    match activity
    case Entered => if stage == CPU then Ended else Leased
    case Asleep(_, _) => Leased
    case Leased => Written
    case _ => Ended
  }

  function ProgressOf(s: Schedule, i: nat): Step
    requires i < |s.stages|
  {
    match s.stages[i]
    case Loading => Arrive(i, true)
    case Waiting => Depart(i)
    case Busy(_, _, Ended) => Pass(i)
    case Busy(_, _, activity) => Work(i, NextActivity(i, activity))
    case _ => Take(i)
  }

  /** What a stage may do at activity `a`; a CPU stage never sleeps, reads or writes in the cache. */
  predicate ActivityFits(stage: nat, activity: Activity) {
    stage == CPU ==> activity.Entered? || activity.Ended?
  }

  lemma ProgressIsEnabled(s: Schedule, i: nat)
    requires i < |s.stages| && !s.stages[i].Finished? && !s.stages[i].Stopped?
    requires s.stages[i].Waiting? ==> s.start || s.failed
    requires s.stages[i].Taking? ==> s.failed || Queue(s, i) != []
    requires s.stages[i].Busy? ==> ActivityFits(i, s.stages[i].activity)
    ensures Enabled(s, ProgressOf(s, i))
  {
  }

  ghost predicate ActivitiesFit(s: Schedule) {
    forall i :: 0 <= i < |s.stages| && s.stages[i].Busy? ==> ActivityFits(i, s.stages[i].activity)
  }

  lemma ActivitiesStayFit(s: Schedule, step: Step)
    requires ActivitiesFit(s) && Enabled(s, step)
    ensures ActivitiesFit(Apply(s, step))
  {
  }

  /** A pipeline that is not done, failed or not, always has a stage that can go on without failing. */
  lemma NeverDeadlocked(s: Schedule) returns (step: Step)
    requires Inv(s) && ActivitiesFit(s) && !Done(s)
    ensures Enabled(s, step) && !step.Fail?
  {
    if s.failed {
      var i :| 0 <= i < |s.stages| && !s.stages[i].Finished? && !s.stages[i].Stopped?;
      ProgressIsEnabled(s, i);
      step := ProgressOf(s, i);
    } else if !s.start {
      step := OpeningStep(s);
    } else {
      var i := UnblockedStage(s);
      ProgressIsEnabled(s, i);
      step := ProgressOf(s, i);
    }
  }

  /** Before the start signal a stage still has to arrive, or the signal can be given. */
  lemma OpeningStep(s: Schedule) returns (step: Step)
    requires Inv(s) && !s.failed && !s.start
    ensures Enabled(s, step) && !step.Fail?
  {
    if s.stages[0].Loading? {
      step := Arrive(0, true);
    } else if s.stages[1].Loading? {
      step := Arrive(1, true);
    } else if s.stages[2].Loading? {
      step := Arrive(2, true);
    } else {
      step := GoAhead;
    }
  }

  predicate Unblocked(s: Schedule, i: nat) {
    && i < |s.stages| && !s.stages[i].Finished? && !s.stages[i].Stopped?
    && (s.stages[i].Taking? ==> Queue(s, i) != [])
  }

  /**
   * If every stage waited for a slot, the pool would be empty; and a stage that waits for finished ones is finished
   * too.
   */
  lemma UnblockedStage(s: Schedule) returns (i: nat)
    requires Inv(s) && !s.failed && s.start && !Done(s)
    ensures Unblocked(s, i)
  {
    if Unblocked(s, 0) {
      i := 0;
    } else if Unblocked(s, 1) {
      i := 1;
    } else {
      i := 2;
      assert StageOk(s, 0) && StageOk(s, 1) && StageOk(s, 2);
    }
  }

  /** What is left to do for one stage. */
  function StageWeight(frames: nat, stage: Stage): nat {
    match stage
    case Loading => 7 * frames + 2
    case Waiting => 7 * frames + 1
    case Taking(frame) => if frame < frames then 7 * (frames - frame) else 0
    case Busy(frame, _, activity) =>
      if frame < frames then 7 * (frames - frame) - 1 - ActivityRank(activity) else 0
    case _ => 0
  }

  function ActivityRank(activity: Activity): nat {
    match activity
    case Entered => 0
    case Asleep(_, _) => 1
    case Leased => 2
    case Written => 3
    case Ended => 4
  }

  function Weight(s: Schedule): nat
    requires |s.stages| == 3
  {
    StageWeight(s.frames, s.stages[0]) + StageWeight(s.frames, s.stages[1]) + StageWeight(s.frames,
      s.stages[2]) + One(!s.start)
  }

  function Patience(stage: Stage): nat {
    match stage
    case Busy(_, _, Asleep(now, deadline)) => if now < deadline then deadline - now else 0
    case _ => 0
  }

  function TotalPatience(s: Schedule): nat
    requires |s.stages| == 3
  {
    Patience(s.stages[0]) + Patience(s.stages[1]) + Patience(s.stages[2])
  }

  /**
   * Every step brings the pipeline closer to its end, lexicographically: less to do, or as much to do and less time to
   * sleep.
   */
  lemma EveryStepCounts(s: Schedule, step: Step)
    requires Inv(s) && Enabled(s, step)
    ensures |Apply(s, step).stages| == 3
    ensures var s' := Apply(s, step);
            Weight(s') < Weight(s) || (Weight(s') == Weight(s) && TotalPatience(s') < TotalPatience(s))
  {
    hide SlotInv, InOrder, Queue, WithQueue, StageOk, Apply, StageWeight, Patience;
    StagesAreOk(s);
    if step.GoAhead? {
      SignalCounts(s);
    } else {
      OneStageCounts(s, step, step.stage);
    }
  }

  lemma StagesAreOk(s: Schedule)
    requires Inv(s)
    ensures |s.stages| == 3 && 0 < s.frames && forall i :: 0 <= i < 3 ==> StageOk(s, i)
  {
    assert StageOk(s, 0) && StageOk(s, 1) && StageOk(s, 2);
  }

  lemma SignalCounts(s: Schedule)
    requires |s.stages| == 3 && Enabled(s, GoAhead)
    ensures |Apply(s, GoAhead).stages| == 3 && Weight(Apply(s, GoAhead)) < Weight(s)
  {
  }

  lemma OneStageCounts(s: Schedule, step: Step, i: nat)
    requires |s.stages| == 3 && i < 3 && StageOk(s, i) && 0 < s.frames && Enabled(s, step) && !step.GoAhead?
             && step.stage == i
    ensures var s' := Apply(s, step);
            && |s'.stages| == 3 && s'.frames == s.frames && s'.start == s.start
            && (forall j :: 0 <= j < 3 && j != i ==> s'.stages[j] == s.stages[j])
            && (StageWeight(s.frames, s'.stages[i]) < StageWeight(s.frames, s.stages[i]) ||
                (StageWeight(s.frames, s'.stages[i]) == StageWeight(s.frames, s.stages[i])
                  && Patience(s'.stages[i]) < Patience(s.stages[i])))
  {
    match step
    case Arrive(_, _) =>
    case Depart(_) =>
    case Take(_) =>
    case Work(_, _) =>
    case Pass(_) =>
    case Fail(_) =>
  }

  /** A pipeline that is done without a failure has completed every frame and has every slot back. */
  lemma DoneMeansComplete(states: seq<Schedule>, steps: seq<Step>, k: nat)
    requires IsRun(states, steps) && k < |states| && Done(states[k]) && !states[k].failed
    ensures states[k].completed == states[k].frames && states[k].active == 0 && |states[k].free| == states[k].slots
  {
    RunsAreSafe(states, steps, k);
    var s := states[k];
    assert StageOk(s, 0) && StageOk(s, 1) && StageOk(s, 2);
    assert s.stages[0].Finished? && s.stages[1].Finished? && s.stages[2].Finished?;
  }
}
