/**
 * The three-stage pipeline over a bounded pool of slots, as a transition system: the queues and counters
 * of the scheduler, and one program counter per stage. What a stage does between taking and passing a
 * slot is a sequence of activities that may sleep in the cache and may fail at any point.
 */
module PipelineSchedule {
  import opened Counting
  import opened GpuTypes

  datatype Activity = Entered | Asleep(now: int, deadline: int) | Leased | Written | Ended

  datatype Stage =
    | Loading
    | Waiting
    | Taking(frame: nat)
    | Busy(frame: nat, slot: nat, activity: Activity)
    | Finished
    // A stage that gave up; it may have been holding a slot.
    | Stopped(held: Option<nat>)

  const PRODUCER: nat := 0
  const CPU: nat := 1
  const CONSUMER: nat := 2

  datatype Schedule = Schedule(
    frames: nat, slots: nat,
    free: seq<nat>, cpuQueue: seq<nat>, consumerQueue: seq<nat>,
    ready: nat, active: nat, peak: nat, start: bool, failed: bool, completed: nat,
    stages: seq<Stage>,
    // The frame that each slot's atom holds.
    carries: seq<nat>)

  datatype Step =
    | Arrive(stage: nat, loaded: bool)
    | GoAhead
    | Depart(stage: nat)
    | Take(stage: nat)
    | Work(stage: nat, activity: Activity)
    | Pass(stage: nat)
    | Fail(stage: nat)

  function Queue(s: Schedule, stage: nat): seq<nat> {
    if stage == PRODUCER then s.free else if stage == CPU then s.cpuQueue else s.consumerQueue
  }

  function WithQueue(s: Schedule, stage: nat, queue: seq<nat>): Schedule {
    if stage == PRODUCER then s.(free := queue)
    else if stage == CPU then s.(cpuQueue := queue)
    else s.(consumerQueue := queue)
  }

  /** The stage that receives what `stage` passes on. */
  function Target(stage: nat): nat {
    if stage == PRODUCER then CPU else if stage == CPU then CONSUMER else PRODUCER
  }

  /** The activities go forward; only a sleep may follow a sleep, later and still before the deadline. */
  predicate Follows(stage: nat, from: Activity, to: Activity) {
    match to
    case Entered => false
    case Asleep(now, deadline) =>
      stage != CPU && now < deadline && (from.Entered? || (from.Asleep? && deadline == from.deadline && from.now < now))
    case Leased => stage != CPU && (from.Entered? || from.Asleep?)
    case Written => stage != CPU && from.Leased?
    case Ended => if stage == CPU then from.Entered? else from.Written?
  }

  predicate Enabled(s: Schedule, step: Step) {
    match step
    case Arrive(i, loaded) => i < |s.stages| && s.stages[i].Loading?
    case GoAhead => !s.start && (s.ready == 3 || s.failed)
    case Depart(i) => i < |s.stages| && s.stages[i].Waiting? && (s.start || s.failed)
    case Take(i) => i < |s.stages| && s.stages[i].Taking? && (s.failed || Queue(s, i) != [])
    case Work(i, activity) => i < |s.stages| && s.stages[i].Busy? && Follows(i, s.stages[i].activity, activity)
    case Pass(i) => i < |s.stages| && s.stages[i].Busy? && s.stages[i].activity.Ended?
    case Fail(i) => i < |s.stages| && s.stages[i].Busy?
  }

  /** The stage is about to take its next frame, or has seen them all. */
  function Next(frames: nat, frame: nat): Stage {
    if frame < frames then Taking(frame) else Finished
  }

  function Apply(s: Schedule, step: Step): Schedule
    requires Enabled(s, step)
  {
    match step
    case Arrive(i, loaded) => s.(ready := s.ready + 1, failed := s.failed || !loaded, stages := s.stages[i := Waiting])
    case GoAhead => s.(start := true)
    case Depart(i) => s.(stages := s.stages[i := if s.failed then Stopped(None) else Next(s.frames, 0)])
    case Take(i) =>
      if s.failed then s.(stages := s.stages[i := Stopped(None)])
      else
        var slot, frame := Queue(s, i)[0], s.stages[i].frame;
        var s1 := WithQueue(s, i, Queue(s, i)[1..]).(stages := s.stages[i := Busy(frame, slot, Entered)]);
        if i != PRODUCER then s1
        else
          s1.(active := s.active + 1, peak := if s.peak < s.active + 1 then s.active + 1 else s.peak,
              carries := if slot < |s.carries| then s.carries[slot := frame] else s.carries)
    case Work(i, activity) => s.(stages := s.stages[i := s.stages[i].(activity := activity)])
    case Pass(i) =>
      var slot, frame := s.stages[i].slot, s.stages[i].frame;
      var stages := s.stages[i := Next(s.frames, frame + 1)];
      var s1 := WithQueue(s, Target(i), Queue(s, Target(i)) + [slot]).(stages := stages);
      if i != CONSUMER then s1
      else s1.(active := if s.active > 0 then s.active - 1 else 0, completed := s.completed + 1)
    case Fail(i) => s.(failed := true, stages := s.stages[i := Stopped(Some(s.stages[i].slot))])
  }

  /** Fresh: every slot free, every stage loading. */
  ghost predicate Start(s: Schedule) {
    && s.frames > 0 && 0 < s.slots <= s.frames && |s.stages| == 3 && (forall i :: 0 <= i < 3 ==> s.stages[i].Loading?)
    && |s.free| == s.slots && (forall i :: 0 <= i < s.slots ==> s.free[i] == i)
    && s.cpuQueue == [] && s.consumerQueue == [] && |s.carries| == s.slots
    && s.ready == s.active == s.peak == s.completed == 0 && !s.start && !s.failed
  }

  // ---------------------------------------------------------------- slots

  function Holds(stage: Stage): Option<nat> {
    match stage
    case Busy(_, slot, _) => Some(slot)
    case Stopped(held) => held
    case _ => None
  }

  /** The number of slots out of the queues. */
  function Held(stages: seq<Stage>): nat
    requires |stages| == 3
  {
    One(Holds(stages[0]).Some?) + One(Holds(stages[1]).Some?) + One(Holds(stages[2]).Some?)
  }

  /** No slot is in two queues, twice in one, or in a queue and in a stage's hands. */
  ghost predicate SlotsApart(s: Schedule) {
    && |s.stages| == 3
    && Distinct(s.free) && Distinct(s.cpuQueue) && Distinct(s.consumerQueue)
    && (forall x :: x in s.free ==> x < s.slots && x !in s.cpuQueue && x !in s.consumerQueue)
    && (forall x :: x in s.cpuQueue ==> x < s.slots && x !in s.consumerQueue)
    && (forall x :: x in s.consumerQueue ==> x < s.slots)
    && (forall i :: 0 <= i < 3 && Holds(s.stages[i]).Some? ==>
          var x := Holds(s.stages[i]).value; x < s.slots && x !in s.free && x !in s.cpuQueue && x !in s.consumerQueue)
    && (forall i, j :: 0 <= i < j < 3 && Holds(s.stages[i]).Some? && Holds(s.stages[j]).Some? ==>
          Holds(s.stages[i]).value != Holds(s.stages[j]).value)
  }

  ghost predicate SlotsCounted(s: Schedule) {
    && |s.stages| == 3 && |s.carries| == s.slots
    && |s.free| + |s.cpuQueue| + |s.consumerQueue| + Held(s.stages) == s.slots
    && s.active == |s.cpuQueue| + |s.consumerQueue| + Held(s.stages)
    && s.peak <= s.slots
  }

  /** Every slot is in exactly one queue, once, or held by exactly one stage. */
  ghost predicate SlotInv(s: Schedule) {
    SlotsApart(s) && SlotsCounted(s)
  }

  // ---------------------------------------------------------------- frames

  /** How many frames a stage has taken, and how many it has passed on. */
  function Taken(s: Schedule, i: nat): nat
    requires i < |s.stages|
  {
    match s.stages[i]
    case Taking(frame) => frame
    case Busy(frame, _, _) => frame + 1
    case Finished => s.frames
    case _ => 0
  }

  function Passed(s: Schedule, i: nat): nat
    requires i < |s.stages|
  {
    match s.stages[i]
    case Taking(frame) => frame
    case Busy(frame, _, _) => frame
    case Finished => s.frames
    case _ => 0
  }

  /** A slot holds the given frame. */
  ghost predicate Carries(carries: seq<nat>, slot: nat, frame: nat) {
    slot < |carries| && carries[slot] == frame
  }

  /** The queue holds consecutive frames, starting with `from`. */
  ghost predicate InOrder(carries: seq<nat>, queue: seq<nat>, from: nat) {
    forall k :: 0 <= k < |queue| ==> Carries(carries, queue[k], from + k)
  }

  ghost predicate StageOk(s: Schedule, i: nat)
    requires i < |s.stages|
  {
    match s.stages[i]
    case Taking(frame) => frame < s.frames
    case Busy(frame, slot, _) => frame < s.frames && (!s.failed ==> Carries(s.carries, slot, frame))
    case Stopped(_) => s.failed
    case _ => true
  }

  /** While nothing has failed, each queue holds consecutive frames in order, the next one to be taken first. */
  ghost predicate FifoInv(s: Schedule) {
    && |s.stages| == 3 && StageOk(s, 0) && StageOk(s, 1) && StageOk(s, 2)
    && (!s.failed ==>
          && |s.cpuQueue| == Passed(s, PRODUCER) - Taken(s, CPU)
          && |s.consumerQueue| == Passed(s, CPU) - Taken(s, CONSUMER)
          && InOrder(s.carries, s.cpuQueue, Taken(s, CPU))
          && InOrder(s.carries, s.consumerQueue, Taken(s, CONSUMER))
          && s.completed == Passed(s, CONSUMER))
  }

  ghost predicate StartInv(s: Schedule) {
    && |s.stages| == 3 && 0 < s.slots <= s.frames
    && s.ready == Arrived(s.stages)
    && (!s.start && !s.failed ==> forall i :: 0 <= i < 3 ==> s.stages[i].Loading? || s.stages[i].Waiting?)
    && (s.start ==> s.ready == 3 || s.failed)
  }

  function Arrived(stages: seq<Stage>): nat
    requires |stages| == 3
  {
    One(!stages[0].Loading?) + One(!stages[1].Loading?) + One(!stages[2].Loading?)
  }

  ghost predicate Inv(s: Schedule) {
    SlotInv(s) && FifoInv(s) && StartInv(s)
  }
}
