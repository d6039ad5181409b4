/** Calls that run to completion one after another, with restarts between them. Each call is
    its first lock section followed by its task's own steps until nothing is in flight, so
    everything proved of steps holds of calls; this module adds what only serial runs have:
    the recovered key registry, triage verdicts and checkpoints, each characterised exactly. */
module Serial {
  import opened Wrappers
  import opened Counting
  import opened Messages
  import opened Steps
  import opened Census
  import opened Durability
  import opened Partition
  import opened Provenance
  import opened Recovery
  import opened Keys
  import Retry

  // ---- Running calls to completion --------------------------------------------------------

  /** Steps a task still has ahead of it, at most. */
  function Rank(task: Task): nat {
    match task
    case Failing(_) => 3
    case Taking(_, _) => 3
    case Enqueueing(_) => 2
    case Recording(_) => 2
    case Checkpointing(_, _, _) => 2
    case Reviving(_) => 2
    case Annotating(_, _) => 2
    case _ => 1
  }

  /** Runs the tasks in order, each to its end, as one caller would. */
  function Drain(cfg: Config, s: System, now: MessageId -> Instant, draws: MessageId -> real): (s': System)
    ensures s'.tasks == []
    decreases |s.tasks|, if |s.tasks| > 0 then Rank(s.tasks[0]) else 0
  {
    if |s.tasks| == 0 then s else Drain(cfg, Head(cfg, s, now, draws), now, draws)
  }

  /** The clock reading or the draw a task meets: each failed delivery has its own. */
  function Reading(task: Task, of: MessageId -> real): real {
    if task.Failing? then of(task.failed.msg.id) else 0.0
  }

  /** One step of the first task. */
  function Head(cfg: Config, s: System, now: MessageId -> Instant, draws: MessageId -> real): System
    requires |s.tasks| > 0
  {
    var task := s.tasks[0];
    AdvanceTask(cfg, s, 0, Reading(task, now), Reading(task, draws))
  }

  lemma HeadRanksLower(cfg: Config, s: System, now: MessageId -> Instant, draws: MessageId -> real)
    requires |s.tasks| > 0
    ensures var next := Head(cfg, s, now, draws).tasks;
      |next| < |s.tasks| || (|next| == |s.tasks| && Rank(next[0]) < Rank(s.tasks[0]))
  {
  }

  datatype Op =
    | DoEnqueue(msg: Message)
    | DoClaim(reclaimAt: Instant, order: seq<MessageId>, resolveAt: MessageId -> Instant, draws: MessageId -> real,
              promoteAt: Instant, leaseAt: Instant)
    | DoAck(id: MessageId, token: LeaseToken)
    | DoNack(id: MessageId, token: LeaseToken, reason: Option<string>, now: MessageId -> Instant,
             draws: MessageId -> real)
    | DoCheckpoint(id: MessageId, token: LeaseToken, state: Value)
    | DoPublish(id: MessageId, token: LeaseToken, data: Value, isFinal: bool)
    | DoTake(id: MessageId, purpose: Purpose)
    | DoAnnotate(id: MessageId, verdict: TriageVerdict)
    | DoRestart(order: seq<MessageId>)

  /** The first lock section of a call, or the restart itself. */
  function FirstStep(op: Op): Step {
    match op
    case DoEnqueue(msg) => BeginEnqueue(msg)
    case DoClaim(reclaimAt, order, _, _, _, _) => Reclaim(reclaimAt, order)
    case DoAck(id, token) => BeginAck(id, token)
    case DoNack(id, token, reason, _, _) => BeginNack(id, token, reason)
    case DoCheckpoint(id, token, state) => BeginCheckpoint(id, token, state)
    case DoPublish(id, token, data, isFinal) => Publish(id, token, data, isFinal)
    case DoTake(id, purpose) => BeginTake(id, purpose)
    case DoAnnotate(id, verdict) => BeginAnnotate(id, verdict)
    case DoRestart(order) => Crash(order)
  }

  function NoDraws(): MessageId -> real { (_: MessageId) => 0.0 }

  function NoClock(): MessageId -> Instant { (_: MessageId) => 0.0 }

  /** The group after a completed call. */
  ghost function Perform(cfg: Config, s: System, op: Op): System
    requires s.tasks == [] && Enabled(cfg, s, FirstStep(op))
  {
    var s1 := Apply(cfg, s, FirstStep(op));
    match op
    case DoClaim(_, _, resolveAt, draws, promoteAt, leaseAt) =>
      Apply(cfg, Drain(cfg, s1, resolveAt, draws), ClaimNext(promoteAt, leaseAt))
    case DoNack(_, _, _, now, draws) => Drain(cfg, s1, now, draws)
    case _ => Drain(cfg, s1, NoClock(), NoDraws())
  }

  ghost predicate ValidCalls(cfg: Config, ops: seq<Op>)
    decreases |ops|, 0
  {
    |ops| == 0 || (ValidCalls(cfg, ops[..|ops| - 1])
                   && AfterCalls(cfg, ops[..|ops| - 1]).tasks == []
                   && Enabled(cfg, AfterCalls(cfg, ops[..|ops| - 1]), FirstStep(ops[|ops| - 1])))
  }

  /** The group after a run of completed calls and restarts from a fresh start. */
  ghost function AfterCalls(cfg: Config, ops: seq<Op>): System
    requires ValidCalls(cfg, ops)
    decreases |ops|, 1
  {
    if |ops| == 0 then INITIAL else Perform(cfg, AfterCalls(cfg, ops[..|ops| - 1]), ops[|ops| - 1])
  }

  // ---- What every step already keeps -------------------------------------------------------

  ghost predicate Base(s: System) {
    Exact(s) && KeysRegistered(s)
  }

  lemma StepKeepsBase(cfg: Config, s: System, step: Step)
    requires Enabled(cfg, s, step) && !step.Crash? && !step.AppendFails? && Base(s)
    ensures Base(Apply(cfg, s, step))
  {
    TraceableIsWellKeyed(s);
    StepKeepsExact(cfg, s, step);
    StepKeepsRegistered(cfg, s, step);
  }

  lemma HeadKeepsBase(cfg: Config, s: System, now: MessageId -> Instant, draws: MessageId -> real)
    requires |s.tasks| > 0 && Base(s)
    ensures Base(Head(cfg, s, now, draws))
  {
    var task := s.tasks[0];
    StepKeepsBase(cfg, s, Advance(0, Reading(task, now), Reading(task, draws)));
  }

  lemma {:induction false} DrainKeepsBase(cfg: Config, s: System, now: MessageId -> Instant, draws: MessageId -> real)
    requires Base(s)
    ensures Base(Drain(cfg, s, now, draws))
    decreases |s.tasks|, if |s.tasks| > 0 then Rank(s.tasks[0]) else 0
  {
    if |s.tasks| > 0 {
      HeadKeepsBase(cfg, s, now, draws);
      DrainKeepsBase(cfg, Head(cfg, s, now, draws), now, draws);
    }
  }
}
