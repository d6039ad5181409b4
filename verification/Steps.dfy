/** The delivery engine at the granularity at which calls interleave and crashes strike:
    one step per lock section and one step per log append. A call in the middle of its
    work is a task; no lock is held across an append, so any task may move next. */
module Steps {
  import opened Wrappers
  import opened Counting
  import opened Retry
  import opened Messages

  datatype Config = Config(visibilityTimeout: real, policy: RetryPolicy)

  /** A delivery that ended in a nack or an expired lease. */
  datatype Failed = Failed(msg: Message, deliveryCount: nat, checkpoint: Option<Value>, reason: Option<string>)

  datatype Purpose = Reprocess | Purge

  /** Where an unfinished call stands. */
  datatype Task =
    | Enqueueing(msg: Message)             // key reserved, Enqueue record not yet written
    | Enqueued(msg: Message)               // Enqueue record written, not yet in pending
    | Acking(id: MessageId)                // lease and key released, Ack record not yet written
    | Failing(failed: Failed)              // lease released, retry policy not yet applied
    | Recording(letter: DeadLetter)        // in the dead-letter log, not yet in the dead-letter map
    | Burying(id: MessageId)               // in the dead-letter map, DeadLettered record not yet written
    | Checkpointing(id: MessageId, token: LeaseToken, state: Value)  // lease checked, nothing written
    | Checkpointed(id: MessageId, token: LeaseToken, state: Value)   // written, lease not yet updated
    | Taking(letter: DeadLetter, purpose: Purpose)  // out of the dead-letter map, Remove not yet written
    | Reviving(msg: Message)               // Remove written, re-Enqueue not yet written
    | Releasing(msg: Message)              // only the key is left to release
    | Annotating(id: MessageId, verdict: TriageVerdict)
    | Annotated(id: MessageId, verdict: TriageVerdict)

  datatype Resolution = ByAck | ByNack | ByExpiry

  datatype LeaseEvent =
    | Issued(token: LeaseToken, id: MessageId)
    | Resolved(token: LeaseToken, id: MessageId, how: Resolution)

  /** Memory, the two logs, the unfinished calls, and the history the theorems speak about:
      lease events of the running process and of each process before it, every message ever
      created, ids that have left memory (ack accepted, purge finished, or a failed append), ids
      whose purge is durable, ids a crash or a failed append caught between leaving the
      dead-letter log and re-entering the main one, until a restart finds them again, and ids
      re-enqueued without the checkpoint the main log still has for them. */
  datatype System = System(
    mem: Memory,
    main: seq<MainRecord>,
    dlqLog: seq<DlqRecord>,
    tasks: seq<Task>,
    history: seq<LeaseEvent>,
    past: seq<seq<LeaseEvent>>,
    created: map<MessageId, Message>,
    gone: set<MessageId>,
    purged: set<MessageId>,
    gapLost: set<MessageId>,
    stale: set<MessageId>)

  const EMPTY_MEMORY := Memory([], map[], [], map[], map[], 0)
  /** A group opened for the first time. */
  const INITIAL := System(EMPTY_MEMORY, [], [], [], [], [], map[], {}, {}, {}, {})

  datatype Step =
    | BeginEnqueue(msg: Message)
    | BeginAck(id: MessageId, token: LeaseToken)
    | BeginNack(id: MessageId, token: LeaseToken, reason: Option<string>)
    | BeginCheckpoint(id: MessageId, token: LeaseToken, state: Value)
    | Publish(id: MessageId, token: LeaseToken, data: Value, isFinal: bool)
    | Reclaim(now: Instant, order: seq<MessageId>)
    | ClaimNext(promoteAt: Instant, leaseAt: Instant)
    | BeginTake(id: MessageId, purpose: Purpose)
    | BeginAnnotate(id: MessageId, verdict: TriageVerdict)
    | Advance(task: nat, now: Instant, draw: real)
    | AppendFails(task: nat)
    | Crash(order: seq<MessageId>)

  // ---- Lock sections on memory ---------------------------------------------------------

  /** Whether `token` is the token of the lease currently held on `id`. */
  predicate Holds(leased: map<MessageId, Leased>, id: MessageId, token: LeaseToken) {
    id in leased && leased[id].token == token
  }

  /** Takes the lease out of the map, and puts it back when the token is not its own. */
  function RemoveLease(leased: map<MessageId, Leased>, id: MessageId, token: LeaseToken)
    : (Option<Leased>, map<MessageId, Leased>)
  {
    if id !in leased then (None, leased)
    else
      var lease := leased[id];
      var removed := leased - {id};
      if lease.token == token then (Some(lease), removed) else (None, removed[id := lease])
  }

  function Expired(leased: map<MessageId, Leased>, now: Instant): set<MessageId> {
    set id | id in leased && leased[id].expiresAt <= now
  }

  function ToFailed(lease: Leased, reason: Option<string>): Failed {
    Failed(lease.msg, lease.deliveryCount, lease.checkpoint, reason)
  }

  const EXPIRY_REASON := Some("visibility timeout expired")

  /** One failed delivery per expired lease, in the order they were removed. */
  function FailExpired(leased: map<MessageId, Leased>, order: seq<MessageId>): seq<Task>
    requires forall i :: 0 <= i < |order| ==> order[i] in leased
  {
    seq(|order|, i requires 0 <= i < |order| => Failing(ToFailed(leased[order[i]], EXPIRY_REASON)))
  }

  function ExpiryEvents(leased: map<MessageId, Leased>, order: seq<MessageId>): seq<LeaseEvent>
    requires forall i :: 0 <= i < |order| ==> order[i] in leased
  {
    seq(|order|, i requires 0 <= i < |order| => Resolved(leased[order[i]].token, order[i], ByExpiry))
  }

  /** The delayed entries whose backoff has elapsed, ready to be claimed again. */
  function Ready(delayed: seq<Delayed>, now: Instant): seq<Pending> {
    if |delayed| == 0 then []
    else
      var rest := Ready(delayed[..|delayed| - 1], now);
      var last := delayed[|delayed| - 1];
      if last.availableAt <= now then rest + [Pending(last.msg, last.deliveryCount, last.checkpoint)] else rest
  }

  function StillDelayed(delayed: seq<Delayed>, now: Instant): seq<Delayed> {
    if |delayed| == 0 then []
    else
      var rest := StillDelayed(delayed[..|delayed| - 1], now);
      var last := delayed[|delayed| - 1];
      if last.availableAt <= now then rest else rest + [last]
  }

  function PromoteReady(mem: Memory, now: Instant): Memory {
    mem.(pending := mem.pending + Ready(mem.delayed, now), delayed := StillDelayed(mem.delayed, now))
  }

  /** Leases the front of `pending` under a fresh token. */
  function LeaseFront(cfg: Config, mem: Memory, now: Instant): Memory
    requires |mem.pending| > 0
  {
    var front := mem.pending[0];
    mem.(pending := mem.pending[1..],
         leased := mem.leased[front.msg.id :=
           Leased(front.msg, mem.nextToken, now + cfg.visibilityTimeout, front.deliveryCount + 1,
                  front.checkpoint, [])],
         nextToken := mem.nextToken + 1)
  }

  function PublishChunk(mem: Memory, id: MessageId, token: LeaseToken, data: Value, isFinal: bool): Memory {
    if Holds(mem.leased, id, token) then
      var lease := mem.leased[id];
      mem.(leased := mem.leased[id :=
        lease.(stream := lease.stream + [StreamChunk(|lease.stream| + 1, data, isFinal)])])
    else mem
  }

  function StoreCheckpoint(mem: Memory, id: MessageId, token: LeaseToken, state: Value): Memory {
    if Holds(mem.leased, id, token) then
      mem.(leased := mem.leased[id := mem.leased[id].(checkpoint := Some(state))])
    else mem
  }

  function StoreVerdict(mem: Memory, id: MessageId, verdict: TriageVerdict): Memory {
    if id in mem.dlq then mem.(dlq := mem.dlq[id := mem.dlq[id].(triage := Some(verdict))]) else mem
  }

  function ToDeadLetter(f: Failed, now: Instant): DeadLetter {
    DeadLetter(f.msg, f.deliveryCount, f.reason, now, f.checkpoint, None)
  }

  // ---- Steps ---------------------------------------------------------------------------

  predicate AwaitsAppend(cfg: Config, task: Task) {
    match task
    case Failing(f) => IsExhausted(cfg.policy, f.deliveryCount)
    case Enqueueing(_) => true
    case Acking(_) => true
    case Burying(_) => true
    case Checkpointing(_, _, _) => true
    case Taking(_, _) => true
    case Reviving(_) => true
    case Annotating(_, _) => true
    case _ => false
  }

  ghost predicate Enabled(cfg: Config, s: System, step: Step) {
    match step
    case BeginEnqueue(msg) => msg.id !in s.created
    case Reclaim(now, order) => Enumerates(order, Expired(s.mem.leased, now))
    case Advance(t, _, _) => t < |s.tasks|
    case AppendFails(t) => t < |s.tasks| && AwaitsAppend(cfg, s.tasks[t])
    case Crash(order) => Enumerates(order, ReplayDlq(s.dlqLog).Keys)
    case _ => true
  }

  /** Task `t` moves on to `next`, or is done. */
  function Replace(tasks: seq<Task>, t: nat, next: Option<Task>): seq<Task>
    requires t < |tasks|
  {
    if next.Some? then tasks[t := next.value] else Without(tasks, t)
  }

  /** Where a task stands after its next lock section or append. */
  function NextTask(cfg: Config, task: Task, now: Instant): Option<Task> {
    match task
    case Enqueueing(msg) => Some(Enqueued(msg))
    case Failing(f) =>
      if IsExhausted(cfg.policy, f.deliveryCount) then Some(Recording(ToDeadLetter(f, now))) else None
    case Recording(letter) => Some(Burying(letter.msg.id))
    case Checkpointing(id, token, state) => Some(Checkpointed(id, token, state))
    case Taking(letter, Reprocess) => Some(Reviving(letter.msg))
    case Taking(letter, Purge) => Some(Releasing(letter.msg))
    case Reviving(msg) => Some(Enqueued(msg))
    case Annotating(id, verdict) => Some(Annotated(id, verdict))
    case _ => None
  }

  /** What the task appends to the main log. */
  function MainAppend(task: Task): Option<MainRecord> {
    match task
    case Enqueueing(msg) => Some(Enqueue(msg))
    case Reviving(msg) => Some(Enqueue(msg))
    case Acking(id) => Some(Ack(id))
    case Burying(id) => Some(DeadLettered(id))
    case Checkpointing(id, _, state) => Some(Checkpoint(id, state))
    case _ => None
  }

  /** What the task appends to the dead-letter log. */
  function DlqAppend(cfg: Config, task: Task, now: Instant): Option<DlqRecord> {
    match task
    case Failing(f) =>
      if IsExhausted(cfg.policy, f.deliveryCount) then Some(Record(ToDeadLetter(f, now))) else None
    case Taking(letter, _) => Some(Remove(letter.msg.id))
    case Annotating(id, verdict) => Some(Annotate(id, verdict))
    case _ => None
  }

  function Append<A>(log: seq<A>, record: Option<A>): seq<A> {
    if record.Some? then log + [record.value] else log
  }

  /** What the task's lock section does to memory. */
  function Effect(cfg: Config, mem: Memory, task: Task, now: Instant, draw: real): Memory {
    match task
    case Enqueued(msg) => mem.(pending := mem.pending + [Pending(msg, 0, None)])
    case Failing(f) =>
      if IsExhausted(cfg.policy, f.deliveryCount) then mem
      else
        mem.(delayed := mem.delayed
          + [Delayed(f.msg, f.deliveryCount, now + DelayFor(cfg.policy, f.deliveryCount, draw), f.checkpoint)])
    case Recording(letter) => mem.(dlq := mem.dlq[letter.msg.id := letter])
    case Checkpointed(id, token, state) => StoreCheckpoint(mem, id, token, state)
    case Releasing(msg) => mem.(dedup := ReleaseKey(mem.dedup, msg.key))
    case Annotated(id, verdict) => StoreVerdict(mem, id, verdict)
    case _ => mem
  }

  /** The next lock section or append of task `t`, succeeding. */
  function AdvanceTask(cfg: Config, s: System, t: nat, now: Instant, draw: real): System
    requires t < |s.tasks|
  {
    var task := s.tasks[t];
    s.(tasks := Replace(s.tasks, t, NextTask(cfg, task, now)),
       main := Append(s.main, MainAppend(task)),
       dlqLog := Append(s.dlqLog, DlqAppend(cfg, task, now)),
       mem := Effect(cfg, s.mem, task, now, draw),
       purged := if task.Taking? && task.purpose.Purge? then s.purged + {task.letter.msg.id} else s.purged,
       gone := if task.Releasing? then s.gone + {task.msg.id} else s.gone,
       stale := if task.Reviving? && task.msg.id in ReplayMain(s.main).checkpoints then s.stale + {task.msg.id}
                else if task.Checkpointed? && Holds(s.mem.leased, task.id, task.token) then s.stale - {task.id}
                else s.stale)
  }

  /** Where a task stands after the append it waits for returns an error. */
  function AfterFailure(task: Task): Option<Task> {
    if task.Enqueueing? || task.Reviving? then Some(Releasing(task.msg)) else None
  }

  /** The append task `t` waits for returns an error, nothing having been written. */
  function FailTask(s: System, t: nat): System
    requires t < |s.tasks|
  {
    var task := s.tasks[t];
    s.(tasks := Replace(s.tasks, t, AfterFailure(task)),
       gone := if task.Failing? then s.gone + {task.failed.msg.id}
               else if task.Taking? then s.gone + {task.letter.msg.id}
               else s.gone,
       gapLost := if task.Reviving? then s.gapLost + {task.msg.id} else s.gapLost)
  }

  /** The ids whose re-enqueue is under way: off the dead-letter log, not yet back on the main one. */
  function Dangling(tasks: seq<Task>): set<MessageId> {
    set t | 0 <= t < |tasks| && tasks[t].Reviving? :: tasks[t].msg.id
  }

  /** Those of `ids` that neither log replays to anything. */
  function Unrecovered(s: System, ids: set<MessageId>): set<MessageId> {
    set id | id in ids && id !in ReplayDlq(s.dlqLog) && Position(ReplayMain(s.main).pending, id).None?
  }

  /** The task a call leaves behind after its first lock section. */
  function Begun(mem: Memory, step: Step): Option<Task> {
    match step
    case BeginEnqueue(msg) => if Deduplicated(mem, msg) then None else Some(Enqueueing(msg))
    case BeginAck(id, token) => if Holds(mem.leased, id, token) then Some(Acking(id)) else None
    case BeginNack(id, token, reason) =>
      if Holds(mem.leased, id, token) then Some(Failing(ToFailed(mem.leased[id], reason))) else None
    case BeginCheckpoint(id, token, state) =>
      if Holds(mem.leased, id, token) then Some(Checkpointing(id, token, state)) else None
    case BeginTake(id, purpose) => if id in mem.dlq then Some(Taking(mem.dlq[id], purpose)) else None
    case BeginAnnotate(id, verdict) => if id in mem.dlq then Some(Annotating(id, verdict)) else None
    case _ => None
  }

  /** Whether an enqueue finds its key taken, and so returns the id already registered. */
  predicate Deduplicated(mem: Memory, msg: Message) {
    msg.key.Some? && msg.key.value in mem.dedup
  }

  /** What a call's first lock section does to memory. */
  function Section(cfg: Config, mem: Memory, step: Step): Memory {
    match step
    case BeginEnqueue(msg) =>
      if Deduplicated(mem, msg) then mem else mem.(dedup := RegisterKey(mem.dedup, msg.key, msg.id))
    case BeginAck(id, token) =>
      var (found, leased) := RemoveLease(mem.leased, id, token);
      mem.(leased := leased, dedup := if found.Some? then ReleaseKey(mem.dedup, found.value.msg.key) else mem.dedup)
    case BeginNack(id, token, _) => mem.(leased := RemoveLease(mem.leased, id, token).1)
    case Publish(id, token, data, isFinal) => PublishChunk(mem, id, token, data, isFinal)
    case ClaimNext(promoteAt, leaseAt) =>
      var promoted := PromoteReady(mem, promoteAt);
      if |promoted.pending| == 0 then promoted else LeaseFront(cfg, promoted, leaseAt)
    case Reclaim(now, _) => mem.(leased := mem.leased - Expired(mem.leased, now))
    case BeginTake(id, _) => mem.(dlq := mem.dlq - {id})
    case _ => mem
  }

  /** The lease a call's first lock section issues or resolves. */
  function LeaseEvents(mem: Memory, step: Step): seq<LeaseEvent>
    requires step.Reclaim? ==> forall i :: 0 <= i < |step.order| ==> step.order[i] in mem.leased
  {
    match step
    case BeginAck(id, token) => if Holds(mem.leased, id, token) then [Resolved(token, id, ByAck)] else []
    case BeginNack(id, token, _) => if Holds(mem.leased, id, token) then [Resolved(token, id, ByNack)] else []
    case Reclaim(_, order) => ExpiryEvents(mem.leased, order)
    case ClaimNext(promoteAt, _) =>
      var pending := PromoteReady(mem, promoteAt).pending;
      if |pending| == 0 then [] else [Issued(mem.nextToken, pending[0].msg.id)]
    case _ => []
  }

  function CreatedAfter(s: System, step: Step): map<MessageId, Message> {
    if step.BeginEnqueue? && !Deduplicated(s.mem, step.msg) then s.created[step.msg.id := step.msg] else s.created
  }

  function GoneAfter(s: System, step: Step): set<MessageId> {
    if step.BeginAck? && Holds(s.mem.leased, step.id, step.token) then s.gone + {step.id} else s.gone
  }

  function Apply(cfg: Config, s: System, step: Step): System
    requires Enabled(cfg, s, step)
  {
    match step
    case Advance(t, now, draw) => AdvanceTask(cfg, s, t, now, draw)
    case AppendFails(t) => FailTask(s, t)
    case Crash(order) =>
      s.(mem := Recover(s.main, s.dlqLog, order), tasks := [], history := [], past := s.past + [s.history],
         gapLost := Unrecovered(s, s.gapLost + Dangling(s.tasks)), stale := {})
    case Reclaim(now, order) =>
      s.(mem := Section(cfg, s.mem, step),
         tasks := s.tasks + FailExpired(s.mem.leased, order),
         history := s.history + LeaseEvents(s.mem, step))
    case _ =>
      s.(mem := Section(cfg, s.mem, step),
         tasks := Append(s.tasks, Begun(s.mem, step)),
         history := s.history + LeaseEvents(s.mem, step),
         created := CreatedAfter(s, step),
         gone := GoneAfter(s, step))
  }

  // ---- Runs ----------------------------------------------------------------------------

  ghost predicate ValidRun(cfg: Config, s: System, steps: seq<Step>)
    decreases |steps|, 0
  {
    |steps| == 0 || (ValidRun(cfg, s, steps[..|steps| - 1])
                     && Enabled(cfg, Run(cfg, s, steps[..|steps| - 1]), steps[|steps| - 1]))
  }

  ghost function Run(cfg: Config, s: System, steps: seq<Step>): System
    requires ValidRun(cfg, s, steps)
    decreases |steps|, 1
  {
    if |steps| == 0 then s
    else Apply(cfg, Run(cfg, s, steps[..|steps| - 1]), steps[|steps| - 1])
  }
}
