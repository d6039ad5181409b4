/** Idempotency keys under every interleaving of lock sections: each key held by a message
    is registered to that message, so no two messages ever hold the same key. */
module Keys {
  import opened Wrappers
  import opened Counting
  import opened Messages
  import opened Steps
  import opened Census
  import opened Partition

  ghost predicate Registered(dedup: map<IdempotencyKey, MessageId>, msg: Message) {
    msg.key.Some? ==> msg.key.value in dedup && dedup[msg.key.value] == msg.id
  }

  /** The message a task is the place of. */
  function TaskMessage(task: Task): Option<Message> {
    match task
    case Enqueueing(msg) => Some(msg)
    case Enqueued(msg) => Some(msg)
    case Failing(f) => Some(f.msg)
    case Recording(letter) => Some(letter.msg)
    case Taking(letter, _) => Some(letter.msg)
    case Reviving(msg) => Some(msg)
    case Releasing(msg) => Some(msg)
    case _ => None
  }

  ghost predicate MemoryRegistered(dedup: map<IdempotencyKey, MessageId>, mem: Memory) {
    && (forall i :: 0 <= i < |mem.pending| ==> Registered(dedup, mem.pending[i].msg))
    && (forall id :: id in mem.leased ==> Registered(dedup, mem.leased[id].msg))
    && (forall i :: 0 <= i < |mem.delayed| ==> Registered(dedup, mem.delayed[i].msg))
    && (forall id :: id in mem.dlq ==> Registered(dedup, mem.dlq[id].msg))
  }

  ghost predicate TaskRegistered(dedup: map<IdempotencyKey, MessageId>, task: Task) {
    TaskMessage(task).Some? ==> Registered(dedup, TaskMessage(task).value)
  }

  ghost predicate TasksRegistered(dedup: map<IdempotencyKey, MessageId>, tasks: seq<Task>) {
    forall t :: 0 <= t < |tasks| ==> TaskRegistered(dedup, tasks[t])
  }

  ghost predicate KeysRegistered(s: System) {
    MemoryRegistered(s.mem.dedup, s.mem) && TasksRegistered(s.mem.dedup, s.tasks)
  }

  /** Nothing is held for `id`. */
  ghost predicate Absent(mem: Memory, tasks: seq<Task>, id: MessageId) {
    && (forall i :: 0 <= i < |mem.pending| ==> mem.pending[i].msg.id != id)
    && id !in mem.leased
    && (forall i :: 0 <= i < |mem.delayed| ==> mem.delayed[i].msg.id != id)
    && id !in mem.dlq
    && (forall t :: 0 <= t < |tasks| ==> TaskMessage(tasks[t]).Some? ==> TaskMessage(tasks[t]).value.id != id)
  }

  lemma NoPlaceMeansAbsent(s: System, id: MessageId)
    requires Places(s, id) == 0
    ensures Absent(s.mem, s.tasks, id)
  {
    SumZero(s.mem.pending, PendingOf(id));
    SumZero(s.mem.delayed, DelayedOf(id));
    SumZero(s.tasks, PlaceTask(id));
    forall i | 0 <= i < |s.mem.pending| ensures s.mem.pending[i].msg.id != id {
      assert PendingOf(id)(s.mem.pending[i]) == 0;
    }
    forall i | 0 <= i < |s.mem.delayed| ensures s.mem.delayed[i].msg.id != id {
      assert DelayedOf(id)(s.mem.delayed[i]) == 0;
    }
    forall t | 0 <= t < |s.tasks| && TaskMessage(s.tasks[t]).Some?
      ensures TaskMessage(s.tasks[t]).value.id != id
    {
      assert PlaceTask(id)(s.tasks[t]) == 0;
    }
  }

  /** Releasing the key of a message that is nowhere any more disturbs no other holder. */
  lemma ReleaseKeepsRegistered(mem: Memory, tasks: seq<Task>, msg: Message)
    requires MemoryRegistered(mem.dedup, mem) && TasksRegistered(mem.dedup, tasks)
    requires Registered(mem.dedup, msg) && WellKeyed(mem)
    requires Absent(mem, tasks, msg.id)
    ensures MemoryRegistered(ReleaseKey(mem.dedup, msg.key), mem)
    ensures TasksRegistered(ReleaseKey(mem.dedup, msg.key), tasks)
  {
  }

  lemma AdvanceRegistered(cfg: Config, s: System, t: nat, now: Instant, draw: real)
    requires t < |s.tasks| && KeysRegistered(s) && WellKeyed(s.mem) && AllInPlace(s)
    ensures KeysRegistered(AdvanceTask(cfg, s, t, now, draw))
  {
    var task := s.tasks[t];
    var s' := AdvanceTask(cfg, s, t, now, draw);
    assert TaskRegistered(s.mem.dedup, task);
    if task.Releasing? {
      var id := task.msg.id;
      AdvancePlaces(cfg, s, t, now, draw, id);
      assert InPlace(s', id);
      NoPlaceMeansAbsent(s', id);
      ReleaseKeepsRegistered(s.mem, s'.tasks, task.msg);
    } else {
      MoveRegistered(cfg, s.mem, task, now, draw);
    }
  }

  /** Short of a release, moving a task on moves its message along with its registration. */
  lemma MoveRegistered(cfg: Config, mem: Memory, task: Task, now: Instant, draw: real)
    requires MemoryRegistered(mem.dedup, mem) && TaskRegistered(mem.dedup, task) && !task.Releasing?
    ensures var mem' := Effect(cfg, mem, task, now, draw);
      && mem'.dedup == mem.dedup && MemoryRegistered(mem.dedup, mem')
      && (NextTask(cfg, task, now).Some? ==> TaskRegistered(mem.dedup, NextTask(cfg, task, now).value))
  {
  }

  lemma AckRegistered(cfg: Config, s: System, step: Step)
    requires step.BeginAck? && KeysRegistered(s) && WellKeyed(s.mem) && AllInPlace(s)
    ensures KeysRegistered(Apply(cfg, s, step))
  {
    if Holds(s.mem.leased, step.id, step.token) {
      var s' := Apply(cfg, s, step);
      var lease := s.mem.leased[step.id];
      StartPlaces(cfg, s, step, step.id);
      NoPlaceMeansAbsent(s', step.id);
      ReleaseKeepsRegistered(s.mem.(leased := s'.mem.leased), s'.tasks, lease.msg);
    } else {
      assert RemoveLease(s.mem.leased, step.id, step.token).1 == s.mem.leased;
    }
  }

  lemma {:induction false} ReadyRegistered(dedup: map<IdempotencyKey, MessageId>, delayed: seq<Delayed>, now: Instant)
    requires forall i :: 0 <= i < |delayed| ==> Registered(dedup, delayed[i].msg)
    ensures forall i :: 0 <= i < |Ready(delayed, now)| ==> Registered(dedup, Ready(delayed, now)[i].msg)
    ensures forall i :: 0 <= i < |StillDelayed(delayed, now)| ==> Registered(dedup, StillDelayed(delayed, now)[i].msg)
  {
    if |delayed| > 0 {
      ReadyRegistered(dedup, delayed[..|delayed| - 1], now);
      assert Registered(dedup, delayed[|delayed| - 1].msg);
    }
  }

  /** Reserving a key no one holds cannot unregister anyone. */
  lemma ReserveRegistered(mem: Memory, tasks: seq<Task>, msg: Message)
    requires MemoryRegistered(mem.dedup, mem) && TasksRegistered(mem.dedup, tasks) && !Deduplicated(mem, msg)
    ensures var dedup := RegisterKey(mem.dedup, msg.key, msg.id);
      MemoryRegistered(dedup, mem) && TasksRegistered(dedup, tasks) && Registered(dedup, msg)
  {
  }

  lemma SectionRegistered(cfg: Config, mem: Memory, step: Step)
    requires MemoryRegistered(mem.dedup, mem) && !step.BeginAck? && !step.BeginEnqueue?
    ensures var mem' := Section(cfg, mem, step);
      && mem'.dedup == mem.dedup && MemoryRegistered(mem.dedup, mem')
      && (Begun(mem, step).Some? ==> TaskRegistered(mem.dedup, Begun(mem, step).value))
  {
    if step.ClaimNext? { ReadyRegistered(mem.dedup, mem.delayed, step.promoteAt); }
  }

  /** Every step short of a crash keeps every held key registered to its holder. */
  lemma StepKeepsRegistered(cfg: Config, s: System, step: Step)
    requires Enabled(cfg, s, step) && !step.Crash?
    requires KeysRegistered(s) && WellKeyed(s.mem) && AllInPlace(s)
    ensures KeysRegistered(Apply(cfg, s, step))
  {
    match step
    case Advance(t, now, draw) => AdvanceRegistered(cfg, s, t, now, draw);
    case AppendFails(t) => assert TaskRegistered(s.mem.dedup, s.tasks[t]);
    case BeginAck(_, _) => AckRegistered(cfg, s, step);
    case BeginEnqueue(msg) => if !Deduplicated(s.mem, msg) { ReserveRegistered(s.mem, s.tasks, msg); }
    case _ => SectionRegistered(cfg, s.mem, step);
  }

  lemma {:induction false} RunKeepsRegistered(cfg: Config, steps: seq<Step>)
    requires ValidRun(cfg, INITIAL, steps) && CrashFree(steps)
    ensures var s := Run(cfg, INITIAL, steps);
      KeysRegistered(s) && WellKeyed(s.mem) && AllInPlace(s)
    decreases |steps|
  {
    RunKeepsPlaces(cfg, steps);
    if |steps| > 0 {
      var front := steps[..|steps| - 1];
      RunKeepsRegistered(cfg, front);
      StepKeepsRegistered(cfg, Run(cfg, INITIAL, front), steps[|steps| - 1]);
    }
  }

  // ---- Uniqueness ---------------------------------------------------------------------------

  /** The message found at a location. */
  function MessageAt(s: System, place: Location): (msg: Option<Message>) {
    match place
    case InPending(i) => if i < |s.mem.pending| then Some(s.mem.pending[i].msg) else None
    case InLeased(id) => if id in s.mem.leased then Some(s.mem.leased[id].msg) else None
    case InDelayed(i) => if i < |s.mem.delayed| then Some(s.mem.delayed[i].msg) else None
    case InDlq(id) => if id in s.mem.dlq then Some(s.mem.dlq[id].msg) else None
    case InTask(t) => if t < |s.tasks| then TaskMessage(s.tasks[t]) else None
  }

  ghost predicate HoldsKey(s: System, place: Location, key: IdempotencyKey) {
    MessageAt(s, place).Some? && MessageAt(s, place).value.key == Some(key)
  }

  /** At any moment of any crash-free run, at most one place in the whole group holds a key,
      and the key is registered to the message there. */
  lemma KeyHasOneHolder(cfg: Config, steps: seq<Step>, key: IdempotencyKey)
    requires ValidRun(cfg, INITIAL, steps) && CrashFree(steps)
    ensures var s := Run(cfg, INITIAL, steps);
      && (forall p :: HoldsKey(s, p, key) ==> key in s.mem.dedup && s.mem.dedup[key] == MessageAt(s, p).value.id)
      && (forall p, q :: HoldsKey(s, p, key) && HoldsKey(s, q, key) ==> p == q)
  {
    var s := Run(cfg, INITIAL, steps);
    RunKeepsRegistered(cfg, steps);
    forall p | HoldsKey(s, p, key)
      ensures key in s.mem.dedup && s.mem.dedup[key] == MessageAt(s, p).value.id
      ensures At(s, p, s.mem.dedup[key])
    {
      if p.InTask? { assert TaskRegistered(s.mem.dedup, s.tasks[p.at]); }
    }
    forall p, q | HoldsKey(s, p, key) && HoldsKey(s, q, key)
      ensures p == q
    {
      EveryMessageIsSomewhereOnce(cfg, steps, s.mem.dedup[key]);
      assert At(s, p, s.mem.dedup[key]) && At(s, q, s.mem.dedup[key]);
    }
  }

  // ---- Creations and releases balance --------------------------------------------------------

  /** Whether the step creates a message under `key`. */
  predicate Creates(s: System, step: Step, key: IdempotencyKey) {
    step.BeginEnqueue? && !Deduplicated(s.mem, step.msg) && step.msg.key == Some(key)
  }

  /** Whether the step ends the life of a message that held `key`. */
  predicate Releases(s: System, step: Step, key: IdempotencyKey) {
    || (step.BeginAck? && Holds(s.mem.leased, step.id, step.token) && s.mem.leased[step.id].msg.key == Some(key))
    || (step.Advance? && step.task < |s.tasks| && s.tasks[step.task].Releasing?
        && s.tasks[step.task].msg.key == Some(key))
  }

  ghost function Creations(cfg: Config, steps: seq<Step>, key: IdempotencyKey): nat
    requires ValidRun(cfg, INITIAL, steps)
  {
    if |steps| == 0 then 0
    else
      var front := steps[..|steps| - 1];
      Creations(cfg, front, key) + One(Creates(Run(cfg, INITIAL, front), steps[|steps| - 1], key))
  }

  ghost function KeyReleases(cfg: Config, steps: seq<Step>, key: IdempotencyKey): nat
    requires ValidRun(cfg, INITIAL, steps)
  {
    if |steps| == 0 then 0
    else
      var front := steps[..|steps| - 1];
      KeyReleases(cfg, front, key) + One(Releases(Run(cfg, INITIAL, front), steps[|steps| - 1], key))
  }

  lemma StepBalancesKey(cfg: Config, s: System, step: Step, key: IdempotencyKey)
    requires Enabled(cfg, s, step) && !step.Crash? && KeysRegistered(s)
    ensures One(key in Apply(cfg, s, step).mem.dedup) + One(Releases(s, step, key))
         == One(key in s.mem.dedup) + One(Creates(s, step, key))
  {
    match step
    case Advance(t, now, draw) => assert TaskRegistered(s.mem.dedup, s.tasks[t]);
    case _ =>
  }

  /** However many enqueues race on one key, the messages created under it exceed the messages
      released from it by at most one: exactly one while the key is registered, none otherwise. */
  lemma {:induction false} CreationsMatchReleases(cfg: Config, steps: seq<Step>, key: IdempotencyKey)
    requires ValidRun(cfg, INITIAL, steps) && CrashFree(steps)
    ensures Creations(cfg, steps, key) == KeyReleases(cfg, steps, key) + One(key in Run(cfg, INITIAL, steps).mem.dedup)
    decreases |steps|
  {
    if |steps| > 0 {
      var front := steps[..|steps| - 1];
      CreationsMatchReleases(cfg, front, key);
      RunKeepsRegistered(cfg, front);
      StepBalancesKey(cfg, Run(cfg, INITIAL, front), steps[|steps| - 1], key);
    }
  }
}
