/** No message is lost to a crash at any step: the main log always replays to at least the
    copies that are live, and a logged message with no Ack and no purge is always in one of
    the two logs' replays. */
module Durability {
  import opened Wrappers
  import opened Counting
  import Retry
  import opened Messages
  import opened Steps
  import opened Census
  import opened Provenance

  /** Tasks holding a copy that the main log still replays. */
  function CopyTask(id: MessageId): Task -> nat {
    (task: Task) =>
      match task
      case Enqueued(msg) => One(msg.id == id)
      case Acking(gone) => One(gone == id)
      case Failing(f) => One(f.msg.id == id)
      case Recording(letter) => One(letter.msg.id == id)
      case Burying(gone) => One(gone == id)
      case _ => 0
  }

  /** Copies in memory, and removals not yet logged. */
  function LiveCopies(s: System, id: MessageId): nat {
    Held(s.mem, id) + Sum(s.tasks, CopyTask(id))
  }

  /** Copies the main log would replay. */
  function LoggedCopies(s: System, id: MessageId): nat {
    Sum(ReplayMain(s.main).pending, PendingOf(id))
  }

  /** A claim that replaces a lease already held on the same id. */
  predicate Overwrites(mem: Memory, step: Step) {
    step.ClaimNext? &&
    var pending := PromoteReady(mem, step.promoteAt).pending;
    |pending| > 0 && pending[0].msg.id in mem.leased
  }

  /** How an append changes the replayed copies of `id`, there being at least one to remove. */
  function LogGain(record: Option<MainRecord>, id: MessageId): int {
    match record
    case Some(Enqueue(msg)) => One(msg.id == id)
    case Some(Ack(gone)) => 0 - One(gone == id)
    case Some(DeadLettered(gone)) => 0 - One(gone == id)
    case _ => 0
  }

  /** How a task's lock section changes the held copies of `id`. */
  function HeldGain(cfg: Config, task: Task, id: MessageId): nat {
    match task
    case Enqueued(msg) => One(msg.id == id)
    case Failing(f) => if Retry.IsExhausted(cfg.policy, f.deliveryCount) then 0 else One(f.msg.id == id)
    case _ => 0
  }

  lemma LogCopies(main: seq<MainRecord>, record: Option<MainRecord>, id: MessageId)
    requires LogGain(record, id) < 0 ==> Sum(ReplayMain(main).pending, PendingOf(id)) > 0
    ensures Sum(ReplayMain(Append(main, record)).pending, PendingOf(id))
         == Sum(ReplayMain(main).pending, PendingOf(id)) + LogGain(record, id)
  {
    if record.Some? {
      var before := ReplayMain(main).pending;
      ReplayMainAppend(main, record.value);
      PositionCount(before, id);
      match record.value
      case Enqueue(msg) => SumAppend(before, Pending(msg, 0, None), PendingOf(id));
      case Checkpoint(_, _) =>
      case Ack(gone) => RemoveFirstCount(before, gone, id);
      case DeadLettered(gone) => RemoveFirstCount(before, gone, id);
    }
  }

  lemma EffectCopies(cfg: Config, mem: Memory, task: Task, now: Instant, draw: real, id: MessageId)
    ensures Held(Effect(cfg, mem, task, now, draw), id) == Held(mem, id) + HeldGain(cfg, task, id)
  {
    var mem' := Effect(cfg, mem, task, now, draw);
    if task.Enqueued? {
      SumAppend(mem.pending, Pending(task.msg, 0, None), PendingOf(id));
    } else if |mem'.delayed| != |mem.delayed| {
      SumAppend(mem.delayed, mem'.delayed[|mem.delayed|], DelayedOf(id));
    }
  }

  /** The balance of one task: what it gives up, memory or the log takes. */
  lemma TaskBalance(cfg: Config, task: Task, now: Instant, id: MessageId)
    ensures WeightOf(CopyTask(id), NextTask(cfg, task, now)) + HeldGain(cfg, task, id)
         == CopyTask(id)(task) + LogGain(MainAppend(task), id)
  {
  }

  lemma AdvanceCopies(cfg: Config, s: System, t: nat, now: Instant, draw: real, id: MessageId)
    requires t < |s.tasks|
    requires LiveCopies(s, id) <= LoggedCopies(s, id)
    ensures var s' := AdvanceTask(cfg, s, t, now, draw);
      LoggedCopies(s', id) - LiveCopies(s', id) == LoggedCopies(s, id) - LiveCopies(s, id)
  {
    var task := s.tasks[t];
    var next := NextTask(cfg, task, now);
    var w := CopyTask(id);
    var record := MainAppend(task);
    TaskBalance(cfg, task, now, id);
    ReplaceCount(s.tasks, t, next, w);
    EffectCopies(cfg, s.mem, task, now, draw, id);
    SumAt(s.tasks, t, w);
    LogCopies(s.main, record, id);
  }

  lemma FailCopies(s: System, t: nat, id: MessageId)
    requires t < |s.tasks|
    ensures LiveCopies(FailTask(s, t), id) <= LiveCopies(s, id)
  {
    ReplaceCount(s.tasks, t, AfterFailure(s.tasks[t]), CopyTask(id));
  }

  lemma ReclaimCopies(cfg: Config, s: System, step: Step, id: MessageId)
    requires step.Reclaim? && Enabled(cfg, s, step) && WellKeyed(s.mem)
    ensures LiveCopies(Apply(cfg, s, step), id) == LiveCopies(s, id)
  {
    var failing := FailExpired(s.mem.leased, step.order);
    FailExpiredCount(s.mem.leased, step.order, id, CopyTask(id), 1);
    SumConcat(s.tasks, failing, CopyTask(id));
  }

  /** What a starting call takes out of memory, its task holds. */
  lemma SectionCopies(cfg: Config, mem: Memory, step: Step, id: MessageId)
    requires Starts(step) && WellKeyed(mem) && !step.ClaimNext?
    ensures Held(Section(cfg, mem, step), id) + WeightOf(CopyTask(id), Begun(mem, step)) == Held(mem, id)
  {
  }

  lemma ClaimCopies(cfg: Config, mem: Memory, step: Step, id: MessageId)
    requires step.ClaimNext?
    ensures Held(Section(cfg, mem, step), id) <= Held(mem, id)
    ensures !Overwrites(mem, step) ==> Held(Section(cfg, mem, step), id) == Held(mem, id)
  {
    var promoted := PromoteReady(mem, step.promoteAt);
    PromoteKeepsHeld(mem, step.promoteAt, id);
    if |promoted.pending| > 0 { LeaseFrontHeld(cfg, promoted, step.leaseAt, id); }
  }

  lemma StartCopies(cfg: Config, s: System, step: Step, id: MessageId)
    requires Starts(step) && Enabled(cfg, s, step) && WellKeyed(s.mem)
    ensures var s' := Apply(cfg, s, step);
      LiveCopies(s', id) <= LiveCopies(s, id) && (!Overwrites(s.mem, step) ==> LiveCopies(s', id) == LiveCopies(s, id))
  {
    BegunCount(s.tasks, Begun(s.mem, step), CopyTask(id));
    if step.ClaimNext? { ClaimCopies(cfg, s.mem, step, id); } else { SectionCopies(cfg, s.mem, step, id); }
  }

  /** Every step keeps the live copies of an id within the copies the log replays. Short of
      a crash, a failed append and an overwritten lease, it keeps the difference itself. */
  lemma StepKeepsCopies(cfg: Config, s: System, step: Step, id: MessageId)
    requires WellKeyed(s.mem) && Enabled(cfg, s, step)
    requires LiveCopies(s, id) <= LoggedCopies(s, id)
    ensures var s' := Apply(cfg, s, step);
      && LiveCopies(s', id) <= LoggedCopies(s', id)
      && (!step.Crash? && !step.AppendFails? && !Overwrites(s.mem, step) ==>
          LoggedCopies(s', id) - LiveCopies(s', id) == LoggedCopies(s, id) - LiveCopies(s, id))
  {
    match step
    case Advance(t, now, draw) => AdvanceCopies(cfg, s, t, now, draw, id);
    case AppendFails(t) => FailCopies(s, t, id);
    case Reclaim(_, _) => ReclaimCopies(cfg, s, step, id);
    case Crash(order) => RecoverHeld(s.main, s.dlqLog, order, id);
    case _ => StartCopies(cfg, s, step, id);
  }

  // ---- Nothing logged is lost ----------------------------------------------------------

  /** Dead-lettering under way: recorded in the dead-letter log, DeadLettered not yet written. */
  function BuriedTask(id: MessageId): Task -> nat {
    (task: Task) =>
      match task
      case Recording(letter) => One(letter.msg.id == id)
      case Burying(gone) => One(gone == id)
      case _ => 0
  }

  /** In the gap of a reprocess: Remove written, re-Enqueue not yet written. */
  function GapTask(id: MessageId): Task -> nat {
    (task: Task) => if task.Reviving? then One(task.msg.id == id) else 0
  }

  ghost predicate Logged(main: seq<MainRecord>, id: MessageId) {
    exists i :: 0 <= i < |main| && main[i].Enqueue? && main[i].msg.id == id
  }

  /** The message was acknowledged or purged, on record. */
  ghost predicate Discharged(s: System, id: MessageId) {
    Ack(id) in s.main || id in s.purged
  }

  /** Something durable still answers for `id`, or a reprocess caught it in its gap. */
  ghost predicate Accounted(s: System, id: MessageId) {
    || Discharged(s, id)
    || id in s.gapLost
    || id in ReplayDlq(s.dlqLog)
    || Sum(s.tasks, GapTask(id)) > 0
    || LoggedCopies(s, id) > Sum(s.tasks, BuriedTask(id))
  }

  ghost predicate NoLoss(s: System, id: MessageId) {
    LiveCopies(s, id) <= LoggedCopies(s, id) && (Logged(s.main, id) ==> Accounted(s, id))
  }

  lemma {:induction false} BuriedWithinCopies(tasks: seq<Task>, id: MessageId)
    ensures Sum(tasks, BuriedTask(id)) <= Sum(tasks, CopyTask(id))
  {
    if |tasks| > 0 {
      BuriedWithinCopies(tasks[..|tasks| - 1], id);
    }
  }

  lemma DlqMembership(log: seq<DlqRecord>, record: Option<DlqRecord>, id: MessageId)
    ensures id in ReplayDlq(Append(log, record)) <==>
      match record
      case Some(Record(letter)) => letter.msg.id == id || id in ReplayDlq(log)
      case Some(Remove(gone)) => gone != id && id in ReplayDlq(log)
      case _ => id in ReplayDlq(log)
  {
    if record.Some? { ReplayDlqAppend(log, record.value); }
  }

  lemma LoggedAppend(main: seq<MainRecord>, record: Option<MainRecord>, id: MessageId)
    ensures Logged(Append(main, record), id) <==>
      Logged(main, id) || (record.Some? && record.value.Enqueue? && record.value.msg.id == id)
  {
    if record.Some? {
      var main' := main + [record.value];
      assert forall i :: 0 <= i < |main| ==> main'[i] == main[i];
      assert main'[|main|] == record.value;
    }
  }

  /** What one task's move means for `id`: it settles the account, or it leaves the
      balance between replayed copies and unfinished burials alone. */
  lemma TaskAccount(cfg: Config, task: Task, now: Instant, id: MessageId)
    ensures var next := NextTask(cfg, task, now);
      || (MainAppend(task).Some? && MainAppend(task).value == Ack(id))
      || (DlqAppend(cfg, task, now).Some? && DlqAppend(cfg, task, now).value.Record?
          && DlqAppend(cfg, task, now).value.letter.msg.id == id)
      || (task.Taking? && task.letter.msg.id == id)
      || (LogGain(MainAppend(task), id) == 1
          && WeightOf(BuriedTask(id), next) == BuriedTask(id)(task))
      || (&& LogGain(MainAppend(task), id) == WeightOf(BuriedTask(id), next) - BuriedTask(id)(task)
          && WeightOf(GapTask(id), next) == GapTask(id)(task)
          && !(MainAppend(task).Some? && MainAppend(task).value.Enqueue? && MainAppend(task).value.msg.id == id)
          && !(DlqAppend(cfg, task, now).Some? && DlqAppend(cfg, task, now).value == Remove(id)))
  {
  }

  lemma AdvanceAccounted(cfg: Config, s: System, t: nat, now: Instant, draw: real, id: MessageId)
    requires t < |s.tasks| && NoLoss(s, id)
    ensures var s' := AdvanceTask(cfg, s, t, now, draw);
      Logged(s'.main, id) ==> Accounted(s', id)
  {
    var task := s.tasks[t];
    var next := NextTask(cfg, task, now);
    var s' := AdvanceTask(cfg, s, t, now, draw);
    TaskAccount(cfg, task, now, id);
    DlqMembership(s.dlqLog, DlqAppend(cfg, task, now), id);
    if MainAppend(task).Some? && MainAppend(task).value == Ack(id) {
      assert s'.main[|s.main|] == Ack(id);
    } else if task.Taking? && task.letter.msg.id == id {
      ReplaceCount(s.tasks, t, next, GapTask(id));
      SumAt(s'.tasks, t, GapTask(id));
    } else if !Accounted(s', id) {
      BuriedWithinCopies(s.tasks, id);
      SumAt(s.tasks, t, CopyTask(id));
      SumAt(s.tasks, t, BuriedTask(id));
      LoggedAppend(s.main, MainAppend(task), id);
      LogCopies(s.main, MainAppend(task), id);
      ReplaceCount(s.tasks, t, next, GapTask(id));
      ReplaceCount(s.tasks, t, next, BuriedTask(id));
    }
  }

  lemma FailAccounted(s: System, t: nat, id: MessageId)
    requires t < |s.tasks| && NoLoss(s, id)
    ensures Logged(s.main, id) ==> Accounted(FailTask(s, t), id)
  {
    ReplaceCount(s.tasks, t, AfterFailure(s.tasks[t]), GapTask(id));
    ReplaceCount(s.tasks, t, AfterFailure(s.tasks[t]), BuriedTask(id));
  }

  lemma ReclaimAccounted(cfg: Config, s: System, step: Step, id: MessageId)
    requires step.Reclaim? && Enabled(cfg, s, step) && WellKeyed(s.mem) && NoLoss(s, id)
    ensures Logged(s.main, id) ==> Accounted(Apply(cfg, s, step), id)
  {
    var failing := FailExpired(s.mem.leased, step.order);
    FailExpiredCount(s.mem.leased, step.order, id, BuriedTask(id), 0);
    FailExpiredCount(s.mem.leased, step.order, id, GapTask(id), 0);
    SumConcat(s.tasks, failing, BuriedTask(id));
    SumConcat(s.tasks, failing, GapTask(id));
  }

  lemma CrashAccounted(cfg: Config, s: System, step: Step, id: MessageId)
    requires step.Crash? && Enabled(cfg, s, step) && NoLoss(s, id)
    ensures Logged(s.main, id) ==> Accounted(Apply(cfg, s, step), id)
  {
    if Sum(s.tasks, GapTask(id)) > 0 {
      var t := SumWitness(s.tasks, GapTask(id));
      assert id in Dangling(s.tasks);
    }
    PositionCount(ReplayMain(s.main).pending, id);
  }

  lemma StartAccounted(cfg: Config, s: System, step: Step, id: MessageId)
    requires Starts(step) && Enabled(cfg, s, step) && NoLoss(s, id)
    ensures Logged(s.main, id) ==> Accounted(Apply(cfg, s, step), id)
  {
    BegunCount(s.tasks, Begun(s.mem, step), GapTask(id));
    BegunCount(s.tasks, Begun(s.mem, step), BuriedTask(id));
    assert WeightOf(BuriedTask(id), Begun(s.mem, step)) == 0;
  }

  lemma StepKeepsNoLoss(cfg: Config, s: System, step: Step, id: MessageId)
    requires WellKeyed(s.mem) && Enabled(cfg, s, step) && NoLoss(s, id)
    ensures NoLoss(Apply(cfg, s, step), id)
  {
    StepKeepsCopies(cfg, s, step, id);
    match step
    case Advance(t, now, draw) => AdvanceAccounted(cfg, s, t, now, draw, id);
    case AppendFails(t) => FailAccounted(s, t, id);
    case Reclaim(_, _) => ReclaimAccounted(cfg, s, step, id);
    case Crash(_) => CrashAccounted(cfg, s, step, id);
    case _ => StartAccounted(cfg, s, step, id);
  }

  /** Over every run, whatever interleaves, fails or crashes: no copy is live that the log
      does not replay, and every logged message stays accounted for. */
  lemma {:induction false} RunKeepsNoLoss(cfg: Config, steps: seq<Step>, id: MessageId)
    requires ValidRun(cfg, INITIAL, steps)
    ensures var s := Run(cfg, INITIAL, steps);
      WellKeyed(s.mem) && NoLoss(s, id)
    decreases |steps|
  {
    if |steps| > 0 {
      var front := steps[..|steps| - 1];
      RunKeepsNoLoss(cfg, front, id);
      StepKeepsWellKeyed(cfg, Run(cfg, INITIAL, front), steps[|steps| - 1]);
      StepKeepsNoLoss(cfg, Run(cfg, INITIAL, front), steps[|steps| - 1], id);
    }
  }

  /** Memory holds `msg` as pending or as a dead letter. */
  ghost predicate Recovered(mem: Memory, msg: Message) {
    || (msg.id in mem.dlq && mem.dlq[msg.id].msg == msg)
    || exists i :: 0 <= i < |mem.pending| && mem.pending[i].msg == msg
  }

  /** What a restart brings back of `id`, read off the two logs. */
  lemma RecoveredIsReplayed(s: System, order: seq<MessageId>, id: MessageId)
    requires LogsTraceable(s.created, s.main, s.dlqLog) && id in s.created && s.created[id].id == id
    ensures Recovered(Recover(s.main, s.dlqLog, order), s.created[id])
      <==> id in ReplayDlq(s.dlqLog) || LoggedCopies(s, id) > 0
  {
    var mem := Recover(s.main, s.dlqLog, order);
    RecoverTraceable(s.created, s.main, s.dlqLog, order);
    RecoverHeld(s.main, s.dlqLog, order, id);
    if LoggedCopies(s, id) > 0 {
      var i := SumWitness(mem.pending, PendingOf(id));
      assert Genuine(s.created, mem.pending[i].msg);
    }
    if i :| 0 <= i < |mem.pending| && mem.pending[i].msg == s.created[id] {
      SumAt(mem.pending, i, PendingOf(id));
    }
  }

  /** Crash anywhere, any number of times: a message whose Enqueue was written, and which was
      neither acknowledged nor purged, is recovered with its original key and item, as pending or
      as a dead letter, unless a reprocess has it in its gap: now, or at an earlier crash or
      failed append from which no restart has brought it back. */
  lemma CrashRecoversEveryMessage(cfg: Config, steps: seq<Step>, order: seq<MessageId>, id: MessageId)
    requires ValidRun(cfg, INITIAL, steps)
    requires Enabled(cfg, Run(cfg, INITIAL, steps), Crash(order))
    requires Logged(Run(cfg, INITIAL, steps).main, id) && !Discharged(Run(cfg, INITIAL, steps), id)
    ensures var s := Run(cfg, INITIAL, steps);
      var s' := Apply(cfg, s, Crash(order));
      && id in s.created
      && (Recovered(s'.mem, s.created[id]) <==> id !in s'.gapLost)
      && (id in s'.gapLost ==> id in s.gapLost || id in Dangling(s.tasks))
  {
    var s := Run(cfg, INITIAL, steps);
    var s' := Apply(cfg, s, Crash(order));
    RunKeepsTraceable(cfg, steps);
    assert Accounted(s', id) by {
      RunKeepsNoLoss(cfg, steps, id);
      StepKeepsNoLoss(cfg, s, Crash(order), id);
    }
    RecoveredIsReplayed(s, order, id);
    PositionCount(ReplayMain(s.main).pending, id);
  }
}
