/** Exactly which messages a crash loses. After any clean run, a logged message that was neither
    acknowledged nor purged is lost by a crash if and only if a reprocess has taken it off the
    dead-letter log, has not yet put it back on the main one, and no burial of its earlier life
    is still to be written there. */
module Losses {
  import opened Wrappers
  import opened Counting
  import opened Messages
  import opened Steps
  import opened Census
  import opened Durability
  import opened Partition
  import opened Provenance
  import opened Recovery

  // ---- What tasks say about logs and departures ----------------------------------------------

  /** What an unfinished call implies about the logs and the departed. */
  ghost predicate TaskLedger(main: seq<MainRecord>, gone: set<MessageId>, purged: set<MessageId>, task: Task) {
    match task
    case Enqueueing(msg) => !Logged(main, msg.id)
    case Acking(id) => id in gone
    case Releasing(msg) => msg.id in purged
    case _ => true
  }

  /** A departed id was purged, or acknowledged on record or in flight. */
  ghost predicate Departed(s: System, id: MessageId) {
    id in s.gone ==> Discharged(s, id) || Acking(id) in s.tasks
  }

  ghost predicate Ledger(s: System) {
    && (forall t :: 0 <= t < |s.tasks| ==> TaskLedger(s.main, s.gone, s.purged, s.tasks[t]))
    && (forall id :: Departed(s, id))
  }

  lemma ReplaceKeeps(tasks: seq<Task>, t: nat, next: Option<Task>, task: Task)
    requires t < |tasks| && task in tasks && task != tasks[t]
    ensures task in Replace(tasks, t, next)
  {
    var i :| 0 <= i < |tasks| && tasks[i] == task;
    var after := Replace(tasks, t, next);
    assert next.Some? ==> after[i] == task;
    assert next.None? ==> after[if i < t then i else i - 1] == task;
  }

  /** A task moving on keeps what the other tasks imply: one that writes an Enqueue is the only
      place of its message. */
  lemma OtherTaskLedger(cfg: Config, s: System, t: nat, u: nat, now: Instant, draw: real)
    requires t < |s.tasks| && u < |s.tasks| && u != t && AllInPlace(s)
    requires TaskLedger(s.main, s.gone, s.purged, s.tasks[u])
    ensures var s' := AdvanceTask(cfg, s, t, now, draw);
      TaskLedger(s'.main, s'.gone, s'.purged, s.tasks[u])
  {
    if s.tasks[u].Enqueueing? {
      var id := s.tasks[u].msg.id;
      LoggedAppend(s.main, MainAppend(s.tasks[t]), id);
      assert InPlace(s, id);
      if PlaceTask(id)(s.tasks[t]) == 1 {
        SumPair(s.tasks, if t < u then t else u, if t < u then u else t, PlaceTask(id));
      }
    }
  }

  lemma NextTaskLedger(cfg: Config, s: System, t: nat, now: Instant, draw: real)
    requires t < |s.tasks| && NextTask(cfg, s.tasks[t], now).Some?
    ensures var s' := AdvanceTask(cfg, s, t, now, draw);
      TaskLedger(s'.main, s'.gone, s'.purged, NextTask(cfg, s.tasks[t], now).value)
  {
  }

  lemma AdvanceDeparted(cfg: Config, s: System, t: nat, now: Instant, draw: real, id: MessageId)
    requires t < |s.tasks| && Departed(s, id) && TaskLedger(s.main, s.gone, s.purged, s.tasks[t])
    ensures Departed(AdvanceTask(cfg, s, t, now, draw), id)
  {
    var s' := AdvanceTask(cfg, s, t, now, draw);
    var task := s.tasks[t];
    assert forall record :: record in s.main ==> record in s'.main;
    if task == Acking(id) {
      assert s'.main[|s.main|] == Ack(id);
    } else if Acking(id) in s.tasks {
      ReplaceKeeps(s.tasks, t, NextTask(cfg, task, now), Acking(id));
    }
  }

  lemma AdvanceLedger(cfg: Config, s: System, t: nat, now: Instant, draw: real)
    requires t < |s.tasks| && Ledger(s) && AllInPlace(s)
    ensures Ledger(AdvanceTask(cfg, s, t, now, draw))
  {
    var s' := AdvanceTask(cfg, s, t, now, draw);
    var next := NextTask(cfg, s.tasks[t], now);
    TasksAfter(s.tasks, t, next);
    forall i | 0 <= i < |s'.tasks| ensures TaskLedger(s'.main, s'.gone, s'.purged, s'.tasks[i]) {
      if next.Some? && i == t {
        NextTaskLedger(cfg, s, t, now, draw);
      } else {
        var u := if next.Some? || i < t then i else i + 1;
        assert s'.tasks[i] == s.tasks[u];
        OtherTaskLedger(cfg, s, t, u, now, draw);
      }
    }
    forall id ensures Departed(s', id) {
      assert Departed(s, id);
      AdvanceDeparted(cfg, s, t, now, draw, id);
    }
  }

  lemma BegunLedger(cfg: Config, s: System, step: Step)
    requires Starts(step) && Enabled(cfg, s, step) && AllTraceable(s) && Begun(s.mem, step).Some?
    ensures TaskLedger(s.main, GoneAfter(s, step), s.purged, Begun(s.mem, step).value)
  {
    if step.BeginEnqueue? && Logged(s.main, step.msg.id) { LoggedIsCreated(s, step.msg.id); }
  }

  lemma LoggedIsCreated(s: System, id: MessageId)
    requires LogsTraceable(s.created, s.main, s.dlqLog) && Logged(s.main, id)
    ensures id in s.created && s.created[id].id == id
  {
    var i :| 0 <= i < |s.main| && s.main[i].Enqueue? && s.main[i].msg.id == id;
    assert Genuine(s.created, s.main[i].msg);
  }

  lemma StartLedger(cfg: Config, s: System, step: Step)
    requires Starts(step) && Enabled(cfg, s, step) && AllTraceable(s) && Ledger(s)
    ensures Ledger(Apply(cfg, s, step))
  {
    var s' := Apply(cfg, s, step);
    assert s'.tasks == Append(s.tasks, Begun(s.mem, step)) && s'.main == s.main && s'.purged == s.purged;
    if Begun(s.mem, step).Some? { BegunLedger(cfg, s, step); }
    forall id ensures Departed(s', id) {
      assert Departed(s, id);
      if step.BeginAck? && Holds(s.mem.leased, step.id, step.token) {
        assert s'.tasks[|s.tasks|] == Acking(step.id);
      }
    }
  }

  lemma ReclaimLedger(cfg: Config, s: System, step: Step)
    requires step.Reclaim? && Enabled(cfg, s, step) && Ledger(s)
    ensures Ledger(Apply(cfg, s, step))
  {
    var s' := Apply(cfg, s, step);
    assert s'.tasks == s.tasks + FailExpired(s.mem.leased, step.order);
    assert s'.main == s.main && s'.gone == s.gone && s'.purged == s.purged;
    forall id ensures Departed(s', id) {
      assert Departed(s, id);
    }
  }

  lemma StepKeepsLedger(cfg: Config, s: System, step: Step)
    requires Enabled(cfg, s, step) && !step.AppendFails? && (step.Crash? ==> s.tasks == [])
    requires AllTraceable(s) && AllInPlace(s) && Ledger(s)
    ensures Ledger(Apply(cfg, s, step))
  {
    match step
    case Advance(t, now, draw) => AdvanceLedger(cfg, s, t, now, draw);
    case Reclaim(_, _) => ReclaimLedger(cfg, s, step);
    case Crash(_) => assert forall id :: Departed(s, id) ==> Departed(Apply(cfg, s, step), id);
    case _ => StartLedger(cfg, s, step);
  }

  lemma {:induction false} RunKeepsLedger(cfg: Config, steps: seq<Step>)
    requires ValidRun(cfg, INITIAL, steps) && Clean(cfg, steps)
    ensures Ledger(Run(cfg, INITIAL, steps))
    decreases |steps|
  {
    if |steps| > 0 {
      var front := steps[..|steps| - 1];
      RunKeepsLedger(cfg, front);
      RunKeepsExact(cfg, front);
      StepKeepsLedger(cfg, Run(cfg, INITIAL, front), steps[|steps| - 1]);
    }
  }

  // ---- Counting what is in the logs -----------------------------------------------------------

  function TaskIs(task: Task): Task -> nat {
    (other: Task) => One(other == task)
  }

  function EnqueueingTask(id: MessageId): Task -> nat {
    (task: Task) => One(task.Enqueueing? && task.msg.id == id)
  }

  function ReleasingTask(id: MessageId): Task -> nat {
    (task: Task) => One(task.Releasing? && task.msg.id == id)
  }

  /** How the tasks that are places relate to the tasks the logs answer for. */
  lemma {:induction false} TaskKinds(tasks: seq<Task>, id: MessageId)
    ensures Sum(tasks, PlaceTask(id)) <= Sum(tasks, CopyTask(id)) + Sum(tasks, LetterTask(id))
      + Sum(tasks, EnqueueingTask(id)) + Sum(tasks, GapTask(id)) + Sum(tasks, ReleasingTask(id))
    ensures Sum(tasks, CopyTask(id)) + Sum(tasks, LetterTask(id)) + 2 * Sum(tasks, GapTask(id))
      <= 2 * Sum(tasks, PlaceTask(id)) + Sum(tasks, TaskIs(Acking(id))) + Sum(tasks, TaskIs(Burying(id)))
    ensures Sum(tasks, TaskIs(Acking(id))) + Sum(tasks, TaskIs(Burying(id))) <= Sum(tasks, CopyTask(id))
    ensures Sum(tasks, GapTask(id)) <= Sum(tasks, PlaceTask(id))
  {
    if |tasks| > 0 {
      TaskKinds(tasks[..|tasks| - 1], id);
      TaskKind(tasks[|tasks| - 1], id);
    }
  }

  lemma TaskKind(task: Task, id: MessageId)
    ensures PlaceTask(id)(task) <= CopyTask(id)(task) + LetterTask(id)(task)
      + EnqueueingTask(id)(task) + GapTask(id)(task) + ReleasingTask(id)(task)
    ensures CopyTask(id)(task) + LetterTask(id)(task) + 2 * GapTask(id)(task)
      <= 2 * PlaceTask(id)(task) + TaskIs(Acking(id))(task) + TaskIs(Burying(id))(task)
    ensures TaskIs(Acking(id))(task) + TaskIs(Burying(id))(task) <= CopyTask(id)(task)
    ensures GapTask(id)(task) <= PlaceTask(id)(task)
  {
  }

  lemma TaskIsCounted(tasks: seq<Task>, task: Task)
    ensures task in tasks <==> Sum(tasks, TaskIs(task)) > 0
  {
    SumZero(tasks, TaskIs(task));
  }

  lemma DanglingIsCounted(tasks: seq<Task>, id: MessageId)
    ensures id in Dangling(tasks) <==> Sum(tasks, GapTask(id)) > 0
  {
    SumZero(tasks, GapTask(id));
  }

  /** What the ledger says in counts, of a message on record and not discharged. */
  lemma LedgerCounts(s: System, id: MessageId)
    requires Ledger(s) && Logged(s.main, id) && !Discharged(s, id)
    ensures Sum(s.tasks, EnqueueingTask(id)) == 0 && Sum(s.tasks, ReleasingTask(id)) == 0
    ensures id in s.gone <==> Sum(s.tasks, TaskIs(Acking(id))) > 0
  {
    SumZero(s.tasks, EnqueueingTask(id));
    SumZero(s.tasks, ReleasingTask(id));
    TaskIsCounted(s.tasks, Acking(id));
    assert Departed(s, id);
  }

  /** What either log replays of `id`. */
  ghost predicate OnRecord(s: System, id: MessageId) {
    id in ReplayDlq(s.dlqLog) || LoggedCopies(s, id) > 0
  }

  lemma OffRecordExactly(s: System, id: MessageId)
    requires Exact(s) && Ledger(s) && Logged(s.main, id) && !Discharged(s, id) && id in s.created
    ensures !OnRecord(s, id) <==> id in Dangling(s.tasks) && Burying(id) !in s.tasks
  {
    assert InPlace(s, id) && LiveCopies(s, id) == LoggedCopies(s, id) && LettersCounted(s, id);
    TaskKinds(s.tasks, id);
    LedgerCounts(s, id);
    TaskIsCounted(s.tasks, Burying(id));
    DanglingIsCounted(s.tasks, id);
  }

  /** A crash at any step of any clean run loses a logged message that was neither acknowledged nor
      purged if and only if a reprocess is between its Remove and its re-Enqueue, and no
      DeadLettered record of the message is still to be written. */
  lemma CrashLosesExactly(cfg: Config, steps: seq<Step>, order: seq<MessageId>, id: MessageId)
    requires ValidRun(cfg, INITIAL, steps) && Clean(cfg, steps)
    requires Enabled(cfg, Run(cfg, INITIAL, steps), Crash(order))
    requires Logged(Run(cfg, INITIAL, steps).main, id) && !Discharged(Run(cfg, INITIAL, steps), id)
    ensures var s := Run(cfg, INITIAL, steps);
      && id in s.created
      && (!Recovered(Apply(cfg, s, Crash(order)).mem, s.created[id])
          <==> id in Dangling(s.tasks) && Burying(id) !in s.tasks)
  {
    var s := Run(cfg, INITIAL, steps);
    assert Exact(s) by { RunKeepsExact(cfg, steps); }
    assert Ledger(s) by { RunKeepsLedger(cfg, steps); }
    LoggedIsCreated(s, id);
    RecoveredIsReplayed(s, order, id);
    OffRecordExactly(s, id);
  }
}
