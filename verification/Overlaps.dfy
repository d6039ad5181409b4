/** Triage verdicts and checkpoints under interleaving. Both are written to a log in one step and to
    memory in another, so a quiet restart brings back what was live only where the calls that write
    them do not overlap each other or the end of what they write to. */
module Overlaps {
  import opened Wrappers
  import opened Counting
  import opened Messages
  import opened Steps
  import opened Census
  import opened Durability
  import opened Partition
  import opened Provenance
  import opened Recovery
  import opened SerialTheorems

  // ---- Verdicts ----------------------------------------------------------------------------------

  /** Annotate calls in flight on `id`. */
  function AnnotateTask(id: MessageId): Task -> nat {
    (task: Task) => One((task.Annotating? || task.Annotated?) && task.id == id)
  }

  /** At most one annotate call is in flight on `id`, and while it is the letter is not taken. */
  ghost predicate VerdictsCalm(s: System, id: MessageId) {
    Sum(s.tasks, AnnotateTask(id)) <= One(id in s.mem.dlq)
  }

  ghost predicate TriageLogged(dlqLog: seq<DlqRecord>, id: MessageId, triage: Option<TriageVerdict>) {
    id in ReplayDlq(dlqLog) && ReplayDlq(dlqLog)[id].triage == triage
  }

  predicate Unstored(task: Task, id: MessageId) {
    task.Annotated? && task.id == id
  }

  predicate Unfiled(task: Task, id: MessageId) {
    task.Recording? && task.letter.msg.id == id
  }

  ghost predicate TaskVerdict(dlqLog: seq<DlqRecord>, task: Task, id: MessageId) {
    && (Unstored(task, id) ==> TriageLogged(dlqLog, id, Some(task.verdict)))
    && (Unfiled(task, id) ==> TriageLogged(dlqLog, id, task.letter.triage))
  }

  /** The log replays the verdict a call has written and not yet stored, and otherwise the live one. */
  ghost predicate VerdictKept(s: System, id: MessageId) {
    && (forall t :: 0 <= t < |s.tasks| ==> TaskVerdict(s.dlqLog, s.tasks[t], id))
    && (id in s.mem.dlq && (forall t :: 0 <= t < |s.tasks| ==> !Unstored(s.tasks[t], id)) ==>
          TriageLogged(s.dlqLog, id, s.mem.dlq[id].triage))
  }

  /** What a task's append says about `id`, if anything. */
  predicate AboutLetter(record: Option<DlqRecord>, id: MessageId) {
    match record
    case Some(Record(letter)) => letter.msg.id == id
    case Some(Remove(gone)) => gone == id
    case Some(Annotate(other, _)) => other == id
    case None => false
  }

  lemma OtherTriage(dlqLog: seq<DlqRecord>, record: Option<DlqRecord>, id: MessageId, triage: Option<TriageVerdict>)
    requires TriageLogged(dlqLog, id, triage) && !AboutLetter(record, id)
    ensures TriageLogged(Append(dlqLog, record), id, triage)
  {
    if record.Some? { ReplayDlqAppend(dlqLog, record.value); }
  }

  /** Tasks that neither annotate `id` nor are its place do nothing to its letter. */
  lemma StrangerVerdict(cfg: Config, s: System, t: nat, now: Instant, draw: real, id: MessageId)
    requires t < |s.tasks| && VerdictKept(s, id) && WellKeyed(s.mem)
    requires AnnotateTask(id)(s.tasks[t]) == 0 && PlaceTask(id)(s.tasks[t]) == 0
    ensures VerdictKept(AdvanceTask(cfg, s, t, now, draw), id)
  {
    var task := s.tasks[t];
    var s' := AdvanceTask(cfg, s, t, now, draw);
    var record, next := DlqAppend(cfg, task, now), NextTask(cfg, task, now);
    assert !AboutLetter(record, id);
    TasksAfter(s.tasks, t, next);
    forall v | 0 <= v < |s'.tasks| ensures TaskVerdict(s'.dlqLog, s'.tasks[v], id) {
      if next != Some(s'.tasks[v]) {
        var u :| 0 <= u < |s.tasks| && u != t && s.tasks[u] == s'.tasks[v];
        OtherTaskVerdict(s.dlqLog, record, s.tasks[u], id);
      }
    }
    if id in s'.mem.dlq && forall v :: 0 <= v < |s'.tasks| ==> !Unstored(s'.tasks[v], id) {
      assert id in s.mem.dlq && s'.mem.dlq[id] == s.mem.dlq[id];
      forall u | 0 <= u < |s.tasks| ensures !Unstored(s.tasks[u], id) {
        if u != t { assert s.tasks[u] == s'.tasks[if next.Some? || u < t then u else u - 1]; }
      }
      OtherTriage(s.dlqLog, record, id, s.mem.dlq[id].triage);
    }
  }

  lemma OtherTaskVerdict(dlqLog: seq<DlqRecord>, record: Option<DlqRecord>, task: Task, id: MessageId)
    requires TaskVerdict(dlqLog, task, id) && !AboutLetter(record, id)
    ensures TaskVerdict(Append(dlqLog, record), task, id)
  {
    if Unstored(task, id) { OtherTriage(dlqLog, record, id, Some(task.verdict)); }
    if Unfiled(task, id) { OtherTriage(dlqLog, record, id, task.letter.triage); }
  }

  /** While one annotate call is in flight on a letter in the map, no other task concerns the letter. */
  lemma AnnotatorIsAlone(s: System, t: nat, u: nat, id: MessageId)
    requires t < |s.tasks| && u < |s.tasks| && u != t && AnnotateTask(id)(s.tasks[t]) == 1
    requires VerdictsCalm(s, id) && InPlace(s, id)
    ensures AnnotateTask(id)(s.tasks[u]) == 0 && PlaceTask(id)(s.tasks[u]) == 0
  {
    SumAt(s.tasks, t, AnnotateTask(id));
    SumAt(s.tasks, u, PlaceTask(id));
    if AnnotateTask(id)(s.tasks[u]) == 1 {
      SumPair(s.tasks, if t < u then t else u, if t < u then u else t, AnnotateTask(id));
    }
  }

  /** No task but the annotator concerns the letter after it has moved on either. */
  lemma OnlyAnnotator(cfg: Config, s: System, t: nat, now: Instant, id: MessageId)
    requires t < |s.tasks| && VerdictsCalm(s, id) && InPlace(s, id) && AnnotateTask(id)(s.tasks[t]) == 1
    ensures var next := NextTask(cfg, s.tasks[t], now);
      var after := Replace(s.tasks, t, next);
      forall v :: 0 <= v < |after| && next != Some(after[v]) ==> !Unstored(after[v], id) && !Unfiled(after[v], id)
  {
    var next := NextTask(cfg, s.tasks[t], now);
    var after := Replace(s.tasks, t, next);
    TasksAfter(s.tasks, t, next);
    forall v | 0 <= v < |after| && next != Some(after[v])
      ensures !Unstored(after[v], id) && !Unfiled(after[v], id)
    {
      var u :| 0 <= u < |s.tasks| && u != t && s.tasks[u] == after[v];
      AnnotatorIsAlone(s, t, u, id);
    }
  }

  lemma AnnotatorVerdict(cfg: Config, s: System, t: nat, now: Instant, draw: real, id: MessageId)
    requires t < |s.tasks| && VerdictKept(s, id) && VerdictsCalm(s, id) && InPlace(s, id) && LettersMatch(s)
    requires AnnotateTask(id)(s.tasks[t]) == 1 && WellKeyed(s.mem)
    ensures VerdictKept(AdvanceTask(cfg, s, t, now, draw), id)
  {
    var task := s.tasks[t];
    var s' := AdvanceTask(cfg, s, t, now, draw);
    SumAt(s.tasks, t, AnnotateTask(id));
    assert LetterLogged(s.dlqLog, s.mem.dlq[id]);
    assert TaskVerdict(s.dlqLog, task, id);
    OnlyAnnotator(cfg, s, t, now, id);
    if task.Annotating? {
      ReplayDlqAppend(s.dlqLog, Annotate(id, task.verdict));
      assert s'.tasks[t] == Annotated(id, task.verdict) && Unstored(s'.tasks[t], id);
    }
  }

  /** A task that is the place of `id` meets no annotate call on it. */
  lemma HolderIsAlone(s: System, t: nat, u: nat, id: MessageId)
    requires t < |s.tasks| && u < |s.tasks| && PlaceTask(id)(s.tasks[t]) == 1
    requires VerdictsCalm(s, id) && InPlace(s, id)
    ensures id !in s.mem.dlq && AnnotateTask(id)(s.tasks[u]) == 0 && (u != t ==> PlaceTask(id)(s.tasks[u]) == 0)
  {
    SumAt(s.tasks, t, PlaceTask(id));
    SumAt(s.tasks, u, AnnotateTask(id));
    if u != t && PlaceTask(id)(s.tasks[u]) == 1 {
      SumPair(s.tasks, if t < u then t else u, if t < u then u else t, PlaceTask(id));
    }
  }

  lemma HolderVerdict(cfg: Config, s: System, t: nat, now: Instant, draw: real, id: MessageId)
    requires t < |s.tasks| && VerdictKept(s, id) && VerdictsCalm(s, id) && InPlace(s, id) && WellKeyed(s.mem)
    requires PlaceTask(id)(s.tasks[t]) == 1
    ensures VerdictKept(AdvanceTask(cfg, s, t, now, draw), id)
  {
    var task := s.tasks[t];
    var s' := AdvanceTask(cfg, s, t, now, draw);
    var next := NextTask(cfg, task, now);
    HolderIsAlone(s, t, t, id);
    assert TaskVerdict(s.dlqLog, task, id);
    if DlqAppend(cfg, task, now).Some? { ReplayDlqAppend(s.dlqLog, DlqAppend(cfg, task, now).value); }
    TasksAfter(s.tasks, t, next);
    forall v | 0 <= v < |s'.tasks| && next != Some(s'.tasks[v])
      ensures !Unstored(s'.tasks[v], id) && !Unfiled(s'.tasks[v], id)
    {
      var u :| 0 <= u < |s.tasks| && u != t && s.tasks[u] == s'.tasks[v];
      HolderIsAlone(s, t, u, id);
    }
  }

  lemma AdvanceVerdict(cfg: Config, s: System, t: nat, now: Instant, draw: real, id: MessageId)
    requires t < |s.tasks| && VerdictKept(s, id) && VerdictsCalm(s, id) && Exact(s)
    ensures VerdictKept(AdvanceTask(cfg, s, t, now, draw), id)
  {
    TraceableIsWellKeyed(s);
    assert InPlace(s, id);
    if AnnotateTask(id)(s.tasks[t]) == 1 {
      AnnotatorVerdict(cfg, s, t, now, draw, id);
    } else if PlaceTask(id)(s.tasks[t]) == 1 {
      HolderVerdict(cfg, s, t, now, draw, id);
    } else {
      StrangerVerdict(cfg, s, t, now, draw, id);
    }
  }

  lemma StartVerdict(cfg: Config, s: System, step: Step, id: MessageId)
    requires (Starts(step) || step.Reclaim?) && Enabled(cfg, s, step) && VerdictKept(s, id)
    ensures VerdictKept(Apply(cfg, s, step), id)
  {
    var s' := Apply(cfg, s, step);
    assert s'.dlqLog == s.dlqLog && s.tasks <= s'.tasks;
    forall t | 0 <= t < |s'.tasks| ensures TaskVerdict(s'.dlqLog, s'.tasks[t], id) {
      if t < |s.tasks| { assert s'.tasks[t] == s.tasks[t]; }
    }
    if id in s'.mem.dlq && forall t :: 0 <= t < |s'.tasks| ==> !Unstored(s'.tasks[t], id) {
      forall t | 0 <= t < |s.tasks| ensures !Unstored(s.tasks[t], id) { assert s'.tasks[t] == s.tasks[t]; }
    }
  }

  /** A step of a clean run keeps it while no annotate call on `id` overlaps another or a taking of
      the letter. */
  lemma StepKeepsVerdict(cfg: Config, s: System, step: Step, id: MessageId)
    requires Enabled(cfg, s, step) && !step.AppendFails? && (step.Crash? ==> s.tasks == [])
    requires Exact(s) && VerdictsCalm(s, id) && VerdictKept(s, id)
    ensures VerdictKept(Apply(cfg, s, step), id)
  {
    match step
    case Advance(t, now, draw) => AdvanceVerdict(cfg, s, t, now, draw, id);
    case Crash(_) =>
    case _ => StartVerdict(cfg, s, step, id);
  }

  /** At no moment of the run do annotate calls on `id` overlap each other or a taking of the letter. */
  ghost predicate VerdictsAlwaysCalm(cfg: Config, steps: seq<Step>, id: MessageId)
    requires ValidRun(cfg, INITIAL, steps)
  {
    VerdictsCalm(Run(cfg, INITIAL, steps), id)
    && (|steps| == 0 || VerdictsAlwaysCalm(cfg, steps[..|steps| - 1], id))
  }

  lemma {:induction false} RunKeepsVerdict(cfg: Config, steps: seq<Step>, id: MessageId)
    requires ValidRun(cfg, INITIAL, steps) && Clean(cfg, steps) && VerdictsAlwaysCalm(cfg, steps, id)
    ensures VerdictKept(Run(cfg, INITIAL, steps), id)
    decreases |steps|
  {
    if |steps| > 0 {
      var front := steps[..|steps| - 1];
      RunKeepsVerdict(cfg, front, id);
      RunKeepsExact(cfg, front);
      StepKeepsVerdict(cfg, Run(cfg, INITIAL, front), steps[|steps| - 1], id);
    }
  }

  /** After a clean run in which annotate calls on a letter never overlap each other or its taking, a
      restart with no call in flight brings the letter back whole, its verdict included. */
  lemma RestartRecoversVerdict(cfg: Config, steps: seq<Step>, order: seq<MessageId>, id: MessageId)
    requires ValidRun(cfg, INITIAL, steps) && Clean(cfg, steps) && VerdictsAlwaysCalm(cfg, steps, id)
    requires Run(cfg, INITIAL, steps).tasks == [] && Enabled(cfg, Run(cfg, INITIAL, steps), Crash(order))
    requires id in Run(cfg, INITIAL, steps).mem.dlq
    ensures var s := Run(cfg, INITIAL, steps);
      var back := Apply(cfg, s, Crash(order)).mem.dlq;
      id in back && back[id] == s.mem.dlq[id]
  {
    var s := Run(cfg, INITIAL, steps);
    assert LetterLogged(s.dlqLog, s.mem.dlq[id]) && s.mem.dlq[id].msg.id == id by {
      RunKeepsExact(cfg, steps);
      TraceableIsWellKeyed(s);
    }
    RunKeepsVerdict(cfg, steps, id);
  }

  // ---- Checkpoints -------------------------------------------------------------------------------

  /** Checkpoint calls in flight on `id`. */
  function CheckpointTask(id: MessageId): Task -> nat {
    (task: Task) => One((task.Checkpointing? || task.Checkpointed?) && task.id == id)
  }

  /** At most one checkpoint call is in flight on `id`, and while it is its lease is held. */
  ghost predicate CheckpointsCalm(s: System, id: MessageId) {
    && Sum(s.tasks, CheckpointTask(id)) <= 1
    && (forall t :: 0 <= t < |s.tasks| && CheckpointTask(id)(s.tasks[t]) == 1 ==>
          Holds(s.mem.leased, id, s.tasks[t].token))
  }

  /** The checkpoint replay would hand to `id`. */
  function LoggedCheckpoint(main: seq<MainRecord>, id: MessageId): Option<Value> {
    var written := ReplayMain(main).checkpoints;
    if id in written then Some(written[id]) else None
  }

  /** What a held entry should have: the logged checkpoint, or none if a reprocess dropped it. */
  predicate Kept(logged: Option<Value>, stale: bool, checkpoint: Option<Value>) {
    if stale then checkpoint.None? && logged.Some? else checkpoint == logged
  }

  predicate Unsaved(task: Task, id: MessageId) {
    task.Checkpointed? && task.id == id
  }

  predicate TaskKept(logged: Option<Value>, stale: bool, task: Task, id: MessageId) {
    match task
    case Failing(f) => f.msg.id == id ==> Kept(logged, stale, f.checkpoint)
    case Enqueued(msg) => msg.id == id ==> Kept(logged, stale, None)
    case Enqueueing(msg) => msg.id == id ==> logged.None?
    case Checkpointed(other, _, state) => other == id ==> logged == Some(state)
    case _ => true
  }

  ghost predicate QueuesKept(logged: Option<Value>, stale: bool, mem: Memory, id: MessageId) {
    && (forall i :: 0 <= i < |mem.pending| && mem.pending[i].msg.id == id ==>
          Kept(logged, stale, mem.pending[i].checkpoint))
    && (forall i :: 0 <= i < |mem.delayed| && mem.delayed[i].msg.id == id ==>
          Kept(logged, stale, mem.delayed[i].checkpoint))
  }

  ghost predicate TasksKept(logged: Option<Value>, stale: bool, tasks: seq<Task>, id: MessageId) {
    forall t :: 0 <= t < |tasks| ==> TaskKept(logged, stale, tasks[t], id)
  }

  ghost predicate NoneUnsaved(tasks: seq<Task>, id: MessageId) {
    forall t :: 0 <= t < |tasks| ==> !Unsaved(tasks[t], id)
  }

  ghost predicate CheckpointKept(s: System, id: MessageId) {
    var logged, stale := LoggedCheckpoint(s.main, id), id in s.stale;
    && (stale ==> logged.Some?) && (logged.Some? ==> id in s.created)
    && QueuesKept(logged, stale, s.mem, id) && TasksKept(logged, stale, s.tasks, id)
    && (id in s.mem.leased && NoneUnsaved(s.tasks, id) ==> Kept(logged, stale, s.mem.leased[id].checkpoint))
  }

  lemma CheckpointAppend(main: seq<MainRecord>, record: Option<MainRecord>, id: MessageId)
    ensures LoggedCheckpoint(Append(main, record), id)
         == if record.Some? && record.value.Checkpoint? && record.value.id == id then Some(record.value.state)
            else LoggedCheckpoint(main, id)
  {
    if record.Some? { ReplayMainAppend(main, record.value); }
  }

  /** Tasks that neither checkpoint `id` nor are its place. */
  lemma StrangerCheckpoint(cfg: Config, s: System, t: nat, now: Instant, draw: real, id: MessageId)
    requires t < |s.tasks| && CheckpointKept(s, id)
    requires CheckpointTask(id)(s.tasks[t]) == 0 && PlaceTask(id)(s.tasks[t]) == 0
    ensures CheckpointKept(AdvanceTask(cfg, s, t, now, draw), id)
  {
    var task := s.tasks[t];
    var s' := AdvanceTask(cfg, s, t, now, draw);
    var next := NextTask(cfg, task, now);
    CheckpointAppend(s.main, MainAppend(task), id);
    StrangerTasks(s.tasks, t, next, LoggedCheckpoint(s.main, id), id in s.stale, id);
    StrangerMemory(cfg, s.mem, task, now, draw, LoggedCheckpoint(s.main, id), id in s.stale, id);
  }

  lemma StrangerMemory(
    cfg: Config, mem: Memory, task: Task, now: Instant, draw: real, logged: Option<Value>, stale: bool, id: MessageId)
    requires CheckpointTask(id)(task) == 0 && PlaceTask(id)(task) == 0 && QueuesKept(logged, stale, mem, id)
    ensures var mem' := Effect(cfg, mem, task, now, draw);
      && QueuesKept(logged, stale, mem', id)
      && (id in mem'.leased ==> id in mem.leased && mem'.leased[id] == mem.leased[id])
  {
  }

  lemma StrangerTasks(tasks: seq<Task>, t: nat, next: Option<Task>, logged: Option<Value>, stale: bool, id: MessageId)
    requires t < |tasks| && TasksKept(logged, stale, tasks, id) && !Unsaved(tasks[t], id)
    requires next.Some? ==> TaskKept(logged, stale, next.value, id) && !Unsaved(next.value, id)
    ensures TasksKept(logged, stale, Replace(tasks, t, next), id)
    ensures NoneUnsaved(Replace(tasks, t, next), id) ==> NoneUnsaved(tasks, id)
  {
    var after := Replace(tasks, t, next);
    TasksAfter(tasks, t, next);
    if NoneUnsaved(after, id) {
      forall u | 0 <= u < |tasks| ensures !Unsaved(tasks[u], id) {
        if u != t { assert tasks[u] == after[if next.Some? || u < t then u else u - 1]; }
      }
    }
  }

  /** While a checkpoint call is in flight its lease is the only place of the message. */
  lemma CheckpointerIsAlone(s: System, t: nat, id: MessageId)
    requires t < |s.tasks| && CheckpointTask(id)(s.tasks[t]) == 1 && CheckpointsCalm(s, id) && InPlace(s, id)
    ensures id in s.mem.leased && id in s.created
    ensures forall i :: 0 <= i < |s.mem.pending| ==> s.mem.pending[i].msg.id != id
    ensures forall i :: 0 <= i < |s.mem.delayed| ==> s.mem.delayed[i].msg.id != id
    ensures forall u :: 0 <= u < |s.tasks| ==>
      PlaceTask(id)(s.tasks[u]) == 0 && (u != t ==> CheckpointTask(id)(s.tasks[u]) == 0)
  {
    assert Holds(s.mem.leased, id, s.tasks[t].token);
    SumZero(s.mem.pending, PendingOf(id));
    SumZero(s.mem.delayed, DelayedOf(id));
    SumZero(s.tasks, PlaceTask(id));
    forall i | 0 <= i < |s.mem.pending| ensures s.mem.pending[i].msg.id != id {
      assert PendingOf(id)(s.mem.pending[i]) == 0;
    }
    forall i | 0 <= i < |s.mem.delayed| ensures s.mem.delayed[i].msg.id != id {
      assert DelayedOf(id)(s.mem.delayed[i]) == 0;
    }
    forall u | 0 <= u < |s.tasks| && u != t ensures CheckpointTask(id)(s.tasks[u]) == 0 {
      if CheckpointTask(id)(s.tasks[u]) == 1 {
        SumPair(s.tasks, if t < u then t else u, if t < u then u else t, CheckpointTask(id));
      }
    }
  }

  lemma CheckpointerTasks(
    cfg: Config, s: System, t: nat, now: Instant, logged: Option<Value>, stale: bool, id: MessageId)
    requires t < |s.tasks| && CheckpointTask(id)(s.tasks[t]) == 1 && CheckpointsCalm(s, id) && InPlace(s, id)
    requires s.tasks[t].Checkpointing? ==> logged == Some(s.tasks[t].state)
    ensures var after := Replace(s.tasks, t, NextTask(cfg, s.tasks[t], now));
      TasksKept(logged, stale, after, id) && (s.tasks[t].Checkpointing? ==> !NoneUnsaved(after, id))
  {
    var next := NextTask(cfg, s.tasks[t], now);
    var after := Replace(s.tasks, t, next);
    CheckpointerIsAlone(s, t, id);
    TasksAfter(s.tasks, t, next);
    forall v | 0 <= v < |after| ensures TaskKept(logged, stale, after[v], id) {
      if next != Some(after[v]) {
        var u :| 0 <= u < |s.tasks| && u != t && s.tasks[u] == after[v];
      }
    }
    if next.Some? { assert Unsaved(after[t], id); }
  }

  lemma CheckpointerKept(cfg: Config, s: System, t: nat, now: Instant, draw: real, id: MessageId)
    requires t < |s.tasks| && CheckpointKept(s, id) && CheckpointsCalm(s, id) && InPlace(s, id)
    requires CheckpointTask(id)(s.tasks[t]) == 1
    ensures CheckpointKept(AdvanceTask(cfg, s, t, now, draw), id)
  {
    var s' := AdvanceTask(cfg, s, t, now, draw);
    CheckpointerIsAlone(s, t, id);
    CheckpointAppend(s.main, MainAppend(s.tasks[t]), id);
    CheckpointerTasks(cfg, s, t, now, LoggedCheckpoint(s'.main, id), id in s'.stale, id);
    assert TaskKept(LoggedCheckpoint(s.main, id), id in s.stale, s.tasks[t], id);
    assert s'.mem.pending == s.mem.pending && s'.mem.delayed == s.mem.delayed;
  }

  /** A task that is the place of `id` is its only place, and no checkpoint call is in flight on it. */
  lemma CarrierIsAlone(s: System, t: nat, id: MessageId)
    requires t < |s.tasks| && PlaceTask(id)(s.tasks[t]) == 1 && CheckpointsCalm(s, id) && InPlace(s, id)
    ensures id !in s.mem.leased
    ensures forall i :: 0 <= i < |s.mem.pending| ==> s.mem.pending[i].msg.id != id
    ensures forall i :: 0 <= i < |s.mem.delayed| ==> s.mem.delayed[i].msg.id != id
    ensures forall u :: 0 <= u < |s.tasks| ==>
      CheckpointTask(id)(s.tasks[u]) == 0 && (u != t ==> PlaceTask(id)(s.tasks[u]) == 0)
  {
    SumAt(s.tasks, t, PlaceTask(id));
    SumZero(s.mem.pending, PendingOf(id));
    SumZero(s.mem.delayed, DelayedOf(id));
    forall i | 0 <= i < |s.mem.pending| ensures s.mem.pending[i].msg.id != id {
      assert PendingOf(id)(s.mem.pending[i]) == 0;
    }
    forall i | 0 <= i < |s.mem.delayed| ensures s.mem.delayed[i].msg.id != id {
      assert DelayedOf(id)(s.mem.delayed[i]) == 0;
    }
    forall u | 0 <= u < |s.tasks| && u != t ensures PlaceTask(id)(s.tasks[u]) == 0 {
      if PlaceTask(id)(s.tasks[u]) == 1 {
        SumPair(s.tasks, if t < u then t else u, if t < u then u else t, PlaceTask(id));
      }
    }
  }

  lemma CarrierKept(cfg: Config, s: System, t: nat, now: Instant, draw: real, id: MessageId)
    requires t < |s.tasks| && CheckpointKept(s, id) && CheckpointsCalm(s, id) && InPlace(s, id)
    requires PlaceTask(id)(s.tasks[t]) == 1
    ensures CheckpointKept(AdvanceTask(cfg, s, t, now, draw), id)
  {
    var task := s.tasks[t];
    var s' := AdvanceTask(cfg, s, t, now, draw);
    CarrierIsAlone(s, t, id);
    CheckpointAppend(s.main, MainAppend(task), id);
    assert TaskKept(LoggedCheckpoint(s.main, id), id in s.stale, task, id);
    CarrierTasks(cfg, s, t, now, draw, id);
    assert s'.mem.leased == s.mem.leased;
  }

  lemma CarrierTasks(cfg: Config, s: System, t: nat, now: Instant, draw: real, id: MessageId)
    requires t < |s.tasks| && CheckpointKept(s, id) && CheckpointsCalm(s, id) && InPlace(s, id)
    requires PlaceTask(id)(s.tasks[t]) == 1
    ensures var s' := AdvanceTask(cfg, s, t, now, draw);
      TasksKept(LoggedCheckpoint(s'.main, id), id in s'.stale, s'.tasks, id)
  {
    var task := s.tasks[t];
    var s' := AdvanceTask(cfg, s, t, now, draw);
    CarrierIsAlone(s, t, id);
    CheckpointAppend(s.main, MainAppend(task), id);
    assert TaskKept(LoggedCheckpoint(s.main, id), id in s.stale, task, id);
    TasksAfter(s.tasks, t, NextTask(cfg, task, now));
    forall v | 0 <= v < |s'.tasks|
      ensures TaskKept(LoggedCheckpoint(s'.main, id), id in s'.stale, s'.tasks[v], id)
    {
      if NextTask(cfg, task, now) != Some(s'.tasks[v]) {
        var u :| 0 <= u < |s.tasks| && u != t && s.tasks[u] == s'.tasks[v];
      }
    }
  }

  lemma AdvanceCheckpoint(cfg: Config, s: System, t: nat, now: Instant, draw: real, id: MessageId)
    requires t < |s.tasks| && CheckpointKept(s, id) && CheckpointsCalm(s, id) && InPlace(s, id)
    ensures CheckpointKept(AdvanceTask(cfg, s, t, now, draw), id)
  {
    if CheckpointTask(id)(s.tasks[t]) == 1 {
      CheckpointerKept(cfg, s, t, now, draw, id);
    } else if PlaceTask(id)(s.tasks[t]) == 1 {
      CarrierKept(cfg, s, t, now, draw, id);
    } else {
      StrangerCheckpoint(cfg, s, t, now, draw, id);
    }
  }

  lemma {:induction false} ReadyKept(
    delayed: seq<Delayed>, now: Instant, logged: Option<Value>, stale: bool, id: MessageId)
    requires forall i :: 0 <= i < |delayed| && delayed[i].msg.id == id ==> Kept(logged, stale, delayed[i].checkpoint)
    ensures forall i :: 0 <= i < |Ready(delayed, now)| && Ready(delayed, now)[i].msg.id == id ==>
      Kept(logged, stale, Ready(delayed, now)[i].checkpoint)
    ensures forall i :: 0 <= i < |StillDelayed(delayed, now)| && StillDelayed(delayed, now)[i].msg.id == id ==>
      Kept(logged, stale, StillDelayed(delayed, now)[i].checkpoint)
  {
    if |delayed| > 0 { ReadyKept(delayed[..|delayed| - 1], now, logged, stale, id); }
  }

  /** A claim moves an entry's checkpoint into its lease. */
  lemma ClaimCheckpoint(cfg: Config, s: System, step: Step, id: MessageId)
    requires step.ClaimNext? && CheckpointKept(s, id)
    ensures CheckpointKept(Apply(cfg, s, step), id)
  {
    var logged, stale := LoggedCheckpoint(s.main, id), id in s.stale;
    ReadyKept(s.mem.delayed, step.promoteAt, logged, stale, id);
    var promoted := PromoteReady(s.mem, step.promoteAt);
    assert QueuesKept(logged, stale, promoted, id);
    assert Apply(cfg, s, step).tasks == s.tasks;
  }

  lemma MoreTasksKept(tasks: seq<Task>, more: seq<Task>, logged: Option<Value>, stale: bool, id: MessageId)
    requires TasksKept(logged, stale, tasks, id) && TasksKept(logged, stale, more, id)
    ensures TasksKept(logged, stale, tasks + more, id)
    ensures NoneUnsaved(tasks + more, id) ==> NoneUnsaved(tasks, id)
  {
    if NoneUnsaved(tasks + more, id) {
      forall t | 0 <= t < |tasks| ensures !Unsaved(tasks[t], id) { assert (tasks + more)[t] == tasks[t]; }
    }
  }

  /** Once the lease on `id` has ended no checkpoint call is in flight on it. */
  lemma EndedIsQuiet(s: System, more: seq<Task>, mem: Memory, id: MessageId)
    requires CheckpointsCalm(s.(mem := mem, tasks := s.tasks + more), id) && id !in mem.leased
    ensures NoneUnsaved(s.tasks, id)
  {
    var after := s.(mem := mem, tasks := s.tasks + more);
    forall t | 0 <= t < |s.tasks| ensures !Unsaved(s.tasks[t], id) {
      assert after.tasks[t] == s.tasks[t];
      if Unsaved(s.tasks[t], id) { CalmIsHeld(after, t, id); }
    }
  }

  lemma CalmIsHeld(s: System, t: nat, id: MessageId)
    requires CheckpointsCalm(s, id) && t < |s.tasks| && CheckpointTask(id)(s.tasks[t]) == 1
    ensures id in s.mem.leased
  {
    assert Holds(s.mem.leased, id, s.tasks[t].token);
  }

  /** The end of leases hands their checkpoints to the failed deliveries `more`. */
  lemma LeasesEnd(s: System, more: seq<Task>, mem: Memory, id: MessageId)
    requires CheckpointKept(s, id) && CheckpointsCalm(s.(mem := mem, tasks := s.tasks + more), id)
    requires mem.pending == s.mem.pending && mem.delayed == s.mem.delayed
    requires id in mem.leased ==> id in s.mem.leased && mem.leased[id] == s.mem.leased[id]
    requires forall i :: 0 <= i < |more| ==> more[i].Failing? && (more[i].failed.msg.id == id ==>
      id in s.mem.leased && id !in mem.leased && more[i].failed.checkpoint == s.mem.leased[id].checkpoint)
    ensures CheckpointKept(s.(mem := mem, tasks := s.tasks + more), id)
  {
    var logged, stale := LoggedCheckpoint(s.main, id), id in s.stale;
    if id !in mem.leased { EndedIsQuiet(s, more, mem, id); }
    forall i | 0 <= i < |more| ensures TaskKept(logged, stale, more[i], id) {
    }
    MoreTasksKept(s.tasks, more, logged, stale, id);
  }

  lemma LeaseEndCheckpoint(cfg: Config, s: System, step: Step, id: MessageId)
    requires (step.BeginNack? || step.Reclaim?) && Enabled(cfg, s, step) && CheckpointKept(s, id) && WellKeyed(s.mem)
    requires CheckpointsCalm(Apply(cfg, s, step), id)
    ensures CheckpointKept(Apply(cfg, s, step), id)
  {
    var s' := Apply(cfg, s, step);
    var more := if step.Reclaim? then FailExpired(s.mem.leased, step.order) else Append([], Begun(s.mem, step));
    EndedTasks(cfg, s, step, more, id);
    LeasesEnd(s, more, s'.mem, id);
    SameCheckpoints(s.(mem := s'.mem, tasks := s.tasks + more), s', id);
  }

  lemma SameCheckpoints(s: System, s': System, id: MessageId)
    requires CheckpointKept(s, id) && s'.mem == s.mem && s'.tasks == s.tasks && s'.main == s.main
    requires s'.stale == s.stale && s'.created == s.created
    ensures CheckpointKept(s', id)
  {
  }

  lemma EndedTasks(cfg: Config, s: System, step: Step, more: seq<Task>, id: MessageId)
    requires (step.BeginNack? || step.Reclaim?) && Enabled(cfg, s, step) && WellKeyed(s.mem)
    requires more == if step.Reclaim? then FailExpired(s.mem.leased, step.order) else Append([], Begun(s.mem, step))
    ensures var s' := Apply(cfg, s, step);
      && s'.tasks == s.tasks + more && s'.main == s.main && s'.stale == s.stale && s'.created == s.created
      && s'.mem.pending == s.mem.pending && s'.mem.delayed == s.mem.delayed
      && (id in s'.mem.leased ==> id in s.mem.leased && s'.mem.leased[id] == s.mem.leased[id])
      && forall i :: 0 <= i < |more| ==> more[i].Failing? && (more[i].failed.msg.id == id ==>
           id in s.mem.leased && id !in s'.mem.leased && more[i].failed.checkpoint == s.mem.leased[id].checkpoint)
  {
  }

  lemma BeginCheckpointKept(cfg: Config, s: System, step: Step, id: MessageId)
    requires Starts(step) && !step.ClaimNext? && !step.BeginNack? && Enabled(cfg, s, step) && CheckpointKept(s, id)
    ensures CheckpointKept(Apply(cfg, s, step), id)
  {
    var s' := Apply(cfg, s, step);
    assert s.tasks <= s'.tasks && s'.main == s.main && s'.stale == s.stale;
    forall t | 0 <= t < |s'.tasks| ensures TaskKept(LoggedCheckpoint(s.main, id), id in s.stale, s'.tasks[t], id) {
      if t < |s.tasks| { assert s'.tasks[t] == s.tasks[t]; }
    }
    if NoneUnsaved(s'.tasks, id) {
      forall t | 0 <= t < |s.tasks| ensures !Unsaved(s.tasks[t], id) { assert s'.tasks[t] == s.tasks[t]; }
    }
  }

  /** A restart hands every recovered entry the logged checkpoint. */
  lemma RecoveredCheckpoint(main: seq<MainRecord>, i: nat)
    requires i < |ReplayMain(main).pending|
    requires forall j :: 0 <= j < i ==> ReplayMain(main).pending[j].msg.id != ReplayMain(main).pending[i].msg.id
    ensures var r := ReplayMain(main);
      var back := ApplyCheckpoints(r.pending, r.checkpoints);
      |back| == |r.pending| && back[i].msg == r.pending[i].msg
      && back[i].checkpoint == LoggedCheckpoint(main, r.pending[i].msg.id)
  {
    var r := ReplayMain(main);
    ApplyCheckpointsKeepsMessages(r.pending, r.checkpoints);
    ApplyCheckpointsHandsOut(r.pending, r.checkpoints, i);
  }

  lemma RestartCheckpoint(cfg: Config, s: System, order: seq<MessageId>, id: MessageId)
    requires Enabled(cfg, s, Crash(order)) && AllInPlace(Apply(cfg, s, Crash(order))) && CheckpointKept(s, id)
    ensures CheckpointKept(Apply(cfg, s, Crash(order)), id)
    ensures var pending := Apply(cfg, s, Crash(order)).mem.pending;
      forall i :: 0 <= i < |pending| && pending[i].msg.id == id ==>
        pending[i].checkpoint == LoggedCheckpoint(s.main, id)
  {
    var s' := Apply(cfg, s, Crash(order));
    var r := ReplayMain(s.main);
    ApplyCheckpointsKeepsMessages(r.pending, r.checkpoints);
    PendingIdsDiffer(s');
    forall i | 0 <= i < |s'.mem.pending| && s'.mem.pending[i].msg.id == id
      ensures s'.mem.pending[i].checkpoint == LoggedCheckpoint(s.main, id)
    {
      assert forall j :: 0 <= j < |r.pending| ==> s'.mem.pending[j].msg == r.pending[j].msg;
      RecoveredCheckpoint(s.main, i);
    }
  }

  /** A step of a clean run keeps it while no checkpoint call on `id` overlaps another or the end of
      its lease. */
  lemma StepKeepsCheckpoint(cfg: Config, s: System, step: Step, id: MessageId)
    requires Enabled(cfg, s, step) && !step.AppendFails? && (step.Crash? ==> s.tasks == []) && Exact(s)
    requires CheckpointsCalm(s, id) && CheckpointsCalm(Apply(cfg, s, step), id) && CheckpointKept(s, id)
    ensures CheckpointKept(Apply(cfg, s, step), id)
  {
    TraceableIsWellKeyed(s);
    assert InPlace(s, id);
    if step.Advance? {
      AdvanceCheckpoint(cfg, s, step.task, step.now, step.draw, id);
    } else if step.Crash? {
      RestartKeepsExact(cfg, s, step.order);
      RestartCheckpoint(cfg, s, step.order, id);
    } else if step.ClaimNext? {
      ClaimCheckpoint(cfg, s, step, id);
    } else if step.BeginNack? || step.Reclaim? {
      LeaseEndCheckpoint(cfg, s, step, id);
    } else {
      BeginCheckpointKept(cfg, s, step, id);
    }
  }

  /** At no moment of the run do checkpoint calls on `id` overlap each other or the end of their lease. */
  ghost predicate CheckpointsAlwaysCalm(cfg: Config, steps: seq<Step>, id: MessageId)
    requires ValidRun(cfg, INITIAL, steps)
  {
    CheckpointsCalm(Run(cfg, INITIAL, steps), id)
    && (|steps| == 0 || CheckpointsAlwaysCalm(cfg, steps[..|steps| - 1], id))
  }

  lemma {:induction false} RunKeepsCheckpoint(cfg: Config, steps: seq<Step>, id: MessageId)
    requires ValidRun(cfg, INITIAL, steps) && Clean(cfg, steps) && CheckpointsAlwaysCalm(cfg, steps, id)
    ensures CheckpointKept(Run(cfg, INITIAL, steps), id)
    decreases |steps|
  {
    if |steps| > 0 {
      var front := steps[..|steps| - 1];
      RunKeepsCheckpoint(cfg, front, id);
      RunKeepsExact(cfg, front);
      StepKeepsCheckpoint(cfg, Run(cfg, INITIAL, front), steps[|steps| - 1], id);
    }
  }

  /** After a clean run in which checkpoint calls on a message never overlap each other or the end of
      their lease, a restart with no call in flight brings back a live message's checkpoint if and only
      if the message was not re-enqueued out of the dead-letter queue since it was last written. */
  lemma RestartRecoversCheckpoint(
    cfg: Config, steps: seq<Step>, order: seq<MessageId>, id: MessageId, live: Option<Value>, recovered: Option<Value>)
    requires ValidRun(cfg, INITIAL, steps) && Clean(cfg, steps) && CheckpointsAlwaysCalm(cfg, steps, id)
    requires Run(cfg, INITIAL, steps).tasks == [] && Enabled(cfg, Run(cfg, INITIAL, steps), Crash(order))
    requires LiveCheckpoint(Run(cfg, INITIAL, steps).mem, id, live)
    requires LiveCheckpoint(Apply(cfg, Run(cfg, INITIAL, steps), Crash(order)).mem, id, recovered)
    ensures recovered == live <==> id !in Run(cfg, INITIAL, steps).stale
  {
    var s := Run(cfg, INITIAL, steps);
    RunKeepsCheckpoint(cfg, steps, id);
    assert AllInPlace(Apply(cfg, s, Crash(order))) by {
      RunKeepsExact(cfg, steps);
      RestartKeepsExact(cfg, s, order);
    }
    RestartCheckpoint(cfg, s, order, id);
  }
}
