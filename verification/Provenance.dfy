/** Where everything held came from: every message, in memory, in a task or in a log, is the
    one created under its id, and every checkpoint held was written to the main log first. */
module Provenance {
  import opened Wrappers
  import opened Messages
  import opened Steps

  ghost predicate Genuine(created: map<MessageId, Message>, msg: Message) {
    msg.id in created && created[msg.id] == msg
  }

  ghost predicate Written(main: seq<MainRecord>, id: MessageId, checkpoint: Option<Value>) {
    checkpoint.Some? ==> Checkpoint(id, checkpoint.value) in main
  }

  ghost predicate Traceable(
    created: map<MessageId, Message>, main: seq<MainRecord>, msg: Message, checkpoint: Option<Value>) {
    Genuine(created, msg) && Written(main, msg.id, checkpoint)
  }

  ghost predicate MemoryTraceable(created: map<MessageId, Message>, main: seq<MainRecord>, mem: Memory) {
    && (forall i :: 0 <= i < |mem.pending| ==>
          Traceable(created, main, mem.pending[i].msg, mem.pending[i].checkpoint))
    && (forall id :: id in mem.leased ==>
          Traceable(created, main, mem.leased[id].msg, mem.leased[id].checkpoint) && mem.leased[id].msg.id == id)
    && (forall i :: 0 <= i < |mem.delayed| ==>
          Traceable(created, main, mem.delayed[i].msg, mem.delayed[i].checkpoint))
    && (forall id :: id in mem.dlq ==>
          Traceable(created, main, mem.dlq[id].msg, mem.dlq[id].checkpoint) && mem.dlq[id].msg.id == id)
  }

  ghost predicate TaskTraceable(created: map<MessageId, Message>, main: seq<MainRecord>, task: Task) {
    match task
    case Enqueueing(msg) => Genuine(created, msg)
    case Enqueued(msg) => Genuine(created, msg)
    case Reviving(msg) => Genuine(created, msg)
    case Releasing(msg) => Genuine(created, msg)
    case Failing(f) => Traceable(created, main, f.msg, f.checkpoint)
    case Recording(letter) => Traceable(created, main, letter.msg, letter.checkpoint)
    case Taking(letter, _) => Traceable(created, main, letter.msg, letter.checkpoint)
    case Checkpointed(id, _, state) => Checkpoint(id, state) in main
    case _ => true
  }

  ghost predicate LogsTraceable(created: map<MessageId, Message>, main: seq<MainRecord>, dlqLog: seq<DlqRecord>) {
    && (forall i :: 0 <= i < |main| && main[i].Enqueue? ==> Genuine(created, main[i].msg))
    && (forall i :: 0 <= i < |dlqLog| && dlqLog[i].Record? ==>
          Traceable(created, main, dlqLog[i].letter.msg, dlqLog[i].letter.checkpoint))
  }

  ghost predicate AllTraceable(s: System) {
    && MemoryTraceable(s.created, s.main, s.mem)
    && LogsTraceable(s.created, s.main, s.dlqLog)
    && forall t :: 0 <= t < |s.tasks| ==> TaskTraceable(s.created, s.main, s.tasks[t])
  }

  /** Later records and later messages cannot make a thing less traceable. */
  lemma TraceableGrows(
    created: map<MessageId, Message>, main: seq<MainRecord>, created': map<MessageId, Message>, main': seq<MainRecord>,
    s: System)
    requires forall id :: id in created ==> id in created' && created'[id] == created[id]
    requires main <= main'
    requires AllTraceable(s.(created := created, main := main))
    ensures MemoryTraceable(created', main', s.mem)
    ensures forall t :: 0 <= t < |s.tasks| ==> TaskTraceable(created', main', s.tasks[t])
    ensures LogsTraceable(created', main, s.dlqLog)
    ensures forall i :: 0 <= i < |s.dlqLog| && s.dlqLog[i].Record? ==>
      Traceable(created', main', s.dlqLog[i].letter.msg, s.dlqLog[i].letter.checkpoint)
  {
    assert forall record :: record in main ==> record in main';
  }

  lemma AdvanceTraceable(cfg: Config, s: System, t: nat, now: Instant, draw: real)
    requires t < |s.tasks| && AllTraceable(s)
    ensures AllTraceable(AdvanceTask(cfg, s, t, now, draw))
  {
    var task := s.tasks[t];
    var s' := AdvanceTask(cfg, s, t, now, draw);
    TraceableGrows(s.created, s.main, s.created, s'.main, s);
    assert TaskTraceable(s.created, s'.main, task);
    EffectTraceable(cfg, s.created, s'.main, s.mem, task, now, draw);
    NextTraceable(cfg, s.created, s.main, task, now);
    assert DlqAppend(cfg, task, now).Some? && DlqAppend(cfg, task, now).value.Record? ==> task.Failing?;
  }

  lemma EffectTraceable(
    cfg: Config, created: map<MessageId, Message>, main: seq<MainRecord>, mem: Memory, task: Task, now: Instant,
    draw: real)
    requires MemoryTraceable(created, main, mem) && TaskTraceable(created, main, task)
    ensures MemoryTraceable(created, main, Effect(cfg, mem, task, now, draw))
  {
  }

  lemma NextTraceable(cfg: Config, created: map<MessageId, Message>, main: seq<MainRecord>, task: Task, now: Instant)
    requires TaskTraceable(created, main, task)
    ensures var next := NextTask(cfg, task, now);
      next.Some? ==> TaskTraceable(created, Append(main, MainAppend(task)), next.value)
  {
    var main' := Append(main, MainAppend(task));
    assert forall record :: record in main ==> record in main';
    if MainAppend(task).Some? { assert main'[|main|] == MainAppend(task).value; }
  }

  lemma {:induction false} ReadyTraceable(
    created: map<MessageId, Message>, main: seq<MainRecord>, delayed: seq<Delayed>, now: Instant)
    requires forall i :: 0 <= i < |delayed| ==> Traceable(created, main, delayed[i].msg, delayed[i].checkpoint)
    ensures forall i :: 0 <= i < |Ready(delayed, now)| ==>
      Traceable(created, main, Ready(delayed, now)[i].msg, Ready(delayed, now)[i].checkpoint)
    ensures forall i :: 0 <= i < |StillDelayed(delayed, now)| ==>
      Traceable(created, main, StillDelayed(delayed, now)[i].msg, StillDelayed(delayed, now)[i].checkpoint)
  {
    if |delayed| > 0 {
      ReadyTraceable(created, main, delayed[..|delayed| - 1], now);
    }
  }

  lemma SectionTraceable(cfg: Config, created: map<MessageId, Message>, main: seq<MainRecord>, mem: Memory, step: Step)
    requires MemoryTraceable(created, main, mem)
    ensures MemoryTraceable(created, main, Section(cfg, mem, step))
    ensures Begun(mem, step).Some? && !step.BeginEnqueue? ==> TaskTraceable(created, main, Begun(mem, step).value)
  {
    if step.ClaimNext? { ReadyTraceable(created, main, mem.delayed, step.promoteAt); }
  }

  lemma {:induction false} ReplayTraceable(
    created: map<MessageId, Message>, main: seq<MainRecord>, whole: seq<MainRecord>)
    requires forall i :: 0 <= i < |main| && main[i].Enqueue? ==> Genuine(created, main[i].msg)
    requires forall record :: record in main ==> record in whole
    ensures forall i :: 0 <= i < |ReplayMain(main).pending| ==> Genuine(created, ReplayMain(main).pending[i].msg)
    ensures forall id :: id in ReplayMain(main).checkpoints ==>
      Checkpoint(id, ReplayMain(main).checkpoints[id]) in whole
  {
    if |main| > 0 {
      ReplayTraceable(created, main[..|main| - 1], whole);
      assert main[|main| - 1] in whole;
    }
  }

  lemma {:induction false} ReplayDlqTraceable(
    created: map<MessageId, Message>, main: seq<MainRecord>, log: seq<DlqRecord>)
    requires forall i :: 0 <= i < |log| && log[i].Record? ==>
      Traceable(created, main, log[i].letter.msg, log[i].letter.checkpoint)
    ensures forall id :: id in ReplayDlq(log) ==>
      Traceable(created, main, ReplayDlq(log)[id].msg, ReplayDlq(log)[id].checkpoint) && ReplayDlq(log)[id].msg.id == id
  {
    if |log| > 0 {
      ReplayDlqTraceable(created, main, log[..|log| - 1]);
    }
  }

  lemma RecoverTraceable(
    created: map<MessageId, Message>, main: seq<MainRecord>, dlqLog: seq<DlqRecord>, order: seq<MessageId>)
    requires LogsTraceable(created, main, dlqLog)
    ensures MemoryTraceable(created, main, Recover(main, dlqLog, order))
  {
    var r := ReplayMain(main);
    ReplayTraceable(created, main, main);
    ReplayDlqTraceable(created, main, dlqLog);
    ApplyCheckpointsKeepsMessages(r.pending, r.checkpoints);
    var pending := ApplyCheckpoints(r.pending, r.checkpoints);
    forall i | 0 <= i < |pending|
      ensures Traceable(created, main, pending[i].msg, pending[i].checkpoint)
    {
      ApplyCheckpointsHandsOut(r.pending, r.checkpoints, i);
    }
  }

  lemma StepKeepsTraceable(cfg: Config, s: System, step: Step)
    requires Enabled(cfg, s, step) && AllTraceable(s)
    ensures AllTraceable(Apply(cfg, s, step))
  {
    var s' := Apply(cfg, s, step);
    match step
    case Advance(t, now, draw) => AdvanceTraceable(cfg, s, t, now, draw);
    case AppendFails(t) =>
    case Crash(order) => RecoverTraceable(s.created, s.main, s.dlqLog, order);
    case _ =>
      SectionTraceable(cfg, s.created, s.main, s.mem, step);
      TraceableGrows(s.created, s.main, s'.created, s.main, s.(mem := s'.mem));
  }

  /** Over every run, everything held or logged is genuine, and no checkpoint in memory is
      ahead of the log. */
  lemma {:induction false} RunKeepsTraceable(cfg: Config, steps: seq<Step>)
    requires ValidRun(cfg, INITIAL, steps)
    ensures AllTraceable(Run(cfg, INITIAL, steps))
    decreases |steps|
  {
    if |steps| > 0 {
      var front := steps[..|steps| - 1];
      RunKeepsTraceable(cfg, front);
      StepKeepsTraceable(cfg, Run(cfg, INITIAL, front), steps[|steps| - 1]);
    }
  }
}
