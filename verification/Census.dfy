/** Counting the places of one message: weights for each collection, and how each
    collection-level operation changes the count. */
module Census {
  import opened Wrappers
  import opened Counting
  import opened Messages
  import opened Steps

  function One(b: bool): nat { if b then 1 else 0 }

  function PendingOf(id: MessageId): Pending -> nat { (p: Pending) => One(p.msg.id == id) }

  function DelayedOf(id: MessageId): Delayed -> nat { (d: Delayed) => One(d.msg.id == id) }

  /** Entries for `id` in pending, leased and delayed together. */
  function Held(mem: Memory, id: MessageId): nat {
    Sum(mem.pending, PendingOf(id)) + One(id in mem.leased) + Sum(mem.delayed, DelayedOf(id))
  }

  /** Each map files a message under its own id. */
  ghost predicate WellKeyed(mem: Memory) {
    && (forall id :: id in mem.leased ==> mem.leased[id].msg.id == id)
    && (forall id :: id in mem.dlq ==> mem.dlq[id].msg.id == id)
  }

  lemma RemoveFirstCount(pending: seq<Pending>, gone: MessageId, id: MessageId)
    ensures Sum(RemoveFirst(pending, gone), PendingOf(id))
         == Sum(pending, PendingOf(id)) - One(id == gone && Position(pending, gone).Some?)
  {
    match Position(pending, gone)
    case None =>
    case Some(i) => SumWithout(pending, i, PendingOf(id));
  }

  /** An id is found in a pending sequence exactly when it is counted there. */
  lemma PositionCount(pending: seq<Pending>, id: MessageId)
    ensures Position(pending, id).Some? <==> Sum(pending, PendingOf(id)) > 0
  {
    SumZero(pending, PendingOf(id));
  }

  lemma {:induction false} PromoteCount(delayed: seq<Delayed>, now: Instant, id: MessageId)
    ensures Sum(Ready(delayed, now), PendingOf(id)) + Sum(StillDelayed(delayed, now), DelayedOf(id))
         == Sum(delayed, DelayedOf(id))
  {
    if |delayed| > 0 {
      var front := delayed[..|delayed| - 1];
      var last := delayed[|delayed| - 1];
      PromoteCount(front, now, id);
      if last.availableAt <= now {
        SumAppend(Ready(front, now), Pending(last.msg, last.deliveryCount, last.checkpoint), PendingOf(id));
      } else {
        SumAppend(StillDelayed(front, now), last, DelayedOf(id));
      }
    }
  }

  /** Promotion moves entries between collections without creating or losing any. */
  lemma PromoteKeepsHeld(mem: Memory, now: Instant, id: MessageId)
    ensures Held(PromoteReady(mem, now), id) == Held(mem, id)
  {
    PromoteCount(mem.delayed, now, id);
    SumConcat(mem.pending, Ready(mem.delayed, now), PendingOf(id));
  }

  /** Leasing the front moves one entry, unless it overwrites a lease on the same id. */
  lemma LeaseFrontHeld(cfg: Config, mem: Memory, now: Instant, id: MessageId)
    requires |mem.pending| > 0
    ensures Held(LeaseFront(cfg, mem, now), id) + One(id == mem.pending[0].msg.id && id in mem.leased) == Held(mem, id)
  {
    SumSplit(mem.pending, 0, PendingOf(id));
    assert mem.pending[..0] == [];
  }

  /** Every expired lease becomes exactly one failed delivery of its message. */
  lemma {:induction false} FailExpiredCount(
    leased: map<MessageId, Leased>, order: seq<MessageId>, id: MessageId, w: Task -> nat, k: nat)
    requires forall i :: 0 <= i < |order| ==> order[i] in leased && leased[order[i]].msg.id == order[i]
    requires forall i, j :: 0 <= i < j < |order| ==> order[i] != order[j]
    requires forall f: Failed :: w(Failing(f)) == if f.msg.id == id then k else 0
    ensures Sum(FailExpired(leased, order), w) == if id in order then k else 0
  {
    if |order| > 0 {
      var front := order[..|order| - 1];
      FailExpiredCount(leased, front, id, w, k);
      var all := FailExpired(leased, order);
      assert all[..|all| - 1] == FailExpired(leased, front);
      assert order == front + [order[|order| - 1]];
    }
  }

  function WeightOf(w: Task -> nat, task: Option<Task>): nat {
    if task.Some? then w(task.value) else 0
  }

  /** Moving one task on changes a count by that task's weights alone. */
  lemma ReplaceCount(tasks: seq<Task>, t: nat, next: Option<Task>, w: Task -> nat)
    requires t < |tasks|
    ensures Sum(Replace(tasks, t, next), w) + w(tasks[t]) == Sum(tasks, w) + WeightOf(w, next)
  {
    if next.Some? { SumUpdate(tasks, t, next.value, w); } else { SumWithout(tasks, t, w); }
  }

  /** Starting a call changes a count by the weight of the task it leaves behind. */
  lemma BegunCount(tasks: seq<Task>, begun: Option<Task>, w: Task -> nat)
    ensures Sum(Append(tasks, begun), w) == Sum(tasks, w) + WeightOf(w, begun)
  {
    if begun.Some? { SumAppend(tasks, begun.value, w); }
  }

  /** A call whose first lock section is one step of its own: neither a continuation, nor a
      crash, nor the batch removal of expired leases. */
  predicate Starts(step: Step) {
    !step.Advance? && !step.AppendFails? && !step.Crash? && !step.Reclaim?
  }

  lemma {:induction false} ReplayDlqWellKeyed(log: seq<DlqRecord>)
    ensures forall id :: id in ReplayDlq(log) ==> ReplayDlq(log)[id].msg.id == id
  {
    if |log| > 0 {
      ReplayDlqWellKeyed(log[..|log| - 1]);
    }
  }

  lemma StepKeepsWellKeyed(cfg: Config, s: System, step: Step)
    requires WellKeyed(s.mem) && Enabled(cfg, s, step)
    ensures WellKeyed(Apply(cfg, s, step).mem)
  {
    match step
    case Crash(_) => ReplayDlqWellKeyed(s.dlqLog);
    case Advance(t, now, draw) => EffectKeepsWellKeyed(cfg, s.mem, s.tasks[t], now, draw);
    case AppendFails(_) =>
    case _ => SectionKeepsWellKeyed(cfg, s.mem, step);
  }

  lemma EffectKeepsWellKeyed(cfg: Config, mem: Memory, task: Task, now: Instant, draw: real)
    requires WellKeyed(mem)
    ensures WellKeyed(Effect(cfg, mem, task, now, draw))
  {
  }

  lemma SectionKeepsWellKeyed(cfg: Config, mem: Memory, step: Step)
    requires WellKeyed(mem)
    ensures WellKeyed(Section(cfg, mem, step))
  {
  }

  /** Recovery restores exactly the copies the main log replays to. */
  lemma RecoverHeld(main: seq<MainRecord>, dlqLog: seq<DlqRecord>, order: seq<MessageId>, id: MessageId)
    ensures Held(Recover(main, dlqLog, order), id) == Sum(ReplayMain(main).pending, PendingOf(id))
  {
    var r := ReplayMain(main);
    ApplyCheckpointsKeepsMessages(r.pending, r.checkpoints);
    SameIdsSameCount(ApplyCheckpoints(r.pending, r.checkpoints), r.pending, id);
  }

  lemma {:induction false} SameIdsSameCount(p: seq<Pending>, q: seq<Pending>, id: MessageId)
    requires |p| == |q| && forall i :: 0 <= i < |p| ==> p[i].msg == q[i].msg
    ensures Sum(p, PendingOf(id)) == Sum(q, PendingOf(id))
    decreases |p|
  {
    if |p| > 0 {
      SameIdsSameCount(p[..|p| - 1], q[..|q| - 1], id);
    }
  }
}
