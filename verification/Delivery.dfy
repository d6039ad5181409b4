/** With an attempt limit, deliveries are bounded: each message is claimed at most
    `MaxDeliveries` times, so `E` enqueues allow at most `E * MaxDeliveries` claims. */
module Delivery {
  import opened Wrappers
  import opened Counting
  import opened Retry
  import opened Messages
  import opened Steps
  import opened Census
  import opened Partition
  import Keys

  function IssuedFor(id: MessageId): LeaseEvent -> nat {
    (e: LeaseEvent) => One(e.Issued? && e.id == id)
  }

  /** How often `id` has been claimed in the running process. */
  function ClaimsOf(history: seq<LeaseEvent>, id: MessageId): nat {
    Sum(history, IssuedFor(id))
  }

  /** Every entry for `id` counts its claims truly, and only a leased or failing one may have
      used the last allowed delivery. */
  ghost predicate MemoryPaced(mem: Memory, id: MessageId, claims: nat, limit: nat) {
    && (forall i :: 0 <= i < |mem.pending| && mem.pending[i].msg.id == id ==>
          mem.pending[i].deliveryCount == claims < limit)
    && (id in mem.leased ==> mem.leased[id].deliveryCount == claims <= limit)
    && (forall i :: 0 <= i < |mem.delayed| && mem.delayed[i].msg.id == id ==>
          mem.delayed[i].deliveryCount == claims < limit)
  }

  ghost predicate TaskPaced(task: Task, id: MessageId, claims: nat, limit: nat) {
    match task
    case Enqueueing(msg) => msg.id == id ==> claims == 0
    case Enqueued(msg) => msg.id == id ==> claims == 0
    case Failing(f) => f.msg.id == id ==> f.deliveryCount == claims <= limit
    case Taking(_, purpose) => purpose.Purge?
    case Reviving(_) => false
    case _ => true
  }

  ghost predicate Paced(cfg: Config, s: System, id: MessageId)
    requires cfg.policy.maxAttempts.Some?
  {
    var claims := ClaimsOf(s.history, id);
    var limit := MaxDeliveries(cfg.policy);
    && claims <= limit
    && (id !in s.created ==> claims == 0)
    && MemoryPaced(s.mem, id, claims, limit)
    && forall t :: 0 <= t < |s.tasks| ==> TaskPaced(s.tasks[t], id, claims, limit)
  }

  ghost predicate AllPaced(cfg: Config, s: System)
    requires cfg.policy.maxAttempts.Some?
  {
    forall id :: Paced(cfg, s, id)
  }

  lemma {:induction false} ReadyPaced(delayed: seq<Delayed>, now: Instant, id: MessageId, claims: nat, limit: nat)
    requires forall i :: 0 <= i < |delayed| && delayed[i].msg.id == id ==> delayed[i].deliveryCount == claims < limit
    ensures forall i :: 0 <= i < |Ready(delayed, now)| && Ready(delayed, now)[i].msg.id == id ==>
      Ready(delayed, now)[i].deliveryCount == claims < limit
    ensures forall i :: 0 <= i < |StillDelayed(delayed, now)| && StillDelayed(delayed, now)[i].msg.id == id ==>
      StillDelayed(delayed, now)[i].deliveryCount == claims < limit
  {
    if |delayed| > 0 {
      ReadyPaced(delayed[..|delayed| - 1], now, id, claims, limit);
    }
  }

  lemma EffectPaced(cfg: Config, mem: Memory, task: Task, now: Instant, draw: real, id: MessageId, claims: nat)
    requires cfg.policy.maxAttempts.Some?
    requires MemoryPaced(mem, id, claims, MaxDeliveries(cfg.policy))
    requires TaskPaced(task, id, claims, MaxDeliveries(cfg.policy))
    ensures MemoryPaced(Effect(cfg, mem, task, now, draw), id, claims, MaxDeliveries(cfg.policy))
    ensures var next := NextTask(cfg, task, now);
      next.Some? ==> TaskPaced(next.value, id, claims, MaxDeliveries(cfg.policy))
  {
  }

  lemma SectionPaced(cfg: Config, mem: Memory, step: Step, id: MessageId, claims: nat, limit: nat)
    requires MemoryPaced(mem, id, claims, limit) && WellKeyed(mem)
    requires !step.ClaimNext? && !(step.BeginTake? && step.purpose.Reprocess?)
    requires step.BeginEnqueue? && step.msg.id == id ==> claims == 0
    ensures MemoryPaced(Section(cfg, mem, step), id, claims, limit)
    ensures Begun(mem, step).Some? ==> TaskPaced(Begun(mem, step).value, id, claims, limit)
  {
  }

  lemma PromotePaced(mem: Memory, now: Instant, id: MessageId, claims: nat, limit: nat)
    requires MemoryPaced(mem, id, claims, limit)
    ensures MemoryPaced(PromoteReady(mem, now), id, claims, limit)
  {
    ReadyPaced(mem.delayed, now, id, claims, limit);
  }

  /** The claimed message has its lease as its only place, so no stale count of it is left. */
  lemma ClaimedElsewhere(cfg: Config, s: System, step: Step, id: MessageId, limit: nat)
    requires step.ClaimNext? && WellKeyed(s.mem) && AllInPlace(s)
    requires forall t :: 0 <= t < |s.tasks| ==> TaskPaced(s.tasks[t], id, ClaimsOf(s.history, id), limit)
    requires var pending := PromoteReady(s.mem, step.promoteAt).pending; |pending| > 0 && pending[0].msg.id == id
    ensures var s' := Apply(cfg, s, step);
      && Alive(s', id)
      && (forall i :: 0 <= i < |s'.mem.pending| ==> s'.mem.pending[i].msg.id != id)
      && (forall i :: 0 <= i < |s'.mem.delayed| ==> s'.mem.delayed[i].msg.id != id)
      && (forall t, claims :: 0 <= t < |s'.tasks| ==> TaskPaced(s'.tasks[t], id, claims, limit))
  {
    var s' := Apply(cfg, s, step);
    StartPlaces(cfg, s, step, id);
    Keys.NoPlaceMeansAbsent(s'.(mem := s'.mem.(leased := s'.mem.leased - {id})), id);
    forall t, claims | 0 <= t < |s'.tasks| ensures TaskPaced(s'.tasks[t], id, claims, limit) {
      assert Keys.TaskMessage(s'.tasks[t]).Some? ==> Keys.TaskMessage(s'.tasks[t]).value.id != id;
    }
  }

  /** Claiming counts: the claimed message moves to its lease with one more delivery. */
  lemma ClaimPaced(cfg: Config, s: System, step: Step, id: MessageId)
    requires cfg.policy.maxAttempts.Some? && step.ClaimNext? && WellKeyed(s.mem) && AllInPlace(s)
    requires Paced(cfg, s, id)
    ensures Paced(cfg, Apply(cfg, s, step), id)
  {
    var s' := Apply(cfg, s, step);
    var limit := MaxDeliveries(cfg.policy);
    var promoted := PromoteReady(s.mem, step.promoteAt);
    PromotePaced(s.mem, step.promoteAt, id, ClaimsOf(s.history, id), limit);
    if |promoted.pending| == 0 {
      assert s'.history == s.history;
    } else {
      var event := Issued(s.mem.nextToken, promoted.pending[0].msg.id);
      assert s'.history == s.history + [event];
      assert ClaimsOf(s'.history, id) == ClaimsOf(s.history, id) + One(event.id == id) by {
        SumAppend(s.history, event, IssuedFor(id));
      }
      assert s'.tasks == s.tasks && s'.created == s.created;
      LeasePaced(cfg, promoted, step.leaseAt, id, ClaimsOf(s.history, id), limit);
      if event.id == id { ClaimedElsewhere(cfg, s, step, id, limit); }
    }
  }

  /** Leasing the front keeps every other count, and counts one more delivery of the front. */
  lemma LeasePaced(cfg: Config, mem: Memory, now: Instant, id: MessageId, claims: nat, limit: nat)
    requires |mem.pending| > 0 && MemoryPaced(mem, id, claims, limit)
    ensures mem.pending[0].msg.id != id ==> MemoryPaced(LeaseFront(cfg, mem, now), id, claims, limit)
    ensures mem.pending[0].msg.id == id ==>
      claims < limit && LeaseFront(cfg, mem, now).leased[id].deliveryCount == claims + 1
  {
  }

  lemma StartPaced(cfg: Config, s: System, step: Step, id: MessageId)
    requires cfg.policy.maxAttempts.Some? && Starts(step) && !step.ClaimNext? && Enabled(cfg, s, step)
    requires !(step.BeginTake? && step.purpose.Reprocess?) && WellKeyed(s.mem) && Paced(cfg, s, id)
    ensures Paced(cfg, Apply(cfg, s, step), id)
  {
    SectionPaced(cfg, s.mem, step, id, ClaimsOf(s.history, id), MaxDeliveries(cfg.policy));
    SameClaims(s.history, LeaseEvents(s.mem, step), id);
  }

  lemma FailPaced(cfg: Config, s: System, t: nat, id: MessageId)
    requires cfg.policy.maxAttempts.Some? && t < |s.tasks| && Paced(cfg, s, id)
    ensures Paced(cfg, FailTask(s, t), id)
  {
    assert TaskPaced(s.tasks[t], id, ClaimsOf(s.history, id), MaxDeliveries(cfg.policy));
  }

  lemma ReclaimPaced(cfg: Config, s: System, step: Step, id: MessageId)
    requires cfg.policy.maxAttempts.Some? && Enabled(cfg, s, step) && WellKeyed(s.mem) && step.Reclaim?
    requires Paced(cfg, s, id)
    ensures Paced(cfg, Apply(cfg, s, step), id)
  {
    SameClaims(s.history, LeaseEvents(s.mem, step), id);
  }

  /** Resolutions are not claims. */
  lemma SameClaims(history: seq<LeaseEvent>, events: seq<LeaseEvent>, id: MessageId)
    requires forall i :: 0 <= i < |events| ==> events[i].Resolved?
    ensures ClaimsOf(history + events, id) == ClaimsOf(history, id)
  {
    SumConcat(history, events, IssuedFor(id));
    SumZero(events, IssuedFor(id));
  }

  lemma AdvancePaced(cfg: Config, s: System, t: nat, now: Instant, draw: real, id: MessageId)
    requires cfg.policy.maxAttempts.Some? && t < |s.tasks| && Paced(cfg, s, id)
    ensures Paced(cfg, AdvanceTask(cfg, s, t, now, draw), id)
  {
    var claims := ClaimsOf(s.history, id);
    assert TaskPaced(s.tasks[t], id, claims, MaxDeliveries(cfg.policy));
    EffectPaced(cfg, s.mem, s.tasks[t], now, draw, id, claims);
  }

  lemma StepKeepsPaced(cfg: Config, s: System, step: Step)
    requires cfg.policy.maxAttempts.Some? && Enabled(cfg, s, step) && WellKeyed(s.mem) && AllInPlace(s)
    requires !step.Crash? && !(step.BeginTake? && step.purpose.Reprocess?)
    requires AllPaced(cfg, s)
    ensures AllPaced(cfg, Apply(cfg, s, step))
  {
    forall id ensures Paced(cfg, Apply(cfg, s, step), id) {
      assert Paced(cfg, s, id);
      match step
      case Advance(t, now, draw) => AdvancePaced(cfg, s, t, now, draw, id);
      case ClaimNext(_, _) => ClaimPaced(cfg, s, step, id);
      case Reclaim(_, _) => ReclaimPaced(cfg, s, step, id);
      case AppendFails(t) => FailPaced(cfg, s, t, id);
      case _ => StartPaced(cfg, s, step, id);
    }
  }

  ghost predicate ReprocessFree(steps: seq<Step>) {
    forall i :: 0 <= i < |steps| ==> !(steps[i].BeginTake? && steps[i].purpose.Reprocess?)
  }

  /** No delivery ever exceeds the limit, and a message waiting to be claimed always has one left. */
  lemma {:induction false} RunKeepsPaced(cfg: Config, steps: seq<Step>)
    requires cfg.policy.maxAttempts.Some?
    requires ValidRun(cfg, INITIAL, steps) && CrashFree(steps) && ReprocessFree(steps)
    ensures AllPaced(cfg, Run(cfg, INITIAL, steps))
    decreases |steps|
  {
    if |steps| > 0 {
      var front := steps[..|steps| - 1];
      RunKeepsPaced(cfg, front);
      RunKeepsPlaces(cfg, front);
      StepKeepsPaced(cfg, Run(cfg, INITIAL, front), steps[|steps| - 1]);
    }
  }

  // ---- From a bound per message to a bound on the run -----------------------------------------

  function IssuedIn(ids: set<MessageId>): LeaseEvent -> nat {
    (e: LeaseEvent) => One(e.Issued? && e.id in ids)
  }

  function AnyIssued(): LeaseEvent -> nat {
    (e: LeaseEvent) => One(e.Issued?)
  }

  lemma {:induction false} ClaimsSplit(history: seq<LeaseEvent>, ids: set<MessageId>, id: MessageId)
    requires id in ids
    ensures Sum(history, IssuedIn(ids)) == Sum(history, IssuedIn(ids - {id})) + Sum(history, IssuedFor(id))
    decreases |history|
  {
    if |history| > 0 {
      ClaimsSplit(history[..|history| - 1], ids, id);
    }
  }

  /** No id was claimed more than `limit` times, and none but `ids` at all. */
  ghost predicate ClaimsWithin(history: seq<LeaseEvent>, ids: set<MessageId>, limit: nat) {
    && (forall id :: id in ids ==> ClaimsOf(history, id) <= limit)
    && (forall id :: id !in ids ==> ClaimsOf(history, id) == 0)
  }

  lemma ClaimsTotal(history: seq<LeaseEvent>, ids: set<MessageId>, limit: nat)
    requires ClaimsWithin(history, ids, limit)
    ensures Sum(history, AnyIssued()) <= limit * |ids|
  {
    ClaimsBounded(history, ids, limit);
    ClaimedWereCreated(history, ids);
  }

  lemma {:induction false} ClaimsBounded(history: seq<LeaseEvent>, ids: set<MessageId>, limit: nat)
    requires forall id :: id in ids ==> ClaimsOf(history, id) <= limit
    ensures Sum(history, IssuedIn(ids)) <= limit * |ids|
    decreases |ids|
  {
    if ids == {} {
      SumZero(history, IssuedIn(ids));
    } else {
      var id :| id in ids;
      ClaimsBounded(history, ids - {id}, limit);
      ClaimsSplit(history, ids, id);
      assert |ids| == |ids - {id}| + 1;
      assert limit * |ids| == limit * |ids - {id}| + limit;
    }
  }

  /** A message with a claim left keeps the total short of the bound. */
  lemma ClaimsToSpare(history: seq<LeaseEvent>, ids: set<MessageId>, limit: nat, id: MessageId)
    requires ClaimsWithin(history, ids, limit) && id in ids && ClaimsOf(history, id) < limit
    ensures Sum(history, AnyIssued()) < limit * |ids|
  {
    ClaimsBesides(history, ids, limit, id);
    assert |ids| == |ids - {id}| + 1;
    assert limit * |ids| == limit * |ids - {id}| + limit;
  }

  lemma ClaimsBesides(history: seq<LeaseEvent>, ids: set<MessageId>, limit: nat, id: MessageId)
    requires ClaimsWithin(history, ids, limit) && id in ids
    ensures Sum(history, AnyIssued()) <= limit * |ids - {id}| + ClaimsOf(history, id)
  {
    ClaimedWereCreated(history, ids);
    ClaimsSplit(history, ids, id);
    ClaimsBounded(history, ids - {id}, limit);
  }

  lemma {:induction false} ClaimedWereCreated(history: seq<LeaseEvent>, ids: set<MessageId>)
    requires forall id :: id !in ids ==> ClaimsOf(history, id) == 0
    ensures Sum(history, AnyIssued()) == Sum(history, IssuedIn(ids))
    decreases |history|
  {
    if |history| > 0 {
      var front := history[..|history| - 1];
      var last := history[|history| - 1];
      forall id | id !in ids ensures ClaimsOf(front, id) == 0 { assert ClaimsOf(history, id) == 0; }
      ClaimedWereCreated(front, ids);
      assert last.Issued? ==> ClaimsOf(history, last.id) >= 1;
    }
  }

  /** `E` created messages allow at most `E * MaxDeliveries` claims, in any interleaving. */
  lemma ClaimsAreBounded(cfg: Config, steps: seq<Step>)
    requires cfg.policy.maxAttempts.Some?
    requires ValidRun(cfg, INITIAL, steps) && CrashFree(steps) && ReprocessFree(steps)
    ensures var s := Run(cfg, INITIAL, steps);
      Sum(s.history, AnyIssued()) <= MaxDeliveries(cfg.policy) * |s.created|
  {
    var s := Run(cfg, INITIAL, steps);
    ClaimsPerMessage(cfg, steps);
    ClaimsTotal(s.history, s.created.Keys, MaxDeliveries(cfg.policy));
  }

  lemma ClaimsPerMessage(cfg: Config, steps: seq<Step>)
    requires cfg.policy.maxAttempts.Some?
    requires ValidRun(cfg, INITIAL, steps) && CrashFree(steps) && ReprocessFree(steps)
    ensures var s := Run(cfg, INITIAL, steps); ClaimsWithin(s.history, s.created.Keys, MaxDeliveries(cfg.policy))
  {
    var s := Run(cfg, INITIAL, steps);
    RunKeepsPaced(cfg, steps);
    forall id ensures id in s.created.Keys ==> ClaimsOf(s.history, id) <= MaxDeliveries(cfg.policy)
              ensures id !in s.created.Keys ==> ClaimsOf(s.history, id) == 0
    {
      assert Paced(cfg, s, id);
    }
  }

  /** And once they are used up nothing waits to be claimed: every message is leased for the last time,
      dead-lettered, on its way there, or gone. */
  lemma SpentClaimsLeaveNothingWaiting(cfg: Config, steps: seq<Step>)
    requires cfg.policy.maxAttempts.Some?
    requires ValidRun(cfg, INITIAL, steps) && CrashFree(steps) && ReprocessFree(steps)
    requires var s := Run(cfg, INITIAL, steps);
      Sum(s.history, AnyIssued()) == MaxDeliveries(cfg.policy) * |s.created|
    ensures var s := Run(cfg, INITIAL, steps); s.mem.pending == [] && s.mem.delayed == []
  {
    var s := Run(cfg, INITIAL, steps);
    var limit := MaxDeliveries(cfg.policy);
    ClaimsPerMessage(cfg, steps);
    if |s.mem.pending| > 0 || |s.mem.delayed| > 0 {
      var id := WaitingHasClaimLeft(cfg, steps);
      ClaimsToSpare(s.history, s.created.Keys, limit, id);
    }
  }

  lemma WaitingHasClaimLeft(cfg: Config, steps: seq<Step>) returns (id: MessageId)
    requires cfg.policy.maxAttempts.Some?
    requires ValidRun(cfg, INITIAL, steps) && CrashFree(steps) && ReprocessFree(steps)
    requires var mem := Run(cfg, INITIAL, steps).mem; |mem.pending| > 0 || |mem.delayed| > 0
    ensures var s := Run(cfg, INITIAL, steps);
      id in s.created && ClaimsOf(s.history, id) < MaxDeliveries(cfg.policy)
  {
    var s := Run(cfg, INITIAL, steps);
    if |s.mem.pending| > 0 {
      id := s.mem.pending[0].msg.id;
      SumAt(s.mem.pending, 0, PendingOf(id));
    } else {
      id := s.mem.delayed[0].msg.id;
      SumAt(s.mem.delayed, 0, DelayedOf(id));
    }
    assert InPlace(s, id) by { RunKeepsPlaces(cfg, steps); }
    assert Paced(cfg, s, id) by { RunKeepsPaced(cfg, steps); }
  }
}
