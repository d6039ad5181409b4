/** When deliveries run out: over crash-free runs without a reprocess, a message becomes a dead letter
    after exactly as many claims as the limit allows, and a failed delivery before that is retried.
    Without a limit no letter is ever made, crashes and reprocessing or not. */
module Exhaustion {
  import opened Wrappers
  import opened Counting
  import opened Retry
  import opened Messages
  import opened Steps
  import opened Census
  import opened Partition
  import opened Delivery

  // ---- With a limit --------------------------------------------------------------------------

  /** A message in the hands of a consumer has been claimed, and a letter has used up every claim. */
  ghost predicate MapsSpent(mem: Memory, id: MessageId, claims: nat, limit: nat) {
    && (id in mem.leased ==> claims >= 1)
    && (id in mem.dlq ==> mem.dlq[id].deliveryCount == claims == limit)
  }

  ghost predicate TaskSpent(task: Task, id: MessageId, claims: nat, limit: nat) {
    match task
    case Failing(f) => f.msg.id == id ==> claims >= 1
    case Recording(letter) => letter.msg.id == id ==> letter.deliveryCount == claims == limit
    case Taking(letter, _) => letter.msg.id == id ==> letter.deliveryCount == claims == limit
    case _ => true
  }

  ghost predicate RecordSpent(record: DlqRecord, id: MessageId, claims: nat, limit: nat) {
    record.Record? && record.letter.msg.id == id ==> record.letter.deliveryCount == claims == limit
  }

  ghost predicate Spent(cfg: Config, s: System, id: MessageId)
    requires cfg.policy.maxAttempts.Some?
  {
    var claims := ClaimsOf(s.history, id);
    var limit := MaxDeliveries(cfg.policy);
    && MapsSpent(s.mem, id, claims, limit)
    && (forall t :: 0 <= t < |s.tasks| ==> TaskSpent(s.tasks[t], id, claims, limit))
    && (forall i :: 0 <= i < |s.dlqLog| ==> RecordSpent(s.dlqLog[i], id, claims, limit))
  }

  /** A failed delivery is within the limit, so it is exhausted exactly at the limit. */
  lemma TaskStepSpent(cfg: Config, mem: Memory, task: Task, now: Instant, draw: real, id: MessageId, claims: nat)
    requires cfg.policy.maxAttempts.Some?
    requires TaskPaced(task, id, claims, MaxDeliveries(cfg.policy))
    requires TaskSpent(task, id, claims, MaxDeliveries(cfg.policy))
    requires MapsSpent(mem, id, claims, MaxDeliveries(cfg.policy))
    ensures MapsSpent(Effect(cfg, mem, task, now, draw), id, claims, MaxDeliveries(cfg.policy))
    ensures var next := NextTask(cfg, task, now);
      next.Some? ==> TaskSpent(next.value, id, claims, MaxDeliveries(cfg.policy))
    ensures var record := DlqAppend(cfg, task, now);
      record.Some? ==> RecordSpent(record.value, id, claims, MaxDeliveries(cfg.policy))
  {
  }

  lemma AdvanceSpent(cfg: Config, s: System, t: nat, now: Instant, draw: real, id: MessageId)
    requires cfg.policy.maxAttempts.Some? && t < |s.tasks| && Paced(cfg, s, id) && Spent(cfg, s, id)
    ensures Spent(cfg, AdvanceTask(cfg, s, t, now, draw), id)
  {
    var claims := ClaimsOf(s.history, id);
    assert TaskPaced(s.tasks[t], id, claims, MaxDeliveries(cfg.policy));
    TaskStepSpent(cfg, s.mem, s.tasks[t], now, draw, id, claims);
  }

  lemma FailSpent(cfg: Config, s: System, t: nat, id: MessageId)
    requires cfg.policy.maxAttempts.Some? && t < |s.tasks| && Spent(cfg, s, id)
    ensures Spent(cfg, FailTask(s, t), id)
  {
  }

  /** A claim is only made where one is left, so not of a message that has a letter. */
  lemma ClaimSpent(cfg: Config, s: System, step: Step, id: MessageId)
    requires cfg.policy.maxAttempts.Some? && step.ClaimNext?
    requires Paced(cfg, s, id) && Spent(cfg, s, id)
    ensures Spent(cfg, Apply(cfg, s, step), id)
  {
    var s' := Apply(cfg, s, step);
    var limit := MaxDeliveries(cfg.policy);
    var promoted := PromoteReady(s.mem, step.promoteAt);
    if |promoted.pending| > 0 {
      var event := Issued(s.mem.nextToken, promoted.pending[0].msg.id);
      assert s'.history == s.history + [event];
      assert ClaimsOf(s'.history, id) == ClaimsOf(s.history, id) + One(event.id == id) by {
        SumAppend(s.history, event, IssuedFor(id));
      }
      assert event.id == id ==> ClaimsOf(s.history, id) < limit by {
        PromotePaced(s.mem, step.promoteAt, id, ClaimsOf(s.history, id), limit);
      }
      if event.id == id { OneMoreClaim(cfg, s, s', id); } else { OtherClaimed(cfg, s, s', id); }
    } else {
      assert s'.history == s.history;
      OtherClaimed(cfg, s, s', id);
    }
  }

  lemma OtherClaimed(cfg: Config, s: System, s': System, id: MessageId)
    requires cfg.policy.maxAttempts.Some? && Spent(cfg, s, id)
    requires ClaimsOf(s'.history, id) == ClaimsOf(s.history, id)
    requires s'.tasks == s.tasks && s'.dlqLog == s.dlqLog && s'.mem.dlq == s.mem.dlq
    requires id in s'.mem.leased ==> id in s.mem.leased
    ensures Spent(cfg, s', id)
  {
  }

  /** Nothing that needs every claim to be used speaks of a message with one left. */
  lemma OneMoreClaim(cfg: Config, s: System, s': System, id: MessageId)
    requires cfg.policy.maxAttempts.Some? && Spent(cfg, s, id)
    requires ClaimsOf(s.history, id) < MaxDeliveries(cfg.policy)
    requires ClaimsOf(s'.history, id) == ClaimsOf(s.history, id) + 1
    requires s'.tasks == s.tasks && s'.dlqLog == s.dlqLog && s'.mem.dlq == s.mem.dlq
    ensures Spent(cfg, s', id)
  {
    var claims, limit := ClaimsOf(s'.history, id), MaxDeliveries(cfg.policy);
    forall t | 0 <= t < |s'.tasks| ensures TaskSpent(s'.tasks[t], id, claims, limit) {
      assert TaskSpent(s.tasks[t], id, claims - 1, limit);
    }
    forall i | 0 <= i < |s'.dlqLog| ensures RecordSpent(s'.dlqLog[i], id, claims, limit) {
      assert RecordSpent(s.dlqLog[i], id, claims - 1, limit);
    }
  }

  lemma ReclaimSpent(cfg: Config, s: System, step: Step, id: MessageId)
    requires cfg.policy.maxAttempts.Some? && step.Reclaim? && Enabled(cfg, s, step) && WellKeyed(s.mem)
    requires Spent(cfg, s, id)
    ensures Spent(cfg, Apply(cfg, s, step), id)
  {
    SameClaims(s.history, LeaseEvents(s.mem, step), id);
  }

  lemma SectionSpent(cfg: Config, mem: Memory, step: Step, id: MessageId, claims: nat, limit: nat)
    requires Starts(step) && !step.ClaimNext? && WellKeyed(mem) && MapsSpent(mem, id, claims, limit)
    ensures MapsSpent(Section(cfg, mem, step), id, claims, limit)
    ensures Begun(mem, step).Some? ==> TaskSpent(Begun(mem, step).value, id, claims, limit)
  {
  }

  lemma StartSpent(cfg: Config, s: System, step: Step, id: MessageId)
    requires cfg.policy.maxAttempts.Some? && Starts(step) && !step.ClaimNext? && Enabled(cfg, s, step)
    requires WellKeyed(s.mem) && Spent(cfg, s, id)
    ensures Spent(cfg, Apply(cfg, s, step), id)
  {
    SectionSpent(cfg, s.mem, step, id, ClaimsOf(s.history, id), MaxDeliveries(cfg.policy));
    SameClaims(s.history, LeaseEvents(s.mem, step), id);
  }

  lemma StepKeepsSpent(cfg: Config, s: System, step: Step, id: MessageId)
    requires cfg.policy.maxAttempts.Some? && Enabled(cfg, s, step) && WellKeyed(s.mem) && !step.Crash?
    requires Paced(cfg, s, id) && Spent(cfg, s, id)
    ensures Spent(cfg, Apply(cfg, s, step), id)
  {
    match step
    case Advance(t, now, draw) => AdvanceSpent(cfg, s, t, now, draw, id);
    case AppendFails(t) => FailSpent(cfg, s, t, id);
    case ClaimNext(_, _) => ClaimSpent(cfg, s, step, id);
    case Reclaim(_, _) => ReclaimSpent(cfg, s, step, id);
    case _ => StartSpent(cfg, s, step, id);
  }

  lemma {:induction false} RunKeepsSpent(cfg: Config, steps: seq<Step>, id: MessageId)
    requires cfg.policy.maxAttempts.Some?
    requires ValidRun(cfg, INITIAL, steps) && CrashFree(steps) && ReprocessFree(steps)
    ensures Spent(cfg, Run(cfg, INITIAL, steps), id)
    decreases |steps|
  {
    if |steps| > 0 {
      var front := steps[..|steps| - 1];
      RunKeepsSpent(cfg, front, id);
      RunKeepsPaced(cfg, front);
      RunKeepsPlaces(cfg, front);
      assert Paced(cfg, Run(cfg, INITIAL, front), id);
      StepKeepsSpent(cfg, Run(cfg, INITIAL, front), steps[|steps| - 1], id);
    }
  }

  /** A dead letter anywhere: filed, logged, or on its way into or out of the map. */
  ghost predicate HasLetter(s: System, letter: DeadLetter) {
    || (exists id :: id in s.mem.dlq && s.mem.dlq[id] == letter)
    || (exists i :: 0 <= i < |s.dlqLog| && s.dlqLog[i] == Record(letter))
    || (exists t :: 0 <= t < |s.tasks| && s.tasks[t] == Recording(letter))
    || (exists t :: 0 <= t < |s.tasks| && s.tasks[t].Taking? && s.tasks[t].letter == letter)
  }

  /** A letter is made after exactly `n` claims of its message, or one where `n` is zero. */
  lemma LettersUsedEveryClaim(cfg: Config, steps: seq<Step>, n: nat, letter: DeadLetter)
    requires cfg.policy.maxAttempts == Some(n)
    requires ValidRun(cfg, INITIAL, steps) && CrashFree(steps) && ReprocessFree(steps)
    requires HasLetter(Run(cfg, INITIAL, steps), letter)
    ensures letter.deliveryCount == ClaimsOf(Run(cfg, INITIAL, steps).history, letter.msg.id)
         == if n == 0 then 1 else n
  {
    var s := Run(cfg, INITIAL, steps);
    RunKeepsSpent(cfg, steps, letter.msg.id);
    assert WellKeyed(s.mem) by { RunKeepsPlaces(cfg, steps); }
  }

  /** From `s` to `s'` the failed delivery `t` went back to wait, its count below `n`, or else became a letter. */
  ghost predicate WaitsOrDies(
    policy: RetryPolicy, s: System, s': System, t: nat, now: Instant, draw: real, n: nat)
    requires t < |s.tasks| && s.tasks[t].Failing?
  {
    var f := s.tasks[t].failed;
    if f.deliveryCount < n then
      && s'.mem.delayed == s.mem.delayed
           + [Delayed(f.msg, f.deliveryCount, now + DelayFor(policy, f.deliveryCount, draw), f.checkpoint)]
      && s'.dlqLog == s.dlqLog && s'.tasks == Without(s.tasks, t)
    else
      var letter := DeadLetter(f.msg, f.deliveryCount, f.reason, now, f.checkpoint, None);
      s'.dlqLog == s.dlqLog + [Record(letter)] && s'.tasks == s.tasks[t := Recording(letter)] && s'.mem == s.mem
  }

  lemma FailingStep(cfg: Config, s: System, t: nat, now: Instant, draw: real, n: nat)
    requires cfg.policy.maxAttempts == Some(n) && t < |s.tasks| && s.tasks[t].Failing?
    ensures WaitsOrDies(cfg.policy, s, Apply(cfg, s, Advance(t, now, draw)), t, now, draw, n)
  {
  }

  /** A delivery that failed is its message's latest claim, and within the limit. */
  lemma FailedDeliveryCounts(cfg: Config, steps: seq<Step>, n: nat, t: nat)
    requires cfg.policy.maxAttempts == Some(n)
    requires ValidRun(cfg, INITIAL, steps) && CrashFree(steps) && ReprocessFree(steps)
    requires var s := Run(cfg, INITIAL, steps); t < |s.tasks| && s.tasks[t].Failing?
    ensures var s := Run(cfg, INITIAL, steps);
      var f := s.tasks[t].failed;
      f.deliveryCount == ClaimsOf(s.history, f.msg.id) && 1 <= f.deliveryCount <= (if n == 0 then 1 else n)
  {
    var s := Run(cfg, INITIAL, steps);
    var f := s.tasks[t].failed;
    var claims, limit := ClaimsOf(s.history, f.msg.id), MaxDeliveries(cfg.policy);
    assert TaskPaced(s.tasks[t], f.msg.id, claims, limit) by {
      RunKeepsPaced(cfg, steps);
      assert Paced(cfg, s, f.msg.id);
    }
    assert TaskSpent(s.tasks[t], f.msg.id, claims, limit) by { RunKeepsSpent(cfg, steps, f.msg.id); }
  }

  /** A failed delivery carries the number of its message's claims. While that is below `n` the message
      goes back to wait, with its count and checkpoint and without a letter; otherwise it becomes one. */
  lemma FailedDeliveryWaitsOrDies(cfg: Config, steps: seq<Step>, n: nat, t: nat, now: Instant, draw: real)
    requires cfg.policy.maxAttempts == Some(n)
    requires ValidRun(cfg, INITIAL, steps) && CrashFree(steps) && ReprocessFree(steps)
    requires var s := Run(cfg, INITIAL, steps); t < |s.tasks| && s.tasks[t].Failing?
    ensures var s := Run(cfg, INITIAL, steps);
      var f := s.tasks[t].failed;
      && f.deliveryCount == ClaimsOf(s.history, f.msg.id) && 1 <= f.deliveryCount <= (if n == 0 then 1 else n)
      && WaitsOrDies(cfg.policy, s, Apply(cfg, s, Advance(t, now, draw)), t, now, draw, n)
  {
    FailedDeliveryCounts(cfg, steps, n, t);
    FailingStep(cfg, Run(cfg, INITIAL, steps), t, now, draw, n);
  }

  // ---- Without one ---------------------------------------------------------------------------

  ghost predicate NoLetters(s: System) {
    && s.mem.dlq == map[]
    && (forall i :: 0 <= i < |s.dlqLog| ==> !s.dlqLog[i].Record?)
    && (forall t :: 0 <= t < |s.tasks| ==> !s.tasks[t].Recording? && !s.tasks[t].Taking?)
  }

  lemma {:induction false} NoRecordsReplayToNothing(log: seq<DlqRecord>)
    requires forall i :: 0 <= i < |log| ==> !log[i].Record?
    ensures ReplayDlq(log) == map[]
  {
    if |log| > 0 { NoRecordsReplayToNothing(log[..|log| - 1]); }
  }

  lemma AdvanceMakesNoLetter(cfg: Config, s: System, t: nat, now: Instant, draw: real)
    requires cfg.policy.maxAttempts.None? && t < |s.tasks| && NoLetters(s)
    ensures NoLetters(AdvanceTask(cfg, s, t, now, draw))
  {
    assert !s.tasks[t].Recording? && !s.tasks[t].Taking?;
  }

  lemma StepMakesNoLetter(cfg: Config, s: System, step: Step)
    requires cfg.policy.maxAttempts.None? && Enabled(cfg, s, step) && NoLetters(s)
    ensures NoLetters(Apply(cfg, s, step))
  {
    match step
    case Advance(t, now, draw) => AdvanceMakesNoLetter(cfg, s, t, now, draw);
    case Crash(_) => NoRecordsReplayToNothing(s.dlqLog);
    case _ =>
  }

  /** Without a limit every failed delivery is retried: no run ever makes a letter. */
  lemma NoLimitNoLetters(cfg: Config, steps: seq<Step>, letter: DeadLetter)
    requires cfg.policy.maxAttempts.None? && ValidRun(cfg, INITIAL, steps)
    ensures !HasLetter(Run(cfg, INITIAL, steps), letter)
  {
    RunMakesNoLetter(cfg, steps);
  }

  lemma {:induction false} RunMakesNoLetter(cfg: Config, steps: seq<Step>)
    requires cfg.policy.maxAttempts.None? && ValidRun(cfg, INITIAL, steps)
    ensures NoLetters(Run(cfg, INITIAL, steps))
    decreases |steps|
  {
    if |steps| > 0 {
      var front := steps[..|steps| - 1];
      RunMakesNoLetter(cfg, front);
      StepMakesNoLetter(cfg, Run(cfg, INITIAL, front), steps[|steps| - 1]);
    }
  }
}
