/** Which message a claim takes and until when it holds it: claims follow the order of pending, and a
    lease dates from the claim that made it. */
module Claims {
  import opened Wrappers
  import opened Messages
  import opened Steps
  import opened Partition

  // ---- Promotion -----------------------------------------------------------------------------

  /** Entry by entry: one that is due is promoted as it is, any other stays. */
  lemma PromotionOfOne(entry: Delayed, now: Instant)
    ensures entry.availableAt <= now ==>
      Ready([entry], now) == [Pending(entry.msg, entry.deliveryCount, entry.checkpoint)]
      && StillDelayed([entry], now) == []
    ensures now < entry.availableAt ==> Ready([entry], now) == [] && StillDelayed([entry], now) == [entry]
  {
    assert [entry][..0] == [];
    assert Ready([], now) == [] && StillDelayed([], now) == [];
  }

  /** And what is true of the entries is true of the sequence, in order. */
  lemma PromotionKeepsOrder(a: seq<Delayed>, b: seq<Delayed>, now: Instant)
    ensures Ready(a + b, now) == Ready(a, now) + Ready(b, now)
    ensures StillDelayed(a + b, now) == StillDelayed(a, now) + StillDelayed(b, now)
  {
    ReadyConcat(a, b, now);
    StillDelayedConcat(a, b, now);
  }

  lemma {:induction false} ReadyConcat(a: seq<Delayed>, b: seq<Delayed>, now: Instant)
    ensures Ready(a + b, now) == Ready(a, now) + Ready(b, now)
    decreases |b|
  {
    if |b| == 0 {
      assert a + b == a;
    } else {
      ReadyConcat(a, b[..|b| - 1], now);
      assert (a + b)[..|a + b| - 1] == a + b[..|b| - 1];
    }
  }

  lemma {:induction false} StillDelayedConcat(a: seq<Delayed>, b: seq<Delayed>, now: Instant)
    ensures StillDelayed(a + b, now) == StillDelayed(a, now) + StillDelayed(b, now)
    decreases |b|
  {
    if |b| == 0 {
      assert a + b == a;
    } else {
      StillDelayedConcat(a, b[..|b| - 1], now);
      assert (a + b)[..|a + b| - 1] == a + b[..|b| - 1];
    }
  }

  // ---- First come, first claimed -------------------------------------------------------------

  /** The claims in a history, in order. */
  function ClaimsIn(history: seq<LeaseEvent>): seq<LeaseEvent> {
    if |history| == 0 then []
    else
      var rest, last := ClaimsIn(history[..|history| - 1]), history[|history| - 1];
      if last.Issued? then rest + [last] else rest
  }

  lemma {:induction false} ClaimsInConcat(a: seq<LeaseEvent>, b: seq<LeaseEvent>)
    ensures ClaimsIn(a + b) == ClaimsIn(a) + ClaimsIn(b)
    decreases |b|
  {
    if |b| == 0 {
      assert a + b == a;
    } else {
      ClaimsInConcat(a, b[..|b| - 1]);
      assert (a + b)[..|a + b| - 1] == a + b[..|b| - 1];
    }
  }

  lemma {:induction false} NoClaimsIn(events: seq<LeaseEvent>)
    requires forall i :: 0 <= i < |events| ==> !events[i].Issued?
    ensures ClaimsIn(events) == []
  {
    if |events| > 0 { NoClaimsIn(events[..|events| - 1]); }
  }

  /** Since `s` the claims were of what was pending then, front first, under consecutive tokens; and
      what has not been claimed is still at the front. */
  ghost predicate InTurn(s: System, claims: seq<LeaseEvent>, s': System) {
    && s'.mem.nextToken == s.mem.nextToken + |claims|
    && (forall i :: 0 <= i < |claims| ==> claims[i].Issued? && claims[i].token == s.mem.nextToken + i)
    && (forall i :: 0 <= i < |claims| && i < |s.mem.pending| ==> claims[i].id == s.mem.pending[i].msg.id)
    && (|claims| <= |s.mem.pending| ==> s.mem.pending[|claims|..] <= s'.mem.pending)
  }

  /** Only a claim takes anything out of pending, and it takes the front. */
  lemma StepTakesTheFront(cfg: Config, s: System, step: Step)
    requires Enabled(cfg, s, step) && !step.Crash?
    ensures s.history <= Apply(cfg, s, step).history
    ensures InTurn(s, ClaimsIn(Apply(cfg, s, step).history[|s.history|..]), Apply(cfg, s, step))
  {
    var s' := Apply(cfg, s, step);
    var events := s'.history[|s.history|..];
    if step.ClaimNext? && |PromoteReady(s.mem, step.promoteAt).pending| > 0 {
      ClaimTakesTheFront(cfg, s, step);
    } else {
      assert forall i :: 0 <= i < |events| ==> !events[i].Issued?;
      NoClaimsIn(events);
    }
  }

  lemma ClaimTakesTheFront(cfg: Config, s: System, step: Step)
    requires step.ClaimNext? && |PromoteReady(s.mem, step.promoteAt).pending| > 0
    ensures s.history <= Apply(cfg, s, step).history
    ensures InTurn(s, ClaimsIn(Apply(cfg, s, step).history[|s.history|..]), Apply(cfg, s, step))
  {
    var s' := Apply(cfg, s, step);
    var queue := PromoteReady(s.mem, step.promoteAt).pending;
    var event := Issued(s.mem.nextToken, queue[0].msg.id);
    assert s'.history == s.history + [event];
    assert s'.mem.pending == queue[1..] && s'.mem.nextToken == s.mem.nextToken + 1;
    assert ClaimsIn(s'.history[|s.history|..]) == [event] by {
      assert s'.history[|s.history|..] == [event];
      OneClaim(event);
    }
    FrontInTurn(s, s', queue);
  }

  lemma OneClaim(event: LeaseEvent)
    requires event.Issued?
    ensures ClaimsIn([event]) == [event]
  {
    assert [event][..0] == [] && ClaimsIn([]) == [];
  }

  lemma FrontInTurn(s: System, s': System, queue: seq<Pending>)
    requires |queue| > 0 && s.mem.pending <= queue
    requires s'.mem.pending == queue[1..] && s'.mem.nextToken == s.mem.nextToken + 1
    ensures InTurn(s, [Issued(s.mem.nextToken, queue[0].msg.id)], s')
  {
  }

  lemma InTurnTogether(s: System, a: seq<LeaseEvent>, s1: System, b: seq<LeaseEvent>, s2: System)
    requires InTurn(s, a, s1) && InTurn(s1, b, s2) && |b| <= 1
    ensures InTurn(s, a + b, s2)
  {
    if |b| == 1 && |a| < |s.mem.pending| {
      assert s.mem.pending[|a|..][0] == s.mem.pending[|a|];
      assert s.mem.pending[|a|..][1..] == s.mem.pending[|a + b|..];
    }
  }

  lemma StepClaimsAtMostOnce(cfg: Config, s: System, step: Step)
    requires Enabled(cfg, s, step) && !step.Crash?
    ensures |ClaimsIn(Apply(cfg, s, step).history[|s.history|..])| <= 1
  {
    var events := Apply(cfg, s, step).history[|s.history|..];
    if step.ClaimNext? {
      assert |events| <= 1;
      if |events| == 1 { assert events[..0] == [] && ClaimsIn([]) == []; }
    } else {
      NoClaimsIn(events);
    }
  }

  /** Whatever else happens in between, nacks, retries, reprocessed letters and new messages, the messages
      pending at some moment are claimed in their order, before any other. */
  lemma {:induction false} FirstComeFirstClaimed(cfg: Config, s: System, steps: seq<Step>)
    requires ValidRun(cfg, s, steps) && CrashFree(steps)
    ensures s.history <= Run(cfg, s, steps).history
    ensures InTurn(s, ClaimsIn(Run(cfg, s, steps).history[|s.history|..]), Run(cfg, s, steps))
    decreases |steps|
  {
    if |steps| == 0 {
      assert s.history[|s.history|..] == [];
    } else {
      FirstComeFirstClaimed(cfg, s, steps[..|steps| - 1]);
      OneMoreInTurn(cfg, s, Run(cfg, s, steps[..|steps| - 1]), steps[|steps| - 1]);
    }
  }

  lemma OneMoreInTurn(cfg: Config, s: System, s1: System, step: Step)
    requires Enabled(cfg, s1, step) && !step.Crash?
    requires s.history <= s1.history && InTurn(s, ClaimsIn(s1.history[|s.history|..]), s1)
    ensures var s2 := Apply(cfg, s1, step);
      s.history <= s2.history && InTurn(s, ClaimsIn(s2.history[|s.history|..]), s2)
  {
    var s2 := Apply(cfg, s1, step);
    StepTakesTheFront(cfg, s1, step);
    StepClaimsAtMostOnce(cfg, s1, step);
    var a, b := s1.history[|s.history|..], s2.history[|s1.history|..];
    assert s2.history[|s.history|..] == a + b;
    ClaimsInConcat(a, b);
    InTurnTogether(s, ClaimsIn(a), s1, ClaimsIn(b), s2);
  }

  // ---- How long a lease lasts ----------------------------------------------------------------

  /** This step from `s` made the lease: from the front of the queue, to last the visibility timeout. */
  ghost predicate MadeBy(cfg: Config, s: System, step: Step, lease: Leased) {
    step.ClaimNext? &&
    (var queue := s.mem.pending + Ready(s.mem.delayed, step.promoteAt);
     && |queue| > 0
     && lease.msg == queue[0].msg && lease.deliveryCount == queue[0].deliveryCount + 1
     && lease.token == s.mem.nextToken
     && lease.expiresAt == step.leaseAt + cfg.visibilityTimeout)
  }

  /** Checkpoints and chunks change nothing of a lease but themselves. */
  predicate SameTerms(a: Leased, b: Leased) {
    a.msg == b.msg && a.token == b.token && a.expiresAt == b.expiresAt && a.deliveryCount == b.deliveryCount
  }

  lemma LeaseIsKeptOrMade(cfg: Config, s: System, step: Step, id: MessageId)
    requires Enabled(cfg, s, step) && id in Apply(cfg, s, step).mem.leased
    ensures var lease := Apply(cfg, s, step).mem.leased[id];
      MadeBy(cfg, s, step, lease) || (id in s.mem.leased && SameTerms(lease, s.mem.leased[id]))
  {
    match step
    case Advance(_, _, _) =>
    case ClaimNext(_, _) =>
    case _ =>
  }

  ghost predicate MadeInRun(cfg: Config, steps: seq<Step>, i: nat, lease: Leased)
    requires i < |steps|
  {
    ValidRun(cfg, INITIAL, steps[..i]) && MadeBy(cfg, Run(cfg, INITIAL, steps[..i]), steps[i], lease)
  }

  lemma SameTermsSameMaking(cfg: Config, steps: seq<Step>, i: nat, lease: Leased, lease': Leased)
    requires i < |steps| && MadeInRun(cfg, steps, i, lease) && SameTerms(lease', lease)
    ensures MadeInRun(cfg, steps, i, lease')
  {
  }

  /** In any run at all, crashes included, a lease is still on the terms of the claim that made it. */
  lemma {:induction false} LeaseDatesFromItsClaim(cfg: Config, steps: seq<Step>, id: MessageId)
    requires ValidRun(cfg, INITIAL, steps) && id in Run(cfg, INITIAL, steps).mem.leased
    ensures exists i :: 0 <= i < |steps| && MadeInRun(cfg, steps, i, Run(cfg, INITIAL, steps).mem.leased[id])
    decreases |steps|
  {
    if |steps| > 0 {
      var front, last := steps[..|steps| - 1], steps[|steps| - 1];
      var s := Run(cfg, INITIAL, front);
      var lease := Run(cfg, INITIAL, steps).mem.leased[id];
      LeaseIsKeptOrMade(cfg, s, last, id);
      if MadeBy(cfg, s, last, lease) {
        assert MadeInRun(cfg, steps, |steps| - 1, lease);
      } else {
        LeaseDatesFromItsClaim(cfg, front, id);
        var i :| 0 <= i < |front| && MadeInRun(cfg, front, i, s.mem.leased[id]);
        assert front[..i] == steps[..i] && front[i] == steps[i];
        assert MadeInRun(cfg, steps, i, s.mem.leased[id]);
        SameTermsSameMaking(cfg, steps, i, s.mem.leased[id], lease);
      }
    }
  }

  /** A lease claimed at `t` is reclaimed exactly from `t` plus the visibility timeout on. */
  lemma LeaseExpiresOnTime(cfg: Config, steps: seq<Step>, id: MessageId, now: Instant, order: seq<MessageId>)
    requires ValidRun(cfg, INITIAL, steps) && id in Run(cfg, INITIAL, steps).mem.leased
    requires Enabled(cfg, Run(cfg, INITIAL, steps), Reclaim(now, order))
    ensures var s := Run(cfg, INITIAL, steps);
      exists i :: 0 <= i < |steps| && MadeInRun(cfg, steps, i, s.mem.leased[id])
        && (id in Apply(cfg, s, Reclaim(now, order)).mem.leased
            <==> now < steps[i].leaseAt + cfg.visibilityTimeout)
  {
    var s := Run(cfg, INITIAL, steps);
    LeaseDatesFromItsClaim(cfg, steps, id);
    var i :| 0 <= i < |steps| && MadeInRun(cfg, steps, i, s.mem.leased[id]);
    ReclaimsWhenDue(cfg, s, id, now, order);
  }

  lemma ReclaimsWhenDue(cfg: Config, s: System, id: MessageId, now: Instant, order: seq<MessageId>)
    requires id in s.mem.leased && Enabled(cfg, s, Reclaim(now, order))
    ensures id in Apply(cfg, s, Reclaim(now, order)).mem.leased <==> now < s.mem.leased[id].expiresAt
  {
  }
}
