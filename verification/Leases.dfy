/** Lease safety over whole runs: a token is issued once and resolved at most once, and only
    the token of the lease currently held resolves anything. */
module Leases {
  import opened Wrappers
  import opened Counting
  import opened Messages
  import opened Steps
  import opened Census
  import opened Durability
  import opened Partition

  function IssuedOf(token: LeaseToken): LeaseEvent -> nat {
    (e: LeaseEvent) => One(e.Issued? && e.token == token)
  }

  function ResolvedOf(token: LeaseToken): LeaseEvent -> nat {
    (e: LeaseEvent) => One(e.Resolved? && e.token == token)
  }

  ghost predicate Outstanding(leased: map<MessageId, Leased>, token: LeaseToken) {
    exists id :: Holds(leased, id, token)
  }

  /** The life of one token in the running process: issued exactly when the counter has passed
      it, and at any time resolved at most once and not both resolved and outstanding. */
  ghost predicate TokenSound(s: System, token: LeaseToken) {
    && Sum(s.history, IssuedOf(token)) == One(token < s.mem.nextToken)
    && Sum(s.history, ResolvedOf(token)) + One(Outstanding(s.mem.leased, token)) <= Sum(s.history, IssuedOf(token))
  }

  /** No two leases share a token, and each was issued for the message it leases. */
  ghost predicate TokensDistinct(s: System) {
    && (forall a, b ::
          a in s.mem.leased && b in s.mem.leased && s.mem.leased[a].token == s.mem.leased[b].token ==> a == b)
    && (forall id :: id in s.mem.leased ==> Issued(s.mem.leased[id].token, id) in s.history)
    && (forall e :: e in s.history && e.Resolved? ==> Issued(e.token, e.id) in s.history)
    && (forall e :: e in s.history ==> e.token < s.mem.nextToken)
  }

  /** One process's lease events: no token issued twice, none resolved more often than issued. */
  ghost predicate HistorySound(history: seq<LeaseEvent>) {
    forall token :: Sum(history, ResolvedOf(token)) <= Sum(history, IssuedOf(token)) <= 1
  }

  ghost predicate LeasesSound(s: System) {
    && TokensDistinct(s)
    && (forall token :: TokenSound(s, token))
    && (forall p :: 0 <= p < |s.past| ==> HistorySound(s.past[p]))
  }

  /** The lease events of process `p`, the running one being the last. */
  function HistoryOf(s: System, p: nat): seq<LeaseEvent>
    requires p <= |s.past|
  {
    if p < |s.past| then s.past[p] else s.history
  }

  lemma {:induction false} ExpiryCount(leased: map<MessageId, Leased>, order: seq<MessageId>, token: LeaseToken)
    requires forall i :: 0 <= i < |order| ==> order[i] in leased
    requires forall i, j :: 0 <= i < j < |order| ==> order[i] != order[j]
    requires forall a, b :: a in leased && b in leased && leased[a].token == leased[b].token ==> a == b
    ensures Sum(ExpiryEvents(leased, order), IssuedOf(token)) == 0
    ensures Sum(ExpiryEvents(leased, order), ResolvedOf(token))
         == One(exists i :: 0 <= i < |order| && leased[order[i]].token == token)
  {
    if |order| > 0 {
      var front := order[..|order| - 1];
      ExpiryCount(leased, front, token);
      var all := ExpiryEvents(leased, order);
      assert all[..|all| - 1] == ExpiryEvents(leased, front);
      assert forall i :: 0 <= i < |front| ==> front[i] == order[i];
    }
  }

  lemma ReclaimToken(cfg: Config, s: System, step: Step, token: LeaseToken)
    requires step.Reclaim? && Enabled(cfg, s, step) && LeasesSound(s)
    ensures TokenSound(Apply(cfg, s, step), token)
  {
    var s' := Apply(cfg, s, step);
    assert TokenSound(s, token);
    ExpiryCount(s.mem.leased, step.order, token);
    var events := ExpiryEvents(s.mem.leased, step.order);
    SumConcat(s.history, events, IssuedOf(token));
    SumConcat(s.history, events, ResolvedOf(token));
    ReclaimEnds(s.mem.leased, step.now, step.order, token);
  }

  /** A token is outstanding after a reclaim only if it was before and was not reclaimed. */
  lemma ReclaimEnds(leased: map<MessageId, Leased>, now: Instant, order: seq<MessageId>, token: LeaseToken)
    requires Enumerates(order, Expired(leased, now))
    requires forall a, b :: a in leased && b in leased && leased[a].token == leased[b].token ==> a == b
    ensures One(Outstanding(leased - Expired(leased, now), token))
          + One(exists i :: 0 <= i < |order| && leased[order[i]].token == token) <= One(Outstanding(leased, token))
  {
    OutstandingBefore(leased, leased - Expired(leased, now), token);
    if exists i :: 0 <= i < |order| && leased[order[i]].token == token {
      var i :| 0 <= i < |order| && leased[order[i]].token == token;
      assert Holds(leased, order[i], token);
      assert !Outstanding(leased - Expired(leased, now), token);
    }
  }

  /** A lease map that only lost entries has no new token outstanding. */
  lemma OutstandingBefore(leased: map<MessageId, Leased>, leased': map<MessageId, Leased>, token: LeaseToken)
    requires forall id :: Holds(leased', id, token) ==> Holds(leased, id, token)
    ensures Outstanding(leased', token) ==> Outstanding(leased, token)
  {
    if Outstanding(leased', token) {
      var id :| Holds(leased', id, token);
      assert Holds(leased, id, token);
    }
  }

  lemma ReclaimTokens(cfg: Config, s: System, step: Step)
    requires step.Reclaim? && Enabled(cfg, s, step) && LeasesSound(s)
    ensures TokensDistinct(Apply(cfg, s, step))
  {
    var s' := Apply(cfg, s, step);
    var events := ExpiryEvents(s.mem.leased, step.order);
    assert s'.history == s.history + events;
    forall e | e in s'.history
      ensures e.token < s'.mem.nextToken && (e.Resolved? ==> Issued(e.token, e.id) in s'.history)
    {
      if e !in s.history {
        var i :| 0 <= i < |events| && events[i] == e;
        assert Issued(s.mem.leased[step.order[i]].token, step.order[i]) in s.history;
      }
    }
  }

  lemma ResolveToken(cfg: Config, s: System, step: Step, token: LeaseToken)
    requires (step.BeginAck? || step.BeginNack?) && LeasesSound(s)
    ensures TokenSound(Apply(cfg, s, step), token)
  {
    assert TokenSound(s, token);
    if Holds(s.mem.leased, step.id, step.token) {
      var event := LeaseEvents(s.mem, step)[0];
      SumAppend(s.history, event, IssuedOf(token));
      SumAppend(s.history, event, ResolvedOf(token));
      if token != step.token { OutstandingBefore(s.mem.leased, Apply(cfg, s, step).mem.leased, token); }
    } else {
      StaleResolutionChangesNothing(cfg, s, step);
    }
  }

  lemma ResolveTokens(cfg: Config, s: System, step: Step)
    requires (step.BeginAck? || step.BeginNack?) && LeasesSound(s)
    ensures TokensDistinct(Apply(cfg, s, step))
  {
    if !Holds(s.mem.leased, step.id, step.token) { StaleResolutionChangesNothing(cfg, s, step); }
  }

  lemma ClaimToken(cfg: Config, s: System, step: Step, token: LeaseToken)
    requires step.ClaimNext? && LeasesSound(s)
    ensures TokenSound(Apply(cfg, s, step), token)
  {
    var s' := Apply(cfg, s, step);
    assert TokenSound(s, token);
    var promoted := PromoteReady(s.mem, step.promoteAt);
    if |promoted.pending| == 0 {
      assert s'.history == s.history;
    } else {
      var event := Issued(s.mem.nextToken, promoted.pending[0].msg.id);
      assert s'.history == s.history + [event];
      SumAppend(s.history, event, IssuedOf(token));
      SumAppend(s.history, event, ResolvedOf(token));
      if token != s.mem.nextToken { OutstandingBefore(s.mem.leased, s'.mem.leased, token); }
    }
  }

  lemma ClaimTokens(cfg: Config, s: System, step: Step)
    requires step.ClaimNext? && LeasesSound(s)
    ensures TokensDistinct(Apply(cfg, s, step))
  {
    var s' := Apply(cfg, s, step);
    var promoted := PromoteReady(s.mem, step.promoteAt);
    if |promoted.pending| > 0 {
      var event := Issued(s.mem.nextToken, promoted.pending[0].msg.id);
      assert s'.history == s.history + [event];
      forall id | id in s.mem.leased
        ensures s.mem.leased[id].token < s.mem.nextToken
      {
        assert Issued(s.mem.leased[id].token, id) in s.history;
      }
    }
  }

  /** Steps that touch no lease but its checkpoint or its stream. */
  predicate LeavesTokens(step: Step) {
    !step.BeginAck? && !step.BeginNack? && !step.Reclaim? && !step.ClaimNext? && !step.Crash?
  }

  lemma OtherTokens(cfg: Config, s: System, step: Step)
    requires LeavesTokens(step) && Enabled(cfg, s, step)
    ensures var s' := Apply(cfg, s, step);
      && s'.history == s.history && s'.mem.nextToken == s.mem.nextToken
      && s'.mem.leased.Keys == s.mem.leased.Keys
      && (forall id :: id in s.mem.leased ==> s'.mem.leased[id].token == s.mem.leased[id].token)
  {
  }

  /** A crash closes the running process's history, sound as it is, and starts the next. */
  lemma PastKept(cfg: Config, s: System, step: Step)
    requires Enabled(cfg, s, step) && LeasesSound(s)
    ensures var past := Apply(cfg, s, step).past;
      forall p :: 0 <= p < |past| ==> HistorySound(past[p])
  {
    if step.Crash? {
      forall token ensures Sum(s.history, ResolvedOf(token)) <= Sum(s.history, IssuedOf(token)) <= 1 {
        assert TokenSound(s, token);
      }
      assert HistorySound(s.history);
    }
  }

  /** Every step, a crash included, keeps every token sound. */
  lemma StepKeepsLeases(cfg: Config, s: System, step: Step)
    requires Enabled(cfg, s, step) && LeasesSound(s)
    ensures LeasesSound(Apply(cfg, s, step))
  {
    var s' := Apply(cfg, s, step);
    PastKept(cfg, s, step);
    if LeavesTokens(step) {
      OtherTokens(cfg, s, step);
      forall token ensures TokenSound(s', token) {
        assert TokenSound(s, token);
        OutstandingBefore(s.mem.leased, s'.mem.leased, token);
      }
    } else {
      forall token ensures TokenSound(s', token) {
        match step
        case Reclaim(_, _) => ReclaimToken(cfg, s, step, token);
        case ClaimNext(_, _) => ClaimToken(cfg, s, step, token);
        case Crash(_) =>
        case _ => ResolveToken(cfg, s, step, token);
      }
      match step
      case Reclaim(_, _) => ReclaimTokens(cfg, s, step);
      case ClaimNext(_, _) => ClaimTokens(cfg, s, step);
      case Crash(_) =>
      case _ => ResolveTokens(cfg, s, step);
    }
  }

  lemma {:induction false} RunKeepsLeases(cfg: Config, steps: seq<Step>)
    requires ValidRun(cfg, INITIAL, steps)
    ensures LeasesSound(Run(cfg, INITIAL, steps))
    decreases |steps|
  {
    if |steps| > 0 {
      var front := steps[..|steps| - 1];
      RunKeepsLeases(cfg, front);
      StepKeepsLeases(cfg, Run(cfg, INITIAL, front), steps[|steps| - 1]);
    }
  }

  /** Whatever the run, no process issues a token twice or resolves one twice: of ack, nack and expiry
      at most one ever takes effect on a delivery. */
  lemma TokenIssuedAndResolvedOnce(cfg: Config, steps: seq<Step>, p: nat, i: nat, j: nat)
    requires ValidRun(cfg, INITIAL, steps) && p <= |Run(cfg, INITIAL, steps).past|
    requires i < j < |HistoryOf(Run(cfg, INITIAL, steps), p)|
    requires var h := HistoryOf(Run(cfg, INITIAL, steps), p);
      (h[i].Issued? && h[j].Issued?) || (h[i].Resolved? && h[j].Resolved?)
    ensures var h := HistoryOf(Run(cfg, INITIAL, steps), p); h[i].token != h[j].token
  {
    var s := Run(cfg, INITIAL, steps);
    var h := HistoryOf(s, p);
    assert Sum(h, ResolvedOf(h[i].token)) <= Sum(h, IssuedOf(h[i].token)) <= 1 by {
      RunKeepsLeases(cfg, steps);
      assert TokenSound(s, h[i].token);
    }
    EventsDiffer(h, i, j);
  }

  lemma EventsDiffer(h: seq<LeaseEvent>, i: nat, j: nat)
    requires i < j < |h| && ((h[i].Issued? && h[j].Issued?) || (h[i].Resolved? && h[j].Resolved?))
    requires Sum(h, ResolvedOf(h[i].token)) <= Sum(h, IssuedOf(h[i].token)) <= 1
    ensures h[i].token != h[j].token
  {
    if h[j].token == h[i].token {
      if h[i].Issued? {
        SumPair(h, i, j, IssuedOf(h[i].token));
      } else {
        SumPair(h, i, j, ResolvedOf(h[i].token));
      }
    }
  }

  /** A call that names a lease by its token. */
  predicate NamesLease(step: Step) {
    step.BeginAck? || step.BeginNack? || step.BeginCheckpoint? || step.Publish?
  }

  /** An ack, nack, checkpoint or published chunk takes effect if and only if the lease held on that
      id now carries that token; otherwise the whole system stays as it was. */
  lemma TokenDecides(cfg: Config, s: System, step: Step)
    requires NamesLease(step)
    ensures Apply(cfg, s, step) != s <==> Holds(s.mem.leased, step.id, step.token)
  {
    if Holds(s.mem.leased, step.id, step.token) {
      TokenTakesEffect(cfg, s, step);
    } else if step.BeginAck? || step.BeginNack? {
      StaleResolutionChangesNothing(cfg, s, step);
    } else {
      StaleWriteChangesNothing(cfg, s, step);
    }
  }

  lemma TokenTakesEffect(cfg: Config, s: System, step: Step)
    requires NamesLease(step) && Holds(s.mem.leased, step.id, step.token)
    ensures Apply(cfg, s, step) != s
  {
    if step.Publish? {
      var after := Apply(cfg, s, step).mem.leased[step.id].stream;
      assert |after| == |s.mem.leased[step.id].stream| + 1;
    } else {
      assert |Apply(cfg, s, step).tasks| == |s.tasks| + 1;
    }
  }

  /** A restart starts the token counter over, so a token issued by an earlier process is judged by its
      number alone: it takes effect if and only if the lease held on that id now carries the same
      number, and then on the lease the running process issued. */
  lemma OldTokenDecides(cfg: Config, steps: seq<Step>, p: nat, step: Step)
    requires ValidRun(cfg, INITIAL, steps) && p < |Run(cfg, INITIAL, steps).past|
    requires NamesLease(step) && Issued(step.token, step.id) in Run(cfg, INITIAL, steps).past[p]
    ensures var s := Run(cfg, INITIAL, steps);
      && (Apply(cfg, s, step) != s <==> step.id in s.mem.leased && s.mem.leased[step.id].token == step.token)
      && (Apply(cfg, s, step) != s ==> Issued(step.token, step.id) in s.history)
  {
    RunKeepsLeases(cfg, steps);
    TokenDecides(cfg, Run(cfg, INITIAL, steps), step);
  }

  /** An ack or a nack without the token of the lease held on that id changes nothing, even
      though the lease is taken out of the map and put back. */
  lemma StaleResolutionChangesNothing(cfg: Config, s: System, step: Step)
    requires step.BeginAck? || step.BeginNack?
    requires !Holds(s.mem.leased, step.id, step.token)
    ensures Apply(cfg, s, step) == s
  {
    assert RemoveLease(s.mem.leased, step.id, step.token).1 == s.mem.leased;
  }

  /** The same for a checkpoint or a published chunk. */
  lemma StaleWriteChangesNothing(cfg: Config, s: System, step: Step)
    requires step.BeginCheckpoint? || step.Publish?
    requires !Holds(s.mem.leased, step.id, step.token)
    ensures Apply(cfg, s, step) == s
  {
  }

  /** The message a claim would lease, once what is due has been promoted. */
  function ClaimFront(mem: Memory, promoteAt: Instant): Option<MessageId> {
    var pending := PromoteReady(mem, promoteAt).pending;
    if |pending| == 0 then None else Some(pending[0].msg.id)
  }

  /** What ends a lease short of a crash: its own ack or nack, a reclaim at or after its expiry, or a
      claim of another copy of the same message, which overwrites it. */
  predicate EndsLease(mem: Memory, step: Step, id: MessageId, token: LeaseToken)
    requires id in mem.leased
  {
    || ((step.BeginAck? || step.BeginNack?) && step.id == id && step.token == token)
    || (step.Reclaim? && mem.leased[id].expiresAt <= step.now)
    || (step.ClaimNext? && ClaimFront(mem, step.promoteAt) == Some(id))
  }

  /** Short of a crash a held lease ends exactly there; being past its expiry alone does not end it. */
  lemma LeaseEndsExactly(cfg: Config, s: System, step: Step, id: MessageId, token: LeaseToken)
    requires Enabled(cfg, s, step) && !step.Crash? && LeasesSound(s) && Holds(s.mem.leased, id, token)
    ensures Holds(Apply(cfg, s, step).mem.leased, id, token) <==> !EndsLease(s.mem, step, id, token)
    ensures !EndsLease(s.mem, step, id, token) ==>
      Apply(cfg, s, step).mem.leased[id].expiresAt == s.mem.leased[id].expiresAt
  {
    assert Issued(token, id) in s.history;
    if LeavesTokens(step) { OtherLeases(cfg, s, step, id); }
  }

  lemma OtherLeases(cfg: Config, s: System, step: Step, id: MessageId)
    requires LeavesTokens(step) && Enabled(cfg, s, step) && id in s.mem.leased
    ensures var leased := Apply(cfg, s, step).mem.leased;
      id in leased && leased[id].token == s.mem.leased[id].token && leased[id].expiresAt == s.mem.leased[id].expiresAt
  {
  }

  /** So over every run, whatever crashed before. */
  lemma RunLeaseEndsExactly(cfg: Config, steps: seq<Step>, step: Step, id: MessageId, token: LeaseToken)
    requires ValidRun(cfg, INITIAL, steps) && Enabled(cfg, Run(cfg, INITIAL, steps), step) && !step.Crash?
    requires Holds(Run(cfg, INITIAL, steps).mem.leased, id, token)
    ensures var s := Run(cfg, INITIAL, steps);
      Holds(Apply(cfg, s, step).mem.leased, id, token) <==> !EndsLease(s.mem, step, id, token)
  {
    RunKeepsLeases(cfg, steps);
    LeaseEndsExactly(cfg, Run(cfg, INITIAL, steps), step, id, token);
  }

  /** Where every message is in one place, as in every crash-free run, no claim overwrites a lease:
      only its own ack or nack, or a reclaim at or after its expiry, ends it. */
  lemma LeaseOutlivesExpiry(cfg: Config, steps: seq<Step>, step: Step, id: MessageId, token: LeaseToken)
    requires ValidRun(cfg, INITIAL, steps) && CrashFree(steps)
    requires Enabled(cfg, Run(cfg, INITIAL, steps), step) && !step.Crash?
    requires Holds(Run(cfg, INITIAL, steps).mem.leased, id, token)
    ensures var s := Run(cfg, INITIAL, steps);
      Holds(Apply(cfg, s, step).mem.leased, id, token)
      <==> !((step.BeginAck? || step.BeginNack?) && step.id == id && step.token == token)
           && !(step.Reclaim? && s.mem.leased[id].expiresAt <= step.now)
  {
    var s := Run(cfg, INITIAL, steps);
    assert !Overwrites(s.mem, step) by {
      RunKeepsPlaces(cfg, steps);
      NothingToOverwrite(s, step);
    }
    RunLeaseEndsExactly(cfg, steps, step, id, token);
  }
}
