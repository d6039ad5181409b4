/** When a blocked claim should look again: the earliest lease expiry or retry time is exactly
    the first time at which a pass over an idle group does anything. */
module Wake {
  import opened Wrappers
  import opened Messages
  import opened Steps
  import opened Census
  import opened Durability
  import opened Partition
  import opened Recovery
  import opened Serial
  import opened SerialRuns
  import opened Leases

  /** Something leased or delayed becomes claimable at `t`. */
  ghost predicate DueAt(mem: Memory, t: Instant) {
    || (exists id :: id in mem.leased && mem.leased[id].expiresAt == t)
    || (exists i :: 0 <= i < |mem.delayed| && mem.delayed[i].availableAt == t)
  }

  ghost predicate NothingDueBefore(mem: Memory, t: Instant) {
    && (forall id :: id in mem.leased ==> t <= mem.leased[id].expiresAt)
    && (forall i :: 0 <= i < |mem.delayed| ==> t <= mem.delayed[i].availableAt)
  }

  /** `wake` is the earliest lease expiry or retry time, if there is any. */
  ghost predicate IsEarliestWake(mem: Memory, wake: Option<Instant>) {
    match wake
    case None => mem.leased == map[] && mem.delayed == []
    case Some(t) => DueAt(mem, t) && NothingDueBefore(mem, t)
  }

  lemma {:induction false} NoneReady(delayed: seq<Delayed>, t: Instant)
    requires forall i :: 0 <= i < |delayed| ==> t < delayed[i].availableAt
    ensures Ready(delayed, t) == [] && StillDelayed(delayed, t) == delayed
  {
    if |delayed| > 0 { NoneReady(delayed[..|delayed| - 1], t); }
  }

  lemma {:induction false} SomeReady(delayed: seq<Delayed>, t: Instant, i: nat)
    requires i < |delayed| && delayed[i].availableAt <= t
    ensures |Ready(delayed, t)| > 0
  {
    if i < |delayed| - 1 { SomeReady(delayed[..|delayed| - 1], t, i); }
  }

  lemma {:induction false} NotDueStaysDelayed(delayed: seq<Delayed>, t: Instant, i: nat)
    requires i < |delayed| && t < delayed[i].availableAt
    ensures delayed[i] in StillDelayed(delayed, t)
  {
    var still := StillDelayed(delayed, t);
    if i < |delayed| - 1 {
      NotDueStaysDelayed(delayed[..|delayed| - 1], t, i);
    } else {
      assert still[|still| - 1] == delayed[i];
    }
  }

  /** Resolving failed deliveries adds no lease event, drops no lease and only adds delayed entries. */
  lemma {:induction false} DrainFrame(cfg: Config, s: System, now: MessageId -> Instant, draws: MessageId -> real)
    requires Settled(s)
    ensures var s' := Drain(cfg, s, now, draws);
      && s'.history == s.history && s'.mem.leased == s.mem.leased && s'.mem.pending == s.mem.pending
      && s'.mem.nextToken == s.mem.nextToken
      && s.mem.delayed <= s'.mem.delayed
    decreases |s.tasks|
  {
    if |s.tasks| > 0 {
      ResolveFirstIsHeads(cfg, s, now, draws);
      DrainFrame(cfg, ResolveFirst(cfg, s, now, draws), now, draws);
    }
  }

  lemma EnumeratesSome(order: seq<MessageId>, ids: set<MessageId>)
    requires Enumerates(order, ids) && |order| > 0
    ensures ids != {}
  {
    assert order[0] in ids;
  }

  /** Reclaiming when no lease has expired does nothing. */
  lemma NothingToReclaim(cfg: Config, s: System, t: Instant, order: seq<MessageId>)
    requires Enabled(cfg, s, Reclaim(t, order)) && Expired(s.mem.leased, t) == {}
    ensures Apply(cfg, s, Reclaim(t, order)) == s
  {
    if |order| > 0 {
      EnumeratesSome(order, Expired(s.mem.leased, t));
    }
    assert s.mem.leased - {} == s.mem.leased;
  }

  lemma NothingToClaim(cfg: Config, s: System, t: Instant, leaseAt: Instant)
    requires s.mem.pending == [] && forall i :: 0 <= i < |s.mem.delayed| ==> t < s.mem.delayed[i].availableAt
    ensures Apply(cfg, s, ClaimNext(t, leaseAt)) == s
  {
    NoneReady(s.mem.delayed, t);
    assert PromoteReady(s.mem, t) == s.mem;
  }

  /** What a claim pass looks for: a lease expired when it reclaims, an entry due when it promotes. */
  ghost predicate FindsWork(mem: Memory, pass: Op)
    requires pass.DoClaim?
  {
    || (exists id :: id in mem.leased && mem.leased[id].expiresAt <= pass.reclaimAt)
    || (exists i :: 0 <= i < |mem.delayed| && mem.delayed[i].availableAt <= pass.promoteAt)
  }

  lemma IdlePass(cfg: Config, s: System, pass: Op)
    requires pass.DoClaim? && s.tasks == [] && Enabled(cfg, s, FirstStep(pass)) && s.mem.pending == []
    requires !FindsWork(s.mem, pass)
    ensures Perform(cfg, s, pass) == s
  {
    assert Expired(s.mem.leased, pass.reclaimAt) == {};
    NothingToReclaim(cfg, s, pass.reclaimAt, pass.order);
    NothingToClaim(cfg, s, pass.promoteAt, pass.leaseAt);
    assert Drain(cfg, s, pass.resolveAt, pass.draws) == s;
  }

  lemma ClaimGrowsHistory(cfg: Config, s: System, promoteAt: Instant, leaseAt: Instant)
    ensures var claimed := Apply(cfg, s, ClaimNext(promoteAt, leaseAt));
      |claimed.history| == |s.history| + One(|s.mem.pending| + |Ready(s.mem.delayed, promoteAt)| > 0)
  {
  }

  lemma BusyPass(cfg: Config, s: System, pass: Op)
    requires pass.DoClaim? && s.tasks == [] && Enabled(cfg, s, FirstStep(pass)) && FindsWork(s.mem, pass)
    ensures |Perform(cfg, s, pass).history| > |s.history|
  {
    var s1 := Apply(cfg, s, FirstStep(pass));
    var s2 := Drain(cfg, s1, pass.resolveAt, pass.draws);
    ReclaimGrowsHistory(cfg, s, pass.reclaimAt, pass.order);
    DrainFrame(cfg, s1, pass.resolveAt, pass.draws);
    ClaimGrowsHistory(cfg, s2, pass.promoteAt, pass.leaseAt);
    SomethingHappens(s.mem, s2.mem.delayed, pass);
  }

  lemma ReclaimGrowsHistory(cfg: Config, s: System, t: Instant, order: seq<MessageId>)
    requires Enabled(cfg, s, Reclaim(t, order)) && s.tasks == []
    ensures var s1 := Apply(cfg, s, Reclaim(t, order));
      && |s1.history| == |s.history| + |order| && s1.mem.delayed == s.mem.delayed && Settled(s1)
  {
  }

  /** Something due is a lease to reclaim or an entry to promote. */
  lemma SomethingHappens(mem: Memory, delayed: seq<Delayed>, pass: Op)
    requires pass.DoClaim? && Enumerates(pass.order, Expired(mem.leased, pass.reclaimAt)) && mem.delayed <= delayed
    requires FindsWork(mem, pass)
    ensures |pass.order| > 0 || |Ready(delayed, pass.promoteAt)| > 0
  {
    if id :| id in mem.leased && mem.leased[id].expiresAt <= pass.reclaimAt {
      assert id in Expired(mem.leased, pass.reclaimAt) && id in pass.order;
    } else {
      var i :| 0 <= i < |mem.delayed| && mem.delayed[i].availableAt <= pass.promoteAt;
      assert delayed[i] == mem.delayed[i];
      SomeReady(delayed, pass.promoteAt, i);
    }
  }

  /** Over a group with nothing pending, whatever its clock readings, a pass changes something if and
      only if a lease has expired when it reclaims or a delayed entry is due when it promotes. */
  lemma PassChangesExactly(cfg: Config, s: System, pass: Op)
    requires pass.DoClaim? && s.tasks == [] && Enabled(cfg, s, FirstStep(pass)) && s.mem.pending == []
    ensures Perform(cfg, s, pass) != s <==> FindsWork(s.mem, pass)
  {
    if FindsWork(s.mem, pass) { BusyPass(cfg, s, pass); } else { IdlePass(cfg, s, pass); }
  }

  /** The wake time is exact: a pass whose readings are all before it changes nothing, a pass that
      reclaims at or after it changes something, and so a pass at one reading changes something if
      and only if the wake time exists and has come. */
  lemma WakeIsExact(cfg: Config, s: System, pass: Op, wake: Option<Instant>)
    requires pass.DoClaim? && s.tasks == [] && Enabled(cfg, s, FirstStep(pass)) && s.mem.pending == []
    requires pass.reclaimAt <= pass.promoteAt && IsEarliestWake(s.mem, wake)
    ensures wake.None? || pass.promoteAt < wake.value ==> Perform(cfg, s, pass) == s
    ensures wake.Some? && wake.value <= pass.reclaimAt ==> Perform(cfg, s, pass) != s
    ensures pass.reclaimAt == pass.promoteAt ==>
      (Perform(cfg, s, pass) != s <==> wake.Some? && wake.value <= pass.reclaimAt)
  {
    PassChangesExactly(cfg, s, pass);
  }

  /** The message a pass would lease: the front of the queue once what it reclaimed is resolved and
      what is due promoted. */
  function PassFront(cfg: Config, s: System, pass: Op): Option<MessageId>
    requires pass.DoClaim? && s.tasks == [] && Enabled(cfg, s, FirstStep(pass))
  {
    var s2 := Drain(cfg, Apply(cfg, s, FirstStep(pass)), pass.resolveAt, pass.draws);
    ClaimFront(s2.mem, pass.promoteAt)
  }

  /** Tokens still to be issued differ from those of the leases held. */
  predicate TokensBelow(mem: Memory) {
    forall id :: id in mem.leased ==> mem.leased[id].token < mem.nextToken
  }

  /** As they do over every run. */
  lemma TokensAlwaysBelow(cfg: Config, steps: seq<Step>)
    requires ValidRun(cfg, INITIAL, steps)
    ensures TokensBelow(Run(cfg, INITIAL, steps).mem)
  {
    var s := Run(cfg, INITIAL, steps);
    RunKeepsLeases(cfg, steps);
    forall id | id in s.mem.leased ensures s.mem.leased[id].token < s.mem.nextToken {
      assert Issued(s.mem.leased[id].token, id) in s.history;
    }
  }

  /** A pass leaves alone every delayed entry not yet due when it promotes, and leaves a lease not yet
      expired when it reclaims as it was if and only if it does not lease the same message. */
  lemma NotDueIsUntouched(cfg: Config, s: System, pass: Op)
    requires pass.DoClaim? && s.tasks == [] && Enabled(cfg, s, FirstStep(pass)) && TokensBelow(s.mem)
    ensures forall id :: id in s.mem.leased && pass.reclaimAt < s.mem.leased[id].expiresAt ==>
      id in Perform(cfg, s, pass).mem.leased
      && (Perform(cfg, s, pass).mem.leased[id] == s.mem.leased[id] <==> PassFront(cfg, s, pass) != Some(id))
    ensures forall i :: 0 <= i < |s.mem.delayed| && pass.promoteAt < s.mem.delayed[i].availableAt ==>
      s.mem.delayed[i] in Perform(cfg, s, pass).mem.delayed
  {
    var s1 := Apply(cfg, s, FirstStep(pass));
    var s2 := Drain(cfg, s1, pass.resolveAt, pass.draws);
    DrainFrame(cfg, s1, pass.resolveAt, pass.draws);
    ClaimFrame(cfg, s2, ClaimNext(pass.promoteAt, pass.leaseAt));
    forall i | 0 <= i < |s.mem.delayed| && pass.promoteAt < s.mem.delayed[i].availableAt
      ensures s.mem.delayed[i] in StillDelayed(s2.mem.delayed, pass.promoteAt)
    {
      assert s2.mem.delayed[i] == s.mem.delayed[i];
      NotDueStaysDelayed(s2.mem.delayed, pass.promoteAt, i);
    }
  }

  /** A claim keeps every lease but one on the message it leases, and takes only what is due out of
      the delay. */
  lemma ClaimFrame(cfg: Config, s: System, claim: Step)
    requires claim.ClaimNext? && TokensBelow(s.mem)
    ensures Apply(cfg, s, claim).mem.delayed == StillDelayed(s.mem.delayed, claim.promoteAt)
    ensures forall id :: id in s.mem.leased ==>
      id in Apply(cfg, s, claim).mem.leased
      && (Apply(cfg, s, claim).mem.leased[id] == s.mem.leased[id] <==> ClaimFront(s.mem, claim.promoteAt) != Some(id))
  {
  }

  /** Where every message is in one place, as after any run of completed calls, no pass touches a lease
      that has not expired. */
  lemma InPlaceIsUntouched(cfg: Config, s: System, pass: Op, id: MessageId)
    requires pass.DoClaim? && s.tasks == [] && Enabled(cfg, s, FirstStep(pass)) && Base(s) && TokensBelow(s.mem)
    requires id in s.mem.leased && pass.reclaimAt < s.mem.leased[id].expiresAt
    ensures id in Perform(cfg, s, pass).mem.leased && Perform(cfg, s, pass).mem.leased[id] == s.mem.leased[id]
  {
    var s1 := Apply(cfg, s, FirstStep(pass));
    var s2 := Drain(cfg, s1, pass.resolveAt, pass.draws);
    assert AllInPlace(s2) by {
      StepKeepsBase(cfg, s, FirstStep(pass));
      DrainKeepsBase(cfg, s1, pass.resolveAt, pass.draws);
    }
    DrainFrame(cfg, s1, pass.resolveAt, pass.draws);
    NothingToOverwrite(s2, ClaimNext(pass.promoteAt, pass.leaseAt));
    NotDueIsUntouched(cfg, s, pass);
  }
}
