/** Runs that reach the exceptions: crashes that split a key or lose a message, a restart that
    forgets a key, and a lease token that comes back. */
module Witnesses {
  import opened Wrappers
  import opened Messages
  import opened Steps
  import opened Recovery
  import opened Serial
  import opened SerialRuns
  import opened SerialTheorems
  import opened Faults
  import opened KeySplits
  import Retry

  /** A step of a clean run. */
  ghost predicate Moves(cfg: Config, s: System, step: Step, s': System) {
    && Enabled(cfg, s, step) && Apply(cfg, s, step) == s'
    && !step.AppendFails? && (step.Crash? ==> s.tasks == [])
  }

  /** Following one more of them. */
  lemma Follow(cfg: Config, s: System, step: Step, s': System)
    requires StepReachable(cfg, s) && Moves(cfg, s, step, s')
    ensures StepReachable(cfg, s')
  {
    StepKeepsReachable(cfg, s, step);
  }

  // ---- One message, up to where the exceptions begin ---------------------------------------------

  function Reserved(a: Message): System {
    INITIAL.(mem := EMPTY_MEMORY.(dedup := RegisterKey(map[], a.key, a.id)),
             tasks := [Enqueueing(a)], created := map[a.id := a])
  }

  /** `a`, the only message ever, waits to be claimed. */
  function Waiting(a: Message): System {
    Reserved(a).(mem := Reserved(a).mem.(pending := [Pending(a, 0, None)]), tasks := [], main := [Enqueue(a)])
  }

  function Lease(cfg: Config, a: Message): Leased {
    Leased(a, 0, 0.0 + cfg.visibilityTimeout, 1, None, [])
  }

  function Claimed(cfg: Config, a: Message): System {
    Waiting(a).(mem := Reserved(a).mem.(leased := map[a.id := Lease(cfg, a)], nextToken := 1),
                history := [Issued(0, a.id)])
  }

  lemma ReservedReached(cfg: Config, a: Message)
    ensures StepReachable(cfg, Reserved(a))
  {
    assert ValidRun(cfg, INITIAL, []) && Clean(cfg, []) && Run(cfg, INITIAL, []) == INITIAL;
    assert Moves(cfg, INITIAL, BeginEnqueue(a), Reserved(a));
    Follow(cfg, INITIAL, BeginEnqueue(a), Reserved(a));
  }

  function Logged(a: Message): System {
    Reserved(a).(tasks := [Enqueued(a)], main := [Enqueue(a)])
  }

  lemma LoggedReached(cfg: Config, a: Message)
    ensures StepReachable(cfg, Logged(a))
  {
    assert Moves(cfg, Reserved(a), Advance(0, 0.0, 0.0), Logged(a));
    ReservedReached(cfg, a);
    Follow(cfg, Reserved(a), Advance(0, 0.0, 0.0), Logged(a));
  }

  lemma WaitingReached(cfg: Config, a: Message)
    ensures StepReachable(cfg, Waiting(a))
  {
    assert Moves(cfg, Logged(a), Advance(0, 0.0, 0.0), Waiting(a));
    LoggedReached(cfg, a);
    Follow(cfg, Logged(a), Advance(0, 0.0, 0.0), Waiting(a));
  }

  lemma ClaimedReached(cfg: Config, a: Message)
    ensures StepReachable(cfg, Claimed(cfg, a))
  {
    assert PromoteReady(Waiting(a).mem, 0.0) == Waiting(a).mem;
    assert Moves(cfg, Waiting(a), ClaimNext(0.0, 0.0), Claimed(cfg, a));
    WaitingReached(cfg, a);
    Follow(cfg, Waiting(a), ClaimNext(0.0, 0.0), Claimed(cfg, a));
  }

  /** The ack of `a` has released the key without writing its record. */
  function HalfAcked(a: Message): System {
    Waiting(a).(mem := EMPTY_MEMORY.(nextToken := 1), tasks := [Acking(a.id)], gone := {a.id},
                history := [Issued(0, a.id), Resolved(0, a.id, ByAck)])
  }

  lemma HalfAckedReached(cfg: Config, a: Message)
    ensures StepReachable(cfg, HalfAcked(a))
  {
    AckReleases(cfg, a);
    assert Moves(cfg, Claimed(cfg, a), BeginAck(a.id, 0), HalfAcked(a));
    ClaimedReached(cfg, a);
    Follow(cfg, Claimed(cfg, a), BeginAck(a.id, 0), HalfAcked(a));
  }

  lemma AckReleases(cfg: Config, a: Message)
    ensures Apply(cfg, Claimed(cfg, a), BeginAck(a.id, 0)) == HalfAcked(a)
  {
    var s := Apply(cfg, Claimed(cfg, a), BeginAck(a.id, 0));
    assert s.mem.leased == map[] && s.mem.dedup == map[];
  }

  // ---- A second message under the key of a half-acknowledged one -----------------------------------

  /** `b` has taken the key of `a`, its Enqueue record written. */
  function Overtaken(a: Message, b: Message): System {
    HalfAcked(a).(mem := HalfAcked(a).mem.(dedup := RegisterKey(map[], b.key, b.id)),
                  tasks := [Acking(a.id), Enqueued(b)], main := [Enqueue(a), Enqueue(b)],
                  created := map[a.id := a, b.id := b])
  }

  lemma OvertakenReached(cfg: Config, a: Message, b: Message)
    requires a.id != b.id
    ensures StepReachable(cfg, Overtaken(a, b))
  {
    assert Moves(cfg, Overtaking(a, b), Advance(1, 0.0, 0.0), Overtaken(a, b));
    OvertakingReached(cfg, a, b);
    Follow(cfg, Overtaking(a, b), Advance(1, 0.0, 0.0), Overtaken(a, b));
  }

  function Overtaking(a: Message, b: Message): System {
    Overtaken(a, b).(tasks := [Acking(a.id), Enqueueing(b)], main := [Enqueue(a)])
  }

  lemma OvertakingReached(cfg: Config, a: Message, b: Message)
    requires a.id != b.id
    ensures StepReachable(cfg, Overtaking(a, b))
  {
    assert Moves(cfg, HalfAcked(a), BeginEnqueue(b), Overtaking(a, b));
    HalfAckedReached(cfg, a);
    Follow(cfg, HalfAcked(a), BeginEnqueue(b), Overtaking(a, b));
  }

  lemma RecoversBoth(a: Message, b: Message)
    ensures Recover([Enqueue(a), Enqueue(b)], [], []).pending == [Pending(a, 0, None), Pending(b, 0, None)]
  {
    ReplayMainAppend([], Enqueue(a));
    ReplayMainAppend([Enqueue(a)], Enqueue(b));
    assert [] + [Enqueue(a)] == [Enqueue(a)];
    assert [Enqueue(a)] + [Enqueue(b)] == [Enqueue(a), Enqueue(b)];
    NoCheckpoints([Pending(a, 0, None), Pending(b, 0, None)]);
  }

  /** Without checkpoints there is nothing to hand out. */
  lemma {:induction false} NoCheckpoints(pending: seq<Pending>)
    requires forall i :: 0 <= i < |pending| ==> pending[i].checkpoint == None
    ensures ApplyCheckpoints(pending, map[]) == pending
  {
    if |pending| > 0 {
      var none: map<MessageId, Value> := map[];
      assert none - {pending[0].msg.id} == none;
      NoCheckpoints(pending[1..]);
    }
  }

  /** A crash before the Ack record of `a` is written recovers two messages under one key. */
  lemma CrashInAckSplitsKey(cfg: Config, a: Message, b: Message)
    requires a.id != b.id && a.key == b.key && a.key.Some?
    ensures StepReachable(cfg, Overtaken(a, b)) && Enabled(cfg, Overtaken(a, b), Crash([]))
    ensures Apply(cfg, Overtaken(a, b), Crash([])).mem.pending == [Pending(a, 0, None), Pending(b, 0, None)]
  {
    OvertakenReached(cfg, a, b);
    RecoversBoth(a, b);
  }

  /** Both calls have run to their end. */
  function Completed(a: Message, b: Message): System {
    Overtaken(a, b).(mem := Overtaken(a, b).mem.(pending := [Pending(b, 0, None)]),
                     tasks := [], main := [Enqueue(a), Enqueue(b), Ack(a.id)])
  }

  lemma CompletedReached(cfg: Config, a: Message, b: Message)
    requires a.id != b.id
    ensures StepReachable(cfg, Completed(a, b))
  {
    assert Moves(cfg, Listed(a, b), Advance(0, 0.0, 0.0), Completed(a, b));
    ListedReached(cfg, a, b);
    Follow(cfg, Listed(a, b), Advance(0, 0.0, 0.0), Completed(a, b));
  }

  function Listed(a: Message, b: Message): System {
    Overtaken(a, b).(mem := Completed(a, b).mem, tasks := [Acking(a.id)])
  }

  lemma ListedReached(cfg: Config, a: Message, b: Message)
    requires a.id != b.id
    ensures StepReachable(cfg, Listed(a, b))
  {
    assert Moves(cfg, Overtaken(a, b), Advance(1, 0.0, 0.0), Listed(a, b));
    OvertakenReached(cfg, a, b);
    Follow(cfg, Overtaken(a, b), Advance(1, 0.0, 0.0), Listed(a, b));
  }

  lemma ForgetsKey(a: Message, b: Message)
    requires a.id != b.id && a.key == b.key && a.key.Some?
    ensures var mem := Recover([Enqueue(a), Enqueue(b), Ack(a.id)], [], []);
      mem.dedup == map[] && mem.pending == [Pending(b, 0, None)]
  {
    var main := [Enqueue(a), Enqueue(b)];
    ReplayMainAppend([], Enqueue(a));
    ReplayMainAppend([Enqueue(a)], Enqueue(b));
    ReplayMainAppend(main, Ack(a.id));
    assert [] + [Enqueue(a)] == [Enqueue(a)] && [Enqueue(a)] + [Enqueue(b)] == main;
    assert main + [Ack(a.id)] == [Enqueue(a), Enqueue(b), Ack(a.id)];
    assert Position([Pending(a, 0, None), Pending(b, 0, None)], a.id) == Some(0);
    var r := ReplayMain([Enqueue(a), Enqueue(b), Ack(a.id)]);
    assert r.pending == [Pending(b, 0, None)] && r.dedup == map[];
    NoCheckpoints([Pending(b, 0, None)]);
  }

  /** A restart between calls, all of them complete, forgets the key of the pending `b`, because the
      Ack of the earlier holder was written after the Enqueue of `b`; a third message takes it. */
  lemma RestartCanForgetKey(cfg: Config, a: Message, b: Message, c: Message)
    requires a.id != b.id && c.id != a.id && c.id != b.id && a.key == b.key == c.key && a.key.Some?
    ensures StepReachable(cfg, Completed(a, b)) && Enabled(cfg, Completed(a, b), Crash([]))
    ensures var s := Apply(cfg, Completed(a, b), Crash([]));
      && s.mem.pending == [Pending(b, 0, None)]
      && Enabled(cfg, s, BeginEnqueue(c)) && Apply(cfg, s, BeginEnqueue(c)).tasks == [Enqueueing(c)]
  {
    CompletedReached(cfg, a, b);
    ForgetsKey(a, b);
  }

  /** The restart has forgotten the key of `b`. */
  function Forgotten(a: Message, b: Message): System {
    Completed(a, b).(mem := EMPTY_MEMORY.(pending := [Pending(b, 0, None)]), history := [],
                     past := [Completed(a, b).history])
  }

  lemma ForgottenReached(cfg: Config, a: Message, b: Message)
    requires a.id != b.id && a.key == b.key && a.key.Some?
    ensures StepReachable(cfg, Forgotten(a, b))
  {
    RestartForgets(cfg, a, b);
    CompletedReached(cfg, a, b);
    Follow(cfg, Completed(a, b), Crash([]), Forgotten(a, b));
  }

  lemma RestartForgets(cfg: Config, a: Message, b: Message)
    requires a.id != b.id && a.key == b.key && a.key.Some?
    ensures Moves(cfg, Completed(a, b), Crash([]), Forgotten(a, b))
  {
    ForgetsKey(a, b);
    var s := Apply(cfg, Completed(a, b), Crash([]));
    assert s.mem == Forgotten(a, b).mem && s.gapLost == {};
  }

  /** `c` has taken the key of the live `b`. */
  function Shared(a: Message, b: Message, c: Message): System {
    Forgotten(a, b).(mem := EMPTY_MEMORY.(pending := [Pending(b, 0, None), Pending(c, 0, None)],
                                          dedup := RegisterKey(map[], c.key, c.id)),
                     main := [Enqueue(a), Enqueue(b), Ack(a.id), Enqueue(c)],
                     created := map[a.id := a, b.id := b, c.id := c])
  }

  lemma SharedReached(cfg: Config, a: Message, b: Message, c: Message)
    requires a.id != b.id && c.id != a.id && c.id != b.id && a.key == b.key == c.key && a.key.Some?
    ensures StepReachable(cfg, Shared(a, b, c))
  {
    EnqueueShares(cfg, a, b, c);
    ForgottenReached(cfg, a, b);
    StepKeepsReachable(cfg, Forgotten(a, b), BeginEnqueue(c));
    DrainKeepsReachable(cfg, Apply(cfg, Forgotten(a, b), BeginEnqueue(c)), NoClock(), NoDraws());
  }

  lemma EnqueueShares(cfg: Config, a: Message, b: Message, c: Message)
    requires a.id != b.id && c.id != a.id && c.id != b.id
    ensures Enabled(cfg, Forgotten(a, b), BeginEnqueue(c))
    ensures Drain(cfg, Apply(cfg, Forgotten(a, b), BeginEnqueue(c)), NoClock(), NoDraws()) == Shared(a, b, c)
  {
    EnqueueIsSteps(cfg, Forgotten(a, b), c);
  }

  /** A second restart, no call in flight and no Ack after the latest Enqueue under the key, leaves the
      key of `b` to `c`. */
  lemma RestartLeavesKeyToAnother(cfg: Config, a: Message, b: Message, c: Message)
    requires a.id != b.id && c.id != a.id && c.id != b.id && a.key == b.key == c.key && a.key.Some?
    ensures var s := Shared(a, b, c);
      && StepReachable(cfg, s) && s.tasks == [] && LiveMessage(s.mem, b) && Enabled(cfg, s, Crash([]))
      && !AckedSince(s.main, b.key.value)
      && b.key.value in Apply(cfg, s, Crash([])).mem.dedup
      && Apply(cfg, s, Crash([])).mem.dedup[b.key.value] == c.id
  {
    var s := Shared(a, b, c);
    SharedReached(cfg, a, b, c);
    assert s.mem.pending[0].msg == b;
    var before := [Enqueue(a), Enqueue(b), Ack(a.id)];
    assert before + [Enqueue(c)] == s.main;
    AckedAppend(before, Enqueue(c), b.key.value);
    ReplayMainAppend(before, Enqueue(c));
  }

  // ---- A dead letter whose burial is not yet on the main log ---------------------------------------

  function Letter(a: Message): DeadLetter {
    DeadLetter(a, 1, None, 0.0, None, None)
  }

  /** `a` is a dead letter, its DeadLettered record still to be written. */
  function HalfBuried(a: Message): System {
    Waiting(a).(mem := Reserved(a).mem.(dlq := map[a.id := Letter(a)], nextToken := 1),
                dlqLog := [Record(Letter(a))], tasks := [Burying(a.id)],
                history := [Issued(0, a.id), Resolved(0, a.id, ByNack)])
  }

  lemma HalfBuriedReached(cfg: Config, a: Message)
    requires Retry.IsExhausted(cfg.policy, 1)
    ensures StepReachable(cfg, HalfBuried(a))
  {
    assert Moves(cfg, Recorded(a), Advance(0, 0.0, 0.0), HalfBuried(a));
    RecordedReached(cfg, a);
    Follow(cfg, Recorded(a), Advance(0, 0.0, 0.0), HalfBuried(a));
  }

  function Recorded(a: Message): System {
    Nacked(a).(dlqLog := [Record(Letter(a))], tasks := [Recording(Letter(a))])
  }

  lemma RecordedReached(cfg: Config, a: Message)
    requires Retry.IsExhausted(cfg.policy, 1)
    ensures StepReachable(cfg, Recorded(a))
  {
    assert Moves(cfg, Nacked(a), Advance(0, 0.0, 0.0), Recorded(a));
    NackedReached(cfg, a);
    Follow(cfg, Nacked(a), Advance(0, 0.0, 0.0), Recorded(a));
  }

  function Nacked(a: Message): System {
    HalfBuried(a).(mem := HalfBuried(a).mem.(dlq := map[]), dlqLog := [], tasks := [Failing(Failed(a, 1, None, None))])
  }

  lemma NackedReached(cfg: Config, a: Message)
    ensures StepReachable(cfg, Nacked(a))
  {
    assert Apply(cfg, Claimed(cfg, a), BeginNack(a.id, 0, None)).mem.leased == map[];
    assert Moves(cfg, Claimed(cfg, a), BeginNack(a.id, 0, None), Nacked(a));
    ClaimedReached(cfg, a);
    Follow(cfg, Claimed(cfg, a), BeginNack(a.id, 0, None), Nacked(a));
  }

  /** The dead letter `a` taken out again, its Remove record written. */
  function Removed(a: Message, task: Task): System {
    HalfBuried(a).(mem := HalfBuried(a).mem.(dlq := map[]), dlqLog := [Record(Letter(a)), Remove(a.id)],
                   tasks := [Burying(a.id), task])
  }

  lemma TakenReached(cfg: Config, a: Message, purpose: Purpose)
    requires Retry.IsExhausted(cfg.policy, 1)
    ensures StepReachable(cfg, Removed(a, Taking(Letter(a), purpose)).(dlqLog := [Record(Letter(a))]))
  {
    assert HalfBuried(a).mem.dlq - {a.id} == map[];
    assert Moves(cfg, HalfBuried(a), BeginTake(a.id, purpose),
           Removed(a, Taking(Letter(a), purpose)).(dlqLog := [Record(Letter(a))]));
    HalfBuriedReached(cfg, a);
    Follow(cfg, HalfBuried(a), BeginTake(a.id, purpose),
           Removed(a, Taking(Letter(a), purpose)).(dlqLog := [Record(Letter(a))]));
  }

  lemma RevivingReached(cfg: Config, a: Message)
    requires Retry.IsExhausted(cfg.policy, 1)
    ensures StepReachable(cfg, Removed(a, Reviving(a)))
  {
    var taking := Removed(a, Taking(Letter(a), Reprocess)).(dlqLog := [Record(Letter(a))]);
    assert Moves(cfg, taking, Advance(1, 0.0, 0.0), Removed(a, Reviving(a)));
    TakenReached(cfg, a, Reprocess);
    Follow(cfg, taking, Advance(1, 0.0, 0.0), Removed(a, Reviving(a)));
  }

  /** `a` is purged, its burial not yet on record. */
  function Released(a: Message): System {
    Removed(a, Releasing(a)).(mem := EMPTY_MEMORY.(nextToken := 1), tasks := [Burying(a.id)],
                              gone := {a.id}, purged := {a.id})
  }

  lemma ReleasedReached(cfg: Config, a: Message)
    requires Retry.IsExhausted(cfg.policy, 1)
    ensures StepReachable(cfg, Released(a))
  {
    var taking := Removed(a, Taking(Letter(a), Purge)).(dlqLog := [Record(Letter(a))]);
    var releasing := Removed(a, Releasing(a)).(purged := {a.id});
    assert Apply(cfg, releasing, Advance(1, 0.0, 0.0)).mem.dedup == map[];
    assert Moves(cfg, taking, Advance(1, 0.0, 0.0), releasing);
    assert Moves(cfg, releasing, Advance(1, 0.0, 0.0), Released(a));
    TakenReached(cfg, a, Purge);
    Follow(cfg, taking, Advance(1, 0.0, 0.0), releasing);
    Follow(cfg, releasing, Advance(1, 0.0, 0.0), Released(a));
  }

  /** `a` is purged and `b` has taken its key, while the burial of `a` is not yet on record. */
  function Replaced(a: Message, b: Message): System {
    Removed(a, Enqueued(b)).(mem := EMPTY_MEMORY.(nextToken := 1, dedup := RegisterKey(map[], b.key, b.id)),
                             main := [Enqueue(a), Enqueue(b)], created := map[a.id := a, b.id := b],
                             gone := {a.id}, purged := {a.id})
  }

  lemma ReplacedReached(cfg: Config, a: Message, b: Message)
    requires Retry.IsExhausted(cfg.policy, 1) && a.id != b.id
    ensures StepReachable(cfg, Replaced(a, b))
  {
    assert Moves(cfg, Replacing(a, b), Advance(1, 0.0, 0.0), Replaced(a, b));
    ReplacingReached(cfg, a, b);
    Follow(cfg, Replacing(a, b), Advance(1, 0.0, 0.0), Replaced(a, b));
  }

  function Replacing(a: Message, b: Message): System {
    Replaced(a, b).(tasks := [Burying(a.id), Enqueueing(b)], main := [Enqueue(a)])
  }

  lemma ReplacingReached(cfg: Config, a: Message, b: Message)
    requires Retry.IsExhausted(cfg.policy, 1) && a.id != b.id
    ensures StepReachable(cfg, Replacing(a, b))
  {
    assert Moves(cfg, Released(a), BeginEnqueue(b), Replacing(a, b));
    ReleasedReached(cfg, a);
    Follow(cfg, Released(a), BeginEnqueue(b), Replacing(a, b));
  }

  lemma LettersCancelled(a: Message)
    ensures ReplayDlq([Record(Letter(a)), Remove(a.id)]) == map[]
  {
    LettersCancel(Letter(a), a.id);
  }

  /** Without any acknowledgement, a crash can recover a purged message beside the one that took its
      key. */
  lemma CrashAfterPurgeSplitsKey(cfg: Config, a: Message, b: Message)
    requires Retry.IsExhausted(cfg.policy, 1) && a.id != b.id && a.key == b.key && a.key.Some?
    ensures StepReachable(cfg, Replaced(a, b)) && Enabled(cfg, Replaced(a, b), Crash([]))
    ensures Apply(cfg, Replaced(a, b), Crash([])).mem.pending == [Pending(a, 0, None), Pending(b, 0, None)]
  {
    ReplacedReached(cfg, a, b);
    LettersCancelled(a);
    RecoversBoth(a, b);
  }

  // ---- Losing a message, or not -----------------------------------------------------------------

  /** `a` is off the dead-letter log, not yet back on the main one, its burial on record. */
  function Adrift(a: Message): System {
    Removed(a, Reviving(a)).(tasks := [Reviving(a)], main := [Enqueue(a), DeadLettered(a.id)])
  }

  /** A crash then loses `a` for good: nothing of it is recovered. */
  lemma CrashInReprocessLoses(cfg: Config, a: Message)
    requires Retry.IsExhausted(cfg.policy, 1)
    ensures StepReachable(cfg, Adrift(a)) && Enabled(cfg, Adrift(a), Crash([]))
    ensures var mem := Apply(cfg, Adrift(a), Crash([])).mem; mem.pending == [] && mem.dlq == map[]
  {
    AdriftReached(cfg, a);
    LettersCancelled(a);
    ReplaysNothing(a);
  }

  lemma AdriftReached(cfg: Config, a: Message)
    requires Retry.IsExhausted(cfg.policy, 1)
    ensures StepReachable(cfg, Adrift(a))
  {
    assert Moves(cfg, Removed(a, Reviving(a)), Advance(0, 0.0, 0.0), Adrift(a));
    RevivingReached(cfg, a);
    Follow(cfg, Removed(a, Reviving(a)), Advance(0, 0.0, 0.0), Adrift(a));
  }

  lemma ReplaysNothing(a: Message)
    ensures ReplayMain([Enqueue(a), DeadLettered(a.id)]).pending == []
  {
    ReplaysOne(a);
    ReplayMainAppend([Enqueue(a)], DeadLettered(a.id));
    assert [Enqueue(a)] + [DeadLettered(a.id)] == [Enqueue(a), DeadLettered(a.id)];
  }

  lemma ReplaysOne(a: Message)
    ensures ReplayMain([Enqueue(a)]) == Replay([Pending(a, 0, None)], RegisterKey(map[], a.key, a.id), map[])
    ensures Position([Pending(a, 0, None)], a.id) == Some(0)
  {
    ReplayMainAppend([], Enqueue(a));
    assert [] + [Enqueue(a)] == [Enqueue(a)];
  }

  /** With the burial still to be written the same crash recovers it. */
  lemma BurialOutstandingSaves(cfg: Config, a: Message)
    requires Retry.IsExhausted(cfg.policy, 1)
    ensures var s := Removed(a, Reviving(a));
      && StepReachable(cfg, s) && Enabled(cfg, s, Crash([]))
      && Apply(cfg, s, Crash([])).mem.pending == [Pending(a, 0, None)] && a.id !in Apply(cfg, s, Crash([])).gapLost
  {
    RevivingReached(cfg, a);
    LettersCancelled(a);
    ReplaysOne(a);
    NoCheckpoints([Pending(a, 0, None)]);
  }

  // ---- A token that comes back --------------------------------------------------------------------

  /** The second process leases `a` under the number the first one used. */
  function LeasedAgain(cfg: Config, a: Message): System {
    Claimed(cfg, a).(past := [[Issued(0, a.id)]])
  }

  /** A restart starts the counter over, so the token a consumer still holds from before it is the
      token of the new lease, and its ack takes effect. */
  lemma TokenComesBack(cfg: Config, a: Message)
    ensures StepReachable(cfg, LeasedAgain(cfg, a))
    ensures Issued(0, a.id) in LeasedAgain(cfg, a).past[0] && Holds(LeasedAgain(cfg, a).mem.leased, a.id, 0)
    ensures Apply(cfg, LeasedAgain(cfg, a), BeginAck(a.id, 0)).tasks == [Acking(a.id)]
  {
    assert PromoteReady(WaitingAgain(a).mem, 0.0) == WaitingAgain(a).mem;
    assert Moves(cfg, WaitingAgain(a), ClaimNext(0.0, 0.0), LeasedAgain(cfg, a));
    WaitingAgainReached(cfg, a);
    Follow(cfg, WaitingAgain(a), ClaimNext(0.0, 0.0), LeasedAgain(cfg, a));
  }

  function WaitingAgain(a: Message): System {
    Waiting(a).(past := [[Issued(0, a.id)]])
  }

  lemma WaitingAgainReached(cfg: Config, a: Message)
    ensures StepReachable(cfg, WaitingAgain(a))
  {
    RestartWaits(cfg, a);
    assert Moves(cfg, Claimed(cfg, a), Crash([]), WaitingAgain(a));
    ClaimedReached(cfg, a);
    Follow(cfg, Claimed(cfg, a), Crash([]), WaitingAgain(a));
  }

  lemma RestartWaits(cfg: Config, a: Message)
    ensures Enabled(cfg, Claimed(cfg, a), Crash([])) && Apply(cfg, Claimed(cfg, a), Crash([])) == WaitingAgain(a)
  {
    ReplaysOne(a);
    NoCheckpoints([Pending(a, 0, None)]);
    var s := Apply(cfg, Claimed(cfg, a), Crash([]));
    assert s.mem == WaitingAgain(a).mem && s.gapLost == {};
  }

  // ---- A lease overwritten by a plain claim -------------------------------------------------------

  /** The restart after a crash in the middle of the burial of `a`: pending and a dead letter at once. */
  function Doubled(a: Message): System {
    HalfBuried(a).(mem := EMPTY_MEMORY.(pending := [Pending(a, 0, None)], dedup := RegisterKey(map[], a.key, a.id),
                                        dlq := map[a.id := Letter(a)]),
                   tasks := [], history := [], past := [HalfBuried(a).history])
  }

  lemma DoubledReached(cfg: Config, a: Message)
    requires Retry.IsExhausted(cfg.policy, 1)
    ensures Reached(cfg, Doubled(a))
  {
    CrashDoubles(cfg, a);
    HalfBuriedReached(cfg, a);
    CleanIsReached(cfg, HalfBuried(a));
    StepReaches(cfg, HalfBuried(a), Crash([a.id]));
  }

  lemma CleanIsReached(cfg: Config, s: System)
    requires StepReachable(cfg, s)
    ensures Reached(cfg, s)
  {
  }

  lemma CrashDoubles(cfg: Config, a: Message)
    ensures Enabled(cfg, HalfBuried(a), Crash([a.id])) && Apply(cfg, HalfBuried(a), Crash([a.id])) == Doubled(a)
  {
    ReplaysOne(a);
    NoCheckpoints([Pending(a, 0, None)]);
    ReplayDlqAppend([], Record(Letter(a)));
    assert [] + [Record(Letter(a))] == [Record(Letter(a))];
    SeedsOne(a);
    var s := Apply(cfg, HalfBuried(a), Crash([a.id]));
    assert s.mem == Doubled(a).mem && s.gapLost == {};
  }

  lemma SeedsOne(a: Message)
    ensures var dedup := RegisterKey(map[], a.key, a.id);
      SeedKeys(dedup, map[a.id := Letter(a)], [a.id]) == dedup
  {
    assert [a.id][..0] == [];
  }

  /** `a` reprocessed, so that it is pending twice. */
  function Twice(a: Message): System {
    Doubled(a).(mem := EMPTY_MEMORY.(pending := [Pending(a, 0, None), Pending(a, 0, None)],
                                     dedup := RegisterKey(map[], a.key, a.id)),
                main := [Enqueue(a), Enqueue(a)], dlqLog := [Record(Letter(a)), Remove(a.id)])
  }

  lemma TwiceReached(cfg: Config, a: Message)
    requires Retry.IsExhausted(cfg.policy, 1)
    ensures Reached(cfg, Twice(a))
  {
    ReprocessDoubles(cfg, a);
    DoubledReached(cfg, a);
    StepReaches(cfg, Doubled(a), BeginTake(a.id, Reprocess));
    DrainReaches(cfg, Apply(cfg, Doubled(a), BeginTake(a.id, Reprocess)), NoClock(), NoDraws());
  }

  lemma ReprocessDoubles(cfg: Config, a: Message)
    ensures Drain(cfg, Apply(cfg, Doubled(a), BeginTake(a.id, Reprocess)), NoClock(), NoDraws()) == Twice(a)
  {
    ReprocessIsSteps(cfg, Doubled(a), a.id);
    ReplaysOne(a);
    assert Doubled(a).mem.dlq - {a.id} == map[];
  }

  /** The first copy is leased. */
  function LeasedOnce(cfg: Config, a: Message): System {
    Twice(a).(mem := Twice(a).mem.(pending := [Pending(a, 0, None)], leased := map[a.id := Lease(cfg, a)],
                                   nextToken := 1),
              history := [Issued(0, a.id)])
  }

  /** A claim leases the second copy under the next token, and the first lease, its expiry still to
      come, is gone: its token holds nothing any more. */
  lemma ClaimOverwritesLease(cfg: Config, a: Message)
    requires Retry.IsExhausted(cfg.policy, 1) && cfg.visibilityTimeout > 0.0
    ensures Reached(cfg, LeasedOnce(cfg, a))
    ensures Holds(LeasedOnce(cfg, a).mem.leased, a.id, 0) && LeasedOnce(cfg, a).mem.leased[a.id].expiresAt > 0.0
    ensures var leased := Apply(cfg, LeasedOnce(cfg, a), ClaimNext(0.0, 0.0)).mem.leased;
      Holds(leased, a.id, 1) && !Holds(leased, a.id, 0)
  {
    LeasesOnce(cfg, a);
    assert PromoteReady(LeasedOnce(cfg, a).mem, 0.0) == LeasedOnce(cfg, a).mem;
    TwiceReached(cfg, a);
    StepReaches(cfg, Twice(a), ClaimNext(0.0, 0.0));
  }

  lemma LeasesOnce(cfg: Config, a: Message)
    ensures Apply(cfg, Twice(a), ClaimNext(0.0, 0.0)) == LeasedOnce(cfg, a)
  {
    assert PromoteReady(Twice(a).mem, 0.0) == Twice(a).mem;
  }

  // ---- Overlapping annotate calls -------------------------------------------------------------------

  /** The dead letter `a`, its burial on record, with a verdict, further records of its log, and calls
      in flight. */
  function Judged(a: Message, triage: Option<TriageVerdict>, records: seq<DlqRecord>, tasks: seq<Task>): System {
    HalfBuried(a).(mem := HalfBuried(a).mem.(dlq := map[a.id := Letter(a).(triage := triage)]),
                   main := [Enqueue(a), DeadLettered(a.id)], dlqLog := [Record(Letter(a))] + records, tasks := tasks)
  }

  lemma BothAnnotating(cfg: Config, a: Message, v: TriageVerdict, w: TriageVerdict)
    requires Retry.IsExhausted(cfg.policy, 1)
    ensures StepReachable(cfg, Judged(a, None, [], [Annotating(a.id, v), Annotating(a.id, w)]))
  {
    var quiet, one := Judged(a, None, [], []), Judged(a, None, [], [Annotating(a.id, v)]);
    var both := Judged(a, None, [], [Annotating(a.id, v), Annotating(a.id, w)]);
    assert [Record(Letter(a))] + [] == [Record(Letter(a))];
    assert Moves(cfg, HalfBuried(a), Advance(0, 0.0, 0.0), quiet);
    assert Moves(cfg, quiet, BeginAnnotate(a.id, v), one);
    assert Moves(cfg, one, BeginAnnotate(a.id, w), both);
    HalfBuriedReached(cfg, a);
    Follow(cfg, HalfBuried(a), Advance(0, 0.0, 0.0), quiet);
    Follow(cfg, quiet, BeginAnnotate(a.id, v), one);
    Follow(cfg, one, BeginAnnotate(a.id, w), both);
  }

  /** Both verdicts written, the first call's first, and neither stored. */
  function Written(a: Message, v: TriageVerdict, w: TriageVerdict): System {
    Judged(a, None, [Annotate(a.id, v), Annotate(a.id, w)], [Annotated(a.id, v), Annotated(a.id, w)])
  }

  lemma WrittenReached(cfg: Config, a: Message, v: TriageVerdict, w: TriageVerdict)
    requires Retry.IsExhausted(cfg.policy, 1)
    ensures StepReachable(cfg, Written(a, v, w))
  {
    var both := Judged(a, None, [], [Annotating(a.id, v), Annotating(a.id, w)]);
    var first := Judged(a, None, [Annotate(a.id, v)], [Annotated(a.id, v), Annotating(a.id, w)]);
    assert Moves(cfg, both, Advance(0, 0.0, 0.0), first);
    assert Moves(cfg, first, Advance(1, 0.0, 0.0), Written(a, v, w));
    BothAnnotating(cfg, a, v, w);
    Follow(cfg, both, Advance(0, 0.0, 0.0), first);
    Follow(cfg, first, Advance(1, 0.0, 0.0), Written(a, v, w));
  }

  /** They are stored the other way round: the first call's verdict is the live one. */
  function Stored(a: Message, v: TriageVerdict, w: TriageVerdict): System {
    Judged(a, Some(v), [Annotate(a.id, v), Annotate(a.id, w)], [])
  }

  lemma StoredReached(cfg: Config, a: Message, v: TriageVerdict, w: TriageVerdict)
    requires Retry.IsExhausted(cfg.policy, 1)
    ensures StepReachable(cfg, Stored(a, v, w))
  {
    var late := Judged(a, Some(w), [Annotate(a.id, v), Annotate(a.id, w)], [Annotated(a.id, v)]);
    assert Moves(cfg, Written(a, v, w), Advance(1, 0.0, 0.0), late);
    assert Moves(cfg, late, Advance(0, 0.0, 0.0), Stored(a, v, w));
    WrittenReached(cfg, a, v, w);
    Follow(cfg, Written(a, v, w), Advance(1, 0.0, 0.0), late);
    Follow(cfg, late, Advance(0, 0.0, 0.0), Stored(a, v, w));
  }

  /** A restart with no call in flight then brings back the other verdict. */
  lemma RestartSwapsVerdict(cfg: Config, a: Message, v: TriageVerdict, w: TriageVerdict)
    requires Retry.IsExhausted(cfg.policy, 1)
    ensures var s := Stored(a, v, w);
      && StepReachable(cfg, s) && s.tasks == [] && s.mem.dlq[a.id].triage == Some(v)
      && Enabled(cfg, s, Crash([a.id]))
      && Apply(cfg, s, Crash([a.id])).mem.dlq == map[a.id := Letter(a).(triage := Some(w))]
  {
    ReplaysLastVerdict(a, v, w);
    StoredReached(cfg, a, v, w);
  }

  lemma ReplaysLastVerdict(a: Message, v: TriageVerdict, w: TriageVerdict)
    ensures ReplayDlq(Stored(a, v, w).dlqLog) == map[a.id := Letter(a).(triage := Some(w))]
  {
    var x, y, z := Record(Letter(a)), Annotate(a.id, v), Annotate(a.id, w);
    ReplayDlqAppend([], x);
    ReplayDlqAppend([x], y);
    ReplayDlqAppend([x, y], z);
    assert [] + [x] == [x] && [x] + [y] == [x, y] && [x, y] + [z] == [x, y, z] == Stored(a, v, w).dlqLog;
  }

  // ---- A checkpoint written after its lease has ended ------------------------------------------------

  /** `a` is nacked with a checkpoint call in flight, and waits out its backoff. */
  function Outrun(cfg: Config, a: Message, records: seq<MainRecord>, tasks: seq<Task>): System {
    Waiting(a).(mem := Reserved(a).mem.(delayed := [Delayed(a, 1, 0.0 + Retry.DelayFor(cfg.policy, 1, 0.0), None)],
                                        nextToken := 1),
                main := [Enqueue(a)] + records, tasks := tasks,
                history := [Issued(0, a.id), Resolved(0, a.id, ByNack)])
  }

  lemma OutrunReached(cfg: Config, a: Message, state: Value)
    requires !Retry.IsExhausted(cfg.policy, 1)
    ensures StepReachable(cfg, Outrun(cfg, a, [], [Checkpointing(a.id, 0, state)]))
  {
    var begun := Claimed(cfg, a).(tasks := [Checkpointing(a.id, 0, state)]);
    var failing := Nacked(a).(tasks := [Checkpointing(a.id, 0, state), Failing(Failed(a, 1, None, None))]);
    var outrun := Outrun(cfg, a, [], [Checkpointing(a.id, 0, state)]);
    assert Moves(cfg, Claimed(cfg, a), BeginCheckpoint(a.id, 0, state), begun);
    assert Apply(cfg, begun, BeginNack(a.id, 0, None)).mem.leased == map[];
    assert Moves(cfg, begun, BeginNack(a.id, 0, None), failing);
    assert [Enqueue(a)] + [] == [Enqueue(a)];
    assert Moves(cfg, failing, Advance(1, 0.0, 0.0), outrun);
    ClaimedReached(cfg, a);
    Follow(cfg, Claimed(cfg, a), BeginCheckpoint(a.id, 0, state), begun);
    Follow(cfg, begun, BeginNack(a.id, 0, None), failing);
    Follow(cfg, failing, Advance(1, 0.0, 0.0), outrun);
  }

  lemma LateReached(cfg: Config, a: Message, state: Value)
    requires !Retry.IsExhausted(cfg.policy, 1)
    ensures StepReachable(cfg, Outrun(cfg, a, [Checkpoint(a.id, state)], []))
  {
    var outrun := Outrun(cfg, a, [], [Checkpointing(a.id, 0, state)]);
    var written := Outrun(cfg, a, [Checkpoint(a.id, state)], [Checkpointed(a.id, 0, state)]);
    var late := Outrun(cfg, a, [Checkpoint(a.id, state)], []);
    assert Moves(cfg, outrun, Advance(0, 0.0, 0.0), written);
    assert Moves(cfg, written, Advance(0, 0.0, 0.0), late);
    OutrunReached(cfg, a, state);
    Follow(cfg, outrun, Advance(0, 0.0, 0.0), written);
    Follow(cfg, written, Advance(0, 0.0, 0.0), late);
  }

  /** The message has no checkpoint in memory and, with no call in flight, a restart brings back the one
      that came too late. */
  lemma RestartFindsLateCheckpoint(cfg: Config, a: Message, state: Value)
    requires !Retry.IsExhausted(cfg.policy, 1)
    ensures var s := Outrun(cfg, a, [Checkpoint(a.id, state)], []);
      && StepReachable(cfg, s) && s.tasks == [] && LiveCheckpoint(s.mem, a.id, None)
      && Enabled(cfg, s, Crash([])) && Apply(cfg, s, Crash([])).mem.pending == [Pending(a, 0, Some(state))]
  {
    var s := Outrun(cfg, a, [Checkpoint(a.id, state)], []);
    LateReached(cfg, a, state);
    assert s.mem.delayed[0].msg.id == a.id;
    ReplaysLate(a, state);
  }

  lemma ReplaysLate(a: Message, state: Value)
    ensures var r := ReplayMain([Enqueue(a)] + [Checkpoint(a.id, state)]);
      ApplyCheckpoints(r.pending, r.checkpoints) == [Pending(a, 0, Some(state))]
  {
    ReplaysOne(a);
    ReplayMainAppend([Enqueue(a)], Checkpoint(a.id, state));
    ApplyCheckpointsKeepsMessages([Pending(a, 0, None)], map[a.id := state]);
    ApplyCheckpointsHandsOut([Pending(a, 0, None)], map[a.id := state], 0);
  }
}
