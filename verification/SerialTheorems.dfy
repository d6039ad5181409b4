/** What a restart between calls brings back, for every run of completed calls and restarts:
    the dead letters with their verdicts, the key registry plus the keys of purged messages,
    and every checkpoint but those a reprocess left behind. */
module SerialTheorems {
  import opened Wrappers
  import opened Counting
  import opened Messages
  import opened Steps
  import opened Census
  import opened Partition
  import opened Provenance
  import opened Recovery
  import opened Keys
  import opened Registry
  import opened Serial
  import opened SerialRuns
  import Retry

  /** `s` is where some run of completed calls and restarts leaves the group. */
  ghost predicate Reachable(cfg: Config, s: System) {
    exists ops :: ValidCalls(cfg, ops) && AfterCalls(cfg, ops) == s
  }

  lemma ReachableIsSound(cfg: Config, s: System)
    requires Reachable(cfg, s)
    ensures Sound(s) && s.tasks == []
  {
    var ops :| ValidCalls(cfg, ops) && AfterCalls(cfg, ops) == s;
    CallsKeepSound(cfg, ops);
  }

  /** The group opened again on the logs of `s`. */
  ghost function Restarted(cfg: Config, s: System, order: seq<MessageId>): System
    requires Enabled(cfg, s, Crash(order))
  {
    Apply(cfg, s, Crash(order))
  }

  // ---- Dead letters and messages --------------------------------------------------------------

  /** A restart gives back the dead-letter map as it was, triage verdicts included, and every live
      message once, with the same id, key and item, as pending and undelivered. */
  lemma RestartRecoversAll(cfg: Config, s: System, order: seq<MessageId>)
    requires Reachable(cfg, s) && Enabled(cfg, s, Crash(order))
    ensures Restarted(cfg, s, order).mem.dlq == s.mem.dlq
    ensures ListsLiveMessages(Restarted(cfg, s, order).mem.pending, s.mem)
  {
    ReachableIsSound(cfg, s);
    RestartListsLive(cfg, s, order);
  }

  // ---- Idempotency keys ---------------------------------------------------------------------------

  /** Whether the message that enqueued `key` last has been purged. */
  ghost predicate PurgedHolder(s: System, key: IdempotencyKey) {
    LatestHolder(s.main, key).Some? && LatestHolder(s.main, key).value in s.purged
  }

  /** The recovered registry, key by key: the live one, plus the keys of purged holders. */
  lemma RestartRecoversKeys(cfg: Config, s: System, order: seq<MessageId>, key: IdempotencyKey)
    requires Reachable(cfg, s) && Enabled(cfg, s, Crash(order))
    ensures var back := Restarted(cfg, s, order).mem.dedup;
      && (key in back <==> key in s.mem.dedup || PurgedHolder(s, key))
      && (key in back ==> LatestHolder(s.main, key) == Some(back[key]))
      && (key in s.mem.dedup ==> key in back && back[key] == s.mem.dedup[key])
  {
    assert RegistrySound(s) && MemoryRegistered(s.mem.dedup, s.mem) && s.mem.dlq == ReplayDlq(s.dlqLog) by {
      ReachableIsSound(cfg, s);
    }
    RecoveredRegistry(s, order);
    assert KeyAccounted(s.main, s.mem.dedup, s.purged, key);
  }

  /** The registry survives a restart unchanged exactly when no purged message was the last to
      enqueue a key that is now free. */
  lemma RegistrySurvivesUnlessPurged(cfg: Config, s: System, order: seq<MessageId>)
    requires Reachable(cfg, s) && Enabled(cfg, s, Crash(order))
    ensures Restarted(cfg, s, order).mem.dedup == s.mem.dedup
      <==> forall key :: PurgedHolder(s, key) ==> key in s.mem.dedup
  {
    var back := Restarted(cfg, s, order).mem.dedup;
    forall key
      ensures key in back <==> key in s.mem.dedup || PurgedHolder(s, key)
      ensures key in s.mem.dedup ==> key in back && back[key] == s.mem.dedup[key]
    {
      RestartRecoversKeys(cfg, s, order, key);
    }
    if forall key :: PurgedHolder(s, key) ==> key in s.mem.dedup {
      assert back.Keys == s.mem.dedup.Keys;
    }
  }

  /** A completed call leads from a reachable group to a reachable group. */
  lemma CallKeepsReachable(cfg: Config, s: System, op: Op)
    requires Reachable(cfg, s) && s.tasks == [] && Enabled(cfg, s, FirstStep(op))
    ensures Reachable(cfg, Perform(cfg, s, op))
  {
    var ops :| ValidCalls(cfg, ops) && AfterCalls(cfg, ops) == s;
    var more := ops + [op];
    assert more[..|more| - 1] == ops;
    assert ValidCalls(cfg, more) && AfterCalls(cfg, more) == Perform(cfg, s, op);
  }

  /** So does a restart. */
  lemma RestartKeepsReachable(cfg: Config, s: System, order: seq<MessageId>)
    requires Reachable(cfg, s) && Enabled(cfg, s, Crash(order))
    ensures Reachable(cfg, Apply(cfg, s, Crash(order)))
  {
    ReachableIsSound(cfg, s);
    CallKeepsReachable(cfg, s, DoRestart(order));
  }

  lemma DeadLetterHoldsKey(cfg: Config, s: System, id: MessageId)
    requires Reachable(cfg, s) && id in s.mem.dlq && s.mem.dlq[id].msg.key.Some?
    ensures s.tasks == [] && s.mem.dlq[id].msg.id == id
    ensures LatestHolder(s.main, s.mem.dlq[id].msg.key.value) == Some(id)
  {
    ReachableIsSound(cfg, s);
    assert KeyAccounted(s.main, s.mem.dedup, s.purged, s.mem.dlq[id].msg.key.value);
  }

  /** Purging a keyed dead letter frees its key until the next restart and no longer: the restart
      registers the key to the purged id again, so an enqueue under it creates nothing. */
  lemma PurgedKeyComesBack(cfg: Config, s: System, id: MessageId, order: seq<MessageId>, retry: Message)
    requires Reachable(cfg, s) && id in s.mem.dlq && s.mem.dlq[id].msg.key.Some?
    requires Enabled(cfg, PurgeCall(s, id), Crash(order))
    requires retry.key == s.mem.dlq[id].msg.key
    ensures s.tasks == [] && Perform(cfg, s, DoTake(id, Purge)) == PurgeCall(s, id)
    ensures !Deduplicated(PurgeCall(s, id).mem, retry)
    ensures var back := Restarted(cfg, PurgeCall(s, id), order).mem;
      Deduplicated(back, retry) && back.dedup[retry.key.value] == id
  {
    var key := retry.key.value;
    var purged := PurgeCall(s, id);
    DeadLetterHoldsKey(cfg, s, id);
    PurgeIsSteps(cfg, s, id);
    CallKeepsReachable(cfg, s, DoTake(id, Purge));
    RestartRecoversKeys(cfg, purged, order, key);
    assert PurgedHolder(purged, key);
  }

  /** Key uniqueness survives every restart of a serial run. */
  lemma KeysStayUnique(cfg: Config, s: System, p: Location, q: Location, key: IdempotencyKey)
    requires Reachable(cfg, s) && HoldsKey(s, p, key) && HoldsKey(s, q, key)
    ensures p == q
  {
    assert key in s.mem.dedup && At(s, p, s.mem.dedup[key]) && At(s, q, s.mem.dedup[key]) by {
      ReachableIsSound(cfg, s);
    }
    var id := s.mem.dedup[key];
    assert InPlace(s, id) by { ReachableIsSound(cfg, s); }
    if p != q { TwoLocationsCount(s, p, q, id); }
  }

  // ---- Checkpoints ------------------------------------------------------------------------------------

  /** A live entry for `id` holding `checkpoint`. */
  ghost predicate LiveCheckpoint(mem: Memory, id: MessageId, checkpoint: Option<Value>) {
    || (exists i :: 0 <= i < |mem.pending| && mem.pending[i].msg.id == id && mem.pending[i].checkpoint == checkpoint)
    || (id in mem.leased && mem.leased[id].checkpoint == checkpoint)
    || (exists i :: 0 <= i < |mem.delayed| && mem.delayed[i].msg.id == id && mem.delayed[i].checkpoint == checkpoint)
  }

  /** A live entry's checkpoint is the one the invariant describes. */
  lemma LiveCheckpointHeld(s: System, id: MessageId, checkpoint: Option<Value>)
    requires CheckpointsSound(s) && WellKeyed(s.mem) && LiveCheckpoint(s.mem, id, checkpoint)
    ensures CheckpointHeld(ReplayMain(s.main).checkpoints, s.stale, id, checkpoint)
  {
  }

  /** A restart recovers a live message's checkpoint exactly when the message was not re-enqueued
      out of the dead-letter queue after its last checkpoint. */
  lemma RestartRecoversCheckpoint(cfg: Config, s: System, order: seq<MessageId>, id: MessageId,
                                  live: Option<Value>, recovered: Option<Value>)
    requires Reachable(cfg, s) && Enabled(cfg, s, Crash(order))
    requires LiveCheckpoint(s.mem, id, live) && LiveCheckpoint(Restarted(cfg, s, order).mem, id, recovered)
    ensures recovered == live <==> id !in s.stale
  {
    var s' := Restarted(cfg, s, order);
    assert CheckpointsSound(s) && WellKeyed(s.mem) && CheckpointsSound(s') && WellKeyed(s'.mem) by {
      ReachableIsSound(cfg, s);
      RestartKeepsSound(cfg, s, order);
      TraceableIsWellKeyed(s);
      TraceableIsWellKeyed(s');
    }
    LiveCheckpointHeld(s, id, live);
    LiveCheckpointHeld(s', id, recovered);
  }

  lemma {:induction false} DrainKeepsStale(cfg: Config, s: System, now: MessageId -> Instant, draws: MessageId -> real)
    requires Settled(s)
    ensures Drain(cfg, s, now, draws).stale == s.stale
    decreases |s.tasks|
  {
    if |s.tasks| > 0 {
      ResolveFirstIsHeads(cfg, s, now, draws);
      DrainKeepsStale(cfg, ResolveFirst(cfg, s, now, draws), now, draws);
    }
  }

  lemma PerformStale(cfg: Config, s: System, op: Op, id: MessageId)
    requires s.tasks == [] && Enabled(cfg, s, FirstStep(op)) && Sound(s)
    requires op != DoTake(id, Reprocess) && id !in s.stale
    ensures id !in Perform(cfg, s, op).stale
  {
    match op
    case DoEnqueue(msg) => EnqueueIsSteps(cfg, s, msg);
    case DoAck(other, token) => AckIsSteps(cfg, s, other, token);
    case DoCheckpoint(other, token, state) => CheckpointIsSteps(cfg, s, other, token, state);
    case DoTake(other, Purge) => PurgeIsSteps(cfg, s, other);
    case DoTake(other, Reprocess) => ReprocessIsSteps(cfg, s, other);
    case DoAnnotate(other, verdict) => AnnotateIsSteps(cfg, s, other, verdict);
    case _ => DrainedStale(cfg, s, op, id);
  }

  lemma DrainedStale(cfg: Config, s: System, op: Op, id: MessageId)
    requires s.tasks == [] && Enabled(cfg, s, FirstStep(op)) && id !in s.stale
    requires op.DoClaim? || op.DoNack? || op.DoPublish? || op.DoRestart?
    ensures id !in Perform(cfg, s, op).stale
  {
    var s1 := Apply(cfg, s, FirstStep(op));
    match op
    case DoClaim(_, _, resolveAt, draws, _, _) => DrainKeepsStale(cfg, s1, resolveAt, draws);
    case DoNack(_, _, _, now, draws) => DrainKeepsStale(cfg, s1, now, draws);
    case DoPublish(_, _, _, _) => DrainKeepsStale(cfg, s1, NoClock(), NoDraws());
    case DoRestart(_) =>
  }

  /** A message that was never reprocessed always recovers its checkpoint, through any nacks,
      expiries and restarts. */
  lemma {:induction false} NeverReprocessedNeverStale(cfg: Config, ops: seq<Op>, id: MessageId)
    requires ValidCalls(cfg, ops)
    requires forall i :: 0 <= i < |ops| ==> ops[i] != DoTake(id, Reprocess)
    ensures id !in AfterCalls(cfg, ops).stale
    decreases |ops|
  {
    if |ops| > 0 {
      var front := ops[..|ops| - 1];
      NeverReprocessedNeverStale(cfg, front, id);
      CallsKeepSound(cfg, front);
      PerformStale(cfg, AfterCalls(cfg, front), ops[|ops| - 1], id);
    }
  }

  // ---- Calls are steps ---------------------------------------------------------------------------------

  /** `s` is where some clean run of single steps leaves the group. */
  ghost predicate StepReachable(cfg: Config, s: System) {
    exists steps :: ValidRun(cfg, INITIAL, steps) && Clean(cfg, steps) && Run(cfg, INITIAL, steps) == s
  }

  lemma StepKeepsReachable(cfg: Config, s: System, step: Step)
    requires StepReachable(cfg, s) && Enabled(cfg, s, step) && !step.AppendFails? && (step.Crash? ==> s.tasks == [])
    ensures StepReachable(cfg, Apply(cfg, s, step))
  {
    var steps :| ValidRun(cfg, INITIAL, steps) && Clean(cfg, steps) && Run(cfg, INITIAL, steps) == s;
    var more := steps + [step];
    assert more[..|more| - 1] == steps;
    assert ValidRun(cfg, INITIAL, more) && Clean(cfg, more) && Run(cfg, INITIAL, more) == Apply(cfg, s, step);
  }

  lemma HeadKeepsReachable(cfg: Config, s: System, now: MessageId -> Instant, draws: MessageId -> real)
    requires |s.tasks| > 0 && StepReachable(cfg, s)
    ensures StepReachable(cfg, Head(cfg, s, now, draws))
  {
    var task := s.tasks[0];
    StepKeepsReachable(cfg, s, Advance(0, Reading(task, now), Reading(task, draws)));
  }

  lemma {:induction false} DrainKeepsReachable(
    cfg: Config, s: System, now: MessageId -> Instant, draws: MessageId -> real)
    requires StepReachable(cfg, s)
    ensures StepReachable(cfg, Drain(cfg, s, now, draws))
    decreases |s.tasks|, if |s.tasks| > 0 then Rank(s.tasks[0]) else 0
  {
    if |s.tasks| > 0 {
      HeadKeepsReachable(cfg, s, now, draws);
      HeadRanksLower(cfg, s, now, draws);
      DrainKeepsReachable(cfg, Head(cfg, s, now, draws), now, draws);
    }
  }

  lemma PerformIsSteps(cfg: Config, s: System, op: Op)
    requires s.tasks == [] && StepReachable(cfg, s) && Enabled(cfg, s, FirstStep(op))
    ensures StepReachable(cfg, Perform(cfg, s, op))
  {
    var s1 := Apply(cfg, s, FirstStep(op));
    StepKeepsReachable(cfg, s, FirstStep(op));
    match op
    case DoClaim(_, _, resolveAt, draws, promoteAt, leaseAt) =>
      DrainKeepsReachable(cfg, s1, resolveAt, draws);
      StepKeepsReachable(cfg, Drain(cfg, s1, resolveAt, draws), ClaimNext(promoteAt, leaseAt));
    case DoNack(_, _, _, now, draws) => DrainKeepsReachable(cfg, s1, now, draws);
    case _ => DrainKeepsReachable(cfg, s1, NoClock(), NoDraws());
  }

  /** Every run of completed calls is a clean run of steps, so whatever holds of all step runs
      holds of all call runs. */
  lemma {:induction false} CallsAreSteps(cfg: Config, ops: seq<Op>)
    requires ValidCalls(cfg, ops)
    ensures StepReachable(cfg, AfterCalls(cfg, ops))
    decreases |ops|
  {
    if |ops| == 0 {
      assert ValidRun(cfg, INITIAL, []) && Clean(cfg, []) && Run(cfg, INITIAL, []) == INITIAL;
    } else {
      CallsAreSteps(cfg, ops[..|ops| - 1]);
      PerformIsSteps(cfg, AfterCalls(cfg, ops[..|ops| - 1]), ops[|ops| - 1]);
    }
  }

  // ---- The two places where naive recovery fails, reached -----------------------------------------------

  const ONE_ATTEMPT := Config(30.0, Retry.RetryPolicy(0.0, 0.0, 1.0, 0.0, Some(1)))

  function ClaimCall(cfg: Config, s: System): System
    requires |s.mem.pending| > 0
  {
    s.(mem := LeaseFront(cfg, s.mem, 0.0), history := s.history + [Issued(s.mem.nextToken, s.mem.pending[0].msg.id)])
  }

  function Letter(msg: Message, state: Option<Value>): DeadLetter {
    DeadLetter(msg, 1, None, 0.0, state, None)
  }

  function BuryCall(s: System, msg: Message, state: Option<Value>): System {
    s.(mem := s.mem.(leased := map[], dlq := map[msg.id := Letter(msg, state)]),
       main := s.main + [DeadLettered(msg.id)],
       dlqLog := s.dlqLog + [Record(Letter(msg, state))],
       history := s.history + [Resolved(0, msg.id, ByNack)])
  }

  /** One message: enqueued, claimed, perhaps checkpointed, and nacked past its only attempt. */
  function Buried(msg: Message, state: Option<Value>): System {
    BuryCall(LeasedWith(msg, state), msg, state)
  }

  lemma ClaimCallIsSteps(cfg: Config, s: System)
    requires Reachable(cfg, s) && s.tasks == [] && s.mem.leased == map[] && s.mem.delayed == [] && |s.mem.pending| > 0
    ensures Reachable(cfg, ClaimCall(cfg, s))
  {
    ClaimCallIs(cfg, s);
    CallKeepsReachable(cfg, s, DoClaim(0.0, [], NoClock(), NoDraws(), 0.0, 0.0));
  }

  lemma ClaimCallIs(cfg: Config, s: System)
    requires s.tasks == [] && s.mem.leased == map[] && s.mem.delayed == [] && |s.mem.pending| > 0
    ensures Enabled(cfg, s, Reclaim(0.0, []))
    ensures Perform(cfg, s, DoClaim(0.0, [], NoClock(), NoDraws(), 0.0, 0.0)) == ClaimCall(cfg, s)
  {
    assert Apply(cfg, s, Reclaim(0.0, [])) == s;
    assert PromoteReady(s.mem, 0.0) == s.mem;
  }

  lemma BuryCallIsSteps(cfg: Config, s: System, msg: Message, state: Option<Value>)
    requires cfg == ONE_ATTEMPT && Reachable(cfg, s) && s.tasks == [] && s.mem.dlq == map[]
    requires s.mem.leased == map[msg.id := Leased(msg, 0, 30.0, 1, state, [])]
    ensures Reachable(cfg, BuryCall(s, msg, state))
  {
    var s1 := Apply(cfg, s, BeginNack(msg.id, 0, None));
    CallKeepsReachable(cfg, s, DoNack(msg.id, 0, None, NoClock(), NoDraws()));
    ResolveFirstIsHeads(cfg, s1, NoClock(), NoDraws());
    var s2 := ResolveFirst(cfg, s1, NoClock(), NoDraws());
    assert s2.tasks == [] && s2.mem.leased == map[];
    assert Drain(cfg, s2, NoClock(), NoDraws()) == s2;
  }

  lemma ClaimedIsReachable(msg: Message)
    ensures Reachable(ONE_ATTEMPT, ClaimCall(ONE_ATTEMPT, EnqueueCall(INITIAL, msg)))
  {
    assert ValidCalls(ONE_ATTEMPT, []) && AfterCalls(ONE_ATTEMPT, []) == INITIAL;
    EnqueueIsSteps(ONE_ATTEMPT, INITIAL, msg);
    CallKeepsReachable(ONE_ATTEMPT, INITIAL, DoEnqueue(msg));
    ClaimCallIsSteps(ONE_ATTEMPT, EnqueueCall(INITIAL, msg));
  }

  lemma CheckpointKeepsReachable(cfg: Config, s: System, id: MessageId, token: LeaseToken, state: Value)
    requires Reachable(cfg, s) && s.tasks == []
    ensures Reachable(cfg, CheckpointCall(s, id, token, state))
  {
    CheckpointIsSteps(cfg, s, id, token, state);
    CallKeepsReachable(cfg, s, DoCheckpoint(id, token, state));
  }

  lemma BuriedIsReachable(msg: Message, state: Option<Value>)
    ensures Reachable(ONE_ATTEMPT, Buried(msg, state))
  {
    LeasedIs(msg, state);
    LeasedIsReachable(msg, state);
    BuryCallIsSteps(ONE_ATTEMPT, LeasedWith(msg, state), msg, state);
  }

  /** The message claimed, and perhaps checkpointed. */
  function LeasedWith(msg: Message, state: Option<Value>): System {
    var claimed := ClaimCall(ONE_ATTEMPT, EnqueueCall(INITIAL, msg));
    if state.Some? then CheckpointCall(claimed, msg.id, 0, state.value) else claimed
  }

  lemma LeasedIs(msg: Message, state: Option<Value>)
    ensures var s := LeasedWith(msg, state);
      && s.tasks == [] && s.mem.dlq == map[] && s.mem.leased == map[msg.id := Leased(msg, 0, 30.0, 1, state, [])]
  {
  }

  lemma LeasedIsReachable(msg: Message, state: Option<Value>)
    ensures Reachable(ONE_ATTEMPT, LeasedWith(msg, state))
  {
    var claimed := ClaimCall(ONE_ATTEMPT, EnqueueCall(INITIAL, msg));
    assert claimed.tasks == [];
    ClaimedIsReachable(msg);
    if state.Some? { CheckpointKeepsReachable(ONE_ATTEMPT, claimed, msg.id, 0, state.value); }
  }

  lemma PurgedLogIsEmpty(msg: Message)
    ensures ReplayDlq(PurgeCall(Buried(msg, None), msg.id).dlqLog) == map[]
  {
    var letter := Letter(msg, None);
    assert PurgeCall(Buried(msg, None), msg.id).dlqLog == [Record(letter), Remove(msg.id)];
    LettersCancel(letter, msg.id);
  }

  lemma PurgeThenRestartDiffers(cfg: Config, s: System, id: MessageId, order: seq<MessageId>)
    requires Reachable(cfg, s) && id in s.mem.dlq && s.mem.dlq[id].msg.key.Some?
    requires Enabled(cfg, PurgeCall(s, id), Crash(order))
    ensures Reachable(cfg, PurgeCall(s, id))
    ensures Restarted(cfg, PurgeCall(s, id), order).mem.dedup != PurgeCall(s, id).mem.dedup
  {
    var purged, key := PurgeCall(s, id), s.mem.dlq[id].msg.key.value;
    assert s.tasks == [] && key !in purged.mem.dedup && key in Restarted(cfg, purged, order).mem.dedup by {
      PurgedKeyComesBack(cfg, s, id, order, s.mem.dlq[id].msg);
    }
    PurgeKeepsReachable(cfg, s, id);
  }

  lemma PurgeKeepsReachable(cfg: Config, s: System, id: MessageId)
    requires Reachable(cfg, s) && s.tasks == []
    ensures Reachable(cfg, PurgeCall(s, id))
  {
    assert Perform(cfg, s, DoTake(id, Purge)) == PurgeCall(s, id) by { PurgeIsSteps(cfg, s, id); }
    CallKeepsReachable(cfg, s, DoTake(id, Purge));
  }

  lemma BuriedLetter(msg: Message)
    ensures Buried(msg, None).mem.dlq == map[msg.id := Letter(msg, None)]
  {
  }

  /** The recovered registry is not the live one: a purged key, free before the restart, is taken
      after it. */
  lemma RecoveredRegistryCanDiffer(msg: Message)
    requires msg.key.Some?
    ensures var s := PurgeCall(Buried(msg, None), msg.id);
      && Reachable(ONE_ATTEMPT, s) && Enabled(ONE_ATTEMPT, s, Crash([]))
      && Restarted(ONE_ATTEMPT, s, []).mem.dedup != s.mem.dedup
  {
    var b := Buried(msg, None);
    BuriedIsReachable(msg, None);
    BuriedLetter(msg);
    PurgedLogIsEmpty(msg);
    PurgeThenRestartDiffers(ONE_ATTEMPT, b, msg.id, []);
  }

  lemma ReprocessLeavesStale(s: System, id: MessageId)
    requires id in s.mem.dlq && s.mem.dlq[id].msg.id == id && id in ReplayMain(s.main).checkpoints
    ensures id in ReprocessCall(s, id).stale && LiveCheckpoint(ReprocessCall(s, id).mem, id, None)
  {
    var pending := ReprocessCall(s, id).mem.pending;
    assert pending[|pending| - 1] == Pending(s.mem.dlq[id].msg, 0, None);
  }

  lemma CheckpointOutlivesBurial(log: seq<MainRecord>, id: MessageId, state: Value)
    ensures id in ReplayMain(log + [Checkpoint(id, state), DeadLettered(id)]).checkpoints
  {
    ReplayMainAppend(log, Checkpoint(id, state));
    ReplayMainAppend(log + [Checkpoint(id, state)], DeadLettered(id));
    assert log + [Checkpoint(id, state), DeadLettered(id)] == log + [Checkpoint(id, state)] + [DeadLettered(id)];
  }

  lemma BuriedKeepsCheckpoint(msg: Message, state: Value)
    ensures msg.id in ReplayMain(Buried(msg, Some(state)).main).checkpoints
  {
    assert Buried(msg, Some(state)).main == [Enqueue(msg), Checkpoint(msg.id, state), DeadLettered(msg.id)];
    CheckpointOutlivesBurial([Enqueue(msg)], msg.id, state);
  }

  /** The logs of a message checkpointed, dead-lettered and reprocessed replay to it with its old
      checkpoint. */
  lemma ReplayReprocessed(msg: Message, state: Value)
    ensures var r := ReplayMain([Enqueue(msg), Checkpoint(msg.id, state), DeadLettered(msg.id), Enqueue(msg)]);
      r.pending == [Pending(msg, 0, None)] && r.checkpoints == map[msg.id := state]
  {
    var a, b, c := Enqueue(msg), Checkpoint(msg.id, state), DeadLettered(msg.id);
    ReplayMainAppend([], a);
    ReplayMainAppend([a], b);
    ReplayMainAppend([a, b], c);
    ReplayMainAppend([a, b, c], a);
    assert [] + [a] == [a] && [a] + [b] == [a, b] && [a, b] + [c] == [a, b, c] && [a, b, c] + [a] == [a, b, c, a];
  }

  lemma ReprocessedResumes(msg: Message, state: Value)
    ensures var s := ReprocessCall(Buried(msg, Some(state)), msg.id);
      && ReplayDlq(s.dlqLog) == map[]
      && Recover(s.main, s.dlqLog, []).pending == [Pending(msg, 0, Some(state))]
  {
    var s := ReprocessCall(Buried(msg, Some(state)), msg.id);
    var record := Record(Letter(msg, Some(state)));
    assert s.main == [Enqueue(msg), Checkpoint(msg.id, state), DeadLettered(msg.id), Enqueue(msg)];
    assert s.dlqLog == [record, Remove(msg.id)];
    ReplayReprocessed(msg, state);
    LettersCancel(record.letter, msg.id);
    ApplyCheckpointsHandsOut([Pending(msg, 0, None)], map[msg.id := state], 0);
    ApplyCheckpointsKeepsMessages([Pending(msg, 0, None)], map[msg.id := state]);
  }

  lemma LettersCancel(letter: DeadLetter, id: MessageId)
    requires letter.msg.id == id
    ensures ReplayDlq([Record(letter), Remove(id)]) == map[]
  {
    ReplayDlqAppend([], Record(letter));
    ReplayDlqAppend([Record(letter)], Remove(id));
    assert [] + [Record(letter)] == [Record(letter)];
    assert [Record(letter)] + [Remove(id)] == [Record(letter), Remove(id)];
  }

  lemma ReprocessedIsStale(msg: Message, state: Value)
    ensures var s := ReprocessCall(Buried(msg, Some(state)), msg.id);
      Reachable(ONE_ATTEMPT, s) && msg.id in s.stale && LiveCheckpoint(s.mem, msg.id, None)
  {
    var b := Buried(msg, Some(state));
    BuriedIsReachable(msg, Some(state));
    ReprocessIsSteps(ONE_ATTEMPT, b, msg.id);
    CallKeepsReachable(ONE_ATTEMPT, b, DoTake(msg.id, Reprocess));
    BuriedKeepsCheckpoint(msg, state);
    ReprocessLeavesStale(b, msg.id);
  }

  /** A restart with an empty dead-letter log. */
  lemma RestartWithoutLetters(cfg: Config, s: System)
    requires ReplayDlq(s.dlqLog) == map[]
    ensures Enabled(cfg, s, Crash([])) && Restarted(cfg, s, []).mem == Recover(s.main, s.dlqLog, [])
  {
  }

  /** Nor is a recovered checkpoint always the live one: a reprocessed message starts over in memory
      and resumes from its old checkpoint after a restart. */
  lemma RecoveredCheckpointCanDiffer(msg: Message, state: Value)
    ensures exists s ::
      && Reachable(ONE_ATTEMPT, s) && LiveCheckpoint(s.mem, msg.id, None) && Enabled(ONE_ATTEMPT, s, Crash([]))
      && Restarted(ONE_ATTEMPT, s, []).mem.pending == [Pending(msg, 0, Some(state))]
  {
    var s := ReprocessCall(Buried(msg, Some(state)), msg.id);
    ReprocessedIsStale(msg, state);
    ReprocessedResumes(msg, state);
    RestartWithoutLetters(ONE_ATTEMPT, s);
  }
}
