/** Runs of completed calls with restarts between them: what a restart recovers of the key
    registry, the dead letters and the checkpoints, exactly. */
module SerialRuns {
  import opened Wrappers
  import opened Counting
  import opened Messages
  import opened Steps
  import opened Census
  import opened Durability
  import opened Partition
  import opened Provenance
  import opened Recovery
  import opened Keys
  import opened Registry
  import opened Serial
  import Retry

  // ---- Checkpoints -----------------------------------------------------------------------

  /** A held checkpoint is the last one written for the id, except for an id re-enqueued
      without it: that one holds none although the log has one. */
  ghost predicate CheckpointHeld(
    written: map<MessageId, Value>, stale: set<MessageId>, id: MessageId, checkpoint: Option<Value>)
  {
    if id in stale then checkpoint.None? && id in written
    else checkpoint == if id in written then Some(written[id]) else None
  }

  ghost predicate CheckpointsHeld(
    mem: Memory, tasks: seq<Task>, written: map<MessageId, Value>, stale: set<MessageId>) {
    && (forall i :: 0 <= i < |mem.pending| ==>
          CheckpointHeld(written, stale, mem.pending[i].msg.id, mem.pending[i].checkpoint))
    && (forall id :: id in mem.leased ==>
          CheckpointHeld(written, stale, mem.leased[id].msg.id, mem.leased[id].checkpoint))
    && (forall i :: 0 <= i < |mem.delayed| ==>
          CheckpointHeld(written, stale, mem.delayed[i].msg.id, mem.delayed[i].checkpoint))
    && (forall t :: 0 <= t < |tasks| && tasks[t].Failing? ==>
          CheckpointHeld(written, stale, tasks[t].failed.msg.id, tasks[t].failed.checkpoint))
  }

  ghost predicate CheckpointsSound(s: System) {
    var written := ReplayMain(s.main).checkpoints;
    && s.stale <= written.Keys <= s.created.Keys
    && CheckpointsHeld(s.mem, s.tasks, written, s.stale)
  }

  // ---- The invariant of serial runs ---------------------------------------------------------

  /** Nothing is in flight but failed deliveries waiting their turn. */
  ghost predicate Settled(s: System) {
    forall t :: 0 <= t < |s.tasks| ==> s.tasks[t].Failing?
  }

  ghost predicate RegistrySound(s: System) {
    forall key :: KeyAccounted(s.main, s.mem.dedup, s.purged, key)
  }

  /** What serial runs keep beyond what every step keeps. */
  ghost predicate Tidy(s: System) {
    && Settled(s)
    && s.purged <= s.gone
    && s.mem.dlq == ReplayDlq(s.dlqLog)
    && RegistrySound(s)
    && CheckpointsSound(s)
  }

  ghost predicate Sound(s: System) {
    Base(s) && Tidy(s)
  }

  // ---- Steps that leave nothing but failed deliveries in flight -------------------------------

  lemma {:induction false} ReadyHeld(
    delayed: seq<Delayed>, now: Instant, written: map<MessageId, Value>, stale: set<MessageId>)
    requires forall i :: 0 <= i < |delayed| ==> CheckpointHeld(written, stale, delayed[i].msg.id, delayed[i].checkpoint)
    ensures forall i :: 0 <= i < |Ready(delayed, now)| ==>
      CheckpointHeld(written, stale, Ready(delayed, now)[i].msg.id, Ready(delayed, now)[i].checkpoint)
    ensures forall i :: 0 <= i < |StillDelayed(delayed, now)| ==>
      CheckpointHeld(written, stale, StillDelayed(delayed, now)[i].msg.id, StillDelayed(delayed, now)[i].checkpoint)
  {
    if |delayed| > 0 { ReadyHeld(delayed[..|delayed| - 1], now, written, stale); }
  }

  /** Publishing, claiming, reclaiming and nacking write nothing and touch no key. */
  predicate Quiet(step: Step) {
    step.Publish? || step.ClaimNext? || step.Reclaim? || step.BeginNack?
  }

  lemma QuietCheckpoints(cfg: Config, s: System, step: Step)
    requires Quiet(step) && Enabled(cfg, s, step) && CheckpointsSound(s)
    ensures CheckpointsSound(Apply(cfg, s, step))
  {
    if step.ClaimNext? { ReadyHeld(s.mem.delayed, step.promoteAt, ReplayMain(s.main).checkpoints, s.stale); }
  }

  lemma QuietKeepsTidy(cfg: Config, s: System, step: Step)
    requires Quiet(step) && Enabled(cfg, s, step) && Tidy(s)
    ensures Tidy(Apply(cfg, s, step))
  {
    QuietCheckpoints(cfg, s, step);
  }

  lemma QuietKeepsSound(cfg: Config, s: System, step: Step)
    requires Quiet(step) && Enabled(cfg, s, step) && Sound(s)
    ensures Sound(Apply(cfg, s, step))
  {
    StepKeepsBase(cfg, s, step);
    QuietKeepsTidy(cfg, s, step);
  }

  // ---- Resolving one failed delivery ----------------------------------------------------------

  /** The first failed delivery, resolved: delayed for a retry, or dead-lettered in three steps. */
  function ResolveFirst(cfg: Config, s: System, now: MessageId -> Instant, draws: MessageId -> real): System
    requires |s.tasks| > 0 && s.tasks[0].Failing?
  {
    var f := s.tasks[0].failed;
    if Retry.IsExhausted(cfg.policy, f.deliveryCount) then
      var letter := ToDeadLetter(f, now(f.msg.id));
      s.(tasks := s.tasks[1..],
         dlqLog := s.dlqLog + [Record(letter)],
         mem := s.mem.(dlq := s.mem.dlq[f.msg.id := letter]),
         main := s.main + [DeadLettered(f.msg.id)])
    else
      var entry := Delayed(f.msg, f.deliveryCount,
        now(f.msg.id) + Retry.DelayFor(cfg.policy, f.deliveryCount, draws(f.msg.id)), f.checkpoint);
      s.(tasks := s.tasks[1..], mem := s.mem.(delayed := s.mem.delayed + [entry]))
  }

  lemma ResolveFirstIsHeads(cfg: Config, s: System, now: MessageId -> Instant, draws: MessageId -> real)
    requires |s.tasks| > 0 && s.tasks[0].Failing?
    ensures var f := s.tasks[0].failed;
      if Retry.IsExhausted(cfg.policy, f.deliveryCount) then
        var s1 := Head(cfg, s, now, draws);
        |s1.tasks| > 0 &&
        var s2 := Head(cfg, s1, now, draws);
        |s2.tasks| > 0 && Head(cfg, s2, now, draws) == ResolveFirst(cfg, s, now, draws)
      else Head(cfg, s, now, draws) == ResolveFirst(cfg, s, now, draws)
    ensures Drain(cfg, s, now, draws) == Drain(cfg, ResolveFirst(cfg, s, now, draws), now, draws)
  {
    var f := s.tasks[0].failed;
    var s1 := Head(cfg, s, now, draws);
    if Retry.IsExhausted(cfg.policy, f.deliveryCount) {
      var s2 := Head(cfg, s1, now, draws);
      var s3 := Head(cfg, s2, now, draws);
      assert s3.tasks == s.tasks[1..];
      assert Drain(cfg, s, now, draws) == Drain(cfg, s1, now, draws);
      assert Drain(cfg, s1, now, draws) == Drain(cfg, s2, now, draws) == Drain(cfg, s3, now, draws);
    } else {
      assert s1.tasks == s.tasks[1..];
    }
  }

  lemma ResolveFirstKeepsBase(cfg: Config, s: System, now: MessageId -> Instant, draws: MessageId -> real)
    requires |s.tasks| > 0 && s.tasks[0].Failing? && Base(s)
    ensures Base(ResolveFirst(cfg, s, now, draws))
  {
    ResolveFirstIsHeads(cfg, s, now, draws);
    HeadKeepsBase(cfg, s, now, draws);
    if Retry.IsExhausted(cfg.policy, s.tasks[0].failed.deliveryCount) {
      var s1 := Head(cfg, s, now, draws);
      HeadKeepsBase(cfg, s1, now, draws);
      HeadKeepsBase(cfg, Head(cfg, s1, now, draws), now, draws);
    }
  }

  lemma ResolveFirstCheckpoints(cfg: Config, s: System, now: MessageId -> Instant, draws: MessageId -> real)
    requires |s.tasks| > 0 && s.tasks[0].Failing? && CheckpointsSound(s)
    ensures CheckpointsSound(ResolveFirst(cfg, s, now, draws))
  {
    var s' := ResolveFirst(cfg, s, now, draws);
    assert ReplayMain(s'.main).checkpoints == ReplayMain(s.main).checkpoints by {
      ReplayMainAppend(s.main, DeadLettered(s.tasks[0].failed.msg.id));
    }
    ResolveFirstHeld(cfg, s, now, draws, ReplayMain(s.main).checkpoints);
  }

  lemma ResolveFirstHeld(
    cfg: Config, s: System, now: MessageId -> Instant, draws: MessageId -> real, written: map<MessageId, Value>)
    requires |s.tasks| > 0 && s.tasks[0].Failing? && CheckpointsHeld(s.mem, s.tasks, written, s.stale)
    ensures var s' := ResolveFirst(cfg, s, now, draws); CheckpointsHeld(s'.mem, s'.tasks, written, s'.stale)
  {
  }

  lemma ResolveFirstKeepsTidy(cfg: Config, s: System, now: MessageId -> Instant, draws: MessageId -> real)
    requires |s.tasks| > 0 && Tidy(s)
    ensures s.tasks[0].Failing? && Tidy(ResolveFirst(cfg, s, now, draws))
  {
    var f := s.tasks[0].failed;
    var s' := ResolveFirst(cfg, s, now, draws);
    assert CheckpointsSound(s') by { ResolveFirstCheckpoints(cfg, s, now, draws); }
    if Retry.IsExhausted(cfg.policy, f.deliveryCount) {
      assert s'.mem.dlq == ReplayDlq(s'.dlqLog) by {
        ReplayDlqAppend(s.dlqLog, Record(ToDeadLetter(f, now(f.msg.id))));
      }
      forall key ensures KeyAccounted(s'.main, s'.mem.dedup, s'.purged, key) {
        assert KeyAccounted(s.main, s.mem.dedup, s.purged, key);
        OtherAccounts(s.main, s.mem.dedup, s.purged, DeadLettered(f.msg.id), key);
      }
    }
  }

  lemma ResolveFirstKeepsSound(cfg: Config, s: System, now: MessageId -> Instant, draws: MessageId -> real)
    requires |s.tasks| > 0 && Sound(s)
    ensures s.tasks[0].Failing? && Sound(ResolveFirst(cfg, s, now, draws))
  {
    ResolveFirstKeepsTidy(cfg, s, now, draws);
    ResolveFirstKeepsBase(cfg, s, now, draws);
  }

  lemma {:induction false} DrainKeepsSound(cfg: Config, s: System, now: MessageId -> Instant, draws: MessageId -> real)
    requires Sound(s)
    ensures Sound(Drain(cfg, s, now, draws))
    decreases |s.tasks|
  {
    if |s.tasks| > 0 {
      ResolveFirstKeepsSound(cfg, s, now, draws);
      ResolveFirstIsHeads(cfg, s, now, draws);
      DrainKeepsSound(cfg, ResolveFirst(cfg, s, now, draws), now, draws);
    }
  }

  // ---- Enqueue ---------------------------------------------------------------------------------

  function EnqueueCall(s: System, msg: Message): System {
    if Deduplicated(s.mem, msg) then s
    else
      s.(mem := s.mem.(dedup := RegisterKey(s.mem.dedup, msg.key, msg.id),
                       pending := s.mem.pending + [Pending(msg, 0, None)]),
         main := s.main + [Enqueue(msg)],
         created := s.created[msg.id := msg])
  }

  lemma EnqueueIsSteps(cfg: Config, s: System, msg: Message)
    requires s.tasks == [] && msg.id !in s.created
    ensures Perform(cfg, s, DoEnqueue(msg)) == EnqueueCall(s, msg)
  {
    var s1 := Apply(cfg, s, BeginEnqueue(msg));
    if !Deduplicated(s.mem, msg) {
      var s2 := Head(cfg, s1, NoClock(), NoDraws());
      var s3 := Head(cfg, s2, NoClock(), NoDraws());
      assert s3.tasks == [];
      assert Drain(cfg, s1, NoClock(), NoDraws()) == Drain(cfg, s2, NoClock(), NoDraws()) == s3;
    }
  }

  lemma EnqueueKeepsTidy(s: System, msg: Message)
    requires Tidy(s) && msg.id !in s.created
    ensures Tidy(EnqueueCall(s, msg))
  {
    if !Deduplicated(s.mem, msg) {
      var s' := EnqueueCall(s, msg);
      forall key ensures KeyAccounted(s'.main, s'.mem.dedup, s'.purged, key) {
        assert KeyAccounted(s.main, s.mem.dedup, s.purged, key);
        EnqueueAccounts(s.main, s.mem.dedup, s.purged, msg, key);
      }
      assert CheckpointsSound(s') by { EnqueueKeepsCheckpoints(s, msg); }
    }
  }

  lemma EnqueueKeepsCheckpoints(s: System, msg: Message)
    requires CheckpointsSound(s) && msg.id !in s.created
    ensures CheckpointsSound(EnqueueCall(s, msg))
  {
    var s' := EnqueueCall(s, msg);
    assert ReplayMain(s'.main).checkpoints == ReplayMain(s.main).checkpoints || s' == s by {
      ReplayMainAppend(s.main, Enqueue(msg));
    }
    assert msg.id !in ReplayMain(s.main).checkpoints;
  }

  // ---- Ack -------------------------------------------------------------------------------------

  function AckCall(s: System, id: MessageId, token: LeaseToken): System {
    if Holds(s.mem.leased, id, token) then
      s.(mem := s.mem.(leased := s.mem.leased - {id}, dedup := ReleaseKey(s.mem.dedup, s.mem.leased[id].msg.key)),
         main := s.main + [Ack(id)],
         history := s.history + [Resolved(token, id, ByAck)],
         gone := s.gone + {id})
    else s
  }

  lemma AckIsSteps(cfg: Config, s: System, id: MessageId, token: LeaseToken)
    requires s.tasks == []
    ensures Perform(cfg, s, DoAck(id, token)) == AckCall(s, id, token)
  {
    var s1 := Apply(cfg, s, BeginAck(id, token));
    if Holds(s.mem.leased, id, token) {
      var s2 := Head(cfg, s1, NoClock(), NoDraws());
      assert Drain(cfg, s1, NoClock(), NoDraws()) == Drain(cfg, s2, NoClock(), NoDraws());
    } else {
      assert RemoveLease(s.mem.leased, id, token).1 == s.mem.leased;
      assert s1 == s;
    }
  }

  /** A leased message is among those the main log replays, with the same content. */
  lemma LeasedIsReplayed(s: System, id: MessageId)
    requires Exact(s) && id in s.mem.leased
    ensures var at := Position(ReplayMain(s.main).pending, id);
      at.Some? && ReplayMain(s.main).pending[at.value].msg == s.mem.leased[id].msg
  {
    assert LiveCopies(s, id) == LoggedCopies(s, id);
    PositionCount(ReplayMain(s.main).pending, id);
    ReplayTraceable(s.created, s.main, s.main);
    var at := Position(ReplayMain(s.main).pending, id).value;
    assert Genuine(s.created, ReplayMain(s.main).pending[at].msg);
  }

  lemma LeasedIsNotPurged(s: System, id: MessageId)
    requires AllInPlace(s) && s.purged <= s.gone && id in s.mem.leased
    ensures id !in s.purged
  {
    assert InPlace(s, id);
  }

  lemma AckKeepsTidy(s: System, id: MessageId, token: LeaseToken)
    requires Base(s) && Tidy(s)
    ensures Tidy(AckCall(s, id, token))
  {
    if Holds(s.mem.leased, id, token) {
      LeasedIsReplayed(s, id);
      LeasedIsNotPurged(s, id);
      AckTidies(s, id, token);
    }
  }

  lemma AckTidies(s: System, id: MessageId, token: LeaseToken)
    requires Tidy(s) && Holds(s.mem.leased, id, token) && id !in s.purged
    requires var msg := s.mem.leased[id].msg;
      && msg.id == id && Registered(s.mem.dedup, msg)
      && Position(ReplayMain(s.main).pending, id).Some?
      && ReplayMain(s.main).pending[Position(ReplayMain(s.main).pending, id).value].msg == msg
    ensures Tidy(AckCall(s, id, token))
  {
    var s' := AckCall(s, id, token);
    var msg := s.mem.leased[id].msg;
    ReplayMainAppend(s.main, Ack(id));
    forall key ensures KeyAccounted(s'.main, s'.mem.dedup, s'.purged, key) {
      assert KeyAccounted(s.main, s.mem.dedup, s.purged, key);
      AckAccounts(s.main, s.mem.dedup, s.purged, msg, key);
    }
  }

  // ---- Checkpoint --------------------------------------------------------------------------------

  function CheckpointCall(s: System, id: MessageId, token: LeaseToken, state: Value): System {
    if Holds(s.mem.leased, id, token) then
      s.(mem := s.mem.(leased := s.mem.leased[id := s.mem.leased[id].(checkpoint := Some(state))]),
         main := s.main + [Checkpoint(id, state)],
         stale := s.stale - {id})
    else s
  }

  lemma CheckpointIsSteps(cfg: Config, s: System, id: MessageId, token: LeaseToken, state: Value)
    requires s.tasks == []
    ensures Perform(cfg, s, DoCheckpoint(id, token, state)) == CheckpointCall(s, id, token, state)
  {
    var s1 := Apply(cfg, s, BeginCheckpoint(id, token, state));
    if Holds(s.mem.leased, id, token) {
      var s2 := Head(cfg, s1, NoClock(), NoDraws());
      var s3 := Head(cfg, s2, NoClock(), NoDraws());
      assert s3.tasks == [];
      assert Drain(cfg, s1, NoClock(), NoDraws()) == Drain(cfg, s2, NoClock(), NoDraws()) == s3;
    }
  }

  /** A message in one map is in no other collection. */
  lemma NowhereElse(s: System, id: MessageId)
    requires AllInPlace(s) && (id in s.mem.leased || id in s.mem.dlq)
    ensures Absent(s.mem.(leased := s.mem.leased - {id}, dlq := s.mem.dlq - {id}), s.tasks, id)
  {
    assert InPlace(s, id);
    NoPlaceMeansAbsent(s.(mem := s.mem.(leased := s.mem.leased - {id}, dlq := s.mem.dlq - {id})), id);
  }

  lemma CheckpointKeepsTidy(s: System, id: MessageId, token: LeaseToken, state: Value)
    requires Base(s) && Tidy(s)
    ensures Tidy(CheckpointCall(s, id, token, state))
  {
    if Holds(s.mem.leased, id, token) {
      NowhereElse(s, id);
      TraceableIsWellKeyed(s);
      CheckpointTidies(s, id, token, state);
    }
  }

  lemma CheckpointTidies(s: System, id: MessageId, token: LeaseToken, state: Value)
    requires Tidy(s) && Holds(s.mem.leased, id, token) && WellKeyed(s.mem) && id in s.created
    requires Absent(s.mem.(leased := s.mem.leased - {id}, dlq := s.mem.dlq - {id}), s.tasks, id)
    ensures Tidy(CheckpointCall(s, id, token, state))
  {
    var s' := CheckpointCall(s, id, token, state);
    ReplayMainAppend(s.main, Checkpoint(id, state));
    forall key ensures KeyAccounted(s'.main, s'.mem.dedup, s'.purged, key) {
      assert KeyAccounted(s.main, s.mem.dedup, s.purged, key);
      OtherAccounts(s.main, s.mem.dedup, s.purged, Checkpoint(id, state), key);
    }
    forall t | 0 <= t < |s.tasks|
      ensures s.tasks[t].failed.msg.id != id
    {
      assert TaskMessage(s.tasks[t]).Some?;
    }
  }

  // ---- Purge -------------------------------------------------------------------------------------

  function PurgeCall(s: System, id: MessageId): System {
    if id in s.mem.dlq then
      var msg := s.mem.dlq[id].msg;
      s.(mem := s.mem.(dlq := s.mem.dlq - {id}, dedup := ReleaseKey(s.mem.dedup, msg.key)),
         dlqLog := s.dlqLog + [Remove(msg.id)],
         purged := s.purged + {msg.id},
         gone := s.gone + {msg.id})
    else s
  }

  lemma PurgeIsSteps(cfg: Config, s: System, id: MessageId)
    requires s.tasks == []
    ensures Perform(cfg, s, DoTake(id, Purge)) == PurgeCall(s, id)
  {
    var s1 := Apply(cfg, s, BeginTake(id, Purge));
    if id in s.mem.dlq {
      var s2 := Head(cfg, s1, NoClock(), NoDraws());
      var s3 := Head(cfg, s2, NoClock(), NoDraws());
      assert s3.tasks == [];
      assert Drain(cfg, s1, NoClock(), NoDraws()) == Drain(cfg, s2, NoClock(), NoDraws()) == s3;
    } else {
      assert s.mem.dlq - {id} == s.mem.dlq;
    }
  }

  lemma PurgeKeepsTidy(s: System, id: MessageId)
    requires Base(s) && Tidy(s)
    ensures Tidy(PurgeCall(s, id))
  {
    if id in s.mem.dlq { PurgeTidies(s, id); }
  }

  lemma PurgeTidies(s: System, id: MessageId)
    requires Tidy(s) && id in s.mem.dlq && s.mem.dlq[id].msg.id == id
    requires Registered(s.mem.dedup, s.mem.dlq[id].msg) && Genuine(s.created, s.mem.dlq[id].msg)
    requires LogsTraceable(s.created, s.main, s.dlqLog)
    ensures Tidy(PurgeCall(s, id))
  {
    var s' := PurgeCall(s, id);
    ReplayDlqAppend(s.dlqLog, Remove(id));
    forall key ensures KeyAccounted(s'.main, s'.mem.dedup, s'.purged, key) {
      assert KeyAccounted(s.main, s.mem.dedup, s.purged, key);
      PurgeAccounts(s.created, s.main, s.mem.dedup, s.purged, s.mem.dlq[id].msg, key);
    }
  }

  // ---- Reprocess ---------------------------------------------------------------------------------

  function ReprocessCall(s: System, id: MessageId): System {
    if id in s.mem.dlq then
      var msg := s.mem.dlq[id].msg;
      s.(mem := s.mem.(dlq := s.mem.dlq - {id}, pending := s.mem.pending + [Pending(msg, 0, None)]),
         dlqLog := s.dlqLog + [Remove(msg.id)],
         main := s.main + [Enqueue(msg)],
         stale := if msg.id in ReplayMain(s.main).checkpoints then s.stale + {msg.id} else s.stale)
    else s
  }

  /** The last two steps of a reprocess: the Enqueue record, then the pending entry. */
  lemma RevivingDrains(cfg: Config, s: System, msg: Message)
    requires s.tasks == [Reviving(msg)]
    ensures Drain(cfg, s, NoClock(), NoDraws())
         == s.(tasks := [], main := s.main + [Enqueue(msg)],
               mem := s.mem.(pending := s.mem.pending + [Pending(msg, 0, None)]),
               stale := if msg.id in ReplayMain(s.main).checkpoints then s.stale + {msg.id} else s.stale)
  {
    var s3 := Head(cfg, s, NoClock(), NoDraws());
    assert s3.tasks == [Enqueued(msg)];
    var s4 := Head(cfg, s3, NoClock(), NoDraws());
    assert s4.tasks == [];
    assert Drain(cfg, s, NoClock(), NoDraws()) == Drain(cfg, s3, NoClock(), NoDraws()) == s4;
  }

  /** The first two steps: out of the map, then off the dead-letter log. */
  lemma TakingHead(cfg: Config, s: System, id: MessageId)
    requires s.tasks == [] && id in s.mem.dlq
    ensures var s1 := Apply(cfg, s, BeginTake(id, Reprocess));
      && |s1.tasks| > 0
      && Head(cfg, s1, NoClock(), NoDraws())
         == s.(mem := s.mem.(dlq := s.mem.dlq - {id}), dlqLog := s.dlqLog + [Remove(s.mem.dlq[id].msg.id)],
               tasks := [Reviving(s.mem.dlq[id].msg)])
  {
    var s1 := Apply(cfg, s, BeginTake(id, Reprocess));
    assert s1.tasks == [Taking(s.mem.dlq[id], Reprocess)];
  }

  lemma ReprocessIsSteps(cfg: Config, s: System, id: MessageId)
    requires s.tasks == []
    ensures Perform(cfg, s, DoTake(id, Reprocess)) == ReprocessCall(s, id)
  {
    var s1 := Apply(cfg, s, BeginTake(id, Reprocess));
    if id in s.mem.dlq {
      TakingHead(cfg, s, id);
      RevivingDrains(cfg, Head(cfg, s1, NoClock(), NoDraws()), s.mem.dlq[id].msg);
    } else {
      assert s.mem.dlq - {id} == s.mem.dlq;
    }
  }

  lemma ReprocessKeepsTidy(s: System, id: MessageId)
    requires Base(s) && Tidy(s)
    ensures Tidy(ReprocessCall(s, id))
  {
    if id in s.mem.dlq {
      NowhereElse(s, id);
      TraceableIsWellKeyed(s);
      assert InPlace(s, id);
      ReprocessTidies(s, id);
    }
  }

  lemma ReprocessTidies(s: System, id: MessageId)
    requires Tidy(s) && id in s.mem.dlq && WellKeyed(s.mem) && id !in s.mem.leased
    requires Registered(s.mem.dedup, s.mem.dlq[id].msg)
    requires Absent(s.mem.(leased := s.mem.leased - {id}, dlq := s.mem.dlq - {id}), s.tasks, id)
    ensures Tidy(ReprocessCall(s, id))
  {
    var s' := ReprocessCall(s, id);
    var msg := s.mem.dlq[id].msg;
    assert s'.mem.dlq == ReplayDlq(s'.dlqLog) by { ReplayDlqAppend(s.dlqLog, Remove(id)); }
    assert RegisterKey(s.mem.dedup, msg.key, msg.id) == s.mem.dedup;
    forall key ensures KeyAccounted(s'.main, s'.mem.dedup, s'.purged, key) {
      assert KeyAccounted(s.main, s.mem.dedup, s.purged, key);
      EnqueueAccounts(s.main, s.mem.dedup, s.purged, msg, key);
    }
    assert CheckpointsSound(s') by { ReprocessCheckpoints(s, id); }
  }

  /** A reprocessed message starts over, stale if the log has a checkpoint for it. */
  lemma ReprocessCheckpoints(s: System, id: MessageId)
    requires CheckpointsSound(s) && Settled(s) && id in s.mem.dlq && WellKeyed(s.mem) && id !in s.mem.leased
    requires Absent(s.mem.(leased := s.mem.leased - {id}, dlq := s.mem.dlq - {id}), s.tasks, id)
    ensures CheckpointsSound(ReprocessCall(s, id))
  {
    var s' := ReprocessCall(s, id);
    assert ReplayMain(s'.main).checkpoints == ReplayMain(s.main).checkpoints by {
      ReplayMainAppend(s.main, Enqueue(s.mem.dlq[id].msg));
    }
    forall t | 0 <= t < |s.tasks|
      ensures s.tasks[t].failed.msg.id != id
    {
      assert TaskMessage(s.tasks[t]).Some?;
    }
  }

  // ---- Annotate ----------------------------------------------------------------------------------

  function AnnotateCall(s: System, id: MessageId, verdict: TriageVerdict): System {
    if id in s.mem.dlq then
      s.(mem := s.mem.(dlq := s.mem.dlq[id := s.mem.dlq[id].(triage := Some(verdict))]),
         dlqLog := s.dlqLog + [Annotate(id, verdict)])
    else s
  }

  lemma AnnotateIsSteps(cfg: Config, s: System, id: MessageId, verdict: TriageVerdict)
    requires s.tasks == []
    ensures Perform(cfg, s, DoAnnotate(id, verdict)) == AnnotateCall(s, id, verdict)
  {
    var s1 := Apply(cfg, s, BeginAnnotate(id, verdict));
    if id in s.mem.dlq {
      var s2 := Head(cfg, s1, NoClock(), NoDraws());
      var s3 := Head(cfg, s2, NoClock(), NoDraws());
      assert s3.tasks == [];
      assert Drain(cfg, s1, NoClock(), NoDraws()) == Drain(cfg, s2, NoClock(), NoDraws()) == s3;
    }
  }

  lemma AnnotateKeepsTidy(s: System, id: MessageId, verdict: TriageVerdict)
    requires Tidy(s)
    ensures Tidy(AnnotateCall(s, id, verdict))
  {
    ReplayDlqAppend(s.dlqLog, Annotate(id, verdict));
  }

  // ---- Restart -----------------------------------------------------------------------------------

  /** In a serial run the dead letters' keys are in the replayed registry already, so the
      recovered registry is the replayed one. */
  lemma RecoveredRegistry(s: System, order: seq<MessageId>)
    requires RegistrySound(s) && MemoryRegistered(s.mem.dedup, s.mem) && s.mem.dlq == ReplayDlq(s.dlqLog)
    ensures Recover(s.main, s.dlqLog, order).dedup == ReplayMain(s.main).dedup
  {
    forall id | id in s.mem.dlq ensures Registered(ReplayMain(s.main).dedup, s.mem.dlq[id].msg) {
      HeldKeysReplay(s.main, s.mem.dedup, s.purged, s.mem.dlq[id].msg);
    }
    SeedingIsIdle(ReplayMain(s.main).dedup, s.mem.dlq, order);
  }

  lemma RestartKeepsRegistered(cfg: Config, s: System, order: seq<MessageId>)
    requires s.tasks == [] && Enabled(cfg, s, Crash(order)) && Sound(s)
    ensures KeysRegistered(Apply(cfg, s, Crash(order)))
  {
    var s' := Apply(cfg, s, Crash(order));
    RestartKeepsExact(cfg, s, order);
    RecoveredRegistry(s, order);
    forall i | 0 <= i < |s'.mem.pending| ensures Registered(s'.mem.dedup, s'.mem.pending[i].msg) {
      var msg := s'.mem.pending[i].msg;
      SameHeldSameLive(s, s', msg);
      HeldKeysReplay(s.main, s.mem.dedup, s.purged, msg);
    }
    forall id | id in s'.mem.dlq ensures Registered(s'.mem.dedup, s'.mem.dlq[id].msg) {
      HeldKeysReplay(s.main, s.mem.dedup, s.purged, s.mem.dlq[id].msg);
    }
  }

  lemma RestartCheckpoints(cfg: Config, s: System, order: seq<MessageId>)
    requires Enabled(cfg, s, Crash(order)) && CheckpointsSound(s)
    requires AllInPlace(Apply(cfg, s, Crash(order)))
    ensures CheckpointsSound(Apply(cfg, s, Crash(order)))
  {
    var s' := Apply(cfg, s, Crash(order));
    var r := ReplayMain(s.main);
    ApplyCheckpointsKeepsMessages(r.pending, r.checkpoints);
    forall i | 0 <= i < |s'.mem.pending|
      ensures CheckpointHeld(r.checkpoints, {}, s'.mem.pending[i].msg.id, s'.mem.pending[i].checkpoint)
    {
      var id := r.pending[i].msg.id;
      assert InPlace(s', id);
      forall j | 0 <= j < i ensures r.pending[j].msg.id != id {
        assert s'.mem.pending[j].msg == r.pending[j].msg && s'.mem.pending[i].msg == r.pending[i].msg;
        if r.pending[j].msg.id == id { SumPair(s'.mem.pending, j, i, PendingOf(id)); }
      }
      ApplyCheckpointsHandsOut(r.pending, r.checkpoints, i);
    }
  }

  lemma RestartKeepsSound(cfg: Config, s: System, order: seq<MessageId>)
    requires s.tasks == [] && Enabled(cfg, s, Crash(order)) && Sound(s)
    ensures Sound(Apply(cfg, s, Crash(order)))
  {
    var s' := Apply(cfg, s, Crash(order));
    RestartKeepsExact(cfg, s, order);
    RestartKeepsRegistered(cfg, s, order);
    RestartCheckpoints(cfg, s, order);
    RecoveredRegistry(s, order);
    forall key ensures KeyAccounted(s'.main, s'.mem.dedup, s'.purged, key) {
      assert KeyAccounted(s.main, s.mem.dedup, s.purged, key);
    }
  }

  // ---- Every serial run ----------------------------------------------------------------------------

  /** The base invariants hold after any call, being kept by each of its steps. */
  lemma PerformKeepsBase(cfg: Config, s: System, op: Op)
    requires s.tasks == [] && Enabled(cfg, s, FirstStep(op)) && Base(s) && !op.DoRestart? && !op.DoClaim?
    ensures Base(Perform(cfg, s, op))
  {
    var s1 := Apply(cfg, s, FirstStep(op));
    StepKeepsBase(cfg, s, FirstStep(op));
    match op
    case DoNack(_, _, _, now, draws) => DrainKeepsBase(cfg, s1, now, draws);
    case _ => DrainKeepsBase(cfg, s1, NoClock(), NoDraws());
  }

  lemma ClaimKeepsSound(cfg: Config, s: System, op: Op)
    requires op.DoClaim? && s.tasks == [] && Enabled(cfg, s, FirstStep(op)) && Sound(s)
    ensures Sound(Perform(cfg, s, op))
  {
    var s1 := Apply(cfg, s, FirstStep(op));
    QuietKeepsSound(cfg, s, FirstStep(op));
    DrainKeepsSound(cfg, s1, op.resolveAt, op.draws);
    QuietKeepsSound(cfg, Drain(cfg, s1, op.resolveAt, op.draws), ClaimNext(op.promoteAt, op.leaseAt));
  }

  lemma NackKeepsSound(cfg: Config, s: System, op: Op)
    requires (op.DoNack? || op.DoPublish?) && s.tasks == [] && Sound(s)
    ensures Sound(Perform(cfg, s, op))
  {
    var s1 := Apply(cfg, s, FirstStep(op));
    QuietKeepsSound(cfg, s, FirstStep(op));
    if op.DoNack? {
      DrainKeepsSound(cfg, s1, op.now, op.draws);
    } else {
      DrainKeepsSound(cfg, s1, NoClock(), NoDraws());
    }
  }

  lemma PerformKeepsTidy(cfg: Config, s: System, op: Op)
    requires s.tasks == [] && Enabled(cfg, s, FirstStep(op)) && Sound(s)
    requires !op.DoRestart? && !op.DoClaim? && !op.DoNack? && !op.DoPublish?
    ensures Tidy(Perform(cfg, s, op))
  {
    match op
    case DoEnqueue(msg) => EnqueueIsSteps(cfg, s, msg); EnqueueKeepsTidy(s, msg);
    case DoAck(id, token) => AckIsSteps(cfg, s, id, token); AckKeepsTidy(s, id, token);
    case DoCheckpoint(id, token, state) =>
      CheckpointIsSteps(cfg, s, id, token, state);
      CheckpointKeepsTidy(s, id, token, state);
    case DoTake(id, Purge) => PurgeIsSteps(cfg, s, id); PurgeKeepsTidy(s, id);
    case DoTake(id, Reprocess) => ReprocessIsSteps(cfg, s, id); ReprocessKeepsTidy(s, id);
    case DoAnnotate(id, verdict) => AnnotateIsSteps(cfg, s, id, verdict); AnnotateKeepsTidy(s, id, verdict);
  }

  lemma PerformSettles(cfg: Config, s: System, op: Op)
    requires s.tasks == [] && Enabled(cfg, s, FirstStep(op))
    ensures Perform(cfg, s, op).tasks == []
  {
  }

  lemma PerformKeepsSound(cfg: Config, s: System, op: Op)
    requires s.tasks == [] && Enabled(cfg, s, FirstStep(op)) && Sound(s)
    ensures Sound(Perform(cfg, s, op)) && Perform(cfg, s, op).tasks == []
  {
    PerformSettles(cfg, s, op);
    if op.DoRestart? {
      RestartIsSound(cfg, s, op);
    } else if op.DoClaim? {
      ClaimKeepsSound(cfg, s, op);
    } else if op.DoNack? || op.DoPublish? {
      NackKeepsSound(cfg, s, op);
    } else {
      assert Base(Perform(cfg, s, op)) by { PerformKeepsBase(cfg, s, op); }
      assert Tidy(Perform(cfg, s, op)) by { PerformKeepsTidy(cfg, s, op); }
    }
  }

  lemma RestartIsSound(cfg: Config, s: System, op: Op)
    requires op.DoRestart? && s.tasks == [] && Enabled(cfg, s, FirstStep(op)) && Sound(s)
    ensures Sound(Perform(cfg, s, op))
  {
    RestartKeepsSound(cfg, s, op.order);
  }

  lemma {:induction false} CallsKeepSound(cfg: Config, ops: seq<Op>)
    requires ValidCalls(cfg, ops)
    ensures Sound(AfterCalls(cfg, ops)) && AfterCalls(cfg, ops).tasks == []
    decreases |ops|
  {
    if |ops| > 0 {
      CallsKeepSound(cfg, ops[..|ops| - 1]);
      PerformKeepsSound(cfg, AfterCalls(cfg, ops[..|ops| - 1]), ops[|ops| - 1]);
    }
  }
}
