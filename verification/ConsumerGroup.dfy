/** The group and its dead-letter queue as objects: fields changed in place, loops over the
    replayed records, and every method's effect equal to the completed call that the step
    system describes. */
module ConsumerGroups {
  import opened Wrappers
  import opened Messages
  import opened Steps
  import opened Census
  import opened Serial
  import opened SerialRuns
  import opened Wake
  import opened Faults
  import opened SerialTheorems
  import Retry

  /** What a call returns: its answer, or the error of a log append that failed. */
  datatype Reply<+T> = Answer(value: T) | IoError

  // ---- The dead-letter queue -------------------------------------------------------------

  /** Dead letters by id, and the records of the log behind them. */
  class DeadLetterQueue {
    var entries: map<MessageId, DeadLetter>
    var log: seq<DlqRecord>

    /** Every letter is filed under its own id. */
    ghost predicate FiledById()
      reads this
    {
      forall id :: id in entries ==> entries[id].msg.id == id
    }

    constructor Open(records: seq<DlqRecord>)
      ensures entries == ReplayDlq(records) && log == records && FiledById()
    {
      var replayed: map<MessageId, DeadLetter> := map[];
      for i := 0 to |records|
        invariant replayed == ReplayDlq(records[..i])
      {
        assert records[..i + 1][..i] == records[..i];
        match records[i] {
          case Record(letter) => replayed := replayed[letter.msg.id := letter];
          case Remove(id) => replayed := replayed - {id};
          case Annotate(id, verdict) =>
            if id in replayed {
              replayed := replayed[id := replayed[id].(triage := Some(verdict))];
            }
        }
      }
      assert records[..|records|] == records;
      ReplayDlqWellKeyed(records);
      entries := replayed;
      log := records;
    }

    /** `appended` says, here and below, whether the log append succeeds. */
    method Add(letter: DeadLetter, appended: bool) returns (reply: Reply<()>)
      modifies this
      ensures reply == if appended then Answer(()) else IoError
      ensures log == if appended then old(log) + [Record(letter)] else old(log)
      ensures entries == if appended then old(entries)[letter.msg.id := letter] else old(entries)
    {
      if !appended {
        return IoError;
      }
      log := log + [Record(letter)];
      entries := entries[letter.msg.id := letter];
      reply := Answer(());
    }

    /** The letter leaves memory before its Remove record is written, and stays out if that fails. */
    method Take(id: MessageId, appended: bool) returns (reply: Reply<Option<DeadLetter>>)
      modifies this
      ensures reply == if id !in old(entries) then Answer(None)
                       else if appended then Answer(Some(old(entries)[id])) else IoError
      ensures entries == old(entries) - {id}
      ensures log == if id in old(entries) && appended then old(log) + [Remove(id)] else old(log)
    {
      if id !in entries {
        return Answer(None);
      }
      var letter := entries[id];
      entries := entries - {id};
      if !appended {
        return IoError;
      }
      log := log + [Remove(id)];
      reply := Answer(Some(letter));
    }

    method Classify(id: MessageId, verdict: TriageVerdict, appended: bool) returns (reply: Reply<bool>)
      modifies this
      ensures reply == if id !in old(entries) then Answer(false) else if appended then Answer(true) else IoError
      ensures entries == if reply == Answer(true) then old(entries)[id := old(entries)[id].(triage := Some(verdict))]
                         else old(entries)
      ensures log == if reply == Answer(true) then old(log) + [Annotate(id, verdict)] else old(log)
    {
      if id !in entries {
        return Answer(false);
      }
      if !appended {
        return IoError;
      }
      log := log + [Annotate(id, verdict)];
      entries := entries[id := entries[id].(triage := Some(verdict))];
      reply := Answer(true);
    }
  }

  // ---- Replay loops ------------------------------------------------------------------------

  method ReplayRecords(records: seq<MainRecord>) returns (r: Replay)
    ensures r == ReplayMain(records)
  {
    var pending: seq<Pending> := [];
    var dedup: map<IdempotencyKey, MessageId> := map[];
    var checkpoints: map<MessageId, Value> := map[];
    for i := 0 to |records|
      invariant Replay(pending, dedup, checkpoints) == ReplayMain(records[..i])
    {
      assert records[..i + 1][..i] == records[..i];
      match records[i] {
        case Enqueue(msg) =>
          if msg.key.Some? {
            dedup := dedup[msg.key.value := msg.id];
          }
          pending := pending + [Pending(msg, 0, None)];
        case Ack(id) =>
          var at := Position(pending, id);
          if at.Some? {
            var acked := pending[at.value];
            pending := pending[..at.value] + pending[at.value + 1..];
            if acked.msg.key.Some? {
              dedup := dedup - {acked.msg.key.value};
            }
          }
        case DeadLettered(id) =>
          var at := Position(pending, id);
          if at.Some? {
            pending := pending[..at.value] + pending[at.value + 1..];
          }
        case Checkpoint(id, state) =>
          checkpoints := checkpoints[id := state];
      }
    }
    assert records[..|records|] == records;
    r := Replay(pending, dedup, checkpoints);
  }

  lemma HandOutOne(pending: seq<Pending>, i: nat, left: map<MessageId, Value>)
    requires i < |pending|
    ensures var id := pending[i].msg.id;
      ApplyCheckpoints(pending[i..], left)
      == [pending[i].(checkpoint := if id in left then Some(left[id]) else None)]
         + ApplyCheckpoints(pending[i + 1..], left - {id})
  {
    assert pending[i..][0] == pending[i] && pending[i..][1..] == pending[i + 1..];
  }

  method HandOutCheckpoints(pending: seq<Pending>, checkpoints: map<MessageId, Value>) returns (done: seq<Pending>)
    ensures done == ApplyCheckpoints(pending, checkpoints)
  {
    var left := checkpoints;
    done := [];
    for i := 0 to |pending|
      invariant done + ApplyCheckpoints(pending[i..], left) == ApplyCheckpoints(pending, checkpoints)
    {
      var id := pending[i].msg.id;
      var state := if id in left then Some(left[id]) else None;
      HandOutOne(pending, i, left);
      done := done + [pending[i].(checkpoint := state)];
      left := left - {id};
    }
    assert pending[|pending|..] == [];
  }

  /** Registers the dead letters' keys, visiting the map in whatever order it iterates. */
  method SeedFromDlq(start: map<IdempotencyKey, MessageId>, dlq: map<MessageId, DeadLetter>)
    returns (dedup: map<IdempotencyKey, MessageId>, ghost order: seq<MessageId>)
    ensures Enumerates(order, dlq.Keys) && dedup == SeedKeys(start, dlq, order)
  {
    dedup, order := start, [];
    var left := dlq.Keys;
    while left != {}
      invariant left <= dlq.Keys
      invariant Enumerates(order, dlq.Keys - left)
      invariant dedup == SeedKeys(start, dlq, order)
      decreases left
    {
      var id :| id in left;
      var letter := dlq[id];
      assert (order + [id])[..|order|] == order;
      if letter.msg.key.Some? {
        dedup := dedup[letter.msg.key.value := letter.msg.id];
      }
      order := order + [id];
      left := left - {id};
    }
  }

  /** What the claim's lock section changes: memory alone. */
  lemma ClaimNextIs(cfg: Config, s: System, promoteAt: Instant, leaseAt: Instant)
    ensures var s' := Apply(cfg, s, ClaimNext(promoteAt, leaseAt));
      var promoted := PromoteReady(s.mem, promoteAt);
      && s'.mem == (if |promoted.pending| == 0 then promoted else LeaseFront(cfg, promoted, leaseAt))
      && s'.main == s.main && s'.dlqLog == s.dlqLog && s'.tasks == s.tasks
  {
  }

  /** Splits the delayed entries at `now`, as the promotion loop does. */
  method SplitDelayed(delayed: seq<Delayed>, now: Instant) returns (ready: seq<Pending>, still: seq<Delayed>)
    ensures ready == Ready(delayed, now) && still == StillDelayed(delayed, now)
  {
    ready, still := [], [];
    for i := 0 to |delayed|
      invariant ready == Ready(delayed[..i], now) && still == StillDelayed(delayed[..i], now)
    {
      var entry := delayed[i];
      assert delayed[..i + 1][..i] == delayed[..i];
      if entry.availableAt <= now {
        ready := ready + [Pending(entry.msg, entry.deliveryCount, entry.checkpoint)];
      } else {
        still := still + [entry];
      }
    }
    assert delayed[..|delayed|] == delayed;
  }

  /** Splits the leases at `now`, visiting the map in whatever order it iterates. */
  method SplitExpired(leased: map<MessageId, Leased>, now: Instant)
    returns (failures: seq<Failed>, kept: map<MessageId, Leased>, ghost order: seq<MessageId>)
    ensures Enumerates(order, Expired(leased, now))
    ensures kept == leased - Expired(leased, now)
    ensures |failures| == |order|
    ensures forall i :: 0 <= i < |order| ==> failures[i] == ToFailed(leased[order[i]], EXPIRY_REASON)
    ensures forall i :: 0 <= i < |order| ==>
      var lease := leased[order[i]];
      failures[i] == Failed(lease.msg, lease.deliveryCount, lease.checkpoint, Some("visibility timeout expired"))
  {
    failures, kept, order := [], leased, [];
    var expired := set id | id in leased && leased[id].expiresAt <= now;
    var left := expired;
    while left != {}
      invariant left <= expired
      invariant Enumerates(order, expired - left)
      invariant kept == leased - (expired - left)
      invariant |failures| == |order|
      invariant forall i :: 0 <= i < |order| ==> failures[i] == ToFailed(leased[order[i]], EXPIRY_REASON)
      decreases left
    {
      var id :| id in left;
      failures, order := failures + [ToFailed(kept[id], EXPIRY_REASON)], order + [id];
      kept := kept - {id};
      left := left - {id};
    }
    assert expired - {} == expired;
  }

  method EarliestExpiry(leased: map<MessageId, Leased>) returns (wake: Option<Instant>)
    ensures wake.None? <==> leased == map[]
    ensures wake.Some? ==> exists id :: id in leased && leased[id].expiresAt == wake.value
    ensures wake.Some? ==> forall id :: id in leased ==> wake.value <= leased[id].expiresAt
  {
    wake := None;
    var left := leased.Keys;
    while left != {}
      invariant left <= leased.Keys
      invariant wake.None? <==> left == leased.Keys
      invariant wake.Some? ==> exists id :: id in leased && leased[id].expiresAt == wake.value
      invariant wake.Some? ==> forall id :: id in leased.Keys - left ==> wake.value <= leased[id].expiresAt
      decreases left
    {
      var id :| id in left;
      if wake.None? || leased[id].expiresAt < wake.value {
        wake := Some(leased[id].expiresAt);
      }
      left := left - {id};
    }
  }

  /** The earliest instant anything leased or delayed could become claimable. */
  method EarliestWake(mem: Memory) returns (wake: Option<Instant>)
    ensures IsEarliestWake(mem, wake)
  {
    wake := EarliestExpiry(mem.leased);
    for i := 0 to |mem.delayed|
      invariant wake.None? ==> mem.leased == map[] && i == 0
      invariant wake.Some? ==> DueAt(mem, wake.value)
      invariant wake.Some? ==> forall id :: id in mem.leased ==> wake.value <= mem.leased[id].expiresAt
      invariant wake.Some? ==> forall j :: 0 <= j < i ==> wake.value <= mem.delayed[j].availableAt
    {
      if wake.None? || mem.delayed[i].availableAt < wake.value {
        wake := Some(mem.delayed[i].availableAt);
      }
    }
  }

  // ---- The group ---------------------------------------------------------------------------

  /** The key a consumer may forward downstream: the producer's, or one derived from the id. */
  datatype ClaimKey = Supplied(key: IdempotencyKey) | DerivedFrom(id: MessageId)

  datatype Claim = Claim(
    id: MessageId, token: LeaseToken, key: ClaimKey, item: Payload, deliveryCount: nat, checkpoint: Option<Value>)

  function EffectiveKey(msg: Message): ClaimKey {
    if msg.key.Some? then Supplied(msg.key.value) else DerivedFrom(msg.id)
  }

  function ToClaim(lease: Leased): Claim {
    Claim(lease.msg.id, lease.token, EffectiveKey(lease.msg), lease.msg.item, lease.deliveryCount, lease.checkpoint)
  }

  /** Whether resolving the delivery ends in an append that fails. */
  predicate Unwritten(cfg: Config, f: Failed, disk: Disk) {
    cfg.policy.maxAttempts.Some? && f.deliveryCount >= cfg.policy.maxAttempts.value && !disk.Works?
  }

  // ---- Each call, its append written or not ---------------------------------------------------

  lemma CallReaches(cfg: Config, s: System, op: Op)
    requires s.tasks == [] && Enabled(cfg, s, FirstStep(op))
    ensures Reachable(cfg, s) ==> Reachable(cfg, Perform(cfg, s, op))
  {
    if Reachable(cfg, s) { CallKeepsReachable(cfg, s, op); }
  }

  lemma EnqueueIs(cfg: Config, s: System, msg: Message, appended: bool)
    requires s.tasks == [] && msg.id !in s.created
    ensures appended ==> EnqueueCall(s, msg) == Perform(cfg, s, DoEnqueue(msg))
    ensures !appended ==> EnqueueFails(s, msg) == Falter(cfg, s, BeginEnqueue(msg), 0)
    ensures appended && Reachable(cfg, s) ==> Reachable(cfg, EnqueueCall(s, msg))
  {
    if appended {
      EnqueueIsSteps(cfg, s, msg);
      CallReaches(cfg, s, DoEnqueue(msg));
    } else {
      EnqueueFailsIs(cfg, s, msg);
    }
  }

  lemma AckIs(cfg: Config, s: System, id: MessageId, token: LeaseToken, appended: bool)
    requires s.tasks == []
    ensures appended ==> AckCall(s, id, token) == Perform(cfg, s, DoAck(id, token))
    ensures !appended ==> AckFails(s, id, token) == Falter(cfg, s, BeginAck(id, token), 0)
    ensures appended && Reachable(cfg, s) ==> Reachable(cfg, AckCall(s, id, token))
  {
    if appended {
      AckIsSteps(cfg, s, id, token);
      CallReaches(cfg, s, DoAck(id, token));
    } else {
      AckFailsIs(cfg, s, id, token);
    }
  }

  lemma CheckpointIs(cfg: Config, s: System, id: MessageId, token: LeaseToken, state: Value, appended: bool)
    requires s.tasks == []
    ensures appended ==> CheckpointCall(s, id, token, state) == Perform(cfg, s, DoCheckpoint(id, token, state))
    ensures !appended ==> s == Falter(cfg, s, BeginCheckpoint(id, token, state), 0)
    ensures appended && Reachable(cfg, s) ==> Reachable(cfg, CheckpointCall(s, id, token, state))
  {
    if appended {
      CheckpointIsSteps(cfg, s, id, token, state);
      CallReaches(cfg, s, DoCheckpoint(id, token, state));
    } else {
      CheckpointFailsIs(cfg, s, id, token, state);
    }
  }

  lemma PurgeIs(cfg: Config, s: System, id: MessageId, appended: bool)
    requires s.tasks == []
    ensures appended ==> PurgeCall(s, id) == Perform(cfg, s, DoTake(id, Purge))
    ensures !appended ==> TakeFails(s, id) == Falter(cfg, s, BeginTake(id, Purge), 0)
    ensures appended && Reachable(cfg, s) ==> Reachable(cfg, PurgeCall(s, id))
  {
    if appended {
      PurgeIsSteps(cfg, s, id);
      CallReaches(cfg, s, DoTake(id, Purge));
    } else {
      TakeFailsIs(cfg, s, id, Purge);
    }
  }

  lemma AnnotateIs(cfg: Config, s: System, id: MessageId, verdict: TriageVerdict, appended: bool)
    requires s.tasks == []
    ensures appended ==> AnnotateCall(s, id, verdict) == Perform(cfg, s, DoAnnotate(id, verdict))
    ensures !appended ==> s == Falter(cfg, s, BeginAnnotate(id, verdict), 0)
    ensures appended && Reachable(cfg, s) ==> Reachable(cfg, AnnotateCall(s, id, verdict))
  {
    if appended {
      AnnotateIsSteps(cfg, s, id, verdict);
      CallReaches(cfg, s, DoAnnotate(id, verdict));
    } else {
      AnnotateFailsIs(cfg, s, id, verdict);
    }
  }

  /** From `s` to `s'` the lease on `id` was released: its message waits out a backoff with its count and
      checkpoint, or, its deliveries used up, is a dead letter with them and the reason given. */
  ghost predicate ReleasedInto(
    cfg: Config, s: System, id: MessageId, reason: Option<string>, now: Instant, draw: real, disk: Disk, s': System)
    requires id in s.mem.leased
  {
    var lease := s.mem.leased[id];
    var spent := cfg.policy.maxAttempts.Some? && lease.deliveryCount >= cfg.policy.maxAttempts.value;
    var waiting := Delayed(lease.msg, lease.deliveryCount,
                           now + Retry.DelayFor(cfg.policy, lease.deliveryCount, draw), lease.checkpoint);
    var letter := DeadLetter(lease.msg, lease.deliveryCount, reason, now, lease.checkpoint, None);
    && s'.mem.leased == s.mem.leased - {id} && s'.mem.pending == s.mem.pending && s'.mem.dedup == s.mem.dedup
    && s'.mem.delayed == s.mem.delayed + (if spent then [] else [waiting])
    && s'.mem.dlq == (if spent && !disk.LetterFails? then s.mem.dlq[lease.msg.id := letter] else s.mem.dlq)
    && s'.dlqLog == s.dlqLog + (if spent && !disk.LetterFails? then [Record(letter)] else [])
    && s'.main == s.main + (if spent && disk.Works? then [DeadLettered(lease.msg.id)] else [])
    && s'.mem.nextToken == s.mem.nextToken
  }

  /** A nack leaves at most its own failed delivery to resolve. */
  lemma NackIs(
    cfg: Config, s: System, id: MessageId, token: LeaseToken, reason: Option<string>, now: MessageId -> Instant,
               draws: MessageId -> real, disks: MessageId -> Disk)
    requires s.tasks == []
    ensures var s1 := Apply(cfg, s, BeginNack(id, token, reason));
      && Settled(s1) && s1.main == s.main && s1.dlqLog == s.dlqLog
      && (!Holds(s.mem.leased, id, token) ==> DrainOn(cfg, s1, now, draws, disks) == s)
      && (Holds(s.mem.leased, id, token) ==>
            var f := ToFailed(s.mem.leased[id], reason);
            && s1.tasks == [Failing(f)] && s1.mem == s.mem.(leased := s.mem.leased - {id})
            && DrainOn(cfg, s1, now, draws, disks) == ResolveOn(cfg, s1, now, draws, disks(f.msg.id)))
  {
    var s1 := Apply(cfg, s, BeginNack(id, token, reason));
    if Holds(s.mem.leased, id, token) {
      var f := ToFailed(s.mem.leased[id], reason);
      assert ResolveOn(cfg, s1, now, draws, disks(f.msg.id)).tasks == [];
    } else {
      assert RemoveLease(s.mem.leased, id, token).1 == s.mem.leased;
      assert s1 == s;
    }
  }

  lemma NackReleases(
    cfg: Config, s: System, id: MessageId, token: LeaseToken, reason: Option<string>, now: MessageId -> Instant,
               draws: MessageId -> real, disks: MessageId -> Disk)
    requires s.tasks == [] && Holds(s.mem.leased, id, token)
    requires Settled(Apply(cfg, s, BeginNack(id, token, reason)))
    ensures var other := s.mem.leased[id].msg.id;
      ReleasedInto(cfg, s, id, reason, now(other), draws(other), disks(other),
                   DrainOn(cfg, Apply(cfg, s, BeginNack(id, token, reason)), now, draws, disks))
  {
    NackIs(cfg, s, id, token, reason, now, draws, disks);
  }

  /** And when every append is written, that is the completed call. */
  lemma SoundNackIs(
    cfg: Config, s: System, id: MessageId, token: LeaseToken, reason: Option<string>, now: MessageId -> Instant,
               draws: MessageId -> real, disks: MessageId -> Disk)
    requires s.tasks == [] && Settled(Apply(cfg, s, BeginNack(id, token, reason)))
    ensures (forall other :: disks(other).Works?) ==>
      var s' := DrainOn(cfg, Apply(cfg, s, BeginNack(id, token, reason)), now, draws, disks);
      && s' == Perform(cfg, s, DoNack(id, token, reason, now, draws))
      && (Reachable(cfg, s) ==> Reachable(cfg, s'))
  {
    if forall other :: disks(other).Works? {
      DrainOnWorks(cfg, Apply(cfg, s, BeginNack(id, token, reason)), now, draws, disks);
      CallReaches(cfg, s, DoNack(id, token, reason, now, draws));
    }
  }

  /** What a reprocess leaves behind, whichever of its appends are written. */
  function ReprocessOutcome(s: System, id: MessageId, removed: bool, enqueued: bool): System {
    if !removed then TakeFails(s, id) else if !enqueued then ReviveFails(s, id) else ReprocessCall(s, id)
  }

  lemma ReprocessIs(cfg: Config, s: System, id: MessageId, removed: bool, enqueued: bool)
    requires s.tasks == []
    ensures var s' := ReprocessOutcome(s, id, removed, enqueued);
      && s' == (if !removed then Falter(cfg, s, BeginTake(id, Reprocess), 0)
                else if !enqueued then Falter(cfg, s, BeginTake(id, Reprocess), 1)
                else Perform(cfg, s, DoTake(id, Reprocess)))
      && (removed && enqueued && Reachable(cfg, s) ==> Reachable(cfg, s'))
  {
    if !removed {
      TakeFailsIs(cfg, s, id, Reprocess);
    } else if !enqueued {
      ReviveFailsIs(cfg, s, id);
    } else {
      ReprocessIsSteps(cfg, s, id);
      CallReaches(cfg, s, DoTake(id, Reprocess));
    }
  }

  /** A pass whose appends are all written is the completed claim. */
  lemma ClaimPassIs(
    cfg: Config, s: System, reclaimAt: Instant, order: seq<MessageId>, resolveAt: MessageId -> Instant,
    draws: MessageId -> real, disks: MessageId -> Disk, promoteAt: Instant, leaseAt: Instant)
    requires s.tasks == [] && Enabled(cfg, s, Reclaim(reclaimAt, order))
    requires Settled(Apply(cfg, s, Reclaim(reclaimAt, order)))
    ensures (forall id :: disks(id).Works?) ==>
      var s' := Apply(cfg, DrainOn(cfg, Apply(cfg, s, Reclaim(reclaimAt, order)), resolveAt, draws, disks),
                            ClaimNext(promoteAt, leaseAt));
      && s' == Perform(cfg, s, DoClaim(reclaimAt, order, resolveAt, draws, promoteAt, leaseAt))
      && (Reachable(cfg, s) ==> Reachable(cfg, s'))
  {
    if forall id :: disks(id).Works? {
      DrainOnWorks(cfg, Apply(cfg, s, Reclaim(reclaimAt, order)), resolveAt, draws, disks);
      CallReaches(cfg, s, DoClaim(reclaimAt, order, resolveAt, draws, promoteAt, leaseAt));
    }
  }

  class ConsumerGroup {
    const cfg: Config
    const dlq: DeadLetterQueue
    var pending: seq<Pending>
    var leased: map<MessageId, Leased>
    var delayed: seq<Delayed>
    var dedup: map<IdempotencyKey, MessageId>
    var nextToken: LeaseToken
    var wal: seq<MainRecord>
    /** The system this group is a running process of, with its history. */
    ghost var sys: System

    function View(): Memory
      reads this, dlq
    {
      Memory(pending, leased, delayed, dedup, dlq.entries, nextToken)
    }

    /** No call is in flight, and the fields are the system's memory and logs. */
    ghost predicate Coherent()
      reads this, dlq
    {
      sys.tasks == [] && sys.mem == View() && sys.main == wal && sys.dlqLog == dlq.log && dlq.FiledById()
    }

    /** Opens the two logs a previous process left behind. */
    constructor Open(cfg: Config, records: seq<MainRecord>, dlqRecords: seq<DlqRecord>, ghost previous: System)
      requires previous.main == records && previous.dlqLog == dlqRecords
      ensures Coherent() && fresh(dlq) && this.cfg == cfg
      ensures exists order :: Enabled(cfg, previous, Crash(order)) && sys == Apply(cfg, previous, Crash(order))
      ensures Reachable(cfg, previous) ==> Reachable(cfg, sys)
    {
      var r := ReplayRecords(records);
      var handed := HandOutCheckpoints(r.pending, r.checkpoints);
      var queue := new DeadLetterQueue.Open(dlqRecords);
      var keys, order := SeedFromDlq(r.dedup, queue.entries);
      this.cfg := cfg;
      this.dlq := queue;
      pending, leased, delayed, dedup, nextToken := handed, map[], [], keys, 0;
      wal := records;
      sys := Apply(cfg, previous, Crash(order));
      new;
      if Reachable(cfg, previous) { RestartKeepsReachable(cfg, previous, order); }
    }

    /** Enqueues under a fresh id, unless the key is already registered; a failed append gives the
        key back. */
    method EnqueueMessage(msg: Message, appended: bool) returns (reply: Reply<MessageId>)
      requires Coherent() && msg.id !in sys.created
      modifies this
      ensures Coherent()
      ensures sys == if appended then Perform(cfg, old(sys), DoEnqueue(msg))
        else Falter(cfg, old(sys), BeginEnqueue(msg), 0)
      ensures if msg.key.Some? && msg.key.value in old(dedup) then
          reply == Answer(old(dedup)[msg.key.value]) && View() == old(View()) && wal == old(wal)
        else if appended then
          && reply == Answer(msg.id) && wal == old(wal) + [Enqueue(msg)]
          && pending == old(pending) + [Pending(msg, 0, None)]
          && dedup == (if msg.key.Some? then old(dedup)[msg.key.value := msg.id] else old(dedup))
        else
          reply == IoError && pending == old(pending) && wal == old(wal) && dedup == old(dedup)
      ensures leased == old(leased) && delayed == old(delayed) && nextToken == old(nextToken)
      ensures appended && Reachable(cfg, old(sys)) ==> Reachable(cfg, sys)
    {
      EnqueueIs(cfg, sys, msg, appended);
      sys := if appended then EnqueueCall(sys, msg) else EnqueueFails(sys, msg);
      if msg.key.Some? {
        if msg.key.value in dedup {
          return Answer(dedup[msg.key.value]);
        }
        dedup := dedup[msg.key.value := msg.id];
      }
      if !appended {
        if msg.key.Some? {
          dedup := dedup - {msg.key.value};
        }
        return IoError;
      }
      wal := wal + [Enqueue(msg)];
      pending := pending + [Pending(msg, 0, None)];
      reply := Answer(msg.id);
    }

    /** Acknowledges under the token of the lease held; a stale token puts the lease back. When the
        append fails the lease and the key are released all the same. */
    method AckMessage(id: MessageId, token: LeaseToken, appended: bool) returns (reply: Reply<bool>)
      requires Coherent()
      modifies this
      ensures Coherent()
      ensures sys == if appended then Perform(cfg, old(sys), DoAck(id, token))
        else Falter(cfg, old(sys), BeginAck(id, token), 0)
      ensures if id in old(leased) && old(leased)[id].token == token then
          && reply == (if appended then Answer(true) else IoError)
          && leased == old(leased) - {id} && wal == (if appended then old(wal) + [Ack(id)] else old(wal))
          && dedup == (if old(leased)[id].msg.key.Some? then old(dedup) - {old(leased)[id].msg.key.value}
                       else old(dedup))
        else
          reply == Answer(false) && leased == old(leased) && wal == old(wal) && dedup == old(dedup)
      ensures pending == old(pending) && delayed == old(delayed) && nextToken == old(nextToken)
      ensures appended && Reachable(cfg, old(sys)) ==> Reachable(cfg, sys)
    {
      AckIs(cfg, sys, id, token, appended);
      sys := if appended then AckCall(sys, id, token) else AckFails(sys, id, token);
      if id !in leased {
        return Answer(false);
      }
      var lease := leased[id];
      leased := leased - {id};
      if lease.token != token {
        leased := leased[id := lease];
        assert leased == old(leased);
        return Answer(false);
      }
      if lease.msg.key.Some? {
        dedup := dedup - {lease.msg.key.value};
      }
      if !appended {
        return IoError;
      }
      wal := wal + [Ack(id)];
      reply := Answer(true);
    }

    /** Dead-letters a failed delivery whose attempts are used up, or schedules its retry. */
    method ResolveFailedDelivery(f: Failed, now: Instant, draw: real, disk: Disk) returns (reply: Reply<()>)
      modifies this`delayed, this`wal, dlq
      ensures cfg.policy.maxAttempts.Some? && f.deliveryCount >= cfg.policy.maxAttempts.value ==>
        var letter := DeadLetter(f.msg, f.deliveryCount, f.reason, now, f.checkpoint, None);
        && delayed == old(delayed)
        && dlq.entries == (if disk.LetterFails? then old(dlq.entries) else old(dlq.entries)[f.msg.id := letter])
        && dlq.log == (if disk.LetterFails? then old(dlq.log) else old(dlq.log) + [Record(letter)])
        && wal == (if disk.Works? then old(wal) + [DeadLettered(f.msg.id)] else old(wal))
        && reply == (if disk.Works? then Answer(()) else IoError)
      ensures cfg.policy.maxAttempts.None? || f.deliveryCount < cfg.policy.maxAttempts.value ==>
        && delayed == old(delayed)
           + [Delayed(f.msg, f.deliveryCount, now + Retry.DelayFor(cfg.policy, f.deliveryCount, draw), f.checkpoint)]
        && dlq.entries == old(dlq.entries) && dlq.log == old(dlq.log) && wal == old(wal)
        && reply == Answer(())
    {
      if Retry.IsExhausted(cfg.policy, f.deliveryCount) {
        reply := dlq.Add(ToDeadLetter(f, now), !disk.LetterFails?);
        if reply.IoError? {
          return;
        }
        if disk.BurialFails? {
          return IoError;
        }
        wal := wal + [DeadLettered(f.msg.id)];
      } else {
        var delay := Retry.DelayFor(cfg.policy, f.deliveryCount, draw);
        delayed := delayed + [Delayed(f.msg, f.deliveryCount, now + delay, f.checkpoint)];
        reply := Answer(());
      }
    }

    /** Resolves failed deliveries one after another, going on past those whose appends fail. */
    method ResolveAll(
      failures: seq<Failed>, now: MessageId -> Instant, draws: MessageId -> real, disks: MessageId -> Disk)
      returns (replies: seq<Reply<()>>)
      requires Matches(sys, failures)
      modifies this`delayed, this`wal, this`sys, dlq
      ensures Coherent() && Settled(old(sys)) && sys == DrainOn(cfg, old(sys), now, draws, disks)
      ensures |replies| == |failures|
      ensures forall i :: 0 <= i < |failures| ==>
        (replies[i].IoError? <==> Unwritten(cfg, failures[i], disks(failures[i].msg.id)))
    {
      replies := [];
      for i := 0 to |failures|
        invariant Matches(sys, failures[i..])
        invariant DrainOn(cfg, sys, now, draws, disks) == DrainOn(cfg, old(sys), now, draws, disks)
        invariant |replies| == i
        invariant forall j :: 0 <= j < i ==>
          (replies[j].IoError? <==> Unwritten(cfg, failures[j], disks(failures[j].msg.id)))
      {
        assert failures[i..][0] == failures[i] && failures[i..][1..] == failures[i + 1..];
        var reply := ResolveNext(failures[i..], now, draws, disks);
        replies := replies + [reply];
      }
    }

    /** Resolves the first of the failed deliveries. */
    method ResolveNext(
      failures: seq<Failed>, now: MessageId -> Instant, draws: MessageId -> real, disks: MessageId -> Disk)
      returns (reply: Reply<()>)
      requires |failures| > 0 && Matches(sys, failures)
      modifies this`delayed, this`wal, this`sys, dlq
      ensures Matches(sys, failures[1..]) && Settled(old(sys))
      ensures DrainOn(cfg, sys, now, draws, disks) == DrainOn(cfg, old(sys), now, draws, disks)
      ensures reply.IoError? <==> Unwritten(cfg, failures[0], disks(failures[0].msg.id))
    {
      var disk := disks(failures[0].msg.id);
      sys := ResolveOn(cfg, sys, now, draws, disk);
      reply := ResolveFailedDelivery(failures[0], now(failures[0].msg.id), draws(failures[0].msg.id), disk);
    }

    /** The fields are the memory and logs of `s`, whose tasks are these failed deliveries. */
    ghost predicate Matches(s: System, failures: seq<Failed>)
      reads this, dlq
    {
      && s.mem == View() && s.main == wal && s.dlqLog == dlq.log && dlq.FiledById()
      && |s.tasks| == |failures|
      && forall i :: 0 <= i < |failures| ==> s.tasks[i] == Failing(failures[i])
    }

    /** Releases a leased message into the retry pool, or into the dead-letter queue. */
    method NackMessage(
      id: MessageId, token: LeaseToken, reason: Option<string>, now: MessageId -> Instant, draws: MessageId -> real,
                       disks: MessageId -> Disk)
      returns (reply: Reply<bool>)
      requires Coherent()
      modifies this, dlq
      ensures Coherent()
      ensures var s1 := Apply(cfg, old(sys), BeginNack(id, token, reason));
        Settled(s1) && sys == DrainOn(cfg, s1, now, draws, disks)
      ensures (forall other :: disks(other).Works?) ==>
        sys == Perform(cfg, old(sys), DoNack(id, token, reason, now, draws))
        && (Reachable(cfg, old(sys)) ==> Reachable(cfg, sys))
      ensures if id in old(leased) && old(leased)[id].token == token then
          var lease := old(leased)[id];
          var disk := disks(lease.msg.id);
          && reply == (if Unwritten(cfg, ToFailed(lease, reason), disk) then IoError else Answer(true))
          && ReleasedInto(cfg, old(sys), id, reason, now(lease.msg.id), draws(lease.msg.id), disk, sys)
        else
          reply == Answer(false) && sys == old(sys)
    {
      ghost var s := sys;
      reply := ReleaseAndResolve(id, token, reason, now, draws, disks);
      NackIs(cfg, s, id, token, reason, now, draws, disks);
      if Holds(s.mem.leased, id, token) { NackReleases(cfg, s, id, token, reason, now, draws, disks); }
      SoundNackIs(cfg, s, id, token, reason, now, draws, disks);
    }

    method ReleaseAndResolve(
      id: MessageId, token: LeaseToken, reason: Option<string>, now: MessageId -> Instant, draws: MessageId -> real,
                       disks: MessageId -> Disk)
      returns (reply: Reply<bool>)
      requires Coherent()
      modifies this, dlq
      ensures Coherent()
      ensures var s1 := Apply(cfg, old(sys), BeginNack(id, token, reason));
        Settled(s1) && sys == DrainOn(cfg, s1, now, draws, disks)
      ensures reply == if !Holds(old(leased), id, token) then Answer(false)
                       else if Unwritten(cfg, ToFailed(old(leased)[id], reason), disks(old(leased)[id].msg.id))
                       then IoError
                       else Answer(true)
    {
      NackIs(cfg, sys, id, token, reason, now, draws, disks);
      sys := DrainOn(cfg, Apply(cfg, sys, BeginNack(id, token, reason)), now, draws, disks);
      var lease := ReleaseLease(id, token);
      if lease.None? {
        return Answer(false);
      }
      var f := ToFailed(lease.value, reason);
      var resolved := ResolveFailedDelivery(f, now(f.msg.id), draws(f.msg.id), disks(f.msg.id));
      reply := if resolved.IoError? then IoError else Answer(true);
    }

    /** Takes the lease out of the map, and puts it back as it was if the token is not its own. */
    method ReleaseLease(id: MessageId, token: LeaseToken) returns (lease: Option<Leased>)
      modifies this`leased
      ensures (lease, leased) == RemoveLease(old(leased), id, token)
      ensures lease.Some? <==> Holds(old(leased), id, token)
      ensures lease.None? ==> leased == old(leased)
      ensures lease.Some? ==> lease.value == old(leased)[id] && leased == old(leased) - {id}
    {
      if id !in leased {
        return None;
      }
      var found := leased[id];
      leased := leased - {id};
      if found.token != token {
        leased := leased[id := found];
        return None;
      }
      lease := Some(found);
    }

    /** Takes every lease past its expiry out of the map. */
    method RemoveExpired(now: Instant) returns (failures: seq<Failed>, ghost order: seq<MessageId>)
      requires Coherent()
      modifies this`leased, this`sys
      ensures Enumerates(order, Expired(old(leased), now))
      ensures sys == Apply(cfg, old(sys), Reclaim(now, order)) && Matches(sys, failures)
      ensures leased == map id | id in old(leased) && now < old(leased)[id].expiresAt :: old(leased)[id]
    {
      failures, leased, order := SplitExpired(leased, now);
      sys := Apply(cfg, sys, Reclaim(now, order));
    }

    /** Promotes what is due and leases the front of the queue, if there is one. */
    method LeaseNext(promoteAt: Instant, leaseAt: Instant) returns (claim: Option<Claim>)
      requires Coherent()
      modifies this
      ensures Coherent() && sys == Apply(cfg, old(sys), ClaimNext(promoteAt, leaseAt))
      ensures var queue := old(pending) + Ready(old(delayed), promoteAt);
        if |queue| == 0 then
          claim.None? && pending == [] && leased == old(leased) && nextToken == old(nextToken)
        else
          && claim.Some? && claim.value.id == queue[0].msg.id && claim.value.item == queue[0].msg.item
          && claim.value.token == old(nextToken) && nextToken == old(nextToken) + 1
          && claim.value.deliveryCount == queue[0].deliveryCount + 1
          && claim.value.checkpoint == queue[0].checkpoint
          && claim.value.key == (if queue[0].msg.key.Some? then Supplied(queue[0].msg.key.value)
                                 else DerivedFrom(queue[0].msg.id))
          && pending == queue[1..]
          && leased == old(leased)[queue[0].msg.id :=
               Leased(queue[0].msg, old(nextToken), leaseAt + cfg.visibilityTimeout, queue[0].deliveryCount + 1,
                      queue[0].checkpoint, [])]
      ensures delayed == StillDelayed(old(delayed), promoteAt) && dedup == old(dedup) && wal == old(wal)
    {
      ClaimNextIs(cfg, sys, promoteAt, leaseAt);
      sys := Apply(cfg, sys, ClaimNext(promoteAt, leaseAt));
      PromoteReadyDelayed(promoteAt);
      claim := None;
      if |pending| > 0 {
        var lease := LeaseFrontEntry(leaseAt);
        claim := Some(ToClaim(lease));
      }
    }

    method PromoteReadyDelayed(now: Instant)
      modifies this`pending, this`delayed
      ensures View() == PromoteReady(old(View()), now)
    {
      var ready, still := SplitDelayed(delayed, now);
      pending, delayed := pending + ready, still;
    }

    /** Leases the front of the queue under a fresh token. */
    method LeaseFrontEntry(now: Instant) returns (lease: Leased)
      requires |pending| > 0
      modifies this`pending, this`leased, this`nextToken
      ensures View() == LeaseFront(cfg, old(View()), now)
      ensures var front := old(pending)[0];
        lease == Leased(front.msg, old(nextToken), now + cfg.visibilityTimeout, front.deliveryCount + 1,
                        front.checkpoint, [])
    {
      var front := pending[0];
      pending := pending[1..];
      lease := Leased(front.msg, nextToken, now + cfg.visibilityTimeout, front.deliveryCount + 1, front.checkpoint, []);
      nextToken := nextToken + 1;
      leased := leased[front.msg.id := lease];
    }

    /** One pass of the claim loop: reclaim, resolve, promote, and lease the front if there is one. An
        append that fails while resolving does not stop the pass. */
    method ClaimPass(
      reclaimAt: Instant, resolveAt: MessageId -> Instant, draws: MessageId -> real, disks: MessageId -> Disk,
                     promoteAt: Instant, leaseAt: Instant)
      returns (claim: Option<Claim>, ghost order: seq<MessageId>)
      requires Coherent()
      modifies this, dlq
      ensures Enumerates(order, Expired(old(leased), reclaimAt))
      ensures Coherent()
      ensures var s1 := Apply(cfg, old(sys), Reclaim(reclaimAt, order));
        Settled(s1) && sys == Apply(cfg, DrainOn(cfg, s1, resolveAt, draws, disks), ClaimNext(promoteAt, leaseAt))
      ensures (forall id :: disks(id).Works?) ==>
        sys == Perform(cfg, old(sys), DoClaim(reclaimAt, order, resolveAt, draws, promoteAt, leaseAt))
        && (Reachable(cfg, old(sys)) ==> Reachable(cfg, sys))
      ensures
        var resolved := DrainOn(cfg, Apply(cfg, old(sys), Reclaim(reclaimAt, order)), resolveAt, draws, disks);
        var kept := map id | id in old(leased) && reclaimAt < old(leased)[id].expiresAt :: old(leased)[id];
        var queue := old(pending) + Ready(resolved.mem.delayed, promoteAt);
        if |queue| == 0 then
          claim.None? && pending == [] && leased == kept && nextToken == old(nextToken)
        else
          && claim.Some? && claim.value.id == queue[0].msg.id && claim.value.item == queue[0].msg.item
          && claim.value.token == old(nextToken) && nextToken == old(nextToken) + 1
          && claim.value.deliveryCount == queue[0].deliveryCount + 1
          && claim.value.checkpoint == queue[0].checkpoint
          && claim.value.key == (if queue[0].msg.key.Some? then Supplied(queue[0].msg.key.value)
                                 else DerivedFrom(queue[0].msg.id))
          && pending == queue[1..]
          && leased == kept[queue[0].msg.id :=
               Leased(queue[0].msg, old(nextToken), leaseAt + cfg.visibilityTimeout, queue[0].deliveryCount + 1,
                      queue[0].checkpoint, [])]
      ensures dedup == old(dedup)
    {
      ghost var s := sys;
      var failures;
      failures, order := RemoveExpired(reclaimAt);
      var _ := ResolveAll(failures, resolveAt, draws, disks);
      claim := LeaseNext(promoteAt, leaseAt);
      ClaimPassIs(cfg, s, reclaimAt, order, resolveAt, draws, disks, promoteAt, leaseAt);
    }

    /** Records progress against a held lease: in the log first, then in the lease. */
    method SaveCheckpoint(id: MessageId, token: LeaseToken, state: Value, appended: bool) returns (reply: Reply<bool>)
      requires Coherent()
      modifies this
      ensures Coherent()
      ensures sys == if appended then Perform(cfg, old(sys), DoCheckpoint(id, token, state))
                     else Falter(cfg, old(sys), BeginCheckpoint(id, token, state), 0)
      ensures !appended ==> sys == old(sys)
      ensures if id in old(leased) && old(leased)[id].token == token then
          && reply == (if appended then Answer(true) else IoError)
          && wal == (if appended then old(wal) + [Checkpoint(id, state)] else old(wal))
          && leased == (if appended then old(leased)[id := old(leased)[id].(checkpoint := Some(state))]
                        else old(leased))
        else
          reply == Answer(false) && wal == old(wal) && leased == old(leased)
      ensures pending == old(pending) && delayed == old(delayed) && dedup == old(dedup)
      ensures nextToken == old(nextToken)
      ensures appended && Reachable(cfg, old(sys)) ==> Reachable(cfg, sys)
    {
      CheckpointIs(cfg, sys, id, token, state, appended);
      sys := if appended then CheckpointCall(sys, id, token, state) else sys;
      if id !in leased || leased[id].token != token {
        return Answer(false);
      }
      if !appended {
        return IoError;
      }
      wal := wal + [Checkpoint(id, state)];
      leased := leased[id := leased[id].(checkpoint := Some(state))];
      reply := Answer(true);
    }

    /** Appends a chunk to a held lease's stream; nothing is logged. */
    method PublishPartialResult(
      id: MessageId, token: LeaseToken, data: Value, isFinal: bool) returns (sequence: Option<nat>)
      requires Coherent()
      modifies this
      ensures Coherent() && sys == Perform(cfg, old(sys), DoPublish(id, token, data, isFinal))
      ensures if id in old(leased) && old(leased)[id].token == token then
          var lease := old(leased)[id];
          var next := |lease.stream| + 1;
          && sequence == Some(next)
          && leased == old(leased)[id := lease.(stream := lease.stream + [StreamChunk(next, data, isFinal)])]
        else
          sequence == None && leased == old(leased)
      ensures pending == old(pending) && delayed == old(delayed) && dedup == old(dedup)
      ensures wal == old(wal) && nextToken == old(nextToken)
      ensures Reachable(cfg, old(sys)) ==> Reachable(cfg, sys)
    {
      CallReaches(cfg, sys, DoPublish(id, token, data, isFinal));
      sys := Apply(cfg, sys, Publish(id, token, data, isFinal));
      if id !in leased || leased[id].token != token {
        return None;
      }
      var lease := leased[id];
      var next := |lease.stream| + 1;
      leased := leased[id := lease.(stream := lease.stream + [StreamChunk(next, data, isFinal)])];
      sequence := Some(next);
    }

    /** Re-enqueues a dead letter at the back, as a fresh delivery cycle under its old id. The letter is
        out of memory before its Remove record is written, and off the dead-letter log before its
        Enqueue record is; an append that fails leaves it there. */
    method ReprocessDeadLetter(id: MessageId, removed: bool, enqueued: bool) returns (reply: Reply<bool>)
      requires Coherent()
      modifies this, dlq
      ensures Coherent()
      ensures sys == if !removed then Falter(cfg, old(sys), BeginTake(id, Reprocess), 0)
                     else if !enqueued then Falter(cfg, old(sys), BeginTake(id, Reprocess), 1)
                     else Perform(cfg, old(sys), DoTake(id, Reprocess))
      ensures if id !in old(dlq.entries) then
          reply == Answer(false) && View() == old(View()) && wal == old(wal) && dlq.log == old(dlq.log)
        else
          var msg := old(dlq.entries)[id].msg;
          && reply == (if removed && enqueued then Answer(true) else IoError)
          && dlq.entries == old(dlq.entries) - {id}
          && dlq.log == (if removed then old(dlq.log) + [Remove(id)] else old(dlq.log))
          && wal == (if removed && enqueued then old(wal) + [Enqueue(msg)] else old(wal))
          && pending == (if removed && enqueued then old(pending) + [Pending(msg, 0, None)] else old(pending))
          && dedup == (if removed && !enqueued && msg.key.Some? then old(dedup) - {msg.key.value} else old(dedup))
      ensures leased == old(leased) && delayed == old(delayed) && nextToken == old(nextToken)
      ensures removed && enqueued && Reachable(cfg, old(sys)) ==> Reachable(cfg, sys)
    {
      ghost var s := sys;
      reply := Revive(id, removed, enqueued);
      ReprocessIs(cfg, s, id, removed, enqueued);
    }

    /** Takes a letter out of the dead-letter queue and puts it back on the main log and in pending. */
    method Revive(id: MessageId, removed: bool, enqueued: bool) returns (reply: Reply<bool>)
      requires Coherent()
      modifies this, dlq
      ensures Coherent() && sys == ReprocessOutcome(old(sys), id, removed, enqueued)
      ensures if id !in old(dlq.entries) then
          reply == Answer(false) && View() == old(View()) && wal == old(wal) && dlq.log == old(dlq.log)
        else
          var msg := old(dlq.entries)[id].msg;
          && reply == (if removed && enqueued then Answer(true) else IoError)
          && dlq.entries == old(dlq.entries) - {id}
          && dlq.log == (if removed then old(dlq.log) + [Remove(id)] else old(dlq.log))
          && wal == (if removed && enqueued then old(wal) + [Enqueue(msg)] else old(wal))
          && pending == (if removed && enqueued then old(pending) + [Pending(msg, 0, None)] else old(pending))
          && dedup == (if removed && !enqueued && msg.key.Some? then old(dedup) - {msg.key.value} else old(dedup))
      ensures leased == old(leased) && delayed == old(delayed) && nextToken == old(nextToken)
    {
      sys := ReprocessOutcome(sys, id, removed, enqueued);
      var taken := dlq.Take(id, removed);
      if taken.IoError? {
        return IoError;
      }
      if taken.value.None? {
        assert old(dlq.entries) - {id} == old(dlq.entries);
        return Answer(false);
      }
      var msg := taken.value.value.msg;
      if !enqueued {
        if msg.key.Some? {
          dedup := dedup - {msg.key.value};
        }
        return IoError;
      }
      wal := wal + [Enqueue(msg)];
      pending := pending + [Pending(msg, 0, None)];
      reply := Answer(true);
    }

    /** Discards a dead letter and frees its key. */
    method PurgeDeadLetter(id: MessageId, removed: bool) returns (reply: Reply<bool>)
      requires Coherent()
      modifies this, dlq
      ensures Coherent()
      ensures sys == if removed then Perform(cfg, old(sys), DoTake(id, Purge))
        else Falter(cfg, old(sys), BeginTake(id, Purge), 0)
      ensures if id !in old(dlq.entries) then
          reply == Answer(false) && View() == old(View()) && dlq.log == old(dlq.log)
        else
          var msg := old(dlq.entries)[id].msg;
          && reply == (if removed then Answer(true) else IoError)
          && dlq.entries == old(dlq.entries) - {id}
          && dlq.log == (if removed then old(dlq.log) + [Remove(id)] else old(dlq.log))
          && dedup == (if removed && msg.key.Some? then old(dedup) - {msg.key.value} else old(dedup))
      ensures pending == old(pending) && leased == old(leased) && delayed == old(delayed)
      ensures wal == old(wal) && nextToken == old(nextToken)
      ensures removed && Reachable(cfg, old(sys)) ==> Reachable(cfg, sys)
    {
      PurgeIs(cfg, sys, id, removed);
      sys := if removed then PurgeCall(sys, id) else TakeFails(sys, id);
      var taken := dlq.Take(id, removed);
      if taken.IoError? {
        return IoError;
      }
      if taken.value.None? {
        return Answer(false);
      }
      if taken.value.value.msg.key.Some? {
        dedup := dedup - {taken.value.value.msg.key.value};
      }
      reply := Answer(true);
    }

    method AnnotateDeadLetter(id: MessageId, verdict: TriageVerdict, appended: bool) returns (reply: Reply<bool>)
      requires Coherent()
      modifies this`sys, dlq
      ensures Coherent()
      ensures sys == if appended then Perform(cfg, old(sys), DoAnnotate(id, verdict))
                     else Falter(cfg, old(sys), BeginAnnotate(id, verdict), 0)
      ensures !appended ==> sys == old(sys)
      ensures if id in old(dlq.entries) && appended then
          && reply == Answer(true) && dlq.log == old(dlq.log) + [Annotate(id, verdict)]
          && dlq.entries == old(dlq.entries)[id := old(dlq.entries)[id].(triage := Some(verdict))]
        else
          && reply == (if id in old(dlq.entries) then IoError else Answer(false))
          && dlq.entries == old(dlq.entries) && dlq.log == old(dlq.log)
      ensures appended && Reachable(cfg, old(sys)) ==> Reachable(cfg, sys)
    {
      AnnotateIs(cfg, sys, id, verdict, appended);
      sys := if appended then AnnotateCall(sys, id, verdict) else sys;
      reply := dlq.Classify(id, verdict, appended);
    }
  }
}
