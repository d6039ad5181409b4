/** Exactly when idempotency keys survive crashes and restarts under every interleaving: when a
    restart forgets the registration of a message it recovers, and when a crash recovers two
    messages under one key. */
module KeySplits {
  import opened Wrappers
  import opened Counting
  import opened Messages
  import opened Steps
  import opened Census
  import opened Durability
  import opened Partition
  import opened Provenance
  import opened Recovery
  import opened Keys
  import opened Registry
  import opened Losses

  // ---- What the main log says about a key ------------------------------------------------------

  /** The log enqueued `id` under `key`. */
  ghost predicate EnqueuedUnder(main: seq<MainRecord>, id: MessageId, key: IdempotencyKey) {
    exists i :: 0 <= i < |main| && main[i].Enqueue? && main[i].msg.id == id && main[i].msg.key == Some(key)
  }

  /** An Ack of a message enqueued under `key` follows the latest Enqueue under `key`. */
  ghost predicate AckedSince(main: seq<MainRecord>, key: IdempotencyKey) {
    |main| > 0 &&
    var front, last := main[..|main| - 1], main[|main| - 1];
    Strikes(front, last, key) || (AckedSince(front, key) && !Renews(last, key))
  }

  /** The record acknowledges a message the log enqueued under `key`. */
  ghost predicate Strikes(main: seq<MainRecord>, record: MainRecord, key: IdempotencyKey) {
    record.Ack? && EnqueuedUnder(main, record.id, key)
  }

  predicate Renews(record: MainRecord, key: IdempotencyKey) {
    record.Enqueue? && record.msg.key == Some(key)
  }

  /** Replay registers `key`, to the message that enqueued it last, unless an Ack followed. */
  ghost predicate KeyReplays(main: seq<MainRecord>, key: IdempotencyKey) {
    var replayed := ReplayMain(main).dedup;
    && (key in replayed <==> LatestHolder(main, key).Some? && !AckedSince(main, key))
    && (key in replayed ==> LatestHolder(main, key) == Some(replayed[key]))
  }

  lemma AckedAppend(main: seq<MainRecord>, record: MainRecord, key: IdempotencyKey)
    ensures AckedSince(main + [record], key) <==>
      Strikes(main, record, key) || (AckedSince(main, key) && !Renews(record, key))
  {
    assert (main + [record])[..|main|] == main;
  }

  /** In a genuine log, a message that is still replayed was enqueued under its own key only. */
  lemma ReplayedKey(created: map<MessageId, Message>, main: seq<MainRecord>, id: MessageId, key: IdempotencyKey)
    requires forall i :: 0 <= i < |main| && main[i].Enqueue? ==> Genuine(created, main[i].msg)
    requires Position(ReplayMain(main).pending, id).Some?
    ensures var at := Position(ReplayMain(main).pending, id).value;
      EnqueuedUnder(main, id, key) <==> ReplayMain(main).pending[at].msg.key == Some(key)
  {
    var at := Position(ReplayMain(main).pending, id).value;
    var msg := ReplayMain(main).pending[at].msg;
    var p := ReplayedIsEnqueued(main, at);
    assert Genuine(created, main[p].msg);
    if EnqueuedUnder(main, id, key) {
      var i :| 0 <= i < |main| && main[i].Enqueue? && main[i].msg.id == id && main[i].msg.key == Some(key);
      assert Genuine(created, main[i].msg);
    }
  }

  lemma {:induction false} ReplayedIsEnqueued(main: seq<MainRecord>, at: nat) returns (p: nat)
    requires at < |ReplayMain(main).pending|
    ensures p < |main| && main[p] == Enqueue(ReplayMain(main).pending[at].msg)
    decreases |main|
  {
    var front, last := main[..|main| - 1], main[|main| - 1];
    var before := ReplayMain(front).pending;
    match last {
      case Enqueue(msg) =>
        if at == |before| { p := |main| - 1; } else { p := ReplayedIsEnqueued(front, at); }
      case Checkpoint(_, _) =>
        p := ReplayedIsEnqueued(front, at);
      case Ack(id) =>
        p := ReplayedIsEnqueued(front, Unstruck(before, id, at));
      case DeadLettered(id) =>
        p := ReplayedIsEnqueued(front, Unstruck(before, id, at));
    }
  }

  /** Where the entry at `at` was before the first entry of `id` was struck. */
  function Unstruck(pending: seq<Pending>, id: MessageId, at: nat): (was: nat)
    requires at < |RemoveFirst(pending, id)|
    ensures was < |pending| && pending[was] == RemoveFirst(pending, id)[at]
  {
    var first := Position(pending, id);
    if first.None? || at < first.value then at else at + 1
  }

  /** An append keeps the log's account of a key, an Ack having something to strike. */
  lemma AppendKeepsReplays(
    created: map<MessageId, Message>, main: seq<MainRecord>, record: MainRecord, key: IdempotencyKey)
    requires forall i :: 0 <= i < |main| && main[i].Enqueue? ==> Genuine(created, main[i].msg)
    requires record.Ack? ==> Position(ReplayMain(main).pending, record.id).Some?
    requires KeyReplays(main, key)
    ensures KeyReplays(main + [record], key)
  {
    LatestAppend(main, record, key);
    AckedAppend(main, record, key);
    if record.Ack? {
      AckStrikes(created, main, record.id, key);
    } else {
      ReplayMainAppend(main, record);
    }
  }

  /** Replaying an Ack frees exactly the key its message was enqueued under. */
  lemma AckStrikes(created: map<MessageId, Message>, main: seq<MainRecord>, id: MessageId, key: IdempotencyKey)
    requires forall i :: 0 <= i < |main| && main[i].Enqueue? ==> Genuine(created, main[i].msg)
    requires Position(ReplayMain(main).pending, id).Some?
    ensures var before, after := ReplayMain(main).dedup, ReplayMain(main + [Ack(id)]).dedup;
      && (key in after <==> key in before && !EnqueuedUnder(main, id, key))
      && (key in after ==> key in before && after[key] == before[key])
  {
    ReplayedKey(created, main, id, key);
    ReplayMainAppend(main, Ack(id));
  }

  // ---- What the live registry says about it ----------------------------------------------------

  /** A registered key belongs to the message that enqueued it last, or is about to. */
  ghost predicate KeyLatest(
    main: seq<MainRecord>, tasks: seq<Task>, dedup: map<IdempotencyKey, MessageId>, key: IdempotencyKey) {
    key in dedup ==>
      || LatestHolder(main, key) == Some(dedup[key])
      || exists msg :: Enqueueing(msg) in tasks && msg.id == dedup[key] && msg.key == Some(key)
  }

  ghost predicate KeyKept(s: System, key: IdempotencyKey) {
    KeyReplays(s.main, key) && KeyLatest(s.main, s.tasks, s.mem.dedup, key)
  }

  /** Everything the theorems below need of a group between two restarts. */
  ghost predicate Keyed(s: System) {
    Exact(s) && KeysRegistered(s) && forall key :: KeyKept(s, key)
  }

  lemma AckingIsReplayed(s: System, t: nat)
    requires CopiesExact(s) && t < |s.tasks| && s.tasks[t].Acking?
    ensures Position(ReplayMain(s.main).pending, s.tasks[t].id).Some?
  {
    var id := s.tasks[t].id;
    assert LiveCopies(s, id) == LoggedCopies(s, id);
    SumAt(s.tasks, t, CopyTask(id));
    PositionCount(ReplayMain(s.main).pending, id);
  }

  lemma AdvanceLatest(cfg: Config, s: System, t: nat, now: Instant, draw: real, key: IdempotencyKey)
    requires t < |s.tasks| && TaskRegistered(s.mem.dedup, s.tasks[t])
    requires KeyLatest(s.main, s.tasks, s.mem.dedup, key)
    ensures var s' := AdvanceTask(cfg, s, t, now, draw);
      KeyLatest(s'.main, s'.tasks, s'.mem.dedup, key)
  {
    var task := s.tasks[t];
    var s' := AdvanceTask(cfg, s, t, now, draw);
    if MainAppend(task).Some? { LatestAppend(s.main, MainAppend(task).value, key); }
    if key in s'.mem.dedup && LatestHolder(s'.main, key) != Some(s'.mem.dedup[key]) {
      var msg :| Enqueueing(msg) in s.tasks && msg.id == s.mem.dedup[key] && msg.key == Some(key);
      ReplaceKeeps(s.tasks, t, NextTask(cfg, task, now), Enqueueing(msg));
    }
  }

  lemma AdvanceKeyKept(cfg: Config, s: System, t: nat, now: Instant, draw: real, key: IdempotencyKey)
    requires t < |s.tasks| && CopiesExact(s) && AllTraceable(s) && KeysRegistered(s) && KeyKept(s, key)
    ensures KeyKept(AdvanceTask(cfg, s, t, now, draw), key)
  {
    var task := s.tasks[t];
    assert TaskRegistered(s.mem.dedup, task);
    AdvanceLatest(cfg, s, t, now, draw, key);
    if MainAppend(task).Some? {
      if task.Acking? { AckingIsReplayed(s, t); }
      AppendKeepsReplays(s.created, s.main, MainAppend(task).value, key);
    }
  }

  lemma StartKeyKept(cfg: Config, s: System, step: Step, key: IdempotencyKey)
    requires !step.Advance? && !step.AppendFails? && !step.Crash? && Enabled(cfg, s, step) && KeyKept(s, key)
    ensures KeyKept(Apply(cfg, s, step), key)
  {
    var s' := Apply(cfg, s, step);
    assert s.tasks <= s'.tasks && s'.main == s.main;
    assert forall task :: task in s.tasks ==> task in s'.tasks;
    if step.BeginEnqueue? && !Deduplicated(s.mem, step.msg) {
      assert s'.tasks[|s.tasks|] == Enqueueing(step.msg);
    }
  }

  /** Every step short of a crash and a failed append keeps it. */
  lemma StepKeepsKeyed(cfg: Config, s: System, step: Step)
    requires Enabled(cfg, s, step) && !step.Crash? && !step.AppendFails? && Keyed(s)
    ensures Keyed(Apply(cfg, s, step))
  {
    var s' := Apply(cfg, s, step);
    assert Exact(s') by { StepKeepsExact(cfg, s, step); }
    assert KeysRegistered(s') by {
      TraceableIsWellKeyed(s);
      StepKeepsRegistered(cfg, s, step);
    }
    forall key ensures KeyKept(s', key) {
      assert KeyKept(s, key);
      match step
      case Advance(t, now, draw) => AdvanceKeyKept(cfg, s, t, now, draw, key);
      case _ => StartKeyKept(cfg, s, step, key);
    }
  }

  // ---- Restarts --------------------------------------------------------------------------------

  /** The message at a location is the one created under that id, and its key is registered to it. */
  lemma HolderIsRegistered(s: System, place: Location, id: MessageId)
    requires AllTraceable(s) && KeysRegistered(s) && At(s, place, id)
    ensures id in s.created && s.created[id].id == id && Registered(s.mem.dedup, s.created[id])
    ensures MessageAt(s, place) == Some(s.created[id])
  {
    if place.InTask? {
      assert TaskTraceable(s.created, s.main, s.tasks[place.at]);
      assert TaskRegistered(s.mem.dedup, s.tasks[place.at]);
    }
  }

  /** A key held by a live message is held by no dead letter. */
  lemma LiveKeyHasNoLetter(s: System, msg: Message, key: IdempotencyKey, id: MessageId)
    requires Exact(s) && KeysRegistered(s) && LiveMessage(s.mem, msg) && msg.key == Some(key) && id in s.mem.dlq
    ensures s.mem.dlq[id].msg.key != Some(key)
  {
    LiveMeansHeld(s, msg);
    assert InPlace(s, msg.id);
    if s.mem.dlq[id].msg.key == Some(key) {
      LiveIsRegistered(s, msg);
    }
  }

  lemma LiveIsRegistered(s: System, msg: Message)
    requires KeysRegistered(s) && LiveMessage(s.mem, msg)
    ensures Registered(s.mem.dedup, msg)
  {
  }

  /** The recovered letters are the live ones, as far as their messages go. */
  lemma RecoveredLetters(s: System)
    requires s.tasks == [] && Exact(s)
    ensures ReplayDlq(s.dlqLog).Keys == s.mem.dlq.Keys
    ensures forall id :: id in s.mem.dlq ==>
      ReplayDlq(s.dlqLog)[id].msg == s.mem.dlq[id].msg && s.mem.dlq[id].msg.id == id
  {
    forall id ensures id in ReplayDlq(s.dlqLog) <==> id in s.mem.dlq {
      assert LettersCounted(s, id);
    }
    forall id | id in s.mem.dlq ensures ReplayDlq(s.dlqLog)[id].msg == s.mem.dlq[id].msg {
      assert LetterLogged(s.dlqLog, s.mem.dlq[id]);
    }
  }

  /** Live and logged state agree, and replay registers what the log says. */
  ghost predicate InStep(s: System) {
    Exact(s) && forall key :: KeyReplays(s.main, key)
  }

  /** That holds over every clean run, whatever its restarts forgot. */
  lemma {:induction false} RunKeepsInStep(cfg: Config, steps: seq<Step>)
    requires ValidRun(cfg, INITIAL, steps) && Clean(cfg, steps)
    ensures InStep(Run(cfg, INITIAL, steps))
    decreases |steps|
  {
    RunKeepsExact(cfg, steps);
    if |steps| == 0 {
      assert forall key :: KeyReplays([], key);
    } else {
      var front, last := steps[..|steps| - 1], steps[|steps| - 1];
      RunKeepsInStep(cfg, front);
      var s := Run(cfg, INITIAL, front);
      forall key ensures KeyReplays(Apply(cfg, s, last).main, key) {
        assert KeyReplays(s.main, key);
        if last.Advance? { AdvanceReplays(cfg, s, last.task, last.now, last.draw, key); }
      }
    }
  }

  lemma AdvanceReplays(cfg: Config, s: System, t: nat, now: Instant, draw: real, key: IdempotencyKey)
    requires t < |s.tasks| && CopiesExact(s) && AllTraceable(s) && KeyReplays(s.main, key)
    ensures KeyReplays(AdvanceTask(cfg, s, t, now, draw).main, key)
  {
    var task := s.tasks[t];
    if MainAppend(task).Some? {
      if task.Acking? { AckingIsReplayed(s, t); }
      AppendKeepsReplays(s.created, s.main, MainAppend(task).value, key);
    }
  }

  /** Some dead letter holds `key`. */
  ghost predicate LetterUnder(dlq: map<MessageId, DeadLetter>, key: IdempotencyKey) {
    exists id :: id in dlq && dlq[id].msg.key == Some(key)
  }

  /** Of the letters under `key`, `id` is the last that `order` visits. */
  ghost predicate IsLastUnder(
    dlq: map<MessageId, DeadLetter>, order: seq<MessageId>, id: MessageId, key: IdempotencyKey)
  {
    exists i :: 0 <= i < |order| && order[i] == id && Under(dlq, id, key) && NoneUnder(dlq, order[i + 1..], key)
  }

  predicate Under(dlq: map<MessageId, DeadLetter>, id: MessageId, key: IdempotencyKey) {
    id in dlq && dlq[id].msg.key == Some(key)
  }

  ghost predicate NoneUnder(dlq: map<MessageId, DeadLetter>, order: seq<MessageId>, key: IdempotencyKey) {
    forall i :: 0 <= i < |order| ==> !Under(dlq, order[i], key)
  }

  /** Seeding registers `key` to the last letter under it, if there is any. */
  lemma {:induction false} SeedingLast(
    dedup: map<IdempotencyKey, MessageId>, dlq: map<MessageId, DeadLetter>, order: seq<MessageId>, key: IdempotencyKey)
    requires forall id :: id in dlq ==> dlq[id].msg.id == id
    ensures NoneUnder(dlq, order, key) ==>
      (key in SeedKeys(dedup, dlq, order) <==> key in dedup)
      && (key in dedup ==> SeedKeys(dedup, dlq, order)[key] == dedup[key])
    ensures !NoneUnder(dlq, order, key) ==>
      key in SeedKeys(dedup, dlq, order) && IsLastUnder(dlq, order, SeedKeys(dedup, dlq, order)[key], key)
  {
    if |order| > 0 {
      var front, last := order[..|order| - 1], order[|order| - 1];
      SeedingLast(dedup, dlq, front, key);
      if Under(dlq, last, key) {
        assert NoneUnder(dlq, order[|order|..], key);
      } else if !NoneUnder(dlq, front, key) {
        LastStaysLast(dlq, front, last, SeedKeys(dedup, dlq, front)[key], key);
        assert front + [last] == order;
      }
    }
  }

  lemma LastStaysLast(
    dlq: map<MessageId, DeadLetter>, front: seq<MessageId>, last: MessageId, id: MessageId, key: IdempotencyKey)
    requires IsLastUnder(dlq, front, id, key) && !Under(dlq, last, key)
    ensures IsLastUnder(dlq, front + [last], id, key)
  {
    var order := front + [last];
    var i :| 0 <= i < |front| && front[i] == id && Under(dlq, id, key) && NoneUnder(dlq, front[i + 1..], key);
    assert order[i] == id && order[i + 1..] == front[i + 1..] + [last];
  }

  /** Only one letter is the last. */
  lemma LastIsOne(
    dlq: map<MessageId, DeadLetter>, order: seq<MessageId>, x: MessageId, y: MessageId, key: IdempotencyKey)
    requires IsLastUnder(dlq, order, x, key) && IsLastUnder(dlq, order, y, key)
    ensures x == y
  {
    var i := LastPosition(dlq, order, x, key);
    var j := LastPosition(dlq, order, y, key);
    assert Under(dlq, order[i], key) && Under(dlq, order[j], key);
  }

  lemma LastPosition(dlq: map<MessageId, DeadLetter>, order: seq<MessageId>, id: MessageId, key: IdempotencyKey)
    returns (i: nat)
    requires IsLastUnder(dlq, order, id, key)
    ensures i < |order| && order[i] == id && Under(dlq, order[i], key)
    ensures forall j :: i < j < |order| ==> !Under(dlq, order[j], key)
  {
    i :| 0 <= i < |order| && order[i] == id && Under(dlq, id, key) && NoneUnder(dlq, order[i + 1..], key);
    forall j | i < j < |order| ensures !Under(dlq, order[j], key) {
      assert order[i + 1..][j - i - 1] == order[j];
    }
  }

  /** The registry a restart between calls rebuilds, key by key: the last dead letter visited under the
      key, and without one the message that enqueued it last, unless an Ack followed. */
  lemma RestartRegistry(cfg: Config, s: System, order: seq<MessageId>, key: IdempotencyKey)
    requires s.tasks == [] && Enabled(cfg, s, Crash(order)) && InStep(s)
    ensures var dedup := Apply(cfg, s, Crash(order)).mem.dedup;
      && (LetterUnder(s.mem.dlq, key) ==> key in dedup && IsLastUnder(s.mem.dlq, order, dedup[key], key))
      && (!LetterUnder(s.mem.dlq, key) ==>
           (key in dedup <==> LatestHolder(s.main, key).Some? && !AckedSince(s.main, key))
           && (key in dedup ==> LatestHolder(s.main, key) == Some(dedup[key])))
  {
    RecoveredLetters(s);
    var dlq := ReplayDlq(s.dlqLog);
    SeedingLast(ReplayMain(s.main).dedup, dlq, order, key);
    assert KeyReplays(s.main, key);
    SameUnder(dlq, s.mem.dlq, order, key);
    if LetterUnder(s.mem.dlq, key) {
      var id :| id in s.mem.dlq && s.mem.dlq[id].msg.key == Some(key);
      assert id in order;
    }
  }

  lemma SameUnder(
    dlq: map<MessageId, DeadLetter>, dlq': map<MessageId, DeadLetter>, order: seq<MessageId>, key: IdempotencyKey)
    requires dlq.Keys == dlq'.Keys && forall id :: id in dlq ==> dlq[id].msg == dlq'[id].msg
    ensures NoneUnder(dlq, order, key) <==> NoneUnder(dlq', order, key)
    ensures forall id :: IsLastUnder(dlq, order, id, key) <==> IsLastUnder(dlq', order, id, key)
  {
    forall id ensures Under(dlq, id, key) <==> Under(dlq', id, key) {
    }
  }

  /** The message owns its key as far as a restart can tell: no dead letter is under the key, it was the
      last to enqueue it, and no Ack of an earlier holder followed. */
  ghost predicate Owns(s: System, msg: Message, key: IdempotencyKey) {
    !LetterUnder(s.mem.dlq, key) && LatestHolder(s.main, key) == Some(msg.id) && !AckedSince(s.main, key)
  }

  lemma LiveRegisteredExactly(cfg: Config, s: System, order: seq<MessageId>, msg: Message, key: IdempotencyKey)
    requires s.tasks == [] && Enabled(cfg, s, Crash(order)) && InStep(s)
    requires LiveMessage(s.mem, msg) && msg.key == Some(key)
    ensures Registered(Apply(cfg, s, Crash(order)).mem.dedup, msg) <==> Owns(s, msg, key)
  {
    RestartRegistry(cfg, s, order, key);
    LiveMeansHeld(s, msg);
    assert InPlace(s, msg.id);
  }

  /** After any clean run with no call in flight, however many restarts it went through and whatever they
      forgot, a restart leaves a live message's key registered to it if and only if no dead letter is
      under the key, it was the last to enqueue it, and no Ack of an earlier holder followed. */
  lemma RestartRegistersExactly(cfg: Config, steps: seq<Step>, order: seq<MessageId>, msg: Message, key: IdempotencyKey)
    requires ValidRun(cfg, INITIAL, steps) && Clean(cfg, steps) && Run(cfg, INITIAL, steps).tasks == []
    requires Enabled(cfg, Run(cfg, INITIAL, steps), Crash(order))
    requires LiveMessage(Run(cfg, INITIAL, steps).mem, msg) && msg.key == Some(key)
    ensures var s := Run(cfg, INITIAL, steps);
      Registered(Apply(cfg, s, Crash(order)).mem.dedup, msg) <==> Owns(s, msg, key)
  {
    RunKeepsInStep(cfg, steps);
    LiveRegisteredExactly(cfg, Run(cfg, INITIAL, steps), order, msg, key);
  }

  lemma LetterRegisteredExactly(cfg: Config, s: System, order: seq<MessageId>, id: MessageId, key: IdempotencyKey)
    requires s.tasks == [] && Enabled(cfg, s, Crash(order)) && InStep(s) && Under(s.mem.dlq, id, key)
    ensures Registered(Apply(cfg, s, Crash(order)).mem.dedup, s.mem.dlq[id].msg)
      <==> IsLastUnder(s.mem.dlq, order, id, key)
  {
    RestartRegistry(cfg, s, order, key);
    RecoveredLetters(s);
    var kept := Apply(cfg, s, Crash(order)).mem.dedup[key];
    if IsLastUnder(s.mem.dlq, order, id, key) { LastIsOne(s.mem.dlq, order, id, kept, key); }
  }

  /** And a dead letter's key to it if and only if it is the last the map iterates under the key. */
  lemma RestartRegistersLetters(
    cfg: Config, steps: seq<Step>, order: seq<MessageId>, id: MessageId, key: IdempotencyKey)
    requires ValidRun(cfg, INITIAL, steps) && Clean(cfg, steps) && Run(cfg, INITIAL, steps).tasks == []
    requires Enabled(cfg, Run(cfg, INITIAL, steps), Crash(order)) && Under(Run(cfg, INITIAL, steps).mem.dlq, id, key)
    ensures var s := Run(cfg, INITIAL, steps);
      Registered(Apply(cfg, s, Crash(order)).mem.dedup, s.mem.dlq[id].msg) <==> IsLastUnder(s.mem.dlq, order, id, key)
  {
    RunKeepsInStep(cfg, steps);
    LetterRegisteredExactly(cfg, Run(cfg, INITIAL, steps), order, id, key);
  }

  /** Every live message owns its key, and no two dead letters are under one. */
  ghost predicate KeysOwned(s: System) {
    && (forall msg :: LiveMessage(s.mem, msg) && msg.key.Some? ==> Owns(s, msg, msg.key.value))
    && LettersApart(s.mem.dlq)
  }

  ghost predicate LettersApart(dlq: map<MessageId, DeadLetter>) {
    forall x, y, key :: Under(dlq, x, key) && Under(dlq, y, key) ==> x == y
  }

  lemma LettersRegisteredExactly(cfg: Config, s: System, order: seq<MessageId>)
    requires s.tasks == [] && Enabled(cfg, s, Crash(order)) && InStep(s)
    ensures (forall id :: id in s.mem.dlq ==> Registered(Apply(cfg, s, Crash(order)).mem.dedup, s.mem.dlq[id].msg))
      <==> LettersApart(s.mem.dlq)
  {
    var dlq := s.mem.dlq;
    var dedup := Apply(cfg, s, Crash(order)).mem.dedup;
    forall id, key | Under(dlq, id, key)
      ensures Registered(dedup, dlq[id].msg) <==> IsLastUnder(dlq, order, id, key)
      ensures key in dedup && IsLastUnder(dlq, order, dedup[key], key) && Under(dlq, dedup[key], key)
    {
      LetterRegisteredExactly(cfg, s, order, id, key);
      RestartRegistry(cfg, s, order, key);
    }
    if forall id :: id in dlq ==> Registered(dedup, dlq[id].msg) {
      forall x, y, key | Under(dlq, x, key) && Under(dlq, y, key) ensures x == y {
        LastIsOne(dlq, order, x, y, key);
      }
    }
    if LettersApart(dlq) {
      forall id | id in dlq ensures Registered(dedup, dlq[id].msg) {
        if dlq[id].msg.key.Some? { assert Under(dlq, id, dlq[id].msg.key.value); }
      }
    }
  }

  lemma RestartRegisteredExactly(cfg: Config, s: System, order: seq<MessageId>)
    requires s.tasks == [] && Enabled(cfg, s, Crash(order)) && InStep(s)
    ensures KeysRegistered(Apply(cfg, s, Crash(order))) <==> KeysOwned(s)
  {
    var s' := Apply(cfg, s, Crash(order));
    assert ListsLiveMessages(s'.mem.pending, s.mem) by { RestartListsLive(cfg, s, order); }
    forall msg | LiveMessage(s.mem, msg) && msg.key.Some?
      ensures Registered(s'.mem.dedup, msg) <==> Owns(s, msg, msg.key.value)
    {
      LiveRegisteredExactly(cfg, s, order, msg, msg.key.value);
    }
    RecoveredLetters(s);
    LettersRegisteredExactly(cfg, s, order);
    RegisteredPending(s.mem, s');
  }

  /** After any clean run with no call in flight, a restart leaves every recovered key registered to its
      holder if and only if every live message owns its key and no two dead letters are under one. */
  lemma RestartKeepsKeysExactly(cfg: Config, steps: seq<Step>, order: seq<MessageId>)
    requires ValidRun(cfg, INITIAL, steps) && Clean(cfg, steps) && Run(cfg, INITIAL, steps).tasks == []
    requires Enabled(cfg, Run(cfg, INITIAL, steps), Crash(order))
    ensures KeysRegistered(Apply(cfg, Run(cfg, INITIAL, steps), Crash(order))) <==> KeysOwned(Run(cfg, INITIAL, steps))
  {
    RunKeepsInStep(cfg, steps);
    RestartRegisteredExactly(cfg, Run(cfg, INITIAL, steps), order);
  }

  /** What a recovered group lists and its dead letters are all it holds. */
  lemma RegisteredPending(mem: Memory, s': System)
    requires s'.tasks == [] && s'.mem.leased == map[] && s'.mem.delayed == []
    requires ListsLiveMessages(s'.mem.pending, mem)
    ensures KeysRegistered(s') <==>
      (forall msg :: LiveMessage(mem, msg) ==> Registered(s'.mem.dedup, msg))
      && (forall id :: id in s'.mem.dlq ==> Registered(s'.mem.dedup, s'.mem.dlq[id].msg))
  {
    forall i | 0 <= i < |s'.mem.pending| ensures LiveMessage(mem, s'.mem.pending[i].msg) {
    }
  }

  /** After the restart an enqueue under a live message's key creates another holder if and only if no
      dead letter is under the key and an Ack of an earlier holder followed its latest Enqueue. */
  lemma ReopenedKeyExactly(cfg: Config, steps: seq<Step>, order: seq<MessageId>, msg: Message, retry: Message)
    requires ValidRun(cfg, INITIAL, steps) && Clean(cfg, steps) && Run(cfg, INITIAL, steps).tasks == []
    requires Enabled(cfg, Run(cfg, INITIAL, steps), Crash(order)) && LiveMessage(Run(cfg, INITIAL, steps).mem, msg)
    requires msg.key.Some? && retry.key == msg.key && retry.id !in Run(cfg, INITIAL, steps).created
    ensures var s := Run(cfg, INITIAL, steps);
      var s' := Apply(cfg, Apply(cfg, s, Crash(order)), BeginEnqueue(retry));
      && (retry.id in s'.created <==> !LetterUnder(s.mem.dlq, msg.key.value) && AckedSince(s.main, msg.key.value))
      && exists i :: 0 <= i < |s'.mem.pending| && s'.mem.pending[i].msg == msg
  {
    var s := Run(cfg, INITIAL, steps);
    RunKeepsInStep(cfg, steps);
    RestartRegistry(cfg, s, order, msg.key.value);
    RestartListsLive(cfg, s, order);
    LiveIsEnqueued(s, msg, msg.key.value);
  }

  /** A live message was enqueued under its key. */
  lemma LiveIsEnqueued(s: System, msg: Message, key: IdempotencyKey)
    requires Exact(s) && s.tasks == [] && LiveMessage(s.mem, msg) && msg.key == Some(key)
    ensures LatestHolder(s.main, key).Some?
  {
    LiveMeansHeld(s, msg);
    assert LiveCopies(s, msg.id) == LoggedCopies(s, msg.id);
    var at := SumWitness(ReplayMain(s.main).pending, PendingOf(msg.id));
    var p := ReplayedIsEnqueued(s.main, at);
    assert Genuine(s.created, s.main[p].msg);
    EnqueuedHasHolder(s.main, p, key);
  }

  lemma {:induction false} EnqueuedHasHolder(main: seq<MainRecord>, p: nat, key: IdempotencyKey)
    requires p < |main| && main[p].Enqueue? && main[p].msg.key == Some(key)
    ensures LatestHolder(main, key).Some?
  {
    if p < |main| - 1 { EnqueuedHasHolder(main[..|main| - 1], p, key); }
  }

  // ---- Groups whose restarts have forgotten nothing ----------------------------------------------

  /** No live message's key was acknowledged away after it was last enqueued. */
  ghost predicate KeysSettled(s: System) {
    forall msg :: LiveMessage(s.mem, msg) && msg.key.Some? ==> !AckedSince(s.main, msg.key.value)
  }

  /** While every held key is registered, that is all a restart asks of a group between calls. */
  lemma SettledMeansOwned(s: System)
    requires s.tasks == [] && Keyed(s)
    ensures KeysOwned(s) <==> KeysSettled(s)
  {
    forall x, y, key | Under(s.mem.dlq, x, key) && Under(s.mem.dlq, y, key) ensures x == y {
      assert Registered(s.mem.dedup, s.mem.dlq[x].msg) && Registered(s.mem.dedup, s.mem.dlq[y].msg);
    }
    forall msg | LiveMessage(s.mem, msg) && msg.key.Some?
      ensures Owns(s, msg, msg.key.value) <==> !AckedSince(s.main, msg.key.value)
    {
      LiveIsRegistered(s, msg);
      assert KeyKept(s, msg.key.value);
      forall id | id in s.mem.dlq ensures s.mem.dlq[id].msg.key != msg.key {
        LiveKeyHasNoLetter(s, msg, msg.key.value, id);
      }
    }
  }

  lemma KeyedIsInStep(s: System)
    requires Keyed(s)
    ensures InStep(s)
  {
    forall key ensures KeyReplays(s.main, key) { assert KeyKept(s, key); }
  }

  lemma RestartKeyKept(cfg: Config, s: System, order: seq<MessageId>, key: IdempotencyKey)
    requires s.tasks == [] && Enabled(cfg, s, Crash(order)) && Keyed(s)
    ensures KeyKept(Apply(cfg, s, Crash(order)), key)
  {
    KeyedIsInStep(s);
    assert KeyKept(s, key);
    RestartRegistry(cfg, s, order, key);
    if LetterUnder(s.mem.dlq, key) {
      var id := Apply(cfg, s, Crash(order)).mem.dedup[key];
      assert Registered(s.mem.dedup, s.mem.dlq[id].msg);
      TraceableIsWellKeyed(s);
    }
  }

  lemma RestartKeepsKeyed(cfg: Config, s: System, order: seq<MessageId>)
    requires s.tasks == [] && Enabled(cfg, s, Crash(order)) && Keyed(s)
    ensures KeysRegistered(Apply(cfg, s, Crash(order))) <==> KeysSettled(s)
    ensures KeysSettled(s) ==> Keyed(Apply(cfg, s, Crash(order)))
  {
    var s' := Apply(cfg, s, Crash(order));
    assert Exact(s') by { RestartKeepsExact(cfg, s, order); }
    forall key ensures KeyKept(s', key) { RestartKeyKept(cfg, s, order, key); }
    KeyedIsInStep(s);
    RestartRegisteredExactly(cfg, s, order);
    SettledMeansOwned(s);
  }

  // ---- Every clean run ---------------------------------------------------------------------------

  /** Every restart of the run finds the keys settled. */
  ghost predicate Orderly(cfg: Config, steps: seq<Step>)
    requires ValidRun(cfg, INITIAL, steps)
  {
    |steps| == 0 ||
    (var front := steps[..|steps| - 1];
     Orderly(cfg, front) && (steps[|steps| - 1].Crash? ==> KeysSettled(Run(cfg, INITIAL, front))))
  }

  /** At every moment of the run every held key is registered to its holder. */
  ghost predicate AlwaysRegistered(cfg: Config, steps: seq<Step>)
    requires ValidRun(cfg, INITIAL, steps)
  {
    KeysRegistered(Run(cfg, INITIAL, steps)) && (|steps| == 0 || AlwaysRegistered(cfg, steps[..|steps| - 1]))
  }

  lemma InitialIsKeyed()
    ensures Keyed(INITIAL)
  {
    assert Exact(INITIAL) by {
      assert forall id :: InPlace(INITIAL, id) && LiveCopies(INITIAL, id) == LoggedCopies(INITIAL, id);
      assert forall id :: LettersCounted(INITIAL, id);
    }
    forall key ensures KeyKept(INITIAL, key) {
    }
  }

  /** In a clean run, however its calls interleave and however often it restarts, every held key is
      registered to its holder at all times exactly when every restart finds the keys settled. */
  lemma {:induction false} RegisteredExactly(cfg: Config, steps: seq<Step>)
    requires ValidRun(cfg, INITIAL, steps) && Clean(cfg, steps)
    ensures AlwaysRegistered(cfg, steps) <==> Orderly(cfg, steps)
    ensures Orderly(cfg, steps) ==> Keyed(Run(cfg, INITIAL, steps))
    decreases |steps|
  {
    if |steps| == 0 {
      InitialIsKeyed();
    } else {
      var front, last := steps[..|steps| - 1], steps[|steps| - 1];
      RegisteredExactly(cfg, front);
      if Orderly(cfg, front) {
        if last.Crash? {
          RestartKeepsKeyed(cfg, Run(cfg, INITIAL, front), last.order);
        } else {
          StepKeepsKeyed(cfg, Run(cfg, INITIAL, front), last);
        }
      }
    }
  }

  /** Then at most one place in the group holds a given key, restarts included. */
  lemma OrderlyKeysAreUnique(cfg: Config, steps: seq<Step>, p: Location, q: Location, key: IdempotencyKey)
    requires ValidRun(cfg, INITIAL, steps) && Clean(cfg, steps) && Orderly(cfg, steps)
    requires HoldsKey(Run(cfg, INITIAL, steps), p, key) && HoldsKey(Run(cfg, INITIAL, steps), q, key)
    ensures p == q
  {
    var s := Run(cfg, INITIAL, steps);
    assert Keyed(s) by { RegisteredExactly(cfg, steps); }
    PlaceOfHolder(s, p, key);
    PlaceOfHolder(s, q, key);
    var id := s.mem.dedup[key];
    assert InPlace(s, id);
    if p != q { TwoLocationsCount(s, p, q, id); }
  }

  lemma PlaceOfHolder(s: System, p: Location, key: IdempotencyKey)
    requires AllTraceable(s) && KeysRegistered(s) && HoldsKey(s, p, key)
    ensures key in s.mem.dedup && At(s, p, s.mem.dedup[key])
  {
    if p.InTask? { assert TaskRegistered(s.mem.dedup, s.tasks[p.at]); }
  }

  // ---- Crashes -----------------------------------------------------------------------------------

  /** `id` was created under `key`. */
  ghost predicate CreatedUnder(s: System, id: MessageId, key: IdempotencyKey) {
    id in s.created && s.created[id].id == id && s.created[id].key == Some(key)
  }

  /** Two messages that were never one hold `key` after a restart on the logs of `s`. */
  ghost predicate Splits(s: System, mem: Memory, key: IdempotencyKey) {
    exists x, y :: x != y && RecoveredUnder(s, mem, x, key) && RecoveredUnder(s, mem, y, key)
  }

  ghost predicate RecoveredUnder(s: System, mem: Memory, id: MessageId, key: IdempotencyKey) {
    CreatedUnder(s, id, key) && Recovered(mem, s.created[id])
  }

  /** Memory or an unfinished call still stands for `id` in one of the logs. */
  ghost predicate Answered(s: System, id: MessageId) {
    LiveCopies(s, id) > 0 || id in s.mem.dlq || Sum(s.tasks, LetterTask(id)) > 0
  }

  /** `id` is gone from memory, its Ack or its DeadLettered record still to be written. */
  ghost predicate Lingers(s: System, id: MessageId) {
    id in s.gone && (Acking(id) in s.tasks || Burying(id) in s.tasks)
  }

  /** A message that is gone while a record of its leaving is outstanding, and another under the
      same key that the logs answer for. */
  ghost predicate Overlaps(s: System, key: IdempotencyKey) {
    exists x, y :: x != y && CreatedUnder(s, x, key) && CreatedUnder(s, y, key) && Lingers(s, x) && Answered(s, y)
  }

  lemma AnsweredIsRecovered(s: System, order: seq<MessageId>, id: MessageId)
    requires Exact(s) && id in s.created && s.created[id].id == id
    ensures Recovered(Recover(s.main, s.dlqLog, order), s.created[id]) <==> Answered(s, id)
  {
    assert LiveCopies(s, id) == LoggedCopies(s, id) && LettersCounted(s, id);
    RecoveredIsReplayed(s, order, id);
  }

  /** What is gone and still answered for lingers, and the other way round. */
  lemma GoneLingers(s: System, id: MessageId)
    requires Exact(s) && id in s.gone
    ensures Answered(s, id) <==> Lingers(s, id)
  {
    assert InPlace(s, id);
    TaskKinds(s.tasks, id);
    TaskIsCounted(s.tasks, Acking(id));
    TaskIsCounted(s.tasks, Burying(id));
  }

  /** Of the messages created under a key, at most one is alive. */
  lemma OneAliveHolder(s: System, x: MessageId, y: MessageId, key: IdempotencyKey)
    requires Exact(s) && KeysRegistered(s) && CreatedUnder(s, x, key) && CreatedUnder(s, y, key)
    requires Alive(s, x) && Alive(s, y)
    ensures x == y
  {
    AliveIsRegistered(s, x);
    AliveIsRegistered(s, y);
  }

  lemma AliveIsRegistered(s: System, id: MessageId)
    requires Exact(s) && KeysRegistered(s) && Alive(s, id)
    ensures Registered(s.mem.dedup, s.created[id])
  {
    assert InPlace(s, id);
    var p := SomeLocation(s, id);
    HolderIsRegistered(s, p, id);
  }

  lemma SplitExactly(s: System, order: seq<MessageId>, key: IdempotencyKey)
    requires Exact(s) && KeysRegistered(s)
    ensures Splits(s, Recover(s.main, s.dlqLog, order), key) <==> Overlaps(s, key)
  {
    var mem := Recover(s.main, s.dlqLog, order);
    if x, y :| x != y && RecoveredUnder(s, mem, x, key) && RecoveredUnder(s, mem, y, key) {
      AnsweredIsRecovered(s, order, x);
      AnsweredIsRecovered(s, order, y);
      if x in s.gone {
        GoneLingers(s, x);
        assert Overlaps(s, key);
      } else if y in s.gone {
        GoneLingers(s, y);
        assert Overlaps(s, key);
      } else {
        OneAliveHolder(s, x, y, key);
      }
    }
    if x, y :| x != y && CreatedUnder(s, x, key) && CreatedUnder(s, y, key) && Lingers(s, x) && Answered(s, y) {
      GoneLingers(s, x);
      AnsweredIsRecovered(s, order, x);
      AnsweredIsRecovered(s, order, y);
      assert RecoveredUnder(s, mem, x, key) && RecoveredUnder(s, mem, y, key);
    }
  }

  /** A crash at any step recovers two messages under one key if and only if one of them is gone from
      memory with its Ack or DeadLettered record outstanding while the logs answer for the other. */
  lemma CrashSplitsKeyExactly(cfg: Config, steps: seq<Step>, order: seq<MessageId>, key: IdempotencyKey)
    requires ValidRun(cfg, INITIAL, steps) && Clean(cfg, steps) && Orderly(cfg, steps)
    requires Enabled(cfg, Run(cfg, INITIAL, steps), Crash(order))
    ensures var s := Run(cfg, INITIAL, steps);
      Splits(s, Apply(cfg, s, Crash(order)).mem, key) <==> Overlaps(s, key)
  {
    var s := Run(cfg, INITIAL, steps);
    assert Exact(s) && KeysRegistered(s) by { RegisteredExactly(cfg, steps); }
    SplitExactly(s, order, key);
  }

  /** Orderly or not, after any clean run a crash recovers two messages under one key if and only if
      memory or the calls in flight stand for two of them in the logs. */
  lemma CrashRecoversTwoExactly(cfg: Config, steps: seq<Step>, order: seq<MessageId>, key: IdempotencyKey)
    requires ValidRun(cfg, INITIAL, steps) && Clean(cfg, steps)
    requires Enabled(cfg, Run(cfg, INITIAL, steps), Crash(order))
    ensures var s := Run(cfg, INITIAL, steps);
      Splits(s, Apply(cfg, s, Crash(order)).mem, key)
      <==> exists x, y :: x != y && AnsweredUnder(s, x, key) && AnsweredUnder(s, y, key)
  {
    var s := Run(cfg, INITIAL, steps);
    assert Exact(s) by { RunKeepsExact(cfg, steps); }
    var mem := Recover(s.main, s.dlqLog, order);
    forall id ensures RecoveredUnder(s, mem, id, key) <==> AnsweredUnder(s, id, key) {
      if CreatedUnder(s, id, key) { AnsweredIsRecovered(s, order, id); }
    }
  }

  ghost predicate AnsweredUnder(s: System, id: MessageId, key: IdempotencyKey) {
    CreatedUnder(s, id, key) && Answered(s, id)
  }
}
