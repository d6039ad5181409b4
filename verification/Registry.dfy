/** The key registry a restart rebuilds, against the live one: the rebuilt map is the live map
    plus precisely the keys whose latest Enqueue belongs to a purged message. */
module Registry {
  import opened Wrappers
  import opened Messages
  import opened Steps
  import opened Provenance
  import opened Keys

  /** The message that enqueued `key` last. */
  function LatestHolder(main: seq<MainRecord>, key: IdempotencyKey): Option<MessageId> {
    if |main| == 0 then None
    else
      var last := main[|main| - 1];
      if last.Enqueue? && last.msg.key == Some(key) then Some(last.msg.id)
      else LatestHolder(main[..|main| - 1], key)
  }

  /** Live and replayed registrations of `key` both name its latest holder, and the replayed one
      exists exactly when the live one does or that holder was purged. */
  ghost predicate KeyAccounted(
    main: seq<MainRecord>, dedup: map<IdempotencyKey, MessageId>, purged: set<MessageId>, key: IdempotencyKey)
  {
    var replayed := ReplayMain(main).dedup;
    var latest := LatestHolder(main, key);
    && (key in dedup ==> latest == Some(dedup[key]))
    && (key in replayed ==> latest == Some(replayed[key]))
    && (key in replayed <==> key in dedup || (latest.Some? && latest.value in purged))
  }

  lemma LatestAppend(main: seq<MainRecord>, record: MainRecord, key: IdempotencyKey)
    ensures LatestHolder(main + [record], key)
         == if record.Enqueue? && record.msg.key == Some(key) then Some(record.msg.id) else LatestHolder(main, key)
  {
    assert (main + [record])[..|main|] == main;
  }

  /** The latest holder of a key was created under that key. */
  lemma {:induction false} LatestIsGenuine(created: map<MessageId, Message>, main: seq<MainRecord>, key: IdempotencyKey)
    requires forall i :: 0 <= i < |main| && main[i].Enqueue? ==> Genuine(created, main[i].msg)
    ensures var latest := LatestHolder(main, key);
      latest.Some? ==> latest.value in created && created[latest.value].key == Some(key)
  {
    if |main| > 0 { LatestIsGenuine(created, main[..|main| - 1], key); }
  }

  lemma EnqueueAccounts(
    main: seq<MainRecord>, dedup: map<IdempotencyKey, MessageId>, purged: set<MessageId>, msg: Message,
    key: IdempotencyKey)
    requires KeyAccounted(main, dedup, purged, key)
    ensures KeyAccounted(main + [Enqueue(msg)], RegisterKey(dedup, msg.key, msg.id), purged, key)
  {
    ReplayMainAppend(main, Enqueue(msg));
    LatestAppend(main, Enqueue(msg), key);
  }

  lemma AckAccounts(
    main: seq<MainRecord>, dedup: map<IdempotencyKey, MessageId>, purged: set<MessageId>, msg: Message,
    key: IdempotencyKey)
    requires KeyAccounted(main, dedup, purged, key)
    requires Registered(dedup, msg) && msg.id !in purged
    requires var at := Position(ReplayMain(main).pending, msg.id);
      at.Some? && ReplayMain(main).pending[at.value].msg == msg
    ensures KeyAccounted(main + [Ack(msg.id)], ReleaseKey(dedup, msg.key), purged, key)
  {
    ReplayMainAppend(main, Ack(msg.id));
    LatestAppend(main, Ack(msg.id), key);
  }

  lemma OtherAccounts(
    main: seq<MainRecord>, dedup: map<IdempotencyKey, MessageId>, purged: set<MessageId>, record: MainRecord,
    key: IdempotencyKey)
    requires KeyAccounted(main, dedup, purged, key)
    requires record.DeadLettered? || record.Checkpoint?
    ensures KeyAccounted(main + [record], dedup, purged, key)
  {
    ReplayMainAppend(main, record);
    LatestAppend(main, record, key);
  }

  /** Purging releases the live registration and writes nothing to the main log. */
  lemma PurgeAccounts(
    created: map<MessageId, Message>, main: seq<MainRecord>, dedup: map<IdempotencyKey, MessageId>,
    purged: set<MessageId>, msg: Message, key: IdempotencyKey)
    requires KeyAccounted(main, dedup, purged, key)
    requires Registered(dedup, msg) && Genuine(created, msg)
    requires forall i :: 0 <= i < |main| && main[i].Enqueue? ==> Genuine(created, main[i].msg)
    ensures KeyAccounted(main, ReleaseKey(dedup, msg.key), purged + {msg.id}, key)
  {
    LatestIsGenuine(created, main, key);
  }

  /** Seeding keys that are registered already changes nothing. */
  lemma {:induction false} SeedingIsIdle(
    dedup: map<IdempotencyKey, MessageId>, dlq: map<MessageId, DeadLetter>, order: seq<MessageId>)
    requires forall id :: id in dlq ==> Registered(dedup, dlq[id].msg)
    ensures SeedKeys(dedup, dlq, order) == dedup
  {
    if |order| > 0 {
      SeedingIsIdle(dedup, dlq, order[..|order| - 1]);
      var id := order[|order| - 1];
      if id in dlq { assert Registered(dedup, dlq[id].msg); }
    }
  }

  /** A held key that is accounted for is in the replayed registry under its holder. */
  lemma HeldKeysReplay(
    main: seq<MainRecord>, dedup: map<IdempotencyKey, MessageId>, purged: set<MessageId>, msg: Message)
    requires forall key :: KeyAccounted(main, dedup, purged, key)
    requires Registered(dedup, msg)
    ensures Registered(ReplayMain(main).dedup, msg)
  {
    if msg.key.Some? { assert KeyAccounted(main, dedup, purged, msg.key.value); }
  }
}
