/** The data of the delivery engine: messages in each stage of their life, the records of
    the two write-ahead logs, and what replaying those logs rebuilds. */
module Messages {
  import opened Wrappers

  /** Ids and tokens are opaque values that are only compared and kept fresh. */
  type MessageId = nat
  type LeaseToken = nat
  /** Instants and durations, in seconds. */
  type Instant = real
  type IdempotencyKey(==, !new)
  /** The message body. */
  type Payload(==, !new)
  /** A JSON value: a checkpoint or a stream chunk. */
  type Value(==, !new)

  /** What a message is, wherever it is: its identity never changes. */
  datatype Message = Message(id: MessageId, key: Option<IdempotencyKey>, item: Payload)

  datatype Pending = Pending(msg: Message, deliveryCount: nat, checkpoint: Option<Value>)

  datatype StreamChunk = StreamChunk(sequence: nat, data: Value, isFinal: bool)

  datatype Leased = Leased(
    msg: Message, token: LeaseToken, expiresAt: Instant, deliveryCount: nat,
    checkpoint: Option<Value>, stream: seq<StreamChunk>)

  datatype Delayed = Delayed(
    msg: Message, deliveryCount: nat, availableAt: Instant, checkpoint: Option<Value>)

  datatype Classification = Transient | Permanent

  datatype TriageVerdict = TriageVerdict(classification: Classification, reason: string, triagedAt: Instant)

  datatype DeadLetter = DeadLetter(
    msg: Message, deliveryCount: nat, lastError: Option<string>, deadLetteredAt: Instant,
    checkpoint: Option<Value>, triage: Option<TriageVerdict>)

  /** Everything a group holds in memory, its dead-letter map included. */
  datatype Memory = Memory(
    pending: seq<Pending>,
    leased: map<MessageId, Leased>,
    delayed: seq<Delayed>,
    dedup: map<IdempotencyKey, MessageId>,
    dlq: map<MessageId, DeadLetter>,
    nextToken: LeaseToken)

  /** One record of the main log. */
  datatype MainRecord =
    | Enqueue(msg: Message)
    | Ack(id: MessageId)
    | DeadLettered(id: MessageId)
    | Checkpoint(id: MessageId, state: Value)

  /** One record of the dead-letter log. */
  datatype DlqRecord =
    | Record(letter: DeadLetter)
    | Remove(id: MessageId)
    | Annotate(id: MessageId, verdict: TriageVerdict)

  // ---- Main-log replay ---------------------------------------------------------------

  /** The accumulators of the replay loop. */
  datatype Replay = Replay(
    pending: seq<Pending>,
    dedup: map<IdempotencyKey, MessageId>,
    checkpoints: map<MessageId, Value>)

  const EMPTY_REPLAY := Replay([], map[], map[])

  /** The first position in `pending` holding `id`. */
  function Position(pending: seq<Pending>, id: MessageId): (at: Option<nat>)
    ensures at.Some? ==> at.value < |pending| && pending[at.value].msg.id == id
    ensures at.Some? ==> forall j :: 0 <= j < at.value ==> pending[j].msg.id != id
    ensures at.None? ==> forall j :: 0 <= j < |pending| ==> pending[j].msg.id != id
  {
    if |pending| == 0 then None
    else if pending[0].msg.id == id then Some(0)
    else
      match Position(pending[1..], id)
      case None => None
      case Some(i) => Some(i + 1)
  }

  /** `pending` without the first entry for `id`. */
  function RemoveFirst(pending: seq<Pending>, id: MessageId): seq<Pending> {
    match Position(pending, id)
    case None => pending
    case Some(i) => pending[..i] + pending[i + 1..]
  }

  function ReleaseKey(dedup: map<IdempotencyKey, MessageId>, key: Option<IdempotencyKey>)
    : map<IdempotencyKey, MessageId>
  {
    if key.Some? then dedup - {key.value} else dedup
  }

  function RegisterKey(dedup: map<IdempotencyKey, MessageId>, key: Option<IdempotencyKey>, id: MessageId)
    : map<IdempotencyKey, MessageId>
  {
    if key.Some? then dedup[key.value := id] else dedup
  }

  function ReplayRecord(r: Replay, record: MainRecord): Replay {
    match record
    case Enqueue(msg) =>
      r.(dedup := RegisterKey(r.dedup, msg.key, msg.id), pending := r.pending + [Pending(msg, 0, None)])
    case Ack(id) =>
      (match Position(r.pending, id)
       case None => r
       case Some(i) =>
         r.(pending := RemoveFirst(r.pending, id), dedup := ReleaseKey(r.dedup, r.pending[i].msg.key)))
    case DeadLettered(id) =>
      r.(pending := RemoveFirst(r.pending, id))
    case Checkpoint(id, state) =>
      r.(checkpoints := r.checkpoints[id := state])
  }

  function ReplayMain(log: seq<MainRecord>): Replay {
    if |log| == 0 then EMPTY_REPLAY
    else ReplayRecord(ReplayMain(log[..|log| - 1]), log[|log| - 1])
  }

  /** Hands each entry the latest checkpoint of its id; a checkpoint is handed out once. */
  function ApplyCheckpoints(pending: seq<Pending>, checkpoints: map<MessageId, Value>): seq<Pending> {
    if |pending| == 0 then []
    else
      var id := pending[0].msg.id;
      var state := if id in checkpoints then Some(checkpoints[id]) else None;
      [pending[0].(checkpoint := state)] + ApplyCheckpoints(pending[1..], checkpoints - {id})
  }

  // ---- Dead-letter log replay --------------------------------------------------------

  function ReplayDlqRecord(entries: map<MessageId, DeadLetter>, record: DlqRecord): map<MessageId, DeadLetter> {
    match record
    case Record(letter) => entries[letter.msg.id := letter]
    case Remove(id) => entries - {id}
    case Annotate(id, verdict) =>
      if id in entries then entries[id := entries[id].(triage := Some(verdict))] else entries
  }

  function ReplayDlq(log: seq<DlqRecord>): map<MessageId, DeadLetter> {
    if |log| == 0 then map[]
    else ReplayDlqRecord(ReplayDlq(log[..|log| - 1]), log[|log| - 1])
  }

  // ---- Recovery ----------------------------------------------------------------------

  /** `order` lists every element of `ids` exactly once: one way to iterate a hash map. */
  ghost predicate Enumerates(order: seq<MessageId>, ids: set<MessageId>) {
    && (forall i :: 0 <= i < |order| ==> order[i] in ids)
    && (forall id :: id in ids ==> id in order)
    && (forall i, j :: 0 <= i < j < |order| ==> order[i] != order[j])
  }

  /** Registers the keys of the dead letters named by `order`, later ones winning. */
  function SeedKeys(dedup: map<IdempotencyKey, MessageId>, dlq: map<MessageId, DeadLetter>, order: seq<MessageId>)
    : map<IdempotencyKey, MessageId>
  {
    if |order| == 0 then dedup
    else
      var rest := SeedKeys(dedup, dlq, order[..|order| - 1]);
      var id := order[|order| - 1];
      if id in dlq then RegisterKey(rest, dlq[id].msg.key, dlq[id].msg.id) else rest
  }

  /** The memory of a group opened on the two logs. */
  function Recover(main: seq<MainRecord>, dlqLog: seq<DlqRecord>, order: seq<MessageId>): Memory {
    var r := ReplayMain(main);
    var dlq := ReplayDlq(dlqLog);
    Memory(ApplyCheckpoints(r.pending, r.checkpoints), map[], [], SeedKeys(r.dedup, dlq, order), dlq, 0)
  }

  // ---- Facts about replay ------------------------------------------------------------

  lemma ReplayMainAppend(log: seq<MainRecord>, record: MainRecord)
    ensures ReplayMain(log + [record]) == ReplayRecord(ReplayMain(log), record)
  {
    assert (log + [record])[..|log|] == log;
  }

  lemma ReplayDlqAppend(log: seq<DlqRecord>, record: DlqRecord)
    ensures ReplayDlq(log + [record]) == ReplayDlqRecord(ReplayDlq(log), record)
  {
    assert (log + [record])[..|log|] == log;
  }

  /** Handing out checkpoints changes nothing else about an entry. */
  lemma {:induction false} ApplyCheckpointsKeepsMessages(pending: seq<Pending>, checkpoints: map<MessageId, Value>)
    ensures |ApplyCheckpoints(pending, checkpoints)| == |pending|
    ensures forall i :: 0 <= i < |pending| ==>
      ApplyCheckpoints(pending, checkpoints)[i].(checkpoint := pending[i].checkpoint) == pending[i]
  {
    if |pending| > 0 {
      var id := pending[0].msg.id;
      ApplyCheckpointsKeepsMessages(pending[1..], checkpoints - {id});
      var rest := ApplyCheckpoints(pending[1..], checkpoints - {id});
      forall i | 0 <= i < |pending|
        ensures ApplyCheckpoints(pending, checkpoints)[i].(checkpoint := pending[i].checkpoint) == pending[i]
      {
        if i > 0 { assert ApplyCheckpoints(pending, checkpoints)[i] == rest[i - 1]; }
      }
    }
  }

  /** A handed-out checkpoint is the one the map held for that id. */
  lemma {:induction false} ApplyCheckpointsHandsOut(pending: seq<Pending>, checkpoints: map<MessageId, Value>, i: nat)
    requires i < |pending|
    ensures |ApplyCheckpoints(pending, checkpoints)| == |pending|
    ensures var given := ApplyCheckpoints(pending, checkpoints)[i].checkpoint;
      given.Some? ==> pending[i].msg.id in checkpoints && given.value == checkpoints[pending[i].msg.id]
    ensures (forall j :: 0 <= j < i ==> pending[j].msg.id != pending[i].msg.id) ==>
      (ApplyCheckpoints(pending, checkpoints)[i].checkpoint
       == if pending[i].msg.id in checkpoints then Some(checkpoints[pending[i].msg.id]) else None)
    ensures (exists j :: 0 <= j < i && pending[j].msg.id == pending[i].msg.id) ==>
      ApplyCheckpoints(pending, checkpoints)[i].checkpoint == None
  {
    ApplyCheckpointsKeepsMessages(pending, checkpoints);
    if i > 0 {
      var id := pending[0].msg.id;
      ApplyCheckpointsHandsOut(pending[1..], checkpoints - {id}, i - 1);
      assert ApplyCheckpoints(pending, checkpoints)[i] == ApplyCheckpoints(pending[1..], checkpoints - {id})[i - 1];
      assert forall j :: 0 <= j < i - 1 ==> pending[1..][j] == pending[j + 1];
    }
  }
}
