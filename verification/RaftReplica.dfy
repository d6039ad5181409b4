/** The replicated key-value state machine, its snapshots, and what compaction of the log may
    not change. */
module RaftReplica {
  import opened Wrappers
  import opened RaftLog
  import opened WriteAheadLog

  datatype StoredMembership = StoredMembership(id: Option<LogId>, membership: Membership)

  datatype Data = Data(lastApplied: Option<LogId>, lastMembership: StoredMembership, kv: map<string, string>)

  datatype Response = Response(value: Option<string>)

  datatype SnapshotId = SnapshotId(at: Option<LogId>, serial: nat)

  datatype SnapshotMeta = SnapshotMeta(lastLogId: Option<LogId>, lastMembership: StoredMembership, id: SnapshotId)

  datatype Snapshot = Snapshot(meta: SnapshotMeta, bytes: seq<Byte>)

  /** How the key-value map becomes bytes and back. */
  datatype KvCodec = KvCodec(encode: map<string, string> -> seq<Byte>, decode: seq<Byte> -> Option<map<string, string>>)

  ghost predicate RoundTrips(c: KvCodec) {
    forall kv :: c.decode(c.encode(kv)) == Some(kv)
  }

  /** A new state machine; `nobody` is the library's default membership. */
  function Empty(nobody: Membership): Data {
    Data(None, StoredMembership(None, nobody), map[])
  }

  // ---- Applying entries ----------------------------------------------------------------------

  function ApplyEntry(d: Data, e: Entry): Data {
    var d := d.(lastApplied := Some(e.id));
    match e.payload
    case Blank => d
    case Normal(key, value) => d.(kv := d.kv[key := value])
    case Change(membership) => d.(lastMembership := StoredMembership(Some(e.id), membership))
  }

  function Answer(e: Entry): Response {
    Response(if e.payload.Normal? then Some(e.payload.value) else None)
  }

  function ApplyAll(d: Data, entries: seq<Entry>): Data {
    if |entries| == 0 then d
    else ApplyEntry(ApplyAll(d, entries[..|entries| - 1]), entries[|entries| - 1])
  }

  function Answers(entries: seq<Entry>): (r: seq<Response>)
    ensures |r| == |entries|
    ensures forall i :: 0 <= i < |r| ==> r[i] == Answer(entries[i])
  {
    seq(|entries|, i requires 0 <= i < |entries| => Answer(entries[i]))
  }

  lemma {:induction false} ApplyConcat(d: Data, a: seq<Entry>, b: seq<Entry>)
    ensures ApplyAll(d, a + b) == ApplyAll(ApplyAll(d, a), b)
    decreases |b|
  {
    if |b| == 0 {
      assert a + b == a;
    } else {
      ApplyConcat(d, a, b[..|b| - 1]);
      assert (a + b)[..|a + b| - 1] == a + b[..|b| - 1];
    }
  }

  predicate Sets(e: Entry, key: string) {
    e.payload.Normal? && e.payload.key == key
  }

  /** A key holds the value of the last entry that set it, and otherwise what it held before. */
  lemma {:induction false} KeyHoldsLastWrite(d: Data, entries: seq<Entry>, key: string, i: nat)
    requires i <= |entries| && forall k :: i <= k < |entries| ==> !Sets(entries[k], key)
    ensures i > 0 && Sets(entries[i - 1], key) ==>
      key in ApplyAll(d, entries).kv && ApplyAll(d, entries).kv[key] == entries[i - 1].payload.value
    ensures i == 0 ==>
      && (key in ApplyAll(d, entries).kv <==> key in d.kv)
      && (key in d.kv ==> ApplyAll(d, entries).kv[key] == d.kv[key])
    decreases |entries|
  {
    if i < |entries| {
      assert !Sets(entries[|entries| - 1], key);
      KeyHoldsLastWrite(d, entries[..|entries| - 1], key, i);
    }
  }

  /** The membership is the one the last membership entry brought, stamped with its id. */
  lemma {:induction false} MembershipIsLastChange(d: Data, entries: seq<Entry>, i: nat)
    requires i <= |entries| && forall k :: i <= k < |entries| ==> !entries[k].payload.Change?
    ensures i > 0 && entries[i - 1].payload.Change? ==>
      ApplyAll(d, entries).lastMembership
      == StoredMembership(Some(entries[i - 1].id), entries[i - 1].payload.membership)
    ensures i == 0 ==> ApplyAll(d, entries).lastMembership == d.lastMembership
    decreases |entries|
  {
    if i < |entries| {
      assert !entries[|entries| - 1].payload.Change?;
      MembershipIsLastChange(d, entries[..|entries| - 1], i);
    }
  }

  /** The position is the last entry's id. */
  lemma AppliedIsLastId(d: Data, entries: seq<Entry>)
    ensures ApplyAll(d, entries).lastApplied
         == if |entries| == 0 then d.lastApplied else Some(entries[|entries| - 1].id)
  {
  }

  // ---- Snapshots -----------------------------------------------------------------------------

  function BuildSnapshot(c: KvCodec, d: Data, serial: nat): Snapshot {
    Snapshot(SnapshotMeta(d.lastApplied, d.lastMembership, SnapshotId(d.lastApplied, serial)), c.encode(d.kv))
  }

  function InstallSnapshot(c: KvCodec, snapshot: Snapshot): Result<Data> {
    var kv := c.decode(snapshot.bytes);
    if kv.None? then InvalidData
    else Ok(Data(snapshot.meta.lastLogId, snapshot.meta.lastMembership, kv.value))
  }

  /** Installing what was built gives the state it was built from. */
  lemma SnapshotRoundTrip(c: KvCodec, d: Data, serial: nat)
    requires RoundTrips(c)
    ensures InstallSnapshot(c, BuildSnapshot(c, d, serial)) == Ok(d)
  {
    assert c.decode(c.encode(d.kv)) == Some(d.kv);
  }

  // ---- A replica -----------------------------------------------------------------------------

  datatype Node = Node(store: Store, data: Data)

  datatype Event = Log(op: Op) | Apply(upTo: nat) | Install(snapshot: Snapshot)

  /** The number of entries of the whole log the data reflects. */
  function Applied(d: Data): nat {
    Next(d.lastApplied)
  }

  function React(c: KvCodec, n: Node, event: Event): Node {
    match event
    case Log(op) => n.(store := Perform(n.store, op))
    case Apply(upTo) => n.(data := ApplyAll(n.data, Range(n.store.log, Applied(n.data), upTo)))
    case Install(snapshot) =>
      var installed := InstallSnapshot(c, snapshot);
      if installed.Ok? then n.(data := installed.value) else n
  }

  /** The state after the first `count` entries of the whole log. */
  function StateAt(whole: seq<Entry>, nobody: Membership, count: nat): Data
    requires count <= |whole|
  {
    ApplyAll(Empty(nobody), whole[..count])
  }

  /** `snapshot` was built from the state at some point no earlier than `applied`. */
  ghost predicate Genuine(c: KvCodec, whole: seq<Entry>, nobody: Membership, applied: nat, snapshot: Snapshot) {
    exists count, serial ::
      applied <= count <= |whole| && snapshot == BuildSnapshot(c, StateAt(whole, nobody, count), serial)
  }

  /** What the consensus library promises of one event: log calls keep the log's contract and
      purge only what is applied; only committed entries, present in the log, are applied; a
      snapshot was built by a replica of the same log and is not older than the data. */
  ghost predicate Permitted(c: KvCodec, whole: seq<Entry>, nobody: Membership, n: Node, j: Journal, event: Event) {
    match event
    case Log(op) => Allowed(j, op) && (op.Purge? ==> op.id.index < Applied(n.data))
    case Apply(upTo) =>
      && Start(j) <= Applied(n.data) <= upTo <= |whole| && upTo <= Start(j) + |j.tail|
      && j.tail[Applied(n.data) - Start(j)..upTo - Start(j)] == whole[Applied(n.data)..upTo]
    case Install(snapshot) => Genuine(c, whole, nobody, Applied(n.data), snapshot)
  }

  function JournalAfter(j: Journal, event: Event): Journal
    requires event.Log? ==> Allowed(j, event.op)
  {
    if event.Log? then Record(j, event.op) else j
  }

  /** The replica's data is the state of the whole log at its own position, and no entry it has
      yet to apply was purged. */
  ghost predicate Healthy(whole: seq<Entry>, nobody: Membership, n: Node, j: Journal) {
    && Holds(n.store, j) && WellFormed(j)
    && Start(j) <= Applied(n.data) <= |whole|
    && n.data == StateAt(whole, nobody, Applied(n.data))
  }

  lemma StateAtPosition(whole: seq<Entry>, nobody: Membership, count: nat)
    requires Follows(None, whole) && count <= |whole|
    ensures Applied(StateAt(whole, nobody, count)) == count
  {
    if count > 0 {
      assert whole[..count][count - 1] == whole[count - 1];
    }
  }

  lemma StateExtends(whole: seq<Entry>, nobody: Membership, lo: nat, hi: nat)
    requires lo <= hi <= |whole|
    ensures ApplyAll(StateAt(whole, nobody, lo), whole[lo..hi]) == StateAt(whole, nobody, hi)
  {
    assert whole[..hi] == whole[..lo] + whole[lo..hi];
    ApplyConcat(Empty(nobody), whole[..lo], whole[lo..hi]);
  }

  lemma ApplyKeepsHealthy(whole: seq<Entry>, nobody: Membership, n: Node, j: Journal, c: KvCodec, upTo: nat)
    requires Follows(None, whole) && Healthy(whole, nobody, n, j)
    requires Permitted(c, whole, nobody, n, j, Apply(upTo))
    ensures Healthy(whole, nobody, React(c, n, Apply(upTo)), j)
  {
    var applied := Applied(n.data);
    assert Range(n.store.log, applied, upTo) == whole[applied..upTo] by {
      RangeIsSlice(n.store, j, applied, upTo);
    }
    StateExtends(whole, nobody, applied, upTo);
    StateAtPosition(whole, nobody, upTo);
    assert React(c, n, Apply(upTo)) == Node(n.store, StateAt(whole, nobody, upTo));
  }

  lemma AnswersSlice(whole: seq<Entry>, lo: nat, hi: nat)
    requires lo <= hi <= |whole|
    ensures Answers(whole[lo..hi]) == Answers(whole)[lo..hi]
  {
  }

  /** A batch of applied entries is answered as it would be anywhere else. */
  lemma ApplyAnswers(whole: seq<Entry>, nobody: Membership, n: Node, j: Journal, c: KvCodec, upTo: nat)
    requires Healthy(whole, nobody, n, j) && Permitted(c, whole, nobody, n, j, Apply(upTo))
    ensures Answers(Range(n.store.log, Applied(n.data), upTo)) == Answers(whole)[Applied(n.data)..upTo]
  {
    var applied := Applied(n.data);
    assert Range(n.store.log, applied, upTo) == whole[applied..upTo] by {
      RangeIsSlice(n.store, j, applied, upTo);
    }
    AnswersSlice(whole, applied, upTo);
  }

  /** Entry by entry, a write is answered with the value its key holds right after it, anything else with none. */
  lemma AnswerIsWhatTheKeyHolds(whole: seq<Entry>, nobody: Membership, i: nat)
    requires i < |whole|
    ensures match whole[i].payload
      case Normal(key, _) =>
        var kv := StateAt(whole, nobody, i + 1).kv;
        key in kv && Answers(whole)[i].value == Some(kv[key])
      case _ => Answers(whole)[i].value == None
  {
    if whole[i].payload.Normal? {
      assert whole[..i + 1][i] == whole[i];
      KeyHoldsLastWrite(Empty(nobody), whole[..i + 1], whole[i].payload.key, i + 1);
    }
  }

  lemma StepKeepsHealthy(c: KvCodec, whole: seq<Entry>, nobody: Membership, n: Node, j: Journal, event: Event)
    requires RoundTrips(c) && Follows(None, whole) && Healthy(whole, nobody, n, j)
    requires Permitted(c, whole, nobody, n, j, event)
    ensures Healthy(whole, nobody, React(c, n, event), JournalAfter(j, event))
  {
    match event
    case Log(op) => StepRefines(n.store, j, op);
    case Apply(upTo) => ApplyKeepsHealthy(whole, nobody, n, j, c, upTo);
    case Install(snapshot) =>
      var count, serial :| Applied(n.data) <= count <= |whole|
        && snapshot == BuildSnapshot(c, StateAt(whole, nobody, count), serial);
      SnapshotRoundTrip(c, StateAt(whole, nobody, count), serial);
      StateAtPosition(whole, nobody, count);
  }

  ghost predicate PermittedRun(
    c: KvCodec, whole: seq<Entry>, nobody: Membership, n: Node, j: Journal, events: seq<Event>)
    decreases |events|
  {
    |events| == 0
    || (&& Permitted(c, whole, nobody, n, j, events[0])
        && PermittedRun(c, whole, nobody, React(c, n, events[0]), JournalAfter(j, events[0]), events[1..]))
  }

  function ReactAll(c: KvCodec, n: Node, events: seq<Event>): Node
    decreases |events|
  {
    if |events| == 0 then n else ReactAll(c, React(c, n, events[0]), events[1..])
  }

  ghost function JournalAfterAll(
    c: KvCodec, whole: seq<Entry>, nobody: Membership, n: Node, j: Journal, events: seq<Event>): Journal
    requires PermittedRun(c, whole, nobody, n, j, events)
    decreases |events|
  {
    if |events| == 0 then j
    else JournalAfterAll(c, whole, nobody, React(c, n, events[0]), JournalAfter(j, events[0]), events[1..])
  }

  /** Whatever mix of appends, truncations, purges, applications and snapshot installs a replica
      goes through, its data is the state of the whole log at its position, and its store holds
      the journal. */
  lemma {:induction false} RunKeepsHealthy(
    c: KvCodec, whole: seq<Entry>, nobody: Membership, n: Node, j: Journal, events: seq<Event>)
    requires RoundTrips(c) && Follows(None, whole) && Healthy(whole, nobody, n, j)
    requires PermittedRun(c, whole, nobody, n, j, events)
    ensures Healthy(whole, nobody, ReactAll(c, n, events), JournalAfterAll(c, whole, nobody, n, j, events))
    decreases |events|
  {
    if |events| > 0 {
      StepKeepsHealthy(c, whole, nobody, n, j, events[0]);
      RunKeepsHealthy(c, whole, nobody, React(c, n, events[0]), JournalAfter(j, events[0]), events[1..]);
    }
  }

  function NewNode(nobody: Membership): Node {
    Node(Store(map[], None), Empty(nobody))
  }

  /** Two replicas of one log, each through its own run of compactions and snapshots, that have
      reached the same position hold the same map, position and membership. */
  lemma ReplicasAgree(c: KvCodec, whole: seq<Entry>, nobody: Membership, a: seq<Event>, b: seq<Event>)
    requires RoundTrips(c) && Follows(None, whole)
    requires PermittedRun(c, whole, nobody, NewNode(nobody), Journal(None, []), a)
    requires PermittedRun(c, whole, nobody, NewNode(nobody), Journal(None, []), b)
    requires Applied(ReactAll(c, NewNode(nobody), a).data) == Applied(ReactAll(c, NewNode(nobody), b).data)
    ensures ReactAll(c, NewNode(nobody), a).data == ReactAll(c, NewNode(nobody), b).data
  {
    assert whole[..0] == [];
    RunKeepsHealthy(c, whole, nobody, NewNode(nobody), Journal(None, []), a);
    RunKeepsHealthy(c, whole, nobody, NewNode(nobody), Journal(None, []), b);
  }

  /** Compaction preserves meaning: snapshot after `count` entries, purge at or below there,
      install anywhere, apply what the store still holds, and the data and the answers to the
      suffix are those of applying the whole log. */
  lemma CompactionPreservesMeaning(
    c: KvCodec, whole: seq<Entry>, nobody: Membership, count: nat, purged: nat, serial: nat, s: Store)
    requires RoundTrips(c) && Follows(None, whole) && purged < count <= |whole|
    requires Holds(s, Journal(None, whole))
    ensures InstallSnapshot(c, BuildSnapshot(c, StateAt(whole, nobody, count), serial))
         == Ok(StateAt(whole, nobody, count))
    ensures Range(Perform(s, Purge(whole[purged].id)).log, count, |whole|) == whole[count..]
    ensures ApplyAll(StateAt(whole, nobody, count), whole[count..]) == ApplyAll(Empty(nobody), whole)
    ensures Answers(whole[count..]) == Answers(whole)[count..]
    ensures forall i :: i in Perform(s, Purge(whole[purged].id)).log ==> i > purged
  {
    SnapshotRoundTrip(c, StateAt(whole, nobody, count), serial);
    PurgeKeepsSuffix(s, whole, purged, count);
    StateExtends(whole, nobody, count, |whole|);
    assert whole[..|whole|] == whole;
  }

  lemma PurgeKeepsSuffix(s: Store, whole: seq<Entry>, purged: nat, count: nat)
    requires Follows(None, whole) && purged < count <= |whole| && Holds(s, Journal(None, whole))
    ensures Range(Perform(s, Purge(whole[purged].id)).log, count, |whole|) == whole[count..]
    ensures forall i :: i in Perform(s, Purge(whole[purged].id)).log ==> i > purged
  {
    var after := Perform(s, Purge(whole[purged].id));
    PurgedJournal(s, whole, purged);
    SuffixRead(after, whole, whole[purged].id, count);
  }

  /** A store that holds the whole log after `last` reads any suffix of it, and has nothing up to `last`. */
  lemma SuffixRead(s: Store, whole: seq<Entry>, last: LogId, count: nat)
    requires last.index < count <= |whole| && Holds(s, Journal(Some(last), whole[last.index + 1..]))
    ensures Range(s.log, count, |whole|) == whole[count..]
    ensures forall i :: i in s.log ==> i > last.index
  {
    var k := Journal(Some(last), whole[last.index + 1..]);
    RangeIsSlice(s, k, count, |whole|);
    assert k.tail[count - Start(k)..|whole| - Start(k)] == whole[count..];
    forall i | i in s.log ensures i > last.index { assert At(s.log, Start(k), k.tail, i); }
  }

  lemma PurgedJournal(s: Store, whole: seq<Entry>, purged: nat)
    requires Follows(None, whole) && purged < |whole| && Holds(s, Journal(None, whole))
    ensures Holds(Perform(s, Purge(whole[purged].id)), Journal(Some(whole[purged].id), whole[purged + 1..]))
    ensures whole[purged].id.index == purged
  {
    StepRefines(s, Journal(None, whole), Purge(whole[purged].id));
  }

  // ---- The object ----------------------------------------------------------------------------

  class StateMachineStore {
    var data: Data
    var currentSnapshot: Option<Snapshot>
    var snapshotIdx: nat

    constructor (nobody: Membership)
      ensures data == Empty(nobody) && currentSnapshot == None && snapshotIdx == 0
    {
      data, currentSnapshot, snapshotIdx := Empty(nobody), None, 0;
    }

    method ApplyEntries(entries: seq<Entry>) returns (responses: seq<Response>)
      modifies this
      ensures data == ApplyAll(old(data), entries) && responses == Answers(entries)
      ensures forall i :: 0 <= i < |entries| && entries[i].payload.Normal? ==>
        var key, kv := entries[i].payload.key, ApplyAll(old(data), entries[..i + 1]).kv;
        key in kv && responses[i].value == Some(kv[key])
      ensures forall i :: 0 <= i < |entries| && !entries[i].payload.Normal? ==> responses[i].value == None
      ensures currentSnapshot == old(currentSnapshot) && snapshotIdx == old(snapshotIdx)
    {
      responses := [];
      var i := 0;
      while i < |entries|
        invariant 0 <= i <= |entries|
        invariant data == ApplyAll(old(data), entries[..i]) && responses == Answers(entries[..i])
        invariant forall j :: 0 <= j < i && entries[j].payload.Normal? ==>
          var key, kv := entries[j].payload.key, ApplyAll(old(data), entries[..j + 1]).kv;
          key in kv && responses[j].value == Some(kv[key])
        invariant forall j :: 0 <= j < i && !entries[j].payload.Normal? ==> responses[j].value == None
        invariant currentSnapshot == old(currentSnapshot) && snapshotIdx == old(snapshotIdx)
      {
        var entry := entries[i];
        assert entries[..i + 1][..i] == entries[..i];
        data := data.(lastApplied := Some(entry.id));
        var response;
        match entry.payload {
          case Blank =>
            response := Response(None);
          case Normal(key, value) =>
            data := data.(kv := data.kv[key := value]);
            response := Response(Some(value));
          case Change(membership) =>
            data := data.(lastMembership := StoredMembership(Some(entry.id), membership));
            response := Response(None);
        }
        responses := responses + [response];
        i := i + 1;
      }
      assert entries[..i] == entries;
    }

    method TakeSnapshot(c: KvCodec) returns (snapshot: Snapshot)
      modifies this
      ensures snapshot == BuildSnapshot(c, old(data), old(snapshotIdx)) && currentSnapshot == Some(snapshot)
      ensures snapshot.bytes == c.encode(data.kv)
      ensures snapshot.meta.lastLogId == data.lastApplied && snapshot.meta.lastMembership == data.lastMembership
      ensures snapshot.meta.id == SnapshotId(data.lastApplied, old(snapshotIdx))
      ensures data == old(data) && snapshotIdx == old(snapshotIdx) + 1
    {
      var bytes := c.encode(data.kv);
      var id := SnapshotId(data.lastApplied, snapshotIdx);
      snapshotIdx := snapshotIdx + 1;
      snapshot := Snapshot(SnapshotMeta(data.lastApplied, data.lastMembership, id), bytes);
      currentSnapshot := Some(snapshot);
    }

    method Adopt(c: KvCodec, snapshot: Snapshot) returns (ok: bool)
      modifies this
      ensures ok == InstallSnapshot(c, snapshot).Ok?
      ensures ok ==> data == InstallSnapshot(c, snapshot).value && currentSnapshot == Some(snapshot)
      ensures ok <==> c.decode(snapshot.bytes).Some?
      ensures ok ==> c.decode(snapshot.bytes) == Some(data.kv) && data.lastApplied == snapshot.meta.lastLogId
      ensures ok ==> data.lastMembership == snapshot.meta.lastMembership
      ensures !ok ==> data == old(data) && currentSnapshot == old(currentSnapshot)
      ensures snapshotIdx == old(snapshotIdx)
    {
      var kv := c.decode(snapshot.bytes);
      if kv.None? {
        return false;
      }
      data := Data(snapshot.meta.lastLogId, snapshot.meta.lastMembership, kv.value);
      currentSnapshot := Some(snapshot);
      ok := true;
    }
  }
}
