/** The Raft log store: a map from index to entry, the id of the last purged entry and the
    vote. Its reference is a journal: the purged id and the sequence of entries after it. */
module RaftLog {
  import opened Wrappers

  /** Who belongs to the cluster; its contents belong to the consensus library. */
  type Membership(==, !new)
  type Vote(==, !new)

  datatype LogId = LogId(term: nat, node: nat, index: nat)

  datatype Payload = Blank | Normal(key: string, value: string) | Change(membership: Membership)

  datatype Entry = Entry(id: LogId, payload: Payload)

  /** The derived order on log ids: leader first, then index. */
  predicate Less(a: LogId, b: LogId) {
    || a.term < b.term
    || (a.term == b.term && a.node < b.node)
    || (a.term == b.term && a.node == b.node && a.index < b.index)
  }

  /** The leader's term decides first, then its node; ids of one leader compare by index. */
  lemma LogIdOrder(a: LogId, b: LogId)
    ensures a.term < b.term ==> Less(a, b) && !Less(b, a)
    ensures a.term == b.term && a.node < b.node ==> Less(a, b) && !Less(b, a)
    ensures a.term == b.term && a.node == b.node ==> (Less(a, b) <==> a.index < b.index)
  {
  }

  // ---- The store -----------------------------------------------------------------------------

  datatype Store = Store(log: map<nat, Entry>, purged: Option<LogId>)

  datatype Op = Append(entries: seq<Entry>) | Truncate(id: LogId) | Purge(id: LogId)

  function Insert(log: map<nat, Entry>, entries: seq<Entry>): map<nat, Entry> {
    if |entries| == 0 then log
    else
      var last := entries[|entries| - 1];
      Insert(log, entries[..|entries| - 1])[last.id.index := last]
  }

  function Below(log: map<nat, Entry>, index: nat): map<nat, Entry> {
    map i | i in log && i < index :: log[i]
  }

  function Above(log: map<nat, Entry>, index: nat): map<nat, Entry> {
    map i | i in log && i > index :: log[i]
  }

  function Perform(s: Store, op: Op): Store {
    match op
    case Append(entries) => s.(log := Insert(s.log, entries))
    case Truncate(id) => s.(log := Below(s.log, id.index))
    case Purge(id) =>
      Store(Above(s.log, id.index),
            if s.purged.None? || Less(s.purged.value, id) then Some(id) else s.purged)
  }

  /** The entries with an index in `[lo, hi)`, in index order. */
  function Range(log: map<nat, Entry>, lo: nat, hi: nat): seq<Entry>
    decreases hi
  {
    if hi <= lo then []
    else Range(log, lo, hi - 1) + (if hi - 1 in log then [log[hi - 1]] else [])
  }

  /** `id` is what the store reports as its last log id. */
  predicate IsLastId(s: Store, id: Option<LogId>) {
    if |s.log| == 0 then id == s.purged
    else exists i :: i in s.log && id == Some(s.log[i].id) && forall j :: j in s.log ==> j <= i
  }

  // ---- The journal ---------------------------------------------------------------------------

  /** The entries after the purged id, in order. */
  datatype Journal = Journal(purged: Option<LogId>, tail: seq<Entry>)

  /** The index the entry after `last` has. */
  function Next(last: Option<LogId>): nat {
    if last.None? then 0 else last.value.index + 1
  }

  function Start(j: Journal): nat {
    Next(j.purged)
  }

  function LastId(j: Journal): Option<LogId> {
    if |j.tail| == 0 then j.purged else Some(j.tail[|j.tail| - 1].id)
  }

  /** The id at `i` is above the one before it, `last` standing before the first. */
  predicate Climbs(last: Option<LogId>, entries: seq<Entry>, i: nat)
    requires i < |entries|
  {
    if i > 0 then Less(entries[i - 1].id, entries[i].id)
    else last.Some? ==> Less(last.value, entries[0].id)
  }

  /** Entries follow `last` without a hole, each id above the one before. */
  predicate Follows(last: Option<LogId>, entries: seq<Entry>) {
    && (forall i :: 0 <= i < |entries| ==> entries[i].id.index == Next(last) + i)
    && (forall i :: 0 <= i < |entries| ==> Climbs(last, entries, i))
  }

  predicate WellFormed(j: Journal) {
    Follows(j.purged, j.tail)
  }

  /** What the consensus library promises of its calls: appends continue the log, truncation
      stays above what was purged, and a purge names an entry of the log, an id past its end, or
      one already covered. */
  predicate Allowed(j: Journal, op: Op) {
    match op
    case Append(entries) => Follows(LastId(j), entries)
    case Truncate(id) => id.index >= Start(j)
    case Purge(id) =>
      if id.index < Start(j) then !Less(j.purged.value, id)
      else
        && (j.purged.Some? ==> Less(j.purged.value, id))
        && (id.index + 1 < Start(j) + |j.tail| ==> j.tail[id.index - Start(j)].id == id)
  }

  function Record(j: Journal, op: Op): (k: Journal)
    requires Allowed(j, op)
  {
    match op
    case Append(entries) => j.(tail := j.tail + entries)
    case Truncate(id) => if id.index - Start(j) < |j.tail| then j.(tail := j.tail[..id.index - Start(j)]) else j
    case Purge(id) =>
      if id.index < Start(j) then j
      else if id.index - Start(j) < |j.tail| then Journal(Some(id), j.tail[id.index - Start(j) + 1..])
      else Journal(Some(id), [])
  }

  /** Index `i` is present exactly when it lies in the tail, and then with the tail's entry. */
  predicate At(log: map<nat, Entry>, start: nat, tail: seq<Entry>, i: nat) {
    if start <= i < start + |tail| then i in log && log[i] == tail[i - start] else i !in log
  }

  /** The store holds exactly the journal's entries, each under its own index. */
  ghost predicate Holds(s: Store, j: Journal) {
    && s.purged == j.purged
    && (forall i: nat :: At(s.log, Start(j), j.tail, i))
  }

  /** Inserting a run of consecutive entries sets exactly their indices. */
  lemma {:induction false} InsertConsecutive(log: map<nat, Entry>, entries: seq<Entry>, from: nat, i: nat)
    requires forall k :: 0 <= k < |entries| ==> entries[k].id.index == from + k
    ensures i in Insert(log, entries) <==> i in log || from <= i < from + |entries|
    ensures from <= i < from + |entries| ==> i in Insert(log, entries) && Insert(log, entries)[i] == entries[i - from]
    ensures i in log && !(from <= i < from + |entries|) ==>
      i in Insert(log, entries) && Insert(log, entries)[i] == log[i]
    decreases |entries|
  {
    if |entries| > 0 {
      InsertConsecutive(log, entries[..|entries| - 1], from, i);
    }
  }

  /** Whatever is inserted, an index holds the last entry inserted under it, and otherwise what it held. */
  lemma {:induction false} LastInsertedWins(log: map<nat, Entry>, entries: seq<Entry>, n: nat, i: nat)
    requires n <= |entries| && forall k :: n <= k < |entries| ==> entries[k].id.index != i
    ensures n > 0 && entries[n - 1].id.index == i ==>
      i in Insert(log, entries) && Insert(log, entries)[i] == entries[n - 1]
    ensures n == 0 ==>
      (i in Insert(log, entries) <==> i in log) && (i in log ==> Insert(log, entries)[i] == log[i])
    decreases |entries|
  {
    if n < |entries| {
      LastInsertedWins(log, entries[..|entries| - 1], n, i);
    }
  }

  lemma FollowsConcat(last: Option<LogId>, a: seq<Entry>, b: seq<Entry>)
    requires Follows(last, a) && Follows(LastId(Journal(last, a)), b)
    ensures Follows(last, a + b)
  {
    forall i | 0 <= i < |a + b|
      ensures Climbs(last, a + b, i)
    {
      if i < |a| {
        assert Climbs(last, a, i);
      } else {
        assert Climbs(LastId(Journal(last, a)), b, i - |a|);
      }
    }
  }

  lemma FollowsSlice(last: Option<LogId>, entries: seq<Entry>, before: Option<LogId>, lo: nat, hi: nat)
    requires Follows(last, entries) && lo <= hi <= |entries|
    requires before == if lo == 0 then last else Some(entries[lo - 1].id)
    ensures Follows(before, entries[lo..hi])
  {
    forall i | 0 <= i < hi - lo
      ensures Climbs(before, entries[lo..hi], i)
    {
      assert Climbs(last, entries, lo + i);
    }
  }

  lemma AppendRefines(s: Store, j: Journal, entries: seq<Entry>)
    requires Holds(s, j) && WellFormed(j) && Follows(LastId(j), entries)
    ensures WellFormed(Record(j, Append(entries)))
    ensures Holds(Perform(s, Append(entries)), Record(j, Append(entries)))
  {
    var after, k := Perform(s, Append(entries)), Record(j, Append(entries));
    FollowsConcat(j.purged, j.tail, entries);
    forall i: nat
      ensures At(after.log, Start(k), k.tail, i)
    {
      assert At(s.log, Start(j), j.tail, i);
      InsertConsecutive(s.log, entries, Start(j) + |j.tail|, i);
    }
  }

  lemma TruncateRefines(s: Store, j: Journal, id: LogId)
    requires Holds(s, j) && WellFormed(j) && Allowed(j, Truncate(id))
    ensures WellFormed(Record(j, Truncate(id)))
    ensures Holds(Perform(s, Truncate(id)), Record(j, Truncate(id)))
  {
    var k := Record(j, Truncate(id));
    FollowsSlice(j.purged, j.tail, j.purged, 0, |k.tail|);
    assert k.tail == j.tail[0..|k.tail|];
    forall i: nat
      ensures At(Below(s.log, id.index), Start(j), k.tail, i)
    {
      assert At(s.log, Start(j), j.tail, i);
    }
  }

  lemma PurgeRefines(s: Store, j: Journal, id: LogId)
    requires Holds(s, j) && WellFormed(j) && Allowed(j, Purge(id))
    ensures WellFormed(Record(j, Purge(id)))
    ensures Holds(Perform(s, Purge(id)), Record(j, Purge(id)))
  {
    var k := Record(j, Purge(id));
    if |k.tail| > 0 && id.index >= Start(j) {
      var cut := id.index - Start(j) + 1;
      FollowsSlice(j.purged, j.tail, Some(id), cut, |j.tail|);
      assert k.tail == j.tail[cut..|j.tail|];
    }
    forall i: nat
      ensures At(Above(s.log, id.index), Start(k), k.tail, i)
    {
      assert At(s.log, Start(j), j.tail, i);
      PurgeAt(s.log, j, id, i);
    }
  }

  lemma PurgeAt(log: map<nat, Entry>, j: Journal, id: LogId, i: nat)
    requires Allowed(j, Purge(id)) && At(log, Start(j), j.tail, i)
    ensures At(Above(log, id.index), Start(Record(j, Purge(id))), Record(j, Purge(id)).tail, i)
  {
  }

  /** One operation the library may call keeps the store hole-free above the purged id, and
      does to the journal what it is meant to do. */
  lemma StepRefines(s: Store, j: Journal, op: Op)
    requires Holds(s, j) && WellFormed(j) && Allowed(j, op)
    ensures WellFormed(Record(j, op)) && Holds(Perform(s, op), Record(j, op))
  {
    match op
    case Append(entries) => AppendRefines(s, j, entries);
    case Truncate(id) => TruncateRefines(s, j, id);
    case Purge(id) => PurgeRefines(s, j, id);
  }

  ghost predicate AllowedRun(j: Journal, ops: seq<Op>)
    decreases |ops|
  {
    |ops| == 0 || (Allowed(j, ops[0]) && AllowedRun(Record(j, ops[0]), ops[1..]))
  }

  ghost function RecordAll(j: Journal, ops: seq<Op>): Journal
    requires AllowedRun(j, ops)
    decreases |ops|
  {
    if |ops| == 0 then j else RecordAll(Record(j, ops[0]), ops[1..])
  }

  function PerformAll(s: Store, ops: seq<Op>): Store
    decreases |ops|
  {
    if |ops| == 0 then s else PerformAll(Perform(s, ops[0]), ops[1..])
  }

  /** Over any mix of appends, truncations and purges the library may call, the store stays
      contiguous above the purged id and holds what the journal says. */
  lemma {:induction false} RunRefines(s: Store, j: Journal, ops: seq<Op>)
    requires Holds(s, j) && WellFormed(j) && AllowedRun(j, ops)
    ensures WellFormed(RecordAll(j, ops)) && Holds(PerformAll(s, ops), RecordAll(j, ops))
    decreases |ops|
  {
    if |ops| > 0 {
      StepRefines(s, j, ops[0]);
      RunRefines(Perform(s, ops[0]), Record(j, ops[0]), ops[1..]);
    }
  }

  /** The id a store reports as its last is the journal's true last id, and no other. */
  lemma ReportsTrueLast(s: Store, j: Journal, id: Option<LogId>)
    requires Holds(s, j)
    ensures IsLastId(s, id) <==> id == LastId(j)
  {
    forall i: nat
      ensures i in s.log <==> Start(j) <= i < Start(j) + |j.tail|
    {
      assert At(s.log, Start(j), j.tail, i);
    }
    if |j.tail| > 0 {
      var last := Start(j) + |j.tail| - 1;
      assert At(s.log, Start(j), j.tail, last);
      assert last in s.log.Keys && |s.log.Keys| == |s.log|;
    } else {
      assert s.log == map[];
    }
  }

  /** `get_log_state` after any allowed run on a fresh store. */
  lemma FreshRunReportsTrueLast(ops: seq<Op>, id: Option<LogId>)
    requires AllowedRun(Journal(None, []), ops)
    ensures var j := RecordAll(Journal(None, []), ops);
      var s := PerformAll(Store(map[], None), ops);
      WellFormed(j) && s.purged == j.purged && (IsLastId(s, id) <==> id == LastId(j))
  {
    RunRefines(Store(map[], None), Journal(None, []), ops);
    ReportsTrueLast(PerformAll(Store(map[], None), ops), RecordAll(Journal(None, []), ops), id);
  }

  /** Reading a range above the purged id gives that slice of the journal. */
  lemma {:induction false} RangeIsSlice(s: Store, j: Journal, lo: nat, hi: nat)
    requires Holds(s, j) && Start(j) <= lo <= hi <= Start(j) + |j.tail|
    ensures Range(s.log, lo, hi) == j.tail[lo - Start(j)..hi - Start(j)]
    decreases hi
  {
    if hi > lo {
      RangeIsSlice(s, j, lo, hi - 1);
      assert At(s.log, Start(j), j.tail, hi - 1);
      assert j.tail[lo - Start(j)..hi - Start(j)]
          == j.tail[lo - Start(j)..hi - 1 - Start(j)] + [j.tail[hi - 1 - Start(j)]];
    }
  }

  /** Whatever is called, allowed or not, the purged id never goes back. */
  lemma {:induction false} PurgedNeverGoesBack(s: Store, ops: seq<Op>)
    requires s.purged.Some?
    ensures var p := PerformAll(s, ops).purged; p.Some? && !Less(p.value, s.purged.value)
    decreases |ops|
  {
    if |ops| > 0 {
      PurgedNeverGoesBack(Perform(s, ops[0]), ops[1..]);
    }
  }

  // ---- The object ----------------------------------------------------------------------------

  class LogStore {
    var log: map<nat, Entry>
    var vote: Option<Vote>
    var lastPurged: Option<LogId>

    function State(): Store
      reads this
    {
      Store(log, lastPurged)
    }

    constructor ()
      ensures State() == Store(map[], None) && vote == None
    {
      log, vote, lastPurged := map[], None, None;
    }

    method AppendEntries(entries: seq<Entry>)
      modifies this
      ensures State() == Perform(old(State()), Append(entries)) && vote == old(vote)
      ensures log == Insert(old(log), entries) && lastPurged == old(lastPurged)
    {
      var i := 0;
      while i < |entries|
        invariant 0 <= i <= |entries|
        invariant log == Insert(old(log), entries[..i])
        invariant lastPurged == old(lastPurged) && vote == old(vote)
      {
        assert entries[..i + 1][..i] == entries[..i];
        log := log[entries[i].id.index := entries[i]];
        i := i + 1;
      }
      assert entries[..i] == entries;
    }

    method TruncateFrom(id: LogId)
      modifies this
      ensures State() == Perform(old(State()), Truncate(id)) && vote == old(vote)
      ensures log == (map i | i in old(log) && i < id.index :: old(log)[i]) && lastPurged == old(lastPurged)
    {
      log := map i | i in log && i < id.index :: log[i];
    }

    method PurgeUpTo(id: LogId)
      modifies this
      ensures State() == Perform(old(State()), Purge(id)) && vote == old(vote)
      ensures log == map i | i in old(log) && i > id.index :: old(log)[i]
      ensures lastPurged == if old(lastPurged).None? || Less(old(lastPurged).value, id) then Some(id)
                            else old(lastPurged)
    {
      if lastPurged.None? || Less(lastPurged.value, id) {
        lastPurged := Some(id);
      }
      log := map i | i in log && i >= id.index + 1 :: log[i];
      assert log == Above(old(log), id.index);
    }

    method GetLogState() returns (purged: Option<LogId>, last: Option<LogId>)
      ensures purged == lastPurged && IsLastId(State(), last)
    {
      purged := lastPurged;
      if |log| == 0 {
        last := lastPurged;
      } else {
        var todo := log.Keys;
        var best :| best in log;
        todo := todo - {best};
        while todo != {}
          invariant todo <= log.Keys && best in log && best !in todo
          invariant forall j :: j in log && j !in todo ==> j <= best
        {
          var k :| k in todo;
          best := if k > best then k else best;
          todo := todo - {k};
        }
        last := Some(log[best].id);
      }
    }

    method TryGetLogEntries(lo: nat, hi: nat) returns (entries: seq<Entry>)
      ensures entries == Range(log, lo, hi)
    {
      entries := [];
      if hi <= lo {
        return;
      }
      var i := lo;
      while i < hi
        invariant lo <= i <= hi
        invariant entries == Range(log, lo, i)
      {
        if i in log {
          entries := entries + [log[i]];
        }
        i := i + 1;
      }
    }

    method SaveVote(v: Vote)
      modifies this
      ensures vote == Some(v) && State() == old(State())
    {
      vote := Some(v);
    }
  }
}
