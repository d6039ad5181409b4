/** The order in which recovery lists messages, for any main log at all: by the Enqueue
    record each surviving entry came from, oldest copies of an id being removed first. */
module Ordering {
  import opened Wrappers
  import opened Counting
  import opened Messages
  import opened Steps
  import opened Census
  import opened Durability
  import opened Partition
  import opened Recovery

  /** The positions in the log of the Enqueue records that replay keeps. */
  function Survivors(log: seq<MainRecord>): seq<nat> {
    if |log| == 0 then []
    else
      var front := log[..|log| - 1];
      var kept := Survivors(front);
      match log[|log| - 1]
      case Enqueue(_) => kept + [|log| - 1]
      case Ack(id) => Strike(kept, Position(ReplayMain(front).pending, id))
      case DeadLettered(id) => Strike(kept, Position(ReplayMain(front).pending, id))
      case Checkpoint(_, _) => kept
  }

  function Strike(kept: seq<nat>, at: Option<nat>): seq<nat> {
    if at.Some? && at.value < |kept| then Without(kept, at.value) else kept
  }

  /** Whether position `p` of the log enqueued `id`. */
  predicate EnqueuedAt(log: seq<MainRecord>, p: int, id: MessageId) {
    0 <= p < |log| && log[p].Enqueue? && log[p].msg.id == id
  }

  /** `kept[i]` is where entry `i` was enqueued; the positions come in log order; and an Enqueue
      later than a kept one of the same id is kept too. */
  ghost predicate Tracks(log: seq<MainRecord>, kept: seq<nat>, pending: seq<Pending>) {
    && |kept| == |pending|
    && (forall i :: 0 <= i < |kept| ==> kept[i] < |log| && log[kept[i]] == Enqueue(pending[i].msg))
    && (forall i, j :: 0 <= i < j < |kept| ==> kept[i] < kept[j])
    && (forall i: nat, p: nat :: LaterCopy(log, kept, pending, i, p) ==> p in kept)
  }

  /** `p` enqueued the id of entry `i` again, later than entry `i` was enqueued. */
  predicate LaterCopy(log: seq<MainRecord>, kept: seq<nat>, pending: seq<Pending>, i: nat, p: nat) {
    i < |kept| && i < |pending| && kept[i] < p && EnqueuedAt(log, p, pending[i].msg.id)
  }

  lemma TrackAppend(log: seq<MainRecord>, record: MainRecord, kept: seq<nat>, pending: seq<Pending>)
    requires Tracks(log, kept, pending)
    ensures !record.Enqueue? ==> Tracks(log + [record], kept, pending)
    ensures record.Enqueue? ==> Tracks(log + [record], kept + [|log|], pending + [Pending(record.msg, 0, None)])
  {
    var log' := log + [record];
    assert forall p :: 0 <= p < |log| ==> log'[p] == log[p];
    if record.Enqueue? {
      var kept', pending' := kept + [|log|], pending + [Pending(record.msg, 0, None)];
      forall i: nat, p: nat | LaterCopy(log', kept', pending', i, p) ensures p in kept' {
        if p < |log| { assert LaterCopy(log, kept, pending, i, p); } else { assert kept'[|kept|] == p; }
      }
    } else {
      forall i: nat, p: nat | LaterCopy(log', kept, pending, i, p) ensures p in kept {
        assert LaterCopy(log, kept, pending, i, p);
      }
    }
  }

  /** Striking the first entry of an id keeps the tracking: it is that id's oldest copy. */
  lemma TrackStrike(log: seq<MainRecord>, kept: seq<nat>, pending: seq<Pending>, id: MessageId)
    requires Tracks(log, kept, pending)
    ensures Tracks(log, Strike(kept, Position(pending, id)), RemoveFirst(pending, id))
  {
    match Position(pending, id)
    case None =>
    case Some(k) =>
      var kept', pending' := Without(kept, k), Without(pending, k);
      assert RemoveFirst(pending, id) == pending';
      WithoutAt(kept, k);
      WithoutAt(pending, k);
      forall i: nat, p: nat | LaterCopy(log, kept', pending', i, p) ensures p in kept' {
        LaterSurvives(log, kept, pending, id, k, i, p);
      }
  }

  lemma LaterSurvives(
    log: seq<MainRecord>, kept: seq<nat>, pending: seq<Pending>, id: MessageId, k: nat, i: nat, p: nat)
    requires Tracks(log, kept, pending) && Position(pending, id) == Some(k)
    requires LaterCopy(log, Without(kept, k), Without(pending, k), i, p)
    ensures p in Without(kept, k)
  {
    var i' := LaterUnstruck(log, kept, pending, k, i, p);
    var q :| 0 <= q < |kept| && kept[q] == p;
    StrikeLater(log, kept, pending, id, k, i', q);
    StaysWithout(kept, k, q);
  }

  /** Which entry it was that has a later copy, before one was struck. */
  lemma LaterUnstruck(
    log: seq<MainRecord>, kept: seq<nat>, pending: seq<Pending>, k: nat, i: nat, p: nat) returns (i': nat)
    requires |kept| == |pending| && k < |kept| && LaterCopy(log, Without(kept, k), Without(pending, k), i, p)
    ensures i' != k && LaterCopy(log, kept, pending, i', p)
  {
    WithoutAt(kept, k);
    WithoutAt(pending, k);
    i' := if i < k then i else i + 1;
  }

  lemma StaysWithout(kept: seq<nat>, k: nat, q: nat)
    requires k < |kept| && q < |kept| && q != k
    ensures kept[q] in Without(kept, k)
  {
    WithoutAt(kept, k);
    assert Without(kept, k)[if q < k then q else q - 1] == kept[q];
  }

  lemma WithoutAt<A>(s: seq<A>, k: nat)
    requires k < |s|
    ensures |Without(s, k)| == |s| - 1
    ensures forall i :: 0 <= i < |s| - 1 ==> Without(s, k)[i] == s[if i < k then i else i + 1]
  {
  }

  /** A later copy of a surviving entry is not the entry being struck. */
  lemma StrikeLater(log: seq<MainRecord>, kept: seq<nat>, pending: seq<Pending>, id: MessageId, k: nat, i: nat, q: nat)
    requires Tracks(log, kept, pending) && Position(pending, id) == Some(k)
    requires i < |kept| && i != k && q < |kept| && LaterCopy(log, kept, pending, i, kept[q])
    ensures q != k
  {
    assert i < q;
  }

  lemma {:induction false} SurvivorsTrack(log: seq<MainRecord>)
    ensures Tracks(log, Survivors(log), ReplayMain(log).pending)
  {
    if |log| > 0 {
      var front := log[..|log| - 1];
      var record := log[|log| - 1];
      var kept, pending := Survivors(front), ReplayMain(front).pending;
      SurvivorsTrack(front);
      assert log == front + [record];
      TrackAppend(front, record, kept, pending);
      match record
      case Ack(id) => TrackStrike(log, kept, pending, id);
      case DeadLettered(id) => TrackStrike(log, kept, pending, id);
      case _ =>
    }
  }

  /** The position of the latest Enqueue of `id`. */
  function LatestEnqueue(log: seq<MainRecord>, id: MessageId): Option<nat> {
    if |log| == 0 then None
    else if EnqueuedAt(log, |log| - 1, id) then Some(|log| - 1)
    else LatestEnqueue(log[..|log| - 1], id)
  }

  lemma {:induction false} LatestIsLast(log: seq<MainRecord>, id: MessageId, p: nat)
    requires EnqueuedAt(log, p, id) && forall q :: p < q < |log| ==> !EnqueuedAt(log, q, id)
    ensures LatestEnqueue(log, id) == Some(p)
    decreases |log|
  {
    if p < |log| - 1 {
      var front := log[..|log| - 1];
      assert forall q :: EnqueuedAt(front, q, id) ==> EnqueuedAt(log, q, id);
      LatestIsLast(front, id, p);
    }
  }

  /** A later Enqueue of a surviving id survives as an entry of its own. */
  lemma LaterEntry(log: seq<MainRecord>, kept: seq<nat>, pending: seq<Pending>, i: nat, q: nat) returns (j: nat)
    requires Tracks(log, kept, pending) && LaterCopy(log, kept, pending, i, q)
    ensures j < |pending| && j != i && pending[j].msg.id == pending[i].msg.id
  {
    j :| 0 <= j < |kept| && kept[j] == q;
  }

  /** An id with a single surviving copy survives as its latest Enqueue. */
  lemma SoleSurvivorIsLatest(log: seq<MainRecord>, i: nat)
    requires i < |ReplayMain(log).pending|
    requires forall j :: 0 <= j < |ReplayMain(log).pending| && j != i ==>
      ReplayMain(log).pending[j].msg.id != ReplayMain(log).pending[i].msg.id
    ensures i < |Survivors(log)| && LatestEnqueue(log, ReplayMain(log).pending[i].msg.id) == Some(Survivors(log)[i])
  {
    SurvivorsTrack(log);
    var id := ReplayMain(log).pending[i].msg.id;
    forall q | Survivors(log)[i] < q < |log|
      ensures !EnqueuedAt(log, q, id)
    {
      if EnqueuedAt(log, q, id) {
        var j := LaterEntry(log, Survivors(log), ReplayMain(log).pending, i, q);
      }
    }
    LatestIsLast(log, id, Survivors(log)[i]);
  }

  /** After a clean run, recovered messages are listed in the order of their latest Enqueue. */
  lemma RecoveryOrder(cfg: Config, steps: seq<Step>, order: seq<MessageId>, i: nat, j: nat)
    requires ValidRun(cfg, INITIAL, steps) && Clean(cfg, steps)
    requires Run(cfg, INITIAL, steps).tasks == []
    requires Enabled(cfg, Run(cfg, INITIAL, steps), Crash(order))
    requires i < j < |Apply(cfg, Run(cfg, INITIAL, steps), Crash(order)).mem.pending|
    ensures var s := Run(cfg, INITIAL, steps);
      var back := Apply(cfg, s, Crash(order)).mem.pending;
      var first := LatestEnqueue(s.main, back[i].msg.id);
      var second := LatestEnqueue(s.main, back[j].msg.id);
      first.Some? && second.Some? && first.value < second.value
  {
    var s := Run(cfg, INITIAL, steps);
    var r := ReplayMain(s.main);
    RestartRecoversExactly(cfg, steps, order);
    ApplyCheckpointsKeepsMessages(r.pending, r.checkpoints);
    var back := Apply(cfg, s, Crash(order)).mem.pending;
    assert forall k :: 0 <= k < |back| ==> back[k].msg == r.pending[k].msg;
    SurvivorsTrack(s.main);
    SoleSurvivorIsLatest(s.main, i);
    SoleSurvivorIsLatest(s.main, j);
  }
}
