/** The durable priority queue: an unbounded queue, and a log of what entered and that
    something left. */
module PersistentPriorityQueues {
  import opened Wrappers
  import opened PriorityQueues

  datatype Record = Enqueued(item: Item, priority: Priority) | Dequeued

  function OpOf(record: Record): Op {
    match record
    case Enqueued(item, priority) => TryEnqueue(item, priority)
    case Dequeued => TryDequeue
  }

  function Ops(log: seq<Record>): (ops: seq<Op>)
    ensures |ops| == |log| && forall i :: 0 <= i < |log| ==> ops[i] == OpOf(log[i])
  {
    seq(|log|, i requires 0 <= i < |log| => OpOf(log[i]))
  }

  /** The lanes a log leaves behind. */
  function LogLanes(log: seq<Record>): Lanes {
    LaneRun(EmptyLanes(), None, Ops(log)).1
  }

  lemma LogLanesSnoc(log: seq<Record>, record: Record)
    ensures LogLanes(log + [record]) == LaneStep(LogLanes(log), None, OpOf(record)).1
  {
    assert Ops(log + [record])[..|log|] == Ops(log);
  }

  // ---- Serial runs with restarts -------------------------------------------------------------

  datatype Durable = Durable(queue: Queue, log: seq<Record>)

  datatype Call = Enqueue(item: Item, priority: Priority) | Dequeue | Restart

  /** `queue` is what opening `log` can rebuild. */
  ghost predicate Recovers(log: seq<Record>, queue: Queue) {
    exists states, outs :: Runs(states, Ops(log), outs) && states[0] == NewQueue(None) && states[|log|] == queue
  }

  /** One completed call; a dequeue completes only once there is something to take. */
  ghost predicate Completes(d: Durable, call: Call, out: Outcome, after: Durable) {
    match call
    case Enqueue(item, priority) =>
      && Performs(d.queue, TryEnqueue(item, priority), out, after.queue)
      && after.log == d.log + [Enqueued(item, priority)]
    case Dequeue =>
      && |d.queue.heap| > 0 && Performs(d.queue, TryDequeue, out, after.queue)
      && after.log == d.log + [Dequeued]
    case Restart => out == Nothing && Recovers(d.log, after.queue) && after.log == d.log
  }

  ghost predicate Completed(states: seq<Durable>, calls: seq<Call>, outs: seq<Outcome>) {
    && |states| == |calls| + 1 && |outs| == |calls| && states[0] == Durable(NewQueue(None), [])
    && forall i :: 0 <= i < |calls| ==> Completes(states[i], calls[i], outs[i], states[i + 1])
  }

  /** The calls that leave a record, as operations of a queue that never restarts. */
  function Unbroken(calls: seq<Call>): seq<Op> {
    if |calls| == 0 then [] else Unbroken(calls[..|calls| - 1]) + CallOps(calls[|calls| - 1])
  }

  function CallOps(call: Call): (ops: seq<Op>)
    ensures |ops| == if call.Restart? then 0 else 1
  {
    match call
    case Enqueue(item, priority) => [TryEnqueue(item, priority)]
    case Dequeue => [TryDequeue]
    case Restart => []
  }

  function Served(calls: seq<Call>, outs: seq<Outcome>): seq<Outcome>
    requires |outs| == |calls|
    decreases |calls|
  {
    if |calls| == 0 then []
    else
      var n := |calls| - 1;
      Served(calls[..n], outs[..n]) + if calls[n].Restart? then [] else [outs[n]]
  }

  lemma RecoveryRefines(log: seq<Record>, queue: Queue)
    requires Recovers(log, queue)
    ensures Refines(queue, LogLanes(log)) && queue.capacity == None
  {
    var states, outs :| Runs(states, Ops(log), outs) && states[0] == NewQueue(None) && states[|log|] == queue;
    NewQueueIsEmpty(None);
    RunRefines(states, EmptyLanes(), Ops(log), outs);
  }

  lemma CallKeepsLanes(d: Durable, call: Call, out: Outcome, after: Durable)
    requires Refines(d.queue, LogLanes(d.log)) && d.queue.capacity == None && Completes(d, call, out, after)
    ensures Refines(after.queue, LogLanes(after.log)) && after.queue.capacity == None
    ensures forall op :: op in CallOps(call) ==> out == LaneStep(LogLanes(d.log), None, op).0
  {
    match call
    case Enqueue(item, priority) =>
      LogLanesSnoc(d.log, Enqueued(item, priority));
      StepRefines(d.queue, LogLanes(d.log), TryEnqueue(item, priority), out, after.queue);
    case Dequeue =>
      LogLanesSnoc(d.log, Dequeued);
      StepRefines(d.queue, LogLanes(d.log), TryDequeue, out, after.queue);
    case Restart => RecoveryRefines(d.log, after.queue);
  }

  /** The log always rebuilds the lanes the live queue holds. */
  lemma {:induction false} RunKeepsLanes(states: seq<Durable>, calls: seq<Call>, outs: seq<Outcome>)
    requires Completed(states, calls, outs)
    ensures Refines(states[|calls|].queue, LogLanes(states[|calls|].log)) && states[|calls|].queue.capacity == None
    decreases |calls|
  {
    if |calls| == 0 {
      NewQueueIsEmpty(None);
    } else {
      var n := |calls| - 1;
      RunKeepsLanes(states[..|calls|], calls[..n], outs[..n]);
      CallKeepsLanes(states[n], calls[n], outs[n], states[n + 1]);
    }
  }

  lemma {:induction false} LogIsUnbroken(states: seq<Durable>, calls: seq<Call>, outs: seq<Outcome>)
    requires Completed(states, calls, outs)
    ensures Ops(states[|calls|].log) == Unbroken(calls)
    decreases |calls|
  {
    if |calls| > 0 {
      var n := |calls| - 1;
      LogIsUnbroken(states[..|calls|], calls[..n], outs[..n]);
      assert Completes(states[n], calls[n], outs[n], states[n + 1]);
    }
  }

  lemma LaneRunSnoc(ops: seq<Op>, op: Op)
    ensures LaneRun(EmptyLanes(), None, ops + [op]).0
         == LaneRun(EmptyLanes(), None, ops).0 + [LaneStep(LaneRun(EmptyLanes(), None, ops).1, None, op).0]
  {
    assert (ops + [op])[..|ops|] == ops;
  }

  /** However often it restarts between calls, the queue hands out what one that never restarts
      would. */
  lemma {:induction false} RestartsAreInvisible(states: seq<Durable>, calls: seq<Call>, outs: seq<Outcome>)
    requires Completed(states, calls, outs)
    ensures Served(calls, outs) == LaneRun(EmptyLanes(), None, Unbroken(calls)).0
    decreases |calls|
  {
    if |calls| > 0 {
      var n := |calls| - 1;
      assert Completed(states[..|calls|], calls[..n], outs[..n]);
      RestartsAreInvisible(states[..|calls|], calls[..n], outs[..n]);
      LogIsUnbroken(states[..|calls|], calls[..n], outs[..n]);
      RunKeepsLanes(states[..|calls|], calls[..n], outs[..n]);
      CallKeepsLanes(states[n], calls[n], outs[n], states[n + 1]);
      LastCallServes(Unbroken(calls[..n]), Served(calls[..n], outs[..n]), calls[n], outs[n]);
    }
  }

  lemma LastCallServes(before: seq<Op>, served: seq<Outcome>, call: Call, out: Outcome)
    requires served == LaneRun(EmptyLanes(), None, before).0
    requires forall op :: op in CallOps(call) ==> out == LaneStep(LaneRun(EmptyLanes(), None, before).1, None, op).0
    ensures served + (if call.Restart? then [] else [out]) == LaneRun(EmptyLanes(), None, before + CallOps(call)).0
  {
    var last := CallOps(call);
    if call.Restart? {
      assert before + last == before;
    } else {
      assert last[0] in last && last == [last[0]];
      LaneRunSnoc(before, last[0]);
    }
  }

  /** After any serial run, a queue rebuilt from the log answers every further sequence of
      operations exactly as the live one. */
  lemma RecoveredServesSame(states: seq<Durable>, calls: seq<Call>, outs: seq<Outcome>,
                            live: seq<Queue>, rebuilt: seq<Queue>, ops: seq<Op>, a: seq<Outcome>, b: seq<Outcome>)
    requires Completed(states, calls, outs)
    requires Runs(live, ops, a) && live[0] == states[|calls|].queue
    requires Runs(rebuilt, ops, b) && Recovers(states[|calls|].log, rebuilt[0])
    ensures a == b
  {
    RunKeepsLanes(states, calls, outs);
    RecoveryRefines(states[|calls|].log, rebuilt[0]);
    RunRefines(live, LogLanes(states[|calls|].log), ops, a);
    RunRefines(rebuilt, LogLanes(states[|calls|].log), ops, b);
  }

  /** An item popped whose record never reached the log is the first one served after a restart. */
  lemma UnloggedDequeueIsServedAgain(
    d: Durable, out: Outcome, after: Queue, rebuilt: Queue, again: Outcome, last: Queue)
    requires Refines(d.queue, LogLanes(d.log)) && d.queue.capacity == None
    requires Performs(d.queue, TryDequeue, out, after)
    requires Recovers(d.log, rebuilt) && Performs(rebuilt, TryDequeue, again, last)
    ensures again == out
  {
    RecoveryRefines(d.log, rebuilt);
    StepRefines(d.queue, LogLanes(d.log), TryDequeue, out, after);
    StepRefines(rebuilt, LogLanes(d.log), TryDequeue, again, last);
  }

  // ---- The object ----------------------------------------------------------------------------

  /** Replays one record on a queue that holds what the log before it leaves. */
  method Redo(q: PriorityQueue, record: Record, ghost before: seq<Record>)
    requires q.Valid() && q.capacity == None && q.lanes == LogLanes(before)
    modifies q
    ensures q.Valid() && q.lanes == LogLanes(before + [record])
  {
    LogLanesSnoc(before, record);
    match record
    case Enqueued(item, priority) =>
      var _ := q.Offer(item, priority);
    case Dequeued =>
      var _ := q.Poll();
  }

  datatype Taken = Empty | Item(item: PriorityQueues.Item) | Unlogged

  class PersistentPriorityQueue {
    const queue: PriorityQueue
    var log: seq<Record>

    ghost predicate Valid()
      reads this, queue
    {
      queue.Valid() && queue.capacity == None
    }

    /** The log leaves behind what the queue holds. */
    ghost predicate Synced()
      reads this, queue
    {
      queue.lanes == LogLanes(log)
    }

    constructor Open(log: seq<Record>)
      ensures Valid() && Synced() && fresh(queue) && this.log == log
    {
      var q := new PriorityQueue(None);
      var i := 0;
      while i < |log|
        invariant 0 <= i <= |log| && fresh(q)
        invariant q.Valid() && q.capacity == None && q.lanes == LogLanes(log[..i])
      {
        Redo(q, log[i], log[..i]);
        assert log[..i] + [log[i]] == log[..i + 1];
        i := i + 1;
      }
      assert log[..i] == log;
      queue := q;
      this.log := log;
    }

    /** `appended` says whether the log write succeeded. */
    method EnqueueItem(item: Item, priority: Priority, appended: bool)
      requires Valid()
      modifies this, queue
      ensures Valid() && (old(Synced()) ==> Synced())
      ensures log == if appended then old(log) + [Enqueued(item, priority)] else old(log)
      ensures queue.lanes == if appended then LaneStep(old(queue.lanes), None, TryEnqueue(item, priority)).1
                             else old(queue.lanes)
    {
      if !appended {
        return;
      }
      LogLanesSnoc(log, Enqueued(item, priority));
      log := log + [Enqueued(item, priority)];
      var _ := queue.Offer(item, priority);
    }

    /** The pass of a dequeue: nothing to take, an item, or an item taken out of memory whose record
        failed to be written, as `appended` says. */
    method DequeueItem(appended: bool) returns (outcome: Taken)
      requires Valid()
      modifies this, queue
      ensures Valid() && (old(Synced()) && !outcome.Unlogged? ==> Synced())
      ensures log == if outcome.Item? then old(log) + [Dequeued] else old(log)
      ensures queue.lanes == LaneStep(old(queue.lanes), None, TryDequeue).1
      ensures match LaneStep(old(queue.lanes), None, TryDequeue).0
              case Popped(item) => outcome == if appended then Item(item) else Unlogged
              case _ => outcome == Empty
    {
      var out := queue.Poll();
      if out.Nothing? {
        return Empty;
      }
      if !appended {
        return Unlogged;
      }
      LogDequeued();
      outcome := Item(out.item);
    }

    method LogDequeued()
      modifies this`log
      ensures log == old(log) + [Dequeued]
      ensures LogLanes(log) == LaneStep(LogLanes(old(log)), None, TryDequeue).1
    {
      LogLanesSnoc(log, Dequeued);
      log := log + [Dequeued];
    }
  }
}
