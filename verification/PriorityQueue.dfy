/** The priority queue: a heap of entries ordered by priority and, within one priority, by
    reversed sequence number. Its reference is 256 first-in-first-out lanes, drained from the
    highest one that is not empty. */
module PriorityQueues {
  import opened Wrappers
  import opened Counting

  type Item(==, !new)
  type Priority = p: nat | p < LANES

  const LANES: nat := 256

  datatype Entry = Entry(priority: Priority, sequence: nat, item: Item)

  /** `a` compares as greater than `b`. */
  predicate Greater(a: Entry, b: Entry) {
    a.priority > b.priority || (a.priority == b.priority && b.sequence > a.sequence)
  }

  /** Held entries carry distinct sequence numbers, all below the counter. */
  ghost predicate Numbered(heap: multiset<Entry>, next: nat) {
    && (forall e :: e in heap ==> heap[e] == 1 && e.sequence < next)
    && (forall e, f :: e in heap && f in heap && e.sequence == f.sequence ==> e == f)
  }

  // ---- The heap-backed queue -----------------------------------------------------------------

  datatype Queue = Queue(heap: multiset<Entry>, next: nat, capacity: Option<nat>)

  datatype Op = TryEnqueue(item: Item, priority: Priority) | TryDequeue

  datatype Outcome = Accepted | Returned(item: Item) | Popped(item: Item) | Nothing

  predicate HasRoom(capacity: Option<nat>, length: nat) {
    capacity.None? || length < capacity.value
  }

  predicate IsGreatest(heap: multiset<Entry>, e: Entry) {
    e in heap && forall f :: f in heap && f != e ==> Greater(e, f)
  }

  /** One operation; the heap promises only that what it pops is greatest. */
  ghost predicate Performs(q: Queue, op: Op, out: Outcome, after: Queue) {
    match op
    case TryEnqueue(item, priority) =>
      if HasRoom(q.capacity, |q.heap|) then
        out == Accepted && after == q.(heap := q.heap + multiset{Entry(priority, q.next, item)}, next := q.next + 1)
      else out == Returned(item) && after == q
    case TryDequeue =>
      if |q.heap| == 0 then out == Nothing && after == q
      else exists e :: IsGreatest(q.heap, e) && out == Popped(e.item) && after == q.(heap := q.heap - multiset{e})
  }

  /** A run: the queue between operations, what was called and what came back. */
  ghost predicate Runs(states: seq<Queue>, ops: seq<Op>, outs: seq<Outcome>) {
    && |states| == |ops| + 1 && |outs| == |ops|
    && forall i :: 0 <= i < |ops| ==> Performs(states[i], ops[i], outs[i], states[i + 1])
  }

  // ---- The lanes -----------------------------------------------------------------------------

  type Lanes = s: seq<seq<Item>> | |s| == LANES witness seq(LANES, i => [])

  function EmptyLanes(): Lanes {
    seq(LANES, i => [])
  }

  /** The lowest lane from which every lane below `n` is empty: one past the highest lane below
      `n` that holds something. */
  function Top(lanes: Lanes, n: nat): (top: nat)
    requires n <= LANES
    ensures top <= n
    ensures top > 0 ==> lanes[top - 1] != []
    ensures forall p :: top <= p < n ==> lanes[p] == []
  {
    if n == 0 || lanes[n - 1] != [] then n else Top(lanes, n - 1)
  }

  function Held(lanes: Lanes): nat {
    Sum(lanes, (lane: seq<Item>) => |lane|)
  }

  function LaneStep(lanes: Lanes, capacity: Option<nat>, op: Op): (r: (Outcome, Lanes)) {
    match op
    case TryEnqueue(item, priority) =>
      if HasRoom(capacity, Held(lanes)) then (Accepted, lanes[priority := lanes[priority] + [item]])
      else (Returned(item), lanes)
    case TryDequeue =>
      var top := Top(lanes, LANES);
      if top == 0 then (Nothing, lanes)
      else (Popped(lanes[top - 1][0]), lanes[top - 1 := lanes[top - 1][1..]])
  }

  function LaneRun(lanes: Lanes, capacity: Option<nat>, ops: seq<Op>): (r: (seq<Outcome>, Lanes)) {
    if |ops| == 0 then ([], lanes)
    else
      var before := LaneRun(lanes, capacity, ops[..|ops| - 1]);
      var last := LaneStep(before.1, capacity, ops[|ops| - 1]);
      (before.0 + [last.0], last.1)
  }

  // ---- The refinement ------------------------------------------------------------------------

  /** Held entries in order of arrival. */
  ghost predicate Ascending(arrivals: seq<Entry>, next: nat) {
    && (forall i :: 0 <= i < |arrivals| ==> arrivals[i].sequence < next)
    && (forall i, j :: 0 <= i < j < |arrivals| ==> arrivals[i].sequence < arrivals[j].sequence)
  }

  /** The items that arrived with priority `p`, oldest first. */
  function Lane(arrivals: seq<Entry>, p: nat): seq<Item> {
    if |arrivals| == 0 then []
    else
      var last := arrivals[|arrivals| - 1];
      Lane(arrivals[..|arrivals| - 1], p) + (if last.priority == p then [last.item] else [])
  }

  ghost predicate Sorts(q: Queue, arrivals: seq<Entry>, lanes: Lanes) {
    && q.heap == multiset(arrivals) && Ascending(arrivals, q.next)
    && (forall p :: 0 <= p < LANES ==> lanes[p] == Lane(arrivals, p))
    && |arrivals| == Held(lanes)
  }

  /** The heap holds what the lanes hold. */
  ghost predicate Refines(q: Queue, lanes: Lanes) {
    exists arrivals :: Sorts(q, arrivals, lanes)
  }

  lemma {:induction false} LaneConcat(a: seq<Entry>, b: seq<Entry>, p: nat)
    ensures Lane(a + b, p) == Lane(a, p) + Lane(b, p)
    decreases |b|
  {
    if |b| == 0 {
      assert a + b == a;
    } else {
      LaneConcat(a, b[..|b| - 1], p);
      assert (a + b)[..|a + b| - 1] == a + b[..|b| - 1];
    }
  }

  lemma {:induction false} LaneOfOthers(a: seq<Entry>, p: nat)
    requires forall i :: 0 <= i < |a| ==> a[i].priority != p
    ensures Lane(a, p) == []
  {
    if |a| > 0 {
      LaneOfOthers(a[..|a| - 1], p);
    }
  }

  /** Taking out the entry at `k` when nothing before it has its priority. */
  lemma LaneWithout(a: seq<Entry>, k: nat, p: nat)
    requires k < |a|
    requires forall i :: 0 <= i < k ==> a[i].priority != a[k].priority
    ensures Lane(a, p) == (if p == a[k].priority then [a[k].item] else []) + Lane(Without(a, k), p)
  {
    assert a == a[..k] + ([a[k]] + a[k + 1..]);
    LaneConcat(a[..k], [a[k]] + a[k + 1..], p);
    LaneConcat([a[k]], a[k + 1..], p);
    LaneConcat(a[..k], a[k + 1..], p);
    assert [a[k]][..0] == [];
    if p == a[k].priority {
      LaneOfOthers(a[..k], p);
    }
  }

  lemma PushRefines(q: Queue, arrivals: seq<Entry>, lanes: Lanes, item: Item, priority: Priority)
    requires Sorts(q, arrivals, lanes)
    ensures Sorts(q.(heap := q.heap + multiset{Entry(priority, q.next, item)}, next := q.next + 1),
                  arrivals + [Entry(priority, q.next, item)], lanes[priority := lanes[priority] + [item]])
  {
    var e := Entry(priority, q.next, item);
    assert (arrivals + [e])[..|arrivals|] == arrivals;
    SumUpdate(lanes, priority, lanes[priority] + [item], (lane: seq<Item>) => |lane|);
  }

  /** The greatest entry heads its lane, and every higher lane is empty. */
  lemma GreatestHeadsTopLane(q: Queue, arrivals: seq<Entry>, lanes: Lanes, e: Entry, k: nat)
    requires Sorts(q, arrivals, lanes) && IsGreatest(q.heap, e)
    requires k < |arrivals| && arrivals[k] == e
    ensures forall i :: 0 <= i < k ==> arrivals[i].priority != e.priority
    ensures Top(lanes, LANES) == e.priority + 1
    ensures lanes[e.priority] == [e.item] + Lane(Without(arrivals, k), e.priority)
  {
    forall i | 0 <= i < |arrivals| && i != k
      ensures Greater(e, arrivals[i])
    {
      assert arrivals[i] in q.heap;
    }
    LaneWithout(arrivals, k, e.priority);
    forall p | e.priority < p < LANES
      ensures lanes[p] == []
    {
      LaneOfOthers(arrivals, p);
    }
  }

  lemma AscendingWithout(arrivals: seq<Entry>, next: nat, k: nat)
    requires Ascending(arrivals, next) && k < |arrivals|
    ensures Ascending(Without(arrivals, k), next)
    ensures multiset(Without(arrivals, k)) == multiset(arrivals) - multiset{arrivals[k]}
  {
    assert arrivals == arrivals[..k] + [arrivals[k]] + arrivals[k + 1..];
  }

  /** Dropping the head of the greatest entry's lane leaves every lane right. */
  lemma LanesAfterPop(q: Queue, arrivals: seq<Entry>, lanes: Lanes, e: Entry, k: nat, p: nat)
    requires Sorts(q, arrivals, lanes) && IsGreatest(q.heap, e) && p < LANES
    requires k < |arrivals| && arrivals[k] == e
    ensures lanes[e.priority] != []
    ensures lanes[e.priority := lanes[e.priority][1..]][p] == Lane(Without(arrivals, k), p)
  {
    GreatestHeadsTopLane(q, arrivals, lanes, e, k);
    assert lanes[p] == Lane(arrivals, p);
    LaneWithout(arrivals, k, p);
  }

  lemma PopRefines(q: Queue, arrivals: seq<Entry>, lanes: Lanes, e: Entry, k: nat)
    requires Sorts(q, arrivals, lanes) && IsGreatest(q.heap, e)
    requires k < |arrivals| && arrivals[k] == e
    ensures lanes[e.priority] != []
    ensures Sorts(q.(heap := q.heap - multiset{e}), Without(arrivals, k), lanes[e.priority := lanes[e.priority][1..]])
  {
    LanesAfterPop(q, arrivals, lanes, e, k, 0);
    var fewer: Lanes := lanes[e.priority := lanes[e.priority][1..]];
    assert Held(fewer) + 1 == Held(lanes) by {
      SumUpdate(lanes, e.priority, lanes[e.priority][1..], (lane: seq<Item>) => |lane|);
    }
    forall p | 0 <= p < LANES
      ensures fewer[p] == Lane(Without(arrivals, k), p)
    {
      LanesAfterPop(q, arrivals, lanes, e, k, p);
    }
    AscendingWithout(arrivals, q.next, k);
  }

  /** Whichever greatest entry the heap pops, one operation does to the queue what it does to
      the lanes, with the same outcome. */
  lemma StepRefines(q: Queue, lanes: Lanes, op: Op, out: Outcome, after: Queue)
    requires Refines(q, lanes) && Performs(q, op, out, after)
    ensures out == LaneStep(lanes, q.capacity, op).0
    ensures Refines(after, LaneStep(lanes, q.capacity, op).1) && after.capacity == q.capacity
  {
    var arrivals :| Sorts(q, arrivals, lanes);
    match op
    case TryEnqueue(item, priority) =>
      if HasRoom(q.capacity, |q.heap|) {
        PushRefines(q, arrivals, lanes, item, priority);
      }
    case TryDequeue =>
      if |q.heap| == 0 {
        EmptyHeapMeansEmptyLanes(q, arrivals, lanes);
      } else {
        PopStepRefines(q, arrivals, lanes, out, after);
      }
  }

  lemma PopStepRefines(q: Queue, arrivals: seq<Entry>, lanes: Lanes, out: Outcome, after: Queue)
    requires Sorts(q, arrivals, lanes) && |q.heap| > 0 && Performs(q, TryDequeue, out, after)
    ensures out == LaneStep(lanes, q.capacity, TryDequeue).0
    ensures Refines(after, LaneStep(lanes, q.capacity, TryDequeue).1) && after.capacity == q.capacity
  {
    var e :| IsGreatest(q.heap, e) && out == Popped(e.item) && after == q.(heap := q.heap - multiset{e});
    var k :| 0 <= k < |arrivals| && arrivals[k] == e;
    assert LaneStep(lanes, q.capacity, TryDequeue) == (Popped(e.item), lanes[e.priority := lanes[e.priority][1..]]) by {
      GreatestHeadsTopLane(q, arrivals, lanes, e, k);
    }
    PopRefines(q, arrivals, lanes, e, k);
  }

  lemma EmptyHeapMeansEmptyLanes(q: Queue, arrivals: seq<Entry>, lanes: Lanes)
    requires Sorts(q, arrivals, lanes) && |q.heap| == 0
    ensures Top(lanes, LANES) == 0
  {
    assert arrivals == [];
    assert forall p :: 0 <= p < LANES ==> lanes[p] == [];
  }

  /** Every run of the heap has the outcomes of the lanes, and ends holding what they hold. */
  lemma {:induction false} RunRefines(states: seq<Queue>, lanes: Lanes, ops: seq<Op>, outs: seq<Outcome>)
    requires Runs(states, ops, outs) && Refines(states[0], lanes)
    ensures outs == LaneRun(lanes, states[0].capacity, ops).0
    ensures Refines(states[|ops|], LaneRun(lanes, states[0].capacity, ops).1)
    ensures states[|ops|].capacity == states[0].capacity
    decreases |ops|
  {
    if |ops| > 0 {
      var n := |ops| - 1;
      RunRefines(states[..|ops|], lanes, ops[..n], outs[..n]);
      StepRefines(states[n], LaneRun(lanes, states[0].capacity, ops[..n]).1, ops[n], outs[n], states[n + 1]);
      assert outs == outs[..n] + [outs[n]];
    }
  }

  function NewQueue(capacity: Option<nat>): Queue {
    Queue(multiset{}, 0, capacity)
  }

  lemma NewQueueIsEmpty(capacity: Option<nat>)
    ensures Refines(NewQueue(capacity), EmptyLanes())
  {
    SumZero(EmptyLanes(), (lane: seq<Item>) => |lane|);
    assert Sorts(NewQueue(capacity), [], EmptyLanes());
  }

  lemma AscendingNumbers(arrivals: seq<Entry>, next: nat)
    requires Ascending(arrivals, next)
    ensures Numbered(multiset(arrivals), next)
  {
    forall k | 0 <= k < |arrivals|
      ensures multiset(arrivals)[arrivals[k]] == 1
    {
      assert arrivals == arrivals[..k] + [arrivals[k]] + arrivals[k + 1..];
      assert arrivals[k] !in arrivals[..k] && arrivals[k] !in arrivals[k + 1..];
    }
  }

  /** A queue that refines lanes numbers its entries apart. */
  lemma RefinesNumbers(q: Queue, lanes: Lanes)
    requires Refines(q, lanes)
    ensures Numbered(q.heap, q.next)
  {
    var arrivals :| Sorts(q, arrivals, lanes);
    AscendingNumbers(arrivals, q.next);
  }

  /** On held entries the comparison is a strict total order. */
  lemma HeldEntriesAreStrictlyOrdered(q: Queue, lanes: Lanes, a: Entry, b: Entry, c: Entry)
    requires Refines(q, lanes) && a in q.heap && b in q.heap && c in q.heap
    ensures !Greater(a, a)
    ensures Greater(a, b) && Greater(b, c) ==> Greater(a, c)
    ensures a == b || (Greater(a, b) <==> !Greater(b, a))
  {
    RefinesNumbers(q, lanes);
  }

  lemma TakingOneOut(heap: seq<Entry>, k: nat)
    requires k < |heap|
    ensures |multiset(heap)| > 0
    ensures multiset(heap[..k] + heap[k + 1..]) == multiset(heap) - multiset{heap[k]}
  {
    assert heap == heap[..k] + [heap[k]] + heap[k + 1..];
  }

  /** A new queue serves every operation sequence as the lanes would. */
  lemma FreshRunRefines(capacity: Option<nat>, states: seq<Queue>, ops: seq<Op>, outs: seq<Outcome>)
    requires Runs(states, ops, outs) && states[0] == NewQueue(capacity)
    ensures outs == LaneRun(EmptyLanes(), capacity, ops).0
  {
    NewQueueIsEmpty(capacity);
    RunRefines(states, EmptyLanes(), ops, outs);
  }

  /** In every run of a new queue bounded at `n` it never holds more than `n`, and hands an item back
      exactly when it is full; an unbounded queue never does. */
  lemma {:induction false} NeverBeyondCapacity(
    capacity: Option<nat>, states: seq<Queue>, ops: seq<Op>, outs: seq<Outcome>, i: nat)
    requires Runs(states, ops, outs) && states[0] == NewQueue(capacity) && i <= |ops|
    ensures states[i].capacity == capacity && (capacity.Some? ==> |states[i].heap| <= capacity.value)
    ensures i < |ops| && ops[i].TryEnqueue? ==>
      (outs[i] == Returned(ops[i].item) <==> capacity.Some? && |states[i].heap| == capacity.value)
      && (outs[i] == Accepted <==> !(capacity.Some? && |states[i].heap| == capacity.value))
  {
    if i > 0 {
      NeverBeyondCapacity(capacity, states, ops, outs, i - 1);
      StepWithinCapacity(states[i - 1], ops[i - 1], outs[i - 1], states[i]);
    }
    if i < |ops| { StepWithinCapacity(states[i], ops[i], outs[i], states[i + 1]); }
  }

  lemma StepWithinCapacity(q: Queue, op: Op, out: Outcome, after: Queue)
    requires Performs(q, op, out, after) && (q.capacity.Some? ==> |q.heap| <= q.capacity.value)
    ensures after.capacity == q.capacity && (q.capacity.Some? ==> |after.heap| <= q.capacity.value)
    ensures op.TryEnqueue? ==>
      if q.capacity.Some? && |q.heap| == q.capacity.value then out == Returned(op.item) else out == Accepted
  {
  }

  /** What a greatest entry is: of the highest priority held, and the oldest of that. */
  lemma GreatestIsHighestAndOldest(heap: multiset<Entry>, e: Entry, f: Entry)
    requires IsGreatest(heap, e) && f in heap
    ensures f.priority <= e.priority && (f.priority == e.priority ==> e.sequence <= f.sequence)
  {
  }

  // ---- The object ----------------------------------------------------------------------------

  /** The heap's backing store, in whatever order; popping finds a greatest entry. */
  class PriorityQueue {
    var heap: seq<Entry>
    const capacity: Option<nat>
    var nextSequence: nat
    ghost var lanes: Lanes

    function State(): Queue
      reads this
    {
      Queue(multiset(heap), nextSequence, capacity)
    }

    ghost predicate Valid()
      reads this
    {
      Refines(State(), lanes)
    }

    constructor (capacity: Option<nat>)
      ensures Valid() && lanes == EmptyLanes() && this.capacity == capacity && State() == NewQueue(capacity)
    {
      this.capacity := capacity;
      heap, nextSequence, lanes := [], 0, EmptyLanes();
      new;
      NewQueueIsEmpty(capacity);
    }

    method Offer(item: Item, priority: Priority) returns (out: Outcome)
      requires Valid()
      modifies this
      ensures Valid() && Performs(old(State()), TryEnqueue(item, priority), out, State())
      ensures (out, lanes) == LaneStep(old(lanes), capacity, TryEnqueue(item, priority))
      ensures if capacity.Some? && |old(heap)| >= capacity.value then
          out == Returned(item) && heap == old(heap) && nextSequence == old(nextSequence)
        else
          && out == Accepted && heap == old(heap) + [Entry(priority, old(nextSequence), item)]
          && nextSequence == old(nextSequence) + 1
    {
      ghost var before := State();
      if capacity.None? || |heap| < capacity.value {
        heap, nextSequence := heap + [Entry(priority, nextSequence, item)], nextSequence + 1;
        out := Accepted;
      } else {
        out := Returned(item);
      }
      StepRefines(before, lanes, TryEnqueue(item, priority), out, State());
      lanes := LaneStep(lanes, capacity, TryEnqueue(item, priority)).1;
    }

    method GreatestIndex() returns (best: nat)
      requires Valid() && |heap| > 0
      ensures best < |heap| && IsGreatest(multiset(heap), heap[best])
    {
      RefinesNumbers(State(), lanes);
      best := 0;
      var i := 1;
      while i < |heap|
        invariant best < i <= |heap|
        invariant forall j :: 0 <= j < i ==> heap[j] == heap[best] || Greater(heap[best], heap[j])
      {
        assert heap[i] in multiset(heap) && heap[best] in multiset(heap);
        if Greater(heap[i], heap[best]) {
          best := i;
        }
        i := i + 1;
      }
    }

    method Poll() returns (out: Outcome)
      requires Valid()
      modifies this
      ensures Valid() && Performs(old(State()), TryDequeue, out, State())
      ensures (out, lanes) == LaneStep(old(lanes), capacity, TryDequeue)
      ensures nextSequence == old(nextSequence)
    {
      ghost var before := State();
      if |heap| == 0 {
        out := Nothing;
      } else {
        var best := GreatestIndex();
        TakingOneOut(heap, best);
        out := Popped(heap[best].item);
        heap := heap[..best] + heap[best + 1..];
      }
      StepRefines(before, lanes, TryDequeue, out, State());
      lanes := LaneStep(lanes, capacity, TryDequeue).1;
    }
  }
}
