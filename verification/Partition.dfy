/** In every crash-free run each message is in exactly one place. */
module Partition {
  import opened Wrappers
  import opened Counting
  import opened Messages
  import opened Steps
  import opened Census
  import opened Durability

  /** Tasks that are themselves the place of a message. */
  function PlaceTask(id: MessageId): Task -> nat {
    (task: Task) =>
      match task
      case Enqueueing(msg) => One(msg.id == id)
      case Enqueued(msg) => One(msg.id == id)
      case Failing(f) => One(f.msg.id == id)
      case Recording(letter) => One(letter.msg.id == id)
      case Taking(letter, _) => One(letter.msg.id == id)
      case Reviving(msg) => One(msg.id == id)
      case Releasing(msg) => One(msg.id == id)
      case _ => 0
  }

  /** How many places hold `id`: collections, dead-letter map and unfinished calls. */
  function Places(s: System, id: MessageId): nat {
    Held(s.mem, id) + One(id in s.mem.dlq) + Sum(s.tasks, PlaceTask(id))
  }

  /** Created, and neither acknowledged, purged nor dropped by a failed append. */
  predicate Alive(s: System, id: MessageId) {
    id in s.created && id !in s.gone
  }

  ghost predicate InPlace(s: System, id: MessageId) {
    && Places(s, id) == One(Alive(s, id))
    && (id in s.gone ==> id in s.created)
  }

  ghost predicate AllInPlace(s: System) {
    forall id :: InPlace(s, id)
  }

  lemma TaskPlaces(cfg: Config, task: Task, now: Instant, id: MessageId)
    ensures WeightOf(PlaceTask(id), NextTask(cfg, task, now)) + HeldGain(cfg, task, id)
         + (if task.Recording? then One(task.letter.msg.id == id) else 0)
         + (if task.Releasing? then One(task.msg.id == id) else 0)
         == PlaceTask(id)(task)
  {
  }

  lemma AdvancePlaces(cfg: Config, s: System, t: nat, now: Instant, draw: real, id: MessageId)
    requires t < |s.tasks| && InPlace(s, id)
    ensures InPlace(AdvanceTask(cfg, s, t, now, draw), id)
  {
    var task := s.tasks[t];
    TaskPlaces(cfg, task, now, id);
    ReplaceCount(s.tasks, t, NextTask(cfg, task, now), PlaceTask(id));
    SumAt(s.tasks, t, PlaceTask(id));
    EffectCopies(cfg, s.mem, task, now, draw, id);
  }

  lemma FailPlaces(cfg: Config, s: System, t: nat, id: MessageId)
    requires Enabled(cfg, s, AppendFails(t)) && InPlace(s, id)
    ensures InPlace(FailTask(s, t), id)
  {
    ReplaceCount(s.tasks, t, AfterFailure(s.tasks[t]), PlaceTask(id));
    SumAt(s.tasks, t, PlaceTask(id));
  }

  lemma ReclaimPlaces(cfg: Config, s: System, step: Step, id: MessageId)
    requires step.Reclaim? && Enabled(cfg, s, step) && WellKeyed(s.mem) && InPlace(s, id)
    ensures InPlace(Apply(cfg, s, step), id)
  {
    FailExpiredCount(s.mem.leased, step.order, id, PlaceTask(id), 1);
    SumConcat(s.tasks, FailExpired(s.mem.leased, step.order), PlaceTask(id));
  }

  /** A message with one place is never claimed while it is leased. */
  lemma NothingToOverwrite(s: System, step: Step)
    requires AllInPlace(s)
    ensures !Overwrites(s.mem, step)
  {
    if Overwrites(s.mem, step) {
      var id := OverwrittenIsTwice(s, step);
    }
  }

  /** A claim that would overwrite a lease finds the message in two places. */
  lemma OverwrittenIsTwice(s: System, step: Step) returns (id: MessageId)
    requires Overwrites(s.mem, step)
    ensures !InPlace(s, id)
  {
    var promoted := PromoteReady(s.mem, step.promoteAt);
    id := promoted.pending[0].msg.id;
    PromoteKeepsHeld(s.mem, step.promoteAt, id);
    SumAt(promoted.pending, 0, PendingOf(id));
  }

  lemma SectionPlaces(cfg: Config, mem: Memory, step: Step, id: MessageId)
    requires Starts(step) && WellKeyed(mem) && !step.ClaimNext?
    ensures Held(Section(cfg, mem, step), id) + One(id in Section(cfg, mem, step).dlq)
         + WeightOf(PlaceTask(id), Begun(mem, step))
         + One(step.BeginAck? && Holds(mem.leased, step.id, step.token) && step.id == id)
         == Held(mem, id) + One(id in mem.dlq)
         + One(step.BeginEnqueue? && !Deduplicated(mem, step.msg) && step.msg.id == id)
  {
  }

  lemma StartPlaces(cfg: Config, s: System, step: Step, id: MessageId)
    requires Starts(step) && Enabled(cfg, s, step) && WellKeyed(s.mem) && AllInPlace(s)
    ensures InPlace(Apply(cfg, s, step), id)
  {
    assert InPlace(s, id);
    BegunCount(s.tasks, Begun(s.mem, step), PlaceTask(id));
    if step.ClaimNext? {
      NothingToOverwrite(s, step);
      ClaimCopies(cfg, s.mem, step, id);
    } else {
      SectionPlaces(cfg, s.mem, step, id);
    }
  }

  /** Every step short of a crash keeps each message in exactly one place. */
  lemma StepKeepsPlaces(cfg: Config, s: System, step: Step)
    requires WellKeyed(s.mem) && Enabled(cfg, s, step) && !step.Crash? && AllInPlace(s)
    ensures AllInPlace(Apply(cfg, s, step))
  {
    forall id
      ensures InPlace(Apply(cfg, s, step), id)
    {
      assert InPlace(s, id);
      match step
      case Advance(t, now, draw) => AdvancePlaces(cfg, s, t, now, draw, id);
      case AppendFails(t) => FailPlaces(cfg, s, t, id);
      case Reclaim(_, _) => ReclaimPlaces(cfg, s, step, id);
      case _ => StartPlaces(cfg, s, step, id);
    }
  }

  ghost predicate CrashFree(steps: seq<Step>) {
    forall i :: 0 <= i < |steps| ==> !steps[i].Crash?
  }

  /** The partition invariant over every crash-free run from a fresh start. */
  lemma {:induction false} RunKeepsPlaces(cfg: Config, steps: seq<Step>)
    requires ValidRun(cfg, INITIAL, steps) && CrashFree(steps)
    ensures var s := Run(cfg, INITIAL, steps);
      WellKeyed(s.mem) && AllInPlace(s)
    decreases |steps|
  {
    if |steps| > 0 {
      var front := steps[..|steps| - 1];
      RunKeepsPlaces(cfg, front);
      StepKeepsWellKeyed(cfg, Run(cfg, INITIAL, front), steps[|steps| - 1]);
      StepKeepsPlaces(cfg, Run(cfg, INITIAL, front), steps[|steps| - 1]);
    }
  }

  // ---- What one place per message means ---------------------------------------------------

  /** Where a message can be found. */
  datatype Location =
    | InPending(at: nat)
    | InLeased(id: MessageId)
    | InDelayed(at: nat)
    | InDlq(id: MessageId)
    | InTask(at: nat)

  ghost predicate At(s: System, place: Location, id: MessageId) {
    match place
    case InPending(i) => i < |s.mem.pending| && s.mem.pending[i].msg.id == id
    case InLeased(key) => key == id && id in s.mem.leased
    case InDelayed(i) => i < |s.mem.delayed| && s.mem.delayed[i].msg.id == id
    case InDlq(key) => key == id && id in s.mem.dlq
    case InTask(t) => t < |s.tasks| && PlaceTask(id)(s.tasks[t]) == 1
  }

  /** A location counts for the collection it lies in. */
  lemma LocationCounts(s: System, place: Location, id: MessageId)
    requires At(s, place, id)
    ensures Places(s, id) >= 1
  {
    match place
    case InPending(i) => SumAt(s.mem.pending, i, PendingOf(id));
    case InDelayed(i) => SumAt(s.mem.delayed, i, DelayedOf(id));
    case InTask(t) => SumAt(s.tasks, t, PlaceTask(id));
    case _ =>
  }

  lemma SameCollectionCounts(s: System, p: Location, q: Location, id: MessageId)
    requires At(s, p, id) && At(s, q, id) && p != q
    requires (p.InPending? && q.InPending?) || (p.InDelayed? && q.InDelayed?) || (p.InTask? && q.InTask?)
    ensures Places(s, id) >= 2
  {
    var i, j := if p.at < q.at then p.at else q.at, if p.at < q.at then q.at else p.at;
    match p
    case InPending(_) => SumPair(s.mem.pending, i, j, PendingOf(id));
    case InDelayed(_) => SumPair(s.mem.delayed, i, j, DelayedOf(id));
    case InTask(_) => SumPair(s.tasks, i, j, PlaceTask(id));
  }

  lemma TwoLocationsCount(s: System, p: Location, q: Location, id: MessageId)
    requires At(s, p, id) && At(s, q, id) && p != q
    ensures Places(s, id) >= 2
  {
    if (p.InPending? && q.InPending?) || (p.InDelayed? && q.InDelayed?) || (p.InTask? && q.InTask?) {
      SameCollectionCounts(s, p, q, id);
    } else {
      if p.InPending? || q.InPending? { SumAt(s.mem.pending, if p.InPending? then p.at else q.at, PendingOf(id)); }
      if p.InDelayed? || q.InDelayed? { SumAt(s.mem.delayed, if p.InDelayed? then p.at else q.at, DelayedOf(id)); }
      if p.InTask? || q.InTask? { SumAt(s.tasks, if p.InTask? then p.at else q.at, PlaceTask(id)); }
    }
  }

  /** At every point of every crash-free run, a live message is at exactly one location and
      any other id is nowhere. */
  lemma EveryMessageIsSomewhereOnce(cfg: Config, steps: seq<Step>, id: MessageId)
    requires ValidRun(cfg, INITIAL, steps) && CrashFree(steps)
    ensures var s := Run(cfg, INITIAL, steps);
      && (Alive(s, id) <==> exists p :: At(s, p, id))
      && (forall p, q :: At(s, p, id) && At(s, q, id) ==> p == q)
  {
    var s := Run(cfg, INITIAL, steps);
    assert InPlace(s, id) by { RunKeepsPlaces(cfg, steps); }
    forall p, q | At(s, p, id) && At(s, q, id)
      ensures p == q && Alive(s, id)
    {
      LocationCounts(s, p, id);
      if p != q { TwoLocationsCount(s, p, q, id); }
    }
    if Alive(s, id) {
      var p := SomeLocation(s, id);
    }
  }

  /** A counted place is a location. */
  lemma SomeLocation(s: System, id: MessageId) returns (p: Location)
    requires Places(s, id) > 0
    ensures At(s, p, id)
  {
    if Sum(s.mem.pending, PendingOf(id)) > 0 {
      var i := SumWitness(s.mem.pending, PendingOf(id));
      p := InPending(i);
    } else if Sum(s.mem.delayed, DelayedOf(id)) > 0 {
      var i := SumWitness(s.mem.delayed, DelayedOf(id));
      p := InDelayed(i);
    } else if Sum(s.tasks, PlaceTask(id)) > 0 {
      var t := SumWitness(s.tasks, PlaceTask(id));
      p := InTask(t);
    } else {
      p := if id in s.mem.leased then InLeased(id) else InDlq(id);
    }
  }
}
