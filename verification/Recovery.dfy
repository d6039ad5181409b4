/** Exact recovery: a restart taken when no call is in flight brings back exactly the live
    messages and exactly the dead letters, whatever interleaved before it. */
module Recovery {
  import opened Wrappers
  import opened Counting
  import opened Messages
  import opened Steps
  import opened Census
  import opened Durability
  import opened Partition
  import opened Provenance
  import Retry

  ghost predicate CopiesExact(s: System) {
    forall id :: LiveCopies(s, id) == LoggedCopies(s, id)
  }

  // ---- The dead-letter map and its log ---------------------------------------------------

  /** Tasks holding a letter that the dead-letter log still replays. */
  function LetterTask(id: MessageId): Task -> nat {
    (task: Task) =>
      match task
      case Recording(letter) => One(letter.msg.id == id)
      case Taking(letter, _) => One(letter.msg.id == id)
      case _ => 0
  }

  /** Equal but for the triage verdict. */
  predicate SameLetter(a: DeadLetter, b: DeadLetter) {
    a.(triage := None) == b.(triage := None)
  }

  ghost predicate LetterLogged(dlqLog: seq<DlqRecord>, letter: DeadLetter) {
    letter.msg.id in ReplayDlq(dlqLog) && SameLetter(letter, ReplayDlq(dlqLog)[letter.msg.id])
  }

  ghost predicate LettersCounted(s: System, id: MessageId) {
    One(id in ReplayDlq(s.dlqLog)) == One(id in s.mem.dlq) + Sum(s.tasks, LetterTask(id))
  }

  ghost predicate LettersMatch(s: System) {
    && (forall id :: id in s.mem.dlq ==> LetterLogged(s.dlqLog, s.mem.dlq[id]))
    && (forall t :: 0 <= t < |s.tasks| ==> s.tasks[t].Recording? || s.tasks[t].Taking? ==>
          LetterLogged(s.dlqLog, s.tasks[t].letter))
  }

  ghost predicate LettersExact(s: System) {
    LettersMatch(s) && forall id :: LettersCounted(s, id)
  }

  /** Everything replay needs to rebuild the group. */
  ghost predicate Exact(s: System) {
    AllTraceable(s) && AllInPlace(s) && CopiesExact(s) && LettersExact(s)
  }

  lemma {:induction false} LettersWithinPlaces(tasks: seq<Task>, id: MessageId)
    ensures Sum(tasks, LetterTask(id)) <= Sum(tasks, PlaceTask(id))
  {
    if |tasks| > 0 { LettersWithinPlaces(tasks[..|tasks| - 1], id); }
  }

  /** Whether the task is about to write a letter for `id`, to file it, or to strike it out. */
  predicate WritesLetter(cfg: Config, task: Task, id: MessageId) {
    task.Failing? && task.failed.msg.id == id && Retry.IsExhausted(cfg.policy, task.failed.deliveryCount)
  }

  lemma TaskLetters(cfg: Config, task: Task, now: Instant, id: MessageId)
    ensures WeightOf(LetterTask(id), NextTask(cfg, task, now))
         + One(task.Recording? && task.letter.msg.id == id) + One(task.Taking? && task.letter.msg.id == id)
         == LetterTask(id)(task) + One(WritesLetter(cfg, task, id))
    ensures LetterTask(id)(task) + One(WritesLetter(cfg, task, id)) <= PlaceTask(id)(task)
    ensures var record := DlqAppend(cfg, task, now);
      && (WritesLetter(cfg, task, id) <==> record.Some? && record.value.Record? && record.value.letter.msg.id == id)
      && (task.Taking? && task.letter.msg.id == id <==> record == Some(Remove(id)))
  {
  }

  lemma EffectDlq(cfg: Config, mem: Memory, task: Task, now: Instant, draw: real, id: MessageId)
    ensures id in Effect(cfg, mem, task, now, draw).dlq
      <==> id in mem.dlq || (task.Recording? && task.letter.msg.id == id)
  {
  }

  lemma AdvanceLetterCount(cfg: Config, s: System, t: nat, now: Instant, draw: real, id: MessageId)
    requires t < |s.tasks| && LettersCounted(s, id) && InPlace(s, id)
    ensures LettersCounted(AdvanceTask(cfg, s, t, now, draw), id)
  {
    var task := s.tasks[t];
    var s' := AdvanceTask(cfg, s, t, now, draw);
    var others := Replace(s.tasks, t, None);
    TaskLetters(cfg, task, now, id);
    DlqMembership(s.dlqLog, DlqAppend(cfg, task, now), id);
    ReplaceCount(s.tasks, t, NextTask(cfg, task, now), LetterTask(id));
    ReplaceCount(s.tasks, t, None, PlaceTask(id));
    ReplaceCount(s.tasks, t, None, LetterTask(id));
    LettersWithinPlaces(others, id);
    EffectDlq(cfg, s.mem, task, now, draw, id);
  }

  /** The dead-letter log after a record about another id still replays `letter`. */
  lemma OtherLetterLogged(dlqLog: seq<DlqRecord>, record: Option<DlqRecord>, letter: DeadLetter)
    requires LetterLogged(dlqLog, letter)
    requires match record
      case Some(Record(other)) => other.msg.id != letter.msg.id
      case Some(Remove(gone)) => gone != letter.msg.id
      case _ => true
    ensures LetterLogged(Append(dlqLog, record), letter)
  {
    if record.Some? { ReplayDlqAppend(dlqLog, record.value); }
  }

  /** Two places cannot share an id: a letter elsewhere is not the one task `t` is handling. */
  lemma LetterElsewhere(s: System, t: nat, letter: DeadLetter, place: Location)
    requires t < |s.tasks| && AllInPlace(s)
    requires At(s, place, letter.msg.id) && place != InTask(t)
    requires s.tasks[t].Failing? || s.tasks[t].Taking?
    ensures s.tasks[t].Failing? ==> s.tasks[t].failed.msg.id != letter.msg.id
    ensures s.tasks[t].Taking? ==> s.tasks[t].letter.msg.id != letter.msg.id
  {
    var id := letter.msg.id;
    assert InPlace(s, id);
    if At(s, InTask(t), id) { TwoLocationsCount(s, place, InTask(t), id); }
  }

  lemma AdvanceLetters(cfg: Config, s: System, t: nat, now: Instant, draw: real)
    requires t < |s.tasks| && LettersMatch(s) && AllInPlace(s) && WellKeyed(s.mem)
    ensures LettersMatch(AdvanceTask(cfg, s, t, now, draw))
  {
    var task := s.tasks[t];
    var s' := AdvanceTask(cfg, s, t, now, draw);
    var record := DlqAppend(cfg, task, now);
    forall id | id in s.mem.dlq
      ensures LetterLogged(s'.dlqLog, s.mem.dlq[id])
    {
      if task.Failing? || task.Taking? { LetterElsewhere(s, t, s.mem.dlq[id], InDlq(id)); }
      OtherLetterLogged(s.dlqLog, record, s.mem.dlq[id]);
    }
    forall u | 0 <= u < |s.tasks| && u != t && (s.tasks[u].Recording? || s.tasks[u].Taking?)
      ensures LetterLogged(s'.dlqLog, s.tasks[u].letter)
    {
      if task.Failing? || task.Taking? { LetterElsewhere(s, t, s.tasks[u].letter, InTask(u)); }
      OtherLetterLogged(s.dlqLog, record, s.tasks[u].letter);
    }
    if task.Failing? && record.Some? { ReplayDlqAppend(s.dlqLog, record.value); }
    if task.Recording? { assert LetterLogged(s.dlqLog, task.letter); }
    TasksAfter(s.tasks, t, NextTask(cfg, task, now));
  }

  ghost predicate Remains(tasks: seq<Task>, t: nat, next: Option<Task>, task: Task) {
    next == Some(task) || exists u :: 0 <= u < |tasks| && u != t && tasks[u] == task
  }

  /** Which tasks there are once task `t` has moved on. */
  lemma TasksAfter(tasks: seq<Task>, t: nat, next: Option<Task>)
    requires t < |tasks|
    ensures forall v :: 0 <= v < |Replace(tasks, t, next)| ==> Remains(tasks, t, next, Replace(tasks, t, next)[v])
  {
    forall v | 0 <= v < |Replace(tasks, t, next)|
      ensures Remains(tasks, t, next, Replace(tasks, t, next)[v])
    {
      if !(next.Some? && v == t) {
        var u := if v < t || next.Some? then v else v + 1;
        assert u != t && tasks[u] == Replace(tasks, t, next)[v];
      }
    }
  }

  lemma StartLetters(cfg: Config, s: System, step: Step)
    requires (Starts(step) || step.Reclaim?) && Enabled(cfg, s, step) && LettersMatch(s)
    ensures LettersMatch(Apply(cfg, s, step))
  {
  }

  lemma SectionLetters(cfg: Config, mem: Memory, step: Step, id: MessageId)
    requires Starts(step) && WellKeyed(mem)
    ensures One(id in Section(cfg, mem, step).dlq) + WeightOf(LetterTask(id), Begun(mem, step)) == One(id in mem.dlq)
  {
  }

  lemma StartLetterCount(cfg: Config, s: System, step: Step, id: MessageId)
    requires Starts(step) && Enabled(cfg, s, step) && WellKeyed(s.mem) && LettersCounted(s, id)
    ensures LettersCounted(Apply(cfg, s, step), id)
  {
    BegunCount(s.tasks, Begun(s.mem, step), LetterTask(id));
    SectionLetters(cfg, s.mem, step, id);
  }

  lemma ReclaimLetterCount(cfg: Config, s: System, step: Step, id: MessageId)
    requires step.Reclaim? && Enabled(cfg, s, step) && WellKeyed(s.mem) && LettersCounted(s, id)
    ensures LettersCounted(Apply(cfg, s, step), id)
  {
    FailExpiredCount(s.mem.leased, step.order, id, LetterTask(id), 0);
    SumConcat(s.tasks, FailExpired(s.mem.leased, step.order), LetterTask(id));
  }

  lemma StepKeepsLetters(cfg: Config, s: System, step: Step)
    requires Enabled(cfg, s, step) && !step.Crash? && !step.AppendFails?
    requires WellKeyed(s.mem) && AllInPlace(s) && LettersExact(s)
    ensures LettersExact(Apply(cfg, s, step))
  {
    forall id ensures LettersCounted(Apply(cfg, s, step), id) {
      assert LettersCounted(s, id) && InPlace(s, id);
      match step
      case Advance(t, now, draw) => AdvanceLetterCount(cfg, s, t, now, draw, id);
      case Reclaim(_, _) => ReclaimLetterCount(cfg, s, step, id);
      case _ => StartLetterCount(cfg, s, step, id);
    }
    match step
    case Advance(t, now, draw) => AdvanceLetters(cfg, s, t, now, draw);
    case _ => StartLetters(cfg, s, step);
  }

  // ---- Exactness over runs -------------------------------------------------------------------

  lemma TraceableIsWellKeyed(s: System)
    requires AllTraceable(s)
    ensures WellKeyed(s.mem)
  {
  }

  lemma StepKeepsExact(cfg: Config, s: System, step: Step)
    requires Enabled(cfg, s, step) && !step.Crash? && !step.AppendFails? && Exact(s)
    ensures Exact(Apply(cfg, s, step))
  {
    TraceableIsWellKeyed(s);
    StepKeepsTraceable(cfg, s, step);
    StepKeepsPlaces(cfg, s, step);
    StepKeepsLetters(cfg, s, step);
    NothingToOverwrite(s, step);
    forall id ensures LiveCopies(Apply(cfg, s, step), id) == LoggedCopies(Apply(cfg, s, step), id) {
      assert LiveCopies(s, id) == LoggedCopies(s, id);
      StepKeepsCopies(cfg, s, step, id);
    }
  }

  /** A restart between calls loses nothing and duplicates nothing. */
  lemma RestartKeepsExact(cfg: Config, s: System, order: seq<MessageId>)
    requires s.tasks == [] && Enabled(cfg, s, Crash(order)) && Exact(s)
    ensures Exact(Apply(cfg, s, Crash(order)))
    ensures forall id :: Held(Apply(cfg, s, Crash(order)).mem, id) == Held(s.mem, id)
    ensures Apply(cfg, s, Crash(order)).mem.dlq.Keys == s.mem.dlq.Keys
  {
    var s' := Apply(cfg, s, Crash(order));
    assert AllTraceable(s') by { StepKeepsTraceable(cfg, s, Crash(order)); }
    RestartKeepsCounts(cfg, s, order);
    assert LettersMatch(s');
  }

  /** The counts of every id survive a restart between calls. */
  lemma RestartKeepsCounts(cfg: Config, s: System, order: seq<MessageId>)
    requires s.tasks == [] && Enabled(cfg, s, Crash(order)) && AllInPlace(s) && CopiesExact(s)
    requires forall id :: LettersCounted(s, id)
    ensures AllInPlace(Apply(cfg, s, Crash(order))) && CopiesExact(Apply(cfg, s, Crash(order)))
    ensures forall id :: LettersCounted(Apply(cfg, s, Crash(order)), id)
    ensures forall id :: Held(Apply(cfg, s, Crash(order)).mem, id) == Held(s.mem, id)
    ensures Apply(cfg, s, Crash(order)).mem.dlq.Keys == s.mem.dlq.Keys
  {
    var s' := Apply(cfg, s, Crash(order));
    forall id
      ensures Held(s'.mem, id) == Held(s.mem, id) && (id in s'.mem.dlq <==> id in s.mem.dlq)
      ensures InPlace(s', id) && LiveCopies(s', id) == LoggedCopies(s', id) && LettersCounted(s', id)
    {
      assert InPlace(s, id) && LiveCopies(s, id) == LoggedCopies(s, id) && LettersCounted(s, id);
      RestartKeepsId(cfg, s, order, id);
    }
  }

  lemma RestartKeepsId(cfg: Config, s: System, order: seq<MessageId>, id: MessageId)
    requires s.tasks == [] && Enabled(cfg, s, Crash(order))
    requires InPlace(s, id) && LiveCopies(s, id) == LoggedCopies(s, id) && LettersCounted(s, id)
    ensures var s' := Apply(cfg, s, Crash(order));
      && Held(s'.mem, id) == Held(s.mem, id) && (id in s'.mem.dlq <==> id in s.mem.dlq)
      && InPlace(s', id) && LiveCopies(s', id) == LoggedCopies(s', id) && LettersCounted(s', id)
  {
    RecoverHeld(s.main, s.dlqLog, order, id);
  }

  /** No append fails, and the process only stops when no call is in flight. */
  ghost predicate Clean(cfg: Config, steps: seq<Step>)
    requires ValidRun(cfg, INITIAL, steps)
  {
    |steps| == 0 ||
    (var front := steps[..|steps| - 1];
     var last := steps[|steps| - 1];
     Clean(cfg, front) && !last.AppendFails? && (last.Crash? ==> Run(cfg, INITIAL, front).tasks == []))
  }

  lemma {:induction false} RunKeepsExact(cfg: Config, steps: seq<Step>)
    requires ValidRun(cfg, INITIAL, steps) && Clean(cfg, steps)
    ensures Exact(Run(cfg, INITIAL, steps))
    decreases |steps|
  {
    if |steps| > 0 {
      var front := steps[..|steps| - 1];
      RunKeepsExact(cfg, front);
      var s := Run(cfg, INITIAL, front);
      var last := steps[|steps| - 1];
      if last.Crash? { RestartKeepsExact(cfg, s, last.order); } else { StepKeepsExact(cfg, s, last); }
    }
  }

  ghost predicate LiveMessage(mem: Memory, msg: Message) {
    || (exists i :: 0 <= i < |mem.pending| && mem.pending[i].msg == msg)
    || (exists id :: id in mem.leased && mem.leased[id].msg == msg)
    || (exists i :: 0 <= i < |mem.delayed| && mem.delayed[i].msg == msg)
  }

  /** A genuine message is live exactly when its id is held. */
  lemma LiveMeansHeld(s: System, msg: Message)
    requires AllTraceable(s)
    ensures LiveMessage(s.mem, msg) <==> Held(s.mem, msg.id) > 0 && Genuine(s.created, msg)
  {
    var id := msg.id;
    SumZero(s.mem.pending, PendingOf(id));
    SumZero(s.mem.delayed, DelayedOf(id));
    if LiveMessage(s.mem, msg) {
      if i :| 0 <= i < |s.mem.pending| && s.mem.pending[i].msg == msg {
        SumAt(s.mem.pending, i, PendingOf(id));
      } else if i :| 0 <= i < |s.mem.delayed| && s.mem.delayed[i].msg == msg {
        SumAt(s.mem.delayed, i, DelayedOf(id));
      }
    }
    if Held(s.mem, id) > 0 && Genuine(s.created, msg) {
      if Sum(s.mem.pending, PendingOf(id)) > 0 {
        var i := SumWitness(s.mem.pending, PendingOf(id));
        assert Genuine(s.created, s.mem.pending[i].msg);
      } else if Sum(s.mem.delayed, DelayedOf(id)) > 0 {
        var i := SumWitness(s.mem.delayed, DelayedOf(id));
        assert Genuine(s.created, s.mem.delayed[i].msg);
      } else {
        assert s.mem.leased[id].msg == msg;
      }
    }
  }

  /** `pending` lists exactly the live messages of `mem`, each once, with no delivery counted. */
  ghost predicate ListsLiveMessages(pending: seq<Pending>, mem: Memory) {
    && (forall msg :: LiveMessage(mem, msg) <==> exists i :: 0 <= i < |pending| && pending[i].msg == msg)
    && (forall i, j :: 0 <= i < j < |pending| ==> pending[i].msg.id != pending[j].msg.id)
    && Undelivered(pending)
  }

  lemma RestartListsLive(cfg: Config, s: System, order: seq<MessageId>)
    requires s.tasks == [] && Enabled(cfg, s, Crash(order)) && Exact(s)
    ensures ListsLiveMessages(Apply(cfg, s, Crash(order)).mem.pending, s.mem)
  {
    var s' := Apply(cfg, s, Crash(order));
    RestartKeepsExact(cfg, s, order);
    forall msg
      ensures LiveMessage(s.mem, msg) <==> exists i :: 0 <= i < |s'.mem.pending| && s'.mem.pending[i].msg == msg
    {
      SameHeldSameLive(s, s', msg);
    }
    PendingIdsDiffer(s');
    RecoveredUndelivered(s.main, s.dlqLog, order);
  }

  lemma SameHeldSameLive(s: System, s': System, msg: Message)
    requires AllTraceable(s) && AllTraceable(s') && s'.created == s.created
    requires Held(s'.mem, msg.id) == Held(s.mem, msg.id)
    ensures LiveMessage(s'.mem, msg) <==> LiveMessage(s.mem, msg)
  {
    LiveMeansHeld(s, msg);
    LiveMeansHeld(s', msg);
  }

  lemma PendingIdsDiffer(s: System)
    requires AllInPlace(s)
    ensures forall i, j :: 0 <= i < j < |s.mem.pending| ==> s.mem.pending[i].msg.id != s.mem.pending[j].msg.id
  {
    forall i, j | 0 <= i < j < |s.mem.pending|
      ensures s.mem.pending[i].msg.id != s.mem.pending[j].msg.id
    {
      var id := s.mem.pending[i].msg.id;
      assert InPlace(s, id);
      if s.mem.pending[j].msg.id == id { SumPair(s.mem.pending, i, j, PendingOf(id)); }
    }
  }

  lemma RecoveredUndelivered(main: seq<MainRecord>, dlqLog: seq<DlqRecord>, order: seq<MessageId>)
    ensures Undelivered(Recover(main, dlqLog, order).pending)
  {
    ReplayUndelivered(main);
    ApplyCheckpointsKeepsMessages(ReplayMain(main).pending, ReplayMain(main).checkpoints);
  }

  /** After any clean run, however its calls interleaved and however often it restarted,
      opening the two logs gives back exactly the live messages, each once, as pending with a
      delivery count of zero, and exactly the dead letters, equal but for triage verdicts. */
  lemma RestartRecoversExactly(cfg: Config, steps: seq<Step>, order: seq<MessageId>)
    requires ValidRun(cfg, INITIAL, steps) && Clean(cfg, steps)
    requires Run(cfg, INITIAL, steps).tasks == []
    requires Enabled(cfg, Run(cfg, INITIAL, steps), Crash(order))
    ensures var s := Run(cfg, INITIAL, steps);
      var back := Apply(cfg, s, Crash(order)).mem;
      && ListsLiveMessages(back.pending, s.mem)
      && back.leased == map[] && back.delayed == []
      && back.dlq.Keys == s.mem.dlq.Keys
      && (forall id :: id in s.mem.dlq ==> SameLetter(back.dlq[id], s.mem.dlq[id]))
  {
    var s := Run(cfg, INITIAL, steps);
    RunKeepsExact(cfg, steps);
    RestartListsLive(cfg, s, order);
    RestartKeepsExact(cfg, s, order);
  }

  ghost predicate Undelivered(pending: seq<Pending>) {
    forall i :: 0 <= i < |pending| ==> pending[i].deliveryCount == 0
  }

  lemma RecordKeepsUndelivered(r: Replay, record: MainRecord)
    requires Undelivered(r.pending)
    ensures Undelivered(ReplayRecord(r, record).pending)
  {
  }

  lemma {:induction false} ReplayUndelivered(main: seq<MainRecord>)
    ensures Undelivered(ReplayMain(main).pending)
  {
    if |main| > 0 {
      ReplayUndelivered(main[..|main| - 1]);
      RecordKeepsUndelivered(ReplayMain(main[..|main| - 1]), main[|main| - 1]);
    }
  }
}
