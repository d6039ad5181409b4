/** Completed calls one of whose log appends fails: what they leave behind, and that it is where the
    steps of the call lead when that append fails. */
module Faults {
  import opened Wrappers
  import opened Messages
  import opened Steps
  import opened Census
  import opened Durability
  import opened Partition
  import opened Recovery
  import opened Serial
  import opened SerialRuns
  import Retry

  // ---- One call, one failed append --------------------------------------------------------------

  /** The first task takes `sound` more steps, then the append it awaits fails and it ends. */
  function Break(cfg: Config, s: System, sound: nat): System
    decreases sound
  {
    if |s.tasks| == 0 then s
    else if sound == 0 then Drain(cfg, FailTask(s, 0), NoClock(), NoDraws())
    else Break(cfg, Head(cfg, s, NoClock(), NoDraws()), sound - 1)
  }

  /** The group after a call whose append after `sound` steps of its task failed. */
  ghost function Falter(cfg: Config, s: System, first: Step, sound: nat): System
    requires s.tasks == [] && Enabled(cfg, s, first)
  {
    Break(cfg, Apply(cfg, s, first), sound)
  }

  function EnqueueFails(s: System, msg: Message): System {
    if Deduplicated(s.mem, msg) then s
    else
      s.(mem := s.mem.(dedup := ReleaseKey(RegisterKey(s.mem.dedup, msg.key, msg.id), msg.key)),
         created := s.created[msg.id := msg], gone := s.gone + {msg.id})
  }

  lemma EnqueueFailsIs(cfg: Config, s: System, msg: Message)
    requires s.tasks == [] && msg.id !in s.created
    ensures Falter(cfg, s, BeginEnqueue(msg), 0) == EnqueueFails(s, msg)
  {
    var s1 := Apply(cfg, s, BeginEnqueue(msg));
    if !Deduplicated(s.mem, msg) {
      var s2 := FailTask(s1, 0);
      assert s2.tasks == [Releasing(msg)];
      var s3 := Head(cfg, s2, NoClock(), NoDraws());
      assert s3.tasks == [];
      assert Drain(cfg, s2, NoClock(), NoDraws()) == s3;
    }
  }

  function AckFails(s: System, id: MessageId, token: LeaseToken): System {
    if Holds(s.mem.leased, id, token) then AckCall(s, id, token).(main := s.main) else s
  }

  lemma AckFailsIs(cfg: Config, s: System, id: MessageId, token: LeaseToken)
    requires s.tasks == []
    ensures Falter(cfg, s, BeginAck(id, token), 0) == AckFails(s, id, token)
  {
    var s1 := Apply(cfg, s, BeginAck(id, token));
    if Holds(s.mem.leased, id, token) {
      assert FailTask(s1, 0).tasks == [];
    } else {
      assert RemoveLease(s.mem.leased, id, token).1 == s.mem.leased;
    }
  }

  lemma CheckpointFailsIs(cfg: Config, s: System, id: MessageId, token: LeaseToken, state: Value)
    requires s.tasks == []
    ensures Falter(cfg, s, BeginCheckpoint(id, token, state), 0) == s
  {
    var s1 := Apply(cfg, s, BeginCheckpoint(id, token, state));
    if Holds(s.mem.leased, id, token) {
      assert FailTask(s1, 0).tasks == [];
    }
  }

  lemma AnnotateFailsIs(cfg: Config, s: System, id: MessageId, verdict: TriageVerdict)
    requires s.tasks == []
    ensures Falter(cfg, s, BeginAnnotate(id, verdict), 0) == s
  {
    var s1 := Apply(cfg, s, BeginAnnotate(id, verdict));
    if id in s.mem.dlq {
      assert FailTask(s1, 0).tasks == [];
    }
  }

  /** The Remove record of a reprocess or a purge failed. */
  function TakeFails(s: System, id: MessageId): System {
    if id in s.mem.dlq then s.(mem := s.mem.(dlq := s.mem.dlq - {id}), gone := s.gone + {s.mem.dlq[id].msg.id}) else s
  }

  lemma TakeFailsIs(cfg: Config, s: System, id: MessageId, purpose: Purpose)
    requires s.tasks == []
    ensures Falter(cfg, s, BeginTake(id, purpose), 0) == TakeFails(s, id)
  {
    var s1 := Apply(cfg, s, BeginTake(id, purpose));
    if id in s.mem.dlq {
      assert FailTask(s1, 0).tasks == [];
    } else {
      assert s.mem.dlq - {id} == s.mem.dlq;
    }
  }

  /** The re-Enqueue record of a reprocess failed, its Remove record written. */
  function ReviveFails(s: System, id: MessageId): System {
    if id in s.mem.dlq then
      var msg := s.mem.dlq[id].msg;
      s.(mem := s.mem.(dlq := s.mem.dlq - {id}, dedup := ReleaseKey(s.mem.dedup, msg.key)),
         dlqLog := s.dlqLog + [Remove(msg.id)],
         gone := s.gone + {msg.id}, gapLost := s.gapLost + {msg.id})
    else s
  }

  lemma ReviveFailsIs(cfg: Config, s: System, id: MessageId)
    requires s.tasks == []
    ensures Falter(cfg, s, BeginTake(id, Reprocess), 1) == ReviveFails(s, id)
  {
    var s1 := Apply(cfg, s, BeginTake(id, Reprocess));
    if id in s.mem.dlq {
      var msg := s.mem.dlq[id].msg;
      var s2 := Head(cfg, s1, NoClock(), NoDraws());
      assert s2.tasks == [Reviving(msg)];
      ReleaseDrains(cfg, FailTask(s2, 0), msg);
    } else {
      assert s.mem.dlq - {id} == s.mem.dlq;
    }
  }

  /** So where live and logged state agreed before, neither log has the message any more. */
  lemma ReviveFailsLoses(cfg: Config, s: System, id: MessageId)
    requires s.tasks == [] && Exact(s) && id in s.mem.dlq
    ensures var s' := Falter(cfg, s, BeginTake(id, Reprocess), 1);
      id !in ReplayDlq(s'.dlqLog) && Position(ReplayMain(s'.main).pending, id).None?
  {
    ReviveFailsIs(cfg, s, id);
    TraceableIsWellKeyed(s);
    assert InPlace(s, id) && LiveCopies(s, id) == LoggedCopies(s, id);
    PositionCount(ReplayMain(s.main).pending, id);
    ReplayDlqAppend(s.dlqLog, Remove(id));
  }

  lemma ReleaseDrains(cfg: Config, s: System, msg: Message)
    requires s.tasks == [Releasing(msg)]
    ensures Drain(cfg, s, NoClock(), NoDraws())
         == s.(tasks := [], mem := s.mem.(dedup := ReleaseKey(s.mem.dedup, msg.key)), gone := s.gone + {msg.id})
  {
    var s' := Head(cfg, s, NoClock(), NoDraws());
    assert s'.tasks == [];
    assert Drain(cfg, s, NoClock(), NoDraws()) == s';
  }

  // ---- Failed deliveries, some of whose appends fail ------------------------------------------------

  /** How the two appends of a dead-lettering go: both written, the letter's failed, or the
      letter's written and the DeadLettered record's failed. */
  datatype Disk = Works | LetterFails | BurialFails

  /** The first failed delivery, resolved on such a disk; scheduling a retry writes nothing. */
  function ResolveOn(cfg: Config, s: System, now: MessageId -> Instant, draws: MessageId -> real, disk: Disk): System
    requires |s.tasks| > 0 && s.tasks[0].Failing?
  {
    var f := s.tasks[0].failed;
    if disk.Works? || !Retry.IsExhausted(cfg.policy, f.deliveryCount) then ResolveFirst(cfg, s, now, draws)
    else if disk.LetterFails? then s.(tasks := s.tasks[1..], gone := s.gone + {f.msg.id})
    else ResolveFirst(cfg, s, now, draws).(main := s.main)
  }

  /** That is where the steps lead when that append fails. */
  lemma ResolveOnIsSteps(cfg: Config, s: System, now: MessageId -> Instant, draws: MessageId -> real)
    requires |s.tasks| > 0 && s.tasks[0].Failing? && Retry.IsExhausted(cfg.policy, s.tasks[0].failed.deliveryCount)
    ensures FailTask(s, 0) == ResolveOn(cfg, s, now, draws, LetterFails)
    ensures var s1 := Head(cfg, s, now, draws);
      |s1.tasks| > 0 &&
      var s2 := Head(cfg, s1, now, draws);
      |s2.tasks| > 0 && FailTask(s2, 0) == ResolveOn(cfg, s, now, draws, BurialFails)
  {
    assert FailTask(s, 0).tasks == s.tasks[1..];
    var s2 := Head(cfg, Head(cfg, s, now, draws), now, draws);
    assert FailTask(s2, 0).tasks == s.tasks[1..];
  }

  /** Failed deliveries resolved one after another, each on the disk it meets. */
  function DrainOn(
    cfg: Config, s: System, now: MessageId -> Instant, draws: MessageId -> real, disks: MessageId -> Disk): System
    requires Settled(s)
    decreases |s.tasks|
  {
    if |s.tasks| == 0 then s
    else DrainOn(cfg, ResolveOn(cfg, s, now, draws, disks(s.tasks[0].failed.msg.id)), now, draws, disks)
  }

  /** When every append is written, that is draining. */
  lemma {:induction false} DrainOnWorks(
    cfg: Config, s: System, now: MessageId -> Instant, draws: MessageId -> real, disks: MessageId -> Disk)
    requires Settled(s) && forall t :: 0 <= t < |s.tasks| ==> disks(s.tasks[t].failed.msg.id).Works?
    ensures DrainOn(cfg, s, now, draws, disks) == Drain(cfg, s, now, draws)
    decreases |s.tasks|
  {
    if |s.tasks| > 0 {
      ResolveFirstIsHeads(cfg, s, now, draws);
      DrainOnWorks(cfg, ResolveFirst(cfg, s, now, draws), now, draws, disks);
    }
  }

  // ---- All of it is steps ---------------------------------------------------------------------------

  /** Some run of single steps, failed appends included, leads to `s`. */
  ghost predicate Reached(cfg: Config, s: System) {
    exists steps :: ValidRun(cfg, INITIAL, steps) && Run(cfg, INITIAL, steps) == s
  }

  lemma StepReaches(cfg: Config, s: System, step: Step)
    requires Reached(cfg, s) && Enabled(cfg, s, step)
    ensures Reached(cfg, Apply(cfg, s, step))
  {
    var steps :| ValidRun(cfg, INITIAL, steps) && Run(cfg, INITIAL, steps) == s;
    var more := steps + [step];
    assert more[..|more| - 1] == steps;
    assert ValidRun(cfg, INITIAL, more) && Run(cfg, INITIAL, more) == Apply(cfg, s, step);
  }

  lemma HeadReaches(cfg: Config, s: System, now: MessageId -> Instant, draws: MessageId -> real)
    requires Reached(cfg, s) && |s.tasks| > 0
    ensures Reached(cfg, Head(cfg, s, now, draws))
  {
    var task := s.tasks[0];
    StepReaches(cfg, s, Advance(0, Reading(task, now), Reading(task, draws)));
  }

  lemma {:induction false} DrainReaches(cfg: Config, s: System, now: MessageId -> Instant, draws: MessageId -> real)
    requires Reached(cfg, s)
    ensures Reached(cfg, Drain(cfg, s, now, draws))
    decreases |s.tasks|, if |s.tasks| > 0 then Rank(s.tasks[0]) else 0
  {
    if |s.tasks| > 0 {
      HeadReaches(cfg, s, now, draws);
      HeadRanksLower(cfg, s, now, draws);
      DrainReaches(cfg, Head(cfg, s, now, draws), now, draws);
    }
  }

  /** The task awaits an append once it has taken `sound` more steps, or has ended by then. */
  predicate BreaksAtAppend(cfg: Config, s: System, sound: nat)
    decreases sound
  {
    |s.tasks| == 0 ||
    if sound == 0 then AwaitsAppend(cfg, s.tasks[0])
    else BreaksAtAppend(cfg, Head(cfg, s, NoClock(), NoDraws()), sound - 1)
  }

  lemma {:induction false} BreakReaches(cfg: Config, s: System, sound: nat)
    requires Reached(cfg, s) && BreaksAtAppend(cfg, s, sound)
    ensures Reached(cfg, Break(cfg, s, sound))
    decreases sound
  {
    if |s.tasks| > 0 {
      if sound == 0 {
        FailReaches(cfg, s);
      } else {
        var next := Head(cfg, s, NoClock(), NoDraws());
        assert Reached(cfg, next) by { HeadReaches(cfg, s, NoClock(), NoDraws()); }
        BreakReaches(cfg, next, sound - 1);
        assert Break(cfg, s, sound) == Break(cfg, next, sound - 1);
      }
    }
  }

  lemma FailReaches(cfg: Config, s: System)
    requires Reached(cfg, s) && |s.tasks| > 0 && AwaitsAppend(cfg, s.tasks[0])
    ensures Reached(cfg, Drain(cfg, FailTask(s, 0), NoClock(), NoDraws()))
  {
    StepReaches(cfg, s, AppendFails(0));
    DrainReaches(cfg, FailTask(s, 0), NoClock(), NoDraws());
  }

  /** A call with a failed append is a run of steps, so all that holds of every run holds after it. */
  lemma FalterReaches(cfg: Config, s: System, first: Step, sound: nat)
    requires s.tasks == [] && Enabled(cfg, s, first) && Reached(cfg, s)
    requires BreaksAtAppend(cfg, Apply(cfg, s, first), sound)
    ensures Reached(cfg, Falter(cfg, s, first, sound))
  {
    StepReaches(cfg, s, first);
    BreakReaches(cfg, Apply(cfg, s, first), sound);
  }

  lemma ResolveOnReaches(cfg: Config, s: System, now: MessageId -> Instant, draws: MessageId -> real, disk: Disk)
    requires Reached(cfg, s) && |s.tasks| > 0 && s.tasks[0].Failing?
    ensures Reached(cfg, ResolveOn(cfg, s, now, draws, disk))
  {
    if disk.Works? || !Retry.IsExhausted(cfg.policy, s.tasks[0].failed.deliveryCount) {
      ResolveFirstReaches(cfg, s, now, draws);
    } else if disk.LetterFails? {
      assert FailTask(s, 0) == ResolveOn(cfg, s, now, draws, disk) by { ResolveOnIsSteps(cfg, s, now, draws); }
      StepReaches(cfg, s, AppendFails(0));
    } else {
      BurialFailsReaches(cfg, s, now, draws);
    }
  }

  lemma ResolveFirstReaches(cfg: Config, s: System, now: MessageId -> Instant, draws: MessageId -> real)
    requires Reached(cfg, s) && |s.tasks| > 0 && s.tasks[0].Failing?
    ensures Reached(cfg, ResolveFirst(cfg, s, now, draws))
  {
    ResolveFirstIsHeads(cfg, s, now, draws);
    HeadReaches(cfg, s, now, draws);
    if Retry.IsExhausted(cfg.policy, s.tasks[0].failed.deliveryCount) {
      var s1 := Head(cfg, s, now, draws);
      HeadReaches(cfg, s1, now, draws);
      HeadReaches(cfg, Head(cfg, s1, now, draws), now, draws);
    }
  }

  lemma BurialFailsReaches(cfg: Config, s: System, now: MessageId -> Instant, draws: MessageId -> real)
    requires Reached(cfg, s) && |s.tasks| > 0 && s.tasks[0].Failing?
    requires Retry.IsExhausted(cfg.policy, s.tasks[0].failed.deliveryCount)
    ensures Reached(cfg, ResolveOn(cfg, s, now, draws, BurialFails))
  {
    var s1 := Head(cfg, s, now, draws);
    BuryingAwaits(cfg, s, now, draws);
    var s2 := Head(cfg, s1, now, draws);
    assert FailTask(s2, 0) == ResolveOn(cfg, s, now, draws, BurialFails) by { ResolveOnIsSteps(cfg, s, now, draws); }
    HeadReaches(cfg, s, now, draws);
    HeadReaches(cfg, s1, now, draws);
    StepReaches(cfg, s2, AppendFails(0));
  }

  lemma BuryingAwaits(cfg: Config, s: System, now: MessageId -> Instant, draws: MessageId -> real)
    requires |s.tasks| > 0 && s.tasks[0].Failing? && Retry.IsExhausted(cfg.policy, s.tasks[0].failed.deliveryCount)
    ensures var s1 := Head(cfg, s, now, draws);
      |s1.tasks| > 0 && |Head(cfg, s1, now, draws).tasks| > 0 && Head(cfg, s1, now, draws).tasks[0].Burying?
  {
  }

  /** And so is a batch of failed deliveries on a failing disk. */
  lemma {:induction false} DrainOnReaches(
    cfg: Config, s: System, now: MessageId -> Instant, draws: MessageId -> real, disks: MessageId -> Disk)
    requires Reached(cfg, s) && Settled(s)
    ensures Reached(cfg, DrainOn(cfg, s, now, draws, disks))
    decreases |s.tasks|
  {
    if |s.tasks| > 0 {
      var disk := disks(s.tasks[0].failed.msg.id);
      ResolveOnReaches(cfg, s, now, draws, disk);
      DrainOnReaches(cfg, ResolveOn(cfg, s, now, draws, disk), now, draws, disks);
    }
  }
}
