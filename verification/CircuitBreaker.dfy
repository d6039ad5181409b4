/** The circuit breaker: three states, two streak counters and the time it last opened. Calls
    interleave at lock sections, so a run is any sequence of state checks and recorded results. */
module CircuitBreakers {
  import opened Wrappers
  import opened Counting

  type Instant = real

  datatype CircuitState = Closed | Open | HalfOpen

  datatype Config = Config(failureThreshold: nat, openDuration: real, halfOpenSuccessThreshold: nat)

  datatype Inner = Inner(state: CircuitState, failures: nat, successes: nat, openedAt: Option<Instant>)

  /** One lock section, and when it ran. */
  datatype Event = Check(now: Instant) | Success(now: Instant) | Failure(now: Instant)

  const NEW: Inner := Inner(Closed, 0, 0, None)

  predicate Elapsed(c: Config, b: Inner, now: Instant) {
    b.openedAt.Some? && now - b.openedAt.value >= c.openDuration
  }

  function Opened(now: Instant): Inner {
    Inner(Open, 0, 0, Some(now))
  }

  function React(c: Config, b: Inner, event: Event): Inner {
    match event
    case Check(now) =>
      if b.state == Open && Elapsed(c, b, now) then b.(state := HalfOpen, failures := 0, successes := 0) else b
    case Success(_) =>
      (match b.state
       case Closed => b.(failures := 0)
       case HalfOpen =>
         if b.successes + 1 >= c.halfOpenSuccessThreshold then b.(state := Closed, failures := 0, successes := 0)
         else b.(successes := b.successes + 1)
       case Open => b)
    case Failure(now) =>
      (match b.state
       case Closed =>
         if b.failures + 1 >= c.failureThreshold then Opened(now) else b.(failures := b.failures + 1)
       case HalfOpen => Opened(now)
       case Open => b)
  }

  /** The breaker after the first `k` events of a run. */
  function At(c: Config, events: seq<Event>, k: nat): Inner
    requires k <= |events|
  {
    if k == 0 then NEW else React(c, At(c, events, k - 1), events[k - 1])
  }

  /** The clock never runs backwards. */
  predicate Monotone(events: seq<Event>) {
    forall i, j :: 0 <= i <= j < |events| ==> events[i].now <= events[j].now
  }

  function AtLeastOne(n: nat): nat {
    if n == 0 then 1 else n
  }

  function Successes(events: seq<Event>, lo: nat, hi: nat): nat
    requires lo <= hi <= |events|
  {
    Sum(events[lo..hi], (e: Event) => if e.Success? then 1 else 0)
  }

  function Failures(events: seq<Event>, lo: nat, hi: nat): nat
    requires lo <= hi <= |events|
  {
    Sum(events[lo..hi], (e: Event) => if e.Failure? then 1 else 0)
  }

  lemma CountsGrow(events: seq<Event>, lo: nat, hi: nat)
    requires lo <= hi < |events|
    ensures Successes(events, lo, hi + 1) == Successes(events, lo, hi) + if events[hi].Success? then 1 else 0
    ensures Failures(events, lo, hi + 1) == Failures(events, lo, hi) + if events[hi].Failure? then 1 else 0
  {
    assert events[lo..hi + 1] == events[lo..hi] + [events[hi]];
    SumAppend(events[lo..hi], events[hi], (e: Event) => if e.Success? then 1 else 0);
    SumAppend(events[lo..hi], events[hi], (e: Event) => if e.Failure? then 1 else 0);
  }

  // ---- Staying open --------------------------------------------------------------------------

  /** Event `i` opened the circuit. */
  predicate OpensAt(c: Config, events: seq<Event>, i: nat)
    requires i < |events|
  {
    At(c, events, i).state != Open && At(c, events, i + 1).state == Open
  }

  /** Until the cooldown has passed, nothing that arrives moves an open circuit. */
  lemma {:induction false} StaysOpen(c: Config, events: seq<Event>, i: nat, k: nat)
    requires i < k <= |events| && Monotone(events) && OpensAt(c, events, i)
    requires forall m :: i < m < k ==> events[m].now < events[i].now + c.openDuration
    ensures At(c, events, k).state == Open && At(c, events, k).openedAt == Some(events[i].now)
    decreases k
  {
    if k > i + 1 {
      StaysOpen(c, events, i, k - 1);
      assert events[k - 1].now < events[i].now + c.openDuration;
    }
  }

  /** Once opened at time t, every check before t + open_duration finds the circuit open, so
      its call is rejected, whatever late results were recorded in between. */
  lemma RejectsUntilCooldown(c: Config, events: seq<Event>, i: nat, k: nat)
    requires i < k < |events| && Monotone(events) && OpensAt(c, events, i)
    requires events[k].Check? && events[k].now < events[i].now + c.openDuration
    ensures events[i].Failure?
    ensures At(c, events, k + 1).state == Open
  {
    StaysOpen(c, events, i, k + 1);
  }

  /** And the first check from then on starts the trial. */
  lemma TrialStartsAtCooldown(c: Config, events: seq<Event>, i: nat, k: nat)
    requires i < k < |events| && OpensAt(c, events, i)
    requires forall m :: i < m < k && events[m].Check? ==> events[m].now < events[i].now + c.openDuration
    requires events[k].Check? && events[k].now >= events[i].now + c.openDuration
    ensures At(c, events, k) == Opened(events[i].now)
    ensures At(c, events, k + 1).state == HalfOpen && At(c, events, k + 1).successes == 0
  {
    OpenUntilChecked(c, events, i, k);
  }

  lemma {:induction false} OpenUntilChecked(c: Config, events: seq<Event>, i: nat, k: nat)
    requires i < k <= |events| && OpensAt(c, events, i)
    requires forall m :: i < m < k && events[m].Check? ==> events[m].now < events[i].now + c.openDuration
    ensures At(c, events, k) == Opened(events[i].now)
    decreases k
  {
    if k > i + 1 {
      OpenUntilChecked(c, events, i, k - 1);
    }
  }

  // ---- Closing again -------------------------------------------------------------------------

  /** Event `i` started a trial that is still on before event `k`, with no failure since. */
  predicate TrialSince(c: Config, events: seq<Event>, i: nat, k: nat)
    requires i < k <= |events|
  {
    && At(c, events, i).state == Open && events[i].Check?
    && (forall m :: i < m <= k ==> At(c, events, m).state == HalfOpen)
    && Failures(events, i + 1, k) == 0
    && At(c, events, k).successes == Successes(events, i + 1, k) < AtLeastOne(c.halfOpenSuccessThreshold)
  }

  /** A half-open circuit has been so since one check, and counts the successes since then. */
  lemma {:induction false} HalfOpenIsTrial(c: Config, events: seq<Event>, k: nat) returns (i: nat)
    requires k <= |events| && At(c, events, k).state == HalfOpen
    ensures i < k && TrialSince(c, events, i, k)
    decreases k
  {
    if At(c, events, k - 1).state == HalfOpen {
      i := HalfOpenIsTrial(c, events, k - 1);
      CountsGrow(events, i + 1, k - 1);
    } else {
      i := k - 1;
      assert events[k..k] == [];
    }
  }

  /** The circuit closes again only at a success that completes a trial: exactly the threshold's
      number of successes, and no failure, since the check that started it. */
  lemma ClosesOnlyAfterTrial(c: Config, events: seq<Event>, k: nat) returns (i: nat)
    requires k < |events| && At(c, events, k).state != Closed && At(c, events, k + 1).state == Closed
    ensures events[k].Success? && i < k && TrialSince(c, events, i, k)
    ensures Successes(events, i + 1, k + 1) == AtLeastOne(c.halfOpenSuccessThreshold)
    ensures Failures(events, i + 1, k + 1) == 0
  {
    i := HalfOpenIsTrial(c, events, k);
    CountsGrow(events, i + 1, k);
  }

  /** A trial's next event decides: a failure reopens at once, the last success needed closes,
      anything else leaves the trial on. */
  lemma TrialDecides(c: Config, events: seq<Event>, i: nat, k: nat)
    requires i < k < |events| && TrialSince(c, events, i, k)
    ensures events[k].Failure? <==> At(c, events, k + 1).state == Open
    ensures At(c, events, k + 1).state == Closed <==>
      events[k].Success? && Successes(events, i + 1, k + 1) == AtLeastOne(c.halfOpenSuccessThreshold)
    ensures At(c, events, k + 1).state == HalfOpen <==> TrialSince(c, events, i, k + 1)
  {
    CountsGrow(events, i + 1, k);
  }

  // ---- Opening -------------------------------------------------------------------------------

  /** Closed from `i` to `k` with no success in between, and every failure counted. */
  predicate StreakSince(c: Config, events: seq<Event>, i: nat, k: nat)
    requires i <= k <= |events|
  {
    && (forall m :: i <= m <= k ==> At(c, events, m).state == Closed)
    && Successes(events, i, k) == 0
    && At(c, events, k).failures == Failures(events, i, k) < AtLeastOne(c.failureThreshold)
  }

  /** A closed circuit counts the failures since its last success or since it closed. */
  lemma {:induction false} ClosedIsStreak(c: Config, events: seq<Event>, k: nat) returns (i: nat)
    requires k <= |events| && At(c, events, k).state == Closed
    ensures i <= k && StreakSince(c, events, i, k)
    ensures i > 0 ==> events[i - 1].Success?
    decreases k
  {
    if k > 0 && At(c, events, k - 1).state == Closed && !events[k - 1].Success? {
      i := ClosedIsStreak(c, events, k - 1);
      CountsGrow(events, i, k - 1);
    } else {
      i := k;
      assert events[k..k] == [];
    }
  }

  /** A closed circuit opens only at the failure that completes a streak: exactly the threshold's
      number of failures with no success recorded between them. */
  lemma OpensOnlyAfterStreak(c: Config, events: seq<Event>, k: nat) returns (i: nat)
    requires k < |events| && At(c, events, k).state == Closed && At(c, events, k + 1).state == Open
    ensures events[k].Failure? && i <= k && StreakSince(c, events, i, k)
    ensures Failures(events, i, k + 1) == AtLeastOne(c.failureThreshold)
    ensures Successes(events, i, k + 1) == 0
  {
    i := ClosedIsStreak(c, events, k);
    CountsGrow(events, i, k);
  }

  /** And the streak's last failure always opens it. */
  lemma StreakDecides(c: Config, events: seq<Event>, i: nat, k: nat)
    requires i <= k < |events| && StreakSince(c, events, i, k)
    ensures At(c, events, k + 1).state == Open <==> Failures(events, i, k + 1) == AtLeastOne(c.failureThreshold)
    ensures At(c, events, k + 1).state == Closed <==> Failures(events, i, k + 1) < AtLeastOne(c.failureThreshold)
    ensures At(c, events, k + 1).state != HalfOpen
  {
    CountsGrow(events, i, k);
  }

  // ---- The object ----------------------------------------------------------------------------

  class CircuitBreaker {
    const config: Config
    var state: CircuitState
    var consecutiveFailures: nat
    var consecutiveSuccesses: nat
    var openedAt: Option<Instant>

    function Value(): Inner
      reads this
    {
      Inner(state, consecutiveFailures, consecutiveSuccesses, openedAt)
    }

    constructor (config: Config)
      ensures Value() == NEW && this.config == config
    {
      this.config := config;
      state, consecutiveFailures, consecutiveSuccesses, openedAt := Closed, 0, 0, None;
    }

    /** The check that starts a call; the operation runs only if the result is not `Open`. */
    method CurrentState(now: Instant) returns (s: CircuitState)
      modifies this
      ensures Value() == React(config, old(Value()), Check(now)) && s == state
    {
      if state == Open {
        if openedAt.Some? && now - openedAt.value >= config.openDuration {
          state, consecutiveFailures, consecutiveSuccesses := HalfOpen, 0, 0;
        }
      }
      s := state;
    }

    method RecordSuccess(now: Instant)
      modifies this
      ensures Value() == React(config, old(Value()), Success(now))
    {
      match state {
        case Closed =>
          consecutiveFailures := 0;
        case HalfOpen =>
          consecutiveSuccesses := consecutiveSuccesses + 1;
          if consecutiveSuccesses >= config.halfOpenSuccessThreshold {
            state, consecutiveFailures, consecutiveSuccesses := Closed, 0, 0;
          }
        case Open =>
      }
    }

    method RecordFailure(now: Instant)
      modifies this
      ensures Value() == React(config, old(Value()), Failure(now))
    {
      match state {
        case Closed =>
          consecutiveFailures := consecutiveFailures + 1;
          if consecutiveFailures >= config.failureThreshold {
            Trip(now);
          }
        case HalfOpen =>
          Trip(now);
        case Open =>
      }
    }

    method Trip(now: Instant)
      modifies this
      ensures Value() == Opened(now)
    {
      state, openedAt := Open, Some(now);
      consecutiveFailures, consecutiveSuccesses := 0, 0;
    }
  }
}
