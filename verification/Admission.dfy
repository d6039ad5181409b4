/** The sliding-window token and cost budget: a lazily evicted deque, what it agrees with, and
    the bound it keeps over every trailing window. */
module Admission {
  import opened Wrappers

  const U64_MAX: nat := 0xffff_ffff_ffff_ffff

  /** Instants and durations, in seconds. */
  type Instant = real

  datatype AdmissionConfig = AdmissionConfig(tokensPerWindow: Option<nat>, costCeiling: Option<real>, window: real)

  datatype UsageEntry = UsageEntry(at: Instant, tokens: nat, cost: real)

  datatype Refusal = TooManyTokens(projected: nat, limit: nat) | TooCostly(projectedCost: real, ceiling: real)

  datatype Decision =
    | Admitted(tokensRemaining: Option<nat>, costRemaining: Option<real>)
    | Denied(reason: Refusal, retryAfter: Option<real>)

  /** How long ago `at` was; zero when it is not in the past. */
  function Since(now: Instant, at: Instant): real {
    if now <= at then 0.0 else now - at
  }

  function SaturatingAdd(a: nat, b: nat): nat {
    if a + b <= U64_MAX then a + b else U64_MAX
  }

  predicate Stale(entry: UsageEntry, window: real, now: Instant) {
    Since(now, entry.at) >= window
  }

  /** Drops entries from the front while they are out of the window. */
  function Evict(entries: seq<UsageEntry>, window: real, now: Instant): seq<UsageEntry> {
    if |entries| > 0 && Stale(entries[0], window, now) then Evict(entries[1..], window, now) else entries
  }

  function UsedTokens(entries: seq<UsageEntry>): nat {
    if |entries| == 0 then 0 else SaturatingAdd(UsedTokens(entries[..|entries| - 1]), entries[|entries| - 1].tokens)
  }

  function UsedCost(entries: seq<UsageEntry>): real {
    if |entries| == 0 then 0.0 else UsedCost(entries[..|entries| - 1]) + entries[|entries| - 1].cost
  }

  function RetryAfter(entries: seq<UsageEntry>, window: real, now: Instant): real {
    if |entries| == 0 then 0.0
    else if Since(now, entries[0].at) >= window then 0.0 else window - Since(now, entries[0].at)
  }

  predicate HasHeadroom(config: AdmissionConfig, entries: seq<UsageEntry>) {
    && (config.tokensPerWindow.Some? ==> UsedTokens(entries) < config.tokensPerWindow.value)
    && (config.costCeiling.Some? ==> UsedCost(entries) < config.costCeiling.value)
  }

  /** The verdict on a request against already evicted entries. */
  function Decide(config: AdmissionConfig, entries: seq<UsageEntry>, now: Instant, tokens: nat, cost: real): Decision {
    var projected := SaturatingAdd(UsedTokens(entries), tokens);
    var projectedCost := UsedCost(entries) + cost;
    if config.tokensPerWindow.Some? && projected > config.tokensPerWindow.value then
      var limit := config.tokensPerWindow.value;
      Denied(TooManyTokens(projected, limit),
             if tokens <= limit then Some(RetryAfter(entries, config.window, now)) else None)
    else if config.costCeiling.Some? && projectedCost > config.costCeiling.value then
      var ceiling := config.costCeiling.value;
      Denied(TooCostly(projectedCost, ceiling),
             if cost <= ceiling then Some(RetryAfter(entries, config.window, now)) else None)
    else
      Admitted(if config.tokensPerWindow.Some? then Some(config.tokensPerWindow.value - projected) else None,
               if config.costCeiling.Some? then Some(config.costCeiling.value - projectedCost) else None)
  }

  // ---- Call histories --------------------------------------------------------------------------

  datatype Call =
    | TryAdmit(now: Instant, tokens: nat, cost: real)
    | Look(now: Instant)
    | SetConfig(config: AdmissionConfig)

  /** A controller, everything it ever admitted, and the latest clock reading. */
  datatype Budget = Budget(config: AdmissionConfig, entries: seq<UsageEntry>, admitted: seq<UsageEntry>, clock: Instant)

  function NewBudget(config: AdmissionConfig, clock: Instant): Budget {
    Budget(config, [], [], clock)
  }

  function Step(b: Budget, call: Call): Budget {
    match call
    case SetConfig(config) => b.(config := config)
    case Look(now) => b.(entries := Evict(b.entries, b.config.window, now), clock := now)
    case TryAdmit(now, tokens, cost) =>
      var kept := Evict(b.entries, b.config.window, now);
      var entry := UsageEntry(now, tokens, cost);
      if Decide(b.config, kept, now, tokens, cost).Admitted? then
        b.(entries := kept + [entry], admitted := b.admitted + [entry], clock := now)
      else b.(entries := kept, clock := now)
  }

  /** The clock does not run backwards, and requests are u64 tokens at no negative cost. */
  predicate Timely(b: Budget, call: Call) {
    match call
    case SetConfig(_) => true
    case Look(now) => b.clock <= now
    case TryAdmit(now, tokens, cost) => b.clock <= now && tokens <= U64_MAX && cost >= 0.0
  }

  ghost predicate TimelyCalls(config: AdmissionConfig, clock: Instant, calls: seq<Call>) {
    |calls| == 0 || (TimelyCalls(config, clock, calls[..|calls| - 1])
                     && Timely(After(config, clock, calls[..|calls| - 1]), calls[|calls| - 1]))
  }

  /** Every admission the deque has lost is out of a window of this length by `now`. */
  ghost predicate LostAreOut(b: Budget, window: real, now: Instant) {
    forall i :: 0 <= i < |b.admitted| - |b.entries| ==> now - b.admitted[i].at >= window
  }

  /** Timely, and no new window reaches back to an admission already evicted. */
  ghost predicate Proper(b: Budget, call: Call) {
    Timely(b, call) && (call.SetConfig? ==> LostAreOut(b, call.config.window, b.clock))
  }

  ghost predicate ProperCalls(config: AdmissionConfig, clock: Instant, calls: seq<Call>) {
    |calls| == 0 || (ProperCalls(config, clock, calls[..|calls| - 1])
                     && Proper(After(config, clock, calls[..|calls| - 1]), calls[|calls| - 1]))
  }

  function After(config: AdmissionConfig, clock: Instant, calls: seq<Call>): Budget {
    if |calls| == 0 then NewBudget(config, clock)
    else Step(After(config, clock, calls[..|calls| - 1]), calls[|calls| - 1])
  }

  // ---- The deque agrees with the filtered history ------------------------------------------------

  /** The admissions in `(from, to]`, in order. */
  function Within(history: seq<UsageEntry>, from: Instant, to: Instant): seq<UsageEntry> {
    if |history| == 0 then []
    else
      var rest := Within(history[..|history| - 1], from, to);
      var last := history[|history| - 1];
      if from < last.at <= to then rest + [last] else rest
  }

  /** Admitted one after another, the last no later than `clock`, at no negative cost. */
  ghost predicate InOrder(history: seq<UsageEntry>, clock: Instant) {
    |history| == 0 ||
    (var last := history[|history| - 1];
     last.at <= clock && last.cost >= 0.0 && InOrder(history[..|history| - 1], last.at))
  }

  lemma {:induction false} OrderedUntil(history: seq<UsageEntry>, clock: Instant, i: nat)
    requires InOrder(history, clock) && i < |history|
    ensures history[i].at <= clock && history[i].cost >= 0.0
    decreases |history|
  {
    if i < |history| - 1 { OrderedUntil(history[..|history| - 1], history[|history| - 1].at, i); }
  }

  lemma {:induction false} OrderedPair(history: seq<UsageEntry>, clock: Instant, i: nat, j: nat)
    requires InOrder(history, clock) && i <= j < |history|
    ensures history[i].at <= history[j].at
    decreases |history|
  {
    var front, last := history[..|history| - 1], history[|history| - 1];
    if j < |history| - 1 {
      OrderedPair(front, last.at, i, j);
    } else if i < j {
      OrderedUntil(front, last.at, i);
    }
  }

  lemma LaterClock(history: seq<UsageEntry>, clock: Instant, later: Instant)
    requires InOrder(history, clock) && clock <= later
    ensures InOrder(history, later)
  {
  }

  /** The deque is the end of the history. */
  ghost predicate EndOfHistory(b: Budget) {
    && InOrder(b.admitted, b.clock)
    && |b.entries| <= |b.admitted|
    && b.entries == b.admitted[|b.admitted| - |b.entries|..]
  }

  /** And what it lost is out of the window for good. */
  ghost predicate Consistent(b: Budget) {
    EndOfHistory(b) && LostAreOut(b, b.config.window, b.clock)
  }

  lemma {:induction false} EvictIsSuffix(entries: seq<UsageEntry>, window: real, now: Instant)
    ensures var kept := Evict(entries, window, now);
      && |kept| <= |entries| && kept == entries[|entries| - |kept|..]
      && (forall i :: 0 <= i < |entries| - |kept| ==> Stale(entries[i], window, now))
      && (|kept| > 0 ==> !Stale(kept[0], window, now))
  {
    if |entries| > 0 && Stale(entries[0], window, now) {
      EvictIsSuffix(entries[1..], window, now);
    }
  }

  lemma {:induction false} WithinNone(history: seq<UsageEntry>, from: Instant, to: Instant)
    requires forall i :: 0 <= i < |history| ==> history[i].at <= from || to < history[i].at
    ensures Within(history, from, to) == []
  {
    if |history| > 0 { WithinNone(history[..|history| - 1], from, to); }
  }

  /** In an ordered history the window is a suffix: everything before it is out, everything in it in. */
  lemma {:induction false} WithinSuffix(history: seq<UsageEntry>, cut: nat, from: Instant, to: Instant)
    requires cut <= |history|
    requires forall i :: 0 <= i < cut ==> history[i].at <= from
    requires forall i :: cut <= i < |history| ==> from < history[i].at <= to
    ensures Within(history, from, to) == history[cut..]
  {
    if cut == |history| {
      WithinNone(history, from, to);
    } else {
      WithinSuffix(history[..|history| - 1], cut, from, to);
      assert history[..|history| - 1][cut..] + [history[|history| - 1]] == history[cut..];
    }
  }

  /** Evicting drops from the history's end nothing but stale admissions. */
  lemma EvictKeepsEnd(b: Budget, now: Instant)
    requires EndOfHistory(b) && b.clock <= now
    ensures EndOfHistory(b.(entries := Evict(b.entries, b.config.window, now), clock := now))
    ensures LostAreOut(b, b.config.window, now) <==>
      LostAreOut(b.(entries := Evict(b.entries, b.config.window, now), clock := now), b.config.window, now)
  {
    var kept := Evict(b.entries, b.config.window, now);
    EvictIsSuffix(b.entries, b.config.window, now);
    LaterClock(b.admitted, b.clock, now);
    var lost := |b.admitted| - |b.entries|;
    forall i | lost <= i < |b.admitted| - |kept| ensures now - b.admitted[i].at >= b.config.window {
      assert b.admitted[i] == b.entries[i - lost];
      OrderedUntil(b.admitted, b.clock, i);
    }
  }

  lemma EvictKeepsConsistent(b: Budget, now: Instant)
    requires Consistent(b) && b.clock <= now
    ensures Consistent(b.(entries := Evict(b.entries, b.config.window, now), clock := now))
  {
    EvictKeepsEnd(b, now);
  }

  lemma AdmitKeepsConsistent(b: Budget, entry: UsageEntry)
    requires Consistent(b) && entry.at == b.clock && entry.cost >= 0.0
    ensures Consistent(b.(entries := b.entries + [entry], admitted := b.admitted + [entry]))
  {
    AdmitKeepsEnd(b, entry);
  }

  /** After evicting at `now`, the deque holds exactly the admissions younger than the window. */
  ghost predicate Agrees(b: Budget, now: Instant) {
    Evict(b.entries, b.config.window, now) == Within(b.admitted, now - b.config.window, now)
  }

  lemma EvictionAgrees(b: Budget, now: Instant)
    requires EndOfHistory(b) && b.clock <= now && LostAreOut(b, b.config.window, now)
    ensures Agrees(b, now)
  {
    var kept := Evict(b.entries, b.config.window, now);
    var cut := |b.admitted| - |kept|;
    EvictIsSuffix(b.entries, b.config.window, now);
    EvictKeepsEnd(b, now);
    forall i | cut <= i < |b.admitted| ensures now - b.config.window < b.admitted[i].at <= now {
      assert b.admitted[cut] == kept[0];
      OrderedPair(b.admitted, b.clock, cut, i);
      OrderedUntil(b.admitted, b.clock, i);
    }
    WithinSuffix(b.admitted, cut, now - b.config.window, now);
  }

  /** The window holds at least what follows any admission inside it. */
  lemma {:induction false} WithinHolds(history: seq<UsageEntry>, i: nat, from: Instant, to: Instant)
    requires i <= |history| && forall k :: i <= k < |history| ==> from < history[k].at <= to
    ensures |Within(history, from, to)| >= |history| - i
    decreases |history|
  {
    if i < |history| {
      WithinHolds(history[..|history| - 1], i, from, to);
    }
  }

  /** Whatever configurations a controller went through, after evicting at `now` its deque agrees with
      the full history if and only if no admission it has lost is inside the window then. */
  lemma EvictionAgreesExactly(b: Budget, now: Instant)
    requires EndOfHistory(b) && b.clock <= now
    ensures Agrees(b, now) <==> LostAreOut(b, b.config.window, now)
  {
    if LostAreOut(b, b.config.window, now) {
      EvictionAgrees(b, now);
    } else {
      var i :| 0 <= i < |b.admitted| - |b.entries| && now - b.admitted[i].at < b.config.window;
      LostInsideDisagrees(b, now, i);
    }
  }

  /** A lost admission inside the window makes the window hold more than the deque can. */
  lemma LostInsideDisagrees(b: Budget, now: Instant, i: nat)
    requires EndOfHistory(b) && b.clock <= now
    requires i < |b.admitted| - |b.entries| && now - b.admitted[i].at < b.config.window
    ensures !Agrees(b, now)
  {
    forall k | i <= k < |b.admitted| ensures now - b.config.window < b.admitted[k].at <= now {
      OrderedPair(b.admitted, b.clock, i, k);
      OrderedUntil(b.admitted, b.clock, k);
    }
    assert |Within(b.admitted, now - b.config.window, now)| > |b.entries| by {
      WithinHolds(b.admitted, i, now - b.config.window, now);
    }
    assert |Evict(b.entries, b.config.window, now)| <= |b.entries| by {
      EvictIsSuffix(b.entries, b.config.window, now);
    }
  }

  lemma StepKeepsEnd(b: Budget, call: Call)
    requires EndOfHistory(b) && Timely(b, call)
    ensures EndOfHistory(Step(b, call))
  {
    if !call.SetConfig? {
      EvictKeepsEnd(b, call.now);
      if call.TryAdmit? {
        var kept := Evict(b.entries, b.config.window, call.now);
        AdmitKeepsEnd(b.(entries := kept, clock := call.now), UsageEntry(call.now, call.tokens, call.cost));
      }
    }
  }

  lemma AdmitKeepsEnd(b: Budget, entry: UsageEntry)
    requires EndOfHistory(b) && entry.at == b.clock && entry.cost >= 0.0
    ensures EndOfHistory(b.(entries := b.entries + [entry], admitted := b.admitted + [entry]))
  {
    assert (b.admitted + [entry])[..|b.admitted|] == b.admitted;
  }

  lemma {:induction false} CallsKeepEnd(config: AdmissionConfig, clock: Instant, calls: seq<Call>)
    requires TimelyCalls(config, clock, calls)
    ensures EndOfHistory(After(config, clock, calls))
    decreases |calls|
  {
    if |calls| > 0 {
      CallsKeepEnd(config, clock, calls[..|calls| - 1]);
      StepKeepsEnd(After(config, clock, calls[..|calls| - 1]), calls[|calls| - 1]);
    }
  }

  /** Over any call history whatever, windows lengthened and shortened at will, the deque evicted at
      `now` is the full history filtered by age if and only if every admission it has lost is out of
      the current window by then. */
  lemma DequeAgreesExactly(config: AdmissionConfig, clock: Instant, calls: seq<Call>, now: Instant)
    requires TimelyCalls(config, clock, calls) && After(config, clock, calls).clock <= now
    ensures var b := After(config, clock, calls); Agrees(b, now) <==> LostAreOut(b, b.config.window, now)
  {
    var b := After(config, clock, calls);
    assert EndOfHistory(b) by { CallsKeepEnd(config, clock, calls); }
    EvictionAgreesExactly(b, now);
  }

  /** A new configuration keeps the deque in agreement from then on if and only if its window does
      not reach back to an admission already evicted. */
  lemma ReconfigureAgreesExactly(b: Budget, config: AdmissionConfig)
    requires EndOfHistory(b)
    ensures (forall now :: b.clock <= now ==> Agrees(Step(b, SetConfig(config)), now))
      <==> LostAreOut(b, config.window, b.clock)
  {
    var b' := Step(b, SetConfig(config));
    forall now | b.clock <= now
      ensures Agrees(b', now) <==> LostAreOut(b, config.window, now)
    {
      EvictionAgreesExactly(b', now);
    }
    assert Agrees(b', b.clock) <==> LostAreOut(b, config.window, b.clock);
    if LostAreOut(b, config.window, b.clock) {
      forall now | b.clock <= now ensures LostAreOut(b, config.window, now) {
      }
    }
  }

  /** Shortening the window, or keeping it, is always proper. */
  lemma NarrowingIsProper(b: Budget, config: AdmissionConfig)
    requires Consistent(b) && config.window <= b.config.window
    ensures Proper(b, SetConfig(config))
  {
  }

  lemma StepKeepsConsistent(b: Budget, call: Call)
    requires Consistent(b) && Proper(b, call)
    ensures Consistent(Step(b, call))
  {
    if !call.SetConfig? {
      EvictKeepsConsistent(b, call.now);
      if call.TryAdmit? {
        var kept := Evict(b.entries, b.config.window, call.now);
        AdmitKeepsConsistent(b.(entries := kept, clock := call.now), UsageEntry(call.now, call.tokens, call.cost));
      }
    }
  }

  lemma {:induction false} CallsKeepConsistent(config: AdmissionConfig, clock: Instant, calls: seq<Call>)
    requires ProperCalls(config, clock, calls)
    ensures Consistent(After(config, clock, calls))
    decreases |calls|
  {
    if |calls| > 0 {
      CallsKeepConsistent(config, clock, calls[..|calls| - 1]);
      StepKeepsConsistent(After(config, clock, calls[..|calls| - 1]), calls[|calls| - 1]);
    }
  }

  /** Over any call history none of whose windows reaches back to an evicted admission, eviction from
      the front alone leaves exactly the full history filtered by age, at all times. */
  lemma DequeAgreesWithHistory(config: AdmissionConfig, clock: Instant, calls: seq<Call>, now: Instant)
    requires ProperCalls(config, clock, calls) && After(config, clock, calls).clock <= now
    ensures Agrees(After(config, clock, calls), now)
  {
    var b := After(config, clock, calls);
    assert Consistent(b) by { CallsKeepConsistent(config, clock, calls); }
    EvictionAgrees(b, now);
  }

  /** Lengthening the window is what breaks it: an entry already evicted does not come back. */
  lemma LengtheningLosesEntries()
    ensures var config := AdmissionConfig(Some(10), None, 1.0);
      var b := After(config, 0.0, [TryAdmit(0.0, 7, 0.0), Look(2.0), SetConfig(config.(window := 5.0))]);
      && Evict(b.entries, b.config.window, 2.0) == []
      && Within(b.admitted, 2.0 - b.config.window, 2.0) == [UsageEntry(0.0, 7, 0.0)]
      && !Agrees(b, 2.0)
  {
    var config := AdmissionConfig(Some(10), None, 1.0);
    var entry := UsageEntry(0.0, 7, 0.0);
    var calls := [TryAdmit(0.0, 7, 0.0), Look(2.0), SetConfig(config.(window := 5.0))];
    assert calls[..2][..1] == [TryAdmit(0.0, 7, 0.0)] && calls[..1][..0] == [];
    assert After(config, 0.0, []) == NewBudget(config, 0.0);
    assert After(config, 0.0, calls[..1]) == Budget(config, [entry], [entry], 0.0);
    assert Evict([entry], 1.0, 2.0) == Evict([], 1.0, 2.0) == [];
    assert After(config, 0.0, calls[..2]) == Budget(config, [], [entry], 2.0);
    assert [entry][..0] == [];
  }

  // ---- The bound over every trailing window ---------------------------------------------------------

  /** A non-negative quantity each admission uses up: its tokens or its cost. */
  ghost function Total(history: seq<UsageEntry>, use: UsageEntry -> real): real {
    if |history| == 0 then 0.0 else Total(history[..|history| - 1], use) + use(history[|history| - 1])
  }

  function TokensOf(): UsageEntry -> real { (e: UsageEntry) => e.tokens as real }

  function CostOf(): UsageEntry -> real { (e: UsageEntry) => e.cost }

  /** The tokens of `history`, unsaturated. */
  function TrueTokens(history: seq<UsageEntry>): nat {
    if |history| == 0 then 0 else TrueTokens(history[..|history| - 1]) + history[|history| - 1].tokens
  }

  lemma {:induction false} SaturationIsCapping(entries: seq<UsageEntry>)
    ensures UsedTokens(entries) == if TrueTokens(entries) <= U64_MAX then TrueTokens(entries) else U64_MAX
  {
    if |entries| > 0 { SaturationIsCapping(entries[..|entries| - 1]); }
  }

  lemma {:induction false} TotalsAreSums(entries: seq<UsageEntry>)
    ensures Total(entries, TokensOf()) == TrueTokens(entries) as real
    ensures Total(entries, CostOf()) == UsedCost(entries)
  {
    if |entries| > 0 { TotalsAreSums(entries[..|entries| - 1]); }
  }

  /** Admission by admission, what its trailing window held. */
  ghost predicate Bounded(history: seq<UsageEntry>, window: real, use: UsageEntry -> real, limit: real) {
    |history| == 0 ||
    (var last := history[|history| - 1];
     Bounded(history[..|history| - 1], window, use, limit)
     && Total(Within(history, last.at - window, last.at), use) <= limit)
  }

  ghost predicate NonNegative(history: seq<UsageEntry>, use: UsageEntry -> real) {
    forall i :: 0 <= i < |history| ==> use(history[i]) >= 0.0
  }

  /** Moving a window earlier past the end of an ordered history only adds to it. */
  lemma {:induction false} EarlierWindowHoldsMore(
    history: seq<UsageEntry>, from: Instant, to: Instant, from': Instant, to': Instant, use: UsageEntry -> real)
    requires from' <= from && NonNegative(history, use)
    requires forall i :: 0 <= i < |history| ==> history[i].at <= to'
    ensures Total(Within(history, from, to), use) <= Total(Within(history, from', to'), use)
  {
    if |history| > 0 {
      var front, last := history[..|history| - 1], history[|history| - 1];
      EarlierWindowHoldsMore(front, from, to, from', to', use);
      TotalAppend(Within(front, from, to), last, use);
      TotalAppend(Within(front, from', to'), last, use);
    }
  }

  lemma TotalAppend(history: seq<UsageEntry>, entry: UsageEntry, use: UsageEntry -> real)
    ensures Total(history + [entry], use) == Total(history, use) + use(entry)
  {
    assert (history + [entry])[..|history|] == history;
  }

  lemma OrderedBelowLast(history: seq<UsageEntry>, clock: Instant)
    requires |history| > 0 && InOrder(history, clock)
    ensures forall i :: 0 <= i < |history| ==> history[i].at <= history[|history| - 1].at
  {
    forall i | 0 <= i < |history| ensures history[i].at <= history[|history| - 1].at {
      OrderedPair(history, clock, i, |history| - 1);
    }
  }

  /** A window ending after the last admission holds no more than the one ending with it. */
  lemma WindowPastTheEnd(history: seq<UsageEntry>, window: real, use: UsageEntry -> real, end: Instant, t: Instant)
    requires NonNegative(history, use) && end <= t
    requires forall i :: 0 <= i < |history| ==> history[i].at <= end
    ensures Total(Within(history, t - window, t), use) <= Total(Within(history, end - window, end), use)
  {
    EarlierWindowHoldsMore(history, t - window, t, end - window, end, use);
  }

  /** If each admission left its own trailing window within the limit, every trailing window is. */
  lemma {:induction false} EveryWindowBounded(
    history: seq<UsageEntry>, clock: Instant, window: real, use: UsageEntry -> real, limit: real, t: Instant)
    requires InOrder(history, clock) && NonNegative(history, use) && Bounded(history, window, use, limit)
    requires limit >= 0.0
    ensures Total(Within(history, t - window, t), use) <= limit
    decreases |history|
  {
    if |history| > 0 {
      var front, last := history[..|history| - 1], history[|history| - 1];
      if last.at <= t {
        OrderedBelowLast(history, clock);
        WindowPastTheEnd(history, window, use, last.at, t);
      } else {
        EveryWindowBounded(front, last.at, window, use, limit, t);
      }
    }
  }

  ghost predicate TokensBounded(b: Budget) {
    b.config.tokensPerWindow.Some? && b.config.tokensPerWindow.value < U64_MAX ==>
      Bounded(b.admitted, b.config.window, TokensOf(), b.config.tokensPerWindow.value as real)
  }

  ghost predicate CostBounded(b: Budget) {
    b.config.costCeiling.Some? ==> Bounded(b.admitted, b.config.window, CostOf(), b.config.costCeiling.value)
  }

  lemma WithinAppend(history: seq<UsageEntry>, entry: UsageEntry, from: Instant, to: Instant)
    ensures Within(history + [entry], from, to)
         == if from < entry.at <= to then Within(history, from, to) + [entry] else Within(history, from, to)
  {
    assert (history + [entry])[..|history|] == history;
  }

  /** One more admission keeps the bound if the window ending with it stays within the limit. */
  lemma BoundedAppend(history: seq<UsageEntry>, entry: UsageEntry, window: real, use: UsageEntry -> real, limit: real)
    requires Bounded(history, window, use, limit) && use(entry) >= 0.0
    requires Total(Within(history, entry.at - window, entry.at), use) + use(entry) <= limit
    ensures Bounded(history + [entry], window, use, limit)
  {
    var longer := history + [entry];
    assert Total(Within(longer, entry.at - window, entry.at), use) <= limit by {
      WithinAppend(history, entry, entry.at - window, entry.at);
      TotalAppend(Within(history, entry.at - window, entry.at), entry, use);
    }
    assert longer[..|longer| - 1] == history && longer[|longer| - 1] == entry;
  }

  /** What an admission promises of the deque it was decided on. */
  lemma AdmittedFits(config: AdmissionConfig, kept: seq<UsageEntry>, now: Instant, tokens: nat, cost: real)
    requires Decide(config, kept, now, tokens, cost).Admitted?
    ensures config.tokensPerWindow.Some? ==> SaturatingAdd(UsedTokens(kept), tokens) <= config.tokensPerWindow.value
    ensures config.costCeiling.Some? ==> UsedCost(kept) + cost <= config.costCeiling.value
  {
  }

  lemma TokensFit(kept: seq<UsageEntry>, tokens: nat, limit: nat)
    requires SaturatingAdd(UsedTokens(kept), tokens) <= limit < U64_MAX
    ensures Total(kept, TokensOf()) + tokens as real <= limit as real
  {
    SaturationIsCapping(kept);
    TotalsAreSums(kept);
  }

  /** What is admitted fits the token ceiling together with the window that ends now. */
  lemma AdmittedTokensFit(b: Budget, now: Instant, tokens: nat, cost: real)
    requires Consistent(b) && b.clock <= now && TokensBounded(b)
    requires b.config.tokensPerWindow.Some? && b.config.tokensPerWindow.value < U64_MAX
    requires Decide(b.config, Evict(b.entries, b.config.window, now), now, tokens, cost).Admitted?
    ensures Bounded(b.admitted + [UsageEntry(now, tokens, cost)], b.config.window, TokensOf(),
      b.config.tokensPerWindow.value as real)
  {
    var kept := Evict(b.entries, b.config.window, now);
    AdmittedFits(b.config, kept, now, tokens, cost);
    TokensFit(kept, tokens, b.config.tokensPerWindow.value);
    assert kept == Within(b.admitted, now - b.config.window, now) by { EvictionAgrees(b, now); }
    BoundedAppend(b.admitted, UsageEntry(now, tokens, cost), b.config.window, TokensOf(),
      b.config.tokensPerWindow.value as real);
  }

  lemma AdmittedCostFits(b: Budget, now: Instant, tokens: nat, cost: real)
    requires Consistent(b) && b.clock <= now && cost >= 0.0 && CostBounded(b) && b.config.costCeiling.Some?
    requires Decide(b.config, Evict(b.entries, b.config.window, now), now, tokens, cost).Admitted?
    ensures Bounded(b.admitted + [UsageEntry(now, tokens, cost)], b.config.window, CostOf(), b.config.costCeiling.value)
  {
    var kept := Evict(b.entries, b.config.window, now);
    AdmittedFits(b.config, kept, now, tokens, cost);
    TotalsAreSums(kept);
    assert kept == Within(b.admitted, now - b.config.window, now) by { EvictionAgrees(b, now); }
    BoundedAppend(b.admitted, UsageEntry(now, tokens, cost), b.config.window, CostOf(), b.config.costCeiling.value);
  }

  /** An admitted request keeps both windows ending now within their ceilings. */
  lemma AdmissionKeepsBounds(b: Budget, now: Instant, tokens: nat, cost: real)
    requires Consistent(b) && b.clock <= now && cost >= 0.0 && TokensBounded(b) && CostBounded(b)
    requires Decide(b.config, Evict(b.entries, b.config.window, now), now, tokens, cost).Admitted?
    ensures TokensBounded(Step(b, TryAdmit(now, tokens, cost))) && CostBounded(Step(b, TryAdmit(now, tokens, cost)))
  {
    if b.config.tokensPerWindow.Some? && b.config.tokensPerWindow.value < U64_MAX {
      AdmittedTokensFit(b, now, tokens, cost);
    }
    if b.config.costCeiling.Some? {
      AdmittedCostFits(b, now, tokens, cost);
    }
  }

  lemma StepKeepsBounds(b: Budget, call: Call)
    requires Consistent(b) && Proper(b, call) && !call.SetConfig? && TokensBounded(b) && CostBounded(b)
    ensures TokensBounded(Step(b, call)) && CostBounded(Step(b, call))
  {
    if call.TryAdmit?
      && Decide(b.config, Evict(b.entries, b.config.window, call.now), call.now, call.tokens, call.cost).Admitted?
    {
      AdmissionKeepsBounds(b, call.now, call.tokens, call.cost);
    }
  }

  ghost predicate FixedConfig(calls: seq<Call>) {
    forall i :: 0 <= i < |calls| ==> !calls[i].SetConfig?
  }

  lemma {:induction false} CallsKeepBounds(config: AdmissionConfig, clock: Instant, calls: seq<Call>)
    requires ProperCalls(config, clock, calls) && FixedConfig(calls)
    ensures var b := After(config, clock, calls);
      Consistent(b) && b.config == config && TokensBounded(b) && CostBounded(b)
    decreases |calls|
  {
    CallsKeepConsistent(config, clock, calls);
    if |calls| > 0 {
      CallsKeepBounds(config, clock, calls[..|calls| - 1]);
      StepKeepsBounds(After(config, clock, calls[..|calls| - 1]), calls[|calls| - 1]);
    }
  }

  /** Under one configuration, no trailing window of any length-`window` ever admitted more than
      the token limit, counted without saturation, nor more than the cost ceiling. */
  lemma WindowNeverOverspends(config: AdmissionConfig, clock: Instant, calls: seq<Call>, t: Instant)
    requires ProperCalls(config, clock, calls) && FixedConfig(calls)
    ensures WithinLimits(config, Within(After(config, clock, calls).admitted, t - config.window, t))
  {
    var b := After(config, clock, calls);
    assert InOrder(b.admitted, b.clock) && b.config == config && TokensBounded(b) && CostBounded(b) by {
      CallsKeepBounds(config, clock, calls);
    }
    EveryWindowWithinLimits(b, config, t);
  }

  /** What one window admitted, tokens counted without saturation, is within both ceilings. */
  predicate WithinLimits(config: AdmissionConfig, window: seq<UsageEntry>) {
    && (config.tokensPerWindow.Some? && config.tokensPerWindow.value < U64_MAX ==>
          TrueTokens(window) <= config.tokensPerWindow.value)
    && (config.costCeiling.Some? && config.costCeiling.value >= 0.0 ==> UsedCost(window) <= config.costCeiling.value)
  }

  lemma EveryWindowWithinLimits(b: Budget, config: AdmissionConfig, t: Instant)
    requires InOrder(b.admitted, b.clock) && TokensBounded(b) && CostBounded(b) && b.config == config
    ensures WithinLimits(config, Within(b.admitted, t - config.window, t))
  {
    if b.config.tokensPerWindow.Some? && b.config.tokensPerWindow.value < U64_MAX { TokensWithin(b, t); }
    if b.config.costCeiling.Some? && b.config.costCeiling.value >= 0.0 { CostWithin(b, t); }
  }

  lemma TokensWithin(b: Budget, t: Instant)
    requires InOrder(b.admitted, b.clock) && TokensBounded(b)
    requires b.config.tokensPerWindow.Some? && b.config.tokensPerWindow.value < U64_MAX
    ensures TrueTokens(Within(b.admitted, t - b.config.window, t)) <= b.config.tokensPerWindow.value
  {
    EveryWindowBounded(b.admitted, b.clock, b.config.window, TokensOf(), b.config.tokensPerWindow.value as real, t);
    TotalsAreSums(Within(b.admitted, t - b.config.window, t));
  }

  lemma CostWithin(b: Budget, t: Instant)
    requires InOrder(b.admitted, b.clock) && CostBounded(b)
    requires b.config.costCeiling.Some? && b.config.costCeiling.value >= 0.0
    ensures UsedCost(Within(b.admitted, t - b.config.window, t)) <= b.config.costCeiling.value
  {
    forall i | 0 <= i < |b.admitted| ensures CostOf()(b.admitted[i]) >= 0.0 { OrderedUntil(b.admitted, b.clock, i); }
    EveryWindowBounded(b.admitted, b.clock, b.config.window, CostOf(), b.config.costCeiling.value, t);
    TotalsAreSums(Within(b.admitted, t - b.config.window, t));
  }

  /** Under one configuration, headroom runs out only at a ceiling, never beyond it. */
  lemma HeadroomEndsAtTheCeiling(config: AdmissionConfig, clock: Instant, calls: seq<Call>, now: Instant)
    requires ProperCalls(config, clock, calls) && FixedConfig(calls)
    requires After(config, clock, calls).clock <= now
    requires config.tokensPerWindow.Some? ==> config.tokensPerWindow.value <= U64_MAX
    requires config.costCeiling.Some? ==> config.costCeiling.value >= 0.0
    ensures var kept := Evict(After(config, clock, calls).entries, config.window, now);
      HasHeadroom(config, kept) <==>
        && (config.tokensPerWindow.Some? ==> UsedTokens(kept) != config.tokensPerWindow.value)
        && (config.costCeiling.Some? ==> UsedCost(kept) != config.costCeiling.value)
  {
    CallsKeepBounds(config, clock, calls);
    HeadroomMeansBelow(After(config, clock, calls), now);
  }

  lemma HeadroomMeansBelow(b: Budget, now: Instant)
    requires Consistent(b) && b.clock <= now && TokensBounded(b) && CostBounded(b)
    requires b.config.tokensPerWindow.Some? ==> b.config.tokensPerWindow.value <= U64_MAX
    requires b.config.costCeiling.Some? ==> b.config.costCeiling.value >= 0.0
    ensures var kept := Evict(b.entries, b.config.window, now);
      HasHeadroom(b.config, kept) <==>
        && (b.config.tokensPerWindow.Some? ==> UsedTokens(kept) != b.config.tokensPerWindow.value)
        && (b.config.costCeiling.Some? ==> UsedCost(kept) != b.config.costCeiling.value)
  {
    EvictionAgrees(b, now);
    SaturationIsCapping(Evict(b.entries, b.config.window, now));
    if b.config.tokensPerWindow.Some? && b.config.tokensPerWindow.value < U64_MAX { TokensWithin(b, now); }
    if b.config.costCeiling.Some? { CostWithin(b, now); }
  }

  // ---- The verdict, said of everything ever admitted ------------------------------------------------

  /** The verdict on a request when this is what the window ending `now` admitted: the request is admitted
      if and only if with it the window stays within both ceilings, its tokens saturating as a u64 does;
      a refusal names the first ceiling exceeded, and how long the oldest admission stays in the window
      if the request would fit an empty one. */
  ghost predicate VerdictOn(
    config: AdmissionConfig, window: seq<UsageEntry>, now: Instant, tokens: nat, cost: real, decision: Decision)
  {
    var projected := if TrueTokens(window) + tokens <= U64_MAX then TrueTokens(window) + tokens else U64_MAX;
    var projectedCost := Total(window, CostOf()) + cost;
    match decision
    case Admitted(tokensRemaining, costRemaining) =>
      && (if config.tokensPerWindow.Some? then
            projected <= config.tokensPerWindow.value
            && tokensRemaining == Some(config.tokensPerWindow.value - projected)
          else tokensRemaining == None)
      && (if config.costCeiling.Some? then
            projectedCost <= config.costCeiling.value
            && costRemaining == Some(config.costCeiling.value - projectedCost)
          else costRemaining == None)
    case Denied(TooManyTokens(would, limit), hint) =>
      && config.tokensPerWindow == Some(limit) && would == projected > limit
      && (if tokens <= limit then |window| > 0 && hint == Some(config.window - (now - window[0].at)) else hint == None)
    case Denied(TooCostly(would, ceiling), hint) =>
      && (config.tokensPerWindow.Some? ==> projected <= config.tokensPerWindow.value)
      && config.costCeiling == Some(ceiling) && would == projectedCost > ceiling
      && (if cost <= ceiling then |window| > 0 && hint == Some(config.window - (now - window[0].at)) else hint == None)
  }

  lemma HintOnWindow(entries: seq<UsageEntry>, window: real, now: Instant)
    requires |entries| > 0 && entries[0].at <= now && now - entries[0].at < window
    ensures RetryAfter(entries, window, now) == window - (now - entries[0].at)
  {
  }

  lemma {:induction false} WithinIsInside(history: seq<UsageEntry>, from: Instant, to: Instant)
    ensures forall i :: 0 <= i < |Within(history, from, to)| ==> from < Within(history, from, to)[i].at <= to
  {
    if |history| > 0 { WithinIsInside(history[..|history| - 1], from, to); }
  }

  lemma DecideOnWindow(config: AdmissionConfig, window: seq<UsageEntry>, now: Instant, tokens: nat, cost: real)
    requires tokens <= U64_MAX
    requires |window| > 0 ==> window[0].at <= now && now - window[0].at < config.window
    ensures VerdictOn(config, window, now, tokens, cost, Decide(config, window, now, tokens, cost))
  {
    SaturationIsCapping(window);
    TotalsAreSums(window);
    if |window| > 0 { HintOnWindow(window, config.window, now); }
  }

  lemma ConsistentVerdict(b: Budget, now: Instant, tokens: nat, cost: real)
    requires Consistent(b) && b.clock <= now && tokens <= U64_MAX
    ensures VerdictOn(b.config, Within(b.admitted, now - b.config.window, now), now, tokens, cost,
      Decide(b.config, Evict(b.entries, b.config.window, now), now, tokens, cost))
  {
    EvictionAgrees(b, now);
    WithinIsInside(b.admitted, now - b.config.window, now);
    DecideOnWindow(b.config, Within(b.admitted, now - b.config.window, now), now, tokens, cost);
  }

  /** As long as the deque has lost nothing that counts, this is the verdict on the filtered history. */
  ghost predicate Grounded(b: Budget, now: Instant, tokens: nat, cost: real, decision: Decision) {
    Consistent(b) && b.clock <= now && tokens <= U64_MAX ==>
      VerdictOn(b.config, Within(b.admitted, now - b.config.window, now), now, tokens, cost, decision)
  }

  lemma DecidedIsGrounded(b: Budget, now: Instant, tokens: nat, cost: real)
    ensures Grounded(b, now, tokens, cost, Decide(b.config, Evict(b.entries, b.config.window, now), now, tokens, cost))
  {
    if Consistent(b) && b.clock <= now && tokens <= U64_MAX { ConsistentVerdict(b, now, tokens, cost); }
  }

  /** Over any proper call history a request is judged by what the window ending now admitted, and added to
      it exactly when admitted. */
  lemma AdmitsExactlyWhatFits(
    config: AdmissionConfig, clock: Instant, calls: seq<Call>, now: Instant, tokens: nat, cost: real)
    requires ProperCalls(config, clock, calls) && After(config, clock, calls).clock <= now && tokens <= U64_MAX
    ensures var b := After(config, clock, calls);
      var decision := Decide(b.config, Evict(b.entries, b.config.window, now), now, tokens, cost);
      && VerdictOn(b.config, Within(b.admitted, now - b.config.window, now), now, tokens, cost, decision)
      && Step(b, TryAdmit(now, tokens, cost)).admitted
         == if decision.Admitted? then b.admitted + [UsageEntry(now, tokens, cost)] else b.admitted
  {
    CallsKeepConsistent(config, clock, calls);
    ConsistentVerdict(After(config, clock, calls), now, tokens, cost);
  }

  /** There is headroom while the window ending now has admitted less than each ceiling, whatever
      configurations led there. */
  ghost predicate HeadroomOn(config: AdmissionConfig, window: seq<UsageEntry>) {
    && (config.tokensPerWindow.Some? ==>
          (if TrueTokens(window) <= U64_MAX then TrueTokens(window) else U64_MAX) < config.tokensPerWindow.value)
    && (config.costCeiling.Some? ==> Total(window, CostOf()) < config.costCeiling.value)
  }

  lemma HeadroomIsBelowBothCeilings(
    config: AdmissionConfig, clock: Instant, calls: seq<Call>, now: Instant)
    requires ProperCalls(config, clock, calls) && After(config, clock, calls).clock <= now
    ensures var b := After(config, clock, calls);
      HasHeadroom(b.config, Evict(b.entries, b.config.window, now))
      <==> HeadroomOn(b.config, Within(b.admitted, now - b.config.window, now))
  {
    CallsKeepConsistent(config, clock, calls);
    ConsistentHeadroom(After(config, clock, calls), now);
  }

  lemma ConsistentUsage(b: Budget, now: Instant)
    requires Consistent(b) && b.clock <= now
    ensures var kept, window := Evict(b.entries, b.config.window, now),
                                Within(b.admitted, now - b.config.window, now);
      && UsedTokens(kept) == (if TrueTokens(window) <= U64_MAX then TrueTokens(window) else U64_MAX)
      && UsedCost(kept) == Total(window, CostOf())
  {
    EvictionAgrees(b, now);
    SaturationIsCapping(Within(b.admitted, now - b.config.window, now));
    TotalsAreSums(Within(b.admitted, now - b.config.window, now));
  }

  lemma ConsistentHeadroom(b: Budget, now: Instant)
    requires Consistent(b) && b.clock <= now
    ensures HasHeadroom(b.config, Evict(b.entries, b.config.window, now))
      <==> HeadroomOn(b.config, Within(b.admitted, now - b.config.window, now))
  {
    ConsistentUsage(b, now);
  }

  /** After waiting the hint the oldest entry is out of the window, and not before. */
  lemma RetryAfterIsExact(entries: seq<UsageEntry>, window: real, now: Instant, wait: real)
    requires |entries| > 0 && entries[0].at <= now && wait >= 0.0
    ensures now + wait - entries[0].at >= window <==> wait >= RetryAfter(entries, window, now)
  {
  }

  // ---- The controller ---------------------------------------------------------------------------------

  method EvictExpired(entries: seq<UsageEntry>, window: real, now: Instant) returns (kept: seq<UsageEntry>)
    ensures kept == Evict(entries, window, now)
  {
    kept := entries;
    while |kept| > 0 && Stale(kept[0], window, now)
      invariant Evict(kept, window, now) == Evict(entries, window, now)
      decreases |kept|
    {
      kept := kept[1..];
    }
  }

  method SumUsage(entries: seq<UsageEntry>) returns (tokens: nat, cost: real)
    ensures tokens == UsedTokens(entries) && cost == UsedCost(entries)
  {
    tokens, cost := 0, 0.0;
    for i := 0 to |entries|
      invariant tokens == UsedTokens(entries[..i]) && cost == UsedCost(entries[..i])
    {
      assert entries[..i + 1][..i] == entries[..i];
      tokens, cost := SaturatingAdd(tokens, entries[i].tokens), cost + entries[i].cost;
    }
    assert entries[..|entries|] == entries;
  }

  class AdmissionController {
    var config: AdmissionConfig
    var entries: seq<UsageEntry>
    /** The same controller with its full history. */
    ghost var budget: Budget

    ghost predicate Valid()
      reads this
    {
      budget.config == config && budget.entries == entries
    }

    constructor (config: AdmissionConfig, ghost clock: Instant)
      ensures Valid() && budget == NewBudget(config, clock)
    {
      this.config := config;
      entries := [];
      budget := NewBudget(config, clock);
    }

    method Reconfigure(config: AdmissionConfig)
      requires Valid()
      modifies this
      ensures Valid() && budget == Step(old(budget), SetConfig(config))
    {
      this.config := config;
      budget := Step(budget, SetConfig(config));
    }

    method Usage(now: Instant) returns (tokens: nat, cost: real)
      requires Valid()
      modifies this
      ensures Valid() && budget == Step(old(budget), Look(now))
      ensures tokens == UsedTokens(entries) && cost == UsedCost(entries) && config == old(config)
      ensures Consistent(old(budget)) && old(budget).clock <= now ==>
        var window := Within(old(budget).admitted, now - config.window, now);
        && tokens == (if TrueTokens(window) <= U64_MAX then TrueTokens(window) else U64_MAX)
        && cost == Total(window, CostOf())
    {
      if Consistent(budget) && budget.clock <= now { ConsistentUsage(budget, now); }
      entries := EvictExpired(entries, config.window, now);
      budget := Step(budget, Look(now));
      tokens, cost := SumUsage(entries);
    }

    method CheckHeadroom(now: Instant) returns (ok: bool)
      requires Valid()
      modifies this
      ensures Valid() && budget == Step(old(budget), Look(now)) && ok == HasHeadroom(config, entries)
      ensures Consistent(old(budget)) && old(budget).clock <= now ==>
        (ok <==> HeadroomOn(config, Within(old(budget).admitted, now - config.window, now)))
    {
      if Consistent(budget) && budget.clock <= now { ConsistentHeadroom(budget, now); }
      var tokens, cost := Usage(now);
      var tokensOk := config.tokensPerWindow.None? || tokens < config.tokensPerWindow.value;
      var costOk := config.costCeiling.None? || cost < config.costCeiling.value;
      ok := tokensOk && costOk;
    }

    method Admit(now: Instant, tokens: nat, cost: real) returns (decision: Decision)
      requires Valid()
      modifies this
      ensures Valid() && budget == Step(old(budget), TryAdmit(now, tokens, cost))
      ensures decision == Decide(config, Evict(old(entries), config.window, now), now, tokens, cost)
      ensures Grounded(old(budget), now, tokens, cost, decision)
      ensures entries == Evict(old(entries), config.window, now)
        + if decision.Admitted? then [UsageEntry(now, tokens, cost)] else []
      ensures config == old(config)
    {
      DecidedIsGrounded(budget, now, tokens, cost);
      budget := Step(budget, TryAdmit(now, tokens, cost));
      entries := EvictExpired(entries, config.window, now);
      var usedTokens, usedCost := SumUsage(entries);
      var projected := SaturatingAdd(usedTokens, tokens);
      if config.tokensPerWindow.Some? && projected > config.tokensPerWindow.value {
        var limit := config.tokensPerWindow.value;
        return Denied(TooManyTokens(projected, limit),
                      if tokens <= limit then Some(RetryAfter(entries, config.window, now)) else None);
      }
      var projectedCost := usedCost + cost;
      if config.costCeiling.Some? && projectedCost > config.costCeiling.value {
        var ceiling := config.costCeiling.value;
        return Denied(TooCostly(projectedCost, ceiling),
                      if cost <= ceiling then Some(RetryAfter(entries, config.window, now)) else None);
      }
      entries := entries + [UsageEntry(now, tokens, cost)];
      decision := Admitted(
        if config.tokensPerWindow.Some? then Some(config.tokensPerWindow.value - projected) else None,
        if config.costCeiling.Some? then Some(config.costCeiling.value - projectedCost) else None);
    }
  }
}
