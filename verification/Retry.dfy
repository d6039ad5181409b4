/** Exponential backoff with jitter over reals, and the attempt limit that ends it. */
module Retry {
  import opened Wrappers

  /** Durations are in seconds. `maxAttempts` counts deliveries, the first included. */
  datatype RetryPolicy = RetryPolicy(
    baseDelay: real, maxDelay: real, multiplier: real, jitter: real, maxAttempts: Option<nat>)
  {
    ghost predicate Valid() {
      baseDelay >= 0.0 && maxDelay >= 0.0
    }
  }

  const MAX_BACKOFF_EXPONENT: nat := 32

  function Min(a: real, b: real): real { if a <= b then a else b }

  function Power(x: real, n: nat): real {
    if n == 0 then 1.0 else x * Power(x, n - 1)
  }

  function Exponent(deliveryCount: nat): nat {
    var e := if deliveryCount == 0 then 0 else deliveryCount - 1;
    if e <= MAX_BACKOFF_EXPONENT then e else MAX_BACKOFF_EXPONENT
  }

  function Raised(policy: RetryPolicy, deliveryCount: nat): real {
    policy.baseDelay * Power(policy.multiplier, Exponent(deliveryCount))
  }

  function CappedDelay(policy: RetryPolicy, deliveryCount: nat): real {
    Min(Raised(policy, deliveryCount), policy.maxDelay)
  }

  /** `draw` is the uniform sample in `[0, 1)`. */
  function ApplyJitter(capped: real, jitter: real, draw: real): real {
    var floor := capped * (1.0 - Clamp(jitter));
    floor + draw * (capped - floor)
  }

  function DelayFor(policy: RetryPolicy, deliveryCount: nat, draw: real): real {
    var jittered := ApplyJitter(CappedDelay(policy, deliveryCount), policy.jitter, draw);
    if jittered < 0.0 then 0.0 else jittered
  }

  predicate IsExhausted(policy: RetryPolicy, deliveryCount: nat) {
    policy.maxAttempts.Some? && deliveryCount >= policy.maxAttempts.value
  }

  /** The most deliveries one message can get: the limit, but never fewer than the first. */
  function MaxDeliveries(policy: RetryPolicy): nat
    requires policy.maxAttempts.Some?
  {
    if policy.maxAttempts.value == 0 then 1 else policy.maxAttempts.value
  }

  lemma MulMonotone(a: real, x: real, y: real)
    requires 0.0 <= a && x <= y
    ensures a * x <= a * y
  {
    assert a * (y - x) >= 0.0;
    assert a * (y - x) == a * y - a * x;
  }

  lemma {:induction false} PowerPositive(x: real, n: nat)
    requires x >= 0.0
    ensures Power(x, n) >= 0.0
  {
    if n > 0 {
      PowerPositive(x, n - 1);
      MulMonotone(x, 0.0, Power(x, n - 1));
    }
  }

  lemma {:induction false} PowerMonotone(x: real, m: nat, n: nat)
    requires x >= 1.0 && m <= n
    ensures Power(x, m) <= Power(x, n)
    decreases n - m
  {
    if m < n {
      PowerMonotone(x, m, n - 1);
      PowerPositive(x, n - 1);
      MulMonotone(Power(x, n - 1), 1.0, x);
    }
  }

  lemma CappedNonNegative(policy: RetryPolicy, deliveryCount: nat)
    requires policy.Valid() && policy.multiplier >= 0.0
    ensures 0.0 <= CappedDelay(policy, deliveryCount) <= policy.maxDelay
  {
    PowerPositive(policy.multiplier, Exponent(deliveryCount));
    MulMonotone(policy.baseDelay, 0.0, Power(policy.multiplier, Exponent(deliveryCount)));
  }

  function Clamp(jitter: real): real {
    if jitter < 0.0 then 0.0 else if jitter > 1.0 then 1.0 else jitter
  }

  /** The jittered delay lies between the band's floor and the capped delay. */
  lemma JitterWithinBand(capped: real, jitter: real, draw: real)
    requires capped >= 0.0 && 0.0 <= draw < 1.0
    ensures 0.0 <= capped * (1.0 - Clamp(jitter)) <= ApplyJitter(capped, jitter, draw) <= capped
  {
    Fraction(capped, 1.0 - Clamp(jitter));
    Blend(capped * (1.0 - Clamp(jitter)), capped, draw);
  }

  lemma Blend(floor: real, capped: real, draw: real)
    requires floor <= capped && 0.0 <= draw <= 1.0
    ensures floor <= floor + draw * (capped - floor) <= capped
  {
    MulMonotone(capped - floor, 0.0, draw);
    MulMonotone(draw, 0.0, capped - floor);
    MulMonotone(1.0 - draw, 0.0, capped - floor);
    assert (1.0 - draw) * (capped - floor) == (capped - floor) - draw * (capped - floor);
  }

  lemma Fraction(a: real, x: real)
    requires 0.0 <= a && 0.0 <= x <= 1.0
    ensures 0.0 <= a * x <= a
  {
    MulMonotone(a, 0.0, x);
    MulMonotone(a, x, 1.0);
  }

  /** Below zero the jittered delay stays below zero. */
  lemma JitterBelowZero(capped: real, jitter: real, draw: real)
    requires capped < 0.0 && 0.0 <= draw < 1.0
    ensures ApplyJitter(capped, jitter, draw) <= 0.0
  {
    var kept := 1.0 - Clamp(jitter);
    var depth := 0.0 - capped;
    Fraction(depth, kept);
    assert capped * kept == 0.0 - depth * kept;
    MulMonotone(draw, capped - capped * kept, 0.0);
    assert draw * 0.0 == 0.0;
  }

  /** Whatever the multiplier and the draw, a delay lies between zero and `maxDelay`: within the
      jitter band below the capped delay, or zero where a negative multiplier takes that below zero. */
  lemma DelayWithinBounds(policy: RetryPolicy, deliveryCount: nat, draw: real)
    requires policy.Valid() && 0.0 <= draw < 1.0
    ensures 0.0 <= DelayFor(policy, deliveryCount, draw) <= policy.maxDelay
    ensures CappedDelay(policy, deliveryCount) >= 0.0 ==>
      CappedDelay(policy, deliveryCount) * (1.0 - Clamp(policy.jitter)) <= DelayFor(policy, deliveryCount, draw)
        <= CappedDelay(policy, deliveryCount)
    ensures CappedDelay(policy, deliveryCount) < 0.0 ==> DelayFor(policy, deliveryCount, draw) == 0.0
    ensures policy.multiplier >= 0.0 ==> CappedDelay(policy, deliveryCount) >= 0.0
  {
    if policy.multiplier >= 0.0 { CappedNonNegative(policy, deliveryCount); }
    if CappedDelay(policy, deliveryCount) >= 0.0 {
      JitterWithinBand(CappedDelay(policy, deliveryCount), policy.jitter, draw);
    } else {
      JitterBelowZero(CappedDelay(policy, deliveryCount), policy.jitter, draw);
    }
  }

  /** Without jitter, and with a multiplier of at least one, waiting never gets shorter. */
  lemma DelayNeverShrinks(policy: RetryPolicy, fewer: nat, more: nat, draw: real, draw': real)
    requires policy.Valid() && policy.multiplier >= 1.0 && policy.jitter == 0.0
    requires 0.0 <= draw < 1.0 && 0.0 <= draw' < 1.0
    requires fewer <= more
    ensures DelayFor(policy, fewer, draw) <= DelayFor(policy, more, draw')
  {
    CappedNeverShrinks(policy, fewer, more);
    DelayWithinBounds(policy, fewer, draw);
    DelayWithinBounds(policy, more, draw');
    TimesOne(CappedDelay(policy, more), 1.0 - Clamp(policy.jitter));
  }

  lemma TimesOne(a: real, x: real)
    requires x == 1.0
    ensures a * x == a
  {
  }

  lemma CappedNeverShrinks(policy: RetryPolicy, fewer: nat, more: nat)
    requires policy.Valid() && policy.multiplier >= 1.0 && fewer <= more
    ensures CappedDelay(policy, fewer) <= CappedDelay(policy, more)
  {
    RaisedNeverShrinks(policy, fewer, more);
    MinMonotone(Raised(policy, fewer), Raised(policy, more), policy.maxDelay);
  }

  lemma RaisedNeverShrinks(policy: RetryPolicy, fewer: nat, more: nat)
    requires policy.Valid() && policy.multiplier >= 1.0 && fewer <= more
    ensures Raised(policy, fewer) <= Raised(policy, more)
  {
    PowerMonotone(policy.multiplier, Exponent(fewer), Exponent(more));
    MulMonotone(policy.baseDelay, Power(policy.multiplier, Exponent(fewer)), Power(policy.multiplier, Exponent(more)));
  }

  lemma MinMonotone(a: real, b: real, cap: real)
    requires a <= b
    ensures Min(a, cap) <= Min(b, cap)
  {
  }

  // ---- How the delay grows ---------------------------------------------------------------------

  /** The first failure waits the base delay, each of the next thirty-two multiplies it, and then it stays. */
  lemma RaisedMultiplies(policy: RetryPolicy, deliveryCount: nat)
    ensures Raised(policy, 0) == Raised(policy, 1) == policy.baseDelay
    ensures 1 <= deliveryCount <= 32 ==>
      Raised(policy, deliveryCount + 1) == policy.multiplier * Raised(policy, deliveryCount)
    ensures deliveryCount >= 33 ==> Raised(policy, deliveryCount) == Raised(policy, 33)
  {
    assert Power(policy.multiplier, 0) == 1.0;
    if 1 <= deliveryCount <= 32 {
      Swapped(policy.baseDelay, policy.multiplier, Power(policy.multiplier, deliveryCount - 1));
    }
  }

  lemma Swapped(a: real, b: real, c: real)
    ensures a * (b * c) == b * (a * c)
  {
    assert a * (b * c) == a * b * c == b * a * c == b * (a * c);
  }

  /** Without jitter the delay is the capped one, whatever the draw. */
  lemma UnjitteredDelay(policy: RetryPolicy, deliveryCount: nat, draw: real)
    requires policy.Valid() && policy.multiplier >= 0.0 && policy.jitter == 0.0
    ensures DelayFor(policy, deliveryCount, draw)
         == if Raised(policy, deliveryCount) <= policy.maxDelay then Raised(policy, deliveryCount) else policy.maxDelay
  {
    var capped := CappedDelay(policy, deliveryCount);
    CappedNonNegative(policy, deliveryCount);
    TimesOne(capped, 1.0 - Clamp(policy.jitter));
    assert capped - capped == 0.0 && draw * 0.0 == 0.0;
  }

  /** Without jitter, below the cap, each further failure multiplies the delay by the multiplier. */
  lemma DelayMultiplies(policy: RetryPolicy, deliveryCount: nat, draw: real, draw': real)
    requires policy.Valid() && policy.multiplier >= 1.0 && policy.jitter == 0.0
    ensures 1 <= deliveryCount <= 32 && DelayFor(policy, deliveryCount + 1, draw') < policy.maxDelay ==>
      DelayFor(policy, deliveryCount + 1, draw') == policy.multiplier * DelayFor(policy, deliveryCount, draw)
    ensures policy.baseDelay <= policy.maxDelay ==>
      DelayFor(policy, 0, draw) == DelayFor(policy, 1, draw) == policy.baseDelay
  {
    RaisedMultiplies(policy, deliveryCount);
    RaisedNeverShrinks(policy, deliveryCount, deliveryCount + 1);
    UnjitteredDelay(policy, 0, draw);
    UnjitteredDelay(policy, 1, draw);
    UnjitteredDelay(policy, deliveryCount, draw);
    UnjitteredDelay(policy, deliveryCount + 1, draw');
  }

  /** Jitter spreads the delay evenly: the draw moves it from `1 - jitter` of the capped delay up to it. */
  lemma JitterSpreadsEvenly(policy: RetryPolicy, deliveryCount: nat, draw: real)
    requires policy.Valid() && policy.multiplier >= 0.0 && 0.0 <= draw < 1.0
    ensures var capped := CappedDelay(policy, deliveryCount);
      var delay := DelayFor(policy, deliveryCount, draw);
      && (policy.jitter <= 0.0 ==> delay == capped)
      && (0.0 <= policy.jitter <= 1.0 ==> delay == capped - (1.0 - draw) * (capped * policy.jitter))
      && (policy.jitter >= 1.0 ==> delay == draw * capped)
  {
    var capped := CappedDelay(policy, deliveryCount);
    var j := Clamp(policy.jitter);
    CappedNonNegative(policy, deliveryCount);
    JitterWithinBand(capped, policy.jitter, draw);
    assert capped * (1.0 - j) == capped - capped * j;
    assert ApplyJitter(capped, policy.jitter, draw) == capped - capped * j + draw * (capped * j);
    assert (1.0 - draw) * (capped * j) == capped * j - draw * (capped * j);
    assert j == 0.0 ==> capped * j == 0.0;
    assert j == 1.0 ==> capped * j == capped;
  }
}
