/** The per-tenant request quota, and why it is the token budget with one token per request. */
module Quota {
  import opened Wrappers
  import opened Admission

  datatype QuotaConfig = QuotaConfig(requestsPerWindow: Option<nat>, window: real)

  datatype QuotaDecision =
    | Allowed(requestsRemaining: Option<nat>)
    | Refused(wouldMake: nat, limit: nat, retryAfter: Option<real>)

  predicate Old(at: Instant, window: real, now: Instant) {
    Since(now, at) >= window
  }

  function EvictRequests(requests: seq<Instant>, window: real, now: Instant): seq<Instant> {
    if |requests| > 0 && Old(requests[0], window, now) then EvictRequests(requests[1..], window, now) else requests
  }

  function RequestRetryAfter(requests: seq<Instant>, window: real, now: Instant): real {
    if |requests| == 0 then 0.0
    else if Since(now, requests[0]) >= window then 0.0 else window - Since(now, requests[0])
  }

  /** How many requests a u64 can count. */
  function CountOf(requests: seq<Instant>): nat {
    if |requests| <= U64_MAX then |requests| else U64_MAX
  }

  /** The verdict against already evicted requests. */
  function Judge(config: QuotaConfig, requests: seq<Instant>, now: Instant): QuotaDecision {
    match config.requestsPerWindow
    case None => Allowed(None)
    case Some(limit) =>
      var current := CountOf(requests);
      if current >= limit then
        Refused(current + 1, limit, if limit > 0 then Some(RequestRetryAfter(requests, config.window, now)) else None)
      else Allowed(Some(limit - (current + 1)))
  }

  /** The requests on record after a call. */
  function Acquire(config: QuotaConfig, requests: seq<Instant>, now: Instant): seq<Instant> {
    var kept := EvictRequests(requests, config.window, now);
    if config.requestsPerWindow.Some? && Judge(config, kept, now).Allowed? then kept + [now] else kept
  }

  // ---- The same thing as one token per request ---------------------------------------------------

  /** Each request on record is an admission of one token at no cost. */
  ghost predicate Mirrors(requests: seq<Instant>, entries: seq<UsageEntry>) {
    |requests| == |entries| && forall i :: 0 <= i < |entries| ==> entries[i] == UsageEntry(requests[i], 1, 0.0)
  }

  /** One call under one limit and window, which may differ from call to call. */
  datatype Request = Request(limit: nat, window: real, now: Instant)

  function AsQuota(r: Request): QuotaConfig { QuotaConfig(Some(r.limit), r.window) }

  function AsAdmission(r: Request): AdmissionConfig { AdmissionConfig(Some(r.limit), None, r.window) }

  function RequestsAfter(calls: seq<Request>): seq<Instant> {
    if |calls| == 0 then []
    else Acquire(AsQuota(calls[|calls| - 1]), RequestsAfter(calls[..|calls| - 1]), calls[|calls| - 1].now)
  }

  function EntriesAfter(calls: seq<Request>): seq<UsageEntry> {
    if |calls| == 0 then []
    else
      var r := calls[|calls| - 1];
      var kept := Evict(EntriesAfter(calls[..|calls| - 1]), r.window, r.now);
      if Decide(AsAdmission(r), kept, r.now, 1, 0.0).Admitted? then kept + [UsageEntry(r.now, 1, 0.0)] else kept
  }

  /** Same verdict, same remaining count, same hint. */
  ghost predicate SameVerdict(quota: QuotaDecision, admission: Decision) {
    match quota
    case Allowed(remaining) => admission == Admitted(remaining, None)
    case Refused(wouldMake, limit, hint) => admission == Denied(TooManyTokens(wouldMake, limit), hint)
  }

  lemma {:induction false} EvictMirrors(requests: seq<Instant>, entries: seq<UsageEntry>, window: real, now: Instant)
    requires Mirrors(requests, entries)
    ensures Mirrors(EvictRequests(requests, window, now), Evict(entries, window, now))
    ensures |Evict(entries, window, now)| <= |entries|
  {
    if |entries| > 0 && Stale(entries[0], window, now) {
      EvictMirrors(requests[1..], entries[1..], window, now);
    }
  }

  lemma {:induction false} OneTokenEach(requests: seq<Instant>, entries: seq<UsageEntry>)
    requires Mirrors(requests, entries)
    ensures TrueTokens(entries) == |requests| && UsedTokens(entries) == CountOf(requests)
  {
    SaturationIsCapping(entries);
    if |entries| > 0 { OneTokenEach(requests[..|requests| - 1], entries[..|entries| - 1]); }
  }

  /** On records that mirror each other the two verdicts are the same if and only if the requests on
      record fall short of what a u64 counts, the token sum saturating there. */
  lemma VerdictsAgreeExactly(r: Request, requests: seq<Instant>, entries: seq<UsageEntry>)
    requires Mirrors(requests, entries) && r.limit <= U64_MAX
    ensures SameVerdict(Judge(AsQuota(r), requests, r.now), Decide(AsAdmission(r), entries, r.now, 1, 0.0))
      <==> |requests| < U64_MAX
  {
    OneTokenEach(requests, entries);
  }

  /** The requests the last call of a history finds on record. */
  function Found(calls: seq<Request>): seq<Instant>
    requires |calls| > 0
  {
    var r := calls[|calls| - 1];
    EvictRequests(RequestsAfter(calls[..|calls| - 1]), r.window, r.now)
  }

  /** No call of the history finds u64::MAX requests on record. */
  ghost predicate Countable(calls: seq<Request>) {
    |calls| == 0 || (Countable(calls[..|calls| - 1]) && |Found(calls)| < U64_MAX)
  }

  /** The last call of a history gets the same verdict from both. */
  ghost predicate LastAgrees(calls: seq<Request>)
    requires |calls| > 0
  {
    var r := calls[|calls| - 1];
    SameVerdict(Judge(AsQuota(r), Found(calls), r.now),
                Decide(AsAdmission(r), Evict(EntriesAfter(calls[..|calls| - 1]), r.window, r.now), r.now, 1, 0.0))
  }

  ghost predicate AllAgree(calls: seq<Request>) {
    |calls| == 0 || (AllAgree(calls[..|calls| - 1]) && LastAgrees(calls))
  }

  /** Over any call history, however the limit and the window change between calls, every verdict of
      the quota is the admission controller's (allowed or not, the same number remaining, the same
      wait) if and only if no call finds u64::MAX requests on record; and until then the two records
      are the same. */
  lemma {:induction false} QuotaIsAdmission(calls: seq<Request>)
    requires forall i :: 0 <= i < |calls| ==> calls[i].limit <= U64_MAX
    ensures AllAgree(calls) <==> Countable(calls)
    ensures Countable(calls) ==> Mirrors(RequestsAfter(calls), EntriesAfter(calls))
    decreases |calls|
  {
    if |calls| > 0 {
      var r, front := calls[|calls| - 1], calls[..|calls| - 1];
      QuotaIsAdmission(front);
      if Countable(front) {
        EvictMirrors(RequestsAfter(front), EntriesAfter(front), r.window, r.now);
        VerdictsAgreeExactly(r, Found(calls), Evict(EntriesAfter(front), r.window, r.now));
      }
    }
  }

  lemma {:induction false} EvictNeverAdds(requests: seq<Instant>, window: real, now: Instant)
    ensures |EvictRequests(requests, window, now)| <= |requests|
  {
    if |requests| > 0 { EvictNeverAdds(requests[1..], window, now); }
  }

  /** Limits below u64::MAX never let it come to that. */
  lemma {:induction false} LowerLimitsAreCountable(calls: seq<Request>)
    requires forall i :: 0 <= i < |calls| ==> calls[i].limit < U64_MAX
    ensures Countable(calls) && |RequestsAfter(calls)| < U64_MAX
    decreases |calls|
  {
    if |calls| > 0 {
      var r, front := calls[|calls| - 1], calls[..|calls| - 1];
      LowerLimitsAreCountable(front);
      EvictNeverAdds(RequestsAfter(front), r.window, r.now);
    }
  }

  /** After waiting the hint the oldest request is out of the window, and not before. */
  lemma RequestRetryAfterIsExact(requests: seq<Instant>, window: real, now: Instant, wait: real)
    requires |requests| > 0 && requests[0] <= now && wait >= 0.0
    ensures now + wait - requests[0] >= window <==> wait >= RequestRetryAfter(requests, window, now)
  {
  }

  // ---- The quota object -----------------------------------------------------------------------------

  class TenantQuota {
    var config: QuotaConfig
    var requests: seq<Instant>

    constructor (config: QuotaConfig)
      ensures this.config == config && requests == []
    {
      this.config := config;
      requests := [];
    }

    method EvictExpired(now: Instant)
      modifies this`requests
      ensures requests == EvictRequests(old(requests), config.window, now)
    {
      while |requests| > 0 && Old(requests[0], config.window, now)
        invariant EvictRequests(requests, config.window, now) == EvictRequests(old(requests), config.window, now)
        decreases |requests|
      {
        requests := requests[1..];
      }
    }

    method TryAcquire(now: Instant) returns (decision: QuotaDecision)
      modifies this`requests
      ensures requests == Acquire(config, old(requests), now)
      ensures decision == Judge(config, EvictRequests(old(requests), config.window, now), now)
      ensures
        var kept := EvictRequests(old(requests), config.window, now);
        match config.requestsPerWindow
        case None => decision == Allowed(None) && requests == kept
        case Some(limit) =>
          if |kept| < limit && |kept| < U64_MAX then
            decision == Allowed(Some(limit - |kept| - 1)) && requests == kept + [now]
          else if limit <= U64_MAX then
            && decision.Refused? && decision.limit == limit
            && decision.wouldMake == (if |kept| <= U64_MAX then |kept| else U64_MAX) + 1
            && (decision.retryAfter.Some? <==> limit > 0) && requests == kept
          else true
    {
      EvictExpired(now);
      if config.requestsPerWindow.None? {
        return Allowed(None);
      }
      var limit := config.requestsPerWindow.value;
      var current := if |requests| <= U64_MAX then |requests| else U64_MAX;
      if current >= limit {
        var hint := if limit > 0 then Some(RequestRetryAfter(requests, config.window, now)) else None;
        return Refused(current + 1, limit, hint);
      }
      requests := requests + [now];
      decision := Allowed(Some(limit - (current + 1)));
    }
  }
}
