/**
 * `IpSolver` of the older tree: a provider behind a one-entry cache holding addresses
 * or a rate-limit marker. Unlike the newer solver the cache timeouts are the solver's own
 * constants, the first rate limit arms a fixed base backoff, and other failures leave the
 * cache alone.
 */
module LegacyIpApiSolver {
  import opened Wrappers
  import opened Ip
  import Crd
  import opened Http
  import opened LegacyErrors

  /** The three durations, in milliseconds; the crate swaps them for smaller ones under test. */
  datatype Timing = Timing(cacheTimeout: nat, backoffBase: nat, backoffMax: nat)

  /** `CACHE_TIMEOUT` 300 s, `RATELIMIT_BACKOFF_DURATION_BASE` 5 min, `..._MAX` 1 h. */
  const PRODUCTION: Timing := Timing(300_000, 300_000, 3_600_000)

  /** The `#[cfg(test)]` values: 2 s, 5 s, and the same 1 h maximum. */
  const TEST: Timing := Timing(2_000, 5_000, 3_600_000)

  datatype ResponseContent = RateLimitedMarker | Addresses(addrs: seq<IpAddr>)

  datatype CachedResponse = CachedResponse(timestamp: nat, timeout: nat, content: ResponseContent)

  function Min(a: nat, b: nat): nat {
    if a <= b then a else b
  }

  /** `Instant::now() - timestamp`, which saturates at zero. */
  function Elapsed(c: CachedResponse, now: nat): nat {
    if now >= c.timestamp then now - c.timestamp else 0
  }

  /** `timeout.saturating_sub(elapsed)`. */
  function Remaining(c: CachedResponse, now: nat): (d: nat)
    ensures d <= c.timeout
  {
    if Elapsed(c, now) >= c.timeout then 0 else c.timeout - Elapsed(c, now)
  }

  /** A cache entry is used while time remains on it, that is while less than its timeout has elapsed. */
  lemma FreshIffYoungerThanTimeout(c: CachedResponse, now: nat)
    ensures Remaining(c, now) > 0 <==> Elapsed(c, now) < c.timeout
    ensures c.timestamp <= now ==> (Remaining(c, now) > 0 <==> now < c.timestamp + c.timeout)
  {
  }

  datatype StepResult = StepResult(result: Result<seq<IpAddr>, SourceError>, cache: Option<CachedResponse>, called: bool)

  /** The timeout armed by a rate limit: doubled (capped) after a rate limit, the base otherwise. */
  function NextBackoff(t: Timing, cache: Option<CachedResponse>): nat {
    if cache.Some? && cache.value.content.RateLimitedMarker? then Min(2 * cache.value.timeout, t.backoffMax)
    else t.backoffBase
  }

  /**
   * `get_addresses` as a function of the timing constants, the cache before the call, the
   * time, and what the provider would return if asked (used only when `called` is true).
   */
  function Step(t: Timing, cache: Option<CachedResponse>, now: nat, fetched: Result<seq<IpAddr>, IpSolverError>): StepResult {
    if cache.Some? && Remaining(cache.value, now) > 0 then
      match cache.value.content
      case RateLimitedMarker => StepResult(Err(StillBackingOff(Remaining(cache.value, now) / 1000)), cache, false)
      case Addresses(addrs) => StepResult(Ok(addrs), cache, false)
    else
      match fetched
      case Ok(addrs) => StepResult(Ok(addrs), Some(CachedResponse(now, t.cacheTimeout, Addresses(addrs))), true)
      case Err(e) =>
        if e == RateLimited then
          var backoff := NextBackoff(t, cache);
          StepResult(Err(RateLimitedBackingOff(backoff / 1000)), Some(CachedResponse(now, backoff, RateLimitedMarker)), true)
        else
          StepResult(Err(IpApiFailed(e)), cache, true)
  }

  /** Fresh cached addresses are returned with no provider call and no change. */
  lemma CacheHit(t: Timing, cache: Option<CachedResponse>, now: nat, fetched: Result<seq<IpAddr>, IpSolverError>)
    requires cache.Some? && Remaining(cache.value, now) > 0 && cache.value.content.Addresses?
    ensures Step(t, cache, now, fetched) == StepResult(Ok(cache.value.content.addrs), cache, false)
  {
  }

  /** A fresh cached rate limit is an error naming the remaining backoff, with no provider call and no change. */
  lemma RateLimitHit(t: Timing, cache: Option<CachedResponse>, now: nat, fetched: Result<seq<IpAddr>, IpSolverError>)
    requires cache.Some? && Remaining(cache.value, now) > 0 && cache.value.content.RateLimitedMarker?
    ensures var s := Step(t, cache, now, fetched);
      !s.called && s.cache == cache && s.result == Err(StillBackingOff(Remaining(cache.value, now) / 1000))
  {
  }

  /** The provider is asked exactly when there is no entry or its time is up. */
  lemma CalledIffStale(t: Timing, cache: Option<CachedResponse>, now: nat, fetched: Result<seq<IpAddr>, IpSolverError>)
    ensures Step(t, cache, now, fetched).called <==> cache.None? || Remaining(cache.value, now) == 0
  {
  }

  /** A provider success is returned and cached, stamped now, for `CACHE_TIMEOUT`. */
  lemma SuccessIsCached(t: Timing, cache: Option<CachedResponse>, now: nat, addrs: seq<IpAddr>)
    requires cache.None? || Remaining(cache.value, now) == 0
    ensures Step(t, cache, now, Ok(addrs)) ==
              StepResult(Ok(addrs), Some(CachedResponse(now, t.cacheTimeout, Addresses(addrs))), true)
  {
  }

  /** A rate limit arms the marker stamped now: doubled and capped after a previous rate limit, else the base. */
  lemma RateLimitArmsBackoff(t: Timing, cache: Option<CachedResponse>, now: nat)
    requires cache.None? || Remaining(cache.value, now) == 0
    ensures var s := Step(t, cache, now, Err(RateLimited));
      s.called && s.result.Err? && s.cache.Some? &&
      s.cache.value.timestamp == now && s.cache.value.content == RateLimitedMarker &&
      s.cache.value.timeout ==
        (if cache.Some? && cache.value.content == RateLimitedMarker
         then Min(2 * cache.value.timeout, t.backoffMax) else t.backoffBase)
  {
  }

  /** Any other provider failure is reported and leaves the cache exactly as it was. */
  lemma OtherFailureKeepsCache(t: Timing, cache: Option<CachedResponse>, now: nat, e: IpSolverError)
    requires cache.None? || Remaining(cache.value, now) == 0
    requires e != RateLimited
    ensures Step(t, cache, now, Err(e)) == StepResult(Err(IpApiFailed(e)), cache, true)
  {
  }

  /** The constants are consistent: the base backoff does not exceed the maximum. */
  predicate ValidTiming(t: Timing) {
    t.backoffBase <= t.backoffMax
  }

  /** Cached addresses live for `CACHE_TIMEOUT`; a cached rate limit lives between the base and the maximum backoff. */
  predicate Invariant(t: Timing, cache: Option<CachedResponse>) {
    cache.Some? ==>
      match cache.value.content
      case Addresses(_) => cache.value.timeout == t.cacheTimeout
      case RateLimitedMarker => t.backoffBase <= cache.value.timeout <= t.backoffMax
  }

  lemma StepKeepsInvariant(t: Timing, cache: Option<CachedResponse>, now: nat, fetched: Result<seq<IpAddr>, IpSolverError>)
    requires ValidTiming(t) && Invariant(t, cache)
    ensures Invariant(t, Step(t, cache, now, fetched).cache)
  {
  }

  lemma TimingsAreValid()
    ensures ValidTiming(PRODUCTION) && ValidTiming(TEST)
  {
  }

  /** The legacy providers' classification of the HTTP exchange; every non-429 failure becomes `Other`. */
  function ProviderRespond(reply: HttpReply): (r: Result<seq<IpAddr>, IpSolverError>)
    ensures r.Ok? <==> reply.Received? && reply.status != TOO_MANY_REQUESTS && !IsErrorStatus(reply.status) && reply.body.Some?
    ensures r.Ok? ==> r.value == [reply.body.value]
    ensures r == Err(RateLimited) <==> reply.Received? && reply.status == TOO_MANY_REQUESTS
  {
    match reply
    case SendFailed(e) => Err(Other(ProviderRequest(e)))
    case Received(status, body) =>
      if status == TOO_MANY_REQUESTS then Err(RateLimited)
      else if IsErrorStatus(status) then Err(Other(ProviderRequest(Status(status))))
      else match body
        case None => Err(Other(ProviderRequest(Decode)))
        case Some(ip) => Ok([ip])
  }

  /**
   * The solver object. `inner` is the provider, asked with the family and the number of
   * calls made so far (the tests' `MockSolver` consumes a list of answers by that counter).
   */
  class IpSolver {
    const timing: Timing
    const inner: (AddressKind, nat) -> Result<seq<IpAddr>, IpSolverError>
    var cache: Option<CachedResponse>
    var calls: nat

    /** `IpSolver::new` in a production build, over the HTTP exchange `http`. */
    constructor (provider: Crd.IpSolverProvider, http: (Crd.IpSolverProvider, AddressKind, nat) -> HttpReply)
      ensures timing == PRODUCTION && cache.None? && calls == 0
      ensures forall kind, i :: inner(kind, i) == ProviderRespond(http(provider, kind, i))
    {
      timing := PRODUCTION;
      inner := (kind: AddressKind, i: nat) => ProviderRespond(http(provider, kind, i));
      cache := None;
      calls := 0;
    }

    /** `IpSolver::with_ip_provider`, which exists only in test builds. */
    constructor WithIpProvider(provider: (AddressKind, nat) -> Result<seq<IpAddr>, IpSolverError>)
      ensures timing == TEST && cache.None? && calls == 0 && inner == provider
    {
      timing := TEST;
      inner := provider;
      cache := None;
      calls := 0;
    }

    method GetAddresses(kind: AddressKind, now: nat) returns (r: Result<seq<IpAddr>, SourceError>)
      modifies this
      ensures var s := Step(timing, old(cache), now, inner(kind, old(calls)));
        r == s.result && cache == s.cache && calls == old(calls) + (if s.called then 1 else 0)
    {
      if cache.Some? && Remaining(cache.value, now) > 0 {
        var cached := cache.value;
        match cached.content {
          case RateLimitedMarker =>
            return Err(StillBackingOff(Remaining(cached, now) / 1000));
          case Addresses(addrs) =>
            return Ok(addrs);
        }
      }
      var fetched := inner(kind, calls);
      calls := calls + 1;
      match fetched {
        case Ok(addrs) =>
          cache := Some(CachedResponse(now, timing.cacheTimeout, Addresses(addrs)));
          return Ok(addrs);
        case Err(e) =>
          if e == RateLimited {
            var newCache: CachedResponse;
            if cache.Some? && cache.value.content.RateLimitedMarker? {
              newCache := CachedResponse(now, Min(2 * cache.value.timeout, timing.backoffMax), RateLimitedMarker);
            } else {
              newCache := CachedResponse(now, timing.backoffBase, RateLimitedMarker);
            }
            var backoff := newCache.timeout / 1000;
            cache := Some(newCache);
            return Err(RateLimitedBackingOff(backoff));
          }
          return Err(IpApiFailed(e));
      }
    }
  }
}
