/**
 * `IpApiSolver` of the newer tree: a provider behind a one-entry cache that remembers
 * the last addresses or the last rate limit, with exponential backoff on repeated
 * rate limits.
 */
module ExtIpApiSolver {
  import opened Wrappers
  import opened Ip
  import Crd
  import opened ExtIpApi
  import opened ExtErrors
  import opened Http
  import opened Bits

  /** `RATELIMIT_BACKOFF_DURATION_MAX`: two hours, in milliseconds. */
  const RATELIMIT_BACKOFF_DURATION_MAX: nat := 7_200_000

  function Min(a: nat, b: nat): nat {
    if a <= b then a else b
  }

  /** The cache holds nothing, addresses, or a rate-limit marker; never another provider error. */
  predicate CacheShape(cache: Option<IpProviderResponse>) {
    cache.Some? ==> (cache.value.response.Ok? || cache.value.response == Err(RateLimited))
  }

  /** The answer an unexpired cache entry gives on its own: its addresses, or its rate limit. */
  function CachedAnswer(cache: Option<IpProviderResponse>, now: nat): (a: Option<Result<seq<IpAddr>, SolverError>>)
    ensures a.Some? <==> cache.Some? && !Expired(cache.value, now) &&
                          (cache.value.response.Ok? || cache.value.response == Err(RateLimited))
    ensures a.Some? && a.value.Ok? ==> cache.value.response == Ok(a.value.value)
    ensures a.Some? && a.value.Err? ==> a.value.error == Provider(RateLimited)
  {
    match cache
    case None => None
    case Some(c) =>
      if Expired(c, now) then None
      else match c.response
        case Ok(addrs) => Some(Ok(addrs))
        case Err(e) => if e == RateLimited then Some(Err(Provider(RateLimited))) else None
  }

  /** What one call does: its result, the cache it leaves, and whether the provider was asked. */
  datatype StepResult = StepResult(result: Result<seq<IpAddr>, SolverError>, cache: Option<IpProviderResponse>, called: bool)

  /** The effect of a provider response `resp` obtained at `now`, given the cache before the call. */
  function AfterFetch(cache: Option<IpProviderResponse>, resp: IpProviderResponse, now: nat): StepResult {
    match resp.response
    case Ok(addrs) => StepResult(Ok(addrs), Some(resp), true)
    case Err(e) =>
      if e == RateLimited then
        if cache.Some? && cache.value.response == Err(RateLimited) then
          var t := Min(2 * cache.value.timeout, RATELIMIT_BACKOFF_DURATION_MAX);
          StepResult(Err(Provider(RateLimited)), Some(NewResponse(t, cache.value.response, now)), true)
        else
          StepResult(Err(Provider(e)), Some(resp), true)
      else
        StepResult(Err(Provider(e)), None, true)
  }

  /**
   * `get_addresses` as a function of the cache before the call, the time, and the response
   * the provider would give if asked (used only when `called` is true).
   */
  function Step(cache: Option<IpProviderResponse>, now: nat, fetched: IpProviderResponse): StepResult {
    match CachedAnswer(cache, now)
    case Some(a) => StepResult(a, cache, false)
    case None => AfterFetch(cache, fetched, now)
  }

  /** The IP-API solver fails only with provider errors; it never panics. */
  lemma CachedAnswerNeverPanics(cache: Option<IpProviderResponse>, now: nat, fetched: IpProviderResponse)
    ensures Step(cache, now, fetched).result.Err? ==> Step(cache, now, fetched).result.error.Provider?
  {
  }

  /** Unexpired cached addresses are returned as they are, with no provider call and no change. */
  lemma CacheHit(cache: Option<IpProviderResponse>, now: nat, fetched: IpProviderResponse)
    requires cache.Some? && !Expired(cache.value, now) && cache.value.response.Ok?
    ensures Step(cache, now, fetched) == StepResult(Ok(cache.value.response.value), cache, false)
  {
  }

  /** An unexpired cached rate limit answers with a rate-limit error, with no provider call and no change. */
  lemma RateLimitHit(cache: Option<IpProviderResponse>, now: nat, fetched: IpProviderResponse)
    requires cache.Some? && !Expired(cache.value, now) && cache.value.response == Err(RateLimited)
    ensures Step(cache, now, fetched) == StepResult(Err(Provider(RateLimited)), cache, false)
  {
  }

  /**
   * For a cache of the allowed shape, the provider is asked exactly when the cache is empty
   * or expired; a provider success is then returned and becomes the cache.
   */
  lemma CalledIffUnusable(cache: Option<IpProviderResponse>, now: nat, fetched: IpProviderResponse)
    requires CacheShape(cache)
    ensures Step(cache, now, fetched).called <==> cache.None? || Expired(cache.value, now)
    ensures Step(cache, now, fetched).called && fetched.response.Ok? ==>
              Step(cache, now, fetched).result == Ok(fetched.response.value) &&
              Step(cache, now, fetched).cache == Some(fetched)
  {
  }

  /**
   * A rate limit right after an (expired) rate limit re-arms the marker stamped at `now`,
   * with the previous timeout doubled and capped at two hours.
   */
  lemma RepeatedRateLimitBacksOff(cache: Option<IpProviderResponse>, now: nat, fetched: IpProviderResponse)
    requires cache.Some? && Expired(cache.value, now) && cache.value.response == Err(RateLimited)
    requires fetched.response == Err(RateLimited)
    ensures var s := Step(cache, now, fetched);
      s.called && s.result == Err(Provider(RateLimited)) && s.cache.Some? &&
      s.cache.value.timeout == Min(2 * cache.value.timeout, RATELIMIT_BACKOFF_DURATION_MAX) &&
      s.cache.value.timestamp == now && WellFormed(s.cache.value) &&
      s.cache.value.response == Err(RateLimited)
  {
  }

  /** A first rate limit (after nothing, or after addresses) caches the provider's response as it is. */
  lemma FirstRateLimitCachesResponse(cache: Option<IpProviderResponse>, now: nat, fetched: IpProviderResponse)
    requires cache.None? || (Expired(cache.value, now) && cache.value.response.Ok?)
    requires fetched.response == Err(RateLimited)
    ensures Step(cache, now, fetched) == StepResult(Err(Provider(RateLimited)), Some(fetched), true)
  {
  }

  /** A failed request or an invalid response empties the cache and is reported. */
  lemma OtherFailureClearsCache(cache: Option<IpProviderResponse>, now: nat, fetched: IpProviderResponse)
    requires CacheShape(cache) && (cache.None? || Expired(cache.value, now))
    requires fetched.response.Err? && fetched.response.error != RateLimited
    ensures Step(cache, now, fetched) == StepResult(Err(Provider(fetched.response.error)), None, true)
  {
  }

  /**
   * Every call leaves a cache of the right shape, whatever the cache held and whatever the
   * provider says; and a well-formed cache stays well-formed when the provider's responses are.
   */
  lemma StepKeepsCacheShape(cache: Option<IpProviderResponse>, now: nat, fetched: IpProviderResponse)
    ensures CacheShape(Step(cache, now, fetched).cache)
    ensures (cache.Some? ==> WellFormed(cache.value)) && WellFormed(fetched) ==>
              var c := Step(cache, now, fetched).cache; c.Some? ==> WellFormed(c.value)
  {
  }

  /** A call made at the same instant as a call that was answered from the cache is answered the same way. */
  lemma CachedAnswerIsStable(cache: Option<IpProviderResponse>, now: nat, f1: IpProviderResponse, f2: IpProviderResponse)
    requires !Step(cache, now, f1).called
    ensures Step(Step(cache, now, f1).cache, now, f2) == Step(cache, now, f1)
  {
  }

  /** The timeout after `n` further back-to-back rate limits, starting from a marker of timeout `t`. */
  function BackoffAfter(t: nat, n: nat): nat {
    if n == 0 then t else Min(2 * BackoffAfter(t, n - 1), RATELIMIT_BACKOFF_DURATION_MAX)
  }

  /** Repeated doubling with a cap is one doubling of `2^n` with the cap: `min(t * 2^n, 2h)`. */
  lemma {:induction false} BackoffClosedForm(t: nat, n: nat)
    requires n >= 1
    ensures BackoffAfter(t, n) == Min(t * Pow2(n), RATELIMIT_BACKOFF_DURATION_MAX)
  {
    if n > 1 {
      BackoffClosedForm(t, n - 1);
      assert t * Pow2(n) == 2 * (t * Pow2(n - 1));
    }
  }

  /** Whatever the starting timeout, the backoff never exceeds the cap once it has doubled. */
  lemma {:induction false} BackoffBounded(t: nat, n: nat)
    requires n >= 1
    ensures BackoffAfter(t, n) <= RATELIMIT_BACKOFF_DURATION_MAX
  {
    BackoffClosedForm(t, n);
  }

  /**
   * The solver object. `inner` is the provider: asked with the family, the number of calls
   * made so far, and the time, it produces a response (`MockSolver` of the tests consumes a
   * list of responses by that counter; a real provider ignores it).
   */
  class IpApiSolver {
    const inner: (AddressKind, nat, nat) -> IpProviderResponse
    var cache: Option<IpProviderResponse>
    var calls: nat

    /** `IpApiSolver::new`: the provider of the configuration, over the HTTP exchange `http`. */
    constructor (provider: Crd.IpSolverProvider, http: (Crd.IpSolverProvider, AddressKind, nat) -> HttpReply)
      ensures cache.None? && calls == 0
      ensures forall kind, i, now :: inner(kind, i, now) == ProviderRespond(provider, http(provider, kind, i), now)
    {
      inner := (kind: AddressKind, i: nat, now: nat) => ProviderRespond(provider, http(provider, kind, i), now);
      cache := None;
      calls := 0;
    }

    /** `IpApiSolver::with_test_provider`. */
    constructor WithTestProvider(provider: (AddressKind, nat, nat) -> IpProviderResponse)
      ensures cache.None? && calls == 0 && inner == provider
    {
      inner := provider;
      cache := None;
      calls := 0;
    }

    method GetAddresses(kind: AddressKind, now: nat) returns (r: Result<seq<IpAddr>, SolverError>)
      modifies this
      ensures var s := Step(old(cache), now, inner(kind, old(calls), now));
        r == s.result && cache == s.cache && calls == old(calls) + (if s.called then 1 else 0)
    {
      if cache.Some? && !Expired(cache.value, now) {
        var cached := cache.value;
        match cached.response {
          case Ok(addrs) =>
            return Ok(addrs);
          case Err(e) =>
            if e == RateLimited {
              return Err(Provider(e));
            }
        }
      }
      var resp := inner(kind, calls, now);
      calls := calls + 1;
      var res: Result<seq<IpAddr>, SolverError>;
      var next: Option<IpProviderResponse>;
      match resp.response {
        case Ok(addrs) =>
          res, next := Ok(addrs), Some(resp);
        case Err(e) =>
          if e == RateLimited {
            if cache.Some? && cache.value.response == Err(RateLimited) {
              var newTimeout := Min(2 * cache.value.timeout, RATELIMIT_BACKOFF_DURATION_MAX);
              res, next := Err(Provider(RateLimited)), Some(NewResponse(newTimeout, cache.value.response, now));
            } else {
              res, next := Err(Provider(e)), Some(resp);
            }
          } else {
            res, next := Err(Provider(e)), None;
          }
      }
      cache := next;
      return res;
    }
  }
}
