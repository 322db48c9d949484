/**
 * The unit tests of both IP-API solvers, as methods over the solver classes with a mock
 * provider that hands out a fixed list of answers, one per provider call. The sleeps of
 * the tests become lower bounds on the time between calls, so each method covers every
 * timing the test allows.
 */
module IpApiScenarios {
  import opened Wrappers
  import opened Ip
  import ExtIpApi
  import ExtErrors
  import ExtIpApiSolver
  import LegacyErrors
  import LegacyIpApiSolver

  /** `"0.0.0.0"` and `"1.1.1.1"`. */
  const ZERO: IpAddr := V4(0)
  const ONES: IpAddr := V4(0x0101_0101)

  /** The newer tests' `CACHE_TIMEOUT` and `SLEEP_EXTRA`, in milliseconds. */
  const CACHE_TIMEOUT: nat := 500
  const SLEEP_EXTRA: nat := 100

  /** The older tests sleep one second beyond the duration they wait out. */
  const LEGACY_SLEEP_EXTRA: nat := 1_000

  /**
   * The newer tests' `MockSolver`: call `i` gets answer `i`. The mock indexes past its list
   * only in a test that makes more calls than it has answers, which none does; the last
   * answer stands in for that case.
   */
  function Mock(answers: seq<ExtIpApi.IpProviderResponse>): (AddressKind, nat, nat) -> ExtIpApi.IpProviderResponse
    requires answers != []
  {
    (kind: AddressKind, i: nat, now: nat) => if i < |answers| then answers[i] else answers[|answers| - 1]
  }

  lemma MockAt(answers: seq<ExtIpApi.IpProviderResponse>, kind: AddressKind, i: nat, now: nat)
    requires i < |answers|
    ensures Mock(answers)(kind, i, now) == answers[i]
  {
  }

  /** The answers are built before the first call, at time 0, each with the test's cache timeout. */
  function Answer(response: Result<seq<IpAddr>, ExtIpApi.IpProviderError>): ExtIpApi.IpProviderResponse {
    ExtIpApi.NewResponse(CACHE_TIMEOUT, response, 0)
  }

  /** `uses_cache`: a second call within the cache timeout returns the first answer again. */
  method UsesCache(t1: nat, t2: nat) returns (first: Result<seq<IpAddr>, ExtErrors.SolverError>, second: Result<seq<IpAddr>, ExtErrors.SolverError>)
    requires t1 <= t2 <= CACHE_TIMEOUT
    ensures first == Ok([ZERO]) && second == Ok([ZERO])
  {
    var solver := new ExtIpApiSolver.IpApiSolver.WithTestProvider(Mock([Answer(Ok([ZERO])), Answer(Ok([ONES]))]));
    first := solver.GetAddresses(IPv4, t1);
    second := solver.GetAddresses(IPv4, t2);
  }

  /** `cache_invalidates`: after the cache timeout the provider's next answer is returned. */
  method CacheInvalidates(t1: nat, t2: nat) returns (second: Result<seq<IpAddr>, ExtErrors.SolverError>)
    requires t1 + CACHE_TIMEOUT + SLEEP_EXTRA <= t2
    ensures second == Ok([ZERO])
  {
    var solver := new ExtIpApiSolver.IpApiSolver.WithTestProvider(Mock([Answer(Ok([ONES])), Answer(Ok([ZERO]))]));
    var first := solver.GetAddresses(IPv4, t1);
    second := solver.GetAddresses(IPv4, t2);
  }

  /*
   * The rate-limit tests of the newer solver are stated on `Step`, which `GetAddresses`
   * follows call by call, as the trace of its calls: the cache each call leaves is the
   * cache of the next, and each call that asks the provider consumes the mock's next answer.
   */

  const LIMITED: ExtIpApi.IpProviderResponse := Answer(Err(ExtIpApi.RateLimited))
  const ANSWERED: ExtIpApi.IpProviderResponse := Answer(Ok([ZERO]))

  /** `errors_on_ratelimit`: a rate-limited provider is an error. */
  lemma ErrorsOnRateLimit(t1: nat)
    ensures ExtIpApiSolver.Step(None, t1, LIMITED).result == Err(ExtErrors.Provider(ExtIpApi.RateLimited))
  {
    ExtIpApiSolver.FirstRateLimitCachesResponse(None, t1, LIMITED);
  }

  /**
   * `waits_after_ratelimit`: the first call consumes the rate limit, an immediate second
   * call is still rate limited without asking the provider, and a call after the timeout
   * consumes the next answer and returns it.
   */
  lemma WaitsAfterRateLimit(t1: nat, t2: nat, t3: nat)
    requires t1 <= t2 <= CACHE_TIMEOUT && t2 + CACHE_TIMEOUT + SLEEP_EXTRA <= t3
    ensures ExtIpApiSolver.Step(None, t1, LIMITED) ==
              ExtIpApiSolver.StepResult(Err(ExtErrors.Provider(ExtIpApi.RateLimited)), Some(LIMITED), true)
    ensures ExtIpApiSolver.Step(Some(LIMITED), t2, ANSWERED) ==
              ExtIpApiSolver.StepResult(Err(ExtErrors.Provider(ExtIpApi.RateLimited)), Some(LIMITED), false)
    ensures ExtIpApiSolver.Step(Some(LIMITED), t3, ANSWERED) == ExtIpApiSolver.StepResult(Ok([ZERO]), Some(ANSWERED), true)
  {
    ExtIpApiSolver.FirstRateLimitCachesResponse(None, t1, LIMITED);
    ExtIpApiSolver.RateLimitHit(Some(LIMITED), t2, ANSWERED);
    ExtIpApiSolver.CalledIffUnusable(Some(LIMITED), t3, ANSWERED);
  }

  /**
   * `exponential_backoff_on_repeated_ratelimit`: after the timeout a second rate limit
   * re-arms the marker with the cached timeout doubled.
   */
  lemma ExponentialBackoff(t1: nat, t2: nat)
    requires t1 + CACHE_TIMEOUT + SLEEP_EXTRA <= t2
    ensures ExtIpApiSolver.Step(None, t1, LIMITED).cache == Some(LIMITED)
    ensures var s := ExtIpApiSolver.Step(Some(LIMITED), t2, LIMITED);
      s.called && s.result.Err? && s.cache.Some? && s.cache.value.timeout == CACHE_TIMEOUT * 2
  {
    ExtIpApiSolver.FirstRateLimitCachesResponse(None, t1, LIMITED);
    ExtIpApiSolver.RepeatedRateLimitBacksOff(Some(LIMITED), t2, LIMITED);
  }

  /** The older tests' `MockSolver`, with the same stand-in past the end of its list. */
  function LegacyMock(answers: seq<Result<seq<IpAddr>, LegacyErrors.IpSolverError>>): (AddressKind, nat) -> Result<seq<IpAddr>, LegacyErrors.IpSolverError>
    requires answers != []
  {
    (kind: AddressKind, i: nat) => if i < |answers| then answers[i] else answers[|answers| - 1]
  }

  /** The older `uses_cache`, under the test build's 2-second cache timeout. */
  method LegacyUsesCache(t1: nat, t2: nat) returns (first: Result<seq<IpAddr>, LegacyErrors.SourceError>, second: Result<seq<IpAddr>, LegacyErrors.SourceError>)
    requires t1 <= t2 < t1 + LegacyIpApiSolver.TEST.cacheTimeout
    ensures first == Ok([ZERO]) && second == Ok([ZERO])
  {
    var solver := new LegacyIpApiSolver.IpSolver.WithIpProvider(LegacyMock([Ok([ZERO]), Ok([ONES])]));
    first := solver.GetAddresses(IPv4, t1);
    second := solver.GetAddresses(IPv4, t2);
  }

  /** The older `cache_invalidates`. */
  method LegacyCacheInvalidates(t1: nat, t2: nat) returns (second: Result<seq<IpAddr>, LegacyErrors.SourceError>)
    requires t1 + LegacyIpApiSolver.TEST.cacheTimeout + LEGACY_SLEEP_EXTRA <= t2
    ensures second == Ok([ZERO])
  {
    var solver := new LegacyIpApiSolver.IpSolver.WithIpProvider(LegacyMock([Ok([ONES]), Ok([ZERO])]));
    var first := solver.GetAddresses(IPv4, t1);
    second := solver.GetAddresses(IPv4, t2);
  }

  /** The older `errors_on_ratelimit`: the error names the 5-second base backoff. */
  method LegacyErrorsOnRateLimit(t1: nat) returns (first: Result<seq<IpAddr>, LegacyErrors.SourceError>)
    ensures first == Err(LegacyErrors.RateLimitedBackingOff(5))
  {
    var solver := new LegacyIpApiSolver.IpSolver.WithIpProvider(LegacyMock([Err(LegacyErrors.RateLimited)]));
    first := solver.GetAddresses(IPv4, t1);
  }

  /** The older `waits_after_ratelimit`: still backing off at once, answered after the base backoff. */
  method LegacyWaitsAfterRateLimit(t1: nat, t2: nat, t3: nat)
    returns (first: Result<seq<IpAddr>, LegacyErrors.SourceError>, second: Result<seq<IpAddr>, LegacyErrors.SourceError>,
             third: Result<seq<IpAddr>, LegacyErrors.SourceError>)
    requires t1 <= t2 < t1 + LegacyIpApiSolver.TEST.backoffBase
    requires t2 + LegacyIpApiSolver.TEST.backoffBase + LEGACY_SLEEP_EXTRA <= t3
    ensures first.Err? && second.Err? && second.error.StillBackingOff? && third == Ok([ZERO])
  {
    var solver := new LegacyIpApiSolver.IpSolver.WithIpProvider(LegacyMock([Err(LegacyErrors.RateLimited), Ok([ZERO])]));
    first := solver.GetAddresses(IPv4, t1);
    second := solver.GetAddresses(IPv4, t2);
    third := solver.GetAddresses(IPv4, t3);
  }

  /** The older `exponential_backoff_on_repeated_ratelimit`: the second marker holds twice the base backoff. */
  method LegacyExponentialBackoff(t1: nat, t2: nat) returns (second: Result<seq<IpAddr>, LegacyErrors.SourceError>, timeout: nat)
    requires t1 + LegacyIpApiSolver.TEST.backoffBase + LEGACY_SLEEP_EXTRA <= t2
    ensures second == Err(LegacyErrors.RateLimitedBackingOff(10))
    ensures timeout == LegacyIpApiSolver.TEST.backoffBase * 2
  {
    var solver := new LegacyIpApiSolver.IpSolver.WithIpProvider(
      LegacyMock([Err(LegacyErrors.RateLimited), Err(LegacyErrors.RateLimited), Ok([ZERO])]));
    var first := solver.GetAddresses(IPv4, t1);
    second := solver.GetAddresses(IPv4, t2);
    timeout := solver.cache.value.timeout;
  }
}
