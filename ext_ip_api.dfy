/**
 * The provider-facing half of the IP-API solver: provider errors, the timestamped
 * provider response with its expiry arithmetic, and the two HTTP providers.
 * Times are milliseconds on one monotonic clock; `now` is passed in.
 */
module ExtIpApi {
  import opened Wrappers
  import opened Ip
  import Crd
  import opened Http

  datatype IpProviderError =
    | RateLimited
    | RequestFailed(cause: ReqwestError)
    | InvalidResponse(cause: ReqwestError)

  /** `From<reqwest::Error>`: decode failures are invalid responses, anything else a failed request. */
  function FromReqwest(e: ReqwestError): (r: IpProviderError)
    ensures r.InvalidResponse? <==> e.Decode?
    ensures !r.RateLimited? && r.cause == e
  {
    if e.Decode? then InvalidResponse(e) else RequestFailed(e)
  }

  datatype IpProviderResponse = IpProviderResponse(
    timeout: nat,
    timestamp: nat,
    expiresAt: nat,
    response: Result<seq<IpAddr>, IpProviderError>)

  /** `IpProviderResponse::new`, stamped at `now`. */
  function NewResponse(timeout: nat, response: Result<seq<IpAddr>, IpProviderError>, now: nat): (r: IpProviderResponse)
    ensures WellFormed(r) && r.timestamp == now && r.timeout == timeout && r.response == response
  {
    IpProviderResponse(timeout, now, now + timeout, response)
  }

  /** Every response built by `NewResponse` expires exactly `timeout` after it was stamped. */
  predicate WellFormed(r: IpProviderResponse) {
    r.expiresAt == r.timestamp + r.timeout
  }

  predicate Expired(r: IpProviderResponse, now: nat) {
    r.expiresAt < now
  }

  /** `Instant::elapsed`, which saturates at zero. */
  function Elapsed(r: IpProviderResponse, now: nat): nat {
    if now >= r.timestamp then now - r.timestamp else 0
  }

  /** `timeout.saturating_sub(elapsed)`. */
  function Remaining(r: IpProviderResponse, now: nat): (d: nat)
    ensures d <= r.timeout
    ensures d == 0 <==> Elapsed(r, now) >= r.timeout
  {
    if Elapsed(r, now) >= r.timeout then 0 else r.timeout - Elapsed(r, now)
  }

  /**
   * A response built at `t0` stays unexpired through `t0 + timeout` inclusive and no
   * longer, and while it is unexpired (and not yet ended) the remaining time counts down.
   */
  lemma NewResponseLifetime(timeout: nat, resp: Result<seq<IpAddr>, IpProviderError>, t0: nat, now: nat)
    ensures !Expired(NewResponse(timeout, resp, t0), now) <==> now <= t0 + timeout
    ensures t0 <= now <= t0 + timeout ==> Remaining(NewResponse(timeout, resp, t0), now) == t0 + timeout - now
    ensures t0 <= now < t0 + timeout ==> Remaining(NewResponse(timeout, resp, t0), now) > 0
  {
  }

  /** For a well-formed response, time left means not expired, and being expired means no time left. */
  lemma RemainingAgreesWithExpiry(r: IpProviderResponse, now: nat)
    requires WellFormed(r) && r.timestamp <= now
    ensures Remaining(r, now) > 0 ==> !Expired(r, now)
    ensures Expired(r, now) ==> Remaining(r, now) == 0
    ensures !Expired(r, now) <==> Remaining(r, now) > 0 || now == r.expiresAt
  {
  }

  /** `CACHE_DURATION` of each provider, in milliseconds (300 s for ipify, 900 s for my-ip.io). */
  function CacheDuration(p: Crd.IpSolverProvider): nat {
    match p
    case Ipify => 300_000
    case MyIp => 900_000
  }

  /** `get_addresses` of either provider: every outcome is stamped at `now` with the provider's cache duration. */
  function ProviderRespond(p: Crd.IpSolverProvider, reply: HttpReply, now: nat): (r: IpProviderResponse)
    ensures WellFormed(r) && r.timestamp == now && r.timeout == CacheDuration(p)
    ensures r.response.Ok? <==> reply.Received? && reply.status != TOO_MANY_REQUESTS && !IsErrorStatus(reply.status) && reply.body.Some?
    ensures r.response.Ok? ==> r.response.value == [reply.body.value]
    ensures r.response == Err(RateLimited) <==> reply.Received? && reply.status == TOO_MANY_REQUESTS
    ensures r.response.Err? && r.response.error.InvalidResponse? <==>
              (reply.SendFailed? && reply.error.Decode?) ||
              (reply.Received? && reply.status != TOO_MANY_REQUESTS && !IsErrorStatus(reply.status) && reply.body.None?)
  {
    var d := CacheDuration(p);
    match reply
    case SendFailed(e) => NewResponse(d, Err(FromReqwest(e)), now)
    case Received(status, body) =>
      if status == TOO_MANY_REQUESTS then NewResponse(d, Err(RateLimited), now)
      else if IsErrorStatus(status) then NewResponse(d, Err(FromReqwest(Status(status))), now)
      else match body
        case None => NewResponse(d, Err(FromReqwest(Decode)), now)
        case Some(ip) => NewResponse(d, Ok([ip]), now)
  }
}
