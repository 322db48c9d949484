/**
 * The HTTP exchange with a what-is-my-IP provider, reduced to what the providers of
 * both trees inspect: whether the request went out, the status, and whether the body
 * decoded to an address.
 */
module Http {
  import opened Wrappers
  import opened Ip

  /** What a failed `reqwest` call is, as far as the conversions look at it. */
  datatype ReqwestError = Connect | Timeout | Status(code: nat) | Decode | OtherRequest

  datatype HttpReply = SendFailed(error: ReqwestError) | Received(status: nat, body: Option<IpAddr>)

  const TOO_MANY_REQUESTS: nat := 429

  /** `error_for_status` fails on 4xx and 5xx. */
  predicate IsErrorStatus(status: nat) {
    400 <= status <= 599
  }
}
