/**
 * Error types of the older tree. The Rust `SourceError` is a struct holding a message;
 * here the message is the datatype `SourceError` naming which failure it reports.
 * `SourceError` and `IpSolverError` refer to each other, as in the Rust code.
 */
module LegacyErrors {
  import opened Ip
  import Kube
  import Http
  import LbIngress

  datatype SourceError =
    | StillBackingOff(remainingSecs: nat)       // a fresh cached rate limit
    | RateLimitedBackingOff(backoffSecs: nat)   // a new rate limit, and the backoff armed for it
    | IpApiFailed(cause: IpSolverError)         // `From<IpSolverError>`
    | ProviderRequest(request: Http.ReqwestError)  // the message inside `IpSolverError::Other` from reqwest
    | MissingField(field: LbIngress.MissingField)
    | Dns(message: string)
    | MaskMismatch(expected: AddressKind, got: IpAddr)
    | NoPartialAddresses
    | MaskSumInvalid(sum: nat)
    | ListFailed(error: Kube.KubeError)          // listing the custom resources failed
    | Panicked                                  // the Rust code would panic here

  datatype IpSolverError = RateLimited | Other(source: SourceError)
}
