/**
 * Error types of the newer tree. The Rust `SolverError` is a struct holding a reason
 * string; here the reason is the datatype `SolverError` naming which failure occurred.
 */
module ExtErrors {
  import opened Ip
  import Crd
  import Kube
  import ExtIpApi
  import LbIngress

  datatype SolverError =
    | NotFound(solver: Crd.SolverKind, family: AddressKind)  // no registry cell under that key
    | LockTimeout                                            // the cell's lock was not acquired in time
    | Provider(cause: ExtIpApi.IpProviderError)              // `From<IpProviderError>`
    | MissingField(field: LbIngress.MissingField)            // service status lacks a field
    | Dns(message: string)                                   // resolver failure
    | MaskMismatch(expected: AddressKind, got: IpAddr)       // merge mask of the wrong family
    | NoPartialAddresses                                     // a merge part yielded nothing
    | NoAddresses                                            // no solver of a list yielded anything
    | Panicked                                               // the Rust code would panic here

  datatype MalformedReason =
    | NoSourceBlock          // neither ipv4 nor ipv6 configured
    | EmptySolverList        // a solver list without solvers
    | MaskSumInvalid(sum: nat)  // merge masks do not add up to a full address

  datatype IpSourceError =
    | KubeApi(kubeError: Kube.KubeError)
    | Solver(solverError: SolverError)
    | Malformed(reason: MalformedReason)
}
