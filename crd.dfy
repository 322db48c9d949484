/**
 * The `ClusterExternalIPSource` custom resource, version v1alpha1, as deserialised:
 * per family an optional solver configuration, each a query mode and a list of solvers.
 */
module Crd {
  import opened Wrappers
  import opened Ip
  import Kube

  const CLUSTER_EXTERNAL_IP_SOURCE_KIND: string := "ClusterExternalIPSource"

  datatype IpSolverProvider = MyIp | Ipify

  datatype QueryMode = FirstFound | All

  /** `#[default]` of the resource's query mode. */
  const DEFAULT_QUERY_MODE: QueryMode := FirstFound

  /** A solver that may stand inside a merge: every solver kind except a merge. */
  datatype PartialSolverKind =
    | PartialIpAPI(provider: IpSolverProvider)
    | PartialDnsHostname(host: string)
    | PartialLoadBalancerIngress
    | PartialStatic(addresses: seq<IpAddr>)

  /** One part of a merge: the bits of `mask` are taken from the last address `solver` yields. */
  datatype PartialSolver = PartialSolver(mask: IpAddr, solver: PartialSolverKind)

  /** The masks of the partial solvers, in order. */
  function Masks(pss: seq<PartialSolver>): (ms: seq<IpAddr>)
    ensures |ms| == |pss| && forall i :: 0 <= i < |pss| ==> ms[i] == pss[i].mask
  {
    seq(|pss|, i requires 0 <= i < |pss| => pss[i].mask)
  }

  datatype SolverKind =
    | IpAPI(provider: IpSolverProvider)
    | DnsHostname(host: string)
    | LoadBalancerIngress
    | Static(addresses: seq<IpAddr>)
    | Merge(partialSolvers: seq<PartialSolver>)

  /** `SolverKind::from(&PartialSolverKind)`: the registry key part of a partial solver. */
  function FromPartial(p: PartialSolverKind): (k: SolverKind)
    ensures !k.Merge?
  {
    match p
    case PartialIpAPI(provider) => IpAPI(provider)
    case PartialDnsHostname(host) => DnsHostname(host)
    case PartialLoadBalancerIngress => LoadBalancerIngress
    case PartialStatic(addresses) => Static(addresses)
  }

  /** The partial solver a solver kind corresponds to, if it is not a merge. */
  function ToPartial(k: SolverKind): (p: Option<PartialSolverKind>)
    ensures p.None? <==> k.Merge?
  {
    match k
    case IpAPI(provider) => Some(PartialIpAPI(provider))
    case DnsHostname(host) => Some(PartialDnsHostname(host))
    case LoadBalancerIngress => Some(PartialLoadBalancerIngress)
    case Static(addresses) => Some(PartialStatic(addresses))
    case Merge(_) => None
  }

  /** The conversion from partial solvers loses nothing and hits exactly the non-merge kinds. */
  lemma FromPartialRoundTrip(p: PartialSolverKind, k: SolverKind)
    ensures ToPartial(FromPartial(p)) == Some(p)
    ensures !k.Merge? ==> FromPartial(ToPartial(k).value) == k
  {
  }

  /** The `solvers` list is `#[serde(default)]`: an absent list is empty. */
  datatype IpSolversConfig = IpSolversConfig(queryMode: Option<QueryMode>, solvers: seq<SolverKind>)

  datatype ClusterExternalIpSourceSpec = ClusterExternalIpSourceSpec(
    ipv4: Option<IpSolversConfig>,
    ipv6: Option<IpSolversConfig>)

  datatype ClusterExternalIPSource = ClusterExternalIPSource(metadata: Kube.ObjectMeta, spec: ClusterExternalIpSourceSpec)

  /** `object_ref` of a cluster-scoped resource of this kind. */
  function ObjectRef(c: ClusterExternalIPSource): (r: Kube.ObjectReference)
    ensures r.kind == CLUSTER_EXTERNAL_IP_SOURCE_KIND
    ensures r.name == c.metadata.name && r.namespace == c.metadata.namespace
  {
    Kube.ObjectReference(CLUSTER_EXTERNAL_IP_SOURCE_KIND, c.metadata.name, c.metadata.namespace)
  }

  /** The serialised name of a solver kind (`rename_all = "camelCase"`, `ipAPI` renamed explicitly). */
  function WireTag(k: SolverKind): (tag: string)
    ensures |tag| > 0
  {
    match k
    case IpAPI(_) => "ipAPI"
    case DnsHostname(_) => "dnsHostname"
    case LoadBalancerIngress => "loadBalancerIngress"
    case Static(_) => "static"
    case Merge(_) => "merge"
  }

  function QueryModeTag(m: QueryMode): (tag: string)
    ensures |tag| > 0
  {
    match m
    case FirstFound => "firstFound"
    case All => "all"
  }

  /** Different solver kinds never share a tag, so the tag decides the variant. */
  lemma WireTagsDistinct(a: SolverKind, b: SolverKind)
    ensures WireTag(a) == WireTag(b) <==>
              (a.IpAPI? && b.IpAPI?) || (a.DnsHostname? && b.DnsHostname?) ||
              (a.LoadBalancerIngress? && b.LoadBalancerIngress?) || (a.Static? && b.Static?) || (a.Merge? && b.Merge?)
  {
  }

  lemma QueryModeTagsDistinct(a: QueryMode, b: QueryMode)
    ensures QueryModeTag(a) == QueryModeTag(b) <==> a == b
  {
  }
}
