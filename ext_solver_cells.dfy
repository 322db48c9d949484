/**
 * The newer tree's solver registry as a value: one cell per (solver configuration,
 * address family), each holding the state of the solver built from that configuration.
 * Queries thread the registry through, since the only mutable solver state (the IP-API
 * cache) lives in the cells.
 */
module ExtSolverCells {
  import opened Wrappers
  import opened Ip
  import opened Crd
  import Kube
  import opened Http
  import opened ExtIpApi
  import ExtIpApiSolver
  import opened ExtErrors
  import LbIngress
  import StaticSolver

  /** The state of one constructed solver (`Box<dyn Solver>`). */
  datatype SolverState =
    | IpApiCell(provider: IpSolverProvider, cache: Option<IpProviderResponse>, calls: nat)
    | DnsHostnameCell(host: string)
    | LoadBalancerIngressCell
    | StaticCell(solver: StaticSolver.Static)
    | MergeCell(partialSolvers: seq<PartialSolver>)

  /** The configuration a solver was built from. */
  function ConfigOf(s: SolverState): SolverKind {
    match s
    case IpApiCell(p, _, _) => IpAPI(p)
    case DnsHostnameCell(h) => DnsHostname(h)
    case LoadBalancerIngressCell => LoadBalancerIngress
    case StaticCell(st) => Static(st.addresses)
    case MergeCell(pss) => Merge(pss)
  }

  type RegistryKey = (SolverKind, AddressKind)

  type Cells = map<RegistryKey, SolverState>

  /** Every cell holds a solver built from the configuration it is keyed by. */
  predicate Consistent(cells: Cells) {
    forall k :: k in cells ==> ConfigOf(cells[k]) == k.0
  }

  /** The resolver's A and AAAA lookups, taken as given. */
  datatype Resolver = Resolver(v4: string -> Result<seq<U32>, string>, v6: string -> Result<seq<U128>, string>)

  /**
   * What a query pass sees of the world: the time, the service being resolved, the IP
   * parsers, the resolver, the HTTP exchange with each provider (by family and call
   * number), and the cells whose lock cannot be acquired within the timeout.
   */
  datatype Env = Env(
    now: nat,
    svc: Kube.Service,
    parse: Parsers,
    dns: Resolver,
    http: (IpSolverProvider, AddressKind, nat) -> HttpReply,
    contended: set<RegistryKey>)

  /** `DnsHostname::get_addresses`: the A or AAAA records of `host`; a resolver failure is an error. */
  function DnsLookup(r: Resolver, host: string, kind: AddressKind): (res: Result<seq<IpAddr>, SolverError>)
    ensures res.Ok? ==> forall i :: 0 <= i < |res.value| ==> KindOf(res.value[i]) == kind
    ensures res.Err? ==> res.error.Dns?
  {
    match kind
    case IPv4 =>
      (match r.v4(host)
       case Ok(bs) => Ok(seq(|bs|, i requires 0 <= i < |bs| => V4(bs[i])))
       case Err(msg) => Err(Dns(msg)))
    case IPv6 =>
      (match r.v6(host)
       case Ok(bs) => Ok(seq(|bs|, i requires 0 <= i < |bs| => V6(bs[i])))
       case Err(msg) => Err(Dns(msg)))
  }

  /** Look a cell up and take its lock: a missing cell and a lock timeout are errors. */
  function Acquire(cells: Cells, key: RegistryKey, env: Env): (r: Result<SolverState, SolverError>)
    ensures r.Ok? <==> key in cells && key !in env.contended
    ensures r.Ok? ==> r.value == cells[key]
    ensures key !in cells ==> r == Err(NotFound(key.0, key.1))
    ensures key in cells && key in env.contended ==> r == Err(LockTimeout)
  {
    if key !in cells then Err(NotFound(key.0, key.1))
    else if key in env.contended then Err(LockTimeout)
    else Ok(cells[key])
  }

  datatype LeafAnswer = LeafAnswer(result: Result<seq<IpAddr>, SolverError>, state: SolverState)

  /**
   * `get_addresses` of every solver but the merge. Only an IP-API solver changes: its cache
   * and call count move as the newer IP-API solver's step says.
   */
  function ResolveLeaf(s: SolverState, kind: AddressKind, env: Env): (a: LeafAnswer)
    requires !s.MergeCell?
    ensures ConfigOf(a.state) == ConfigOf(s)
    ensures a.result != Err(Panicked)
    ensures !s.IpApiCell? ==> a.state == s
    ensures s.LoadBalancerIngressCell? ==>
              a.result == (match LbIngress.GetAddresses(env.svc, kind, env.parse)
                           case Ok(v) => Ok(v) case Err(f) => Err(MissingField(f)))
    ensures s.StaticCell? ==> a.result == Ok(OfFamily(s.solver.addresses, kind))
  {
    match s
    case IpApiCell(p, cache, calls) =>
      var st := ExtIpApiSolver.Step(cache, env.now, ProviderRespond(p, env.http(p, kind, calls), env.now));
      ExtIpApiSolver.CachedAnswerNeverPanics(cache, env.now, ProviderRespond(p, env.http(p, kind, calls), env.now));
      LeafAnswer(st.result, IpApiCell(p, st.cache, calls + (if st.called then 1 else 0)))
    case DnsHostnameCell(h) => LeafAnswer(DnsLookup(env.dns, h, kind), s)
    case LoadBalancerIngressCell =>
      LeafAnswer(match LbIngress.GetAddresses(env.svc, kind, env.parse)
                 case Ok(v) => Ok(v) case Err(f) => Err(MissingField(f)), s)
    case StaticCell(st) => LeafAnswer(st.GetAddresses(kind), s)
  }

  /** Replacing a cell by a state of the same configuration keeps the registry consistent. */
  lemma UpdateKeepsConsistent(cells: Cells, key: RegistryKey, s: SolverState)
    requires Consistent(cells) && key in cells && ConfigOf(s) == ConfigOf(cells[key])
    ensures Consistent(cells[key := s]) && cells[key := s].Keys == cells.Keys
  {
  }
}
