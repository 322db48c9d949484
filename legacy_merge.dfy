/**
 * The older tree's `Merge` source. Construction checks the mask sum and builds each
 * partial solver inline; a query checks the masks' family and asks each partial solver
 * in turn, so the merge itself holds the state of its partial solvers.
 */
module LegacyMerge {
  import opened Wrappers
  import opened Ip
  import opened Crd
  import Http
  import opened LegacyErrors
  import Bits
  import Kube
  import MergeMasks
  import LbIngress
  import StaticSolver
  import LegacyIpApiSolver

  /** A partial solver as constructed (`Box<dyn Source>`); only the IP-API solver has state. */
  datatype SubSolver =
    | IpSolverPart(provider: IpSolverProvider, cache: Option<LegacyIpApiSolver.CachedResponse>, calls: nat)
    | DnsPart(host: string)
    | LoadBalancerIngressPart
    | StaticPart(solver: StaticSolver.Static)

  datatype MergePart = MergePart(mask: IpAddr, solver: SubSolver)

  datatype Merge = Merge(solvers: seq<MergePart>)

  /** The configuration a partial solver was built from. */
  function ConfigOf(s: SubSolver): PartialSolverKind {
    match s
    case IpSolverPart(p, _, _) => PartialIpAPI(p)
    case DnsPart(h) => PartialDnsHostname(h)
    case LoadBalancerIngressPart => PartialLoadBalancerIngress
    case StaticPart(st) => PartialStatic(st.addresses)
  }

  /** The solver each partial configuration is turned into; an IP-API solver starts with no cache. */
  function SubSolverFrom(k: PartialSolverKind): (s: SubSolver)
    ensures ConfigOf(s) == k
    ensures k.PartialIpAPI? ==> s == IpSolverPart(k.provider, None, 0)
  {
    match k
    case PartialIpAPI(p) => IpSolverPart(p, None, 0)
    case PartialDnsHostname(h) => DnsPart(h)
    case PartialLoadBalancerIngress => LoadBalancerIngressPart
    case PartialStatic(addresses) => StaticPart(StaticSolver.Static(addresses))
  }

  /** The partial-solver configurations the parts of a merge stand for, in order. */
  function PartialSolvers(ps: seq<MergePart>): (pss: seq<PartialSolver>)
    ensures |pss| == |ps| && forall i :: 0 <= i < |ps| ==> pss[i] == PartialSolver(ps[i].mask, ConfigOf(ps[i].solver))
  {
    seq(|ps|, i requires 0 <= i < |ps| => PartialSolver(ps[i].mask, ConfigOf(ps[i].solver)))
  }

  /** The masks of the parts: the masks of the configurations they stand for. */
  function PartMasks(ps: seq<MergePart>): (ms: seq<IpAddr>)
    ensures |ms| == |ps| && forall i :: 0 <= i < |ps| ==> ms[i] == ps[i].mask
  {
    Masks(PartialSolvers(ps))
  }

  /** The configurations a merge was built from, in order. */
  function Configs(ps: seq<MergePart>): (cs: seq<PartialSolverKind>)
    ensures |cs| == |ps| && forall i :: 0 <= i < |ps| ==> cs[i] == ConfigOf(ps[i].solver)
  {
    seq(|ps|, i requires 0 <= i < |ps| => ConfigOf(ps[i].solver))
  }

  /**
   * `Merge::new`: accepted exactly when the masks add up to a full address; then one
   * partial solver per configuration, in order, each with its mask.
   */
  function New(pss: seq<PartialSolver>): (r: Result<Merge, SourceError>)
    ensures r.Ok? <==> MergeMasks.ValidMaskSum(MergeMasks.MaskSum(Masks(pss)))
    ensures r.Err? ==> r.error == MaskSumInvalid(MergeMasks.MaskSum(Masks(pss)))
    ensures r.Ok? ==>
              |r.value.solvers| == |pss| &&
              forall i :: 0 <= i < |pss| ==>
                r.value.solvers[i].mask == pss[i].mask && ConfigOf(r.value.solvers[i].solver) == pss[i].solver &&
                (pss[i].solver.PartialIpAPI? ==> r.value.solvers[i].solver.cache.None?)
  {
    var sum := MergeMasks.MaskSum(Masks(pss));
    if !MergeMasks.ValidMaskSum(sum) then Err(MaskSumInvalid(sum))
    else Ok(Merge.Merge(seq(|pss|, i requires 0 <= i < |pss| => MergePart(pss[i].mask, SubSolverFrom(pss[i].solver)))))
  }

  /** What a query of the older tree sees: the time, the service, parsers, resolver and HTTP exchange. */
  datatype LegacyEnv = LegacyEnv(
    now: nat,
    svc: Kube.Service,
    parse: Parsers,
    dnsV4: string -> Result<seq<U32>, string>,
    dnsV6: string -> Result<seq<U128>, string>,
    http: (IpSolverProvider, AddressKind, nat) -> Http.HttpReply)

  datatype SubAnswer = SubAnswer(result: Result<seq<IpAddr>, SourceError>, solver: SubSolver)

  /** `get_addresses` of one partial solver; only an IP-API solver changes, as its step says. */
  function SubQuery(s: SubSolver, kind: AddressKind, env: LegacyEnv): (a: SubAnswer)
    ensures ConfigOf(a.solver) == ConfigOf(s)
    ensures !s.IpSolverPart? ==> a.solver == s
    ensures s.StaticPart? ==> a.result == Ok(OfFamily(s.solver.addresses, kind))
  {
    match s
    case IpSolverPart(p, cache, calls) =>
      var fetched := LegacyIpApiSolver.ProviderRespond(env.http(p, kind, calls));
      var st := LegacyIpApiSolver.Step(LegacyIpApiSolver.PRODUCTION, cache, env.now, fetched);
      SubAnswer(st.result, IpSolverPart(p, st.cache, calls + (if st.called then 1 else 0)))
    case DnsPart(h) =>
      var looked := match kind
        case IPv4 => (match env.dnsV4(h)
                      case Ok(bs) => Ok(seq(|bs|, i requires 0 <= i < |bs| => V4(bs[i])))
                      case Err(msg) => Err(Dns(msg)))
        case IPv6 => (match env.dnsV6(h)
                      case Ok(bs) => Ok(seq(|bs|, i requires 0 <= i < |bs| => V6(bs[i])))
                      case Err(msg) => Err(Dns(msg)));
      SubAnswer(looked, s)
    case LoadBalancerIngressPart =>
      SubAnswer(match LbIngress.GetAddresses(env.svc, kind, env.parse)
                case Ok(v) => Ok(v) case Err(f) => Err(MissingField(f)), s)
    case StaticPart(st) => SubAnswer(st.GetAddresses(kind), s)
  }

  datatype Sweep = Sweep(result: Result<seq<IpAddr>, SourceError>, solvers: seq<MergePart>)

  /**
   * The loop over the partial solvers from index `i` on, with `lasts` the last addresses so
   * far; the first error or empty answer ends it. The partial solvers come back updated.
   */
  function Collect(ps: seq<MergePart>, i: nat, kind: AddressKind, env: LegacyEnv, lasts: seq<IpAddr>): (w: Sweep)
    requires i <= |ps|
    ensures |w.solvers| == |ps| && PartMasks(w.solvers) == PartMasks(ps) && Configs(w.solvers) == Configs(ps)
    ensures w.result.Ok? ==> |w.result.value| == |lasts| + |ps| - i
    ensures w.result != Err(Panicked)
    decreases |ps| - i
  {
    if i == |ps| then Sweep(Ok(lasts), ps)
    else
      var a := SubQuery(ps[i].solver, kind, env);
      var ps' := ps[i := MergePart(ps[i].mask, a.solver)];
      assert PartMasks(ps') == PartMasks(ps) && Configs(ps') == Configs(ps);
      match a.result
      case Err(e) => Sweep(Err(e), ps')
      case Ok(addrs) =>
        if addrs == [] then Sweep(Err(NoPartialAddresses), ps')
        else Collect(ps', i + 1, kind, env, lasts + [addrs[|addrs| - 1]])
  }

  /** `Merge::get_addresses`, with the merge as updated by the query. */
  function Query(m: Merge, kind: AddressKind, env: LegacyEnv): (q: Sweep)
    ensures |q.solvers| == |m.solvers| && PartMasks(q.solvers) == PartMasks(m.solvers) && Configs(q.solvers) == Configs(m.solvers)
    ensures MergeMasks.FirstMismatch(PartMasks(m.solvers), kind).Some? ==>
              q == Sweep(Err(MaskMismatch(kind, MergeMasks.FirstMismatch(PartMasks(m.solvers), kind).value)), m.solvers)
    ensures q.result.Ok? ==> |q.result.value| == 1 && KindOf(q.result.value[0]) == kind
  {
    var masks := PartMasks(m.solvers);
    match MergeMasks.FirstMismatch(masks, kind)
    case Some(bad) => Sweep(Err(MaskMismatch(kind, bad)), m.solvers)
    case None =>
      var w := Collect(m.solvers, 0, kind, env, []);
      match w.result
      case Err(e) => w
      case Ok(lasts) =>
        Sweep(MergeMasks.Assemble(kind, MergeMasks.PartsSum(lasts, masks), Panicked), w.solvers)
  }

  /** On success the one address is the sum of the masked last addresses, at most the mask sum. */
  lemma QuerySuccessValue(m: Merge, kind: AddressKind, env: LegacyEnv)
    requires Query(m, kind, env).result.Ok?
    ensures MergeMasks.FirstMismatch(PartMasks(m.solvers), kind).None?
    ensures var lasts := Collect(m.solvers, 0, kind, env, []).result;
      lasts.Ok? && |lasts.value| == |m.solvers| &&
      ToU128(Query(m, kind, env).result.value[0]) == MergeMasks.PartsSum(lasts.value, PartMasks(m.solvers)) &&
      ToU128(Query(m, kind, env).result.value[0]) <= MergeMasks.MaskSum(PartMasks(m.solvers))
  {
    var lasts := Collect(m.solvers, 0, kind, env, []).result;
    MergeMasks.PartsSumBound(lasts.value, PartMasks(m.solvers));
  }

  lemma NewKeepsMasks(pss: seq<PartialSolver>)
    requires New(pss).Ok?
    ensures PartMasks(New(pss).value.solvers) == Masks(pss)
  {
  }

  /** A merge that construction accepted, with fewer than 2^96 parts, never reaches the panic. */
  lemma AcceptedMergeNeverPanics(pss: seq<PartialSolver>, kind: AddressKind, env: LegacyEnv)
    requires New(pss).Ok? && |pss| < 0x1_0000_0000_0000_0000_0000_0000
    ensures Query(New(pss).value, kind, env).result != Err(Panicked)
  {
    var m := New(pss).value;
    NewKeepsMasks(pss);
    var masks := PartMasks(m.solvers);
    if MergeMasks.FirstMismatch(masks, kind).None? {
      var w := Collect(m.solvers, 0, kind, env, []);
      if w.result.Ok? {
        MergeMasks.MergedValueFits(w.result.value, masks, kind);
      }
    }
  }

  /** A partial solver answering with no address fails the merge at that point. */
  lemma EmptyPartialFails(ps: seq<MergePart>, i: nat, kind: AddressKind, env: LegacyEnv, lasts: seq<IpAddr>)
    requires i < |ps| && SubQuery(ps[i].solver, kind, env).result == Ok([])
    ensures Collect(ps, i, kind, env, lasts).result == Err(NoPartialAddresses)
  {
  }

  lemma CollectUnfold(ps: seq<MergePart>, i: nat, kind: AddressKind, env: LegacyEnv, lasts: seq<IpAddr>)
    requires i < |ps|
    ensures var a := SubQuery(ps[i].solver, kind, env);
      var ps' := ps[i := MergePart(ps[i].mask, a.solver)];
      Collect(ps, i, kind, env, lasts) ==
        if a.result.Err? then Sweep(Err(a.result.error), ps')
        else if a.result.value == [] then Sweep(Err(NoPartialAddresses), ps')
        else Collect(ps', i + 1, kind, env, lasts + [a.result.value[|a.result.value| - 1]])
  {
  }

  lemma QueryAfterCollect(m: Merge, kind: AddressKind, env: LegacyEnv)
    requires MergeMasks.FirstMismatch(PartMasks(m.solvers), kind).None?
    ensures var w := Collect(m.solvers, 0, kind, env, []);
      Query(m, kind, env) ==
        if w.result.Err? then w
        else
          Sweep(MergeMasks.Assemble(kind, MergeMasks.PartsSum(w.result.value, PartMasks(m.solvers)), Panicked), w.solvers)
  {
  }

  /**
   * One turn of the loop: ask partial solver `i`, store its new state, and keep the last
   * address it returned; an error or an empty answer is the loop's early return. The
   * ensures say how the turn advances the loop of `Collect` with the last addresses `lasts`.
   */
  method Turn(ps: seq<MergePart>, i: nat, kind: AddressKind, env: LegacyEnv, ghost lasts: seq<IpAddr>)
    returns (r: Result<IpAddr, SourceError>, ps': seq<MergePart>)
    requires i < |ps|
    ensures |ps'| == |ps| && PartMasks(ps') == PartMasks(ps)
    ensures r.Err? ==> Collect(ps, i, kind, env, lasts) == Sweep(Err(r.error), ps')
    ensures r.Ok? ==> Collect(ps, i, kind, env, lasts) == Collect(ps', i + 1, kind, env, lasts + [r.value])
  {
    CollectUnfold(ps, i, kind, env, lasts);
    var answer := SubQuery(ps[i].solver, kind, env);
    ps' := ps[i := MergePart(ps[i].mask, answer.solver)];
    assert PartMasks(ps') == PartMasks(ps);
    if answer.result.Err? {
      return Err(answer.result.error), ps';
    }
    var returned := answer.result.value;
    if returned == [] {
      return Err(NoPartialAddresses), ps';
    }
    r := Ok(returned[|returned| - 1]);
  }

  /**
   * The loop of `Merge::get_addresses`: every partial solver in turn, collecting the masked
   * last address of each into `parts`; `lasts` are those last addresses.
   */
  method Gather(ps: seq<MergePart>, masks: seq<IpAddr>, kind: AddressKind, env: LegacyEnv)
    returns (r: Result<seq<IpAddr>, SourceError>, parts: seq<nat>, ps': seq<MergePart>)
    requires PartMasks(ps) == masks
    ensures Sweep(r, ps') == Collect(ps, 0, kind, env, [])
    ensures r.Ok? ==> |r.value| == |masks| && parts == MergeMasks.Parts(r.value, masks)
  {
    ghost var whole := Collect(ps, 0, kind, env, []);
    ps' := ps;
    var lasts: seq<IpAddr> := [];
    parts := [];
    var i := 0;
    while i < |ps'|
      invariant 0 <= i <= |ps'| && |lasts| == i
      invariant PartMasks(ps') == masks
      invariant parts == MergeMasks.Parts(lasts, masks[..i])
      invariant whole == Collect(ps', i, kind, env, lasts)
    {
      var last;
      last, ps' := Turn(ps', i, kind, env, lasts);
      if last.Err? {
        return Err(last.error), parts, ps';
      }
      MergeMasks.PartsPush(lasts, masks, last.value);
      lasts := lasts + [last.value];
      parts := parts + [MergeMasks.Part(last.value, masks[i])];
      i := i + 1;
    }
    assert masks[..i] == masks;
    r := Ok(lasts);
  }

  /** `Merge::get_addresses` as the source runs it, returning the updated merge. */
  method GetAddresses(m: Merge, kind: AddressKind, env: LegacyEnv) returns (r: Result<seq<IpAddr>, SourceError>, m': Merge)
    ensures Sweep(r, m'.solvers) == Query(m, kind, env)
  {
    var masks := PartMasks(m.solvers);
    var mismatch := MergeMasks.FirstMismatch(masks, kind);
    if mismatch.Some? {
      return Err(MaskMismatch(kind, mismatch.value)), m;
    }
    QueryAfterCollect(m, kind, env);
    var lasts, parts, solvers := Gather(m.solvers, masks, kind, env);
    m' := Merge.Merge(solvers);
    if lasts.Err? {
      return Err(lasts.error), m';
    }
    r := MergeMasks.Convert(kind, Bits.Sum(parts), Panicked);
  }
}
