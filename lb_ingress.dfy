/**
 * The `LoadBalancerIngress` solver, whose `get_addresses` is the same in both trees:
 * the addresses in `status.loadBalancer.ingress[*].ip` that parse as the requested family.
 */
module LbIngress {
  import opened Wrappers
  import opened Ip
  import opened Kube

  /** Which part of the status path was absent. */
  datatype MissingField = NoStatus | NoLoadBalancer | NoIngress

  /** The ingress entry's address, if it has one and it parses as `kind`. */
  function EntryAddress(parse: Parsers, kind: AddressKind, e: LoadBalancerIngress): Option<IpAddr> {
    if e.ip.Some? then ParseAs(parse, kind, e.ip.value) else None
  }

  /** The `filter_map` over the ingress list. */
  function IngressAddresses(parse: Parsers, kind: AddressKind, ingress: seq<LoadBalancerIngress>): (r: seq<IpAddr>)
    ensures |r| <= |ingress|
    ensures forall i :: 0 <= i < |r| ==> KindOf(r[i]) == kind
  {
    if ingress == [] then []
    else
      (match EntryAddress(parse, kind, ingress[0]) case Some(a) => [a] case None => [])
      + IngressAddresses(parse, kind, ingress[1..])
  }

  function GetAddresses(svc: Service, kind: AddressKind, parse: Parsers): (r: Result<seq<IpAddr>, MissingField>)
    ensures r == Err(NoStatus) <==> svc.status.None?
    ensures r == Err(NoLoadBalancer) <==> svc.status.Some? && svc.status.value.loadBalancer.None?
    ensures r == Err(NoIngress) <==>
              svc.status.Some? && svc.status.value.loadBalancer.Some? && svc.status.value.loadBalancer.value.ingress.None?
    ensures r.Ok? ==> forall i :: 0 <= i < |r.value| ==> KindOf(r.value[i]) == kind
  {
    match svc.status
    case None => Err(NoStatus)
    case Some(status) =>
      match status.loadBalancer
      case None => Err(NoLoadBalancer)
      case Some(lb) =>
        match lb.ingress
        case None => Err(NoIngress)
        case Some(ingress) => Ok(IngressAddresses(parse, kind, ingress))
  }

  /** Ingress order is kept: the filter distributes over concatenation. */
  lemma {:induction false} IngressAddressesAppend(parse: Parsers, kind: AddressKind, a: seq<LoadBalancerIngress>, b: seq<LoadBalancerIngress>)
    ensures IngressAddresses(parse, kind, a + b) == IngressAddresses(parse, kind, a) + IngressAddresses(parse, kind, b)
  {
    if a == [] {
      assert a + b == b;
    } else {
      assert (a + b)[1..] == a[1..] + b;
      IngressAddressesAppend(parse, kind, a[1..], b);
    }
  }

  /** One entry yields its parsed address, or nothing when it has no `ip` or the string does not parse as `kind`. */
  lemma IngressAddressesSingle(parse: Parsers, kind: AddressKind, e: LoadBalancerIngress)
    ensures e.ip.None? ==> IngressAddresses(parse, kind, [e]) == []
    ensures e.ip.Some? ==>
      IngressAddresses(parse, kind, [e]) == (match ParseAs(parse, kind, e.ip.value) case Some(a) => [a] case None => [])
  {
    assert [e][1..] == [];
  }

  /** An address is returned exactly when some entry carries a string that parses to it. */
  lemma {:induction false} IngressAddressesMembers(parse: Parsers, kind: AddressKind, ingress: seq<LoadBalancerIngress>, a: IpAddr)
    ensures a in IngressAddresses(parse, kind, ingress) <==>
            exists i :: 0 <= i < |ingress| && EntryAddress(parse, kind, ingress[i]) == Some(a)
  {
    if ingress != [] {
      IngressAddressesMembers(parse, kind, ingress[1..], a);
      if exists i :: 0 <= i < |ingress[1..]| && EntryAddress(parse, kind, ingress[1..][i]) == Some(a) {
        var i :| 0 <= i < |ingress[1..]| && EntryAddress(parse, kind, ingress[1..][i]) == Some(a);
        assert ingress[i + 1] == ingress[1..][i];
      }
      if exists i :: 0 <= i < |ingress| && EntryAddress(parse, kind, ingress[i]) == Some(a) {
        var i :| 0 <= i < |ingress| && EntryAddress(parse, kind, ingress[i]) == Some(a);
        if i > 0 {
          assert ingress[1..][i - 1] == ingress[i];
        }
      }
    }
  }

  /** An empty ingress list is a successful empty answer. */
  lemma EmptyIngressIsEmptyAnswer(svc: Service, kind: AddressKind, parse: Parsers)
    requires svc.status.Some? && svc.status.value.loadBalancer.Some? && svc.status.value.loadBalancer.value.ingress == Some([])
    ensures GetAddresses(svc, kind, parse) == Ok([])
  {
  }
}
