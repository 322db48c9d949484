/**
 * The `Static` solver, whose `get_addresses` is the same in both trees: the configured
 * addresses of the requested family, in configuration order, never an error.
 */
module StaticSolver {
  import opened Wrappers
  import opened Ip

  datatype Static = Static(addresses: seq<IpAddr>) {

    function GetAddresses<E>(kind: AddressKind): (r: Result<seq<IpAddr>, E>)
      ensures r.Ok?
      ensures forall a :: a in r.value <==> a in addresses && KindOf(a) == kind
    {
      Ok(OfFamily(addresses, kind))
    }
  }

  /** The IPv4 answer and the IPv6 answer together are the configured list, split by family. */
  lemma GetAddressesPartition<E>(s: Static)
    ensures multiset(s.GetAddresses<E>(IPv4).value) + multiset(s.GetAddresses<E>(IPv6).value) == multiset(s.addresses)
  {
    OfFamilyPartition(s.addresses);
  }

  /** Configured order is kept: the answer for a concatenated list is the concatenation of the answers. */
  lemma GetAddressesKeepsOrder<E>(a: seq<IpAddr>, b: seq<IpAddr>, kind: AddressKind)
    ensures Static(a + b).GetAddresses<E>(kind).value ==
            Static(a).GetAddresses<E>(kind).value + Static(b).GetAddresses<E>(kind).value
  {
    OfFamilyAppend(a, b, kind);
  }

  /** A list of one family answers with all of itself for that family and nothing for the other. */
  lemma {:induction false} GetAddressesSingleFamily<E>(s: Static, kind: AddressKind, other: AddressKind)
    requires forall i :: 0 <= i < |s.addresses| ==> KindOf(s.addresses[i]) == kind
    requires other != kind
    ensures s.GetAddresses<E>(kind).value == s.addresses
    ensures s.GetAddresses<E>(other).value == []
  {
    OfFamilyKeepsPure(s.addresses, kind);
    OfFamilyPartition(s.addresses);
    if other == IPv4 {
      assert kind == IPv6;
    }
  }
}
