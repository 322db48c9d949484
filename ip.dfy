/**
 * IP addresses as the core sees them: a family tag plus an unsigned integer of the
 * family's width (`Ipv4Addr::to_bits` is a u32, `Ipv6Addr::to_bits` a u128).
 */
module Ip {
  import opened Wrappers

  const U32_MAX: nat := 0xFFFF_FFFF
  const U128_MAX: nat := 0xFFFF_FFFF_FFFF_FFFF_FFFF_FFFF_FFFF_FFFF

  type U32 = x: nat | x <= 0xFFFF_FFFF
  type U128 = x: nat | x <= 0xFFFF_FFFF_FFFF_FFFF_FFFF_FFFF_FFFF_FFFF

  /** The address family every query is made for. */
  datatype AddressKind = IPv4 | IPv6

  datatype IpAddr = V4(bits4: U32) | V6(bits6: U128)

  function KindOf(a: IpAddr): AddressKind {
    if a.V4? then IPv4 else IPv6
  }

  /** The all-ones value of a family's width. */
  function MaxOf(kind: AddressKind): nat {
    if kind == IPv4 then U32_MAX else U128_MAX
  }

  /** `ip_to_u128`: an IPv4 address widened from 32 bits, an IPv6 address as its 128 bits. */
  function ToU128(a: IpAddr): (n: U128)
    ensures n <= MaxOf(KindOf(a))
  {
    match a
    case V4(b) => b
    case V6(b) => b
  }

  /** `Ipv4Addr::from_bits` / `Ipv6Addr::from_bits`. */
  function FromBits(kind: AddressKind, n: nat): (a: IpAddr)
    requires n <= MaxOf(kind)
    ensures KindOf(a) == kind && ToU128(a) == n
  {
    if kind == IPv4 then V4(n) else V6(n)
  }

  /** Within one family, `ip_to_u128` loses nothing: it is inverted by `FromBits`. */
  lemma ToU128RoundTrip(a: IpAddr)
    ensures FromBits(KindOf(a), ToU128(a)) == a
  {
  }

  /** Hence `ip_to_u128` is injective within a family. */
  lemma ToU128Injective(a: IpAddr, b: IpAddr)
    requires KindOf(a) == KindOf(b) && ToU128(a) == ToU128(b)
    ensures a == b
  {
    ToU128RoundTrip(a);
    ToU128RoundTrip(b);
  }

  /**
   * The addresses of `addrs` that belong to family `kind`, in their original order
   * (the `filter_map` of both trees' static solvers).
   */
  function OfFamily(addrs: seq<IpAddr>, kind: AddressKind): (r: seq<IpAddr>)
    ensures forall a :: a in r <==> a in addrs && KindOf(a) == kind
    ensures |r| <= |addrs|
  {
    if addrs == [] then []
    else (if KindOf(addrs[0]) == kind then [addrs[0]] else []) + OfFamily(addrs[1..], kind)
  }

  /** Filtering commutes with concatenation, so the relative order of kept addresses is the input's. */
  lemma {:induction false} OfFamilyAppend(a: seq<IpAddr>, b: seq<IpAddr>, kind: AddressKind)
    ensures OfFamily(a + b, kind) == OfFamily(a, kind) + OfFamily(b, kind)
  {
    if a == [] {
      assert a + b == b;
    } else {
      assert (a + b)[1..] == a[1..] + b;
      OfFamilyAppend(a[1..], b, kind);
    }
  }

  /** The IPv4 and the IPv6 filter split a list into two parts that together are the whole (as a multiset). */
  lemma {:induction false} OfFamilyPartition(addrs: seq<IpAddr>)
    ensures multiset(OfFamily(addrs, IPv4)) + multiset(OfFamily(addrs, IPv6)) == multiset(addrs)
    ensures |OfFamily(addrs, IPv4)| + |OfFamily(addrs, IPv6)| == |addrs|
  {
    if addrs != [] {
      OfFamilyPartition(addrs[1..]);
      assert addrs == [addrs[0]] + addrs[1..];
    }
  }

  /** A list that already holds only addresses of `kind` passes the filter unchanged. */
  lemma {:induction false} OfFamilyKeepsPure(addrs: seq<IpAddr>, kind: AddressKind)
    requires forall i :: 0 <= i < |addrs| ==> KindOf(addrs[i]) == kind
    ensures OfFamily(addrs, kind) == addrs
  {
    if addrs != [] {
      OfFamilyKeepsPure(addrs[1..], kind);
    }
  }

  /** Filtering twice is filtering once. */
  lemma OfFamilyIdempotent(addrs: seq<IpAddr>, kind: AddressKind)
    ensures OfFamily(OfFamily(addrs, kind), kind) == OfFamily(addrs, kind)
  {
    var r := OfFamily(addrs, kind);
    assert forall i :: 0 <= i < |r| ==> KindOf(r[i]) == kind by {
      forall i | 0 <= i < |r| ensures KindOf(r[i]) == kind {
        assert r[i] in r;
      }
    }
    OfFamilyKeepsPure(r, kind);
  }

  /**
   * The textual IP parsers (`str::parse::<Ipv4Addr>` and `str::parse::<Ipv6Addr>`),
   * taken as given: each says which strings denote an address of its family.
   */
  datatype Parsers = Parsers(v4: string -> Option<U32>, v6: string -> Option<U128>)

  /** Parse `s` as an address of family `kind`. */
  function ParseAs(parse: Parsers, kind: AddressKind, s: string): (r: Option<IpAddr>)
    ensures r.Some? ==> KindOf(r.value) == kind
  {
    match kind
    case IPv4 => (match parse.v4(s) case Some(b) => Some(V4(b)) case None => None)
    case IPv6 => (match parse.v6(s) case Some(b) => Some(V6(b)) case None => None)
  }
}
