/**
 * The arithmetic both trees' merge solvers share: the widened mask sum that
 * construction checks, the family check of a query, and the sum of the masked parts
 * that becomes the merged address.
 */
module MergeMasks {
  import opened Wrappers
  import opened Ip
  import opened Bits

  /** The masks widened by `ip_to_u128` and added up, over unbounded naturals. */
  function MaskSum(masks: seq<IpAddr>): nat {
    if masks == [] then 0 else ToU128(masks[0]) + MaskSum(masks[1..])
  }

  /** Construction accepts exactly the sums of a full IPv4 or a full IPv6 address. */
  predicate ValidMaskSum(sum: nat) {
    sum == U32_MAX || sum == U128_MAX
  }

  /** The first mask of the wrong family, if any (the `find` of the family check). */
  function FirstMismatch(masks: seq<IpAddr>, kind: AddressKind): (r: Option<IpAddr>)
    ensures r.None? <==> forall i :: 0 <= i < |masks| ==> KindOf(masks[i]) == kind
    ensures r.Some? ==> exists i :: 0 <= i < |masks| && masks[i] == r.value && KindOf(r.value) != kind &&
                                    forall j :: 0 <= j < i ==> KindOf(masks[j]) == kind
  {
    if masks == [] then None
    else if KindOf(masks[0]) != kind then Some(masks[0])
    else
      var rest := FirstMismatch(masks[1..], kind);
      assert rest.Some? ==> exists i :: 0 <= i < |masks[1..]| && masks[1..][i] == rest.value && KindOf(rest.value) != kind &&
                                        forall j :: 0 <= j < i ==> KindOf(masks[1..][j]) == kind;
      if rest.Some? then
        assert exists i :: 0 <= i < |masks| && masks[i] == rest.value && KindOf(rest.value) != kind &&
                           forall j :: 0 <= j < i ==> KindOf(masks[j]) == kind by {
          var i :| 0 <= i < |masks[1..]| && masks[1..][i] == rest.value && KindOf(rest.value) != kind &&
                   forall j :: 0 <= j < i ==> KindOf(masks[1..][j]) == kind;
          assert masks[i + 1] == rest.value;
          forall j | 0 <= j < i + 1 ensures KindOf(masks[j]) == kind {
            if j > 0 {
              assert masks[j] == masks[1..][j - 1];
            }
          }
        }
        rest
      else
        assert forall i :: 0 <= i < |masks| ==> KindOf(masks[i]) == kind by {
          forall i | 0 <= i < |masks| ensures KindOf(masks[i]) == kind {
            if i > 0 {
              assert masks[i] == masks[1..][i - 1];
            }
          }
        }
        None
  }

  /** `ip_to_u128(addr) & ip_to_u128(mask)`. */
  function Part(last: IpAddr, mask: IpAddr): nat {
    And(ToU128(last), ToU128(mask))
  }

  /** The parts of a merge, one per partial solver, from the last address each returned. */
  function Parts(lasts: seq<IpAddr>, masks: seq<IpAddr>): (ps: seq<nat>)
    requires |lasts| == |masks|
    ensures |ps| == |lasts|
    ensures forall i :: 0 <= i < |ps| ==> ps[i] == Part(lasts[i], masks[i])
  {
    if lasts == [] then [] else [Part(lasts[0], masks[0])] + Parts(lasts[1..], masks[1..])
  }

  /** The merged address value before conversion: the sum of the parts. */
  function PartsSum(lasts: seq<IpAddr>, masks: seq<IpAddr>): nat
    requires |lasts| == |masks|
  {
    Sum(Parts(lasts, masks))
  }

  /** One more part, from the next mask of `masks`, extends the parts pushed so far. */
  lemma PartsPush(lasts: seq<IpAddr>, masks: seq<IpAddr>, last: IpAddr)
    requires |lasts| < |masks|
    ensures Parts(lasts + [last], masks[..|lasts| + 1]) == Parts(lasts, masks[..|lasts|]) + [Part(last, masks[|lasts|])]
  {
    var n := |lasts|;
    var a := Parts(lasts + [last], masks[..n + 1]);
    var b := Parts(lasts, masks[..n]) + [Part(last, masks[n])];
    assert |a| == |b|;
    forall j | 0 <= j < |a| ensures a[j] == b[j] {
      if j < n {
        assert (lasts + [last])[j] == lasts[j];
      } else {
        assert (lasts + [last])[j] == last;
      }
    }
  }

  /** Masking can only clear bits, so the parts add up to no more than the masks do. */
  lemma {:induction false} PartsSumBound(lasts: seq<IpAddr>, masks: seq<IpAddr>)
    requires |lasts| == |masks|
    ensures PartsSum(lasts, masks) <= MaskSum(masks)
  {
    if lasts != [] {
      PartsSumBound(lasts[1..], masks[1..]);
      AndBound(ToU128(lasts[0]), ToU128(masks[0]));
      assert Parts(lasts, masks)[1..] == Parts(lasts[1..], masks[1..]);
    }
  }

  /** IPv4 masks each contribute at most `u32::MAX`. */
  lemma {:induction false} IPv4MaskSumBound(masks: seq<IpAddr>)
    requires forall i :: 0 <= i < |masks| ==> KindOf(masks[i]) == IPv4
    ensures MaskSum(masks) <= |masks| * U32_MAX
  {
    if masks != [] {
      assert forall i :: 0 <= i < |masks[1..]| ==> KindOf(masks[1..][i]) == IPv4 by {
        forall i | 0 <= i < |masks[1..]| ensures KindOf(masks[1..][i]) == IPv4 {
          assert masks[1..][i] == masks[i + 1];
        }
      }
      IPv4MaskSumBound(masks[1..]);
      assert KindOf(masks[0]) == IPv4;
    }
  }

  /**
   * Accepted IPv4-only masks add up to exactly `u32::MAX` (reaching `2^128 - 1` would take
   * 2^96 of them).
   */
  lemma ValidIPv4MasksSumToU32Max(masks: seq<IpAddr>)
    requires forall i :: 0 <= i < |masks| ==> KindOf(masks[i]) == IPv4
    requires ValidMaskSum(MaskSum(masks)) && |masks| < 0x1_0000_0000_0000_0000_0000_0000
    ensures MaskSum(masks) == U32_MAX
  {
    IPv4MaskSumBound(masks);
    assert |masks| * U32_MAX < U128_MAX;
  }

  /**
   * The conversion of the merged value to an address of `kind` cannot overflow when the masks
   * were accepted, all have the query's family, and are fewer than 2^96.
   */
  lemma MergedValueFits(lasts: seq<IpAddr>, masks: seq<IpAddr>, kind: AddressKind)
    requires |lasts| == |masks| && |masks| < 0x1_0000_0000_0000_0000_0000_0000
    requires ValidMaskSum(MaskSum(masks)) && FirstMismatch(masks, kind).None?
    ensures PartsSum(lasts, masks) <= MaxOf(kind)
  {
    PartsSumBound(lasts, masks);
    if kind == IPv4 {
      ValidIPv4MasksSumToU32Max(masks);
    }
  }

  predicate DisjointMasks(masks: seq<IpAddr>) {
    forall i, j :: 0 <= i < j < |masks| ==> And(ToU128(masks[i]), ToU128(masks[j])) == 0
  }

  /** With pairwise-disjoint masks no two parts share a bit, so adding them is OR-ing them. */
  lemma DisjointMergeIsOr(lasts: seq<IpAddr>, masks: seq<IpAddr>)
    requires |lasts| == |masks| && DisjointMasks(masks)
    ensures PartsSum(lasts, masks) == OrAll(Parts(lasts, masks))
  {
    var ps := Parts(lasts, masks);
    assert PairwiseDisjoint(ps) by {
      forall i, j | 0 <= i < j < |ps| ensures And(ps[i], ps[j]) == 0 {
        MaskedDisjoint(ToU128(lasts[i]), ToU128(lasts[j]), ToU128(masks[i]), ToU128(masks[j]));
      }
    }
    DisjointSumIsOrAll(ps);
  }

  /** The IPv4 netmask of a prefix leaving `hostBits` host bits, and its complement. */
  function PrefixMask4(hostBits: nat): U32
    requires hostBits <= 32
  {
    Pow2Monotone(hostBits, 32);
    Pow2Of32();
    Pow2(32) - Pow2(hostBits)
  }

  function HostMask4(hostBits: nat): U32
    requires hostBits <= 32
  {
    Pow2Monotone(hostBits, 32);
    Pow2Of32();
    Pow2(hostBits) - 1
  }

  lemma {:induction false} Pow2Add(a: nat, b: nat)
    ensures Pow2(a + b) == Pow2(a) * Pow2(b)
  {
    if a > 0 {
      Pow2Add(a - 1, b);
    }
  }

  lemma Pow2Of32()
    ensures Pow2(8) == 256 && Pow2(32) == 0x1_0000_0000
  {
    assert Pow2(4) == 16;
    Pow2Add(4, 4);
    Pow2Add(8, 8);
    Pow2Add(16, 16);
  }

  lemma MaskSumOfTwo(a: IpAddr, b: IpAddr)
    ensures MaskSum([a, b]) == ToU128(a) + ToU128(b)
  {
    assert [a, b][1..] == [b];
    assert [b][1..] == [];
    assert MaskSum([b]) == ToU128(b) + MaskSum([]);
    assert MaskSum([a, b]) == ToU128(a) + MaskSum([b]);
  }

  lemma PartsSumOfTwo(l0: IpAddr, l1: IpAddr, m0: IpAddr, m1: IpAddr)
    ensures PartsSum([l0, l1], [m0, m1]) == Part(l0, m0) + Part(l1, m1)
  {
    var ps := Parts([l0, l1], [m0, m1]);
    assert ps == [Part(l0, m0), Part(l1, m1)];
    assert ps[1..] == [Part(l1, m1)];
    assert ps[1..][1..] == [];
    assert Sum(ps[1..]) == Part(l1, m1) + Sum([]);
    assert Sum(ps) == Part(l0, m0) + Sum(ps[1..]);
  }

  /** A prefix netmask and its host mask are accepted together: they add up to `u32::MAX`. */
  lemma PrefixAndHostMaskSum(hostBits: nat)
    requires hostBits <= 32
    ensures MaskSum([V4(PrefixMask4(hostBits)), V4(HostMask4(hostBits))]) == U32_MAX
  {
    Pow2Of32();
    MaskSumOfTwo(V4(PrefixMask4(hostBits)), V4(HostMask4(hostBits)));
  }

  /**
   * Merging a network part and a host part: with a prefix netmask and its host mask, the
   * merge takes the network bits of the first address and the host bits of the second.
   */
  lemma PrefixAndHostMerge(net: U32, host: U32, hostBits: nat)
    requires hostBits <= 32
    ensures PartsSum([V4(net), V4(host)], [V4(PrefixMask4(hostBits)), V4(HostMask4(hostBits))]) ==
              (net - net % Pow2(hostBits)) + host % Pow2(hostBits)
  {
    PartsSumOfTwo(V4(net), V4(host), V4(PrefixMask4(hostBits)), V4(HostMask4(hostBits)));
    NetworkPart(net, hostBits);
    HostPart(host, hostBits);
  }

  lemma NetworkPart(net: U32, hostBits: nat)
    requires hostBits <= 32
    ensures Part(V4(net), V4(PrefixMask4(hostBits))) == net - net % Pow2(hostBits)
  {
    Pow2Of32();
    var pm := PrefixMask4(hostBits);
    assert pm == Pow2(32) - Pow2(hostBits);
    assert Part(V4(net), V4(pm)) == And(net, pm);
    assert net < Pow2(32);
    AndHighMask(net, 32, hostBits);
  }

  lemma HostPart(host: U32, hostBits: nat)
    requires hostBits <= 32
    ensures Part(V4(host), V4(HostMask4(hostBits))) == host % Pow2(hostBits)
  {
    AndLowMask(host, hostBits);
  }

  /** 255.255.255.0 over 10.0.0.1 and 0.0.0.255 over 203.0.113.77 merge to 10.0.0.77. */
  lemma ExampleMerge()
    ensures PrefixMask4(8) == 0xFFFF_FF00 && HostMask4(8) == 0xFF
    ensures MaskSum([V4(0xFFFF_FF00), V4(0x0000_00FF)]) == U32_MAX
    ensures PartsSum([V4(0x0A00_0001), V4(0xCB00_714D)], [V4(0xFFFF_FF00), V4(0x0000_00FF)]) == 0x0A00_004D
  {
    Pow2Of32();
    PrefixAndHostMaskSum(8);
    PrefixAndHostMerge(0x0A00_0001, 0xCB00_714D, 8);
  }

  /**
   * The summed parts as an address of `kind`, or `panicked`, each tree's own error value, for
   * a total too wide for the family. For IPv4 that is the panic of `u32::try_from(..).expect`;
   * for IPv6 it stands for an overflow of the `u128` sum of the parts, which a debug build
   * reports as a panic (a release build wraps instead). An accepted merge reaches neither.
   */
  function Assemble<E>(kind: AddressKind, total: nat, panicked: E): (r: Result<seq<IpAddr>, E>)
    ensures r.Ok? <==> total <= MaxOf(kind)
    ensures r.Ok? ==> |r.value| == 1 && KindOf(r.value[0]) == kind && ToU128(r.value[0]) == total
    ensures r.Err? ==> r.error == panicked
  {
    if total <= MaxOf(kind) then Ok([FromBits(kind, total)]) else Err(panicked)
  }

  /** The conversion of the summed parts into an address of the queried family. */
  method Convert<E>(kind: AddressKind, address: nat, panicked: E) returns (r: Result<seq<IpAddr>, E>)
    ensures r == Assemble(kind, address, panicked)
  {
    if kind == IPv4 {
      if address > U32_MAX {
        return Err(panicked);
      }
      r := Ok([V4(address)]);
    } else {
      if address > U128_MAX {
        return Err(panicked);
      }
      r := Ok([V6(address)]);
    }
  }
}
