/**
 * Bitwise AND and OR on unbounded naturals, defined bit by bit from the least
 * significant end. The merge solver computes `ip_to_u128(addr) & ip_to_u128(mask)`
 * and adds the parts; these definitions let the model say what that sum means.
 */
module Bits {

  function And(a: nat, b: nat): nat
    decreases a
  {
    if a == 0 || b == 0 then 0
    else 2 * And(a / 2, b / 2) + (if a % 2 == 1 && b % 2 == 1 then 1 else 0)
  }

  function Or(a: nat, b: nat): nat
    decreases a + b
  {
    if a == 0 then b
    else if b == 0 then a
    else 2 * Or(a / 2, b / 2) + (if a % 2 == 1 || b % 2 == 1 then 1 else 0)
  }

  /** Shifting both operands right shifts their conjunction; the low bit is the conjunction of low bits. */
  lemma AndHalves(a: nat, b: nat)
    ensures And(a, b) / 2 == And(a / 2, b / 2)
    ensures And(a, b) % 2 == (if a % 2 == 1 && b % 2 == 1 then 1 else 0)
  {
  }

  /** Masking never makes a number larger, on either side. */
  lemma {:induction false} AndBound(a: nat, b: nat)
    ensures And(a, b) <= a && And(a, b) <= b
    decreases a
  {
    if a != 0 && b != 0 {
      AndBound(a / 2, b / 2);
    }
  }

  lemma {:induction false} AndComm(a: nat, b: nat)
    ensures And(a, b) == And(b, a)
    decreases a
  {
    if a != 0 && b != 0 {
      AndComm(a / 2, b / 2);
    }
  }

  /** Two numbers share no set bit exactly when their halves share none and their low bits are not both set. */
  lemma AndZeroStep(a: nat, b: nat)
    ensures And(a, b) == 0 <==> And(a / 2, b / 2) == 0 && !(a % 2 == 1 && b % 2 == 1)
  {
    if a == 0 || b == 0 {
      assert a / 2 == 0 || b / 2 == 0;
    }
  }

  /** Adding numbers with no common set bit carries nothing: the sum is the bitwise OR. */
  lemma {:induction false} DisjointAddIsOr(a: nat, b: nat)
    requires And(a, b) == 0
    ensures a + b == Or(a, b)
    decreases a + b
  {
    if a != 0 && b != 0 {
      AndZeroStep(a, b);
      DisjointAddIsOr(a / 2, b / 2);
    }
  }

  /** A number disjoint from two others is disjoint from their OR. */
  lemma {:induction false} AndOrZero(p: nat, a: nat, b: nat)
    requires And(p, a) == 0 && And(p, b) == 0
    ensures And(p, Or(a, b)) == 0
    decreases a + b
  {
    if a != 0 && b != 0 && p != 0 {
      AndZeroStep(p, a);
      AndZeroStep(p, b);
      AndOrZero(p / 2, a / 2, b / 2);
      var o := Or(a, b);
      assert o / 2 == Or(a / 2, b / 2);
      assert o % 2 == (if a % 2 == 1 || b % 2 == 1 then 1 else 0);
      AndZeroStep(p, o);
    }
  }

  /** What survives two disjoint masks is disjoint, whatever the masked values. */
  lemma {:induction false} MaskedDisjoint(x: nat, y: nat, m1: nat, m2: nat)
    requires And(m1, m2) == 0
    ensures And(And(x, m1), And(y, m2)) == 0
    decreases m1
  {
    if x != 0 && y != 0 && m1 != 0 && m2 != 0 {
      AndZeroStep(m1, m2);
      MaskedDisjoint(x / 2, y / 2, m1 / 2, m2 / 2);
      AndHalves(x, m1);
      AndHalves(y, m2);
      AndZeroStep(And(x, m1), And(y, m2));
    }
  }

  function Sum(s: seq<nat>): nat {
    if s == [] then 0 else s[0] + Sum(s[1..])
  }

  function OrAll(s: seq<nat>): nat {
    if s == [] then 0 else Or(s[0], OrAll(s[1..]))
  }

  predicate PairwiseDisjoint(s: seq<nat>) {
    forall i, j :: 0 <= i < j < |s| ==> And(s[i], s[j]) == 0
  }

  /** The sum of pairwise-disjoint numbers is their bitwise OR. */
  lemma {:induction false} DisjointSumIsOrAll(s: seq<nat>)
    requires PairwiseDisjoint(s)
    ensures Sum(s) == OrAll(s)
  {
    if s != [] {
      var rest := s[1..];
      assert PairwiseDisjoint(rest) by {
        forall i, j | 0 <= i < j < |rest| ensures And(rest[i], rest[j]) == 0 {
          assert rest[i] == s[i + 1] && rest[j] == s[j + 1];
        }
      }
      DisjointSumIsOrAll(rest);
      HeadDisjointFromRest(s);
      DisjointAddIsOr(s[0], OrAll(rest));
    }
  }

  lemma {:induction false} HeadDisjointFromRest(s: seq<nat>)
    requires s != [] && PairwiseDisjoint(s)
    ensures And(s[0], OrAll(s[1..])) == 0
    decreases |s|
  {
    var rest := s[1..];
    if rest != [] {
      var s' := [s[0]] + rest[1..];
      assert PairwiseDisjoint(s') by {
        forall i, j | 0 <= i < j < |s'| ensures And(s'[i], s'[j]) == 0 {
          if i == 0 {
            assert s'[j] == s[j + 1];
          } else {
            assert s'[i] == s[i + 1] && s'[j] == s[j + 1];
          }
        }
      }
      HeadDisjointFromRest(s');
      assert s'[1..] == rest[1..];
      assert And(s[0], rest[0]) == 0 by { assert rest[0] == s[1]; }
      AndOrZero(s[0], rest[0], OrAll(rest[1..]));
    }
  }

  function Pow2(n: nat): (p: nat)
    ensures p >= 1
  {
    if n == 0 then 1 else 2 * Pow2(n - 1)
  }

  lemma {:induction false} Pow2Monotone(k: nat, n: nat)
    requires k <= n
    ensures Pow2(k) <= Pow2(n)
  {
    if k < n {
      Pow2Monotone(k, n - 1);
    }
  }

  lemma MulAtLeast(d: nat, a: int)
    requires a >= 1
    ensures d * a >= d
  {
  }

  /** Quotient and remainder are determined by any decomposition `x == d * t + s` with `s < d`. */
  lemma ModUnique(x: nat, d: nat, t: nat, s: nat)
    requires 0 <= s < d && x == d * t + s
    ensures x % d == s && x / d == t
  {
    var q := x / d;
    var r := x % d;
    assert d * q + r == d * t + s;
    if q > t {
      assert d * (q - t) == s - r;
      MulAtLeast(d, q - t);
    } else if q < t {
      assert d * (t - q) == r - s;
      MulAtLeast(d, t - q);
    }
  }

  /** Taking a remainder by `2p` splits off the low bit and a remainder by `p` of the rest. */
  lemma ModDouble(x: nat, p: nat)
    requires p >= 1
    ensures x % (2 * p) == 2 * ((x / 2) % p) + x % 2
  {
    var q := x / 2;
    var b := x % 2;
    var t := q / p;
    var r := q % p;
    assert q == p * t + r;
    assert x == 2 * q + b;
    assert x == (2 * p) * t + (2 * r + b);
    ModUnique(x, 2 * p, t, 2 * r + b);
  }

  /** A mask of the `k` low bits keeps the remainder by `2^k` (the host part of an address). */
  lemma {:induction false} AndLowMask(x: nat, k: nat)
    ensures And(x, Pow2(k) - 1) == x % Pow2(k)
  {
    if k > 0 && x != 0 {
      var m := Pow2(k) - 1;
      assert m % 2 == 1 && m / 2 == Pow2(k - 1) - 1;
      AndLowMask(x / 2, k - 1);
      ModDouble(x, Pow2(k - 1));
    }
  }

  /**
   * For `x` below `2^n`, the mask of bits `k` to `n - 1` keeps `x` without its remainder by
   * `2^k` (the network part of an address under a prefix netmask).
   */
  lemma {:induction false} AndHighMask(x: nat, n: nat, k: nat)
    requires k <= n && x < Pow2(n)
    ensures Pow2(k) <= Pow2(n)
    ensures And(x, Pow2(n) - Pow2(k)) == x - x % Pow2(k)
    decreases k, 1
  {
    Pow2Monotone(k, n);
    if k == 0 {
      HighMaskAll(x, n);
    } else if k == n {
      HighMaskNone(x, n);
    } else if x == 0 {
      ModUnique(0, Pow2(k), 0, 0);
    } else {
      AndHighMaskStep(x, n, k);
    }
  }

  lemma HighMaskAll(x: nat, n: nat)
    requires x < Pow2(n)
    ensures And(x, Pow2(n) - Pow2(0)) == x - x % Pow2(0)
  {
    AndLowMask(x, n);
    ModUnique(x, Pow2(n), 0, x);
  }

  lemma HighMaskNone(x: nat, n: nat)
    requires x < Pow2(n)
    ensures And(x, Pow2(n) - Pow2(n)) == x - x % Pow2(n)
  {
    ModUnique(x, Pow2(n), 0, x);
  }

  /** The inductive step of `AndHighMask`: one bit shifted off both sides. */
  lemma {:induction false} AndHighMaskStep(x: nat, n: nat, k: nat)
    requires 0 < k < n && x != 0 && x < Pow2(n) && Pow2(k) <= Pow2(n)
    ensures And(x, Pow2(n) - Pow2(k)) == x - x % Pow2(k)
    decreases k, 0
  {
    Pow2Monotone(k, n - 1);
    AndHighMask(x / 2, n - 1, k - 1);
    var p := Pow2(k - 1);
    var m := Pow2(n) - Pow2(k);
    var h := x / 2;
    assert m == 2 * (Pow2(n - 1) - p) && m > 0;
    assert m % 2 == 0 && m / 2 == Pow2(n - 1) - p;
    assert And(x, m) == 2 * And(h, m / 2);
    ModDouble(x, p);
    var r := h % p;
    assert x % Pow2(k) == 2 * r + x % 2;
    assert x == 2 * h + x % 2;
  }
}
