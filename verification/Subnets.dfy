/** IPv4 addresses and CIDR blocks: `Subnet` of src/lists.rs. An address is the
    number `u32::from` gives; `&` is spelled out bit by bit. */
module Subnets {
  import opened Wrappers

  const ADDRESSES := 0x1_0000_0000

  type Ip = x: int | 0 <= x < ADDRESSES
  type Prefix = p: int | 0 <= p <= 32

  function Pow2(n: nat): (r: nat)
    ensures r > 0
  {
    if n == 0 then 1 else 2 * Pow2(n - 1)
  }

  /** Bitwise and of two naturals. */
  function BitAnd(x: nat, y: nat): (r: nat)
    ensures r <= x
    decreases y, x
  {
    if x == 0 then 0
    else 2 * BitAnd(x / 2, y / 2) + if x % 2 == 1 && y % 2 == 1 then 1 else 0
  }

  /** `x << k` on 32 bits: what is shifted out is lost. */
  function Shl(x: Ip, k: nat): Ip
    decreases k
  {
    if k == 0 then x else Shl(2 * x % 0x1_0000_0000, k - 1)
  }

  function Mask(prefix: Prefix): Ip {
    if prefix == 0 then 0 else Shl(0xFFFF_FFFF, 32 - prefix)
  }

  datatype Subnet = Subnet(addr: Ip, prefix: Prefix) {
    predicate Contains(ip: Ip) {
      BitAnd(ip, Mask(prefix)) == addr
    }

    predicate Overlaps(other: Subnet) {
      Contains(other.addr) || other.Contains(addr)
    }

    /** How many addresses the block has. */
    function Size(): nat {
      Pow2(32 - prefix)
    }

    /** No host bits: what parsing leaves. */
    predicate Normal() {
      Contains(addr)
    }
  }

  function Host(addr: Ip): Subnet {
    Subnet(addr, 32)
  }

  /** The numeric half of `Subnet::parse`: the host bits are dropped. */
  function Masked(addr: Ip, prefix: Prefix): Subnet {
    Subnet(BitAnd(addr, Mask(prefix)), prefix)
  }

  lemma Pow2Splits(m: nat, n: nat)
    ensures Pow2(m + n) == Pow2(m) * Pow2(n)
  {
    if m > 0 {
      Pow2Splits(m - 1, n);
      assert Pow2(m + n) == 2 * Pow2(m + n - 1);
    }
  }

  lemma Pow2Of32()
    ensures Pow2(32) == ADDRESSES
  {
    assert Pow2(8) == 256;
    Pow2Splits(8, 8);
    Pow2Splits(16, 16);
  }

  lemma {:induction false} ShlOfOnes(j: nat, k: nat)
    requires j + k < 32 && Pow2(j) < 0x1_0000_0000
    ensures Shl(0x1_0000_0000 - Pow2(j), k) == 0x1_0000_0000 - Pow2(j + k)
    decreases k
  {
    if k > 0 {
      Pow2Of32();
      Pow2Grows(j + 1, 31);
      ShlOfOnes(j + 1, k - 1);
    }
  }

  /** The mask has exactly the `prefix` leading bits set. */
  lemma MaskIsLeadingOnes(prefix: Prefix)
    ensures Mask(prefix) == ADDRESSES - Pow2(32 - prefix)
  {
    Pow2Of32();
    if prefix > 0 {
      ShlOfOnes(0, 32 - prefix);
    }
  }

  lemma Pow2Grows(m: nat, n: nat)
    requires m <= n
    ensures Pow2(m) <= Pow2(n)
  {
  }

  /** `x` with its low `k` bits cleared. */
  function Clear(x: nat, k: nat): nat {
    if k == 0 then x else 2 * Clear(x / 2, k - 1)
  }

  lemma AndOnes(x: nat, n: nat)
    requires x < Pow2(n)
    ensures BitAnd(x, Pow2(n) - 1) == x
  {
    if x > 0 {
      var y := Pow2(n) - 1;
      assert y % 2 == 1 && y / 2 == Pow2(n - 1) - 1;
      AndOnes(x / 2, n - 1);
    }
  }

  lemma {:induction false} AndClears(x: nat, n: nat, k: nat)
    requires x < Pow2(n) && k <= n && Pow2(k) <= Pow2(n)
    ensures BitAnd(x, Pow2(n) - Pow2(k)) == Clear(x, k)
    decreases k
  {
    if k == 0 {
      AndOnes(x, n);
    } else {
      var y := Pow2(n) - Pow2(k);
      assert y % 2 == 0 && y / 2 == Pow2(n - 1) - Pow2(k - 1);
      AndClears(x / 2, n - 1, k - 1);
    }
  }

  /** Masking drops the host bits. */
  lemma MaskClears(ip: Ip, prefix: Prefix)
    ensures BitAnd(ip, Mask(prefix)) == Clear(ip, 32 - prefix)
  {
    MaskIsLeadingOnes(prefix);
    Pow2Of32();
    Pow2Grows(32 - prefix, 32);
    AndClears(ip, 32, 32 - prefix);
  }

  lemma ClearTwice(x: nat, k: nat, m: nat)
    requires k <= m
    ensures Clear(Clear(x, k), m) == Clear(x, m)
    decreases k
  {
  }

  lemma ClearIsBelow(x: nat, k: nat)
    ensures Clear(x, k) <= x < Clear(x, k) + Pow2(k)
  {
  }

  lemma ClearIsUnique(a: nat, x: nat, k: nat)
    requires Clear(a, k) == a && a <= x < a + Pow2(k)
    ensures Clear(x, k) == a
    decreases k
  {
  }

  /** Whole multiples of the size have no host bits. */
  lemma MultipleIsNormal(s: Subnet, q: nat)
    requires s.addr == q * s.Size()
    ensures s.Normal()
  {
    MaskClears(s.addr, s.prefix);
    ClearHalves(s.addr, 32 - s.prefix, q);
  }

  lemma {:induction false} ClearHalves(x: nat, k: nat, q: nat)
    requires x == q * Pow2(k)
    ensures Clear(x, k) == x
    decreases k
  {
    if k > 0 {
      assert q * Pow2(k) == 2 * (q * Pow2(k - 1));
      ClearHalves(x / 2, k - 1, q);
    }
  }

  /** The longest prefix is one address. */
  lemma HostContains(addr: Ip, ip: Ip)
    ensures Host(addr).Contains(ip) <==> ip == addr
    ensures Host(addr).Normal()
  {
    MaskClears(ip, 32);
    MaskClears(addr, 32);
  }

  /** What parsing leaves is normal, and holds the address written. */
  lemma MaskedIsNormal(addr: Ip, prefix: Prefix)
    ensures Masked(addr, prefix).Normal()
    ensures Masked(addr, prefix).Contains(addr)
  {
    MaskClears(addr, prefix);
    MaskClears(Masked(addr, prefix).addr, prefix);
    ClearTwice(addr, 32 - prefix, 32 - prefix);
  }

  lemma ClearDivides(x: nat, k: nat)
    ensures Clear(x, k) == x / Pow2(k) * Pow2(k)
  {
    if k > 0 {
      ClearDivides(x / 2, k - 1);
      DivTwice(x, Pow2(k - 1));
      DoubleTimes(x / 2 / Pow2(k - 1), Pow2(k - 1));
    }
  }

  lemma DoubleTimes(q: nat, p: nat)
    ensures 2 * (q * p) == q * (2 * p)
  {
  }

  lemma DivTwice(x: nat, p: nat)
    requires p > 0
    ensures x / 2 / p == x / (2 * p)
  {
    var q, r := x / 2 / p, x / 2 % p;
    assert x / 2 == q * p + r && x == 2 * (q * p + r) + x % 2;
    assert x == q * (2 * p) + (2 * r + x % 2) && 2 * r + x % 2 < 2 * p;
    DivUnique(x, 2 * p, q, 2 * r + x % 2);
  }

  lemma DivUnique(x: nat, d: nat, q: nat, r: nat)
    requires x == q * d + r && r < d
    ensures x / d == q
  {
    if x / d < q {
      TimesLess(x / d, q, d);
    }
    if x / d > q {
      TimesLess(q, x / d, d);
    }
  }

  lemma TimesLess(a: nat, b: nat, d: nat)
    requires a < b
    ensures a * d + d <= b * d
  {
    assert b * d == a * d + d + (b - a - 1) * d;
  }

  /** A block with a prefix holds what agrees in that many leading bits. */
  lemma MaskedMeans(addr: Ip, prefix: Prefix, ip: Ip)
    ensures Masked(addr, prefix).Contains(ip) <==> ip / Pow2(32 - prefix) == addr / Pow2(32 - prefix)
  {
    MaskClears(addr, prefix);
    MaskClears(ip, prefix);
    ClearedAlike(ip, addr, 32 - prefix);
  }

  lemma ClearedAlike(x: nat, y: nat, k: nat)
    ensures Clear(x, k) == Clear(y, k) <==> x / Pow2(k) == y / Pow2(k)
  {
    ClearDivides(x, k);
    ClearDivides(y, k);
    SameTimesIff(x / Pow2(k), y / Pow2(k), Pow2(k));
  }

  lemma SameTimesIff(a: nat, b: nat, p: nat)
    requires p > 0
    ensures a * p == b * p <==> a == b
  {
    if a * p == b * p {
      SameTimes(a, b, p);
    }
  }

  lemma SameTimes(a: nat, b: nat, p: nat)
    requires a * p == b * p && p > 0
    ensures a == b
  {
    if a < b {
      TimesLess(a, b, p);
    }
    if b < a {
      TimesLess(b, a, p);
    }
  }

  /** `contains` is the interval test of section 3.1 of RFC 4632. */
  lemma ContainsIsInterval(s: Subnet, ip: Ip)
    requires s.Normal()
    ensures s.Contains(ip) <==> s.addr <= ip < s.addr + s.Size()
  {
    MaskClears(ip, s.prefix);
    MaskClears(s.addr, s.prefix);
    ClearIsBelow(ip, 32 - s.prefix);
    if s.addr <= ip < s.addr + s.Size() {
      ClearIsUnique(s.addr, ip, 32 - s.prefix);
    }
  }

  lemma Nested(a: Subnet, b: Subnet, ip: Ip, other: Ip)
    requires a.prefix <= b.prefix
    requires a.Contains(ip) && b.Contains(ip) && b.Contains(other)
    ensures a.Contains(other)
  {
    MaskClears(ip, a.prefix);
    MaskClears(other, a.prefix);
    MaskClears(ip, b.prefix);
    MaskClears(other, b.prefix);
    ClearTwice(ip, 32 - b.prefix, 32 - a.prefix);
    ClearTwice(other, 32 - b.prefix, 32 - a.prefix);
  }

  /** Two blocks are nested or have no address in common. */
  lemma NestedOrDisjoint(a: Subnet, b: Subnet)
    requires a.prefix <= b.prefix
    ensures (forall ip: Ip :: b.Contains(ip) ==> a.Contains(ip))
            || (forall ip: Ip :: !(a.Contains(ip) && b.Contains(ip)))
  {
    forall ip: Ip, other: Ip | a.Contains(ip) && b.Contains(ip) && b.Contains(other)
      ensures a.Contains(other)
    {
      Nested(a, b, ip, other);
    }
  }

  /** `overlaps` holds exactly when an address is in both. */
  lemma OverlapsIffShared(a: Subnet, b: Subnet)
    requires a.Normal() && b.Normal()
    ensures a.Overlaps(b) <==> exists ip: Ip :: a.Contains(ip) && b.Contains(ip)
  {
    forall ip: Ip | a.Contains(ip) && b.Contains(ip)
      ensures a.Overlaps(b)
    {
      if a.prefix <= b.prefix {
        Nested(a, b, ip, b.addr);
      } else {
        Nested(b, a, ip, a.addr);
      }
    }
  }

  /** Every subnet of the lists is normal. */
  ghost predicate AllNormal(nets: seq<(Subnet, string)>) {
    forall i :: 0 <= i < |nets| ==> nets[i].0.Normal()
  }

  lemma AllNormalAppend(nets: seq<(Subnet, string)>, s: Subnet, list: string)
    requires AllNormal(nets) && s.Normal()
    ensures AllNormal(nets + [(s, list)])
  {
  }
}
