/**
  IPv4 prefix arithmetic. An address is a 32-bit natural number; a CIDR
  value `addr/len` pairs an address with a prefix length. The same pair
  serves as an interface address (host bits set, as in `ip a a 10.0.1.1/24`)
  and as a route destination (host bits clear, as in `10.0.0.0/21`).
*/
module Ipv4 {

  const AddrSpace: nat := 0x1_0000_0000

  type Addr = a: int | 0 <= a < AddrSpace
  type PrefixLen = l: int | 0 <= l <= 32

  datatype Cidr = Cidr(addr: Addr, len: PrefixLen)

  /** The address written a.b.c.d. */
  function Dotted(a: nat, b: nat, c: nat, d: nat): (r: Addr)
    requires a < 256 && b < 256 && c < 256 && d < 256
    ensures r % 256 == d
    ensures r / 0x100_0000 == a
  {
    var r := ((a * 0x100 + b) * 0x100 + c) * 0x100 + d;
    DivModUnique(r, 0x100, (a * 0x100 + b) * 0x100 + c, d);
    DivModUnique(r, 0x100_0000, a, (b * 0x100 + c) * 0x100 + d);
    r
  }

  function Pow2(n: nat): (r: nat)
    ensures r >= 1
  {
    if n == 0 then 1 else 2 * Pow2(n - 1)
  }

  /** Number of addresses in a block of prefix length `len`. */
  function BlockSize(len: PrefixLen): (r: nat)
    ensures r >= 1
  {
    Pow2(32 - len)
  }

  /** Sizes of the blocks this network uses, evaluated once. */
  lemma {:induction false} BlockSizes()
    ensures BlockSize(0) == AddrSpace
    ensures BlockSize(21) == 2048
    ensures BlockSize(24) == 256
    ensures BlockSize(26) == 64
    ensures BlockSize(29) == 8
  {
    assert Pow2(3) == 8;
    assert Pow2(6) == 64;
    assert Pow2(8) == 256;
    assert Pow2(11) == 2048;
    assert Pow2(16) == 65536;
    assert Pow2(24) == 0x100_0000;
    assert Pow2(32) == AddrSpace;
  }

  /** First address of the block containing `c.addr` (host bits cleared). */
  function Network(c: Cidr): (r: Addr)
    ensures r <= c.addr < r + BlockSize(c.len)
    ensures r % BlockSize(c.len) == 0
  {
    RoundDown(c.addr, BlockSize(c.len));
    c.addr - c.addr % BlockSize(c.len)
  }

  /** Last address of the block (all host bits set). */
  function Broadcast(c: Cidr): (r: nat)
    ensures Network(c) <= c.addr <= r
    ensures r - Network(c) + 1 == BlockSize(c.len)
  {
    Network(c) + BlockSize(c.len) - 1
  }

  /** A destination prefix must not carry host bits. */
  predicate IsNetwork(c: Cidr) {
    c.addr % BlockSize(c.len) == 0
  }

  predicate Contains(c: Cidr, a: Addr) {
    Network(c) <= a <= Broadcast(c)
  }

  /** The block of `inner` lies within the block of `outer`. */
  predicate Within(inner: Cidr, outer: Cidr) {
    outer.len <= inner.len && Network(outer) <= Network(inner) && Broadcast(inner) <= Broadcast(outer)
  }

  /** The two blocks have no address in common. */
  predicate Disjoint(c: Cidr, d: Cidr) {
    Broadcast(c) < Network(d) || Broadcast(d) < Network(c)
  }

  /** The block of the prefix whose network is `c` (the route the kernel derives from an address). */
  function Prefix(c: Cidr): (r: Cidr)
    ensures IsNetwork(r) && r.len == c.len
    ensures Contains(r, c.addr)
    ensures forall a: Addr :: Contains(r, a) <==> Contains(c, a)
  {
    NetworkOf(Cidr(Network(c), c.len), Network(c));
    Cidr(Network(c), c.len)
  }

  lemma WithinContains(inner: Cidr, outer: Cidr, a: Addr)
    requires Within(inner, outer) && Contains(inner, a)
    ensures Contains(outer, a)
  {
  }

  /** Disjointness is exactly the absence of a shared address. */
  lemma {:induction false} DisjointIff(c: Cidr, d: Cidr)
    ensures Disjoint(c, d) <==> forall a: Addr :: !(Contains(c, a) && Contains(d, a))
  {
    if !Disjoint(c, d) {
      var w: Addr := if Network(c) <= Network(d) then Network(d) else Network(c);
      assert Contains(c, w) && Contains(d, w);
    }
  }

  lemma {:induction false} MultiplesApart(x: int, y: int, m: nat)
    requires m >= 1 && x % m == 0 && y % m == 0 && x < y
    ensures x + m <= y
  {
    var qx, qy := x / m, y / m;
    assert x == qx * m && y == qy * m;
    if qx >= qy {
      MulMonotone(qy, qx, m);
    }
    MulMonotone(qx + 1, qy, m);
    assert (qx + 1) * m == qx * m + m;
  }

  /** Clearing the remainder rounds x down to the multiple of m just below or at it. */
  lemma {:induction false} RoundDown(x: nat, m: nat)
    requires m >= 1
    ensures 0 <= x - x % m <= x < x - x % m + m
    ensures (x - x % m) % m == 0
  {
    var q := x / m;
    assert x - x % m == q * m;
    MultipleMod(q, m);
  }

  /** Quotient and remainder are the only ones with x == q * m + r and 0 <= r < m. */
  lemma {:induction false} DivModUnique(x: int, m: int, q: int, r: int)
    requires m >= 1 && 0 <= r < m && x == q * m + r
    ensures x / m == q && x % m == r
  {
    var q', r' := x / m, x % m;
    assert x == q' * m + r';
    if q' < q {
      MulMonotone(q' + 1, q, m);
    } else if q < q' {
      MulMonotone(q + 1, q', m);
    }
  }

  /** A multiple of m leaves no remainder. */
  lemma {:induction false} MultipleMod(q: int, m: nat)
    requires m >= 1
    ensures (q * m) % m == 0
  {
    var x := q * m;
    var k := q - x / m;
    assert k * m == x % m;
    if k >= 1 {
      MulMonotone(1, k, m);
    } else if k <= -1 {
      MulMonotone(k, -1, m);
    }
  }

  lemma {:induction false} MulMonotone(a: int, b: int, m: nat)
    requires a <= b
    ensures a * m <= b * m
  {
  }

  /** A prefix without host bits is its own network address. */
  lemma {:induction false} NetworkOfNetwork(c: Cidr)
    requires IsNetwork(c)
    ensures Network(c) == c.addr
  {
  }

  /** The network address is the one multiple of the block size at or just below the address. */
  lemma {:induction false} NetworkOf(c: Cidr, n: int)
    requires n % BlockSize(c.len) == 0 && n <= c.addr < n + BlockSize(c.len)
    ensures Network(c) == n
  {
    var r, m := Network(c), BlockSize(c.len);
    if r < n {
      MultiplesApart(r, n, m);
    } else if n < r {
      MultiplesApart(n, r, m);
    }
  }

  /**
    Two network prefixes of equal length that share an address are the same
    prefix: longest-prefix match never has to choose between equally long
    distinct destinations.
  */
  lemma {:induction false} SameLengthOverlap(c: Cidr, d: Cidr, a: Addr)
    requires IsNetwork(c) && IsNetwork(d) && c.len == d.len
    requires Contains(c, a) && Contains(d, a)
    ensures c == d
  {
    var m := BlockSize(c.len);
    NetworkOfNetwork(c);
    NetworkOfNetwork(d);
    if c.addr < d.addr {
      MultiplesApart(c.addr, d.addr, m);
    } else if d.addr < c.addr {
      MultiplesApart(d.addr, c.addr, m);
    }
  }
}
