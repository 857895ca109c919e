/**
 Address blocks as the compiler compares them: a parsed prefix has its host bits masked
 off, and two blocks of one IP version overlap when either holds an end of the other.
 */
module Cidr {
  import opened Arithmetic

  datatype Version = V4 | V6

  function Width(v: Version): nat {
    if v.V4? then 32 else 128
  }

  /** What the text of a CIDR denotes before masking. */
  datatype RawPrefix = RawPrefix(version: Version, address: nat, prefixlen: nat)

  type Prefix = p: RawPrefix | p.prefixlen <= Width(p.version) && p.address < Pow2(Width(p.version))
    witness RawPrefix(V4, 0, 0)

  datatype Network = Network(version: Version, base: nat, prefixlen: nat)

  function Size(n: Network): (size: nat)
    requires n.prefixlen <= Width(n.version)
    ensures size >= 1
  {
    Pow2(Width(n.version) - n.prefixlen)
  }

  function AlignedDown(x: nat, s: nat): (r: nat)
    requires s >= 1
    ensures r <= x < r + s
  {
    DivisionBrackets(x, s);
    x / s * s
  }

  /** `ip_network(..., strict=False)`: clear the host bits. */
  function Mask(p: Prefix): (n: Network)
    ensures n.version == p.version && n.prefixlen == p.prefixlen && n.base <= p.address
  {
    Network(p.version, AlignedDown(p.address, Pow2(Width(p.version) - p.prefixlen)), p.prefixlen)
  }

  /** The address with the host bits of `n`'s mask cleared is `n`'s own address. */
  predicate Holds(n: Network, address: nat)
    requires n.prefixlen <= Width(n.version)
  {
    AlignedDown(address, Size(n)) == n.base
  }

  predicate Overlaps(n: Network, m: Network)
    requires n.prefixlen <= Width(n.version) && m.prefixlen <= Width(m.version)
  {
    || Holds(m, n.base)
    || Holds(m, n.base + Size(n) - 1)
    || Holds(n, m.base)
    || Holds(n, m.base + Size(m) - 1)
  }

  /** A block: aligned to its size and inside the address space. */
  ghost predicate IsBlock(n: Network) {
    && n.prefixlen <= Width(n.version)
    && AlignedDown(n.base, Size(n)) == n.base
    && n.base + Size(n) <= Pow2(Width(n.version))
  }

  ghost predicate Within(n: Network, m: Network) {
    n.prefixlen <= Width(n.version) && m.prefixlen <= Width(m.version)
    && m.base <= n.base && n.base + Size(n) <= m.base + Size(m)
  }

  // ----- arithmetic of powers and multiples

  lemma {:induction false} Pow2Adds(a: nat, b: nat)
    ensures Pow2(a + b) == Pow2(a) * Pow2(b)
  {
    if a > 0 {
      Pow2Adds(a - 1, b);
      Reassociate(2, Pow2(a - 1), Pow2(b));
    }
  }

  lemma Reassociate(i: int, j: int, k: int)
    ensures i * (j * k) == (i * j) * k
  {
  }

  lemma MultiplesStep(i: int, j: int, s: int)
    requires s >= 1 && i * s < j * s
    ensures i < j && i * s + s <= j * s
  {
    if i >= j { MulMonotone(j, i, s); }
    MulMonotone(i + 1, j, s);
    assert (i + 1) * s == i * s + s;
  }

  lemma MulMonotone(i: int, j: int, s: int)
    requires s >= 0
    ensures i <= j ==> i * s <= j * s
  {
    if i <= j { assert j * s - i * s == (j - i) * s; }
  }

  lemma DivisionBrackets(x: nat, s: nat)
    requires s >= 1
    ensures x / s * s <= x < x / s * s + s
  {
    assert x == x / s * s + x % s;
  }

  lemma QuotientUnique(x: nat, q: nat, s: nat)
    requires s >= 1 && q * s <= x < q * s + s
    ensures x / s == q
  {
    DivisionBrackets(x, s);
    var p := x / s;
    assert (p + 1) * s == p * s + s && (q + 1) * s == q * s + s;
    MulMonotone(p + 1, q, s);
    MulMonotone(q + 1, p, s);
  }

  // ----- what masking and overlapping mean

  lemma MaskIsBlock(p: Prefix)
    ensures IsBlock(Mask(p)) && Holds(Mask(p), p.address)
  {
    hide AlignedDown, Pow2;
    var s := Size(Mask(p));
    AlignedOnce(p.address, s);
    Pow2Adds(p.prefixlen, Width(p.version) - p.prefixlen);
    AlignedFits(p.address, s, Pow2(p.prefixlen));
  }

  lemma AlignedOnce(x: nat, s: nat)
    requires s >= 1
    ensures AlignedDown(AlignedDown(x, s), s) == AlignedDown(x, s)
  {
    QuotientUnique(x / s * s, x / s, s);
  }

  lemma AlignedFits(x: nat, s: nat, count: nat)
    requires s >= 1 && x < count * s
    ensures AlignedDown(x, s) + s <= count * s
  {
    DivisionBrackets(x, s);
    MultiplesStep(x / s, count, s);
  }

  lemma HoldsIsRange(n: Network, address: nat)
    requires IsBlock(n)
    ensures Holds(n, address) <==> n.base <= address < n.base + Size(n)
  {
    var s := Size(n);
    DivisionBrackets(address, s);
    if n.base <= address < n.base + s { QuotientUnique(address, n.base / s, s); }
  }

  lemma NestedMultiples(i: nat, s: nat, j: nat, k: nat, x: nat)
    requires s >= 1 && i * s <= x < i * s + s && j * (k * s) <= x < j * (k * s) + k * s
    ensures j * (k * s) <= i * s && i * s + s <= j * (k * s) + k * s
  {
    var jk := j * k;
    assert j * (k * s) == jk * s && (jk + k) * s == jk * s + k * s && (i + 1) * s == i * s + s;
    MultiplesStep(jk, i + 1, s);
    MulMonotone(jk, i, s);
    MultiplesStep(i, jk + k, s);
  }

  lemma BlockIsMultiple(n: Network) returns (i: nat)
    requires IsBlock(n)
    ensures n.base == i * Size(n)
  {
    hide Size;
    i := n.base / Size(n);
  }

  lemma NestedBlocks(a: nat, i: nat, s: nat, b: nat, j: nat, t: nat, k: nat, x: nat)
    requires s >= 1 && a == i * s && b == j * t && t == k * s
    requires a <= x < a + s && b <= x < b + t
    ensures b <= a && a + s <= b + t
  {
    assert b == j * (k * s);
    NestedMultiples(i, s, j, k, x);
  }

  lemma SizesDivide(n: Network, m: Network)
    requires n.version == m.version && m.prefixlen <= n.prefixlen <= Width(n.version)
    ensures Size(m) == Pow2(n.prefixlen - m.prefixlen) * Size(n)
  {
    hide Pow2;
    Pow2Adds(n.prefixlen - m.prefixlen, Width(n.version) - n.prefixlen);
  }

  /** Blocks of different sizes that meet are nested: section 3.1 of RFC 4632. */
  lemma MeetingBlocksNest(n: Network, m: Network, x: nat)
    requires IsBlock(n) && IsBlock(m) && n.version == m.version && n.prefixlen >= m.prefixlen
    requires n.base <= x < n.base + Size(n) && m.base <= x < m.base + Size(m)
    ensures Within(n, m)
  {
    var i := BlockIsMultiple(n);
    var j := BlockIsMultiple(m);
    SizesDivide(n, m);
    NestedBlocks(n.base, i, Size(n), m.base, j, Size(m), Pow2(n.prefixlen - m.prefixlen), x);
    hide Pow2, Size, AlignedDown;
  }

  lemma OverlapIsNesting(n: Network, m: Network)
    requires IsBlock(n) && IsBlock(m) && n.version == m.version
    ensures Overlaps(n, m) <==> Within(n, m) || Within(m, n)
    ensures Overlaps(n, m) <==> exists x: nat :: Holds(n, x) && Holds(m, x)
  {
    forall x: nat ensures Holds(n, x) <==> n.base <= x < n.base + Size(n) { HoldsIsRange(n, x); }
    forall x: nat ensures Holds(m, x) <==> m.base <= x < m.base + Size(m) { HoldsIsRange(m, x); }
    forall x: nat | Holds(n, x) && Holds(m, x) ensures Within(n, m) || Within(m, n) {
      if n.prefixlen >= m.prefixlen { MeetingBlocksNest(n, m, x); } else { MeetingBlocksNest(m, n, x); }
    }
    assert Holds(n, n.base) && Holds(n, n.base + Size(n) - 1);
    assert Holds(m, m.base) && Holds(m, m.base + Size(m) - 1);
  }

  // ----- packing

  ghost predicate Disjoint(ns: seq<Network>) {
    && Blocks(ns)
    && (forall i, j :: 0 <= i < j < |ns| && ns[i].version == ns[j].version ==> !Overlaps(ns[i], ns[j]))
  }

  /** Disjoint blocks give every address of a version to at most one of them. */
  lemma AddressHasOneOwner(ns: seq<Network>, i: nat, j: nat, x: nat)
    requires Disjoint(ns) && i < |ns| && j < |ns| && ns[i].version == ns[j].version
    requires Holds(ns[i], x) && Holds(ns[j], x)
    ensures i == j
  {
    if i < j { OverlapIsNesting(ns[i], ns[j]); }
    if j < i { OverlapIsNesting(ns[j], ns[i]); }
  }

  ghost predicate Blocks(ns: seq<Network>) {
    forall i :: 0 <= i < |ns| ==> IsBlock(ns[i])
  }

  ghost function TotalSize(ns: seq<Network>, v: Version): nat
    requires Blocks(ns)
  {
    if ns == [] then 0 else
      var n := ns[|ns| - 1];
      TotalSize(ns[..|ns| - 1], v) + if n.version == v then Size(n) else 0
  }

  ghost function Range(lo: nat, size: nat): set<int> {
    if size == 0 then {} else Range(lo, size - 1) + {lo + size - 1}
  }

  lemma {:induction false} RangeSize(lo: nat, size: nat)
    ensures |Range(lo, size)| == size
    ensures forall x :: x in Range(lo, size) <==> lo <= x < lo + size
  {
    if size > 0 { RangeSize(lo, size - 1); }
  }

  ghost function Occupied(ns: seq<Network>, v: Version): set<int>
    requires Blocks(ns)
  {
    if ns == [] then {} else
      var n := ns[|ns| - 1];
      Occupied(ns[..|ns| - 1], v) + if n.version == v then Range(n.base, Size(n)) else {}
  }

  ghost predicate Owned(ns: seq<Network>, v: Version, x: int)
    requires Blocks(ns)
  {
    x >= 0 && exists i :: 0 <= i < |ns| && ns[i].version == v && Holds(ns[i], x)
  }

  lemma {:induction false} OccupiedIsOwned(ns: seq<Network>, v: Version, x: int)
    requires Blocks(ns)
    ensures x in Occupied(ns, v) <==> Owned(ns, v, x)
  {
    hide Holds, Pow2;
    if ns != [] {
      var k := |ns| - 1;
      OccupiedIsOwned(ns[..k], v, x);
      RangeSize(ns[k].base, Size(ns[k]));
      if x >= 0 { HoldsIsRange(ns[k], x); }
      if Owned(ns, v, x) {
        var i :| 0 <= i < |ns| && ns[i].version == v && Holds(ns[i], x);
        if i < k { assert ns[..k][i] == ns[i]; }
      }
      if Owned(ns[..k], v, x) {
        var i :| 0 <= i < k && ns[..k][i].version == v && Holds(ns[..k][i], x);
        assert ns[..k][i] == ns[i];
      }
    }
  }

  lemma {:induction false} OccupiedSize(ns: seq<Network>, v: Version)
    requires Disjoint(ns)
    ensures |Occupied(ns, v)| == TotalSize(ns, v)
  {
    hide Holds, Pow2, Overlaps;
    if ns != [] {
      var k := |ns| - 1;
      var before, n := ns[..k], ns[k];
      assert Disjoint(before);
      OccupiedSize(before, v);
      if n.version == v {
        var block := Range(n.base, Size(n));
        RangeSize(n.base, Size(n));
        forall x | x in Occupied(before, v) ensures x !in block {
          OccupiedIsOwned(before, v, x);
          var i :| 0 <= i < k && before[i].version == v && Holds(before[i], x);
          HoldsIsRange(n, x);
          if Holds(n, x) { AddressHasOneOwner(ns, i, k, x); }
        }
        assert |Occupied(before, v) + block| == |Occupied(before, v)| + |block|;
      }
    }
  }

  lemma SubsetSize(a: set<int>, b: set<int>)
    requires a <= b
    ensures |a| <= |b|
  {
    assert b == a + (b - a);
  }

  /** The accepted blocks of one version fit in that version's address space together. */
  lemma BlocksFit(ns: seq<Network>, v: Version)
    requires Disjoint(ns)
    ensures TotalSize(ns, v) <= Pow2(Width(v))
  {
    hide Pow2, Holds, Overlaps, Range, Width;
    OccupiedSize(ns, v);
    RangeSize(0, Pow2(Width(v)));
    forall x | x in Occupied(ns, v) ensures x in Range(0, Pow2(Width(v))) {
      OccupiedIsOwned(ns, v, x);
      var i :| 0 <= i < |ns| && ns[i].version == v && Holds(ns[i], x);
      HoldsIsRange(ns[i], x);
    }
    SubsetSize(Occupied(ns, v), Range(0, Pow2(Width(v))));
  }

  /** The address spaces in figures, and how a prefix length divides them. */
  lemma AddressSpaces(n: Network)
    requires n.prefixlen <= Width(n.version)
    ensures Pow2(Width(V4)) == 0x1_0000_0000
    ensures Pow2(Width(V6)) == 0x1_0000_0000_0000_0000_0000_0000_0000_0000
    ensures Size(n) * Pow2(n.prefixlen) == Pow2(Width(n.version))
    ensures Size(Network(n.version, 0, Width(n.version))) == 1
  {
    hide Pow2, Size;
    Pow2OfEight();
    Pow2Adds(8, 8);
    Pow2Adds(16, 16);
    Pow2Adds(32, 32);
    Pow2Adds(64, 64);
    SizeIsShare(n);
    SizeIsShare(Network(n.version, 0, Width(n.version)));
    Pow2OfZero();
  }

  lemma SizeIsShare(n: Network)
    requires n.prefixlen <= Width(n.version)
    ensures Size(n) * Pow2(n.prefixlen) == Pow2(Width(n.version))
    ensures n.prefixlen == Width(n.version) ==> Size(n) == 1
  {
    Pow2Adds(Width(n.version) - n.prefixlen, n.prefixlen);
  }

  lemma Pow2OfEight()
    ensures Pow2(8) == 256
  {
    assert Pow2(2) == 4 && Pow2(4) == 16 && Pow2(6) == 64;
  }

  lemma Pow2OfZero()
    ensures Pow2(0) == 1
  {
  }
}
