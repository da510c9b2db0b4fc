/**
 IP addresses and prefixes as the allowlist reads them, and what a prefix covers: once as the code
 decides it, on the normalised prefix, and once as the 128-bit address space says
 (IPv4-mapped addresses: section 2.5.5.2 of RFC 4291).
 */
module Addresses {
  import opened Options
  import opened Powers

  const V4_LIMIT: nat := 0x1_0000_0000
  const V6_LIMIT: nat := 0x1_0000_0000 * 0x1_0000_0000 * 0x1_0000_0000 * 0x1_0000_0000

  /** The 96 high bits of an IPv4-mapped address. */
  const MAPPED: nat := 0xFFFF

  datatype Addr = V4(value: nat) | V6(value: nat, zone: string) {
    predicate Valid() { value < if V4? then V4_LIMIT else V6_LIMIT }

    function BitLen(): nat { if V4? then 32 else 128 }

    predicate Is4In6() { V6? && value / V4_LIMIT == MAPPED }

    function Unmap(): Addr { if Is4In6() then V4(value % V4_LIMIT) else this }

    function WithoutZone(): Addr { if V6? then V6(value, "") else this }

    predicate HasZone() { V6? && zone != "" }

    /** Whether this is an IPv4 address, in either form. */
    predicate IsIPv4() { V4? || Is4In6() }

    /** The address in the 128-bit space. */
    function Wide(): nat { if V4? then MAPPED * V4_LIMIT + value else value }
  }

  /** `v` without its remainder: the low bits cleared, when `m` is a power of two. */
  function Cleared(v: nat, m: nat): nat
    requires m > 0
  {
    RemainderIsLess(v, m);
    v - v % m
  }

  lemma RemainderIsLess(v: nat, m: nat)
    requires m > 0
    ensures v % m <= v
  {
    if v < m {
      assert v % m == v;
    }
  }

  datatype Prefix = Prefix(addr: Addr, bits: nat) {
    predicate Valid() { addr.Valid() && bits <= addr.BitLen() && !addr.HasZone() }

    function HostSize(): (r: nat)
      requires bits <= addr.BitLen()
      ensures r > 0
    {
      Pow2(addr.BitLen() - bits)
    }

    function Masked(): Prefix
      requires bits <= addr.BitLen()
    {
      this.(addr := addr.(value := Cleared(addr.value, HostSize())))
    }

    predicate Contains(a: Addr)
      requires bits <= addr.BitLen()
    {
      !a.HasZone() && a.BitLen() == addr.BitLen() && a.value / HostSize() == addr.value / HostSize()
    }
  }

  /** The prefix the code keeps for a written address. */
  function OfAddress(a: Addr): Prefix {
    Prefix(a.Unmap().WithoutZone(), a.Unmap().BitLen())
  }

  /** The prefix the code keeps for a written prefix, if its length makes sense. */
  function OfPrefix(p: Prefix): Option<Prefix> {
    var address := p.addr.Unmap();
    var bits := if address.V4? && p.addr.Is4In6() then p.bits - 96 else p.bits;
    if bits < 0 || bits > address.BitLen() then None else Some(Prefix(address, bits).Masked())
  }

  // ---------- what is covered, in the 128-bit space ----------

  /** A written address covers the one address of the 128-bit space. */
  predicate AddressCovers(written: Addr, a: Addr) {
    !a.Unmap().HasZone() && a.Wide() == written.Wide()
  }

  function WideBits(p: Prefix): nat {
    if p.addr.V4? then p.bits + 96 else p.bits
  }

  /** A written prefix covers the addresses that agree with it on its bits of the 128-bit space, IPv4 and
      IPv6 kept apart. */
  predicate PrefixCovers(written: Prefix, a: Addr)
    requires WideBits(written) <= 128
  {
    && !a.Unmap().HasZone()
    && (a.IsIPv4() <==> written.addr.IsIPv4())
    && a.Wide() / Pow2(128 - WideBits(written)) == written.addr.Wide() / Pow2(128 - WideBits(written))
  }

  // ---------- the two agree ----------

  lemma Pow2Of32()
    ensures Pow2(32) == V4_LIMIT
  {
    assert Pow2(8) == 256;
    Pow2Splits(8, 8);
    Pow2Splits(16, 16);
  }

  lemma DivideSum(x: nat, y: nat, m: nat)
    requires m > 0
    ensures (x * m + y) / m == x + y / m
  {
    var q, r := y / m, y % m;
    assert x * m + y == (x + q) * m + r;
    DivideIs(x * m + y, m, x + q, r);
  }

  lemma MultipleIsFar(t: int, m: nat)
    requires t != 0
    ensures t * m >= m || t * m + m <= 0
  {
    if t > 0 {
      Positive(t - 1, m);
    } else {
      Positive(-t - 1, m);
    }
  }

  lemma Positive(x: nat, y: nat)
    ensures x * y >= 0
  {
  }

  lemma DivideIs(n: nat, m: nat, q: nat, r: nat)
    requires m > 0 && r < m && n == q * m + r
    ensures n / m == q
  {
    var d := n / m;
    assert n == d * m + n % m;
    assert (d - q) * m == r - n % m;
    if d != q {
      MultipleIsFar(d - q, m);
      assert false;
    }
  }

  lemma MaskKeepsQuotient(v: nat, m: nat)
    requires m > 0
    ensures Cleared(v, m) / m == v / m && Cleared(v, m) == v / m * m && Cleared(Cleared(v, m), m) == Cleared(v, m)
  {
    var q, c := v / m, Cleared(v, m);
    assert v == q * m + v % m;
    DivideIs(c, m, q, 0);
    assert c == c / m * m + c % m;
  }

  lemma WideIPv4(a: Addr)
    requires a.Valid() && a.IsIPv4()
    ensures a.Unmap().V4? && a.Unmap().Valid() && a.Wide() == MAPPED * V4_LIMIT + a.Unmap().value
  {
  }

  lemma WideKeepsFamily(a: Addr, b: Addr)
    requires a.Valid() && b.Valid() && a.Wide() == b.Wide()
    ensures a.IsIPv4() <==> b.IsIPv4()
  {
    if a.V4? {
      DivideIs(a.Wide(), V4_LIMIT, MAPPED, a.value);
    }
    if b.V4? {
      DivideIs(b.Wide(), V4_LIMIT, MAPPED, b.value);
    }
  }

  /** For `k` host bits of an IPv4 address the mapped addresses agree exactly when the addresses do. */
  lemma MappedAgree(x: nat, y: nat, k: nat)
    requires k <= 32
    ensures (MAPPED * V4_LIMIT + x) / Pow2(k) == (MAPPED * V4_LIMIT + y) / Pow2(k) <==> x / Pow2(k) == y / Pow2(k)
  {
    var m, high := Pow2(k), MAPPED * Pow2(32 - k);
    HighPart(k);
    DivideSum(high, x, m);
    DivideSum(high, y, m);
  }

  lemma HighPart(k: nat)
    requires k <= 32
    ensures MAPPED * V4_LIMIT == (MAPPED * Pow2(32 - k)) * Pow2(k)
  {
    Pow2Splits(32 - k, k);
    Pow2Of32();
    Associative(MAPPED, Pow2(32 - k), Pow2(k));
  }

  lemma Associative(x: nat, y: nat, z: nat)
    ensures x * (y * z) == (x * y) * z
  {
  }

  /** The code's test on the kept prefix says what the written address covers. */
  lemma AddressMeaning(written: Addr, a: Addr)
    requires written.Valid() && a.Valid()
    ensures OfAddress(written).Valid() && OfAddress(written).Masked() == OfAddress(written)
    ensures OfAddress(written).Contains(a.Unmap()) <==> AddressCovers(written, a)
  {
    var kept := OfAddress(written);
    assert Pow2(0) == 1 && kept.HostSize() == 1;
    if written.IsIPv4() {
      WideIPv4(written);
    }
    if a.IsIPv4() {
      WideIPv4(a);
    }
    if a.Wide() == written.Wide() {
      WideKeepsFamily(a, written);
    }
  }

  /** A prefix is refused exactly when it is a mapped one shorter than the mapping; a kept prefix is
      valid and masked, and keeps the bits that count. */
  lemma PrefixKept(written: Prefix)
    requires written.Valid()
    ensures WideBits(written) <= 128
    ensures OfPrefix(written).None? <==> written.addr.Is4In6() && written.bits < 96
    ensures OfPrefix(written).Some? ==>
      var kept := OfPrefix(written).value;
      && kept.Valid() && kept.Masked() == kept && kept.addr.V4? == written.addr.IsIPv4()
      && kept.addr.value / kept.HostSize() == written.addr.Unmap().value / kept.HostSize()
      && 128 - WideBits(written) == kept.addr.BitLen() - kept.bits
  {
    if OfPrefix(written).Some? {
      var kept := OfPrefix(written).value;
      MaskKeepsQuotient(written.addr.Unmap().value, kept.HostSize());
    }
  }

  /** The code's test on the kept prefix says what the written prefix covers. */
  lemma PrefixMeaning(written: Prefix, a: Addr)
    requires written.Valid() && a.Valid() && OfPrefix(written).Some?
    ensures OfPrefix(written).value.Valid() && WideBits(written) <= 128
    ensures OfPrefix(written).value.Contains(a.Unmap()) <==> PrefixCovers(written, a)
  {
    PrefixKept(written);
    var kept := OfPrefix(written).value;
    if written.addr.IsIPv4() && a.IsIPv4() {
      WideIPv4(written.addr);
      WideIPv4(a);
      MappedAgree(a.Unmap().value, written.addr.Unmap().value, 32 - kept.bits);
    }
  }

  // ---------- normalising twice ----------

  lemma FewHostBits(v: nat, w: nat, k: nat)
    requires k <= 32 && w / Pow2(k) == v / Pow2(k)
    ensures w / V4_LIMIT == v / V4_LIMIT
  {
    Pow2Of32();
    Pow2Splits(32 - k, k);
    QuotientOfQuotient(v, Pow2(k), Pow2(32 - k));
    QuotientOfQuotient(w, Pow2(k), Pow2(32 - k));
  }

  lemma ManyHostBits(w: nat, q: nat, k: nat)
    requires k > 32 && w == q * Pow2(k)
    ensures w / V4_LIMIT != MAPPED
  {
    var n := Pow2(k - 32);
    Pow2Of32();
    Pow2Splits(k - 32, 32);
    Associative(q, n, V4_LIMIT);
    DivideIs(w, V4_LIMIT, q * n, 0);
    Even(q, k - 32);
  }

  /** Masking turns no IPv6 address into a mapped one. */
  lemma MaskedIsNotMapped(v: nat, k: nat)
    requires v / V4_LIMIT != MAPPED
    ensures Cleared(v, Pow2(k)) / V4_LIMIT != MAPPED
  {
    var w := Cleared(v, Pow2(k));
    MaskKeepsQuotient(v, Pow2(k));
    if k <= 32 {
      FewHostBits(v, w, k);
    } else {
      ManyHostBits(w, v / Pow2(k), k);
    }
  }

  lemma Even(q: nat, n: nat)
    requires n > 0
    ensures q * Pow2(n) != MAPPED
  {
    Associative(q, 2, Pow2(n - 1));
    Associative(2, q, Pow2(n - 1));
    assert q * Pow2(n) == 2 * (q * Pow2(n - 1));
  }

  lemma QuotientOfQuotient(v: nat, m: nat, n: nat)
    requires m > 0 && n > 0
    ensures m * n > 0 && v / (n * m) == v / m / n
  {
    var a, b, c := v / m, v % m, v / m % n;
    var q := a / n;
    assert v == a * m + b;
    assert a == q * n + c;
    Recombine(a, b, q, c, m, n);
    Below(c, n, m, b);
    assert n * m > 0;
    DivideIs(v, n * m, q, c * m + b);
  }

  lemma Recombine(a: nat, b: nat, q: nat, c: nat, m: nat, n: nat)
    requires a == q * n + c
    ensures a * m + b == q * (n * m) + (c * m + b)
  {
    Distribute(q * n, c, m);
    Associative(q, n, m);
  }

  lemma Distribute(x: nat, y: nat, z: nat)
    ensures (x + y) * z == x * z + y * z
  {
  }

  lemma Below(c: nat, n: nat, m: nat, b: nat)
    requires c < n && b < m
    ensures c * m + b < n * m
  {
    Distribute(c + 1, n - c - 1, m);
    Distribute(c, 1, m);
    Positive(n - c - 1, m);
  }

  /** A kept prefix is kept as it is. */
  lemma KeptIsKept(p: Prefix)
    requires p.Valid() && OfPrefix(p).Some?
    ensures OfPrefix(OfPrefix(p).value) == Some(OfPrefix(p).value)
  {
    var kept := OfPrefix(p).value;
    var address := p.addr.Unmap();
    MaskKeepsQuotient(address.value, kept.HostSize());
    if address.V6? {
      MaskedIsNotMapped(address.value, 128 - kept.bits);
    }
  }

  lemma KeptAddressIsKept(a: Addr)
    requires a.Valid()
    ensures OfPrefix(OfAddress(a)) == Some(OfAddress(a))
  {
    assert OfAddress(a).HostSize() == 1;
  }
}
