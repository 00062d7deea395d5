/** Addresses and prefixes, as far as package netip decides lookups.  An address
    is its bits from the most significant one; a prefix keeps the whole address
    it was written with. */
module Net {
  import opened Orders

  datatype Addr = Addr(v6: bool, bits: seq<bool>, zone: string)

  /** NoPrefix is the zero netip.Prefix, the configuration's "any client". */
  datatype Prefix = NoPrefix | Prefix(v6: bool, ip: seq<bool>, len: nat)

  function Width(v6: bool): nat {
    if v6 then 128 else 32
  }

  predicate ValidAddr(a: Addr) {
    |a.bits| == Width(a.v6) && (a.zone != "" ==> a.v6)
  }

  predicate ValidPrefix(p: Prefix) {
    p.Prefix? ==> |p.ip| == Width(p.v6) && p.len <= |p.ip|
  }

  /** The address with the bits after len cleared. */
  function MaskedIP(p: Prefix): seq<bool>
    requires p.Prefix?
  {
    seq(|p.ip|, i requires 0 <= i < |p.ip| => i < p.len && p.ip[i])
  }

  predicate IsMasked(p: Prefix) {
    p.Prefix? ==> MaskedIP(p) == p.ip
  }

  predicate IsSingleIP(p: Prefix) {
    p.Prefix? && p.len == Width(p.v6)
  }

  /** netip.Prefix.Contains: same family, no zone, same leading bits. */
  predicate Contains(p: Prefix, a: Addr) {
    && p.Prefix? && p.v6 == a.v6 && a.zone == ""
    && p.len <= |p.ip| && p.len <= |a.bits|
    && p.ip[..p.len] == a.bits[..p.len]
  }

  function CompareBits(a: seq<bool>, b: seq<bool>): int {
    Lex(CompareBools, -1, a, b)
  }

  /** netip.Prefix.Compare on non-empty prefixes: family, masked address, length,
      address. */
  function ComparePrefixes(p: Prefix, q: Prefix): int
    requires p.Prefix? && q.Prefix?
  {
    if p.v6 != q.v6 then (if q.v6 then -1 else 1)
    else if CompareBits(MaskedIP(p), MaskedIP(q)) != 0 then CompareBits(MaskedIP(p), MaskedIP(q))
    else if p.len != q.len then CompareInts(p.len, q.len)
    else CompareBits(p.ip, q.ip)
  }

  lemma BitsAreOrdered(a: seq<bool>, b: seq<bool>, c: seq<bool>)
    ensures CompareBits(a, b) == 0 <==> a == b
    ensures CompareBits(a, b) < 0 <==> CompareBits(b, a) > 0
    ensures CompareBits(a, b) < 0 && CompareBits(b, c) < 0 ==> CompareBits(a, c) < 0
  {
    BasicOrders();
    LexZero(CompareBools, -1, a, b);
    LexAntisymmetric(CompareBools, -1, a, b);
    if CompareBits(a, b) < 0 && CompareBits(b, c) < 0 {
      LexTransitive(CompareBools, -1, a, b, c);
    }
  }

  lemma ComparePrefixesIsTotal(p: Prefix, q: Prefix, r: Prefix)
    requires p.Prefix? && q.Prefix? && r.Prefix?
    ensures ComparePrefixes(p, q) == 0 <==> p == q
    ensures ComparePrefixes(p, q) < 0 <==> ComparePrefixes(q, p) > 0
    ensures ComparePrefixes(p, q) < 0 && ComparePrefixes(q, r) < 0 ==> ComparePrefixes(p, r) < 0
  {
    BitsAreOrdered(MaskedIP(p), MaskedIP(q), MaskedIP(r));
    BitsAreOrdered(MaskedIP(q), MaskedIP(p), MaskedIP(r));
    BitsAreOrdered(MaskedIP(q), MaskedIP(r), MaskedIP(r));
    BitsAreOrdered(MaskedIP(p), MaskedIP(r), MaskedIP(r));
    BitsAreOrdered(p.ip, q.ip, r.ip);
    BitsAreOrdered(q.ip, r.ip, r.ip);
    BitsAreOrdered(p.ip, r.ip, r.ip);
  }

  /** A masked prefix is at least as wide, or a bit for a bit equal one, when its
      bits lead those of another: then it sorts no later. */
  lemma {:induction false} BitsBelow(a: seq<bool>, b: seq<bool>)
    requires |a| == |b| && forall i :: 0 <= i < |a| ==> a[i] ==> b[i]
    ensures CompareBits(a, b) <= 0
  {
    if a != [] && a[0] == b[0] {
      BitsBelow(a[1..], b[1..]);
    }
  }

  /** Of two prefixes around one address the wider one sorts first, so sorting by
      ComparePrefixes does not put the most specific prefix first. */
  lemma WiderSortsFirst(p: Prefix, q: Prefix, a: Addr)
    requires ValidPrefix(p) && ValidPrefix(q) && Contains(p, a) && Contains(q, a) && p.len < q.len
    ensures ComparePrefixes(p, q) < 0
  {
    forall i | 0 <= i < |p.ip|
      ensures MaskedIP(p)[i] ==> MaskedIP(q)[i]
    {
      if i < p.len {
        assert p.ip[i] == p.ip[..p.len][i] == a.bits[..p.len][i];
        assert q.ip[i] == q.ip[..q.len][i] == a.bits[..q.len][i];
      }
    }
    BitsBelow(MaskedIP(p), MaskedIP(q));
  }

  /** Masked prefixes of one length around one address are equal. */
  lemma SameLengthSamePrefix(p: Prefix, q: Prefix, a: Addr)
    requires ValidPrefix(p) && ValidPrefix(q) && IsMasked(p) && IsMasked(q)
    requires Contains(p, a) && Contains(q, a) && p.len == q.len
    ensures p == q
  {
    forall i | 0 <= i < |p.ip|
      ensures p.ip[i] == q.ip[i]
    {
      assert MaskedIP(p)[i] == (i < p.len && p.ip[i]) && MaskedIP(q)[i] == (i < q.len && q.ip[i]);
      if i < p.len {
        assert p.ip[i] == p.ip[..p.len][i] == a.bits[..p.len][i];
        assert q.ip[i] == q.ip[..q.len][i] == a.bits[..q.len][i];
      }
    }
  }

  // ---- Addresses as numbers ----

  /** The number that the bits spell. */
  function ToNat(bits: seq<bool>): nat {
    if bits == [] then 0
    else 2 * ToNat(bits[..|bits| - 1]) + if bits[|bits| - 1] then 1 else 0
  }

  function Pow2(n: nat): (r: nat)
    ensures r > 0
  {
    if n == 0 then 1 else 2 * Pow2(n - 1)
  }

  lemma {:induction false} ToNatIsInjective(a: seq<bool>, b: seq<bool>)
    requires |a| == |b| && ToNat(a) == ToNat(b)
    ensures a == b
  {
    if a != [] {
      var n := |a| - 1;
      ToNatIsInjective(a[..n], b[..n]);
      assert a == a[..n] + [a[n]] && b == b[..n] + [b[n]];
    }
  }

  lemma {:induction false} ToNatBelow(a: seq<bool>)
    ensures ToNat(a) < Pow2(|a|)
  {
    if a != [] {
      ToNatBelow(a[..|a| - 1]);
    }
  }

  lemma Doubled(h: nat, m: nat)
    ensures h * (2 * m) == 2 * (h * m)
  {
  }

  lemma {:induction false} ToNatOfConcat(a: seq<bool>, b: seq<bool>)
    ensures ToNat(a + b) == ToNat(a) * Pow2(|b|) + ToNat(b)
  {
    if b == [] {
      assert a + b == a;
    } else {
      var n := |b| - 1;
      assert (a + b)[..|a + b| - 1] == a + b[..n] && (a + b)[|a + b| - 1] == b[n];
      ToNatOfConcat(a, b[..n]);
      Doubled(ToNat(a), Pow2(n));
    }
  }

  lemma {:induction false} ToNatOfZeros(a: seq<bool>)
    requires forall i :: 0 <= i < |a| ==> !a[i]
    ensures ToNat(a) == 0
  {
    if a != [] {
      ToNatOfZeros(a[..|a| - 1]);
    }
  }

  /** The order of addresses of one family is that of their numbers. */
  lemma {:induction false} BitsCompareAsNumbers(a: seq<bool>, b: seq<bool>)
    requires |a| == |b|
    ensures CompareBits(a, b) < 0 <==> ToNat(a) < ToNat(b)
  {
    if a != [] {
      var x, y := a[1..], b[1..];
      assert a == [a[0]] + x && b == [b[0]] + y;
      ToNatOfConcat([a[0]], x);
      ToNatOfConcat([b[0]], y);
      ToNatBelow(x);
      ToNatBelow(y);
      BitsCompareAsNumbers(x, y);
    }
  }

  /** Blocks of m numbers: h is the number of the block of n. */
  lemma InBlock(h: nat, n: nat, g: nat, l: nat, m: nat)
    requires n == g * m + l && l < m
    ensures h * m <= n < h * m + m <==> h == g
  {
    if h < g {
      assert (h + 1) * m <= g * m;
    } else if h > g {
      assert (g + 1) * m <= h * m;
    }
  }

  /** A single address is a prefix that contains no two of them. */
  lemma SingleIPIffOneAddress(p: Prefix)
    requires p.Prefix? && ValidPrefix(p) && IsMasked(p)
    ensures IsSingleIP(p) <==>
      forall a, b :: ValidAddr(a) && ValidAddr(b) && Contains(p, a) && Contains(p, b) ==> a == b
  {
    if IsSingleIP(p) {
      forall a, b | ValidAddr(a) && ValidAddr(b) && Contains(p, a) && Contains(p, b)
        ensures a == b
      {
        assert a.bits == a.bits[..p.len] == p.ip[..p.len] == b.bits[..p.len] == b.bits;
      }
    } else {
      var n := |p.ip| - 1;
      var a, b := Addr(p.v6, p.ip, ""), Addr(p.v6, p.ip[n := !p.ip[n]], "");
      assert b.bits[..p.len] == p.ip[..p.len] && a.bits[n] != b.bits[n];
      assert Contains(p, a) && Contains(p, b) && a != b;
    }
  }

  /** Equal leading bits put a number in the block that starts where the others are
      zero. */
  lemma SameLeadIffInBlock(x: seq<bool>, y: seq<bool>, n: nat)
    requires |x| == |y| && n <= |x| && ToNat(x[n..]) == 0
    ensures x[..n] == y[..n] <==> ToNat(x) <= ToNat(y) < ToNat(x) + Pow2(|x| - n)
  {
    assert x == x[..n] + x[n..] && y == y[..n] + y[n..];
    ToNatOfConcat(x[..n], x[n..]);
    ToNatOfConcat(y[..n], y[n..]);
    ToNatBelow(y[n..]);
    InBlock(ToNat(x[..n]), ToNat(y), ToNat(y[..n]), ToNat(y[n..]), Pow2(|x| - n));
    if ToNat(x[..n]) == ToNat(y[..n]) {
      ToNatIsInjective(x[..n], y[..n]);
    }
  }

  /** A masked prefix is an aligned block of addresses: it contains exactly the zone-free
      addresses of its family from its own on. */
  lemma ContainsIffInBlock(p: Prefix, a: Addr)
    requires p.Prefix? && ValidPrefix(p) && ValidAddr(a)
    ensures IsMasked(p) <==> ToNat(p.ip) % Pow2(|p.ip| - p.len) == 0
    ensures IsMasked(p) ==>
      (Contains(p, a) <==> && p.v6 == a.v6 && a.zone == ""
                           && ToNat(p.ip) <= ToNat(a.bits) < ToNat(p.ip) + Pow2(|p.ip| - p.len))
  {
    MaskedIffZeros(p);
    if p.v6 == a.v6 && IsMasked(p) {
      SameLeadIffInBlock(p.ip, a.bits, p.len);
    }
  }

  lemma ZerosIfMasked(p: Prefix)
    requires p.Prefix? && ValidPrefix(p) && IsMasked(p)
    ensures ToNat(p.ip[p.len..]) == 0
  {
    var low := p.ip[p.len..];
    forall i | 0 <= i < |low|
      ensures !low[i]
    {
      assert MaskedIP(p)[p.len + i] == p.ip[p.len + i];
    }
    ToNatOfZeros(low);
  }

  lemma MaskedIfZeros(p: Prefix)
    requires p.Prefix? && ValidPrefix(p) && ToNat(p.ip[p.len..]) == 0
    ensures IsMasked(p)
  {
    var low := p.ip[p.len..];
    var zeros := seq(|low|, _ => false);
    ToNatOfZeros(zeros);
    ToNatIsInjective(low, zeros);
    assert forall i :: p.len <= i < |p.ip| ==> p.ip[i] == low[i - p.len];
    assert MaskedIP(p) == p.ip;
  }

  lemma MaskedIffZeros(p: Prefix)
    requires p.Prefix? && ValidPrefix(p)
    ensures IsMasked(p) <==> ToNat(p.ip[p.len..]) == 0
    ensures IsMasked(p) <==> ToNat(p.ip) % Pow2(|p.ip| - p.len) == 0
  {
    var low := p.ip[p.len..];
    if IsMasked(p) {
      ZerosIfMasked(p);
    } else if ToNat(low) == 0 {
      MaskedIfZeros(p);
    }
    assert p.ip == p.ip[..p.len] + low;
    ToNatOfConcat(p.ip[..p.len], low);
    ToNatBelow(low);
    RemainderOfBlock(ToNat(p.ip[..p.len]), ToNat(low), Pow2(|low|));
  }

  lemma RemainderOfBlock(h: nat, l: nat, m: nat)
    requires l < m
    ensures (h * m + l) % m == l
  {
    var n := h * m + l;
    InBlock(h, n, n / m, n % m, m);
  }

  /** The order of masked prefixes: IPv4 first, then by the number of the address, then
      the wider prefix first. */
  lemma ComparePrefixesIs(p: Prefix, q: Prefix)
    requires p.Prefix? && q.Prefix? && ValidPrefix(p) && ValidPrefix(q) && IsMasked(p) && IsMasked(q)
    ensures ComparePrefixes(p, q) < 0 <==>
      || (!p.v6 && q.v6)
      || (p.v6 == q.v6 && (ToNat(p.ip) < ToNat(q.ip) || (p.ip == q.ip && p.len < q.len)))
  {
    if p.v6 == q.v6 {
      BitsCompareAsNumbers(p.ip, q.ip);
      BitsAreOrdered(p.ip, q.ip, p.ip);
    }
  }
}
