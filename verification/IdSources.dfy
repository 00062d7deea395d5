/** DefaultHumanIDSource: IDs built from the address alone. */
module IdSources {
  import opened Net
  import opened HumanIDs

  function Decimal(n: nat): (s: string)
    ensures s != "" && forall i :: 0 <= i < |s| ==> '0' <= s[i] <= '9'
  {
    if n < 10 then ['0' + n as char] else Decimal(n / 10) + ['0' + (n % 10) as char]
  }

  function HexDigit(bits: seq<bool>): (c: char)
    requires |bits| == 4
    ensures '0' <= c <= '9' || 'a' <= c <= 'f'
  {
    var n := ToNat(bits);
    assert n < 16 by { NatBound(bits); }
    if n < 10 then '0' + n as char else 'a' + (n - 10) as char
  }

  lemma {:induction false} NatBound(bits: seq<bool>)
    ensures |bits| <= 4 ==> ToNat(bits) < 16
    ensures |bits| <= 3 ==> ToNat(bits) < 8
    ensures |bits| <= 2 ==> ToNat(bits) < 4
    ensures |bits| <= 1 ==> ToNat(bits) < 2
  {
    if bits != [] {
      NatBound(bits[..|bits| - 1]);
    }
  }

  function Hex(bits: seq<bool>): (s: string)
    requires |bits| % 4 == 0
    ensures |s| == |bits| / 4 && forall i :: 0 <= i < |s| ==> '0' <= s[i] <= '9' || 'a' <= s[i] <= 'f'
  {
    if bits == [] then "" else [HexDigit(bits[..4])] + Hex(bits[4..])
  }

  /** Octets in decimal, joined by dots. */
  function DottedDecimal(bits: seq<bool>): string
    requires |bits| % 8 == 0
  {
    if |bits| <= 8 then Decimal(ToNat(bits)) else Decimal(ToNat(bits[..8])) + "." + DottedDecimal(bits[8..])
  }

  /** Groups of four hexadecimal digits, joined by colons. */
  function HexGroups(bits: seq<bool>): string
    requires |bits| % 16 == 0
  {
    if bits == [] then ""
    else if |bits| == 16 then Hex(bits)
    else
      assert |bits| == 16 * (|bits| / 16) && |bits[16..]| == 16 * (|bits| / 16 - 1);
      Hex(bits[..16]) + ":" + HexGroups(bits[16..])
  }

  /** netip.Addr.Unmap: an IPv4-mapped IPv6 address becomes the IPv4 address. */
  function Unmap(a: Addr): Addr {
    if a.v6 && |a.bits| == 128 && IsMapped(a.bits) then Addr(false, a.bits[96..], "") else a
  }

  predicate IsMapped(bits: seq<bool>)
    requires |bits| == 128
  {
    forall i :: 0 <= i < 96 ==> bits[i] == (i >= 80)
  }

  /** netip.Addr.StringExpanded. */
  function StringExpanded(a: Addr): string
    requires ValidAddr(a)
  {
    if !a.v6 then DottedDecimal(a.bits)
    else HexGroups(a.bits) + if a.zone == "" then "" else "%" + a.zone
  }

  /** The ID DefaultHumanIDSource gives an address. */
  function DefaultID(addr: Addr): string
    requires ValidAddr(addr)
  {
    var a := Unmap(addr);
    "dev-" + Dashed(StringExpanded(a), if a.v6 then ':' else '.')
  }

  function DecimalValue(s: string): int {
    if s == "" then 0 else 10 * DecimalValue(s[..|s| - 1]) + (s[|s| - 1] as int - '0' as int)
  }

  lemma {:induction false} DecimalReadsBack(n: nat)
    ensures DecimalValue(Decimal(n)) == n
  {
    var s := Decimal(n);
    if n < 10 {
      assert s[..0] == "";
    } else {
      DecimalReadsBack(n / 10);
      assert s[..|s| - 1] == Decimal(n / 10);
    }
  }

  /** Strings joined by a separator that is in neither first part. */
  lemma SplitAtSeparator(c: char, x: string, r: string, y: string, t: string)
    requires c !in x && c !in y && x + [c] + r == y + [c] + t
    ensures x == y && r == t
  {
    var s := x + [c] + r;
    assert s[|x|] == c && s[|y|] == c;
    assert forall i :: 0 <= i < |x| ==> s[i] == x[i] && x[i] in x;
    assert forall i :: 0 <= i < |y| ==> s[i] == y[i] && y[i] in y;
    assert |x| == |y|;
    assert x == s[..|x|] && y == s[..|y|];
    assert r == s[|x| + 1..] && t == s[|y| + 1..];
  }

  lemma {:induction false} DottedDecimalIsInjective(a: seq<bool>, b: seq<bool>)
    requires |a| == |b| && |a| % 8 == 0 && DottedDecimal(a) == DottedDecimal(b)
    ensures a == b
    decreases |a|
  {
    if |a| <= 8 {
      DecimalReadsBack(ToNat(a));
      DecimalReadsBack(ToNat(b));
      ToNatIsInjective(a, b);
    } else {
      var x, y := Decimal(ToNat(a[..8])), Decimal(ToNat(b[..8]));
      SplitAtSeparator('.', x, DottedDecimal(a[8..]), y, DottedDecimal(b[8..]));
      DecimalReadsBack(ToNat(a[..8]));
      DecimalReadsBack(ToNat(b[..8]));
      ToNatIsInjective(a[..8], b[..8]);
      DottedDecimalIsInjective(a[8..], b[8..]);
      assert a == a[..8] + a[8..] && b == b[..8] + b[8..];
    }
  }

  lemma {:induction false} HexIsInjective(a: seq<bool>, b: seq<bool>)
    requires |a| == |b| && |a| % 4 == 0 && Hex(a) == Hex(b)
    ensures a == b
  {
    if a != [] {
      assert Hex(a)[0] == HexDigit(a[..4]) && Hex(b)[0] == HexDigit(b[..4]);
      NatBound(a[..4]);
      NatBound(b[..4]);
      ToNatIsInjective(a[..4], b[..4]);
      assert Hex(a)[1..] == Hex(a[4..]) && Hex(b)[1..] == Hex(b[4..]);
      HexIsInjective(a[4..], b[4..]);
      assert a == a[..4] + a[4..] && b == b[..4] + b[4..];
    }
  }

  lemma {:induction false} HexGroupsIsInjective(a: seq<bool>, b: seq<bool>)
    requires |a| == |b| && |a| % 16 == 0 && HexGroups(a) == HexGroups(b)
    ensures a == b
    decreases |a|
  {
    if |a| <= 16 {
      HexIsInjective(a, b);
    } else {
      SplitAtSeparator(':', Hex(a[..16]), HexGroups(a[16..]), Hex(b[..16]), HexGroups(b[16..]));
      HexIsInjective(a[..16], b[..16]);
      HexGroupsIsInjective(a[16..], b[16..]);
      assert a == a[..16] + a[16..] && b == b[..16] + b[16..];
    }
  }

  /** Segments of letters and digits, joined by single hyphens. */
  predicate IsSegmented(s: string) {
    && s != "" && IsOuter(s[0]) && IsOuter(s[|s| - 1])
    && (forall i :: 0 <= i < |s| ==> IsInner(s[i]))
    && (forall i :: 0 <= i < |s| - 1 ==> IsOuter(s[i]) || IsOuter(s[i + 1]))
  }

  lemma JoinedIsSegmented(x: string, y: string)
    requires IsSegmented(x) && IsSegmented(y)
    ensures IsSegmented(x + "-" + y)
  {
    var s := x + "-" + y;
    forall i | 0 <= i < |s|
      ensures IsInner(s[i])
      ensures i < |s| - 1 ==> IsOuter(s[i]) || IsOuter(s[i + 1])
    {
      if i > |x| {
        assert s[i] == y[i - |x| - 1];
        assert i < |s| - 1 ==> s[i + 1] == y[i - |x|];
      }
    }
    assert s[|s| - 1] == y[|y| - 1];
  }

  lemma SegmentedIsHumanID(s: string)
    requires IsSegmented(s) && |s| <= MAX_HUMAN_ID_LEN
    ensures IsHumanID(s)
  {
    if i :| 0 <= i < |s| && TripleHyphenAt(s, i) {
      assert IsOuter(s[i]) || IsOuter(s[i + 1]);
    }
  }

  lemma DashedJoin(x: string, y: string, c: char)
    requires c !in x
    ensures Dashed(x + [c] + y, c) == x + "-" + Dashed(y, c)
  {
  }

  lemma DashedPlain(x: string, c: char)
    requires c !in x
    ensures Dashed(x, c) == x
  {
  }

  lemma DecimalLength(n: nat)
    requires n < 256
    ensures |Decimal(n)| <= 3
  {
    if n >= 10 {
      var m := n / 10;
      assert |Decimal(n)| == |Decimal(m)| + 1;
      if m >= 10 {
        assert m / 10 < 10 && |Decimal(m)| == |Decimal(m / 10)| + 1;
      }
    }
  }

  lemma {:induction false} OctetBound(bits: seq<bool>)
    requires |bits| == 8
    ensures ToNat(bits) < 256
  {
    assert bits[..7][..6] == bits[..6] && bits[..6][..5] == bits[..5] && bits[..5][..4] == bits[..4];
    NatBound(bits[..4]);
    assert ToNat(bits[..5]) < 32;
    assert ToNat(bits[..6]) < 64;
    assert ToNat(bits[..7]) < 128;
  }

  lemma OctetIsSegmented(bits: seq<bool>)
    requires |bits| == 8
    ensures var x := Decimal(ToNat(bits)); |x| <= 3 && '.' !in x && Dashed(x, '.') == x && IsSegmented(x)
  {
    OctetBound(bits);
    DecimalLength(ToNat(bits));
    DashedPlain(Decimal(ToNat(bits)), '.');
  }

  lemma {:induction false} DottedDecimalIsSegmented(bits: seq<bool>)
    requires |bits| % 8 == 0 && bits != []
    ensures IsSegmented(Dashed(DottedDecimal(bits), '.'))
    ensures |DottedDecimal(bits)| <= |bits| / 2
    decreases |bits|
  {
    OctetIsSegmented(bits[..8]);
    if |bits| == 8 {
      assert bits[..8] == bits;
    } else {
      var x, y := Decimal(ToNat(bits[..8])), DottedDecimal(bits[8..]);
      DottedDecimalIsSegmented(bits[8..]);
      DashedJoin(x, y, '.');
      JoinedIsSegmented(x, Dashed(y, '.'));
      assert DottedDecimal(bits) == x + "." + y;
    }
  }

  lemma {:induction false} HexGroupsIsSegmented(bits: seq<bool>)
    requires |bits| % 16 == 0 && bits != []
    ensures IsSegmented(Dashed(HexGroups(bits), ':'))
    ensures |HexGroups(bits)| == |bits| / 16 * 5 - 1
    decreases |bits|
  {
    if |bits| == 16 {
      DashedPlain(Hex(bits), ':');
    } else {
      var x := Hex(bits[..16]);
      HexGroupsIsSegmented(bits[16..]);
      DashedJoin(x, HexGroups(bits[16..]), ':');
      JoinedIsSegmented(x, Dashed(HexGroups(bits[16..]), ':'));
    }
  }

  lemma DevIsSegmented()
    ensures IsSegmented("dev")
  {
    var s := "dev";
    assert s[0] == 'd' && s[1] == 'e' && s[2] == 'v';
  }

  lemma ZonelessIDIsValid(addr: Addr)
    requires ValidAddr(addr) && Unmap(addr).zone == ""
    ensures IsHumanID(DefaultID(addr))
  {
    var a := Unmap(addr);
    var d := Dashed(StringExpanded(a), if a.v6 then ':' else '.');
    if a.v6 {
      assert StringExpanded(a) == HexGroups(a.bits);
      HexGroupsIsSegmented(a.bits);
    } else {
      DottedDecimalIsSegmented(a.bits);
    }
    DevIsSegmented();
    JoinedIsSegmented("dev", d);
    assert "dev" + "-" + d == "dev-" + d;
    SegmentedIsHumanID("dev-" + d);
  }

  lemma ZoneIsInvalid(addr: Addr)
    requires ValidAddr(addr) && Unmap(addr).zone != ""
    ensures !IsHumanID(DefaultID(addr))
  {
    var a := Unmap(addr);
    var k := |HexGroups(a.bits)|;
    assert StringExpanded(a)[k] == '%';
    assert DefaultID(addr)[4 + k] == '%';
  }

  /** Although the source never calls newHumanID, each ID it makes passes it, unless
      the address has a zone. */
  lemma DefaultIDIsValidIff(addr: Addr)
    requires ValidAddr(addr)
    ensures IsHumanID(DefaultID(addr)) <==> Unmap(addr).zone == ""
  {
    if Unmap(addr).zone == "" {
      ZonelessIDIsValid(addr);
    } else {
      ZoneIsInvalid(addr);
    }
  }

  lemma DashedIsInjective(x: string, y: string, c: char)
    requires '-' !in x && '-' !in y && Dashed(x, c) == Dashed(y, c)
    ensures x == y
  {
    forall i | 0 <= i < |x|
      ensures x[i] == y[i]
    {
      assert Dashed(x, c)[i] == Dashed(y, c)[i] && x[i] in x && y[i] in y;
    }
  }

  lemma {:induction false} NoHyphensInDecimal(bits: seq<bool>)
    requires |bits| % 8 == 0
    ensures '-' !in DottedDecimal(bits)
    decreases |bits|
  {
    if |bits| > 8 {
      NoHyphensInDecimal(bits[8..]);
    }
  }

  lemma {:induction false} NoHyphensInHex(bits: seq<bool>)
    requires |bits| % 16 == 0
    ensures '-' !in HexGroups(bits)
    decreases |bits|
  {
    if |bits| > 16 {
      NoHyphensInHex(bits[16..]);
    }
  }

  lemma PlainExpanded(a: Addr)
    requires ValidAddr(a) && a.zone == ""
    ensures '-' !in StringExpanded(a)
    ensures if a.v6 then |StringExpanded(a)| == 39 && StringExpanded(a) == HexGroups(a.bits)
            else |StringExpanded(a)| <= 16
  {
    if a.v6 {
      assert StringExpanded(a) == HexGroups(a.bits);
      NoHyphensInHex(a.bits);
      HexGroupsIsSegmented(a.bits);
    } else {
      NoHyphensInDecimal(a.bits);
      DottedDecimalIsSegmented(a.bits);
    }
  }

  /** Different addresses, zone-free and unmapped as the storage gets them, have
      different IDs. */
  lemma DefaultIDIsInjective(a: Addr, b: Addr)
    requires ValidAddr(a) && ValidAddr(b) && a.zone == "" && b.zone == ""
    requires Unmap(a) == a && Unmap(b) == b
    requires DefaultID(a) == DefaultID(b)
    ensures a == b
  {
    var da, db := DefaultID(a)[4..], DefaultID(b)[4..];
    PlainExpanded(a);
    PlainExpanded(b);
    assert |StringExpanded(a)| == |da| == |db| == |StringExpanded(b)|;
    var c := if a.v6 then ':' else '.';
    assert da == Dashed(StringExpanded(a), c) && db == Dashed(StringExpanded(b), c);
    DashedIsInjective(StringExpanded(a), StringExpanded(b), c);
    if a.v6 {
      HexGroupsIsInjective(a.bits, b.bits);
    } else {
      DottedDecimalIsInjective(a.bits, b.bits);
    }
  }

  // ---- The ID character by character ----

  function Bit(b: bool): nat {
    if b then 1 else 0
  }

  /** The four bits from i on as a number. */
  function Nibble(bits: seq<bool>, i: nat): (n: nat)
    requires i + 4 <= |bits|
    ensures n < 16
  {
    8 * Bit(bits[i]) + 4 * Bit(bits[i + 1]) + 2 * Bit(bits[i + 2]) + Bit(bits[i + 3])
  }

  lemma NibbleIsToNat(bits: seq<bool>)
    requires |bits| == 4
    ensures ToNat(bits) == Nibble(bits, 0)
  {
    assert bits[..3][..2] == bits[..2] && bits[..2][..1] == bits[..1] && bits[..1][..0] == [];
    assert ToNat(bits[..1]) == Bit(bits[0]);
    assert ToNat(bits[..2]) == 2 * Bit(bits[0]) + Bit(bits[1]);
    assert ToNat(bits[..3]) == 4 * Bit(bits[0]) + 2 * Bit(bits[1]) + Bit(bits[2]);
  }

  /** An octet is its high nibble and its low one. */
  lemma OctetIsToNat(bits: seq<bool>)
    requires |bits| == 8
    ensures ToNat(bits) == 16 * Nibble(bits, 0) + Nibble(bits, 4)
  {
    assert bits == bits[..4] + bits[4..];
    ToNatOfConcat(bits[..4], bits[4..]);
    NibbleIsToNat(bits[..4]);
    NibbleIsToNat(bits[4..]);
    assert Pow2(4) == 2 * Pow2(3) == 4 * Pow2(2) == 8 * Pow2(1) == 16;
  }

  /** s is n in decimal: digits without a leading zero that read back as n. */
  predicate IsDecimal(s: string, n: nat) {
    && s != "" && (forall i :: 0 <= i < |s| ==> '0' <= s[i] <= '9')
    && (s[0] == '0' ==> s == "0") && DecimalValue(s) == n
  }

  lemma {:induction false} DecimalIsDecimal(n: nat)
    ensures IsDecimal(Decimal(n), n) && (n > 0 ==> Decimal(n)[0] != '0')
  {
    DecimalReadsBack(n);
    if n >= 10 {
      DecimalIsDecimal(n / 10);
    }
  }

  lemma NibbleFrom(bits: seq<bool>, n: nat, i: nat)
    requires n + i + 4 <= |bits|
    ensures Nibble(bits[n..], i) == Nibble(bits, n + i)
  {
  }

  /** The k-th octet. */
  function Octet(bits: seq<bool>, k: nat): nat
    requires 8 * k + 8 <= |bits|
  {
    16 * Nibble(bits, 8 * k) + Nibble(bits, 8 * k + 4)
  }

  lemma FirstOctet(bits: seq<bool>, k: nat)
    requires 8 * k + 8 <= |bits|
    ensures ToNat(bits[8 * k..][..8]) == Octet(bits, k)
  {
    var octet := bits[8 * k..][..8];
    OctetIsToNat(octet);
    assert forall i :: 0 <= i < 8 ==> octet[i] == bits[8 * k + i];
  }

  lemma DashedOctet(bits: seq<bool>, k: nat)
    requires 8 * k + 8 <= |bits| && |bits| % 8 == 0
    ensures var text := Dashed(DottedDecimal(bits[8 * k..]), '.');
      text == Decimal(Octet(bits, k))
              + if 8 * k + 8 == |bits| then "" else "-" + Dashed(DottedDecimal(bits[8 * k + 8..]), '.')
  {
    var rest := bits[8 * k..];
    var x := Decimal(ToNat(rest[..8]));
    FirstOctet(bits, k);
    DashedPlain(x, '.');
    if 8 * k + 8 == |bits| {
      assert rest[..8] == rest;
    } else {
      assert rest[8..] == bits[8 * k + 8..];
      DashedJoin(x, DottedDecimal(rest[8..]), '.');
    }
  }

  /** The ID of an IPv4 address: "dev-" and its four octets in decimal, first to last,
      joined by hyphens. */
  lemma IPv4DefaultID(a: Addr)
    requires ValidAddr(a) && !a.v6
    ensures forall k :: 0 <= k < 4 ==> IsDecimal(Decimal(Octet(a.bits, k)), Octet(a.bits, k))
    ensures DefaultID(a) == "dev-" + (Decimal(Octet(a.bits, 0)) + ("-" + (Decimal(Octet(a.bits, 1)) +
                            ("-" + (Decimal(Octet(a.bits, 2)) + ("-" + Decimal(Octet(a.bits, 3))))))))
  {
    forall k | 0 <= k < 4
      ensures IsDecimal(Decimal(Octet(a.bits, k)), Octet(a.bits, k))
    {
      DecimalIsDecimal(Octet(a.bits, k));
    }
    DashedOctets(a.bits);
  }

  lemma DashedOctets(bits: seq<bool>)
    requires |bits| == 32
    ensures Dashed(DottedDecimal(bits), '.') ==
            Decimal(Octet(bits, 0)) + ("-" + (Decimal(Octet(bits, 1)) +
            ("-" + (Decimal(Octet(bits, 2)) + ("-" + Decimal(Octet(bits, 3)))))))
  {
    assert bits[0..] == bits;
    DashedOctet(bits, 0);
    DashedOctet(bits, 1);
    DashedOctet(bits, 2);
    DashedOctet(bits, 3);
    assert Decimal(Octet(bits, 3)) + "" == Decimal(Octet(bits, 3));
  }

  lemma DropOfConcat<T>(a: seq<T>, b: seq<T>, n: nat)
    requires n <= |a|
    ensures (a + b)[..n] == a[..n] && (a + b)[n..] == a[n..] + b
  {
  }

  lemma {:induction false} HexGroupsOfConcat(a: seq<bool>, b: seq<bool>)
    requires |a| % 16 == 0 && |b| % 16 == 0 && a != [] && b != []
    ensures HexGroups(a + b) == HexGroups(a) + (":" + HexGroups(b))
    decreases |a|
  {
    DropOfConcat(a, b, 16);
    if |a| == 16 {
      assert a[..16] == a && a[16..] + b == b;
    } else {
      HexGroupsOfConcat(a[16..], b);
    }
  }

  /** Before the text of the later groups there are five characters for each of the first
      g ones. */
  lemma HexGroupsBefore(bits: seq<bool>, m: nat, g: nat) returns (first: string)
    requires |bits| == 16 * m && g < m
    ensures |first| == 5 * g && HexGroups(bits) == first + HexGroups(bits[16 * g..])
  {
    var head, tail := bits[..16 * g], bits[16 * g..];
    assert head + tail == bits;
    if g == 0 {
      first := "";
      assert tail == bits;
    } else {
      HexGroupsOfConcat(head, tail);
      HexGroupsIsSegmented(head);
      first := HexGroups(head) + ":";
    }
  }

  lemma FirstGroup(bits: seq<bool>)
    requires |bits| % 16 == 0 && bits != []
    ensures |HexGroups(bits)| >= 4 && HexGroups(bits)[..4] == Hex(bits[..16])
    ensures |bits| > 16 ==> |HexGroups(bits)| > 4 && HexGroups(bits)[4] == ':'
  {
    assert |bits| == 16 ==> bits[..16] == bits;
  }

  lemma {:induction false} HexAt(bits: seq<bool>, i: nat)
    requires |bits| % 4 == 0 && i < |bits| / 4
    ensures Hex(bits)[i] == "0123456789abcdef"[Nibble(bits, 4 * i)]
  {
    if i == 0 {
      NibbleIsToNat(bits[..4]);
      HexDigitIs(bits[..4]);
    } else {
      HexAt(bits[4..], i - 1);
      NibbleFrom(bits, 4, 4 * (i - 1));
    }
  }

  lemma HexDigitIs(bits: seq<bool>)
    requires |bits| == 4
    ensures HexDigit(bits) == "0123456789abcdef"[Nibble(bits, 0)]
  {
    NibbleIsToNat(bits);
    NatBound(bits);
  }

  /** The ID of another IPv6 address without a zone: "dev-" and eight groups of four
      hexadecimal digits, first to last, joined by hyphens. */
  lemma IPv6DefaultID(a: Addr, g: nat, j: nat)
    requires ValidAddr(a) && a.v6 && a.zone == "" && Unmap(a) == a && g < 8 && j < 4
    ensures |DefaultID(a)| == 43 && DefaultID(a)[..4] == "dev-"
    ensures DefaultID(a)[4 + 5 * g + j] == "0123456789abcdef"[Nibble(a.bits, 16 * g + 4 * j)]
    ensures g < 7 ==> DefaultID(a)[4 + 5 * g + 4] == '-'
  {
    PlainExpanded(a);
    HexGroupsAt(a.bits, g, j);
    DashedID(DefaultID(a), HexGroups(a.bits), 5 * g + j);
    if g < 7 {
      DashedID(DefaultID(a), HexGroups(a.bits), 5 * g + 4);
    }
  }

  lemma DashedID(id: string, text: string, i: nat)
    requires id == "dev-" + Dashed(text, ':') && i < |text|
    ensures |id| == 4 + |text| && id[..4] == "dev-" && id[4 + i] == if text[i] == ':' then '-' else text[i]
  {
  }

  lemma HexGroupsAt(bits: seq<bool>, g: nat, j: nat)
    requires |bits| == 128 && g < 8 && j < 4
    ensures var text := HexGroups(bits);
      && |text| == 39 && text[5 * g + j] == "0123456789abcdef"[Nibble(bits, 16 * g + 4 * j)] != ':'
      && (g < 7 ==> text[5 * g + 4] == ':')
  {
    var rest := HexGroups(bits[16 * g..]);
    var first := HexGroupsBefore(bits, 8, g);
    HexGroupsIsSegmented(bits);
    FirstGroup(bits[16 * g..]);
    GroupDigit(rest[..4], bits, g, j);
  }

  lemma GroupDigit(group: string, bits: seq<bool>, g: nat, j: nat)
    requires 16 * g + 16 <= |bits| && j < 4 && group == Hex(bits[16 * g..][..16])
    ensures group[j] == "0123456789abcdef"[Nibble(bits, 16 * g + 4 * j)] != ':'
  {
    var four := bits[16 * g..][..16];
    HexAt(four, j);
    assert forall i :: 0 <= i < 16 ==> four[i] == bits[16 * g + i];
    HexDigitsAreNoColons(Nibble(bits, 16 * g + 4 * j));
  }

  lemma HexDigitsAreNoColons(n: nat)
    requires n < 16
    ensures "0123456789abcdef"[n] != ':'
  {
  }

  /** An IPv4-mapped address has the ID of the IPv4 address. */
  lemma MappedDefaultID(a: Addr)
    requires a.v6 && |a.bits| == 128 && (forall i :: 0 <= i < 80 ==> !a.bits[i]) && (forall i :: 80 <= i < 96 ==> a.bits[i])
    ensures DefaultID(a) == DefaultID(Addr(false, a.bits[96..], ""))
  {
  }

  /** An address with a zone has the ID of the address without it, then a percent sign and
      the zone with hyphens for colons. */
  lemma ZonedDefaultID(a: Addr)
    requires ValidAddr(a) && a.zone != "" && Unmap(a) == a
    ensures DefaultID(a) == DefaultID(Addr(true, a.bits, "")) + "%" + Dashed(a.zone, ':')
  {
    var plain := HexGroups(a.bits);
    assert StringExpanded(Addr(true, a.bits, "")) == plain;
    assert Dashed(plain + ("%" + a.zone), ':') == Dashed(plain, ':') + "%" + Dashed(a.zone, ':');
  }
}
