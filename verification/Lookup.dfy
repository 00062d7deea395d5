/** The lookup index of the client storage: configured slots sorted once, then
    scanned for the first match.  Static clients and autodevice configurations
    share it and differ in whether single addresses are sorted before subnets. */
module Lookup {
  import opened Wrappers
  import opened Sorting
  import opened Net
  import opened DomainNames

  datatype Slot<+P> = Slot(prefix: Prefix, domain: string, payload: P)

  /** storedClient.compare when singlesFirst holds, storedAutodeviceClient.compare
      otherwise. */
  function Compare<P>(singlesFirst: bool, x: Slot<P>, y: Slot<P>): int {
    if x.prefix == NoPrefix then
      if y.prefix == NoPrefix then CompareDomains(x.domain, y.domain) else 1
    else if y.prefix == NoPrefix then
      -1
    else if singlesFirst && IsSingleIP(x.prefix) != IsSingleIP(y.prefix) then
      if IsSingleIP(x.prefix) then -1 else 1
    else if ComparePrefixes(x.prefix, y.prefix) == 0 then
      CompareDomains(x.domain, y.domain)
    else
      ComparePrefixes(x.prefix, y.prefix)
  }

  function Comparer<P>(singlesFirst: bool): (Slot<P>, Slot<P>) -> int {
    (x, y) => Compare(singlesFirst, x, y)
  }

  predicate Matches<P>(x: Slot<P>, addr: Addr, q: string) {
    && (x.prefix != NoPrefix ==> Contains(x.prefix, addr))
    && MatchesDomain(q, x.domain)
  }

  /** The index of the first slot that matches, or |s|. */
  function FirstIndex<P>(s: seq<Slot<P>>, addr: Addr, q: string): (i: nat)
    ensures i <= |s| && (i < |s| ==> Matches(s[i], addr, q))
    ensures forall k :: 0 <= k < i ==> !Matches(s[k], addr, q)
  {
    if s == [] || Matches(s[0], addr, q) then 0 else 1 + FirstIndex(s[1..], addr, q)
  }

  /** The selecting loop of findAutodevice. */
  method FindSlot<P>(s: seq<Slot<P>>, addr: Addr, q: string) returns (slot: Option<nat>)
    ensures slot == if FirstIndex(s, addr, q) < |s| then Some(FirstIndex(s, addr, q)) else None
  {
    for i := 0 to |s|
      invariant i <= FirstIndex(s, addr, q)
    {
      if !Matches(s[i], addr, q) {
        continue;
      }
      return Some(i);
    }
    return None;
  }

  /** findStaticClient. */
  method FindFirst<P>(s: seq<Slot<P>>, addr: Addr, q: string) returns (c: Option<P>)
    ensures c == if FirstIndex(s, addr, q) < |s| then Some(s[FirstIndex(s, addr, q)].payload) else None
  {
    for i := 0 to |s|
      invariant forall k :: 0 <= k < i ==> !Matches(s[k], addr, q)
    {
      if !Matches(s[i], addr, q) {
        continue;
      }
      return Some(s[i].payload);
    }
    return None;
  }

  ghost predicate WellFormed<P>(s: seq<Slot<P>>) {
    forall x :: x in s ==> ValidPrefix(x.prefix) && IsMasked(x.prefix) && NonFqdn(x.domain)
  }

  predicate SameKey<P>(x: Slot<P>, y: Slot<P>) {
    x.prefix == y.prefix && x.domain == y.domain
  }

  ghost predicate DistinctKeys<P>(s: seq<Slot<P>>) {
    forall i, j :: 0 <= i < |s| && 0 <= j < |s| && i != j ==> !SameKey(s[i], s[j])
  }

  lemma CompareIsTotal<P>(singlesFirst: bool, x: Slot<P>, y: Slot<P>, z: Slot<P>)
    ensures NonFqdn(x.domain) && NonFqdn(y.domain) ==> (Compare(singlesFirst, x, y) == 0 <==> SameKey(x, y))
    ensures Compare(singlesFirst, x, y) < 0 <==> Compare(singlesFirst, y, x) > 0
    ensures Compare(singlesFirst, x, y) <= 0 && Compare(singlesFirst, y, z) <= 0 ==> Compare(singlesFirst, x, z) <= 0
  {
    CompareDomainsIsTotal(x.domain, y.domain, z.domain);
    if x.prefix != NoPrefix && y.prefix != NoPrefix {
      ComparePrefixesIsTotal(x.prefix, y.prefix, x.prefix);
      ComparePrefixesIsTotal(y.prefix, x.prefix, x.prefix);
      if z.prefix != NoPrefix {
        ComparePrefixesIsTotal(x.prefix, y.prefix, z.prefix);
        ComparePrefixesIsTotal(y.prefix, z.prefix, x.prefix);
        ComparePrefixesIsTotal(x.prefix, z.prefix, y.prefix);
      }
    }
  }

  lemma ComparerIsOrder<P(!new)>(singlesFirst: bool)
    ensures Signed(Comparer<P>(singlesFirst)) && Transitive(Comparer<P>(singlesFirst))
  {
    var cmp := Comparer<P>(singlesFirst);
    forall x: Slot<P>, y: Slot<P>
      ensures cmp(x, y) < 0 <==> cmp(y, x) > 0
    {
      CompareIsTotal(singlesFirst, x, y, x);
    }
    forall x: Slot<P>, y: Slot<P>, z: Slot<P> | cmp(x, y) <= 0 && cmp(y, z) <= 0
      ensures cmp(x, z) <= 0
    {
      CompareIsTotal(singlesFirst, x, y, z);
    }
  }

  lemma SameSlotsSameOrder<P(!new)>(singlesFirst: bool, s: seq<Slot<P>>, t: seq<Slot<P>>)
    requires WellFormed(s) && DistinctKeys(s) && multiset(s) == multiset(t)
    requires Sorted(Comparer(singlesFirst), s) && Sorted(Comparer(singlesFirst), t)
    ensures s == t
  {
    ComparerIsOrder<P>(singlesFirst);
    forall i, j | 0 <= i < |s| && 0 <= j < |s| && i != j
      ensures Comparer(singlesFirst)(s[i], s[j]) != 0
    {
      CompareIsTotal(singlesFirst, s[i], s[j], s[i]);
    }
    SortedIsUnique(Comparer(singlesFirst), s, t);
  }

  /** s lists exactly the entries of the nested configuration map. */
  ghost predicate Represents<P(!new)>(s: seq<Slot<P>>, conf: map<Prefix, map<string, P>>) {
    && NoDuplicates(s)
    && forall x :: x in s <==> InConf(x, conf)
  }

  predicate InConf<P(==)>(x: Slot<P>, conf: map<Prefix, map<string, P>>) {
    x.prefix in conf && x.domain in conf[x.prefix] && x.payload == conf[x.prefix][x.domain]
  }

  lemma RepresentsDistinct<P(!new)>(s: seq<Slot<P>>, conf: map<Prefix, map<string, P>>)
    requires Represents(s, conf)
    ensures DistinctKeys(s)
  {
    forall i, j | 0 <= i < |s| && 0 <= j < |s| && i != j
      ensures !SameKey(s[i], s[j])
    {
      assert InConf(s[i], conf) && InConf(s[j], conf);
      if i < j {
        assert s[i] != s[j];
      } else {
        assert s[j] != s[i];
      }
    }
  }

  /** Whatever order a configuration map was iterated in, the sorted slots, and so
      every lookup, are the same. */
  lemma OrderIndependence<P(!new)>(
    singlesFirst: bool, conf: map<Prefix, map<string, P>>, s: seq<Slot<P>>, t: seq<Slot<P>>)
    requires Represents(s, conf) && Sorted(Comparer(singlesFirst), s)
    requires Represents(t, conf) && Sorted(Comparer(singlesFirst), t)
    requires WellFormed(s)
    ensures s == t
  {
    forall x
      ensures multiset(s)[x] == multiset(t)[x]
    {
      OccursOnce(s, x);
      OccursOnce(t, x);
      assert x in s <==> x in multiset(s);
      assert x in t <==> x in multiset(t);
    }
    RepresentsDistinct(s, conf);
    SameSlotsSameOrder(singlesFirst, s, t);
  }

  /** The slot-building loops of NewDefaultStorage, with the sort after them.  The
      maps are iterated in an arbitrary order. */
  method NewSortedSlots<P(==, !new)>(singlesFirst: bool, conf: map<Prefix, map<string, P>>)
    returns (s: seq<Slot<P>>)
    ensures Represents(s, conf) && DistinctKeys(s) && Sorted(Comparer(singlesFirst), s)
  {
    var clients: seq<Slot<P>> := [];
    var prefixes := conf.Keys;
    while prefixes != {}
      invariant prefixes <= conf.Keys
      invariant NoDuplicates(clients)
      invariant forall x :: x in clients <==> InConf(x, conf) && x.prefix !in prefixes
      decreases prefixes
    {
      var prefix :| prefix in prefixes;
      var domains := conf[prefix].Keys;
      ghost var done := prefixes - {prefix};
      while domains != {}
        invariant domains <= conf[prefix].Keys
        invariant NoDuplicates(clients)
        invariant forall x :: x in clients <==>
          InConf(x, conf) && x.prefix !in done && (x.prefix == prefix ==> x.domain !in domains)
        decreases domains
      {
        var domain :| domain in domains;
        clients := clients + [Slot(prefix, domain, conf[prefix][domain])];
        domains := domains - {domain};
      }
      prefixes := prefixes - {prefix};
    }
    var a := new Slot<P>[|clients|](i requires 0 <= i < |clients| => clients[i]);
    assert a[..] == clients;
    ComparerIsOrder<P>(singlesFirst);
    InsertionSort(Comparer<P>(singlesFirst), a);
    s := a[..];
    PermutationKeepsNoDuplicates(clients, s);
    assert forall x :: x in s <==> x in multiset(s);
    assert forall x :: x in clients <==> x in multiset(clients);
    RepresentsDistinct(s, conf);
  }

  // ---- What a lookup should find ----

  function PrefixLen(p: Prefix): int {
    match p
    case NoPrefix => -1
    case Prefix(_, _, len) => len
  }

  /** A longer prefix is narrower whatever the domains; then a longer domain. */
  predicate Narrower<P>(x: Slot<P>, y: Slot<P>) {
    || PrefixLen(x.prefix) > PrefixLen(y.prefix)
    || (PrefixLen(x.prefix) == PrefixLen(y.prefix) && |x.domain| > |y.domain|)
  }

  ghost predicate IsBest<P>(s: seq<Slot<P>>, addr: Addr, q: string, x: Slot<P>) {
    && x in s && Matches(x, addr, q)
    && forall y :: y in s && Matches(y, addr, q) ==> !Narrower(y, x)
  }

  lemma BestIsUnique<P>(s: seq<Slot<P>>, addr: Addr, q: string, x: Slot<P>, y: Slot<P>)
    requires WellFormed(s) && DistinctKeys(s)
    requires IsBest(s, addr, q, x) && IsBest(s, addr, q, y)
    ensures x == y
  {
    assert !Narrower(x, y) && !Narrower(y, x);
    MatchesAreNested(q, x.domain, y.domain);
    if x.prefix != NoPrefix {
      SameLengthSamePrefix(x.prefix, y.prefix, addr);
    }
    assert SameKey(x, y);
  }

  function Longer(d: string, e: string): string {
    if |d| <= |e| then e else d
  }

  /** x hides y at addr: both cover it, y is strictly narrower, and some question
      matches both.  With single addresses sorted first, y must be a subnet and no
      single address may take all such questions from both. */
  ghost predicate Shadows<P>(singlesFirst: bool, s: seq<Slot<P>>, addr: Addr, x: Slot<P>, y: Slot<P>) {
    && x in s && y in s
    && Contains(x.prefix, addr) && Contains(y.prefix, addr)
    && x.prefix.len < y.prefix.len
    && (MatchesDomain(x.domain, y.domain) || MatchesDomain(y.domain, x.domain))
    && (singlesFirst ==>
          && !IsSingleIP(y.prefix)
          && forall z :: z in s && IsSingleIP(z.prefix) && Contains(z.prefix, addr) ==>
                           !MatchesDomain(Longer(x.domain, y.domain), z.domain))
  }

  ghost predicate FirstIsBest<P>(s: seq<Slot<P>>, addr: Addr, q: string) {
    var i := FirstIndex(s, addr, q);
    i < |s| ==> IsBest(s, addr, q, s[i])
  }

  lemma SortedBefore<P>(singlesFirst: bool, s: seq<Slot<P>>, addr: Addr, q: string, z: Slot<P>)
    requires Sorted(Comparer(singlesFirst), s) && z in s && Matches(z, addr, q)
    ensures var i := FirstIndex(s, addr, q);
      i < |s| && (s[i] == z || Compare(singlesFirst, s[i], z) <= 0)
  {
    var i := FirstIndex(s, addr, q);
    var k :| 0 <= k < |s| && s[k] == z;
    if k != i {
      assert Comparer(singlesFirst)(s[i], s[k]) <= 0;
    }
  }

  /** f matches and no matching slot sorts before it. */
  ghost predicate SortsFirst<P>(singlesFirst: bool, s: seq<Slot<P>>, addr: Addr, q: string, f: Slot<P>) {
    && f in s && Matches(f, addr, q)
    && forall z :: z in s && Matches(z, addr, q) ==> z == f || Compare(singlesFirst, f, z) <= 0
  }

  /** A first match that is not the best one is shadowing a narrower slot. */
  lemma WorseFirstShadows<P>(singlesFirst: bool, s: seq<Slot<P>>, addr: Addr, q: string, f: Slot<P>, y: Slot<P>)
    requires WellFormed(s) && SortsFirst(singlesFirst, s, addr, q, f)
    requires y in s && Matches(y, addr, q) && Narrower(y, f)
    ensures Shadows(singlesFirst, s, addr, f, y)
  {
    if |f.domain| <= |y.domain| {
      MatchesAreNested(q, f.domain, y.domain);
    } else {
      MatchesAreNested(q, y.domain, f.domain);
    }
    if PrefixLen(f.prefix) == PrefixLen(y.prefix) {
      if f.prefix != NoPrefix {
        SameLengthSamePrefix(f.prefix, y.prefix, addr);
        ComparePrefixesIsTotal(f.prefix, y.prefix, f.prefix);
      }
      SubdomainSortsFirst(y.domain, f.domain);
      CompareDomainsIsTotal(f.domain, y.domain, f.domain);
      assert false;
    }
    forall z | singlesFirst && z in s && IsSingleIP(z.prefix) && Contains(z.prefix, addr)
      ensures !MatchesDomain(Longer(f.domain, y.domain), z.domain)
    {
      if MatchesDomain(Longer(f.domain, y.domain), z.domain) {
        MatchesTransitively(q, Longer(f.domain, y.domain), z.domain);
      }
    }
  }

  /** A narrower slot comes after a wider one, single addresses aside. */
  lemma NarrowComesLater<P>(singlesFirst: bool, x: Slot<P>, f: Slot<P>, addr: Addr)
    requires ValidPrefix(x.prefix) && ValidPrefix(f.prefix)
    requires Contains(x.prefix, addr) && Contains(f.prefix, addr) && x.prefix.len < f.prefix.len
    requires singlesFirst ==> !IsSingleIP(f.prefix)
    ensures Compare(singlesFirst, f, x) > 0
  {
    WiderSortsFirst(x.prefix, f.prefix, addr);
    ComparePrefixesIsTotal(x.prefix, f.prefix, x.prefix);
  }

  /** A shadowed slot loses to a wider one for some question. */
  lemma ShadowGivesWorseFirst<P>(singlesFirst: bool, s: seq<Slot<P>>, addr: Addr, x: Slot<P>, y: Slot<P>)
    requires WellFormed(s) && Sorted(Comparer(singlesFirst), s)
    requires Shadows(singlesFirst, s, addr, x, y)
    ensures NonFqdn(Longer(x.domain, y.domain)) && !FirstIsBest(s, addr, Longer(x.domain, y.domain))
  {
    var q := Longer(x.domain, y.domain);
    SortedBefore(singlesFirst, s, addr, q, x);
    SortedBefore(singlesFirst, s, addr, q, y);
    var f := s[FirstIndex(s, addr, q)];
    if !Narrower(y, f) {
      NarrowComesLater(singlesFirst, x, f, addr);
      assert false;
    }
  }

  /** At an address, sorting and taking the first match finds the most specific
      prefix, and in it the longest domain, for every question exactly when no
      configured slot shadows another one there. */
  lemma FirstIsBestIffUnshadowed<P(!new)>(singlesFirst: bool, s: seq<Slot<P>>, addr: Addr)
    requires WellFormed(s) && Sorted(Comparer(singlesFirst), s)
    ensures (forall q :: NonFqdn(q) ==> FirstIsBest(s, addr, q))
       <==> !(exists x, y :: x in s && y in s && Shadows(singlesFirst, s, addr, x, y))
  {
    if x, y :| x in s && y in s && Shadows(singlesFirst, s, addr, x, y) {
      ShadowGivesWorseFirst(singlesFirst, s, addr, x, y);
    } else {
      forall q | NonFqdn(q)
        ensures FirstIsBest(s, addr, q)
      {
        var i := FirstIndex(s, addr, q);
        forall y | i < |s| && y in s && Matches(y, addr, q)
          ensures !Narrower(y, s[i])
        {
          if Narrower(y, s[i]) {
            forall z | z in s && Matches(z, addr, q)
              ensures z == s[i] || Compare(singlesFirst, s[i], z) <= 0
            {
              SortedBefore(singlesFirst, s, addr, q, z);
            }
            WorseFirstShadows(singlesFirst, s, addr, q, s[i], y);
          }
        }
      }
    }
  }

  /** A static client for the address itself comes before every subnet, overlapping or
      not. */
  lemma SingleAddressWins<P>(s: seq<Slot<P>>, addr: Addr, q: string, z: Slot<P>)
    requires WellFormed(s) && Sorted(Comparer(true), s) && ValidAddr(addr)
    requires z in s && Matches(z, addr, q) && z.prefix.Prefix? && z.prefix.len == |addr.bits|
    ensures var i := FirstIndex(s, addr, q); i < |s| && s[i].prefix == z.prefix
  {
    SortedBefore(true, s, addr, q, z);
    var f := s[FirstIndex(s, addr, q)];
    if f.prefix != z.prefix && f.prefix.Prefix? && f.prefix.len == z.prefix.len {
      SameLengthSamePrefix(f.prefix, z.prefix, addr);
    }
  }

  /** What the storage requires of its prefixes: no two overlap.  For static
      clients this is relaxed to single addresses inside a wider subnet. */
  ghost predicate NonOverlapping<P>(singlesFirst: bool, s: seq<Slot<P>>) {
    forall x, y, a | x in s && y in s && Contains(x.prefix, a) && Contains(y.prefix, a) ::
      x.prefix.len < y.prefix.len ==> singlesFirst && IsSingleIP(y.prefix)
  }

  /** With non-overlapping prefixes every lookup is a best match; it fails only
      when nothing matches. */
  lemma LookupFindsBest<P(!new)>(singlesFirst: bool, s: seq<Slot<P>>, addr: Addr, q: string)
    requires WellFormed(s) && Sorted(Comparer(singlesFirst), s) && NonOverlapping(singlesFirst, s) && NonFqdn(q)
    ensures FirstIsBest(s, addr, q)
    ensures FirstIndex(s, addr, q) == |s| <==> forall x :: x in s ==> !Matches(x, addr, q)
  {
    FirstIsBestIffUnshadowed(singlesFirst, s, addr);
    var i := FirstIndex(s, addr, q);
    assert i < |s| ==> s[i] in s;
  }

  /** A wider subnet wins over a narrower one with the same domain: the lookup is
      not a longest-prefix match when subnets overlap. */
  lemma OverlapBreaksLookup(singlesFirst: bool, p: Prefix, r: Prefix, a: Addr)
    requires ValidPrefix(p) && ValidPrefix(r) && IsMasked(p) && IsMasked(r)
    requires Contains(p, a) && Contains(r, a) && p.len < r.len && !IsSingleIP(r)
    ensures var s := [Slot(p, "", "wide"), Slot(r, "", "narrow")];
      Sorted(Comparer(singlesFirst), s) && FirstIndex(s, a, "") == 0 && !IsBest(s, a, "", s[0])
  {
    WiderSortsFirst(p, r, a);
    var s := [Slot(p, "", "wide"), Slot(r, "", "narrow")];
    assert s[1] in s && Matches(s[1], a, "") && Narrower(s[1], s[0]);
  }

  /** The search queue is keyed by the address and the selected domain only.  For
      one address that key still determines the selected slot, overlapping
      prefixes or not. */
  lemma SearchKeySound<P>(s: seq<Slot<P>>, addr: Addr, q1: string, q2: string)
    requires FirstIndex(s, addr, q1) < |s| && FirstIndex(s, addr, q2) < |s|
    requires s[FirstIndex(s, addr, q1)].domain == s[FirstIndex(s, addr, q2)].domain
    ensures FirstIndex(s, addr, q1) == FirstIndex(s, addr, q2)
  {
    var i, j := FirstIndex(s, addr, q1), FirstIndex(s, addr, q2);
    assert Matches(s[i], addr, q2) && Matches(s[j], addr, q1);
  }
}
