/** From the configuration file to the answer: the group that a client storage built
    from a valid configuration selects, against a rule stated on the match lists. */
module EndToEnd {
  import opened Wrappers
  import opened Net
  import opened DomainNames
  import opened HumanIDs
  import opened Sorting
  import opened Lookup
  import opened Config
  import opened ConfigBuild

  // ---- The rule ----

  function MatchAt(groups: Groups, n: string, i: nat): Match
    requires IsEntry(groups, n, i)
  {
    groups[n].value.matches[i].value
  }

  /** An empty client covers every address; a domain covers the names whose labels, from
      the right, start with its own, in any letter case. */
  predicate Covers(m: Match, addr: Addr, q: string) {
    (m.client != NoPrefix ==> Contains(m.client, addr)) && Labels(ToLower(m.domain)) <= Labels(ToLower(q))
  }

  predicate Tighter(m: Match, o: Match) {
    || PrefixLen(m.client) > PrefixLen(o.client)
    || (PrefixLen(m.client) == PrefixLen(o.client) && |m.domain| > |o.domain|)
  }

  predicate Candidate(groups: Groups, auto: bool, n: string, i: nat, addr: Addr, q: string) {
    IsEntry(groups, n, i) && Enabled(groups[n].value) == auto && Covers(MatchAt(groups, n, i), addr, q)
  }

  ghost predicate HasCandidate(groups: Groups, auto: bool, addr: Addr, q: string) {
    exists n: string, i: nat :: Candidate(groups, auto, n, i, addr, q)
  }

  ghost predicate IsBestMatch(groups: Groups, auto: bool, n: string, i: nat, addr: Addr, q: string) {
    && Candidate(groups, auto, n, i, addr, q)
    && forall o: string, j: nat :: Candidate(groups, auto, o, j, addr, q) ==>
         !Tighter(MatchAt(groups, o, j), MatchAt(groups, n, i))
  }

  ghost predicate HasBestMatch(groups: Groups, auto: bool, n: string, addr: Addr, q: string) {
    exists i: nat :: IsBestMatch(groups, auto, n, i, addr, q)
  }

  predicate DefaultIsAuto(groups: Groups) {
    "default" in groups && groups["default"].Some? && Enabled(groups["default"].value)
  }

  /** The best match of the static groups; for an identifiable client, else, the best
      match of the autodevice groups, else the default group if it has autodevice
      enabled; else none, which leaves the question to the general upstreams. */
  ghost predicate Selects(groups: Groups, addr: Addr, q: string, identifiable: bool, g: Option<string>) {
    if HasCandidate(groups, false, addr, q) then g.Some? && HasBestMatch(groups, false, g.value, addr, q)
    else if !identifiable then g == None
    else if HasCandidate(groups, true, addr, q) then g.Some? && HasBestMatch(groups, true, g.value, addr, q)
    else g == if DefaultIsAuto(groups) then Some("default") else None
  }

  // ---- What validation leaves to the decoder and the operator ----

  /** The client prefixes are parsed ones. */
  ghost predicate ParsedPrefixes(groups: Groups) {
    forall n: string, i: nat :: IsEntry(groups, n, i) ==> ValidPrefix(MatchAt(groups, n, i).client)
  }

  ghost predicate OverlapAllowed(auto: bool, p: Prefix, r: Prefix) {
    forall a :: Contains(p, a) && Contains(r, a) && p.len < r.len ==> !auto && IsSingleIP(r)
  }

  /** Whether a narrower prefix is allowed beside a wider one can be seen from the numbers
      of their addresses: it must be a single address of a static group, or not start in
      the block of the wider one. */
  lemma OverlapAllowedIff(auto: bool, p: Prefix, r: Prefix)
    requires p.Prefix? && r.Prefix? && ValidPrefix(p) && ValidPrefix(r) && IsMasked(p) && p.len < r.len
    ensures OverlapAllowed(auto, p, r) <==>
      || (!auto && r.len == |r.ip|)
      || !(p.v6 == r.v6 && ToNat(p.ip) <= ToNat(r.ip) < ToNat(p.ip) + Pow2(|p.ip| - p.len))
  {
    var first := Addr(r.v6, r.ip, "");
    ContainsIffInBlock(p, first);
    assert Contains(r, first);
    forall a | Contains(p, a) && Contains(r, a)
      ensures Contains(p, first)
    {
      assert p.ip[..p.len] == a.bits[..p.len] == a.bits[..r.len][..p.len] == r.ip[..r.len][..p.len] == r.ip[..p.len];
    }
  }

  /** No two client prefixes of one kind of group overlap, but single addresses of
      static groups may lie in wider subnets. */
  ghost predicate NoOverlaps(groups: Groups, auto: bool) {
    forall n: string, i: nat, o: string, j: nat |
      && IsEntry(groups, n, i) && Enabled(groups[n].value) == auto
      && IsEntry(groups, o, j) && Enabled(groups[o].value) == auto ::
      OverlapAllowed(auto, MatchAt(groups, n, i).client, MatchAt(groups, o, j).client)
  }

  // ---- The compiled index ----

  datatype Index = Index(statics: seq<Slot<StaticClient>>, autos: seq<Slot<Ups>>)

  /** s lists what the configuration asks for, each slot once. */
  ghost predicate Lists<P(!new)>(s: seq<Slot<P>>, groups: Groups, auto: bool, ups: P -> Ups) {
    && DistinctKeys(s)
    && (forall x :: x in s ==> Asked(groups, auto, Slot(x.prefix, x.domain, ups(x.payload))))
    && (forall y :: Asked(groups, auto, y) ==>
          exists x :: x in s && x.prefix == y.prefix && x.domain == y.domain && ups(x.payload) == y.payload)
  }

  function StaticUpsOf(): StaticClient -> Ups {
    (c: StaticClient) => c.ups
  }

  function AutoUpsOf(): Ups -> Ups {
    (u: Ups) => u
  }

  ghost predicate IsIndexOf(groups: Groups, idx: Index) {
    && Sorted(Comparer(true), idx.statics) && Lists(idx.statics, groups, false, StaticUpsOf())
    && Sorted(Comparer(false), idx.autos) && Lists(idx.autos, groups, true, AutoUpsOf())
  }

  /** Start-up: validation, the builders, the static clients, the sorted slots.  The
      program starts exactly on the valid configurations with usable addresses, and
      then the index lists what the configuration asks for. */
  method Compile(env: Env, groups: Groups, cacheSize: Option<nat>) returns (r: Option<Index>)
    ensures r.Some? <==>
      && ValidConfig(env, groups)
      && forall n :: n in groups && Dials(groups[n].value, n) ==> env.dial(groups[n].value.address)
    ensures r.Some? ==> IsIndexOf(groups, r.value)
    ensures r.Some? ==> forall x :: x in r.value.statics ==>
              x.payload.ups.StaticUps? && IsOfItsGroup(groups, x.payload.ups) && x.payload.cacheSize == cacheSize
    ensures r.Some? ==> forall x :: x in r.value.autos ==> x.payload.AutoUps? && IsOfItsGroup(groups, x.payload)
  {
    var v := new Validation(env, groups);
    var ok := v.Validate();
    if !ok {
      return None;
    }
    var statics, autos, errs := NewUpstreams(env, groups);
    if errs != map[] {
      assert exists n :: n in errs;
      return None;
    }
    var clients := NewStaticClients(statics, cacheSize);
    var staticSlots := NewSortedSlots(true, clients);
    var autoSlots := NewSortedSlots(false, autos);
    StaticsListed(groups, statics, clients, cacheSize, staticSlots);
    assert Lists(autoSlots, groups, true, AutoUpsOf());
    r := Some(Index(staticSlots, autoSlots));
  }

  lemma StaticsListed(groups: Groups, ups: NestedMap<Ups>, clients: NestedMap<StaticClient>, cacheSize: Option<nat>,
                      s: seq<Slot<StaticClient>>)
    requires forall x :: InConf(x, ups) <==> Asked(groups, false, x)
    requires forall x: Slot<StaticClient> :: InConf(x, clients) <==>
      InConf(Slot(x.prefix, x.domain, x.payload.ups), ups) && x.payload.cacheSize == cacheSize
    requires Represents(s, clients) && DistinctKeys(s)
    ensures Lists(s, groups, false, StaticUpsOf())
    ensures forall x :: x in s ==> InConf(Slot(x.prefix, x.domain, x.payload.ups), ups) && x.payload.cacheSize == cacheSize
  {
    forall y | Asked(groups, false, y)
      ensures exists x :: x in s && x.prefix == y.prefix && x.domain == y.domain && StaticUpsOf()(x.payload) == y.payload
    {
      var x := Slot(y.prefix, y.domain, StaticClient(y.payload, cacheSize));
      assert Slot(x.prefix, x.domain, x.payload.ups) == y;
      assert x in s;
    }
  }

  /** What a lookup finds in the index: the static slots first. */
  function Found(idx: Index, addr: Addr, q: string, identifiable: bool): Option<Ups> {
    var i := FirstIndex(idx.statics, addr, q);
    var j := FirstIndex(idx.autos, addr, q);
    if i < |idx.statics| then Some(idx.statics[i].payload.ups)
    else if identifiable && j < |idx.autos| then Some(idx.autos[j].payload)
    else None
  }

  // ---- The meaning of the index ----

  lemma LowerKeepsNonFqdn(s: string)
    ensures NonFqdn(ToLower(s)) <==> NonFqdn(s)
  {
  }

  /** For valid domains and questions, covering is matching. */
  lemma CoversIffMatches(env: Env, groups: Groups, n: string, i: nat, addr: Addr, q: string)
    requires Sound(env) && ValidConfig(env, groups) && IsEntry(groups, n, i) && NonFqdn(q)
    ensures var m := MatchAt(groups, n, i);
      Covers(m, addr, q) <==>
        (m.client != NoPrefix ==> Contains(m.client, addr)) && MatchesDomain(ToLower(q), ToLower(m.domain))
  {
    EntryOfValid(env, groups, n, i);
    LowerKeepsNonFqdn(q);
    LowerKeepsNonFqdn(MatchAt(groups, n, i).domain);
    MatchesIffLabels(ToLower(q), ToLower(MatchAt(groups, n, i).domain));
  }

  lemma AskedIsWellFormed(env: Env, groups: Groups, auto: bool, x: Slot<Ups>)
    requires Sound(env) && ValidConfig(env, groups) && ParsedPrefixes(groups) && Asked(groups, auto, x)
    ensures ValidPrefix(x.prefix) && IsMasked(x.prefix) && NonFqdn(x.domain)
  {
    if !IsDefaultSlot(groups, auto, x) {
      var i: nat :| IsEntrySlot(groups, auto, x, i);
      EntryOfValid(env, groups, x.payload.group, i);
      var m := MatchAt(groups, x.payload.group, i);
      assert NonFqdn(m.domain);
      LowerKeepsNonFqdn(m.domain);
    }
  }

  lemma ListsWellFormed<P(!new)>(env: Env, groups: Groups, auto: bool, s: seq<Slot<P>>, ups: P -> Ups)
    requires Sound(env) && ValidConfig(env, groups) && ParsedPrefixes(groups) && Lists(s, groups, auto, ups)
    ensures WellFormed(s)
  {
    forall x | x in s
      ensures ValidPrefix(x.prefix) && IsMasked(x.prefix) && NonFqdn(x.domain)
    {
      AskedIsWellFormed(env, groups, auto, Slot(x.prefix, x.domain, ups(x.payload)));
    }
  }

  /** A slot with a prefix comes from a match. */
  lemma PrefixIsOfMatch(groups: Groups, auto: bool, x: Slot<Ups>) returns (i: nat)
    requires Asked(groups, auto, x) && x.prefix != NoPrefix
    ensures IsEntrySlot(groups, auto, x, i) && x.prefix == MatchAt(groups, x.payload.group, i).client
  {
    i :| IsEntrySlot(groups, auto, x, i);
  }

  lemma AskedDoNotOverlap(groups: Groups, auto: bool, x: Slot<Ups>, y: Slot<Ups>, a: Addr)
    requires NoOverlaps(groups, auto) && Asked(groups, auto, x) && Asked(groups, auto, y)
    requires Contains(x.prefix, a) && Contains(y.prefix, a) && x.prefix.len < y.prefix.len
    ensures !auto && IsSingleIP(y.prefix)
  {
    var i := PrefixIsOfMatch(groups, auto, x);
    var j := PrefixIsOfMatch(groups, auto, y);
    assert OverlapAllowed(auto, MatchAt(groups, x.payload.group, i).client, MatchAt(groups, y.payload.group, j).client);
  }

  lemma ListsDoNotOverlap<P(!new)>(groups: Groups, auto: bool, s: seq<Slot<P>>, ups: P -> Ups)
    requires NoOverlaps(groups, auto) && Lists(s, groups, auto, ups)
    ensures NonOverlapping(!auto, s)
  {
    forall x, y, a | x in s && y in s && Contains(x.prefix, a) && Contains(y.prefix, a) && x.prefix.len < y.prefix.len
      ensures !auto && IsSingleIP(y.prefix)
    {
      AskedDoNotOverlap(groups, auto, Slot(x.prefix, x.domain, ups(x.payload)),
                        Slot(y.prefix, y.domain, ups(y.payload)), a);
    }
  }

  /** The slot of a candidate is listed and matches. */
  lemma CandidateIsListed<P(!new)>(env: Env, groups: Groups, auto: bool, s: seq<Slot<P>>, ups: P -> Ups,
                                   n: string, i: nat, addr: Addr, q: string) returns (x: Slot<P>)
    requires Sound(env) && ValidConfig(env, groups) && NonFqdn(q)
    requires Lists(s, groups, auto, ups) && Candidate(groups, auto, n, i, addr, q)
    ensures x in s && Matches(x, addr, ToLower(q))
    ensures x.prefix == MatchAt(groups, n, i).client && x.domain == ToLower(MatchAt(groups, n, i).domain)
  {
    CoversIffMatches(env, groups, n, i, addr, q);
    var y := EntrySlot(groups, n, i);
    assert IsEntrySlot(groups, auto, y, i);
    assert Asked(groups, auto, y);
    x :| x in s && x.prefix == y.prefix && x.domain == y.domain && ups(x.payload) == y.payload;
  }

  /** The first matching slot belongs to the best match, or to the default group when
      no match covers the question; when no slot matches, there is neither. */
  lemma FirstIsBestMatch<P(!new)>(env: Env, groups: Groups, auto: bool, s: seq<Slot<P>>, ups: P -> Ups,
                                  addr: Addr, q: string)
    requires Sound(env) && ValidConfig(env, groups) && ParsedPrefixes(groups) && NoOverlaps(groups, auto)
    requires Sorted(Comparer(!auto), s) && Lists(s, groups, auto, ups) && (q != "" ==> q[0] != '.')
    ensures var i := FirstIndex(s, addr, ToLower(q));
      if i == |s| then !HasCandidate(groups, auto, addr, q) && !(auto && DefaultIsAuto(groups))
      else if HasCandidate(groups, auto, addr, q) then HasBestMatch(groups, auto, ups(s[i].payload).group, addr, q)
      else auto && DefaultIsAuto(groups) && ups(s[i].payload).group == "default"
  {
    ListsWellFormed(env, groups, auto, s, ups);
    ListsDoNotOverlap(groups, auto, s, ups);
    LowerKeepsNonFqdn(q);
    LookupFindsBest(!auto, s, addr, ToLower(q));
    var k := FirstIndex(s, addr, ToLower(q));
    if k == |s| {
      NothingMatches(env, groups, auto, s, ups, addr, q);
    } else {
      BestSlotIsBestMatch(env, groups, auto, s, ups, addr, q, s[k]);
    }
  }

  lemma NothingMatches<P(!new)>(env: Env, groups: Groups, auto: bool, s: seq<Slot<P>>, ups: P -> Ups,
                                addr: Addr, q: string)
    requires Sound(env) && ValidConfig(env, groups) && NonFqdn(q)
    requires Lists(s, groups, auto, ups) && forall x :: x in s ==> !Matches(x, addr, ToLower(q))
    ensures !HasCandidate(groups, auto, addr, q) && !(auto && DefaultIsAuto(groups))
  {
    if n: string, i: nat :| Candidate(groups, auto, n, i, addr, q) {
      var x := CandidateIsListed(env, groups, auto, s, ups, n, i, addr, q);
      assert false;
    }
    if auto && DefaultIsAuto(groups) {
      assert Asked(groups, auto, Slot(NoPrefix, "", UpsOf(DEFAULT_GROUP, groups[DEFAULT_GROUP].value)));
      assert false;
    }
  }

  lemma BestSlotIsBestMatch<P(!new)>(env: Env, groups: Groups, auto: bool, s: seq<Slot<P>>, ups: P -> Ups,
                                     addr: Addr, q: string, x: Slot<P>)
    requires Sound(env) && ValidConfig(env, groups) && NonFqdn(q)
    requires Lists(s, groups, auto, ups) && IsBest(s, addr, ToLower(q), x)
    ensures if HasCandidate(groups, auto, addr, q) then HasBestMatch(groups, auto, ups(x.payload).group, addr, q)
      else auto && DefaultIsAuto(groups) && ups(x.payload).group == "default"
  {
    var u := Slot(x.prefix, x.domain, ups(x.payload));
    assert Asked(groups, auto, u);
    if i: nat :| IsEntrySlot(groups, auto, u, i) {
      CoversIffMatches(env, groups, u.payload.group, i, addr, q);
      assert Candidate(groups, auto, u.payload.group, i, addr, q);
      forall o: string, j: nat | Candidate(groups, auto, o, j, addr, q)
        ensures !Tighter(MatchAt(groups, o, j), MatchAt(groups, u.payload.group, i))
      {
        var y := CandidateIsListed(env, groups, auto, s, ups, o, j, addr, q);
      }
      assert IsBestMatch(groups, auto, u.payload.group, i, addr, q);
    } else {
      assert IsDefaultSlot(groups, auto, u);
      if o: string, j: nat :| Candidate(groups, auto, o, j, addr, q) {
        var y := CandidateIsListed(env, groups, auto, s, ups, o, j, addr, q);
        EntryOfValid(env, groups, o, j);
        assert false;
      }
    }
  }

  function GroupOf(u: Option<Ups>): Option<string> {
    if u.Some? then Some(u.value.group) else None
  }

  lemma FoundIsOfItsGroup(groups: Groups, idx: Index, addr: Addr, q: string, identifiable: bool)
    requires IsIndexOf(groups, idx)
    ensures var u := Found(idx, addr, q, identifiable); u.Some? ==> IsOfItsGroup(groups, u.value)
  {
    var i, j := FirstIndex(idx.statics, addr, q), FirstIndex(idx.autos, addr, q);
    if i < |idx.statics| {
      var x := idx.statics[i];
      assert x in idx.statics;
      AskedIsOfItsGroup(groups, false, Slot(x.prefix, x.domain, x.payload.ups));
    }
    if j < |idx.autos| {
      var y := idx.autos[j];
      assert y in idx.autos;
      AskedIsOfItsGroup(groups, true, Slot(y.prefix, y.domain, y.payload));
    }
  }

  /** End to end: the group whose upstreams answer is the one the rule selects. */
  lemma FoundIsSelected(env: Env, groups: Groups, idx: Index, addr: Addr, q: string, identifiable: bool)
    requires Sound(env) && ValidConfig(env, groups) && IsIndexOf(groups, idx) && ParsedPrefixes(groups)
    requires NoOverlaps(groups, false) && NoOverlaps(groups, true) && (q != "" ==> q[0] != '.')
    ensures var u := Found(idx, addr, ToLower(q), identifiable);
      && Selects(groups, addr, q, identifiable, GroupOf(u))
      && (u.Some? ==> IsOfItsGroup(groups, u.value))
  {
    FoundIsOfItsGroup(groups, idx, addr, ToLower(q), identifiable);
    FirstIsBestMatch(env, groups, false, idx.statics, StaticUpsOf(), addr, q);
    FirstIsBestMatch(env, groups, true, idx.autos, AutoUpsOf(), addr, q);
  }

  /** The rule selects one group only. */
  lemma BestMatchIsUnique(env: Env, groups: Groups, auto: bool, addr: Addr, q: string, n: string, o: string)
    requires ValidConfig(env, groups) && ParsedPrefixes(groups)
    requires HasBestMatch(groups, auto, n, addr, q) && HasBestMatch(groups, auto, o, addr, q)
    ensures n == o
  {
    var i: nat :| IsBestMatch(groups, auto, n, i, addr, q);
    var j: nat :| IsBestMatch(groups, auto, o, j, addr, q);
    var m, l := MatchAt(groups, n, i), MatchAt(groups, o, j);
    assert !Tighter(m, l) && !Tighter(l, m);
    EntryOfValid(env, groups, n, i);
    EntryOfValid(env, groups, o, j);
    CoveringIsUnique(ToLower(q), ToLower(m.domain), ToLower(l.domain));
    if m.client != NoPrefix {
      SameLengthSamePrefix(m.client, l.client, addr);
    }
    KeysAreDistinct(groups, n, i, o, j);
  }

  lemma SelectionIsUnique(env: Env, groups: Groups, addr: Addr, q: string, identifiable: bool,
                          g: Option<string>, h: Option<string>)
    requires ValidConfig(env, groups) && ParsedPrefixes(groups)
    requires Selects(groups, addr, q, identifiable, g) && Selects(groups, addr, q, identifiable, h)
    ensures g == h
  {
    if HasCandidate(groups, false, addr, q) {
      BestMatchIsUnique(env, groups, false, addr, q, g.value, h.value);
    } else if identifiable && HasCandidate(groups, true, addr, q) {
      BestMatchIsUnique(env, groups, true, addr, q, g.value, h.value);
    }
  }

  /** A slot is asked for by one entry of one kind only: the static and autodevice
      maps share no key, and no match takes the slot of the default group. */
  lemma AskedKeysAreDistinct(env: Env, groups: Groups, auto: bool, x: Slot<Ups>, auto': bool, y: Slot<Ups>)
    requires ValidConfig(env, groups) && Asked(groups, auto, x) && Asked(groups, auto', y)
    requires SameKey(x, y)
    ensures x == y && auto == auto'
    ensures IsDefaultSlot(groups, auto, x) <==> x.prefix == NoPrefix && x.domain == ""
  {
    EntryKeyIsNotDefault(env, groups, auto, x);
    EntryKeyIsNotDefault(env, groups, auto', y);
    if i: nat :| IsEntrySlot(groups, auto, x, i) {
      var j: nat :| IsEntrySlot(groups, auto', y, j);
      KeysAreDistinct(groups, x.payload.group, i, y.payload.group, j);
    }
  }

  lemma EntryKeyIsNotDefault(env: Env, groups: Groups, auto: bool, x: Slot<Ups>)
    requires ValidConfig(env, groups) && Asked(groups, auto, x)
    ensures IsDefaultSlot(groups, auto, x) <==> x.prefix == NoPrefix && x.domain == ""
  {
    if i: nat :| IsEntrySlot(groups, auto, x, i) {
      EntryOfValid(env, groups, x.payload.group, i);
      LowerKeepsEmpty(MatchAt(groups, x.payload.group, i).domain);
    }
  }
}
