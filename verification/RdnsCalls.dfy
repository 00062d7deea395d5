/** Runs of RDNSIDSource with DefaultHumanIDSource behind it, as the program installs
    them when it has private upstreams: whether an answer ever takes back the validity
    of an earlier one.

    A call is split where it reads the clock or touches the cache or the claims.
    Calls for different addresses overlap in any way; the storage never makes two at
    once for one address.  Clock readings are ordered within one address only. */
module RdnsCalls {
  import opened Wrappers
  import opened Net
  import opened HumanIDs
  import opened Storage
  import opened IdSources
  import opened RdnsSource

  /** Where the call for an address is: the request is sent, the outcome of the records
      is not cached yet, or the lookup has failed and the default source is next. */
  datatype Phase = Sent | Holding(id: Option<ValidID>, ttl: Time) | Missed

  /** seen is the latest clock reading for each address. */
  datatype Calls = Calls(src: Source, phases: map<Addr, Phase>, seen: map<Addr, Time>)

  datatype Event =
    | Look(addr: Addr, now: Time)
    | Lost(addr: Addr, now: Time)
    | Refused(addr: Addr, now: Time)
    | Claim(addr: Addr, now: Time, answers: seq<RR>)
    | Keep(addr: Addr, now: Time)
    | Default(addr: Addr, now: Time)
    | Eviction(addr: Addr, now: Time)

  predicate InPhase(c: Calls, e: Event) {
    match e
    case Look(a, _) => a !in c.phases
    case Lost(a, _) => a in c.phases && c.phases[a].Sent?
    case Refused(a, _) => a in c.phases && c.phases[a].Sent?
    case Claim(a, _, _) => a in c.phases && c.phases[a].Sent?
    case Keep(a, _) => a in c.phases && c.phases[a].Holding?
    case Default(a, _) => a in c.phases && c.phases[a].Missed?
    case Eviction(a, now) => a in c.src.cache && c.src.cache[a].expires < now
  }

  /** The event can happen: the address is valid, and time passes for it. */
  predicate CanHappen(c: Calls, e: Event) {
    ValidAddr(e.addr) && (e.addr in c.seen ==> c.seen[e.addr] <= e.now) && InPhase(c, e)
  }

  function At(c: Calls, e: Event, src: Source, phase: Option<Phase>): Calls {
    Calls(src, if phase.Some? then c.phases[e.addr := phase.value] else c.phases - {e.addr}, c.seen[e.addr := e.now])
  }

  function After(c: Calls, e: Event): Calls
    requires CanHappen(c, e)
  {
    var src := c.src;
    match e
    case Look(a, now) =>
      if !IsCached(src, a, now) then At(c, e, src, Some(Sent))
      else At(c, e, src, if src.cache[a].id.Some? then None else Some(Missed))
    case Lost(_, _) => At(c, e, src, Some(Missed))
    case Refused(a, now) =>
      At(c, e, src.(cache := src.cache[a := Cached(None, now + DEFAULT_CACHE_TTL)]), Some(Missed))
    case Claim(a, now, answers) =>
      var id := Claimed(answers, src.existing, now);
      At(c, e, src.(existing := if id.Some? then src.existing[id.value.id := id.value.until] else src.existing),
         Some(Holding(id, CacheTTL(answers, src.existing, now))))
    case Keep(a, now) =>
      var p := c.phases[a];
      At(c, e, src.(cache := src.cache[a := Cached(p.id, now + p.ttl)]), if p.id.Some? then None else Some(Missed))
    case Default(_, _) => At(c, e, src, None)
    case Eviction(a, now) => Calls(Evict(src, a), c.phases, c.seen[a := now])
  }

  /** The answer of RDNSIDSource that the event gives, if any: a cached one, or the one
      just stored. */
  function Answer(c: Calls, e: Event): Option<ValidID>
    requires CanHappen(c, e)
  {
    match e
    case Look(a, now) => if IsCached(c.src, a, now) then c.src.cache[a].id else None
    case Keep(a, _) => c.phases[a].id
    case _ => None
  }

  /** The answer of the two sources: when the first has none, the default ID. */
  function Composite(c: Calls, e: Event, validity: Time): Option<ValidID>
    requires CanHappen(c, e)
  {
    if e.Default? then Some(ValidID(DefaultID(e.addr), e.now + validity)) else Answer(c, e)
  }

  /** The events of a call, one after another, after a lookup that finds nothing. */
  function Rest(c: Calls, addr: Addr, response: Response, at: Readings): (Calls, Option<ValidID>)
    requires CanHappen(c, Lost(addr, at.stored)) && at.claimed <= at.stored
    requires addr in c.seen ==> c.seen[addr] <= at.claimed
  {
    match response
    case NoReply => (After(c, Lost(addr, at.stored)), None)
    case BadReply => (After(c, Refused(addr, at.stored)), None)
    case Reply(answers) =>
      var d := After(c, Claim(addr, at.claimed, answers));
      (After(d, Keep(addr, at.stored)), Answer(d, Keep(addr, at.stored)))
  }

  lemma RestOfCall(c: Calls, addr: Addr, response: Response, at: Readings)
    requires CanHappen(c, Lost(addr, at.stored)) && at.claimed <= at.stored
    requires (addr in c.seen ==> c.seen[addr] <= at.claimed) && !IsCached(c.src, addr, at.looked)
    ensures var (d, answer) := Rest(c, addr, response, at);
      (d.src, answer) == IdentifyByPTR(c.src, addr, response, at) && (addr in d.phases <==> answer.None?)
  {
    if response.Reply? {
      RestOfReply(c, addr, response.answers, at);
    }
  }

  lemma RestOfReply(c: Calls, addr: Addr, answers: seq<RR>, at: Readings)
    requires CanHappen(c, Claim(addr, at.claimed, answers)) && at.claimed <= at.stored
    ensures var d := After(c, Claim(addr, at.claimed, answers));
      var keep := Keep(addr, at.stored);
      && CanHappen(d, keep) && Answer(d, keep) == Claimed(answers, c.src.existing, at.claimed)
      && After(d, keep).src == AfterReply(c.src, addr, answers, at)
      && (addr in After(d, keep).phases <==> Answer(d, keep).None?)
  {
    var id, ttl := Claimed(answers, c.src.existing, at.claimed), CacheTTL(answers, c.src.existing, at.claimed);
    HeldIsKept(After(c, Claim(addr, at.claimed, answers)), addr, at.stored, id, ttl);
  }

  lemma HeldIsKept(c: Calls, addr: Addr, now: Time, id: Option<ValidID>, ttl: Time)
    requires CanHappen(c, Keep(addr, now)) && c.phases[addr] == Holding(id, ttl)
    ensures Answer(c, Keep(addr, now)) == id
    ensures var d := After(c, Keep(addr, now));
      && d.src == Source(c.src.existing, c.src.cache[addr := Cached(id, now + ttl)])
      && (addr in d.phases <==> id.None?)
  {
  }

  /** Uninterrupted, the events of a call are RDNSIDSource.Identify. */
  lemma WholeCallIsIdentify(c: Calls, addr: Addr, response: Response, at: Readings)
    requires ValidAddr(addr) && addr !in c.phases && (addr in c.seen ==> c.seen[addr] <= at.looked)
    requires at.looked <= at.claimed <= at.stored
    ensures var look := Look(addr, at.looked);
      var (d, answer) := if IsCached(c.src, addr, at.looked) then (After(c, look), Answer(c, look))
                         else Rest(After(c, look), addr, response, at);
      && (d.src, answer) == IdentifyByPTR(c.src, addr, response, at)
      && (addr in d.phases <==> answer.None?)
  {
    if !IsCached(c.src, addr, at.looked) {
      RestOfCall(After(c, Look(addr, at.looked)), addr, response, at);
    }
  }

  /** A cached answer that has expired can be evicted at any later time, whatever calls
      are under way, and leaves cache and claims as the callback does. */
  lemma ExpiredIsEvicted(c: Calls, addr: Addr, now: Time)
    requires ValidAddr(addr) && addr in c.src.cache && c.src.cache[addr].expires < now
    requires addr in c.seen ==> c.seen[addr] <= now
    ensures CanHappen(c, Eviction(addr, now)) && Answer(c, Eviction(addr, now)).None?
    ensures var d := After(c, Eviction(addr, now)); d.src == Evict(c.src, addr) && d.phases == c.phases
  {
  }

  // ---- Runs ----

  /** A run of new sources. */
  ghost predicate IsCallRun(cs: seq<Calls>, es: seq<Event>) {
    && |cs| == |es| + 1 && cs[0] == Calls(Source(map[], map[]), map[], map[])
    && forall k {:trigger Happens(cs, es, k)} :: 0 <= k < |es| ==> Happens(cs, es, k)
  }

  ghost predicate Happens(cs: seq<Calls>, es: seq<Event>, k: nat)
    requires k < |es| < |cs|
  {
    CanHappen(cs[k], es[k]) && cs[k + 1] == After(cs[k], es[k])
  }

  function AnswerAt(cs: seq<Calls>, es: seq<Event>, k: nat): Option<ValidID>
    requires k < |es| < |cs|
  {
    if CanHappen(cs[k], es[k]) then Answer(cs[k], es[k]) else None
  }

  function CompositeAt(cs: seq<Calls>, es: seq<Event>, k: nat, validity: Time): Option<ValidID>
    requires k < |es| < |cs|
  {
    if CanHappen(cs[k], es[k]) then Composite(cs[k], es[k], validity) else None
  }

  // ---- What holds of one address ----

  predicate HasLive(c: Calls, a: Addr) {
    a in c.src.cache && c.src.cache[a].id.Some? && a in c.seen && c.seen[a] <= c.src.cache[a].expires
  }

  /** A cached answer expires no earlier than it says, and so does one that is about to
      be cached; while a call is under way the cache has no answer to give. */
  ghost predicate AddrOk(c: Calls, a: Addr) {
    && (a in c.src.cache || a in c.phases ==> a in c.seen)
    && (a in c.src.cache && c.src.cache[a].id.Some? ==> c.src.cache[a].id.value.until <= c.src.cache[a].expires)
    && (a in c.phases ==> a in c.src.cache && c.src.cache[a].id.Some? ==> c.src.cache[a].expires < c.seen[a])
    && (a in c.phases && c.phases[a].Holding? && c.phases[a].id.Some? ==>
          c.phases[a].id.value.until <= c.seen[a] + c.phases[a].ttl)
  }

  lemma EventKeepsAddr(c: Calls, e: Event, a: Addr)
    requires AddrOk(c, a) && CanHappen(c, e)
    ensures AddrOk(After(c, e), a)
  {
    if e.Claim? && Claimed(e.answers, c.src.existing, e.now).Some? {
      ClaimedIsLater(e.answers, c.src.existing, e.now);
    }
  }

  lemma {:induction false} RunKeepsAddr(cs: seq<Calls>, es: seq<Event>, k: nat, a: Addr)
    requires IsCallRun(cs, es) && k <= |es|
    ensures AddrOk(cs[k], a)
  {
    if k > 0 {
      RunKeepsAddr(cs, es, k - 1, a);
      assert Happens(cs, es, k - 1);
      EventKeepsAddr(cs[k - 1], es[k - 1], a);
    }
  }

  // ---- The first source alone ----

  /** The address was told of an ID valid until u: later answers are valid as long. */
  ghost predicate Remembers(c: Calls, a: Addr, u: Time) {
    && a in c.seen
    && (u <= c.seen[a] || (a !in c.phases && HasLive(c, a)))
    && (a in c.src.cache && c.src.cache[a].id.Some? ==> u <= c.src.cache[a].id.value.until)
    && (a in c.phases && c.phases[a].Holding? && c.phases[a].id.Some? ==> u <= c.phases[a].id.value.until)
  }

  lemma EventRemembers(c: Calls, e: Event, a: Addr, u: Time)
    requires Remembers(c, a, u) && AddrOk(c, a) && CanHappen(c, e)
    ensures Remembers(After(c, e), a, u)
    ensures e.addr == a && Answer(c, e).Some? ==> u <= Answer(c, e).value.until
    ensures e.addr == a && e.Default? ==> u <= e.now
  {
    if e.addr == a && e.Claim? && Claimed(e.answers, c.src.existing, e.now).Some? {
      ClaimedIsLater(e.answers, c.src.existing, e.now);
    }
  }

  lemma AnswerIsRemembered(c: Calls, e: Event)
    requires AddrOk(c, e.addr) && CanHappen(c, e) && Answer(c, e).Some?
    ensures Remembers(After(c, e), e.addr, Answer(c, e).value.until)
  {
  }

  lemma {:induction false} RunRemembers(cs: seq<Calls>, es: seq<Event>, i: nat, j: nat)
    requires IsCallRun(cs, es) && i < j <= |es| && AnswerAt(cs, es, i).Some?
    ensures Remembers(cs[j], es[i].addr, AnswerAt(cs, es, i).value.until)
    decreases j
  {
    RunKeepsAddr(cs, es, j - 1, es[i].addr);
    assert Happens(cs, es, j - 1);
    if j == i + 1 {
      AnswerIsRemembered(cs[i], es[i]);
    } else {
      RunRemembers(cs, es, i, j - 1);
      EventRemembers(cs[j - 1], es[j - 1], es[i].addr, AnswerAt(cs, es, i).value.until);
    }
  }

  /** RDNSIDSource alone never takes validity back: in every run, with calls for other
      addresses in between and evictions at any time they are possible, a later answer
      for an address is valid at least as long as an earlier one; and when the source
      has none the earlier one has expired. */
  lemma RdnsNeverGoesBack(cs: seq<Calls>, es: seq<Event>, i: nat, j: nat)
    requires IsCallRun(cs, es) && i < j < |es| && es[i].addr == es[j].addr && AnswerAt(cs, es, i).Some?
    ensures AnswerAt(cs, es, j).Some? ==> AnswerAt(cs, es, i).value.until <= AnswerAt(cs, es, j).value.until
    ensures es[j].Default? ==> AnswerAt(cs, es, i).value.until <= es[j].now
  {
    RunRemembers(cs, es, i, j);
    RunKeepsAddr(cs, es, j, es[i].addr);
    assert Happens(cs, es, j);
    EventRemembers(cs[j], es[j], es[i].addr, AnswerAt(cs, es, i).value.until);
  }

  // ---- Where an answer comes from ----

  /** At event m a reply for the address has a record, the first acceptable one, that
      names hid. */
  ghost predicate Names(cs: seq<Calls>, es: seq<Event>, m: nat, a: Addr, hid: ValidID)
    requires m < |es| < |cs|
  {
    && es[m].Claim? && es[m].addr == a
    && var (existing, now, answers) := (cs[m].src.existing, es[m].now, es[m].answers);
       var k := FirstAcceptable(answers, existing, now);
       && k < |answers|
       && FqdnToHumanID(answers[k].name) == Success(hid.id) && hid.until == now + answers[k].ttl * SECOND
  }

  lemma ClaimedIsNamed(cs: seq<Calls>, es: seq<Event>, m: nat, hid: ValidID)
    requires m < |es| < |cs| && es[m].Claim?
    ensures Claimed(es[m].answers, cs[m].src.existing, es[m].now) == Some(hid) <==> Names(cs, es, m, es[m].addr, hid)
  {
  }

  /** The answer that is about to be cached, or is cached and not expired, was named by
      a record of the address after event i, and cached after that. */
  ghost predicate Traced(cs: seq<Calls>, es: seq<Event>, i: nat, j: nat, a: Addr)
    requires i < j <= |es| < |cs|
  {
    && (HasLive(cs[j], a) ==> exists m, s :: i < m < s < j && es[s].Keep? && es[s].addr == a
                                             && Names(cs, es, m, a, cs[j].src.cache[a].id.value))
    && (a in cs[j].phases && cs[j].phases[a].Holding? && cs[j].phases[a].id.Some? ==>
          exists m :: i < m < j && Names(cs, es, m, a, cs[j].phases[a].id.value))
  }

  /** After a default answer nothing is left of what the records said before. */
  lemma DefaultForgets(cs: seq<Calls>, es: seq<Event>, i: nat)
    requires IsCallRun(cs, es) && i < |es| && es[i].Default?
    ensures Traced(cs, es, i, i + 1, es[i].addr)
  {
    RunKeepsAddr(cs, es, i, es[i].addr);
    assert Happens(cs, es, i);
  }

  lemma {:induction false} RunTraces(cs: seq<Calls>, es: seq<Event>, i: nat, j: nat)
    requires IsCallRun(cs, es) && i < j <= |es| && es[i].Default?
    ensures Traced(cs, es, i, j, es[i].addr)
    decreases j
  {
    if j == i + 1 {
      DefaultForgets(cs, es, i);
    } else {
      RunTraces(cs, es, i, j - 1);
      EventTraces(cs, es, i, j - 1);
    }
  }

  /** Nothing new is about to be cached, or cached. */
  lemma OldAnswersKept(c: Calls, e: Event, a: Addr)
    requires AddrOk(c, a) && CanHappen(c, e) && (e.addr == a ==> !e.Claim? && !e.Keep?)
    ensures var d := After(c, e);
      && (HasLive(d, a) ==> HasLive(c, a) && d.src.cache[a] == c.src.cache[a])
      && (a in d.phases && d.phases[a].Holding? ==> a in c.phases && c.phases[a] == d.phases[a])
  {
  }

  lemma ClaimTraces(cs: seq<Calls>, es: seq<Event>, i: nat, j: nat)
    requires IsCallRun(cs, es) && i < j < |es| && es[j].Claim? && es[j].addr == es[i].addr
    ensures Traced(cs, es, i, j + 1, es[i].addr)
  {
    var e := es[j];
    RunKeepsAddr(cs, es, j, e.addr);
    assert Happens(cs, es, j);
    var id := Claimed(e.answers, cs[j].src.existing, e.now);
    assert cs[j + 1].phases[e.addr] == Holding(id, CacheTTL(e.answers, cs[j].src.existing, e.now));
    if id.Some? {
      ClaimedIsNamed(cs, es, j, id.value);
    }
  }

  lemma KeepTraces(cs: seq<Calls>, es: seq<Event>, i: nat, j: nat)
    requires IsCallRun(cs, es) && i < j < |es| && es[j].Keep? && es[j].addr == es[i].addr
    requires Traced(cs, es, i, j, es[i].addr)
    ensures Traced(cs, es, i, j + 1, es[i].addr)
  {
    var a := es[i].addr;
    assert Happens(cs, es, j);
    assert cs[j + 1].src.cache[a].id == cs[j].phases[a].id;
    if cs[j].phases[a].id.Some? {
      var m :| i < m < j && Names(cs, es, m, a, cs[j].phases[a].id.value);
    }
  }

  lemma EventTraces(cs: seq<Calls>, es: seq<Event>, i: nat, j: nat)
    requires IsCallRun(cs, es) && i < j < |es| && Traced(cs, es, i, j, es[i].addr)
    ensures Traced(cs, es, i, j + 1, es[i].addr)
  {
    if es[j].addr == es[i].addr && es[j].Claim? {
      ClaimTraces(cs, es, i, j);
    } else if es[j].addr == es[i].addr && es[j].Keep? {
      KeepTraces(cs, es, i, j);
    } else {
      RunKeepsAddr(cs, es, j, es[i].addr);
      assert Happens(cs, es, j);
      OldAnswersKept(cs[j], es[j], es[i].addr);
    }
  }

  // ---- The two sources together ----

  /** The later of two answers for one address and one ID is valid for less long. */
  ghost predicate GoesBack(cs: seq<Calls>, es: seq<Event>, validity: Time, i: nat, j: nat)
    requires i < |es| < |cs| && j < |es|
  {
    var x, y := CompositeAt(cs, es, i, validity), CompositeAt(cs, es, j, validity);
    && i < j && es[i].addr == es[j].addr && x.Some? && y.Some?
    && x.value.id == y.value.id && y.value.until < x.value.until
  }

  /** After event i a reply names the address by its own default ID, in its first
      acceptable record and for a shorter time than u, and the call goes on to cache
      and return it. */
  ghost predicate NamedByDefaultID(cs: seq<Calls>, es: seq<Event>, i: nat, u: Time)
    requires i < |es| < |cs| && ValidAddr(es[i].addr)
  {
    exists m, s, until :: i < m < s < |es| && es[s].Keep? && es[s].addr == es[i].addr && until < u
                          && Names(cs, es, m, es[i].addr, ValidID(DefaultID(es[i].addr), until))
  }

  /** Only a default answer can be taken back, and only by a record's. */
  lemma OnlyRecordsTakeBack(cs: seq<Calls>, es: seq<Event>, validity: Time, i: nat, j: nat)
    requires IsCallRun(cs, es) && i < |es| && j < |es| && 0 <= validity && GoesBack(cs, es, validity, i, j)
    ensures es[i].Default? && !es[j].Default? && ValidAddr(es[i].addr)
    ensures AnswerAt(cs, es, j) == CompositeAt(cs, es, j, validity)
    ensures CompositeAt(cs, es, i, validity).value == ValidID(DefaultID(es[i].addr), es[i].now + validity)
  {
    assert Happens(cs, es, i) && Happens(cs, es, j);
    if !es[i].Default? {
      RdnsNeverGoesBack(cs, es, i, j);
    } else if es[j].Default? {
      TimePasses(cs, es, i, j);
    }
  }

  lemma {:induction false} SeenGrows(cs: seq<Calls>, es: seq<Event>, i: nat, j: nat)
    requires IsCallRun(cs, es) && i < j <= |es|
    ensures es[i].addr in cs[j].seen && es[i].now <= cs[j].seen[es[i].addr]
    decreases j
  {
    assert Happens(cs, es, j - 1);
    if i < j - 1 {
      SeenGrows(cs, es, i, j - 1);
    }
  }

  lemma TimePasses(cs: seq<Calls>, es: seq<Event>, i: nat, j: nat)
    requires IsCallRun(cs, es) && i < j < |es| && es[i].addr == es[j].addr
    ensures es[i].now <= es[j].now
  {
    SeenGrows(cs, es, i, j);
    assert Happens(cs, es, j);
  }

  /** Once claimed, an ID is held until it is cached and returned. */
  lemma {:induction false} HeldUntilKept(cs: seq<Calls>, es: seq<Event>, m: nat, n: nat, hid: ValidID) returns (j: nat)
    requires IsCallRun(cs, es) && m < n <= |es| && es[m].Claim? && Names(cs, es, m, es[m].addr, hid)
    ensures (m < j < n && es[j].addr == es[m].addr && AnswerAt(cs, es, j) == Some(hid))
         || (var p := cs[n].phases; es[m].addr in p && p[es[m].addr].Holding? && p[es[m].addr].id == Some(hid))
    decreases n
  {
    assert Happens(cs, es, n - 1);
    if m == n - 1 {
      ClaimedIsNamed(cs, es, m, hid);
      j := 0;
    } else {
      j := HeldUntilKept(cs, es, m, n - 1, hid);
      if !(m < j < n - 1 && es[j].addr == es[m].addr && AnswerAt(cs, es, j) == Some(hid)) {
        j := n - 1;
      }
    }
  }

  lemma NamedThenGoesBack(cs: seq<Calls>, es: seq<Event>, validity: Time, i: nat, m: nat, s: nat, until: Time)
    returns (j: nat)
    requires IsCallRun(cs, es) && i < m < s < |es| && es[i].Default? && ValidAddr(es[i].addr)
    requires es[s].Keep? && es[s].addr == es[i].addr && until < es[i].now + validity
    requires Names(cs, es, m, es[i].addr, ValidID(DefaultID(es[i].addr), until))
    ensures j < |es| && GoesBack(cs, es, validity, i, j)
  {
    var hid := ValidID(DefaultID(es[i].addr), until);
    j := HeldUntilKept(cs, es, m, s, hid);
    assert Happens(cs, es, i) && Happens(cs, es, s);
    if !(m < j < s && es[j].addr == es[m].addr && AnswerAt(cs, es, j) == Some(hid)) {
      j := s;
    }
    assert Happens(cs, es, j);
  }

  lemma GoesBackThenNamed(cs: seq<Calls>, es: seq<Event>, validity: Time, i: nat, j: nat)
    requires IsCallRun(cs, es) && i < |es| && j < |es| && 0 <= validity && GoesBack(cs, es, validity, i, j)
    ensures es[i].Default? && ValidAddr(es[i].addr) && NamedByDefaultID(cs, es, i, es[i].now + validity)
  {
    OnlyRecordsTakeBack(cs, es, validity, i, j);
    RunTraces(cs, es, i, j);
    assert Happens(cs, es, j);
    var a, hid := es[i].addr, AnswerAt(cs, es, j).value;
    if es[j].Look? {
      RunKeepsAddr(cs, es, j, a);
      var m, s :| i < m < s < j && es[s].Keep? && es[s].addr == a && Names(cs, es, m, a, cs[j].src.cache[a].id.value);
      assert Names(cs, es, m, a, ValidID(DefaultID(a), hid.until));
    } else {
      var m :| i < m < j && Names(cs, es, m, a, cs[j].phases[a].id.value);
      assert Names(cs, es, m, a, ValidID(DefaultID(a), hid.until));
    }
  }

  /** An answer is taken back later in the run exactly if it is a default one and
      afterwards a reply names the address by its own default ID, for less time than
      the default answer had promised. */
  lemma GoesBackIffNamedByDefaultID(cs: seq<Calls>, es: seq<Event>, validity: Time, i: nat)
    requires IsCallRun(cs, es) && i < |es| && 0 <= validity
    ensures (exists j: nat :: j < |es| && GoesBack(cs, es, validity, i, j)) <==>
            es[i].Default? && ValidAddr(es[i].addr) && NamedByDefaultID(cs, es, i, es[i].now + validity)
  {
    if j: nat :| j < |es| && GoesBack(cs, es, validity, i, j) {
      GoesBackThenNamed(cs, es, validity, i, j);
    }
    if es[i].Default? && ValidAddr(es[i].addr) && NamedByDefaultID(cs, es, i, es[i].now + validity) {
      var m, s, until :| i < m < s < |es| && es[s].Keep? && es[s].addr == es[i].addr && until < es[i].now + validity
                         && Names(cs, es, m, es[i].addr, ValidID(DefaultID(es[i].addr), until));
      var j := NamedThenGoesBack(cs, es, validity, i, m, s, until);
    }
  }

  /** No record of a reply names its address by the default ID of the address. */
  ghost predicate NoOwnDefaultNames(es: seq<Event>) {
    forall m, k :: 0 <= m < |es| && es[m].Claim? && 0 <= k < |es[m].answers| && es[m].answers[k].Ptr?
                   && ValidAddr(es[m].addr) ==>
                     FqdnToHumanID(es[m].answers[k].name) != Success(DefaultID(es[m].addr))
  }

  /** Without such a record the two sources never take validity back. */
  lemma CompositeNeverGoesBack(cs: seq<Calls>, es: seq<Event>, validity: Time, i: nat, j: nat)
    requires IsCallRun(cs, es) && i < |es| && j < |es| && 0 <= validity && NoOwnDefaultNames(es)
    ensures !GoesBack(cs, es, validity, i, j)
  {
    if GoesBack(cs, es, validity, i, j) {
      GoesBackThenNamed(cs, es, validity, i, j);
      assert false;
    }
  }

  lemma OnlyRecordIsClaimed(name: string, id: HumanID, ttl: nat, now: Time)
    requires FqdnToHumanID(name) == Success(id) && ttl > 0
    ensures Claimed([Ptr(name, ttl)], map[], now) == Some(ValidID(id, now + ttl * SECOND))
  {
    FirstAcceptableIs([Ptr(name, ttl)], map[], now, 0);
  }

  lemma DefaultIDConverts(addr: Addr)
    requires ValidAddr(addr) && Unmap(addr).zone == ""
    ensures FqdnToHumanID(DefaultID(addr)) == Success(DefaultID(addr))
  {
    DefaultIDIsValidIff(addr);
    FqdnToHumanIDProjects(DefaultID(addr));
  }

  lemma RunGoesOn(cs: seq<Calls>, es: seq<Event>, e: Event) returns (ds: seq<Calls>, fs: seq<Event>)
    requires IsCallRun(cs, es) && CanHappen(cs[|es|], e)
    ensures IsCallRun(ds, fs) && fs == es + [e] && ds == cs + [After(cs[|es|], e)]
  {
    ds, fs := cs + [After(cs[|es|], e)], es + [e];
    forall k | 0 <= k < |fs|
      ensures Happens(ds, fs, k)
    {
      assert k < |es| ==> Happens(cs, es, k);
    }
  }

  /** A first call that fails. */
  lemma FailedCall(a: Addr, t: Time) returns (cs: seq<Calls>, es: seq<Event>)
    requires ValidAddr(a)
    ensures IsCallRun(cs, es) && es == [Look(a, t), Lost(a, t), Default(a, t)]
    ensures cs[3] == Calls(Source(map[], map[]), map[], map[a := t])
  {
    cs, es := RunGoesOn([Calls(Source(map[], map[]), map[], map[])], [], Look(a, t));
    cs, es := RunGoesOn(cs, es, Lost(a, t));
    cs, es := RunGoesOn(cs, es, Default(a, t));
  }

  /** A call at u that finds a record for hid. */
  lemma RecordFound(cs: seq<Calls>, es: seq<Event>, a: Addr, u: Time, rr: RR, hid: ValidID)
    returns (ds: seq<Calls>, fs: seq<Event>)
    requires IsCallRun(cs, es) && ValidAddr(a) && Claimed([rr], map[], u) == Some(hid)
    requires var c := cs[|es|]; c.src == Source(map[], map[]) && c.phases == map[] && (a in c.seen ==> c.seen[a] <= u)
    ensures IsCallRun(ds, fs) && es <= fs && |fs| == |es| + 3 && cs <= ds
    ensures fs[|es| + 2].addr == a && AnswerAt(ds, fs, |es| + 2) == Some(hid)
  {
    ds, fs := RunGoesOn(cs, es, Look(a, u));
    ds, fs := RunGoesOn(ds, fs, Claim(a, u, [rr]));
    assert ds[|es| + 2].phases[a] == Holding(Some(hid), CacheTTL([rr], map[], u));
    ds, fs := RunGoesOn(ds, fs, Keep(a, u));
  }

  /** It does happen, for every address without a zone: after a failed lookup a record
      names the address by its default ID, say by that ID itself, for a short time. */
  lemma OwnDefaultNameGoesBack(a: Addr, ttl: nat, t: Time, u: Time, validity: Time)
    returns (cs: seq<Calls>, es: seq<Event>)
    requires ValidAddr(a) && Unmap(a).zone == "" && ttl > 0 && t <= u && u + ttl * SECOND < t + validity
    ensures IsCallRun(cs, es) && |es| == 6 && es[2].addr == a && GoesBack(cs, es, validity, 2, 5)
  {
    DefaultIDConverts(a);
    OnlyRecordIsClaimed(DefaultID(a), DefaultID(a), ttl, u);
    cs, es := FailedCall(a, t);
    assert Happens(cs, es, 2);
    cs, es := RecordFound(cs, es, a, u, Ptr(DefaultID(a), ttl), ValidID(DefaultID(a), u + ttl * SECOND));
    assert Happens(cs, es, 2) && Happens(cs, es, 5);
  }
}
