/** RDNSIDSource, which takes human IDs from PTR records and caches its answers. */
module RdnsSource {
  import opened Wrappers
  import opened Net
  import opened HumanIDs
  import opened Storage

  datatype RR = Ptr(name: string, ttl: nat) | OtherRR

  const SECOND: Time := 1_000_000_000
  const DEFAULT_CACHE_TTL: Time := 300 * SECOND

  /** What the upstreams reply: nothing, another response code than success, or the
      answers. */
  datatype Response = NoReply | BadReply | Reply(answers: seq<RR>)

  /** A cached answer, until the cache forgets it. */
  datatype Cached = Cached(id: Option<ValidID>, expires: Time)

  datatype Source = Source(existing: map<HumanID, Time>, cache: map<Addr, Cached>)

  /** The clock readings of a call: of the cache lookup, of the claim, and of the
      storing, after which the call returns. */
  datatype Readings = Readings(looked: Time, claimed: Time, stored: Time)

  // ---- Claims ----

  /** humanIDFromPTR would accept the record: a positive TTL, a convertible name, and
      no live claim on the ID. */
  predicate Acceptable(rr: RR, existing: map<HumanID, Time>, now: Time) {
    && rr.Ptr? && rr.ttl != 0
    && FqdnToHumanID(rr.name).Success?
    && var id := FqdnToHumanID(rr.name).value; !(id in existing && existing[id] > now)
  }

  function FirstAcceptable(answers: seq<RR>, existing: map<HumanID, Time>, now: Time): (k: nat)
    ensures k <= |answers| && (k < |answers| ==> Acceptable(answers[k], existing, now))
    ensures forall j :: 0 <= j < k ==> !Acceptable(answers[j], existing, now)
  {
    if answers == [] || Acceptable(answers[0], existing, now) then 0
    else 1 + FirstAcceptable(answers[1..], existing, now)
  }

  /** The ID of the first acceptable record, valid for its TTL. */
  function Claimed(answers: seq<RR>, existing: map<HumanID, Time>, now: Time): Option<ValidID> {
    var k := FirstAcceptable(answers, existing, now);
    if k == |answers| then None
    else Some(ValidID(FqdnToHumanID(answers[k].name).value, now + answers[k].ttl * SECOND))
  }

  /** How long the answer is cached: as long as the record lives. */
  function CacheTTL(answers: seq<RR>, existing: map<HumanID, Time>, now: Time): Time {
    var k := FirstAcceptable(answers, existing, now);
    if k == |answers| then DEFAULT_CACHE_TTL else answers[k].ttl * SECOND
  }

  lemma {:induction false} FirstAcceptableIs(answers: seq<RR>, existing: map<HumanID, Time>, now: Time, k: nat)
    requires k <= |answers| && (k < |answers| ==> Acceptable(answers[k], existing, now))
    requires forall j :: 0 <= j < k ==> !Acceptable(answers[j], existing, now)
    ensures FirstAcceptable(answers, existing, now) == k
  {
  }

  /** A claim is of a valid ID, ends later than every earlier claim of it that is
      still recorded, and is cached from now for as long as it lasts. */
  lemma ClaimedIsLater(answers: seq<RR>, existing: map<HumanID, Time>, now: Time)
    requires Claimed(answers, existing, now).Some?
    ensures var hid := Claimed(answers, existing, now).value;
      && now < hid.until && hid.until == now + CacheTTL(answers, existing, now)
      && IsHumanID(hid.id) && (hid.id in existing ==> existing[hid.id] < hid.until)
  {
    var rr := answers[FirstAcceptable(answers, existing, now)];
    assert rr.ttl >= 1 && rr.ttl * SECOND >= SECOND;
    FqdnToHumanIDProjects(rr.name);
  }

  // ---- Calls ----

  function AfterReply(src: Source, addr: Addr, answers: seq<RR>, at: Readings): Source {
    var id := Claimed(answers, src.existing, at.claimed);
    Source(
      if id.Some? then src.existing[id.value.id := id.value.until] else src.existing,
      src.cache[addr := Cached(id, at.stored + CacheTTL(answers, src.existing, at.claimed))])
  }

  predicate IsCached(src: Source, addr: Addr, now: Time) {
    addr in src.cache && now <= src.cache[addr].expires
  }

  function IdentifyByPTR(src: Source, addr: Addr, response: Response, at: Readings): (Source, Option<ValidID>) {
    if IsCached(src, addr, at.looked) then (src, src.cache[addr].id)
    else match response
      case NoReply => (src, None)
      case BadReply => (src.(cache := src.cache[addr := Cached(None, at.stored + DEFAULT_CACHE_TTL)]), None)
      case Reply(answers) => (AfterReply(src, addr, answers, at), Claimed(answers, src.existing, at.claimed))
  }

  /** How long a new answer stays in the cache: as many seconds as the record lives, five
      minutes if there is no ID, and not at all if there was no reply. */
  lemma AnswerIsCachedFor(src: Source, addr: Addr, response: Response, at: Readings, t: Time)
    requires !IsCached(src, addr, at.looked)
    ensures var (after, id) := IdentifyByPTR(src, addr, response, at);
      && (response.NoReply? ==> after == src && id.None?)
      && (!response.NoReply? ==>
            addr in after.cache && after.cache[addr].id == id
            && (id.None? ==> (IsCached(after, addr, t) <==> t <= at.stored + 300_000_000_000)))
      && (id.Some? ==>
            var k := FirstAcceptable(response.answers, src.existing, at.claimed);
            && id.value.until == at.claimed + response.answers[k].ttl * 1_000_000_000
            && (IsCached(after, addr, t) <==> t <= at.stored + response.answers[k].ttl * 1_000_000_000))
  {
  }

  /** The cache drops an expired answer; its ID is released by name, whoever has
      claimed it since. */
  function Evict(src: Source, addr: Addr): Source {
    if addr !in src.cache then src
    else
      var id := src.cache[addr].id;
      Source(if id.Some? then src.existing - {id.value.id} else src.existing, src.cache - {addr})
  }

  class RDNSIDSource {
    var existingIDs: map<HumanID, Time>
    var cache: map<Addr, Cached>

    constructor ()
      ensures View() == Source(map[], map[])
    {
      existingIDs, cache := map[], map[];
    }

    function View(): Source
      reads this
    {
      Source(existingIDs, cache)
    }

    method CheckDuplicates(id: HumanID, now: Time, ttl: Time) returns (ok: bool)
      modifies this`existingIDs
      ensures ok <==> !(id in old(existingIDs) && old(existingIDs)[id] > now)
      ensures existingIDs == if ok then old(existingIDs)[id := now + ttl] else old(existingIDs)
    {
      if id in existingIDs && existingIDs[id] > now {
        return false;
      }
      existingIDs := existingIDs[id := now + ttl];
      ok := true;
    }

    method HumanIDFromPTR(rr: RR, now: Time) returns (r: Option<(HumanID, Time)>)
      requires rr.Ptr?
      modifies this`existingIDs
      ensures r.Some? <==> Acceptable(rr, old(existingIDs), now)
      ensures r.None? ==> existingIDs == old(existingIDs)
      ensures r.Some? ==>
                && r.value == (FqdnToHumanID(rr.name).value, rr.ttl * SECOND)
                && existingIDs == old(existingIDs)[r.value.0 := now + r.value.1]
    {
      var ttl := rr.ttl * SECOND;
      if ttl == 0 {
        return None;
      }
      var id := FqdnToHumanID(rr.name);
      if id.Failure? {
        return None;
      }
      var ok := CheckDuplicates(id.value, now, ttl);
      r := if ok then Some((id.value, ttl)) else None;
    }

    /** The loop over the answers: claims the ID of the first acceptable record and no
        other, or leaves the claims alone; ttl is how long to cache the outcome. */
    method ClaimFirst(answers: seq<RR>, now: Time) returns (id: Option<ValidID>, ttl: Time)
      modifies this`existingIDs
      ensures id == Claimed(answers, old(existingIDs), now) && ttl == CacheTTL(answers, old(existingIDs), now)
      ensures existingIDs == if id.Some? then old(existingIDs)[id.value.id := id.value.until] else old(existingIDs)
    {
      ghost var k := FirstAcceptable(answers, existingIDs, now);
      for i := 0 to |answers|
        invariant existingIDs == old(existingIDs) && i <= k
      {
        if answers[i].Ptr? {
          var r := HumanIDFromPTR(answers[i], now);
          if r.Some? {
            assert i == k;
            id, ttl := Some(ValidID(r.value.0, now + r.value.1)), r.value.1;
            return;
          }
        }
      }
      id, ttl := None, DEFAULT_CACHE_TTL;
    }

    method HumanIDFromResponse(answers: seq<RR>, addr: Addr, at: Readings) returns (id: Option<ValidID>)
      modifies this
      ensures View() == AfterReply(old(View()), addr, answers, at)
      ensures id == Claimed(answers, old(existingIDs), at.claimed)
    {
      var ttl;
      id, ttl := ClaimFirst(answers, at.claimed);
      cache := cache[addr := Cached(id, at.stored + ttl)];
    }

    method Identify(addr: Addr, response: Response, at: Readings) returns (id: Option<ValidID>)
      modifies this
      ensures (View(), id) == IdentifyByPTR(old(View()), addr, response, at)
    {
      if addr in cache && at.looked <= cache[addr].expires {
        return cache[addr].id;
      }
      if response.NoReply? {
        return None;
      }
      if response.BadReply? {
        cache := cache[addr := Cached(None, at.stored + DEFAULT_CACHE_TTL)];
        return None;
      }
      id := HumanIDFromResponse(response.answers, addr, at);
    }

    /** The cache removes an item and calls back. */
    method OnEvicted(addr: Addr)
      modifies this
      ensures View() == Evict(old(View()), addr)
    {
      if addr in cache {
        var id := cache[addr].id;
        cache := cache - {addr};
        if id.Some? {
          existingIDs := existingIDs - {id.value.id};
        }
      }
    }
  }
}
