/** Garbage collection cannot be observed: a storage that runs cleanExpired at any
    times and one that never does answer every later Get alike. */
module Expiry {
  import opened Wrappers
  import opened Net
  import opened Storage

  datatype Op =
    | GetOp(slot: nat, addr: Addr, now: Time, source: Option<ValidID>, built: bool)
    | GcOp(now: Time)

  predicate InRange(slots: nat, ops: seq<Op>) {
    forall o :: o in ops && o.GetOp? ==> o.slot < slots
  }

  /** No Get has a clock reading older than a collection before it; t is the latest
      reading of a collection so far.  The readings are in no other order. */
  predicate Fresh(t: Time, ops: seq<Op>) {
    && (forall j :: 0 <= j < |ops| && ops[j].GetOp? ==> t <= ops[j].now)
    && (forall i, j :: 0 <= i < j < |ops| && ops[i].GcOp? && ops[j].GetOp? ==> ops[i].now <= ops[j].now)
  }

  lemma FreshRest(t: Time, ops: seq<Op>)
    requires ops != [] && Fresh(t, ops)
    ensures Fresh(if ops[0].GcOp? then Later(t, ops[0].now) else t, ops[1..])
  {
    var rest := ops[1..];
    assert forall j :: 0 <= j < |rest| ==> rest[j] == ops[j + 1];
  }

  function Later(t: Time, u: Time): Time {
    if t < u then u else t
  }

  /** What the Gets of a run return. */
  function Answers(st: Store, ops: seq<Op>): seq<Option<Client>>
    requires InRange(|st.clients|, ops)
    decreases |ops|
  {
    if ops == [] then []
    else
      match ops[0]
      case GetOp(slot, addr, now, source, built) =>
        var r := Get(st, slot, addr, now, source, built);
        [r.1] + Answers(r.0, ops[1..])
      case GcOp(now) => Answers(Collect(st, now), ops[1..])
  }

  function GetsOnly(ops: seq<Op>): (r: seq<Op>)
    ensures forall o :: o in r <==> o in ops && o.GetOp?
  {
    if ops == [] then []
    else
      var rest := GetsOnly(ops[1..]);
      if ops[0].GcOp? then rest
      else
        assert ([ops[0]] + rest)[1..] == rest;
        [ops[0]] + rest
  }

  /** The two storages agree on everything that is live after t; what only the
      uncollected one still has expired by then, each map with its own boundary. */
  ghost predicate Agree(collected: Store, full: Store, t: Time) {
    && |collected.clients| == |full.clients| && collected.created == full.created
    && (forall i, a :: 0 <= i < |full.clients| && a in collected.clients[i] ==>
          a in full.clients[i] && full.clients[i][a] == collected.clients[i][a])
    && (forall i, a :: 0 <= i < |full.clients| && a in full.clients[i] && a !in collected.clients[i] ==>
          full.clients[i][a].hid.until <= t)
    && (forall x :: x in collected.identified ==>
          x in full.identified && full.identified[x] == collected.identified[x])
    && (forall x :: x in full.identified && x !in collected.identified ==> full.identified[x].hid.until < t)
  }

  lemma CollectAgrees(collected: Store, full: Store, t: Time, now: Time)
    requires Agree(collected, full, t)
    ensures Agree(Collect(collected, now), full, Later(t, now))
  {
  }

  lemma FindAgrees(collected: Store, full: Store, t: Time, slot: nat, addr: Addr, now: Time)
    requires Agree(collected, full, t) && t <= now && slot < |full.clients|
    ensures FoundValid(collected.clients[slot], addr, now) == FoundValid(full.clients[slot], addr, now)
    ensures Agree(Found(collected, slot, addr, now), Found(full, slot, addr, now), t)
  {
  }

  lemma ConflictsAgree(collected: Store, full: Store, t: Time, addr: Addr, hid: ValidID, now: Time)
    requires Agree(collected, full, t) && t <= now
    ensures Conflicts(collected.identified, addr, hid, now) == Conflicts(full.identified, addr, hid, now)
    ensures Agree(Identified(collected, addr, hid), Identified(full, addr, hid), t)
  {
  }

  lemma StoreAgrees(collected: Store, full: Store, t: Time, slot: nat, addr: Addr, hid: ValidID)
    requires Agree(collected, full, t) && slot < |full.clients|
    ensures Agree(Stored(collected, slot, addr, hid), Stored(full, slot, addr, hid), t)
  {
  }

  lemma GetAgrees(collected: Store, full: Store, t: Time,
                  slot: nat, addr: Addr, now: Time, source: Option<ValidID>, built: bool)
    requires Agree(collected, full, t) && t <= now && slot < |full.clients|
    ensures var c, f := Get(collected, slot, addr, now, source, built), Get(full, slot, addr, now, source, built);
      c.1 == f.1 && |f.0.clients| == |full.clients| && Agree(c.0, f.0, t)
  {
    FindAgrees(collected, full, t, slot, addr, now);
    var c1, f1 := Found(collected, slot, addr, now), Found(full, slot, addr, now);
    if source.Some? {
      ConflictsAgree(c1, f1, t, addr, source.value, now);
      StoreAgrees(Identified(c1, addr, source.value), Identified(f1, addr, source.value), t, slot, addr, source.value);
    }
  }

  lemma {:induction false} RunsAgree(collected: Store, full: Store, t: Time, ops: seq<Op>)
    requires Agree(collected, full, t) && Fresh(t, ops) && InRange(|full.clients|, ops)
    ensures Answers(collected, ops) == Answers(full, GetsOnly(ops))
    decreases |ops|
  {
    if ops != [] {
      FreshRest(t, ops);
      match ops[0]
      case GetOp(slot, addr, now, source, built) =>
        GetAgrees(collected, full, t, slot, addr, now, source, built);
        RunsAgree(Get(collected, slot, addr, now, source, built).0,
                  Get(full, slot, addr, now, source, built).0, t, ops[1..]);
        assert ([ops[0]] + GetsOnly(ops[1..]))[1..] == GetsOnly(ops[1..]);
      case GcOp(now) =>
        CollectAgrees(collected, full, t, now);
        RunsAgree(Collect(collected, now), full, Later(t, now), ops[1..]);
    }
  }

  /** Removing every garbage collection from a run changes no answer, whenever the
      collections ran and whatever their clock readings, as long as no Get has an
      older one than a collection before it. */
  lemma CollectionIsInvisible(st: Store, ops: seq<Op>)
    requires forall o :: o in ops && o.GetOp? ==> o.slot < |st.clients|
    requires forall i, j :: 0 <= i < j < |ops| && ops[i].GcOp? && ops[j].GetOp? ==> ops[i].now <= ops[j].now
    ensures Answers(st, ops) == Answers(st, GetsOnly(ops))
  {
    var t := Earliest(ops);
    RunsAgree(st, st, t, ops);
  }

  lemma {:induction false} Earliest(ops: seq<Op>) returns (t: Time)
    ensures forall j :: 0 <= j < |ops| ==> t <= ops[j].now
  {
    t := 0;
    if ops != [] {
      var n := |ops| - 1;
      t := Earliest(ops[..n]);
      t := if t < ops[n].now then t else ops[n].now;
    }
  }

  // ---- When a collection is seen ----

  /** A collection at g takes a client away from a Get at now. */
  predicate TakesClient(m: map<Addr, Client>, addr: Addr, now: Time, g: Time) {
    addr in m && now < m[addr].hid.until <= g
  }

  /** A collection at g takes away a conflict from a Get at now. */
  predicate TakesConflict(identified: map<HumanID, Identity>, addr: Addr, id: HumanID, now: Time, g: Time) {
    id in identified && identified[id].addr != addr && now < identified[id].hid.until < g
  }

  lemma LookupSeesCollectionIff(m: map<Addr, Client>, addr: Addr, now: Time, g: Time)
    ensures FoundValid(KeptClients(m, g), addr, now) == FoundValid(m, addr, now) <==> !TakesClient(m, addr, now, g)
  {
  }

  lemma CheckSeesCollectionIff(identified: map<HumanID, Identity>, addr: Addr, hid: ValidID, now: Time, g: Time)
    ensures Conflicts(KeptIdentities(identified, g), addr, hid, now) == Conflicts(identified, addr, hid, now)
       <==> !TakesConflict(identified, addr, hid.id, now, g)
  {
  }

  /** A Get at now is the same with and without a collection at g before it, whatever
      the source and the constructor answer, exactly when the collection takes
      neither its client nor, if it has none, a conflict.  At g <= now it never does. */
  lemma GetSeesCollectionIff(st: Store, slot: nat, addr: Addr, now: Time, g: Time)
    requires slot < |st.clients|
    ensures (forall source, built ::
               Get(Collect(st, g), slot, addr, now, source, built).1 == Get(st, slot, addr, now, source, built).1)
       <==>
         && !TakesClient(st.clients[slot], addr, now, g)
         && (FoundValid(st.clients[slot], addr, now).Some? ||
               forall id :: !TakesConflict(st.identified, addr, id, now, g))
  {
    var m := st.clients[slot];
    LookupSeesCollectionIff(m, addr, now, g);
    if TakesClient(m, addr, now, g) {
      assert Get(Collect(st, g), slot, addr, now, None, true).1 != Get(st, slot, addr, now, None, true).1;
    } else if FoundValid(m, addr, now).None? {
      if id :| TakesConflict(st.identified, addr, id, now, g) {
        var source := Some(ValidID(id, now));
        CheckSeesCollectionIff(st.identified, addr, source.value, now, g);
        assert Get(Collect(st, g), slot, addr, now, source, true).1 != Get(st, slot, addr, now, source, true).1;
      } else {
        forall source: Option<ValidID>, built
          ensures Get(Collect(st, g), slot, addr, now, source, built).1 == Get(st, slot, addr, now, source, built).1
        {
          if source.Some? {
            CheckSeesCollectionIff(st.identified, addr, source.value, now, g);
          }
        }
      }
    }
  }

  /** One such run: a client valid until 10 is collected at 10 and missed by a Get
      whose clock reading is 5. */
  lemma StaleGetSeesCollection(addr: Addr, hid: ValidID)
    ensures var st := OneClient(addr);
      var ops := [GcOp(10), GetOp(0, addr, 5, Some(hid), true)];
      Answers(st, ops) != Answers(st, GetsOnly(ops))
  {
    var st := OneClient(addr);
    var get := GetOp(0, addr, 5, Some(hid), true);
    var ops := [GcOp(10), get];
    assert ops[1..] == [get] && [get][1..] == [];
    assert GetsOnly([get]) == [get] + GetsOnly([]);
    assert GetsOnly(ops) == [get];
    assert Answers(st, [get])[0] == Get(st, 0, addr, 5, Some(hid), true).1;
    assert Answers(Collect(st, 10), [get])[0] == Get(Collect(st, 10), 0, addr, 5, Some(hid), true).1;
    LookupSeesCollectionIff(st.clients[0], addr, 5, 10);
  }

  /** A stored client, valid until 10, with its identity. */
  function OneClient(addr: Addr): Store {
    var hid := ValidID("a", 10);
    Store([map[addr := Client(0, 0, addr, hid)]], map["a" := Identity(addr, hid)], 1, multiset{})
  }

  /** Two addresses hold one ID, both for longer than n. */
  predicate ShareLiveID(st: Store, slot: nat, a: Addr, b: Addr, x: HumanID, n: Time)
    requires slot < |st.clients|
  {
    var m := st.clients[slot];
    && a in m && m[a].hid.id == x && n < m[a].hid.until
    && b in m && m[b].hid.id == x && n < m[b].hid.until
  }

  /** The storage after two Gets of one address, in two slots, for which the source
      says that its ID is valid until u, and then until v. */
  function TwiceIdentified(a: Addr, x: HumanID, m: Time, u: Time, v: Time): Store {
    Get(Get(Store([map[], map[]], map[], 0, multiset{}), 0, a, m, Some(ValidID(x, u)), true).0,
        1, a, m, Some(ValidID(x, v)), true).0
  }

  lemma TwiceIdentifiedIs(a: Addr, x: HumanID, m: Time, u: Time, v: Time)
    ensures TwiceIdentified(a, x, m, u, v) ==
      Store([map[a := Client(0, 0, a, ValidID(x, u))], map[a := Client(1, 1, a, ValidID(x, v))]],
            map[x := Identity(a, ValidID(x, v))], 2, multiset{})
  {
    var empty: map<Addr, Client> := map[];
    var s1 := Get(Store([empty, empty], map[], 0, multiset{}), 0, a, m, Some(ValidID(x, u)), true).0;
    assert s1 == Store([map[a := Client(0, 0, a, ValidID(x, u))], empty],
                       map[x := Identity(a, ValidID(x, u))], 1, multiset{});
  }

  /** A source that takes validity back for one address and ID breaks uniqueness: a Get
      of another address for the same ID then makes two live holders exactly if its
      clock reading is in the time taken back. */
  lemma BackdatedSourceBreaksUniqueness(a: Addr, b: Addr, x: HumanID, m: Time, u: Time, v: Time, n: Time, w: Time)
    requires a != b && n < w
    ensures var st := Get(TwiceIdentified(a, x, m, u, v), 0, b, n, Some(ValidID(x, w)), true).0;
      ShareLiveID(st, 0, a, b, x, n) <==> v <= n < u
  {
    TwiceIdentifiedIs(a, x, m, u, v);
  }
}
