/** The mutable half of the client storage: the clients maps of the autodevice
    slots and the map of identities in use.

    Every critical section of defaultstorage.go is one function here.  The
    protocol interleaves them; this module runs whole Gets and garbage collections
    one after another, and proves that collecting garbage cannot be observed. */
module Storage {
  import opened Wrappers
  import opened Net

  type Time = int

  type HumanID = string

  datatype ValidID = ValidID(id: HumanID, until: Time)

  datatype Identity = Identity(addr: Addr, hid: ValidID)

  /** An autodeviceClient.  Its upstream is determined by the slot's configuration
      and the human ID; uid tells one object from another. */
  datatype Client = Client(uid: nat, slot: nat, addr: Addr, hid: ValidID)

  // ---- Critical sections ----

  /** findValidAutodeviceClient: what it returns, what it leaves, what it hands to
      setFinalizer. */
  function FoundValid(clients: map<Addr, Client>, addr: Addr, now: Time): Option<Client> {
    if addr in clients && clients[addr].hid.until > now then Some(clients[addr]) else None
  }

  function AfterFind(clients: map<Addr, Client>, addr: Addr, now: Time): map<Addr, Client> {
    if addr in clients && !(clients[addr].hid.until > now) then clients - {addr} else clients
  }

  function FinalizedByFind(clients: map<Addr, Client>, addr: Addr, now: Time): multiset<Client> {
    if addr in clients && !(clients[addr].hid.until > now) then multiset{clients[addr]} else multiset{}
  }

  /** The duplicate check of identify. */
  predicate Conflicts(identified: map<HumanID, Identity>, addr: Addr, hid: ValidID, now: Time) {
    hid.id in identified && identified[hid.id].addr != addr && identified[hid.id].hid.until > now
  }

  /** cleanExpiredClients. */
  function KeptClients(clients: map<Addr, Client>, now: Time): map<Addr, Client> {
    map a | a in clients && now < clients[a].hid.until :: clients[a]
  }

  function DroppedClients(clients: map<Addr, Client>, now: Time): set<Client> {
    set a | a in clients && !(now < clients[a].hid.until) :: clients[a]
  }

  /** The second loop of cleanExpired. */
  function KeptIdentities(identified: map<HumanID, Identity>, now: Time): map<HumanID, Identity> {
    map i | i in identified && !(identified[i].hid.until < now) :: identified[i]
  }

  // ---- The storage, one operation at a time ----

  datatype Store = Store(
    clients: seq<map<Addr, Client>>,
    identified: map<HumanID, Identity>,
    created: nat,
    finalized: multiset<Client>)

  /** The storage after each critical section of a Get: the lookup, the identity
      check that finds no duplicate, and the storing of a new client. */
  function Found(st: Store, slot: nat, addr: Addr, now: Time): Store
    requires slot < |st.clients|
  {
    st.(
    clients := st.clients[slot := AfterFind(st.clients[slot], addr, now)],
    finalized := st.finalized + FinalizedByFind(st.clients[slot], addr, now))
  }

  function Identified(st: Store, addr: Addr, hid: ValidID): Store {
    st.(identified := st.identified[hid.id := Identity(addr, hid)])
  }

  function Stored(st: Store, slot: nat, addr: Addr, hid: ValidID): Store
    requires slot < |st.clients|
  {
    var c := Client(st.created, slot, addr, hid);
    st.(clients := st.clients[slot := st.clients[slot][addr := c]], created := st.created + 1)
  }

  /** An uninterrupted Get that selected an autodevice slot: now is its clock
      reading, source what the human ID source answers, built whether the upstream
      constructor succeeds. */
  function Get(st: Store, slot: nat, addr: Addr, now: Time, source: Option<ValidID>, built: bool)
    : (Store, Option<Client>)
    requires slot < |st.clients|
  {
    var found := FoundValid(st.clients[slot], addr, now);
    var st1 := Found(st, slot, addr, now);
    if found.Some? then (st, found)
    else if source.None? || Conflicts(st1.identified, addr, source.value, now) then (st1, None)
    else
      var st2 := Identified(st1, addr, source.value);
      if !built then (st2, None)
      else (Stored(st2, slot, addr, source.value), Some(Client(st2.created, slot, addr, source.value)))
  }

  function AllDropped(clients: seq<map<Addr, Client>>, now: Time): multiset<Client> {
    if clients == [] then multiset{}
    else AllDropped(clients[..|clients| - 1], now) + multiset(DroppedClients(clients[|clients| - 1], now))
  }

  /** An uninterrupted cleanExpired. */
  function Collect(st: Store, now: Time): Store {
    st.(
    clients := seq(|st.clients|, i requires 0 <= i < |st.clients| => KeptClients(st.clients[i], now)),
    identified := KeptIdentities(st.identified, now),
    finalized := st.finalized + AllDropped(st.clients, now))
  }

  /** Stored clients are filed under their own address, identities under their own
      ID. */
  ghost predicate Filed(st: Store) {
    && (forall i, a :: 0 <= i < |st.clients| && a in st.clients[i] ==> st.clients[i][a].addr == a)
    && (forall x :: x in st.identified ==> st.identified[x].hid.id == x)
  }

  lemma CollectKeepsFiled(st: Store, now: Time)
    requires Filed(st)
    ensures Filed(Collect(st, now))
  {
  }

  /** The clients of a slot, and those handed to setFinalizer, when the addresses in
      todo are still to be looked at. */
  ghost function Swept(m: map<Addr, Client>, todo: set<Addr>, now: Time): map<Addr, Client> {
    map a | a in m && (a in todo || now < m[a].hid.until) :: m[a]
  }

  ghost function SweptAway(m: map<Addr, Client>, todo: set<Addr>, now: Time): set<Client> {
    set a | a in m && a !in todo && !(now < m[a].hid.until) :: m[a]
  }

  lemma NothingSwept(m: map<Addr, Client>, now: Time)
    ensures Swept(m, m.Keys, now) == m && SweptAway(m, m.Keys, now) == {}
  {
  }

  lemma SweepOne(m: map<Addr, Client>, todo: set<Addr>, now: Time, a: Addr)
    requires a in todo && todo <= m.Keys && forall b :: b in m ==> m[b].addr == b
    ensures a in Swept(m, todo, now) && Swept(m, todo, now)[a] == m[a]
    ensures now < m[a].hid.until ==> Swept(m, todo - {a}, now) == Swept(m, todo, now)
    ensures now < m[a].hid.until ==> SweptAway(m, todo - {a}, now) == SweptAway(m, todo, now)
    ensures !(now < m[a].hid.until) ==> Swept(m, todo - {a}, now) == Swept(m, todo, now) - {a}
    ensures !(now < m[a].hid.until) ==>
      multiset(SweptAway(m, todo - {a}, now)) == multiset(SweptAway(m, todo, now)) + multiset{m[a]}
  {
    var gone := SweptAway(m, todo, now);
    assert m[a] !in gone;
    if now < m[a].hid.until {
      assert SweptAway(m, todo - {a}, now) == gone;
    } else {
      assert SweptAway(m, todo - {a}, now) == gone + {m[a]};
    }
  }

  /** DefaultStorage's state as the source keeps it: updated in place. */
  class DefaultStorage {
    var clients: seq<map<Addr, Client>>
    var identified: map<HumanID, Identity>
    var created: nat
    var finalized: multiset<Client>

    function View(): Store
      reads this
    {
      Store(clients, identified, created, finalized)
    }

    constructor (slots: nat)
      ensures View() == Store(seq(slots, _ => map[]), map[], 0, multiset{})
      ensures Filed(View())
    {
      clients := seq(slots, _ => map[]);
      identified, created, finalized := map[], 0, multiset{};
    }

    method FindValid(addr: Addr, slot: nat, now: Time) returns (c: Option<Client>)
      requires slot < |clients|
      modifies this`clients, this`finalized
      ensures c == FoundValid(old(clients[slot]), addr, now)
      ensures clients == old(clients)[slot := AfterFind(old(clients[slot]), addr, now)]
      ensures finalized == old(finalized) + FinalizedByFind(old(clients[slot]), addr, now)
    {
      if addr in clients[slot] {
        var auto := clients[slot][addr];
        if auto.hid.until > now {
          return Some(auto);
        }
        clients := clients[slot := clients[slot] - {addr}];
        finalized := finalized + multiset{auto};
      }
      c := None;
    }

    /** The part of identify after the source has answered. */
    method CheckIdentity(addr: Addr, hid: ValidID, now: Time) returns (duplicated: bool)
      modifies this`identified
      ensures duplicated <==> Conflicts(old(identified), addr, hid, now)
      ensures identified == if duplicated then old(identified) else old(identified)[hid.id := Identity(addr, hid)]
    {
      if hid.id in identified {
        var existing := identified[hid.id];
        if existing.addr != addr && existing.hid.until > now {
          return true;
        }
      }
      identified := identified[hid.id := Identity(addr, hid)];
      duplicated := false;
    }

    method GetClient(slot: nat, addr: Addr, now: Time, source: Option<ValidID>, built: bool)
      returns (c: Option<Client>)
      requires slot < |clients|
      modifies this
      ensures (View(), c) == Get(old(View()), slot, addr, now, source, built)
    {
      c := FindValid(addr, slot, now);
      if c.Some? {
        assert clients == old(clients) && finalized == old(finalized);
        return;
      }
      if source.None? {
        return;
      }
      var duplicated := CheckIdentity(addr, source.value, now);
      if duplicated || !built {
        return;
      }
      var auto := Client(created, slot, addr, source.value);
      created := created + 1;
      clients := clients[slot := clients[slot][addr := auto]];
      c := Some(auto);
    }

    method CleanExpiredClients(slot: nat, now: Time)
      requires slot < |clients|
      requires forall a :: a in clients[slot] ==> clients[slot][a].addr == a
      modifies this`clients, this`finalized
      ensures clients == old(clients)[slot := KeptClients(old(clients[slot]), now)]
      ensures finalized == old(finalized) + multiset(DroppedClients(old(clients[slot]), now))
    {
      ghost var m := clients[slot];
      var todo := clients[slot].Keys;
      NothingSwept(m, now);
      while todo != {}
        invariant todo <= m.Keys
        invariant clients == old(clients)[slot := Swept(m, todo, now)]
        invariant finalized == old(finalized) + multiset(SweptAway(m, todo, now))
        decreases todo
      {
        var a :| a in todo;
        SweepOne(m, todo, now, a);
        if !(now < clients[slot][a].hid.until) {
          finalized := finalized + multiset{clients[slot][a]};
          clients := clients[slot := clients[slot] - {a}];
        }
        todo := todo - {a};
      }
      assert Swept(m, {}, now) == KeptClients(m, now) && SweptAway(m, {}, now) == DroppedClients(m, now);
    }

    method CleanIdentities(now: Time)
      requires forall x :: x in identified ==> identified[x].hid.id == x
      modifies this`identified
      ensures identified == KeptIdentities(old(identified), now)
    {
      ghost var m := identified;
      var todo := identified.Keys;
      while todo != {}
        invariant todo <= m.Keys
        invariant identified == map x | x in m && (x in todo || !(m[x].hid.until < now)) :: m[x]
        decreases todo
      {
        var x :| x in todo;
        var id := identified[x];
        if id.hid.until < now {
          identified := identified - {id.hid.id};
        }
        todo := todo - {x};
      }
    }

    method CleanAllClients(now: Time)
      requires Filed(View())
      modifies this`clients, this`finalized
      ensures clients == Collect(old(View()), now).clients && finalized == Collect(old(View()), now).finalized
    {
      ghost var all := clients;
      for i := 0 to |clients|
        invariant |clients| == |all|
        invariant forall k :: 0 <= k < i ==> clients[k] == KeptClients(all[k], now)
        invariant forall k :: i <= k < |all| ==> clients[k] == all[k]
        invariant finalized == old(finalized) + AllDropped(all[..i], now)
      {
        assert all[..i + 1][..i] == all[..i];
        CleanExpiredClients(i, now);
      }
      assert all[..|all|] == all;
    }

    method CleanExpired(now: Time)
      requires Filed(View())
      modifies this
      ensures View() == Collect(old(View()), now)
      ensures Filed(View())
    {
      CleanAllClients(now);
      CleanIdentities(now);
      CollectKeepsFiled(old(View()), now);
    }
  }
}
