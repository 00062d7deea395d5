/** The single-flight queue: one leader per key, everybody else waits for the
    leader's result.

    Each shared operation of queue.go is one function on a queue value, so that
    the protocol can interleave them.  A queued result is named by its index in
    entries; an entry without a result has an open channel.  The thread that
    stored an entry is recorded in it for the proofs. */
module SingleFlight {
  import opened Wrappers

  datatype Entry<K, V> = Entry(key: K, leader: nat, result: Option<V>)

  datatype Queue<K, V> = Queue(m: map<K, nat>, entries: seq<Entry<K, V>>)

  function NewQueue<K, V>(): Queue<K, V> {
    Queue(map[], [])
  }

  /** LoadOrStore of an open entry. */
  function LoadOrStore<K, V>(q: Queue<K, V>, key: K, thread: nat): Queue<K, V> {
    if key in q.m then q
    else Queue(q.m[key := |q.entries|], q.entries + [Entry(key, thread, None)])
  }

  /** done can go on: the entry is there and its channel is still open.  Otherwise
      it panics, by itself or in close. */
  predicate CanPublish<K, V>(q: Queue<K, V>, key: K) {
    key in q.m && q.m[key] < |q.entries| && q.entries[q.m[key]].result.None?
  }

  /** Writing the result and closing the channel. */
  function Publish<K, V>(q: Queue<K, V>, key: K, v: V): Queue<K, V>
    requires CanPublish(q, key)
  {
    var e := q.m[key];
    q.(entries := q.entries[e := q.entries[e].(result := Some(v))])
  }

  function Remove<K, V>(q: Queue<K, V>, key: K): Queue<K, V> {
    q.(m := q.m - {key})
  }

  /** A waiter can go on once the channel of its entry is closed. */
  predicate Ready<K, V>(q: Queue<K, V>, e: nat) {
    e < |q.entries| && q.entries[e].result.Some?
  }

  /** The queue as the source's object.  Waiting on the channel is left to the
      protocol: Push returns the entry a waiter has to wait on. */
  class SharedQueue<K(==), V> {
    var q: Queue<K, V>

    constructor ()
      ensures q == NewQueue()
    {
      q := NewQueue();
    }

    method Push(key: K, thread: nat) returns (entry: nat, loaded: bool)
      modifies this
      ensures loaded <==> key in old(q.m)
      ensures q == LoadOrStore(old(q), key, thread)
      ensures key in q.m && q.m[key] == entry
      ensures !loaded ==> CanPublish(q, key)
    {
      if key in q.m {
        return q.m[key], true;
      }
      entry, loaded := |q.entries|, false;
      q := Queue(q.m[key := entry], q.entries + [Entry(key, thread, None)]);
    }

    /** Returns false where the source panics, then nothing has changed. */
    method Done(key: K, v: V) returns (ok: bool)
      modifies this
      ensures ok <==> CanPublish(old(q), key)
      ensures ok ==> q == Remove(Publish(old(q), key, v), key)
      ensures !ok ==> q == old(q)
    {
      if key !in q.m || q.m[key] >= |q.entries| || q.entries[q.m[key]].result.Some? {
        return false;
      }
      var e := q.m[key];
      q := q.(entries := q.entries[e := q.entries[e].(result := Some(v))]);
      q := q.(m := q.m - {key});
      ok := true;
    }
  }

  // ---- What every interleaving keeps ----

  /** What a thread is to one queue. */
  datatype Role<K> =
    | Outside
    | Waiting(key: K, entry: nat)
    | Leading(key: K)
    | Deleting(key: K)

  predicate Leads<K>(r: Role<K>) {
    r.Leading? || r.Deleting?
  }

  /** Each mapped key has an entry whose leader is at work: before publishing while
      the entry is open, between publishing and deleting after. */
  ghost predicate MappedOk<K(!new), V>(q: Queue<K, V>, roles: seq<Role<K>>) {
    forall k :: k in q.m ==>
      && q.m[k] < |q.entries|
      && q.entries[q.m[k]].key == k
      && q.entries[q.m[k]].leader < |roles|
      && roles[q.entries[q.m[k]].leader] == if q.entries[q.m[k]].result.None? then Leading(k) else Deleting(k)
  }

  ghost predicate LeadersOk<K(!new), V>(q: Queue<K, V>, roles: seq<Role<K>>) {
    forall t :: 0 <= t < |roles| && Leads(roles[t]) ==>
      roles[t].key in q.m && q.m[roles[t].key] < |q.entries| && q.entries[q.m[roles[t].key]].leader == t
  }

  /** No open entry is orphaned. */
  ghost predicate OpenOk<K(!new), V>(q: Queue<K, V>) {
    forall e :: 0 <= e < |q.entries| && q.entries[e].result.None? ==>
      q.entries[e].key in q.m && q.m[q.entries[e].key] == e
  }

  ghost predicate WaitersOk<K(!new), V>(q: Queue<K, V>, roles: seq<Role<K>>) {
    forall t :: 0 <= t < |roles| && roles[t].Waiting? ==>
      roles[t].entry < |q.entries| && q.entries[roles[t].entry].key == roles[t].key
  }

  ghost predicate QueueInv<K(!new), V>(q: Queue<K, V>, roles: seq<Role<K>>) {
    MappedOk(q, roles) && LeadersOk(q, roles) && OpenOk(q) && WaitersOk(q, roles)
  }

  lemma AtMostOneLeader<K(!new), V>(q: Queue<K, V>, roles: seq<Role<K>>, t: nat, u: nat)
    requires QueueInv(q, roles) && t < |roles| && u < |roles|
    requires Leads(roles[t]) && Leads(roles[u]) && roles[t].key == roles[u].key
    ensures t == u
  {
  }

  lemma WaiterHasLeader<K(!new), V>(q: Queue<K, V>, roles: seq<Role<K>>, t: nat)
    requires QueueInv(q, roles) && t < |roles| && roles[t].Waiting?
    ensures Ready(q, roles[t].entry)
         || (roles[t].entry < |q.entries| && q.entries[roles[t].entry].leader < |roles|
             && roles[q.entries[roles[t].entry].leader] == Leading(roles[t].key))
  {
  }

  lemma WaitKeepsQueue<K(!new), V>(q: Queue<K, V>, roles: seq<Role<K>>, t: nat, k: K)
    requires QueueInv(q, roles) && t < |roles| && roles[t].Outside? && k in q.m
    ensures QueueInv(q, roles[t := Waiting(k, q.m[k])])
  {
  }

  lemma LeadKeepsQueue<K(!new), V>(q: Queue<K, V>, roles: seq<Role<K>>, t: nat, k: K)
    requires QueueInv(q, roles) && t < |roles| && roles[t].Outside? && k !in q.m
    ensures QueueInv(LoadOrStore(q, k, t), roles[t := Leading(k)])
  {
    var q', roles' := LoadOrStore(q, k, t), roles[t := Leading(k)];
    assert MappedOk(q', roles');
    assert LeadersOk(q', roles');
    assert OpenOk(q');
  }

  lemma LeaveKeepsQueue<K(!new), V>(q: Queue<K, V>, roles: seq<Role<K>>, t: nat)
    requires QueueInv(q, roles) && t < |roles| && roles[t].Waiting?
    ensures QueueInv(q, roles[t := Outside])
  {
  }

  lemma PublishKeepsQueue<K(!new), V>(q: Queue<K, V>, roles: seq<Role<K>>, t: nat, v: V)
    requires QueueInv(q, roles) && t < |roles| && roles[t].Leading?
    requires CanPublish(q, roles[t].key)
    ensures QueueInv(Publish(q, roles[t].key, v), roles[t := Deleting(roles[t].key)])
  {
  }

  lemma RemoveKeepsQueue<K(!new), V>(q: Queue<K, V>, roles: seq<Role<K>>, t: nat)
    requires QueueInv(q, roles) && t < |roles| && roles[t].Deleting?
    ensures QueueInv(Remove(q, roles[t].key), roles[t := Outside])
  {
    var q', roles' := Remove(q, roles[t].key), roles[t := Outside];
    forall u | 0 <= u < |roles'| && Leads(roles'[u])
      ensures roles'[u].key in q'.m
    {
      assert roles'[u].key != roles[t].key;
    }
  }

  lemma NewThreadKeepsQueue<K(!new), V>(q: Queue<K, V>, roles: seq<Role<K>>)
    requires QueueInv(q, roles)
    ensures QueueInv(q, roles + [Outside])
  {
  }
}
