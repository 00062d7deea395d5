/** Every action of the protocol keeps its invariant. */
module ProtocolInvariant {
  import opened Wrappers
  import opened Net
  import opened Lookup
  import opened SingleFlight
  import opened Storage
  import opened Protocol

  // ---- Roles ----

  lemma {:induction false} RolesAt<P>(slots: seq<Slot<P>>, ts: seq<Thread>, i: nat)
    requires i < |ts|
    ensures SearchRoles(slots, ts)[i] == SearchRole(slots, ts[i])
    ensures IdentRoles(ts)[i] == IdentRole(ts[i])
  {
    if i < |ts| - 1 {
      RolesAt(slots, ts[..|ts| - 1], i);
    }
  }

  lemma RolesAfter<P>(slots: seq<Slot<P>>, ts: seq<Thread>, i: nat, t: Thread)
    requires i < |ts|
    ensures SearchRoles(slots, ts[i := t]) == SearchRoles(slots, ts)[i := SearchRole(slots, t)]
    ensures IdentRoles(ts[i := t]) == IdentRoles(ts)[i := IdentRole(t)]
  {
    var ts' := ts[i := t];
    forall k | 0 <= k < |ts|
      ensures SearchRoles(slots, ts')[k] == SearchRoles(slots, ts)[i := SearchRole(slots, t)][k]
      ensures IdentRoles(ts')[k] == IdentRoles(ts)[i := IdentRole(t)][k]
    {
      RolesAt(slots, ts', k);
      RolesAt(slots, ts, k);
    }
  }

  // ---- Frames ----

  /** What an action by thread i (none if i is negative) may do to what everybody
      else relies on. */
  ghost predicate Advances<P>(slots: seq<Slot<P>>, s: State, s': State, i: int) {
    && |s.threads| <= |s'.threads|
    && (forall j :: 0 <= j < |s.threads| && j != i ==> s'.threads[j] == s.threads[j])
    && (0 <= i < |s.threads| ==>
          && s'.threads[i].addr == s.threads[i].addr
          && s'.threads[i].question == s.threads[i].question
          && s'.threads[i].slot == s.threads[i].slot
          && !s.threads[i].pc.Finished?
          && (s.threads[i].pc.SearchDelete? ==> s'.threads[i].pc == Finished(s.threads[i].pc.sres.val)))
    && s.clock <= s'.clock
    && (forall a, h :: Backed(s, a, h) ==> Backed(s', a, h))
    && s.created <= s'.created && s.creators <= s'.creators
    && |s'.clients| == |s.clients|
    && (forall k, a :: 0 <= k < |s.clients| && a in s'.clients[k] ==>
          || a in s.clients[k]
          || (0 <= i < |s.threads| && s.threads[i].pc.StoreClient? && s.threads[i].slot == k && s.threads[i].addr == a))
    && (forall key :: key in s.answered ==>
          || (key in s'.answered && s'.answered[key] == s.answered[key])
          || (0 <= i < |s.threads| && s.threads[i].pc.CallSource? && s.threads[i].addr == key.0))
  }

  /** Of the threads that lead for one search key only one may store a client. */
  lemma StoringIsElsewhere<P>(slots: seq<Slot<P>>, s: State, i: nat, j: nat)
    requires QueuesOk(slots, s) && i < |s.threads| && j < |s.threads| && i != j
    requires s.threads[i].pc.StoreClient? && Missing(s.threads[j].pc)
    ensures s.threads[i].slot != s.threads[j].slot || s.threads[i].addr != s.threads[j].addr
  {
    RolesAt(slots, s.threads, i);
    RolesAt(slots, s.threads, j);
    if KeyOf(slots, s.threads[i]) == KeyOf(slots, s.threads[j]) {
      AtMostOneLeader(s.search, SearchRoles(slots, s.threads), i, j);
    }
  }

  /** Only one thread identifies an address. */
  lemma IdentifyingIsElsewhere<P>(slots: seq<Slot<P>>, s: State, i: nat, j: nat)
    requires QueuesOk(slots, s) && i < |s.threads| && j < |s.threads| && i != j
    requires s.threads[i].pc.CallSource? && s.threads[j].pc.CheckIdentity?
    ensures s.threads[i].addr != s.threads[j].addr
  {
    RolesAt(slots, s.threads, i);
    RolesAt(slots, s.threads, j);
    if s.threads[i].addr == s.threads[j].addr {
      AtMostOneLeader(s.ident, IdentRoles(s.threads), i, j);
    }
  }

  lemma OtherThreadKept<P>(slots: seq<Slot<P>>, s: State, s': State, i: int, j: nat)
    requires QueuesOk(slots, s) && Advances(slots, s, s', i) && j < |s.threads| && j != i && ThreadOk(slots, s, j)
    ensures ThreadOk(slots, s', j)
  {
    var t := s.threads[j];
    if 0 <= i < |s.threads| {
      if Missing(t.pc) && s.threads[i].pc.StoreClient? {
        StoringIsElsewhere(slots, s, i, j);
      }
      if t.pc.CheckIdentity? && s.threads[i].pc.CallSource? {
        IdentifyingIsElsewhere(slots, s, i, j);
      }
    }
  }

  lemma OthersKept<P>(slots: seq<Slot<P>>, s: State, s': State, i: int)
    requires ThreadsOk(slots, s) && QueuesOk(slots, s) && Advances(slots, s, s', i)
    ensures forall j :: 0 <= j < |s.threads| && j != i ==> ThreadOk(slots, s', j)
  {
    forall j | 0 <= j < |s.threads| && j != i
      ensures ThreadOk(slots, s', j)
    {
      assert ThreadOk(slots, s, j);
      OtherThreadKept(slots, s, s', i, j);
    }
  }

  lemma SearchEntriesKept<P>(slots: seq<Slot<P>>, s: State, s': State, i: int)
    requires SearchEntriesOk(slots, s) && Advances(slots, s, s', i)
    ensures forall e :: 0 <= e < |s.search.entries| ==> SearchEntryOk(slots, s', s.search.entries[e])
  {
    forall e | 0 <= e < |s.search.entries|
      ensures SearchEntryOk(slots, s', s.search.entries[e])
    {
      assert SearchEntryOk(slots, s, s.search.entries[e]);
    }
  }

  lemma IdentEntriesKept<P>(slots: seq<Slot<P>>, s: State, s': State, i: int)
    requires IdentEntriesOk(s) && Advances(slots, s, s', i)
    ensures forall e :: 0 <= e < |s.ident.entries| ==> IdentEntryOk(s', s.ident.entries[e])
  {
    forall e | 0 <= e < |s.ident.entries|
      ensures IdentEntryOk(s', s.ident.entries[e])
    {
      assert IdentEntryOk(s, s.ident.entries[e]);
    }
  }

  lemma StoredKept<P>(slots: seq<Slot<P>>, s: State, s': State, i: int)
    requires StoredOk(s) && Advances(slots, s, s', i)
    requires forall k, a :: 0 <= k < |s.clients| && a in s'.clients[k] ==>
                              a in s.clients[k] && s'.clients[k][a] == s.clients[k][a]
    ensures StoredOk(s')
  {
  }

  /** Steps that touch nothing but one thread and the queues. */
  ghost predicate Quiet(s: State, s': State, i: nat) {
    && i < |s.threads| == |s'.threads| && s'.threads == s.threads[i := s'.threads[i]]
    && s'.threads[i].addr == s.threads[i].addr
    && s'.threads[i].question == s.threads[i].question
    && s'.threads[i].slot == s.threads[i].slot
    && !s.threads[i].pc.Finished?
    && (s.threads[i].pc.SearchDelete? ==> s'.threads[i].pc == Finished(s.threads[i].pc.sres.val))
    && !s.threads[i].pc.StoreClient? && !s'.threads[i].pc.StoreClient?
    && s'.clock == s.clock && s'.clients == s.clients && s'.identified == s.identified
    && s'.gc == s.gc && s'.finalized == s.finalized
    && s'.created == s.created && s'.creators == s.creators && s'.answered == s.answered
  }

  lemma QuietAdvances<P>(slots: seq<Slot<P>>, s: State, s': State, i: nat)
    requires Quiet(s, s', i)
    ensures Advances(slots, s, s', i)
  {
    forall a, h | Backed(s, a, h)
      ensures Backed(s', a, h)
    {
    }
  }

  lemma QuietConserves(s: State, s': State, i: nat)
    requires Quiet(s, s', i) && Conserved(s)
    ensures Conserved(s')
  {
    forall u | 0 <= u < |s'.created|
      ensures One(InFlight(s', u)) + One(IsStored(s', u)) + s'.finalized[s'.created[u]] == 1
    {
      assert InFlight(s', u) == InFlight(s, u);
      assert IsStored(s', u) == IsStored(s, u);
    }
  }

  // ---- The queues ----

  /** A thread takes another role in the search queue, and none in the other. */
  lemma SearchRoleMoves<P>(slots: seq<Slot<P>>, s: State, s': State, i: nat, t: Thread, r: Role<SearchKey>)
    requires QueuesOk(slots, s) && i < |s.threads| && s'.threads == s.threads[i := t]
    requires s'.ident == s.ident && IdentRole(t) == IdentRole(s.threads[i])
    requires SearchRole(slots, t) == r && QueueInv(s'.search, SearchRoles(slots, s.threads)[i := r])
    ensures QueuesOk(slots, s')
  {
    RolesAfter(slots, s.threads, i, t);
    RolesAt(slots, s.threads, i);
    assert IdentRoles(s.threads)[i := IdentRole(t)] == IdentRoles(s.threads);
  }

  lemma IdentRoleMoves<P>(slots: seq<Slot<P>>, s: State, s': State, i: nat, t: Thread, r: Role<Addr>)
    requires QueuesOk(slots, s) && i < |s.threads| && s'.threads == s.threads[i := t]
    requires s'.search == s.search && SearchRole(slots, t) == SearchRole(slots, s.threads[i])
    requires IdentRole(t) == r && QueueInv(s'.ident, IdentRoles(s.threads)[i := r])
    ensures QueuesOk(slots, s')
  {
    RolesAfter(slots, s.threads, i, t);
    RolesAt(slots, s.threads, i);
    assert SearchRoles(slots, s.threads)[i := SearchRole(slots, t)] == SearchRoles(slots, s.threads);
  }

  /** Neither role changes and the queues are not touched. */
  lemma RoleKept<P>(slots: seq<Slot<P>>, s: State, s': State, i: nat)
    requires QueuesOk(slots, s) && i < |s.threads|
    requires |s'.threads| == |s.threads| && s'.threads == s.threads[i := s'.threads[i]]
    requires s'.search == s.search && s'.ident == s.ident
    requires SearchRole(slots, s'.threads[i]) == SearchRole(slots, s.threads[i])
    requires IdentRole(s'.threads[i]) == IdentRole(s.threads[i])
    ensures QueuesOk(slots, s')
  {
    RolesAt(slots, s.threads, i);
    assert SearchRoles(slots, s.threads)[i := SearchRole(slots, s.threads[i])] == SearchRoles(slots, s.threads);
    SearchRoleMoves(slots, s, s', i, s'.threads[i], SearchRole(slots, s.threads[i]));
  }

  lemma SearchPushQueues<P>(slots: seq<Slot<P>>, s: State, i: nat, t: Thread, s': State)
    requires QueuesOk(slots, s) && i < |s.threads| && s.threads[i].pc.SearchPush?
    requires s'.threads == s.threads[i := t] && KeyOf(slots, t) == KeyOf(slots, s.threads[i])
    requires var key := KeyOf(slots, s.threads[i]);
      if key in s.search.m then t.pc == SearchWait(s.search.m[key]) && s'.search == s.search
      else t.pc == ReadClock && s'.search == LoadOrStore(s.search, key, i)
    requires s'.ident == s.ident
    ensures QueuesOk(slots, s')
  {
    var key := KeyOf(slots, s.threads[i]);
    RolesAt(slots, s.threads, i);
    if key in s.search.m {
      WaitKeepsQueue(s.search, SearchRoles(slots, s.threads), i, key);
      SearchRoleMoves(slots, s, s', i, t, Waiting(key, s.search.m[key]));
    } else {
      LeadKeepsQueue(s.search, SearchRoles(slots, s.threads), i, key);
      SearchRoleMoves(slots, s, s', i, t, Leading(key));
    }
  }

  lemma SearchLeaveQueues<P>(slots: seq<Slot<P>>, s: State, i: nat, t: Thread, s': State)
    requires QueuesOk(slots, s) && i < |s.threads| && s.threads[i].pc.SearchWait?
    requires s'.threads == s.threads[i := t] && t.pc.Finished?
    requires s'.search == s.search && s'.ident == s.ident
    ensures QueuesOk(slots, s')
  {
    RolesAt(slots, s.threads, i);
    LeaveKeepsQueue(s.search, SearchRoles(slots, s.threads), i);
    SearchRoleMoves(slots, s, s', i, t, Outside);
  }

  lemma SearchDoneQueues<P>(slots: seq<Slot<P>>, s: State, i: nat, t: Thread, s': State)
    requires QueuesOk(slots, s) && i < |s.threads| && s.threads[i].pc.SearchDone?
    requires s'.threads == s.threads[i := t] && KeyOf(slots, t) == KeyOf(slots, s.threads[i]) && t.pc.SearchDelete?
    requires CanPublish(s.search, KeyOf(slots, t))
    requires s'.search == Publish(s.search, KeyOf(slots, t), s.threads[i].pc.sres) && s'.ident == s.ident
    ensures QueuesOk(slots, s')
  {
    RolesAt(slots, s.threads, i);
    PublishKeepsQueue(s.search, SearchRoles(slots, s.threads), i, s.threads[i].pc.sres);
    SearchRoleMoves(slots, s, s', i, t, Deleting(KeyOf(slots, t)));
  }

  lemma SearchDeleteQueues<P>(slots: seq<Slot<P>>, s: State, i: nat, t: Thread, s': State)
    requires QueuesOk(slots, s) && i < |s.threads| && s.threads[i].pc.SearchDelete?
    requires s'.threads == s.threads[i := t] && t.pc.Finished?
    requires s'.search == Remove(s.search, KeyOf(slots, s.threads[i])) && s'.ident == s.ident
    ensures QueuesOk(slots, s')
  {
    RolesAt(slots, s.threads, i);
    RemoveKeepsQueue(s.search, SearchRoles(slots, s.threads), i);
    SearchRoleMoves(slots, s, s', i, t, Outside);
  }

  lemma IdentPushQueues<P>(slots: seq<Slot<P>>, s: State, i: nat, t: Thread, s': State)
    requires QueuesOk(slots, s) && i < |s.threads| && s.threads[i].pc.IdentPush?
    requires s'.threads == s.threads[i := t] && KeyOf(slots, t) == KeyOf(slots, s.threads[i])
    requires var addr := s.threads[i].addr;
      t.addr == addr &&
      if addr in s.ident.m then t.pc == IdentWait(s.ident.m[addr]) && s'.ident == s.ident
      else t.pc == CallSource && s'.ident == LoadOrStore(s.ident, addr, i)
    requires s'.search == s.search
    ensures QueuesOk(slots, s')
  {
    RolesAt(slots, s.threads, i);
    if t.addr in s.ident.m {
      WaitKeepsQueue(s.ident, IdentRoles(s.threads), i, t.addr);
      IdentRoleMoves(slots, s, s', i, t, Waiting(t.addr, s.ident.m[t.addr]));
    } else {
      LeadKeepsQueue(s.ident, IdentRoles(s.threads), i, t.addr);
      IdentRoleMoves(slots, s, s', i, t, Leading(t.addr));
    }
  }

  lemma IdentLeaveQueues<P>(slots: seq<Slot<P>>, s: State, i: nat, t: Thread, s': State)
    requires QueuesOk(slots, s) && i < |s.threads| && s.threads[i].pc.IdentWait?
    requires s'.threads == s.threads[i := t] && KeyOf(slots, t) == KeyOf(slots, s.threads[i])
    requires t.pc.Build? || t.pc.SearchDone?
    requires s'.search == s.search && s'.ident == s.ident
    ensures QueuesOk(slots, s')
  {
    RolesAt(slots, s.threads, i);
    LeaveKeepsQueue(s.ident, IdentRoles(s.threads), i);
    IdentRoleMoves(slots, s, s', i, t, Outside);
  }

  lemma IdentDoneQueues<P>(slots: seq<Slot<P>>, s: State, i: nat, t: Thread, s': State)
    requires QueuesOk(slots, s) && i < |s.threads| && s.threads[i].pc.IdentDone?
    requires s'.threads == s.threads[i := t] && KeyOf(slots, t) == KeyOf(slots, s.threads[i]) && t.pc.IdentDelete?
    requires t.addr == s.threads[i].addr && CanPublish(s.ident, t.addr)
    requires s'.ident == Publish(s.ident, t.addr, s.threads[i].pc.ires) && s'.search == s.search
    ensures QueuesOk(slots, s')
  {
    RolesAt(slots, s.threads, i);
    PublishKeepsQueue(s.ident, IdentRoles(s.threads), i, s.threads[i].pc.ires);
    IdentRoleMoves(slots, s, s', i, t, Deleting(t.addr));
  }

  lemma IdentDeleteQueues<P>(slots: seq<Slot<P>>, s: State, i: nat, t: Thread, s': State)
    requires QueuesOk(slots, s) && i < |s.threads| && s.threads[i].pc.IdentDelete?
    requires s'.threads == s.threads[i := t] && KeyOf(slots, t) == KeyOf(slots, s.threads[i])
    requires t.pc.Build? || t.pc.SearchDone?
    requires s'.ident == Remove(s.ident, s.threads[i].addr) && s'.search == s.search
    ensures QueuesOk(slots, s')
  {
    RolesAt(slots, s.threads, i);
    RemoveKeepsQueue(s.ident, IdentRoles(s.threads), i);
    IdentRoleMoves(slots, s, s', i, t, Outside);
  }

  lemma LeadersCanPublish<P>(slots: seq<Slot<P>>, s: State, i: nat)
    requires QueuesOk(slots, s) && i < |s.threads|
    ensures s.threads[i].pc.SearchDone? ==>
              var key := KeyOf(slots, s.threads[i]);
              && CanPublish(s.search, key)
              && s.search.entries[s.search.m[key]].leader == i && s.search.entries[s.search.m[key]].key == key
    ensures s.threads[i].pc.IdentDone? ==>
              var addr := s.threads[i].addr;
              && CanPublish(s.ident, addr)
              && s.ident.entries[s.ident.m[addr]].leader == i && s.ident.entries[s.ident.m[addr]].key == addr
  {
    RolesAt(slots, s.threads, i);
  }

  // ---- Quiet steps ----

  /** A quiet step keeps the invariant if it does so for its own thread, for the
      queues and for the entries it changes. */
  lemma QuietKeepsInv<P>(slots: seq<Slot<P>>, s: State, s': State, i: nat)
    requires Inv(slots, s) && Quiet(s, s', i) && ThreadOk(slots, s', i)
    requires QueuesOk(slots, s')
    requires forall e :: 0 <= e < |s'.search.entries| ==>
                           || (e < |s.search.entries| && s'.search.entries[e] == s.search.entries[e])
                           || SearchEntryOk(slots, s', s'.search.entries[e])
    requires forall e :: 0 <= e < |s'.ident.entries| ==>
                           || (e < |s.ident.entries| && s'.ident.entries[e] == s.ident.entries[e])
                           || IdentEntryOk(s', s'.ident.entries[e])
    ensures Inv(slots, s')
  {
    QuietAdvances(slots, s, s', i);
    OthersKept(slots, s, s', i);
    StoredKept(slots, s, s', i);
    SearchEntriesKept(slots, s, s', i);
    IdentEntriesKept(slots, s, s', i);
    QuietConserves(s, s', i);
    assert ThreadsOk(slots, s');
  }

  lemma SearchJoinKeeps<P>(slots: seq<Slot<P>>, s: State, i: nat)
    requires Inv(slots, s) && i < |s.threads| && s.threads[i].pc.SearchPush?
    requires KeyOf(slots, s.threads[i]) in s.search.m
    ensures Inv(slots, StepThread(slots, s, i))
  {
    var s' := StepThread(slots, s, i);
    assert ThreadOk(slots, s, i);
    SearchPushQueues(slots, s, i, s'.threads[i], s');
    QuietKeepsInv(slots, s, s', i);
  }

  lemma SearchLeadKeeps<P>(slots: seq<Slot<P>>, s: State, i: nat)
    requires Inv(slots, s) && i < |s.threads| && s.threads[i].pc.SearchPush?
    requires KeyOf(slots, s.threads[i]) !in s.search.m
    ensures Inv(slots, StepThread(slots, s, i))
  {
    var s' := StepThread(slots, s, i);
    assert ThreadOk(slots, s, i);
    SearchPushQueues(slots, s, i, s'.threads[i], s');
    QuietKeepsInv(slots, s, s', i);
  }

  lemma ReadClockKeeps<P>(slots: seq<Slot<P>>, s: State, i: nat)
    requires Inv(slots, s) && i < |s.threads| && s.threads[i].pc.ReadClock?
    ensures Inv(slots, StepThread(slots, s, i))
  {
    var s' := StepThread(slots, s, i);
    assert ThreadOk(slots, s, i);
    RoleKept(slots, s, s', i);
    QuietKeepsInv(slots, s, s', i);
  }

  /** A waiter only gets what was made for its own address and slot: the search key
      does not name the slot, but determines it. */
  lemma SharedResultIsOwn<P>(slots: seq<Slot<P>>, s: State, i: nat, e: nat)
    requires Inv(slots, s) && i < |s.threads| && s.threads[i].pc == SearchWait(e) && Ready(s.search, e)
    ensures var r := s.search.entries[e].result.value;
      && Proper(r)
      && (r.val.Some? ==> r.val.value.addr == s.threads[i].addr && r.val.value.slot == s.threads[i].slot)
  {
    var t, n := s.threads[i], s.search.entries[e];
    assert ThreadOk(slots, s, i);
    assert SearchEntryOk(slots, s, n) && ThreadOk(slots, s, n.leader);
    RolesAt(slots, s.threads, i);
    SearchKeySound(slots, t.addr, t.question, s.threads[n.leader].question);
  }

  lemma SearchWaitKeeps<P>(slots: seq<Slot<P>>, s: State, i: nat)
    requires Inv(slots, s) && Enabled(slots, s, Step(i)) && s.threads[i].pc.SearchWait?
    ensures Inv(slots, StepThread(slots, s, i))
  {
    var s' := StepThread(slots, s, i);
    assert ThreadOk(slots, s, i);
    SharedResultIsOwn(slots, s, i, s.threads[i].pc.entry);
    SearchLeaveQueues(slots, s, i, s'.threads[i], s');
    QuietKeepsInv(slots, s, s', i);
  }

  lemma IdentPushKeeps<P>(slots: seq<Slot<P>>, s: State, i: nat)
    requires Inv(slots, s) && i < |s.threads| && s.threads[i].pc.IdentPush?
    ensures Inv(slots, StepThread(slots, s, i))
  {
    var s' := StepThread(slots, s, i);
    assert ThreadOk(slots, s, i);
    IdentPushQueues(slots, s, i, s'.threads[i], s');
    QuietKeepsInv(slots, s, s', i);
  }

  lemma IdentWaitKeeps<P>(slots: seq<Slot<P>>, s: State, i: nat)
    requires Inv(slots, s) && Enabled(slots, s, Step(i)) && s.threads[i].pc.IdentWait?
    ensures Inv(slots, StepThread(slots, s, i))
  {
    var s' := StepThread(slots, s, i);
    assert ThreadOk(slots, s, i);
    RolesAt(slots, s.threads, i);
    assert IdentEntryOk(s, s.ident.entries[s.threads[i].pc.entry]);
    IdentLeaveQueues(slots, s, i, s'.threads[i], s');
    QuietKeepsInv(slots, s, s', i);
  }

  lemma IdentDoneThread<P>(slots: seq<Slot<P>>, s: State, i: nat, s': State)
    requires Shape(slots, s) && i < |s.threads| && s.threads[i].pc.IdentDone? && ThreadOk(slots, s, i)
    requires CanPublish(s.ident, s.threads[i].addr) && s' == StepThread(slots, s, i)
    requires s.ident.entries[s.ident.m[s.threads[i].addr]].key == s.threads[i].addr
    ensures Quiet(s, s', i) && ThreadOk(slots, s', i)
    ensures forall e :: 0 <= e < |s'.ident.entries| ==>
      || (e < |s.ident.entries| && s'.ident.entries[e] == s.ident.entries[e])
      || IdentEntryOk(s', s'.ident.entries[e])
  {
  }

  lemma IdentDoneKeeps<P>(slots: seq<Slot<P>>, s: State, i: nat)
    requires Inv(slots, s) && i < |s.threads| && s.threads[i].pc.IdentDone?
    ensures Inv(slots, StepThread(slots, s, i))
  {
    var s' := StepThread(slots, s, i);
    assert ThreadOk(slots, s, i);
    LeadersCanPublish(slots, s, i);
    IdentDoneThread(slots, s, i, s');
    IdentDoneQueues(slots, s, i, s'.threads[i], s');
    QuietKeepsInv(slots, s, s', i);
  }

  lemma IdentDeleteKeeps<P>(slots: seq<Slot<P>>, s: State, i: nat)
    requires Inv(slots, s) && i < |s.threads| && s.threads[i].pc.IdentDelete?
    ensures Inv(slots, StepThread(slots, s, i))
  {
    var s' := StepThread(slots, s, i);
    assert ThreadOk(slots, s, i);
    IdentDeleteQueues(slots, s, i, s'.threads[i], s');
    QuietKeepsInv(slots, s, s', i);
  }

  lemma SearchDoneThread<P>(slots: seq<Slot<P>>, s: State, i: nat, s': State)
    requires Shape(slots, s) && i < |s.threads| && s.threads[i].pc.SearchDone? && ThreadOk(slots, s, i)
    requires CanPublish(s.search, KeyOf(slots, s.threads[i])) && s' == StepThread(slots, s, i)
    ensures Quiet(s, s', i) && ThreadOk(slots, s', i) && s'.ident == s.ident
  {
  }

  lemma SearchDoneEntries<P>(slots: seq<Slot<P>>, s: State, i: nat, s': State)
    requires Shape(slots, s) && i < |s.threads| && s.threads[i].pc.SearchDone? && ThreadOk(slots, s, i)
    requires CanPublish(s.search, KeyOf(slots, s.threads[i])) && s' == StepThread(slots, s, i)
    requires var n := s.search.entries[s.search.m[KeyOf(slots, s.threads[i])]];
      n.leader == i && n.key == KeyOf(slots, s.threads[i])
    ensures forall e :: 0 <= e < |s'.search.entries| ==>
      || (e < |s.search.entries| && s'.search.entries[e] == s.search.entries[e])
      || SearchEntryOk(slots, s', s'.search.entries[e])
  {
  }

  lemma SearchDoneKeeps<P>(slots: seq<Slot<P>>, s: State, i: nat)
    requires Inv(slots, s) && i < |s.threads| && s.threads[i].pc.SearchDone?
    ensures Inv(slots, StepThread(slots, s, i))
  {
    var s' := StepThread(slots, s, i);
    assert ThreadOk(slots, s, i);
    LeadersCanPublish(slots, s, i);
    SearchDoneThread(slots, s, i, s');
    SearchDoneEntries(slots, s, i, s');
    SearchDoneQueues(slots, s, i, s'.threads[i], s');
    QuietKeepsInv(slots, s, s', i);
  }

  lemma SearchDeleteKeeps<P>(slots: seq<Slot<P>>, s: State, i: nat)
    requires Inv(slots, s) && i < |s.threads| && s.threads[i].pc.SearchDelete?
    ensures Inv(slots, StepThread(slots, s, i))
  {
    var s' := StepThread(slots, s, i);
    assert ThreadOk(slots, s, i);
    SearchDeleteQueues(slots, s, i, s'.threads[i], s');
    QuietKeepsInv(slots, s, s', i);
  }

  lemma CancelKeeps<P>(slots: seq<Slot<P>>, s: State, i: nat)
    requires Inv(slots, s) && Enabled(slots, s, Cancel(i))
    ensures Inv(slots, Apply(slots, s, Cancel(i)))
  {
    var s' := Apply(slots, s, Cancel(i));
    assert ThreadOk(slots, s, i);
    if s.threads[i].pc.SearchWait? {
      SearchLeaveQueues(slots, s, i, s'.threads[i], s');
    } else {
      IdentLeaveQueues(slots, s, i, s'.threads[i], s');
    }
    QuietKeepsInv(slots, s, s', i);
  }

  // ---- Steps that change the shared data ----

  /** The invariant from its parts, for actions that leave the queues alone. */
  lemma Assemble<P>(slots: seq<Slot<P>>, s: State, s': State, i: int)
    requires Inv(slots, s) && Advances(slots, s, s', i)
    requires |s'.threads| == |s.threads| && (0 <= i < |s.threads| ==> ThreadOk(slots, s', i))
    requires Shape(slots, s') && QueuesOk(slots, s') && s'.search == s.search && s'.ident == s.ident
    requires IdentitiesOk(s') && StoredOk(s') && Conserved(s') && FinalizedKnown(s')
    ensures Inv(slots, s')
  {
    OthersKept(slots, s, s', i);
    SearchEntriesKept(slots, s, s', i);
    IdentEntriesKept(slots, s, s', i);
    assert ThreadsOk(slots, s');
  }

  lemma FindThreadFound<P>(slots: seq<Slot<P>>, s: State, i: nat, s': State)
    requires Shape(slots, s) && i < |s.threads| && s.threads[i].pc.Find? && ThreadOk(slots, s, i) && StoredOk(s)
    requires s' == StepThread(slots, s, i)
    requires FoundValid(s.clients[s.threads[i].slot], s.threads[i].addr, s.threads[i].now).Some?
    ensures ThreadOk(slots, s', i)
  {
  }

  lemma FindThreadMissing<P>(slots: seq<Slot<P>>, s: State, i: nat, s': State)
    requires Shape(slots, s) && i < |s.threads| && s.threads[i].pc.Find? && ThreadOk(slots, s, i)
    requires s' == StepThread(slots, s, i)
    requires FoundValid(s.clients[s.threads[i].slot], s.threads[i].addr, s.threads[i].now).None?
    ensures ThreadOk(slots, s', i)
  {
  }

  lemma FindKeepsFound<P>(slots: seq<Slot<P>>, s: State, i: nat)
    requires Inv(slots, s) && i < |s.threads| && s.threads[i].pc.Find?
    requires FoundValid(s.clients[s.threads[i].slot], s.threads[i].addr, s.threads[i].now).Some?
    ensures Inv(slots, StepThread(slots, s, i))
  {
    var s' := StepThread(slots, s, i);
    assert ThreadOk(slots, s, i);
    FindThreadFound(slots, s, i, s');
    PrivateStepKeeps(slots, s, i, s');
  }

  lemma FindKeepsAbsent<P>(slots: seq<Slot<P>>, s: State, i: nat)
    requires Inv(slots, s) && i < |s.threads| && s.threads[i].pc.Find?
    requires s.threads[i].addr !in s.clients[s.threads[i].slot]
    ensures Inv(slots, StepThread(slots, s, i))
  {
    var s' := StepThread(slots, s, i);
    assert ThreadOk(slots, s, i);
    FindThreadMissing(slots, s, i, s');
    assert s'.clients == s.clients && s'.finalized == s.finalized;
    PrivateStepKeeps(slots, s, i, s');
  }

  /** Removing stored clients and handing exactly those to setFinalizer. */
  ghost predicate Drops(s: State, s': State, dropped: set<Client>) {
    && |s'.clients| == |s.clients|
    && (forall k, a :: 0 <= k < |s.clients| && a in s'.clients[k] ==>
          a in s.clients[k] && s'.clients[k][a] == s.clients[k][a] && s.clients[k][a] !in dropped)
    && (forall k, a :: 0 <= k < |s.clients| && a in s.clients[k] && s.clients[k][a] !in dropped ==>
          a in s'.clients[k])
    && (forall c :: c in dropped ==> c.slot < |s.clients| && c.addr in s.clients[c.slot] && s.clients[c.slot][c.addr] == c)
    && s'.finalized == s.finalized + multiset(dropped)
    && s'.created == s.created && s'.creators == s.creators
  }

  /** Dropping moves a client from its map to the finalized ones. */
  lemma DropsMove(s: State, s': State, dropped: set<Client>, u: nat)
    requires Drops(s, s', dropped) && u < |s.created|
    ensures IsStored(s', u) == (IsStored(s, u) && s.created[u] !in dropped)
    ensures s.created[u] in dropped ==> IsStored(s, u)
    ensures s'.finalized[s.created[u]] == s.finalized[s.created[u]] + One(s.created[u] in dropped)
  {
  }

  lemma DropsKnown(s: State, s': State, dropped: set<Client>)
    requires Drops(s, s', dropped) && StoredOk(s) && FinalizedKnown(s)
    ensures FinalizedKnown(s')
  {
    forall c | c in s'.finalized
      ensures KnownClient(s', c)
    {
      assert c in s.finalized || c in dropped;
    }
  }

  lemma DropsConserve(s: State, s': State, dropped: set<Client>)
    requires Drops(s, s', dropped) && StoredOk(s) && Conserved(s) && FinalizedKnown(s)
    requires forall u :: 0 <= u < |s.created| ==> InFlight(s', u) == InFlight(s, u)
    ensures Conserved(s') && FinalizedKnown(s')
  {
    DropsKnown(s, s', dropped);
    forall u | 0 <= u < |s.created|
      ensures One(InFlight(s', u)) + One(IsStored(s', u)) + s'.finalized[s'.created[u]] == 1
    {
      assert One(InFlight(s, u)) + One(IsStored(s, u)) + s.finalized[s.created[u]] == 1;
      DropsMove(s, s', dropped, u);
    }
  }

  /** Actions that neither move, create nor drop a client. */
  lemma UntouchedConserves(s: State, s': State)
    requires Conserved(s) && FinalizedKnown(s)
    requires s'.clients == s.clients && s'.finalized == s.finalized
    requires s'.created == s.created && s'.creators == s.creators
    requires forall u :: 0 <= u < |s.created| ==> InFlight(s', u) == InFlight(s, u)
    ensures Conserved(s') && FinalizedKnown(s')
  {
    forall u | 0 <= u < |s.created|
      ensures One(InFlight(s', u)) + One(IsStored(s', u)) + s'.finalized[s'.created[u]] == 1
    {
      assert IsStored(s', u) == IsStored(s, u);
    }
  }

  lemma ExpiredKeepsData<P>(slots: seq<Slot<P>>, s: State, i: nat, s': State)
    requires Shape(slots, s) && i < |s.threads| && s.threads[i].pc.Find? && s' == StepThread(slots, s, i)
    requires s.threads[i].addr in s.clients[s.threads[i].slot]
    requires FoundValid(s.clients[s.threads[i].slot], s.threads[i].addr, s.threads[i].now).None?
    requires IdentitiesOk(s) && StoredOk(s)
    ensures Shape(slots, s') && IdentitiesOk(s') && StoredOk(s')
  {
    ExpiredAdvances(slots, s, i, s');
    StoredKept(slots, s, s', i);
  }

  lemma FindKeepsExpired<P>(slots: seq<Slot<P>>, s: State, i: nat)
    requires Inv(slots, s) && i < |s.threads| && s.threads[i].pc.Find?
    requires s.threads[i].addr in s.clients[s.threads[i].slot]
    requires FoundValid(s.clients[s.threads[i].slot], s.threads[i].addr, s.threads[i].now).None?
    ensures Inv(slots, StepThread(slots, s, i))
  {
    var s' := StepThread(slots, s, i);
    assert ThreadOk(slots, s, i);
    ExpiredAdvances(slots, s, i, s');
    FindThreadMissing(slots, s, i, s');
    ExpiredQueues(slots, s, i, s');
    ExpiredKeepsData(slots, s, i, s');
    ExpiredConserves(slots, s, i, s');
    Assemble(slots, s, s', i);
  }

  lemma ExpiredQueues<P>(slots: seq<Slot<P>>, s: State, i: nat, s': State)
    requires Shape(slots, s) && i < |s.threads| && s.threads[i].pc.Find? && s' == StepThread(slots, s, i)
    requires FoundValid(s.clients[s.threads[i].slot], s.threads[i].addr, s.threads[i].now).None?
    requires QueuesOk(slots, s)
    ensures QueuesOk(slots, s') && s'.search == s.search && s'.ident == s.ident && |s'.threads| == |s.threads|
  {
    RoleKept(slots, s, s', i);
  }

  lemma BackedKept(s: State, s': State)
    requires s'.identified == s.identified && s.clock <= s'.clock
    ensures forall a, h :: Backed(s, a, h) ==> Backed(s', a, h)
  {
  }

  lemma ExpiredAdvances<P>(slots: seq<Slot<P>>, s: State, i: nat, s': State)
    requires Shape(slots, s) && i < |s.threads| && s.threads[i].pc.Find? && s' == StepThread(slots, s, i)
    requires FoundValid(s.clients[s.threads[i].slot], s.threads[i].addr, s.threads[i].now).None?
    ensures Advances(slots, s, s', i)
  {
    BackedKept(s, s');
  }

  lemma ExpiredDrops<P>(slots: seq<Slot<P>>, s: State, i: nat, s': State, c: Client)
    requires Shape(slots, s) && i < |s.threads| && s.threads[i].pc.Find? && s' == StepThread(slots, s, i)
    requires s.threads[i].addr in s.clients[s.threads[i].slot] && c == s.clients[s.threads[i].slot][s.threads[i].addr]
    requires FoundValid(s.clients[s.threads[i].slot], s.threads[i].addr, s.threads[i].now).None?
    requires StoredOk(s)
    ensures Drops(s, s', {c})
  {
    assert multiset({c}) == multiset{c};
  }

  lemma ExpiredConserves<P>(slots: seq<Slot<P>>, s: State, i: nat, s': State)
    requires Shape(slots, s) && i < |s.threads| && s.threads[i].pc.Find? && s' == StepThread(slots, s, i)
    requires s.threads[i].addr in s.clients[s.threads[i].slot]
    requires FoundValid(s.clients[s.threads[i].slot], s.threads[i].addr, s.threads[i].now).None?
    requires StoredOk(s) && Conserved(s) && FinalizedKnown(s)
    ensures Conserved(s') && FinalizedKnown(s')
  {
    var c := s.clients[s.threads[i].slot][s.threads[i].addr];
    ExpiredDrops(slots, s, i, s', c);
    InFlightKept(s, s', i);
    DropsConserve(s, s', {c});
  }

  lemma InFlightKept(s: State, s': State, i: nat)
    requires i < |s.threads| && |s'.threads| == |s.threads| && s'.threads == s.threads[i := s'.threads[i]]
    requires !s.threads[i].pc.StoreClient? && !s'.threads[i].pc.StoreClient?
    requires s'.created == s.created && s'.creators == s.creators
    ensures forall u :: 0 <= u < |s.created| ==> InFlight(s', u) == InFlight(s, u)
  {
  }

  /** Claiming an ID keeps every live identity backed: a live claim by another
      address would be a conflict, and one by the same address is not backdated. */
  lemma ClaimKeepsBacked<P>(slots: seq<Slot<P>>, s: State, i: nat, a: Addr, h: ValidID)
    requires Inv(slots, s) && i < |s.threads| && s.threads[i].pc.CheckIdentity?
    requires !Conflicts(s.identified, s.threads[i].addr, s.threads[i].pc.hid, s.threads[i].now)
    requires Backed(s, a, h)
    ensures Backed(StepThread(slots, s, i), a, h)
  {
    assert ThreadOk(slots, s, i);
  }

  lemma CheckAdvances<P>(slots: seq<Slot<P>>, s: State, i: nat, s': State)
    requires Inv(slots, s) && i < |s.threads| && s.threads[i].pc.CheckIdentity? && s' == StepThread(slots, s, i)
    requires !Conflicts(s.identified, s.threads[i].addr, s.threads[i].pc.hid, s.threads[i].now)
    ensures Advances(slots, s, s', i)
  {
    forall a, h | Backed(s, a, h)
      ensures Backed(s', a, h)
    {
      ClaimKeepsBacked(slots, s, i, a, h);
    }
  }

  lemma CheckThread<P>(slots: seq<Slot<P>>, s: State, i: nat, s': State)
    requires Shape(slots, s) && i < |s.threads| && s.threads[i].pc.CheckIdentity? && s' == StepThread(slots, s, i)
    requires !Conflicts(s.identified, s.threads[i].addr, s.threads[i].pc.hid, s.threads[i].now)
    requires ThreadOk(slots, s, i) && IdentitiesOk(s)
    ensures ThreadOk(slots, s', i) && Shape(slots, s') && IdentitiesOk(s')
  {
  }

  lemma CheckQueues<P>(slots: seq<Slot<P>>, s: State, i: nat, s': State)
    requires Shape(slots, s) && i < |s.threads| && s.threads[i].pc.CheckIdentity? && s' == StepThread(slots, s, i)
    requires QueuesOk(slots, s)
    ensures QueuesOk(slots, s') && s'.search == s.search && s'.ident == s.ident && |s'.threads| == |s.threads|
  {
    RoleKept(slots, s, s', i);
  }

  lemma CheckConserves<P>(slots: seq<Slot<P>>, s: State, i: nat, s': State)
    requires Shape(slots, s) && i < |s.threads| && s.threads[i].pc.CheckIdentity? && s' == StepThread(slots, s, i)
    requires Conserved(s) && FinalizedKnown(s)
    ensures Conserved(s') && FinalizedKnown(s')
  {
    InFlightKept(s, s', i);
    UntouchedConserves(s, s');
  }

  lemma CheckStored<P>(slots: seq<Slot<P>>, s: State, i: nat, s': State)
    requires Shape(slots, s) && i < |s.threads| && s.threads[i].pc.CheckIdentity? && s' == StepThread(slots, s, i)
    requires StoredOk(s) && Advances(slots, s, s', i)
    ensures StoredOk(s')
  {
    StoredKept(slots, s, s', i);
  }

  lemma CheckKeepsClaimed<P>(slots: seq<Slot<P>>, s: State, i: nat)
    requires Inv(slots, s) && i < |s.threads| && s.threads[i].pc.CheckIdentity?
    requires !Conflicts(s.identified, s.threads[i].addr, s.threads[i].pc.hid, s.threads[i].now)
    ensures Inv(slots, StepThread(slots, s, i))
  {
    var s' := StepThread(slots, s, i);
    assert ThreadOk(slots, s, i);
    CheckAdvances(slots, s, i, s');
    CheckThread(slots, s, i, s');
    CheckQueues(slots, s, i, s');
    CheckConserves(slots, s, i, s');
    CheckStored(slots, s, i, s');
    Assemble(slots, s, s', i);
  }

  lemma CheckKeepsConflict<P>(slots: seq<Slot<P>>, s: State, i: nat)
    requires Inv(slots, s) && i < |s.threads| && s.threads[i].pc.CheckIdentity?
    requires Conflicts(s.identified, s.threads[i].addr, s.threads[i].pc.hid, s.threads[i].now)
    ensures Inv(slots, StepThread(slots, s, i))
  {
    var s' := StepThread(slots, s, i);
    assert ThreadOk(slots, s, i);
    RoleKept(slots, s, s', i);
    QuietKeepsInv(slots, s, s', i);
  }

  lemma StoreConserves<P>(slots: seq<Slot<P>>, s: State, i: nat, s': State, c: Client)
    requires i < |s.threads| && s.threads[i].pc == StoreClient(c) && ThreadOk(slots, s, i)
    requires Shape(slots, s) && Conserved(s) && s' == StepThread(slots, s, i)
    ensures Conserved(s')
  {
    forall u | 0 <= u < |s.created|
      ensures One(InFlight(s', u)) + One(IsStored(s', u)) + s'.finalized[s'.created[u]] == 1
    {
      assert One(InFlight(s, u)) + One(IsStored(s, u)) + s.finalized[s.created[u]] == 1;
      StoreMoves(slots, s, i, s', c, u);
    }
  }

  /** Storing moves the client from its thread to the map, which had no entry. */
  lemma StoreMoves<P>(slots: seq<Slot<P>>, s: State, i: nat, s': State, c: Client, u: nat)
    requires i < |s.threads| && s.threads[i].pc == StoreClient(c) && ThreadOk(slots, s, i)
    requires Shape(slots, s) && s' == StepThread(slots, s, i) && u < |s.created|
    ensures InFlight(s', u) == (InFlight(s, u) && u != c.uid)
    ensures IsStored(s', u) == (IsStored(s, u) || u == c.uid)
    ensures u == c.uid ==> InFlight(s, u) && !IsStored(s, u)
  {
    assert s.created[u].uid == u;
  }

  lemma StoreAdvances<P>(slots: seq<Slot<P>>, s: State, i: nat, s': State)
    requires Shape(slots, s) && i < |s.threads| && s.threads[i].pc.StoreClient? && s' == StepThread(slots, s, i)
    ensures Advances(slots, s, s', i)
  {
    BackedKept(s, s');
  }

  lemma StoreThread<P>(slots: seq<Slot<P>>, s: State, i: nat, s': State)
    requires Shape(slots, s) && i < |s.threads| && s.threads[i].pc.StoreClient? && ThreadOk(slots, s, i)
    requires s' == StepThread(slots, s, i)
    ensures ThreadOk(slots, s', i) && Shape(slots, s')
  {
  }

  lemma StoreKeepsStored<P>(slots: seq<Slot<P>>, s: State, i: nat, s': State)
    requires i < |s.threads| && s.threads[i].pc.StoreClient? && ThreadOk(slots, s, i)
    requires Shape(slots, s) && StoredOk(s) && s' == StepThread(slots, s, i)
    ensures StoredOk(s')
  {
    BackedKept(s, s');
    var t := s.threads[i];
    forall k, a | 0 <= k < |s'.clients| && a in s'.clients[k]
      ensures KnownClient(s', s'.clients[k][a]) && s'.clients[k][a].addr == a && s'.clients[k][a].slot == k
      ensures Backed(s', a, s'.clients[k][a].hid)
    {
      if k == t.slot && a == t.addr {
        assert s'.clients[k][a] == t.pc.client && Backed(s, a, t.pc.client.hid);
      } else {
        assert a in s.clients[k] && s'.clients[k][a] == s.clients[k][a];
        assert Backed(s, a, s.clients[k][a].hid);
      }
    }
  }

  lemma StoreQueues<P>(slots: seq<Slot<P>>, s: State, i: nat, s': State)
    requires Shape(slots, s) && i < |s.threads| && s.threads[i].pc.StoreClient? && s' == StepThread(slots, s, i)
    requires QueuesOk(slots, s)
    ensures QueuesOk(slots, s') && s'.search == s.search && s'.ident == s.ident && |s'.threads| == |s.threads|
  {
    RoleKept(slots, s, s', i);
  }

  lemma StoreKeepsRest<P>(slots: seq<Slot<P>>, s: State, i: nat, s': State)
    requires Shape(slots, s) && i < |s.threads| && s.threads[i].pc.StoreClient? && s' == StepThread(slots, s, i)
    requires IdentitiesOk(s) && FinalizedKnown(s)
    ensures IdentitiesOk(s') && FinalizedKnown(s')
  {
  }

  lemma StoreKeeps<P>(slots: seq<Slot<P>>, s: State, i: nat)
    requires Inv(slots, s) && i < |s.threads| && s.threads[i].pc.StoreClient?
    ensures Inv(slots, StepThread(slots, s, i))
  {
    var s' := StepThread(slots, s, i);
    assert ThreadOk(slots, s, i);
    StoreAdvances(slots, s, i, s');
    StoreThread(slots, s, i, s');
    StoreQueues(slots, s, i, s');
    StoreKeepsRest(slots, s, i, s');
    StoreKeepsStored(slots, s, i, s');
    StoreConserves(slots, s, i, s', s.threads[i].pc.client);
    Assemble(slots, s, s', i);
  }

  lemma SourceFailureThread<P>(slots: seq<Slot<P>>, s: State, i: nat, s': State)
    requires Shape(slots, s) && i < |s.threads| && s.threads[i].pc.CallSource? && ThreadOk(slots, s, i)
    requires s' == Apply(slots, s, SourceAnswers(i, None))
    ensures Quiet(s, s', i) && ThreadOk(slots, s', i)
    ensures s'.search == s.search && s'.ident == s.ident
    ensures SearchRole(slots, s'.threads[i]) == SearchRole(slots, s.threads[i])
    ensures IdentRole(s'.threads[i]) == IdentRole(s.threads[i])
  {
  }

  lemma SourceFailureKeeps<P>(slots: seq<Slot<P>>, s: State, i: nat)
    requires Inv(slots, s) && i < |s.threads| && s.threads[i].pc.CallSource?
    ensures Inv(slots, Apply(slots, s, SourceAnswers(i, None)))
  {
    var s' := Apply(slots, s, SourceAnswers(i, None));
    assert ThreadOk(slots, s, i);
    SourceFailureThread(slots, s, i, s');
    PrivateStepKeeps(slots, s, i, s');
  }

  lemma SourceAdvances<P>(slots: seq<Slot<P>>, s: State, i: nat, hid: ValidID, s': State)
    requires Shape(slots, s) && Enabled(slots, s, SourceAnswers(i, Some(hid)))
    requires s' == Apply(slots, s, SourceAnswers(i, Some(hid)))
    ensures Advances(slots, s, s', i)
  {
    BackedKept(s, s');
  }

  lemma SourceThread<P>(slots: seq<Slot<P>>, s: State, i: nat, hid: ValidID, s': State)
    requires Shape(slots, s) && Enabled(slots, s, SourceAnswers(i, Some(hid))) && ThreadOk(slots, s, i)
    requires s' == Apply(slots, s, SourceAnswers(i, Some(hid))) && IdentitiesOk(s)
    ensures ThreadOk(slots, s', i) && Shape(slots, s') && IdentitiesOk(s')
  {
  }

  lemma SourceQueues<P>(slots: seq<Slot<P>>, s: State, i: nat, hid: ValidID, s': State)
    requires Shape(slots, s) && Enabled(slots, s, SourceAnswers(i, Some(hid))) && QueuesOk(slots, s)
    requires s' == Apply(slots, s, SourceAnswers(i, Some(hid)))
    ensures QueuesOk(slots, s') && s'.search == s.search && s'.ident == s.ident && |s'.threads| == |s.threads|
  {
    RoleKept(slots, s, s', i);
  }

  lemma SourceConserves<P>(slots: seq<Slot<P>>, s: State, i: nat, hid: ValidID, s': State)
    requires Shape(slots, s) && Enabled(slots, s, SourceAnswers(i, Some(hid)))
    requires s' == Apply(slots, s, SourceAnswers(i, Some(hid)))
    requires Conserved(s) && FinalizedKnown(s)
    ensures Conserved(s') && FinalizedKnown(s')
  {
    InFlightKept(s, s', i);
    UntouchedConserves(s, s');
  }

  lemma SourceKeeps<P>(slots: seq<Slot<P>>, s: State, i: nat, hid: ValidID)
    requires Inv(slots, s) && Enabled(slots, s, SourceAnswers(i, Some(hid)))
    ensures Inv(slots, Apply(slots, s, SourceAnswers(i, Some(hid))))
  {
    var s' := Apply(slots, s, SourceAnswers(i, Some(hid)));
    assert ThreadOk(slots, s, i);
    SourceAdvances(slots, s, i, hid, s');
    SourceThread(slots, s, i, hid, s');
    SourceQueues(slots, s, i, hid, s');
    SourceConserves(slots, s, i, hid, s');
    StoredKept(slots, s, s', i);
    Assemble(slots, s, s', i);
  }

  /** A quiet step that leaves both queues alone. */
  lemma PrivateStepKeeps<P>(slots: seq<Slot<P>>, s: State, i: nat, s': State)
    requires Inv(slots, s) && Quiet(s, s', i) && s'.search == s.search && s'.ident == s.ident
    requires SearchRole(slots, s'.threads[i]) == SearchRole(slots, s.threads[i])
    requires IdentRole(s'.threads[i]) == IdentRole(s.threads[i])
    requires ThreadOk(slots, s', i)
    ensures Inv(slots, s')
  {
    RoleKept(slots, s, s', i);
    QuietKeepsInv(slots, s, s', i);
  }

  lemma BuildFailureThread<P>(slots: seq<Slot<P>>, s: State, i: nat, s': State)
    requires Shape(slots, s) && i < |s.threads| && s.threads[i].pc.Build? && ThreadOk(slots, s, i)
    requires s' == Apply(slots, s, ConstructorAnswers(i, false))
    ensures Quiet(s, s', i) && ThreadOk(slots, s', i)
    ensures s'.search == s.search && s'.ident == s.ident
    ensures SearchRole(slots, s'.threads[i]) == SearchRole(slots, s.threads[i])
    ensures IdentRole(s'.threads[i]) == IdentRole(s.threads[i])
  {
  }

  lemma BuildFailureKeeps<P>(slots: seq<Slot<P>>, s: State, i: nat)
    requires Inv(slots, s) && i < |s.threads| && s.threads[i].pc.Build?
    ensures Inv(slots, Apply(slots, s, ConstructorAnswers(i, false)))
  {
    var s' := Apply(slots, s, ConstructorAnswers(i, false));
    assert ThreadOk(slots, s, i);
    BuildFailureThread(slots, s, i, s');
    PrivateStepKeeps(slots, s, i, s');
  }

  lemma BuildAdvances<P>(slots: seq<Slot<P>>, s: State, i: nat, s': State)
    requires Shape(slots, s) && i < |s.threads| && s.threads[i].pc.Build?
    requires s' == Apply(slots, s, ConstructorAnswers(i, true))
    ensures Advances(slots, s, s', i)
  {
    BackedKept(s, s');
  }

  lemma BuildThread<P>(slots: seq<Slot<P>>, s: State, i: nat, s': State)
    requires Shape(slots, s) && i < |s.threads| && s.threads[i].pc.Build? && ThreadOk(slots, s, i)
    requires s' == Apply(slots, s, ConstructorAnswers(i, true))
    ensures ThreadOk(slots, s', i) && Shape(slots, s')
  {
  }

  lemma BuildConserves<P>(slots: seq<Slot<P>>, s: State, i: nat, s': State)
    requires Shape(slots, s) && StoredOk(s) && Conserved(s) && FinalizedKnown(s)
    requires i < |s.threads| && s.threads[i].pc.Build? && s' == Apply(slots, s, ConstructorAnswers(i, true))
    ensures Conserved(s') && FinalizedKnown(s')
  {
    forall u | 0 <= u < |s'.created|
      ensures One(InFlight(s', u)) + One(IsStored(s', u)) + s'.finalized[s'.created[u]] == 1
    {
      if u < |s.created| {
        assert One(InFlight(s, u)) + One(IsStored(s, u)) + s.finalized[s.created[u]] == 1;
        assert InFlight(s', u) == InFlight(s, u) && IsStored(s', u) == IsStored(s, u);
      } else {
        assert InFlight(s', u) && !KnownClient(s, s'.created[u]);
      }
    }
  }

  lemma BuildQueues<P>(slots: seq<Slot<P>>, s: State, i: nat, s': State)
    requires Shape(slots, s) && i < |s.threads| && s.threads[i].pc.Build? && QueuesOk(slots, s)
    requires s' == Apply(slots, s, ConstructorAnswers(i, true))
    ensures QueuesOk(slots, s') && s'.search == s.search && s'.ident == s.ident && |s'.threads| == |s.threads|
  {
    RoleKept(slots, s, s', i);
  }

  lemma BuildStored<P>(slots: seq<Slot<P>>, s: State, i: nat, s': State)
    requires Shape(slots, s) && i < |s.threads| && s.threads[i].pc.Build? && StoredOk(s)
    requires s' == Apply(slots, s, ConstructorAnswers(i, true))
    ensures StoredOk(s')
  {
    BuildAdvances(slots, s, i, s');
    StoredKept(slots, s, s', i);
  }

  lemma BuildIdentities<P>(slots: seq<Slot<P>>, s: State, i: nat, s': State)
    requires Shape(slots, s) && i < |s.threads| && s.threads[i].pc.Build? && IdentitiesOk(s)
    requires s' == Apply(slots, s, ConstructorAnswers(i, true))
    ensures IdentitiesOk(s')
  {
  }

  lemma BuildKeeps<P>(slots: seq<Slot<P>>, s: State, i: nat)
    requires Inv(slots, s) && i < |s.threads| && s.threads[i].pc.Build?
    ensures Inv(slots, Apply(slots, s, ConstructorAnswers(i, true)))
  {
    var s' := Apply(slots, s, ConstructorAnswers(i, true));
    assert ThreadOk(slots, s, i);
    BuildAdvances(slots, s, i, s');
    BuildThread(slots, s, i, s');
    BuildQueues(slots, s, i, s');
    BuildStored(slots, s, i, s');
    BuildIdentities(slots, s, i, s');
    BuildConserves(slots, s, i, s');
    Assemble(slots, s, s', i);
  }

  // ---- The environment ----

  lemma NewGetQueues<P>(slots: seq<Slot<P>>, s: State, t: Thread, s': State)
    requires QueuesOk(slots, s) && s'.threads == s.threads + [t] && t.pc.SearchPush?
    requires s'.search == s.search && s'.ident == s.ident
    ensures QueuesOk(slots, s')
  {
    assert s'.threads[..|s'.threads| - 1] == s.threads;
    assert SearchRoles(slots, s'.threads) == SearchRoles(slots, s.threads) + [Outside];
    assert IdentRoles(s'.threads) == IdentRoles(s.threads) + [Outside];
    NewThreadKeepsQueue(s.search, SearchRoles(slots, s.threads));
    NewThreadKeepsQueue(s.ident, IdentRoles(s.threads));
  }

  lemma NewGetAdvances<P>(slots: seq<Slot<P>>, s: State, addr: Addr, question: string, s': State)
    requires Shape(slots, s) && Enabled(slots, s, NewGet(addr, question))
    requires s' == Apply(slots, s, NewGet(addr, question))
    ensures Advances(slots, s, s', -1) && Shape(slots, s') && ThreadOk(slots, s', |s.threads|)
  {
    BackedKept(s, s');
  }

  lemma NewGetData<P>(slots: seq<Slot<P>>, s: State, addr: Addr, question: string, s': State)
    requires Shape(slots, s) && Enabled(slots, s, NewGet(addr, question))
    requires s' == Apply(slots, s, NewGet(addr, question))
    requires IdentitiesOk(s) && StoredOk(s) && Conserved(s) && FinalizedKnown(s)
    ensures IdentitiesOk(s') && StoredOk(s') && Conserved(s') && FinalizedKnown(s')
  {
    NewGetAdvances(slots, s, addr, question, s');
    StoredKept(slots, s, s', -1);
    NewGetConserves(slots, s, addr, question, s');
  }

  lemma NewGetConserves<P>(slots: seq<Slot<P>>, s: State, addr: Addr, question: string, s': State)
    requires Shape(slots, s) && Enabled(slots, s, NewGet(addr, question))
    requires s' == Apply(slots, s, NewGet(addr, question)) && Conserved(s) && FinalizedKnown(s)
    ensures Conserved(s') && FinalizedKnown(s')
  {
    UntouchedConserves(s, s');
  }

  lemma NewGetThreads<P>(slots: seq<Slot<P>>, s: State, addr: Addr, question: string, s': State)
    requires Shape(slots, s) && Enabled(slots, s, NewGet(addr, question))
    requires s' == Apply(slots, s, NewGet(addr, question)) && ThreadsOk(slots, s) && QueuesOk(slots, s)
    ensures ThreadsOk(slots, s') && QueuesOk(slots, s')
  {
    NewGetQueues(slots, s, s'.threads[|s.threads|], s');
    NewGetAdvances(slots, s, addr, question, s');
    OthersKept(slots, s, s', -1);
  }

  lemma NewGetKeeps<P>(slots: seq<Slot<P>>, s: State, addr: Addr, question: string)
    requires Inv(slots, s) && Enabled(slots, s, NewGet(addr, question))
    ensures Inv(slots, Apply(slots, s, NewGet(addr, question)))
  {
    var s' := Apply(slots, s, NewGet(addr, question));
    NewGetAdvances(slots, s, addr, question, s');
    NewGetThreads(slots, s, addr, question, s');
    NewGetData(slots, s, addr, question, s');
    SearchEntriesKept(slots, s, s', -1);
    IdentEntriesKept(slots, s, s', -1);
  }

  lemma TickKeeps<P>(slots: seq<Slot<P>>, s: State, to: Time)
    requires Inv(slots, s) && Enabled(slots, s, Tick(to))
    ensures Inv(slots, Apply(slots, s, Tick(to)))
  {
    var s' := Apply(slots, s, Tick(to));
    BackedKept(s, s');
    assert Advances(slots, s, s', -1);
    StoredKept(slots, s, s', -1);
    UntouchedConserves(s, s');
    Assemble(slots, s, s', -1);
  }

  lemma StartGcKeeps<P>(slots: seq<Slot<P>>, s: State, now: Time)
    requires Inv(slots, s) && Enabled(slots, s, StartGc(now))
    ensures Inv(slots, Apply(slots, s, StartGc(now)))
  {
    var s' := Apply(slots, s, StartGc(now));
    BackedKept(s, s');
    assert Advances(slots, s, s', -1);
    StoredKept(slots, s, s', -1);
    UntouchedConserves(s, s');
    Assemble(slots, s, s', -1);
  }

  lemma GcSlotAdvances<P>(slots: seq<Slot<P>>, s: State, s': State)
    requires Shape(slots, s) && s.gc.GcRunning? && s.gc.next < |slots| && s' == Apply(slots, s, GcStep)
    ensures Advances(slots, s, s', -1) && Shape(slots, s')
    ensures s'.threads == s.threads && s'.search == s.search && s'.ident == s.ident
  {
    BackedKept(s, s');
  }

  lemma GcSlotData<P>(slots: seq<Slot<P>>, s: State, s': State)
    requires Shape(slots, s) && s.gc.GcRunning? && s.gc.next < |slots| && s' == Apply(slots, s, GcStep)
    requires QueuesOk(slots, s) && IdentitiesOk(s) && StoredOk(s)
    ensures QueuesOk(slots, s') && IdentitiesOk(s') && StoredOk(s')
  {
    GcSlotAdvances(slots, s, s');
    StoredKept(slots, s, s', -1);
  }

  lemma GcSlotConserves<P>(slots: seq<Slot<P>>, s: State)
    requires Shape(slots, s) && s.gc.GcRunning? && s.gc.next < |slots|
    requires StoredOk(s) && Conserved(s) && FinalizedKnown(s)
    ensures var s' := Apply(slots, s, GcStep);
      Conserved(s') && FinalizedKnown(s')
  {
    DropsConserve(s, Apply(slots, s, GcStep), DroppedClients(s.clients[s.gc.next], s.gc.now));
  }

  lemma GcSlotKeeps<P>(slots: seq<Slot<P>>, s: State)
    requires Inv(slots, s) && s.gc.GcRunning? && s.gc.next < |slots|
    ensures Inv(slots, Apply(slots, s, GcStep))
  {
    var s' := Apply(slots, s, GcStep);
    GcSlotAdvances(slots, s, s');
    GcSlotData(slots, s, s');
    GcSlotConserves(slots, s);
    Assemble(slots, s, s', -1);
  }

  lemma GcIdentitiesKeeps<P>(slots: seq<Slot<P>>, s: State)
    requires Inv(slots, s) && s.gc.GcRunning? && s.gc.next >= |slots|
    ensures Inv(slots, Apply(slots, s, GcStep))
  {
    var s' := Apply(slots, s, GcStep);
    assert forall a, h :: Backed(s, a, h) ==> Backed(s', a, h);
    assert Advances(slots, s, s', -1);
    StoredKept(slots, s, s', -1);
    UntouchedConserves(s, s');
    Assemble(slots, s, s', -1);
  }

  // ---- All together ----

  lemma ThreadStepKeeps<P>(slots: seq<Slot<P>>, s: State, i: nat)
    requires Inv(slots, s) && Enabled(slots, s, Step(i))
    ensures Inv(slots, StepThread(slots, s, i))
  {
    var t := s.threads[i];
    match t.pc
    case SearchPush =>
      if KeyOf(slots, t) in s.search.m {
        SearchJoinKeeps(slots, s, i);
      } else {
        SearchLeadKeeps(slots, s, i);
      }
    case SearchWait(_) => SearchWaitKeeps(slots, s, i);
    case ReadClock => ReadClockKeeps(slots, s, i);
    case Find =>
      if FoundValid(s.clients[t.slot], t.addr, t.now).Some? {
        FindKeepsFound(slots, s, i);
      } else if t.addr in s.clients[t.slot] {
        FindKeepsExpired(slots, s, i);
      } else {
        FindKeepsAbsent(slots, s, i);
      }
    case IdentPush => IdentPushKeeps(slots, s, i);
    case IdentWait(_) => IdentWaitKeeps(slots, s, i);
    case CheckIdentity(hid) =>
      if Conflicts(s.identified, t.addr, hid, t.now) {
        CheckKeepsConflict(slots, s, i);
      } else {
        CheckKeepsClaimed(slots, s, i);
      }
    case IdentDone(_) => IdentDoneKeeps(slots, s, i);
    case IdentDelete(_) => IdentDeleteKeeps(slots, s, i);
    case StoreClient(_) => StoreKeeps(slots, s, i);
    case SearchDone(_) => SearchDoneKeeps(slots, s, i);
    case SearchDelete(_) => SearchDeleteKeeps(slots, s, i);
  }

  lemma ActionKeepsInv<P>(slots: seq<Slot<P>>, s: State, a: Action, s': State)
    requires Inv(slots, s) && Enabled(slots, s, a) && s' == Apply(slots, s, a)
    ensures Inv(slots, s')
  {
    match a
    case NewGet(addr, question) => NewGetKeeps(slots, s, addr, question);
    case Tick(to) => TickKeeps(slots, s, to);
    case StartGc(now) => StartGcKeeps(slots, s, now);
    case GcStep =>
      if s.gc.next < |slots| {
        GcSlotKeeps(slots, s);
      } else {
        GcIdentitiesKeeps(slots, s);
      }
    case Cancel(i) => CancelKeeps(slots, s, i);
    case Step(i) => ThreadStepKeeps(slots, s, i);
    case SourceAnswers(i, answer) =>
      if answer.None? {
        SourceFailureKeeps(slots, s, i);
      } else {
        SourceKeeps(slots, s, i, answer.value);
      }
    case ConstructorAnswers(i, built) =>
      if built {
        BuildKeeps(slots, s, i);
      } else {
        BuildFailureKeeps(slots, s, i);
      }
  }

  lemma InitHasInv<P>(slots: seq<Slot<P>>, clock: Time)
    ensures Inv(slots, Init(|slots|, clock))
  {
    var s := Init(|slots|, clock);
    assert forall k :: 0 <= k < |s.clients| ==> s.clients[k] == map[];
    EmptyQueues(slots, s);
    EmptyEntries(slots, s);
    EmptyData(slots, s);
  }

  lemma EmptyQueue<K(!new), V>()
    ensures QueueInv<K, V>(NewQueue(), [])
  {
  }

  lemma EmptyRoles<P>(slots: seq<Slot<P>>)
    ensures SearchRoles(slots, []) == [] && IdentRoles([]) == []
  {
  }

  lemma EmptyQueues<P>(slots: seq<Slot<P>>, s: State)
    requires s.threads == [] && s.search == NewQueue() && s.ident == NewQueue()
    ensures QueuesOk(slots, s)
  {
    EmptyQueue<SearchKey, Outcome<Client>>();
    EmptyQueue<Addr, Outcome<ValidID>>();
    EmptyRoles(slots);
  }

  lemma EmptyEntries<P>(slots: seq<Slot<P>>, s: State)
    requires s.threads == [] && s.search == NewQueue() && s.ident == NewQueue()
    ensures ThreadsOk(slots, s) && SearchEntriesOk(slots, s) && IdentEntriesOk(s)
  {
  }

  lemma EmptyData<P>(slots: seq<Slot<P>>, s: State)
    requires s.threads == [] && s.identified == map[] && s.gc == GcIdle && s.finalized == multiset{}
    requires |s.clients| == |slots| && (forall k :: 0 <= k < |s.clients| ==> s.clients[k] == map[])
    requires s.created == [] && s.creators == []
    ensures Shape(slots, s) && IdentitiesOk(s) && StoredOk(s) && Conserved(s) && FinalizedKnown(s)
  {
  }
}
