/** What the invariant of the protocol means for runs: unique live identities,
    conservation of clients, one live instance, results shared through the queues,
    and completion of every Get. */
module ProtocolTheorems {
  import opened Wrappers
  import opened Net
  import opened Lookup
  import opened SingleFlight
  import opened Storage
  import opened Protocol
  import opened ProtocolInvariant

  ghost predicate CanApply<P>(slots: seq<Slot<P>>, s: State, a: Action) {
    && Enabled(slots, s, a)
    && |s.clients| == |slots|
    && forall i :: 0 <= i < |s.threads| ==> s.threads[i].slot < |slots|
  }

  /** A finite run: any interleaving of the actions. */
  ghost predicate IsRun<P>(slots: seq<Slot<P>>, states: seq<State>, acts: seq<Action>) {
    && |states| == |acts| + 1
    && forall k :: 0 <= k < |acts| ==>
         CanApply(slots, states[k], acts[k]) && states[k + 1] == Apply(slots, states[k], acts[k])
  }

  /** A run of a new storage. */
  ghost predicate IsExecution<P>(slots: seq<Slot<P>>, states: seq<State>, acts: seq<Action>) {
    IsRun(slots, states, acts) && states[0] == Init(|slots|, states[0].clock)
  }

  lemma {:induction false} RunKeepsInv<P>(slots: seq<Slot<P>>, states: seq<State>, acts: seq<Action>, k: nat)
    requires IsRun(slots, states, acts) && Inv(slots, states[0]) && k <= |acts|
    ensures Inv(slots, states[k])
  {
    if k > 0 {
      RunKeepsInv(slots, states, acts, k - 1);
      ActionKeepsInv(slots, states[k - 1], acts[k - 1], states[k]);
    }
  }

  lemma ExecutionHasInv<P>(slots: seq<Slot<P>>, states: seq<State>, acts: seq<Action>, k: nat)
    requires IsExecution(slots, states, acts) && k <= |acts|
    ensures Inv(slots, states[k])
  {
    InitHasInv(slots, states[0].clock);
    RunKeepsInv(slots, states, acts, k);
  }

  // ---- Identities ----

  lemma HeldClientIsBacked<P>(slots: seq<Slot<P>>, s: State, u: nat)
    requires Inv(slots, s) && u < |s.created| && s.finalized[s.created[u]] == 0
    ensures Backed(s, s.created[u].addr, s.created[u].hid)
  {
    var c := s.created[u];
    assert One(InFlight(s, u)) + One(IsStored(s, u)) + s.finalized[c] == 1;
    if InFlight(s, u) {
      assert ThreadOk(slots, s, s.creators[u]);
    }
  }

  /** In no state of any execution do two clients that are stored or about to be
      stored, and unexpired at the real time, carry one human ID for two addresses. */
  lemma LiveIdentitiesAreUnique<P>(
    slots: seq<Slot<P>>, states: seq<State>, acts: seq<Action>, k: nat, u: nat, v: nat)
    requires IsExecution(slots, states, acts) && k <= |acts|
    requires var s := states[k];
      && u < |s.created| && v < |s.created|
      && s.finalized[s.created[u]] == 0 && s.finalized[s.created[v]] == 0
      && s.created[u].hid.until > s.clock && s.created[v].hid.until > s.clock
      && s.created[u].hid.id == s.created[v].hid.id
    ensures states[k].created[u].addr == states[k].created[v].addr
  {
    ExecutionHasInv(slots, states, acts, k);
    HeldClientIsBacked(slots, states[k], u);
    HeldClientIsBacked(slots, states[k], v);
  }

  /** The same for the clients maps themselves. */
  lemma LiveStoredIdentitiesAreUnique<P>(
    slots: seq<Slot<P>>, states: seq<State>, acts: seq<Action>, n: nat, i: nat, a: Addr, j: nat, b: Addr)
    requires IsExecution(slots, states, acts) && n <= |acts|
    requires var s := states[n];
      && i < |s.clients| && a in s.clients[i] && j < |s.clients| && b in s.clients[j]
      && s.clients[i][a].hid.until > s.clock && s.clients[j][b].hid.until > s.clock
      && s.clients[i][a].hid.id == s.clients[j][b].hid.id
    ensures a == b
  {
    ExecutionHasInv(slots, states, acts, n);
  }

  // ---- Clients ----

  /** Each client created so far is in exactly one place: with the Get that created
      it, in the map of its slot under its address, or finalized, once; and nothing
      else is stored or finalized. */
  lemma ClientsAreConserved<P>(slots: seq<Slot<P>>, states: seq<State>, acts: seq<Action>, k: nat)
    requires IsExecution(slots, states, acts) && k <= |acts|
    ensures Conserved(states[k])
    ensures forall c :: c in states[k].finalized ==> c in states[k].created && states[k].finalized[c] == 1
    ensures forall i, a :: 0 <= i < |states[k].clients| && a in states[k].clients[i] ==>
              && states[k].clients[i][a] in states[k].created
              && states[k].clients[i][a].slot == i && states[k].clients[i][a].addr == a
  {
    ExecutionHasInv(slots, states, acts, k);
    var s := states[k];
    forall c | c in s.finalized
      ensures c in s.created && s.finalized[c] == 1
    {
      assert KnownClient(s, c);
      assert One(InFlight(s, c.uid)) + One(IsStored(s, c.uid)) + s.finalized[s.created[c.uid]] == 1;
    }
    forall i, a | 0 <= i < |s.clients| && a in s.clients[i]
      ensures s.clients[i][a] in s.created && s.clients[i][a].slot == i && s.clients[i][a].addr == a
    {
      assert KnownClient(s, s.clients[i][a]);
    }
  }

  /** Storing a new client never overwrites one. */
  lemma StoringOverwritesNothing<P>(slots: seq<Slot<P>>, states: seq<State>, acts: seq<Action>, k: nat, i: nat)
    requires IsExecution(slots, states, acts) && k <= |acts|
    requires i < |states[k].threads| && states[k].threads[i].pc.StoreClient?
    ensures var t := states[k].threads[i];
      t.slot < |states[k].clients| && t.addr !in states[k].clients[t.slot]
  {
    ExecutionHasInv(slots, states, acts, k);
    assert ThreadOk(slots, states[k], i);
  }

  lemma LiveClientSurvivesStep<P>(slots: seq<Slot<P>>, s: State, t: nat, i: nat, a: Addr)
    requires Shape(slots, s) && Enabled(slots, s, Step(t)) && ThreadOk(slots, s, t)
    requires i < |s.clients| && a in s.clients[i] && s.clients[i][a].hid.until > s.clock
    ensures var s' := StepThread(slots, s, t);
      i < |s'.clients| && a in s'.clients[i] && s'.clients[i][a] == s.clients[i][a]
  {
  }

  lemma LiveClientSurvivesAction<P>(slots: seq<Slot<P>>, s: State, act: Action, i: nat, a: Addr)
    requires Shape(slots, s) && CanApply(slots, s, act) && (act.Step? ==> ThreadOk(slots, s, act.thread))
    requires i < |s.clients| && a in s.clients[i] && s.clients[i][a].hid.until > s.clock
    ensures var s' := Apply(slots, s, act);
      i < |s'.clients| && a in s'.clients[i] && s'.clients[i][a] == s.clients[i][a]
  {
    if act.Step? {
      LiveClientSurvivesStep(slots, s, act.thread, i, a);
    }
  }

  /** A client stays stored, the same object, for as long as it has not expired. */
  lemma {:induction false} LiveClientStays<P>(
    slots: seq<Slot<P>>, states: seq<State>, acts: seq<Action>, m: nat, n: nat, i: nat, a: Addr)
    requires IsExecution(slots, states, acts) && m <= n <= |acts|
    requires i < |states[m].clients| && a in states[m].clients[i]
    requires states[m].clients[i][a].hid.until > states[n].clock
    ensures i < |states[n].clients| && a in states[n].clients[i] && states[n].clients[i][a] == states[m].clients[i][a]
    decreases n - m
  {
    if m < n {
      ClockGrows(slots, states, acts, m, n);
      ExecutionHasInv(slots, states, acts, m);
      if acts[m].Step? {
        assert ThreadOk(slots, states[m], acts[m].thread);
      }
      LiveClientSurvivesAction(slots, states[m], acts[m], i, a);
      LiveClientStays(slots, states, acts, m + 1, n, i, a);
    }
  }

  lemma ClockNeverFalls<P>(slots: seq<Slot<P>>, s: State, a: Action)
    requires CanApply(slots, s, a)
    ensures s.clock <= Apply(slots, s, a).clock
  {
  }

  lemma {:induction false} ClockGrows<P>(slots: seq<Slot<P>>, states: seq<State>, acts: seq<Action>, m: nat, n: nat)
    requires IsRun(slots, states, acts) && m <= n <= |acts|
    ensures states[m].clock <= states[n].clock
    decreases n - m
  {
    if m < n {
      assert CanApply(slots, states[m], acts[m]) && states[m + 1] == Apply(slots, states[m], acts[m]);
      ClockNeverFalls(slots, states[m], acts[m]);
      ClockGrows(slots, states, acts, m + 1, n);
    }
  }

  lemma LiveIsFound<P>(slots: seq<Slot<P>>, s: State, i: nat)
    requires CanApply(slots, s, Step(i)) && s.threads[i].pc.Find? && s.threads[i].now <= s.clock
    requires var t := s.threads[i];
      t.slot < |s.clients| && t.addr in s.clients[t.slot] && s.clients[t.slot][t.addr].hid.until > s.clock
    ensures var t := s.threads[i];
      Apply(slots, s, Step(i)).threads[i].pc == SearchDone(Outcome(Some(s.clients[t.slot][t.addr]), None))
  {
  }

  /** So every Get that looks it up before it expires leaves with that object. */
  lemma LookupReturnsLiveClient<P>(
    slots: seq<Slot<P>>, states: seq<State>, acts: seq<Action>, m: nat, n: nat, i: nat)
    requires IsExecution(slots, states, acts) && m <= n < |acts|
    requires acts[n] == Step(i) && states[n].threads[i].pc.Find?
    requires var t := states[n].threads[i];
      && t.slot < |states[m].clients| && t.addr in states[m].clients[t.slot]
      && states[m].clients[t.slot][t.addr].hid.until > states[n].clock
    ensures var t := states[n].threads[i];
      states[n + 1].threads[i].pc == SearchDone(Outcome(Some(states[m].clients[t.slot][t.addr]), None))
  {
    var t := states[n].threads[i];
    LiveClientStays(slots, states, acts, m, n, t.slot, t.addr);
    ExecutionHasInv(slots, states, acts, n);
    assert ThreadOk(slots, states[n], i);
    assert CanApply(slots, states[n], acts[n]) && states[n + 1] == Apply(slots, states[n], acts[n]);
    LiveIsFound(slots, states[n], i);
  }

  /** A Get on its way out with a result. */
  predicate Carries(pc: PC, answer: Option<Client>) {
    match pc
    case SearchDone(r) => r.val == answer
    case SearchDelete(r) => r.val == answer
    case Finished(a) => a == answer
    case _ => false
  }

  lemma StepCarriesOn<P>(slots: seq<Slot<P>>, s: State, i: nat, answer: Option<Client>)
    requires CanApply(slots, s, Step(i)) && Carries(s.threads[i].pc, answer)
    requires s.threads[i].pc.SearchDone? ==> CanPublish(s.search, KeyOf(slots, s.threads[i]))
    ensures Carries(StepThread(slots, s, i).threads[i].pc, answer)
  {
    StepMovesOne(slots, s, i);
  }

  /** A step moves one thread: to its next position, with a new clock reading if it
      reads the clock. */
  lemma StepMovesOne<P>(slots: seq<Slot<P>>, s: State, i: nat)
    requires CanApply(slots, s, Step(i))
    ensures var t := s.threads[i];
      StepThread(slots, s, i).threads ==
      s.threads[i := t.(pc := NextPC(slots, s, i), now := if t.pc.ReadClock? then s.clock else t.now)]
  {
    match s.threads[i].pc
    case ReadClock =>
    case _ =>
  }

  lemma OthersCarryOn<P>(slots: seq<Slot<P>>, s: State, a: Action, i: nat)
    requires CanApply(slots, s, a) && i < |s.threads| && a != Step(i)
    requires s.threads[i].pc.SearchDone? || s.threads[i].pc.SearchDelete? || s.threads[i].pc.Finished?
    ensures i < |Apply(slots, s, a).threads| && Apply(slots, s, a).threads[i] == s.threads[i]
  {
    if a.Step? {
      StepMovesOne(slots, s, a.thread);
    }
  }

  /** A Get on its way out keeps its result to the end. */
  lemma {:induction false} ResultIsCarried<P>(
    slots: seq<Slot<P>>, states: seq<State>, acts: seq<Action>, m: nat, n: nat, i: nat, answer: Option<Client>)
    requires IsExecution(slots, states, acts) && m <= n <= |acts|
    requires i < |states[m].threads| && Carries(states[m].threads[i].pc, answer)
    ensures i < |states[n].threads| && Carries(states[n].threads[i].pc, answer)
    decreases n - m
  {
    if m < n {
      ExecutionHasInv(slots, states, acts, m);
      LeadersCanPublish(slots, states[m], i);
      assert CanApply(slots, states[m], acts[m]) && states[m + 1] == Apply(slots, states[m], acts[m]);
      if acts[m] == Step(i) {
        StepCarriesOn(slots, states[m], i, answer);
      } else {
        OthersCarryOn(slots, states[m], acts[m], i);
      }
      ResultIsCarried(slots, states, acts, m + 1, n, i, answer);
    }
  }

  /** The answer of a Get that looks up a client before it expires is that client. */
  lemma LookupAnswersLiveClient<P>(
    slots: seq<Slot<P>>, states: seq<State>, acts: seq<Action>, m: nat, n: nat, i: nat, l: nat)
    requires IsExecution(slots, states, acts) && m <= n < l <= |acts|
    requires acts[n] == Step(i) && i < |states[n].threads| && states[n].threads[i].pc.Find?
    requires var t := states[n].threads[i];
      && t.slot < |states[m].clients| && t.addr in states[m].clients[t.slot]
      && states[m].clients[t.slot][t.addr].hid.until > states[n].clock
    ensures i < |states[l].threads|
    ensures var t := states[n].threads[i];
      states[l].threads[i].pc.Finished? ==>
        states[l].threads[i].pc.answer == Some(states[m].clients[t.slot][t.addr])
  {
    var t := states[n].threads[i];
    LookupReturnsLiveClient(slots, states, acts, m, n, i);
    ResultIsCarried(slots, states, acts, n + 1, l, i, Some(states[m].clients[t.slot][t.addr]));
  }

  /** An error names what went wrong: the source, the duplicate check, the constructor or
      the cancellation, or what the leader of the identify queue has published. */
  lemma IdentFailureNamesReason<P>(slots: seq<Slot<P>>, s: State, a: Action, i: nat)
    requires CanApply(slots, s, a) && i < |s.threads|
    ensures i < |Apply(slots, s, a).threads|
    ensures var t, pc := s.threads[i], Apply(slots, s, a).threads[i].pc;
      pc.IdentDone? && pc != t.pc && pc.ires.err.Some? ==>
        if pc.ires.err == Some(SourceFailed) then a == SourceAnswers(i, None)
        else
          && pc.ires.err == Some(Duplicated) && a == Step(i) && t.pc.CheckIdentity?
          && Conflicts(s.identified, t.addr, t.pc.hid, t.now)
    ensures a == SourceAnswers(i, None) ==>
              Apply(slots, s, a).threads[i].pc == IdentDone(Outcome(None, Some(SourceFailed)))
  {
    if a.Step? {
      StepMovesOne(slots, s, a.thread);
    }
  }

  lemma SearchFailureNamesReason<P>(slots: seq<Slot<P>>, s: State, a: Action, i: nat)
    requires CanApply(slots, s, a) && i < |s.threads|
    ensures i < |Apply(slots, s, a).threads|
    ensures var t, pc := s.threads[i], Apply(slots, s, a).threads[i].pc;
      pc.SearchDone? && pc != t.pc && pc.sres.err.Some? ==>
        match a
        case Cancel(_) => a == Cancel(i) && pc.sres.err == Some(Cancelled)
        case ConstructorAnswers(_, _) => a == ConstructorAnswers(i, false) && pc.sres.err == Some(BadUpstream)
        case _ => a == Step(i) && ((t.pc.IdentDelete? && pc.sres.err == t.pc.ires.err) || t.pc.IdentWait?)
  {
    if a.Step? {
      StepMovesOne(slots, s, a.thread);
    }
  }

  /** A waiter of either queue can be cancelled at any time, and leaves with nothing. */
  lemma WaiterCanBeCancelled<P>(slots: seq<Slot<P>>, states: seq<State>, acts: seq<Action>, m: nat, i: nat)
    requires IsExecution(slots, states, acts) && m <= |acts| && i < |states[m].threads|
    requires states[m].threads[i].pc.SearchWait? || states[m].threads[i].pc.IdentWait?
    ensures CanApply(slots, states[m], Cancel(i))
    ensures Carries(Apply(slots, states[m], Cancel(i)).threads[i].pc, None)
    ensures forall l :: m < l <= |acts| && acts[m] == Cancel(i) ==>
              i < |states[l].threads| && Carries(states[l].threads[i].pc, None)
  {
    ExecutionHasInv(slots, states, acts, m);
    if m < |acts| && acts[m] == Cancel(i) {
      assert states[m + 1] == Apply(slots, states[m], acts[m]);
      forall l | m < l <= |acts|
        ensures i < |states[l].threads| && Carries(states[l].threads[i].pc, None)
      {
        ResultIsCarried(slots, states, acts, m + 1, l, i, None);
      }
    }
  }

  // ---- The queues ----

  lemma LeadsWhileInSearch<P>(slots: seq<Slot<P>>, s: State, i: nat)
    requires i < |s.threads| && ThreadsOk(slots, s)
    ensures var t := s.threads[i];
      && (Leads(SearchRole(slots, t)) <==> !(t.pc.SearchPush? || t.pc.SearchWait? || t.pc.Finished?))
      && (Leads(IdentRole(t)) <==> t.pc.CallSource? || t.pc.CheckIdentity? || t.pc.IdentDone? || t.pc.IdentDelete?)
  {
    assert ThreadOk(slots, s, i);
  }

  lemma OneLeader<P>(slots: seq<Slot<P>>, s: State, i: nat, j: nat)
    requires QueuesOk(slots, s) && i < |s.threads| && j < |s.threads|
    requires var ts := s.threads;
      || (Leads(SearchRole(slots, ts[i])) && Leads(SearchRole(slots, ts[j])) && KeyOf(slots, ts[i]) == KeyOf(slots, ts[j]))
      || (Leads(IdentRole(ts[i])) && Leads(IdentRole(ts[j])) && ts[i].addr == ts[j].addr)
    ensures i == j
  {
    RolesAt(slots, s.threads, i);
    RolesAt(slots, s.threads, j);
    if Leads(SearchRole(slots, s.threads[i])) && Leads(SearchRole(slots, s.threads[j]))
       && KeyOf(slots, s.threads[i]) == KeyOf(slots, s.threads[j]) {
      AtMostOneLeader(s.search, SearchRoles(slots, s.threads), i, j);
    } else {
      AtMostOneLeader(s.ident, IdentRoles(s.threads), i, j);
    }
  }

  /** Two Gets are never both leaders for one key, in either queue. */
  lemma OneLeaderPerKey<P>(slots: seq<Slot<P>>, states: seq<State>, acts: seq<Action>, k: nat, i: nat, j: nat)
    requires IsExecution(slots, states, acts) && k <= |acts|
    requires i < |states[k].threads| && j < |states[k].threads|
    ensures var t, u := states[k].threads[i], states[k].threads[j];
      KeyOf(slots, t) == KeyOf(slots, u) && !(t.pc.SearchPush? || t.pc.SearchWait? || t.pc.Finished?) ==>
        u.pc.SearchPush? || u.pc.SearchWait? || u.pc.Finished? || i == j
    ensures var t, u := states[k].threads[i], states[k].threads[j];
      t.addr == u.addr && (t.pc.CallSource? || t.pc.CheckIdentity? || t.pc.IdentDone? || t.pc.IdentDelete?) ==>
        !(u.pc.CallSource? || u.pc.CheckIdentity? || u.pc.IdentDone? || u.pc.IdentDelete?) || i == j
  {
    ExecutionHasInv(slots, states, acts, k);
    LeadsWhileInSearch(slots, states[k], i);
    LeadsWhileInSearch(slots, states[k], j);
    if Leads(SearchRole(slots, states[k].threads[i])) && Leads(SearchRole(slots, states[k].threads[j]))
       && KeyOf(slots, states[k].threads[i]) == KeyOf(slots, states[k].threads[j]) {
      OneLeader(slots, states[k], i, j);
    }
    if Leads(IdentRole(states[k].threads[i])) && Leads(IdentRole(states[k].threads[j]))
       && states[k].threads[i].addr == states[k].threads[j].addr {
      OneLeader(slots, states[k], i, j);
    }
  }

  /** done finds its entry, open: nothing panics. */
  lemma NoGetPanics<P>(slots: seq<Slot<P>>, states: seq<State>, acts: seq<Action>, k: nat, i: nat)
    requires IsExecution(slots, states, acts) && k <= |acts| && i < |states[k].threads|
    ensures !states[k].threads[i].pc.Panicked?
    ensures states[k].threads[i].pc.SearchDone? ==> CanPublish(states[k].search, KeyOf(slots, states[k].threads[i]))
    ensures states[k].threads[i].pc.IdentDone? ==> CanPublish(states[k].ident, states[k].threads[i].addr)
  {
    ExecutionHasInv(slots, states, acts, k);
    assert ThreadOk(slots, states[k], i);
    LeadersCanPublish(slots, states[k], i);
  }

  /** No leader publishes the zero value with a nil error, so a Get that sees them
      is the leader: waiters never go on to lead. */
  lemma WaitersNeverLead<P>(slots: seq<Slot<P>>, states: seq<State>, acts: seq<Action>, k: nat, i: nat)
    requires IsExecution(slots, states, acts) && k < |acts| && acts[k] == Step(i)
    ensures states[k].threads[i].pc.SearchWait? ==> states[k + 1].threads[i].pc.Finished?
    ensures states[k].threads[i].pc.IdentWait? ==>
              states[k + 1].threads[i].pc.Build? || states[k + 1].threads[i].pc.SearchDone?
  {
    ExecutionHasInv(slots, states, acts, k);
    var s := states[k];
    if s.threads[i].pc.SearchWait? {
      SharedResultIsOwn(slots, s, i, s.threads[i].pc.entry);
    } else if s.threads[i].pc.IdentWait? {
      assert IdentEntryOk(s, s.ident.entries[s.threads[i].pc.entry]);
    }
  }

  /** A waiter that is not cancelled returns exactly what the leader of its entry
      returns, a client made for the waiter's own address and slot. */
  lemma WaiterReturnsLeadersAnswer<P>(slots: seq<Slot<P>>, states: seq<State>, acts: seq<Action>, k: nat, i: nat)
    requires IsExecution(slots, states, acts) && k < |acts| && acts[k] == Step(i)
    requires states[k].threads[i].pc.SearchWait?
    ensures var s, s' := states[k], states[k + 1];
      var l := s.search.entries[s.threads[i].pc.entry].leader;
      && s'.threads[i].pc.Finished? && l < |s'.threads| && l != i
      && (match s'.threads[l].pc
          case SearchDelete(r) => r.val == s'.threads[i].pc.answer
          case Finished(answer) => answer == s'.threads[i].pc.answer
          case _ => false)
      && (s'.threads[i].pc.answer.Some? ==>
            && s'.threads[i].pc.answer.value.addr == s.threads[i].addr
            && s'.threads[i].pc.answer.value.slot == FirstIndex(slots, s.threads[i].addr, s.threads[i].question))
  {
    ExecutionHasInv(slots, states, acts, k);
    var s := states[k];
    var e := s.threads[i].pc.entry;
    assert ThreadOk(slots, s, i);
    SharedResultIsOwn(slots, s, i, e);
    assert SearchEntryOk(slots, s, s.search.entries[e]);
  }

  /** Action j publishes the result of identify entry e: its leader, identifying the
      address of the entry, closes it, and it was open until then. */
  ghost predicate PublishesIdent(states: seq<State>, acts: seq<Action>, j: nat, e: nat, r: Outcome<ValidID>) {
    && j < |acts| < |states| && e < |states[j].ident.entries| && e < |states[j + 1].ident.entries|
    && var n := states[j].ident.entries[e];
       && n.result.None? && n.leader < |states[j].threads|
       && acts[j] == Step(n.leader) && states[j].threads[n.leader].pc == IdentDone(r)
       && states[j].threads[n.leader].addr == n.key
       && states[j + 1].ident.entries[e] == n.(result := Some(r))
  }

  /** Closed entries never change, and only the leader's IdentDone closes one. */
  lemma IdentEntryAfterStep<P>(slots: seq<Slot<P>>, s: State, i: nat, e: nat)
    requires CanApply(slots, s, Step(i)) && e < |StepThread(slots, s, i).ident.entries|
    requires s.threads[i].pc.IdentDone? ==> CanPublish(s.ident, s.threads[i].addr)
    ensures var n := StepThread(slots, s, i).ident.entries[e];
      || (e < |s.ident.entries| && n == s.ident.entries[e])
      || (e == |s.ident.entries| && n.result.None?)
      || (&& s.threads[i].pc.IdentDone? && e < |s.ident.entries| && e == s.ident.m[s.threads[i].addr]
          && n == s.ident.entries[e].(result := Some(s.threads[i].pc.ires)))
  {
  }

  /** An action closes an entry of the identify queue only by publishing. */
  lemma IdentEntryAfter<P>(slots: seq<Slot<P>>, states: seq<State>, acts: seq<Action>, k: nat, e: nat)
    requires IsExecution(slots, states, acts) && k < |acts|
    requires e < |states[k + 1].ident.entries| && states[k + 1].ident.entries[e].result.Some?
    ensures e < |states[k].ident.entries|
    ensures states[k].ident.entries[e] == states[k + 1].ident.entries[e]
         || PublishesIdent(states, acts, k, e, states[k + 1].ident.entries[e].result.value)
  {
    var s, a := states[k], acts[k];
    ExecutionHasInv(slots, states, acts, k);
    assert CanApply(slots, s, a) && states[k + 1] == Apply(slots, s, a);
    if a.Step? {
      LeadersCanPublish(slots, s, a.thread);
      IdentEntryAfterStep(slots, s, a.thread, e);
    }
  }

  lemma {:induction false} IdentResultWasPublished<P>(
    slots: seq<Slot<P>>, states: seq<State>, acts: seq<Action>, k: nat, e: nat) returns (j: nat)
    requires IsExecution(slots, states, acts) && k <= |acts|
    requires e < |states[k].ident.entries| && states[k].ident.entries[e].result.Some?
    ensures j < k && PublishesIdent(states, acts, j, e, states[k].ident.entries[e].result.value)
    ensures states[j].ident.entries[e].key == states[k].ident.entries[e].key
    ensures states[j].ident.entries[e].leader == states[k].ident.entries[e].leader
  {
    assert k > 0;
    IdentEntryAfter(slots, states, acts, k - 1, e);
    if states[k - 1].ident.entries[e] == states[k].ident.entries[e] {
      j := IdentResultWasPublished(slots, states, acts, k - 1, e);
    } else {
      j := k - 1;
    }
  }

  /** A waiter of the identify queue that is not cancelled goes on with exactly the
      ID or error that the leader of its entry published for the waiter's address;
      it never calls the source. */
  lemma IdentWaiterGetsPublished<P>(
    slots: seq<Slot<P>>, states: seq<State>, acts: seq<Action>, k: nat, i: nat) returns (j: nat, r: Outcome<ValidID>)
    requires IsExecution(slots, states, acts) && k < |acts| && acts[k] == Step(i)
    requires states[k].threads[i].pc.IdentWait?
    ensures j < k && PublishesIdent(states, acts, j, states[k].threads[i].pc.entry, r)
    ensures states[j].ident.entries[states[k].threads[i].pc.entry].key == states[k].threads[i].addr
    ensures Proper(r)
    ensures states[k + 1].threads[i].pc
         == if r.val.Some? then Build(r.val.value) else SearchDone(Outcome(None, r.err))
  {
    ExecutionHasInv(slots, states, acts, k);
    var s := states[k];
    var e := s.threads[i].pc.entry;
    assert CanApply(slots, s, acts[k]) && states[k + 1] == Apply(slots, s, acts[k]);
    RolesAt(slots, s.threads, i);
    assert IdentEntryOk(s, s.ident.entries[e]);
    r := s.ident.entries[e].result.value;
    j := IdentResultWasPublished(slots, states, acts, k, e);
  }

  /** Every answer is a client of the asking address and of the slot selected for
      its question. */
  lemma AnswersAreOwn<P>(slots: seq<Slot<P>>, states: seq<State>, acts: seq<Action>, k: nat, i: nat)
    requires IsExecution(slots, states, acts) && k <= |acts| && i < |states[k].threads|
    requires states[k].threads[i].pc.Finished? && states[k].threads[i].pc.answer.Some?
    ensures var t := states[k].threads[i];
      t.pc.answer.value.addr == t.addr && t.pc.answer.value.slot == FirstIndex(slots, t.addr, t.question)
  {
    ExecutionHasInv(slots, states, acts, k);
    assert ThreadOk(slots, states[k], i);
  }

  /** Every Get in an execution has selected a slot. */
  lemma SelectedSlotExists<P>(slots: seq<Slot<P>>, states: seq<State>, acts: seq<Action>, k: nat, i: nat)
    requires IsExecution(slots, states, acts) && k <= |acts| && i < |states[k].threads|
    ensures FirstIndex(slots, states[k].threads[i].addr, states[k].threads[i].question) < |slots|
  {
    ExecutionHasInv(slots, states, acts, k);
    assert ThreadOk(slots, states[k], i);
  }

  // ---- Completion ----

  predicate Done(t: Thread) {
    t.pc.Finished? || t.pc.Panicked?
  }

  /** The actions that let a Get go on, without cancelling it. */
  predicate IsProgress(a: Action) {
    a.Step? || a.SourceAnswers? || a.ConstructorAnswers?
  }

  lemma BusyThreadCanStep<P>(slots: seq<Slot<P>>, s: State, i: nat) returns (a: Action)
    requires i < |s.threads| && !Done(s.threads[i]) && WaitsReady(s, s.threads[i])
    ensures IsProgress(a) && Enabled(slots, s, a)
  {
    match s.threads[i].pc
    case CallSource => a := SourceAnswers(i, None);
    case Build(_) => a := ConstructorAnswers(i, true);
    case _ => a := Step(i);
  }

  /** A leader of the search queue that cannot step waits for a leader of the
      identify queue, and that one waits for nobody. */
  lemma IdentWaiterIsServed<P>(slots: seq<Slot<P>>, s: State, i: nat) returns (a: Action)
    requires Inv(slots, s) && i < |s.threads| && s.threads[i].pc.IdentWait?
    ensures IsProgress(a) && Enabled(slots, s, a)
  {
    var e := s.threads[i].pc.entry;
    if Ready(s.ident, e) {
      a := BusyThreadCanStep(slots, s, i);
    } else {
      RolesAt(slots, s.threads, i);
      WaiterHasLeader(s.ident, IdentRoles(s.threads), i);
      var l := s.ident.entries[e].leader;
      RolesAt(slots, s.threads, l);
      a := BusyThreadCanStep(slots, s, l);
    }
  }

  /** No deadlock: while some Get is unfinished, some Get can go on. */
  lemma SomeGetCanStep<P>(slots: seq<Slot<P>>, s: State, i: nat) returns (a: Action)
    requires Inv(slots, s) && i < |s.threads| && !s.threads[i].pc.Finished?
    ensures (a.Step? || a.SourceAnswers? || a.ConstructorAnswers?) && Enabled(slots, s, a)
  {
    assert ThreadOk(slots, s, i);
    if s.threads[i].pc.IdentWait? {
      a := IdentWaiterIsServed(slots, s, i);
    } else if s.threads[i].pc.SearchWait? && !Ready(s.search, s.threads[i].pc.entry) {
      RolesAt(slots, s.threads, i);
      WaiterHasLeader(s.search, SearchRoles(slots, s.threads), i);
      var l := s.search.entries[s.threads[i].pc.entry].leader;
      RolesAt(slots, s.threads, l);
      if s.threads[l].pc.IdentWait? {
        a := IdentWaiterIsServed(slots, s, l);
      } else {
        a := BusyThreadCanStep(slots, s, l);
      }
    } else {
      a := BusyThreadCanStep(slots, s, i);
    }
  }

  /** An upper bound on the steps a Get has left. */
  function Rank(pc: PC): nat {
    match pc
    case SearchPush => 14
    case SearchWait(_) => 13
    case ReadClock => 12
    case Find => 11
    case IdentPush => 10
    case IdentWait(_) => 9
    case CallSource => 8
    case CheckIdentity(_) => 7
    case IdentDone(_) => 6
    case IdentDelete(_) => 5
    case Build(_) => 4
    case StoreClient(_) => 3
    case SearchDone(_) => 2
    case SearchDelete(_) => 1
    case Finished(_) => 0
    case Panicked => 0
  }

  function Work(ts: seq<Thread>): nat {
    if ts == [] then 0 else Work(ts[..|ts| - 1]) + Rank(ts[|ts| - 1].pc)
  }

  lemma {:induction false} WorkAfter(ts: seq<Thread>, i: nat, t: Thread)
    requires i < |ts|
    ensures Work(ts[i := t]) == Work(ts) - Rank(ts[i].pc) + Rank(t.pc)
  {
    var n := |ts| - 1;
    if i < n {
      WorkAfter(ts[..n], i, t);
      assert ts[i := t][..n] == ts[..n][i := t];
    } else {
      assert ts[i := t][..n] == ts[..n];
    }
  }

  lemma {:induction false} NoWorkMeansDone(ts: seq<Thread>)
    ensures Work(ts) == 0 <==> forall i :: 0 <= i < |ts| ==> Done(ts[i])
  {
    if ts != [] {
      NoWorkMeansDone(ts[..|ts| - 1]);
    }
  }

  lemma NextPCLowersRank<P>(slots: seq<Slot<P>>, s: State, i: nat)
    requires Enabled(slots, s, Step(i)) && s.threads[i].slot < |s.clients|
    ensures Rank(NextPC(slots, s, i)) < Rank(s.threads[i].pc)
  {
  }

  lemma ThreadReducesWork(s: State, s': State, i: nat)
    requires i < |s.threads| && |s'.threads| == |s.threads| && s'.threads == s.threads[i := s'.threads[i]]
    requires Rank(s'.threads[i].pc) < Rank(s.threads[i].pc)
    ensures Work(s'.threads) < Work(s.threads)
  {
    WorkAfter(s.threads, i, s'.threads[i]);
  }

  lemma StepReducesWork<P>(slots: seq<Slot<P>>, s: State, i: nat)
    requires CanApply(slots, s, Step(i))
    ensures Work(StepThread(slots, s, i).threads) < Work(s.threads)
  {
    NextPCLowersRank(slots, s, i);
    ThreadReducesWork(s, StepThread(slots, s, i), i);
  }

  lemma ProgressReducesWork<P>(slots: seq<Slot<P>>, s: State, a: Action)
    requires CanApply(slots, s, a) && (IsProgress(a) || a.Cancel?)
    ensures Work(Apply(slots, s, a).threads) < Work(s.threads)
  {
    if a.Step? {
      StepReducesWork(slots, s, a.thread);
    } else {
      ThreadReducesWork(s, Apply(slots, s, a), a.thread);
    }
  }

  predicate Serves(a: Action) {
    IsProgress(a) || a.Cancel?
  }

  const WORK_OF_A_GET: nat := Rank(SearchPush)

  /** The other actions leave the work alone; a new Get brings a bounded amount. */
  lemma OtherActionsKeepWork<P>(slots: seq<Slot<P>>, s: State, a: Action)
    requires CanApply(slots, s, a) && !Serves(a)
    ensures Work(Apply(slots, s, a).threads) == Work(s.threads) + if a.NewGet? then WORK_OF_A_GET else 0
  {
    if a.NewGet? {
      var ts := Apply(slots, s, a).threads;
      assert ts[..|ts| - 1] == s.threads;
    }
  }

  /** The actions that serve a Get, and the Gets started. */
  function Served(acts: seq<Action>): nat {
    if acts == [] then 0 else Served(acts[..|acts| - 1]) + if Serves(acts[|acts| - 1]) then 1 else 0
  }

  function Started(acts: seq<Action>): nat {
    if acts == [] then 0 else Started(acts[..|acts| - 1]) + if acts[|acts| - 1].NewGet? then 1 else 0
  }

  lemma ActionBoundsWork<P>(slots: seq<Slot<P>>, s: State, a: Action)
    requires CanApply(slots, s, a)
    ensures (if Serves(a) then 1 else 0) + Work(Apply(slots, s, a).threads)
         <= Work(s.threads) + if a.NewGet? then WORK_OF_A_GET else 0
  {
    if Serves(a) {
      ProgressReducesWork(slots, s, a);
    } else {
      OtherActionsKeepWork(slots, s, a);
    }
  }

  lemma RunPrefix<P>(slots: seq<Slot<P>>, states: seq<State>, acts: seq<Action>, n: nat)
    requires IsRun(slots, states, acts) && n <= |acts|
    ensures IsRun(slots, states[..n + 1], acts[..n])
  {
  }

  /** No livelock: in every run, with clock ticks, collections and new Gets in
      between, the Gets take no more steps than their initial work allows, whatever
      the schedule and the answers of the source and the constructor. */
  lemma {:induction false} SchedulesAreBounded<P>(slots: seq<Slot<P>>, states: seq<State>, acts: seq<Action>)
    requires IsRun(slots, states, acts)
    ensures Served(acts) + Work(states[|acts|].threads) <= Work(states[0].threads) + WORK_OF_A_GET * Started(acts)
    decreases |acts|
  {
    if acts != [] {
      var n := |acts| - 1;
      RunPrefix(slots, states, acts, n);
      SchedulesAreBounded(slots, states[..n + 1], acts[..n]);
      assert CanApply(slots, states[n], acts[n]) && states[n + 1] == Apply(slots, states[n], acts[n]);
      ActionBoundsWork(slots, states[n], acts[n]);
    }
  }

  lemma {:induction false} StartedIs(acts: seq<Action>)
    ensures Started(acts) == |set k: nat | k < |acts| && acts[k].NewGet?|
    decreases |acts|
  {
    if acts != [] {
      var n: nat := |acts| - 1;
      StartedIs(acts[..n]);
      var before := set k: nat | k < n && acts[..n][k].NewGet?;
      assert (set k: nat | k < |acts| && acts[k].NewGet?) == before + if acts[n].NewGet? then {n} else {};
    }
  }

  lemma {:induction false} ServedIs(acts: seq<Action>)
    ensures Served(acts) == |set k: nat | k < |acts| && Serves(acts[k])|
    decreases |acts|
  {
    if acts != [] {
      var n: nat := |acts| - 1;
      ServedIs(acts[..n]);
      var before := set k: nat | k < n && Serves(acts[..n][k]);
      assert (set k: nat | k < |acts| && Serves(acts[k])) == before + if Serves(acts[n]) then {n} else {};
    }
  }

  /** In an execution the Gets take at most fourteen steps each, cancellations and the
      answers of the source and the constructor included. */
  lemma ExecutionsAreBounded<P>(slots: seq<Slot<P>>, states: seq<State>, acts: seq<Action>)
    requires IsExecution(slots, states, acts)
    ensures |set k: nat | k < |acts| && (acts[k].Step? || acts[k].SourceAnswers? ||
                                         acts[k].ConstructorAnswers? || acts[k].Cancel?)|
         <= 14 * |set k: nat | k < |acts| && acts[k].NewGet?|
  {
    SchedulesAreBounded(slots, states, acts);
    StartedIs(acts);
    ServedIs(acts);
    assert (set k: nat | k < |acts| && Serves(acts[k]))
        == set k: nat | k < |acts| && (acts[k].Step? || acts[k].SourceAnswers? ||
                                       acts[k].ConstructorAnswers? || acts[k].Cancel?);
  }

  lemma AllDoneMeansFinished<P>(slots: seq<Slot<P>>, s: State)
    requires Inv(slots, s) && Work(s.threads) == 0
    ensures forall i :: 0 <= i < |s.threads| ==> s.threads[i].pc.Finished?
  {
    NoWorkMeansDone(s.threads);
    forall i | 0 <= i < |s.threads|
      ensures s.threads[i].pc.Finished?
    {
      assert ThreadOk(slots, s, i) && Done(s.threads[i]);
    }
  }

  lemma SomeProgress<P>(slots: seq<Slot<P>>, s: State) returns (a: Action, s': State)
    requires Inv(slots, s) && Work(s.threads) > 0
    ensures IsProgress(a) && CanApply(slots, s, a) && s' == Apply(slots, s, a)
    ensures Inv(slots, s') && Work(s'.threads) < Work(s.threads)
  {
    NoWorkMeansDone(s.threads);
    var i: nat :| i < |s.threads| && !Done(s.threads[i]);
    a := SomeGetCanStep(slots, s, i);
    s' := Apply(slots, s, a);
    ActionKeepsInv(slots, s, a, s');
    ProgressReducesWork(slots, s, a);
  }

  lemma RunFrom<P>(slots: seq<Slot<P>>, s: State, a: Action, states: seq<State>, acts: seq<Action>)
    requires IsRun(slots, states, acts) && CanApply(slots, s, a) && states[0] == Apply(slots, s, a)
    ensures IsRun(slots, [s] + states, [a] + acts)
  {
  }

  /** From every state of an execution the unfinished Gets can all be completed
      without cancelling any. */
  lemma {:induction false} EveryGetCanFinish<P>(slots: seq<Slot<P>>, s: State)
    returns (states: seq<State>, acts: seq<Action>)
    requires Inv(slots, s)
    ensures IsRun(slots, states, acts) && states[0] == s
    ensures forall k :: 0 <= k < |acts| ==> acts[k].Step? || acts[k].SourceAnswers? || acts[k].ConstructorAnswers?
    ensures forall i :: 0 <= i < |states[|acts|].threads| ==> states[|acts|].threads[i].pc.Finished?
    decreases Work(s.threads)
  {
    if Work(s.threads) == 0 {
      states, acts := [s], [];
      AllDoneMeansFinished(slots, s);
    } else {
      var a, s' := SomeProgress(slots, s);
      var ss, as' := EveryGetCanFinish(slots, s');
      RunFrom(slots, s, a, ss, as');
      states, acts := [s] + ss, [a] + as';
      assert states[|acts|] == ss[|as'|];
    }
  }
}
