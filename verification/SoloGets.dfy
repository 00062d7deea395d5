/** A Get that nothing interrupts: the protocol then does what Storage.Get says, so
    the results about whole Gets one after another are about the same program. */
module SoloGets {
  import opened Wrappers
  import opened Net
  import opened Lookup
  import opened SingleFlight
  import opened Storage
  import opened Protocol
  import opened ProtocolInvariant
  import opened ProtocolTheorems

  function View(s: State): Store {
    Store(s.clients, s.identified, |s.created|, s.finalized)
  }

  predicate BeforeSource(pc: PC) {
    pc.SearchPush? || pc.ReadClock? || pc.Find? || pc.IdentPush? || pc.CallSource?
  }

  /** No other Get is being served for the key or the address of thread i. */
  predicate Alone<P>(slots: seq<Slot<P>>, s: State, i: nat, source: Option<ValidID>) {
    && i < |s.threads|
    && var t := s.threads[i];
       && !t.pc.SearchWait? && !t.pc.IdentWait? && !t.pc.Panicked?
       && (t.pc.SearchPush? ==> KeyOf(slots, t) !in s.search.m)
       && (BeforeSource(t.pc) && !t.pc.CallSource? ==> t.addr !in s.ident.m)
       && (BeforeSource(t.pc) ==> NotBackdated(s, t.addr, source))
  }

  /** What thread i does next, given what the source and the constructor answer. */
  function NextAction(s: State, i: nat, source: Option<ValidID>, built: bool): Action
    requires i < |s.threads|
  {
    if s.threads[i].pc.CallSource? then SourceAnswers(i, source)
    else if s.threads[i].pc.Build? then ConstructorAnswers(i, built)
    else Step(i)
  }

  // ---- The rest of a Get, as one operation ----

  function BuildAndStore(st: Store, slot: nat, addr: Addr, hid: ValidID, built: bool): (Store, Option<Client>)
    requires slot < |st.clients|
  {
    if built then (Stored(st, slot, addr, hid), Some(Client(st.created, slot, addr, hid))) else (st, None)
  }

  function ClaimAndBuild(st: Store, slot: nat, addr: Addr, now: Time, hid: ValidID, built: bool): (Store, Option<Client>)
    requires slot < |st.clients|
  {
    if Conflicts(st.identified, addr, hid, now) then (st, None)
    else BuildAndStore(Identified(st, addr, hid), slot, addr, hid, built)
  }

  function IdentifyAndBuild(st: Store, slot: nat, addr: Addr, now: Time, source: Option<ValidID>, built: bool)
    : (Store, Option<Client>)
    requires slot < |st.clients|
  {
    if source.None? then (st, None) else ClaimAndBuild(st, slot, addr, now, source.value, built)
  }

  function AfterIdentification(st: Store, t: Thread, r: Outcome<ValidID>, built: bool): (Store, Option<Client>)
    requires t.slot < |st.clients|
  {
    if r.val.Some? then BuildAndStore(st, t.slot, t.addr, r.val.value, built) else (st, None)
  }

  /** The storage and the answer at the end of thread i, from where it is. */
  function Rest(s: State, i: nat, source: Option<ValidID>, built: bool): (Store, Option<Client>)
    requires i < |s.threads| && s.threads[i].slot < |s.clients|
  {
    var t := s.threads[i];
    match t.pc
    case SearchPush => Get(View(s), t.slot, t.addr, s.clock, source, built)
    case ReadClock => Get(View(s), t.slot, t.addr, s.clock, source, built)
    case Find => Get(View(s), t.slot, t.addr, t.now, source, built)
    case IdentPush => IdentifyAndBuild(View(s), t.slot, t.addr, t.now, source, built)
    case CallSource => IdentifyAndBuild(View(s), t.slot, t.addr, t.now, source, built)
    case CheckIdentity(hid) => ClaimAndBuild(View(s), t.slot, t.addr, t.now, hid, built)
    case IdentDone(r) => AfterIdentification(View(s), t, r, built)
    case IdentDelete(r) => AfterIdentification(View(s), t, r, built)
    case Build(hid) => BuildAndStore(View(s), t.slot, t.addr, hid, built)
    case StoreClient(c) => (View(s).(clients := s.clients[t.slot := s.clients[t.slot][t.addr := c]]), Some(c))
    case SearchDone(r) => (View(s), r.val)
    case SearchDelete(r) => (View(s), r.val)
    case Finished(answer) => (View(s), answer)
    case _ => (View(s), None)
  }

  /** One step leaves less to do, and the same rest. */
  ghost predicate Progresses<P>(slots: seq<Slot<P>>, s: State, s': State, i: nat, source: Option<ValidID>, built: bool)
    requires i < |s.threads| && s.threads[i].slot < |s.clients|
  {
    && |s'.threads| == |s.threads| && s'.threads[i].slot == s.threads[i].slot < |s'.clients|
    && Alone(slots, s', i, source)
    && Rank(s'.threads[i].pc) < Rank(s.threads[i].pc)
    && Rest(s', i, source, built) == Rest(s, i, source, built)
  }

  lemma LookupStep<P>(slots: seq<Slot<P>>, s: State, i: nat, source: Option<ValidID>, built: bool, s': State)
    requires Shape(slots, s) && Alone(slots, s, i, source)
    requires s.threads[i].pc.SearchPush? || s.threads[i].pc.ReadClock? || s.threads[i].pc.Find?
    requires s' == StepThread(slots, s, i)
    ensures Progresses(slots, s, s', i, source, built)
  {
  }

  lemma IdentPushStep<P>(slots: seq<Slot<P>>, s: State, i: nat, source: Option<ValidID>, built: bool, s': State)
    requires Shape(slots, s) && Alone(slots, s, i, source)
    requires s.threads[i].pc.IdentPush? || s.threads[i].pc.CheckIdentity?
    requires s' == StepThread(slots, s, i)
    ensures Progresses(slots, s, s', i, source, built)
  {
  }

  lemma AnswerStep<P>(slots: seq<Slot<P>>, s: State, i: nat, source: Option<ValidID>, built: bool, s': State)
    requires Shape(slots, s) && Alone(slots, s, i, source)
    requires s.threads[i].pc.CallSource? || s.threads[i].pc.Build?
    requires s' == Apply(slots, s, NextAction(s, i, source, built))
    ensures Progresses(slots, s, s', i, source, built)
  {
  }

  lemma DoneStep<P>(slots: seq<Slot<P>>, s: State, i: nat, source: Option<ValidID>, built: bool, s': State)
    requires Shape(slots, s) && Alone(slots, s, i, source) && ThreadOk(slots, s, i)
    requires s.threads[i].pc.IdentDone? || s.threads[i].pc.SearchDone?
    requires s.threads[i].pc.IdentDone? ==> CanPublish(s.ident, s.threads[i].addr)
    requires s.threads[i].pc.SearchDone? ==> CanPublish(s.search, KeyOf(slots, s.threads[i]))
    requires s' == StepThread(slots, s, i)
    ensures Progresses(slots, s, s', i, source, built)
  {
  }

  lemma DeleteStep<P>(slots: seq<Slot<P>>, s: State, i: nat, source: Option<ValidID>, built: bool, s': State)
    requires Shape(slots, s) && Alone(slots, s, i, source) && ThreadOk(slots, s, i)
    requires s.threads[i].pc.IdentDelete? || s.threads[i].pc.SearchDelete? || s.threads[i].pc.StoreClient?
    requires s' == StepThread(slots, s, i)
    ensures Progresses(slots, s, s', i, source, built)
  {
  }

  lemma SoloStep<P>(slots: seq<Slot<P>>, s: State, i: nat, source: Option<ValidID>, built: bool, s': State)
    requires Inv(slots, s) && Alone(slots, s, i, source) && !s.threads[i].pc.Finished?
    requires CanApply(slots, s, NextAction(s, i, source, built)) && s' == Apply(slots, s, NextAction(s, i, source, built))
    ensures Progresses(slots, s, s', i, source, built)
  {
    assert ThreadOk(slots, s, i);
    LeadersCanPublish(slots, s, i);
    match s.threads[i].pc
    case SearchPush => LookupStep(slots, s, i, source, built, s');
    case ReadClock => LookupStep(slots, s, i, source, built, s');
    case Find => LookupStep(slots, s, i, source, built, s');
    case IdentPush => IdentPushStep(slots, s, i, source, built, s');
    case CheckIdentity(_) => IdentPushStep(slots, s, i, source, built, s');
    case CallSource => AnswerStep(slots, s, i, source, built, s');
    case Build(_) => AnswerStep(slots, s, i, source, built, s');
    case IdentDone(_) => DoneStep(slots, s, i, source, built, s');
    case SearchDone(_) => DoneStep(slots, s, i, source, built, s');
    case IdentDelete(_) => DeleteStep(slots, s, i, source, built, s');
    case SearchDelete(_) => DeleteStep(slots, s, i, source, built, s');
    case StoreClient(_) => DeleteStep(slots, s, i, source, built, s');
  }

  lemma {:induction false} SoloRun<P>(slots: seq<Slot<P>>, s: State, i: nat, source: Option<ValidID>, built: bool)
    returns (states: seq<State>, acts: seq<Action>)
    requires Inv(slots, s) && Alone(slots, s, i, source)
    ensures s.threads[i].slot < |s.clients|
    ensures IsRun(slots, states, acts) && states[0] == s
    ensures var last := states[|acts|];
      i < |last.threads| && last.threads[i].pc.Finished?
      && (View(last), last.threads[i].pc.answer) == Rest(s, i, source, built)
    decreases Rank(s.threads[i].pc)
  {
    assert ThreadOk(slots, s, i);
    if s.threads[i].pc.Finished? {
      states, acts := [s], [];
    } else {
      var a := NextAction(s, i, source, built);
      assert CanApply(slots, s, a);
      var s' := Apply(slots, s, a);
      ActionKeepsInv(slots, s, a, s');
      SoloStep(slots, s, i, source, built, s');
      var ss, as' := SoloRun(slots, s', i, source, built);
      RunFrom(slots, s, a, ss, as');
      states, acts := [s] + ss, [a] + as';
      assert states[|acts|] == ss[|as'|];
    }
  }

  lemma SoloGetNow<P>(slots: seq<Slot<P>>, s: State, addr: Addr, question: string, source: Option<ValidID>, built: bool)
    returns (states: seq<State>, acts: seq<Action>)
    requires Inv(slots, s) && FirstIndex(slots, addr, question) < |slots|
    requires SearchKey(addr, slots[FirstIndex(slots, addr, question)].domain) !in s.search.m && addr !in s.ident.m
    requires NotBackdated(s, addr, source)
    ensures IsRun(slots, states, acts) && states[0] == s
    ensures var last, i := states[|acts|], |s.threads|;
      i < |last.threads| && last.threads[i].pc.Finished? && FirstIndex(slots, addr, question) < |s.clients|
      && (View(last), last.threads[i].pc.answer)
         == Get(View(s), FirstIndex(slots, addr, question), addr, s.clock, source, built)
  {
    var get := NewGet(addr, question);
    var s' := Apply(slots, s, get);
    ActionKeepsInv(slots, s, get, s');
    var ss, as' := SoloRun(slots, s', |s.threads|, source, built);
    RunFrom(slots, s, get, ss, as');
    states, acts := [s] + ss, [get] + as';
    assert states[|acts|] == ss[|as'|];
  }

  /** At any later time any question that selects a slot can be asked, and the lookup, if
      nothing interrupts it, is the atomic one: the same answer and the same storage, for
      whatever the source and the constructor answer. */
  lemma SoloGetIsAtomic<P>(slots: seq<Slot<P>>, s: State, now: Time, addr: Addr, question: string,
                           source: Option<ValidID>, built: bool)
    returns (states: seq<State>, acts: seq<Action>)
    requires Inv(slots, s) && s.clock <= now && FirstIndex(slots, addr, question) < |slots|
    requires SearchKey(addr, slots[FirstIndex(slots, addr, question)].domain) !in s.search.m && addr !in s.ident.m
    requires source.Some? && (addr, source.value.id) in s.answered ==>
               source.value.until >= s.answered[(addr, source.value.id)]
    ensures IsRun(slots, states, acts) && states[0] == s
    ensures var last, i := states[|acts|], |s.threads|;
      i < |last.threads| && last.threads[i].pc.Finished? && FirstIndex(slots, addr, question) < |s.clients|
      && (View(last), last.threads[i].pc.answer)
         == Get(View(s), FirstIndex(slots, addr, question), addr, now, source, built)
  {
    var s' := Apply(slots, s, Tick(now));
    ActionKeepsInv(slots, s, Tick(now), s');
    var ss, as' := SoloGetNow(slots, s', addr, question, source, built);
    RunFrom(slots, s, Tick(now), ss, as');
    states, acts := [s] + ss, [Tick(now)] + as';
    assert states[|acts|] == ss[|as'|];
  }

  // ---- Garbage collection ----

  /** A pass of the collector over s0 has k slots behind it. */
  ghost predicate SweptTo(s0: State, s: State, now: Time, k: nat) {
    && k <= |s0.clients| == |s.clients| && s.gc == GcRunning(now, k)
    && (forall j :: 0 <= j < k ==> s.clients[j] == KeptClients(s0.clients[j], now))
    && (forall j :: k <= j < |s.clients| ==> s.clients[j] == s0.clients[j])
    && s.finalized == s0.finalized + AllDropped(s0.clients[..k], now)
    && s.threads == s0.threads && s.identified == s0.identified && s.created == s0.created
  }

  lemma SweepSlot<P>(slots: seq<Slot<P>>, s0: State, s: State, now: Time, k: nat)
    requires |s.clients| == |slots| && SweptTo(s0, s, now, k) && k < |slots| && CanApply(slots, s, GcStep)
    ensures SweptTo(s0, Apply(slots, s, GcStep), now, k + 1)
  {
    assert s0.clients[..k + 1][..k] == s0.clients[..k];
  }

  lemma {:induction false} SweepFrom<P>(slots: seq<Slot<P>>, s0: State, s: State, now: Time, k: nat)
    returns (states: seq<State>, acts: seq<Action>)
    requires Shape(slots, s) && SweptTo(s0, s, now, k)
    ensures IsRun(slots, states, acts) && states[0] == s
    ensures states[|acts|].gc.GcIdle? && View(states[|acts|]) == Collect(View(s0), now)
    decreases |s0.clients| - k
  {
    var s' := Apply(slots, s, GcStep);
    if k < |slots| {
      SweepSlot(slots, s0, s, now, k);
      var ss, as' := SweepFrom(slots, s0, s', now, k + 1);
      RunFrom(slots, s, GcStep, ss, as');
      states, acts := [s] + ss, [GcStep] + as';
      assert states[|acts|] == ss[|as'|];
    } else {
      states, acts := [s, s'], [GcStep];
      assert s0.clients[..k] == s0.clients;
      assert s'.clients == Collect(View(s0), now).clients;
    }
  }

  lemma SoloSweepNow<P>(slots: seq<Slot<P>>, s: State, now: Time)
    returns (states: seq<State>, acts: seq<Action>)
    requires Inv(slots, s) && s.gc.GcIdle? && now <= s.clock
    ensures IsRun(slots, states, acts) && states[0] == s
    ensures states[|acts|].gc.GcIdle? && View(states[|acts|]) == Collect(View(s), now)
  {
    var s' := Apply(slots, s, StartGc(now));
    ActionKeepsInv(slots, s, StartGc(now), s');
    var ss, as' := SweepFrom(slots, s, s', now, 0);
    RunFrom(slots, s, StartGc(now), ss, as');
    states, acts := [s] + ss, [StartGc(now)] + as';
    assert states[|acts|] == ss[|as'|];
  }

  /** At any later time an idle collector can be started with any clock reading up to
      then, and its pass, if nothing interrupts it, is the atomic collection. */
  lemma SoloSweepIsAtomic<P>(slots: seq<Slot<P>>, s: State, later: Time, now: Time)
    returns (states: seq<State>, acts: seq<Action>)
    requires Inv(slots, s) && s.gc.GcIdle? && s.clock <= later && now <= later
    ensures IsRun(slots, states, acts) && states[0] == s
    ensures states[|acts|].gc.GcIdle? && View(states[|acts|]) == Collect(View(s), now)
  {
    var s' := Apply(slots, s, Tick(later));
    ActionKeepsInv(slots, s, Tick(later), s');
    var ss, as' := SoloSweepNow(slots, s', now);
    RunFrom(slots, s, Tick(later), ss, as');
    states, acts := [s] + ss, [Tick(later)] + as';
    assert states[|acts|] == ss[|as'|];
  }
}
