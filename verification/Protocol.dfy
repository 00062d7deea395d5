/** The autodevice half of DefaultStorage.Get under concurrency: any number of
    Gets, the garbage collector and the clock, interleaved at every shared access.

    Sections under a mutex, map operations of the queues and channel closings are
    one step each.  What the environment decides (scheduling, cancellation, the
    answers of the human ID source and of the upstream constructor, the passing of
    time) is carried by the action. */
module Protocol {
  import opened Wrappers
  import opened Net
  import opened Lookup
  import opened SingleFlight
  import opened Storage

  /** searchRequest: the prefix of the selected slot is not part of it. */
  datatype SearchKey = SearchKey(addr: Addr, domain: string)

  datatype Error = Cancelled | SourceFailed | Duplicated | BadUpstream

  /** A Go (value, error) pair; (None, None) is the zero value with a nil error. */
  datatype Outcome<+V> = Outcome(val: Option<V>, err: Option<Error>)

  datatype PC =
    | SearchPush
    | SearchWait(entry: nat)
    | ReadClock
    | Find
    | IdentPush
    | IdentWait(entry: nat)
    | CallSource
    | CheckIdentity(hid: ValidID)
    | IdentDone(ires: Outcome<ValidID>)
    | IdentDelete(ires: Outcome<ValidID>)
    | Build(hid: ValidID)
    | StoreClient(client: Client)
    | SearchDone(sres: Outcome<Client>)
    | SearchDelete(sres: Outcome<Client>)
    | Finished(answer: Option<Client>)
    | Panicked

  /** A Get that selected an autodevice slot.  now is its clock reading. */
  datatype Thread = Thread(addr: Addr, question: string, slot: nat, now: Time, pc: PC)

  datatype GC = GcIdle | GcRunning(now: Time, next: nat)

  /** created and creators record each client ever created and its thread;
      answered is the latest validity the source gave for an address and ID. */
  datatype State = State(
    clock: Time,
    threads: seq<Thread>,
    search: Queue<SearchKey, Outcome<Client>>,
    ident: Queue<Addr, Outcome<ValidID>>,
    clients: seq<map<Addr, Client>>,
    identified: map<HumanID, Identity>,
    gc: GC,
    finalized: multiset<Client>,
    created: seq<Client>,
    creators: seq<nat>,
    answered: map<(Addr, HumanID), Time>)

  datatype Action =
    | NewGet(addr: Addr, question: string)
    | Tick(to: Time)
    | StartGc(now: Time)
    | GcStep
    | Cancel(thread: nat)
    | Step(thread: nat)
    | SourceAnswers(thread: nat, answer: Option<ValidID>)
    | ConstructorAnswers(thread: nat, built: bool)

  function Init(slots: nat, clock: Time): State {
    State(clock, [], NewQueue(), NewQueue(), seq(slots, _ => map[]), map[], GcIdle, multiset{}, [], [], map[])
  }

  function KeyOf<P>(slots: seq<Slot<P>>, t: Thread): SearchKey {
    SearchKey(t.addr, if t.slot < |slots| then slots[t.slot].domain else "")
  }

  predicate WaitsReady(s: State, t: Thread) {
    && (t.pc.SearchWait? ==> Ready(s.search, t.pc.entry))
    && (t.pc.IdentWait? ==> Ready(s.ident, t.pc.entry))
  }

  /** The source contract used below: validity never goes back for one address and
      ID. */
  predicate NotBackdated(s: State, addr: Addr, answer: Option<ValidID>) {
    answer.Some? && (addr, answer.value.id) in s.answered ==>
      answer.value.until >= s.answered[(addr, answer.value.id)]
  }

  predicate Enabled<P>(slots: seq<Slot<P>>, s: State, a: Action) {
    match a
    case NewGet(addr, question) => FirstIndex(slots, addr, question) < |slots|
    case Tick(to) => s.clock <= to
    case StartGc(now) => s.gc.GcIdle? && now <= s.clock
    case GcStep => s.gc.GcRunning?
    case Cancel(i) => i < |s.threads| && (s.threads[i].pc.SearchWait? || s.threads[i].pc.IdentWait?)
    case Step(i) =>
      && i < |s.threads|
      && !s.threads[i].pc.Finished? && !s.threads[i].pc.Panicked?
      && !s.threads[i].pc.CallSource? && !s.threads[i].pc.Build?
      && WaitsReady(s, s.threads[i])
    case SourceAnswers(i, answer) =>
      i < |s.threads| && s.threads[i].pc.CallSource? && NotBackdated(s, s.threads[i].addr, answer)
    case ConstructorAnswers(i, built) => i < |s.threads| && s.threads[i].pc.Build?
  }

  function To(s: State, i: nat, pc: PC): State
    requires i < |s.threads|
  {
    s.(threads := s.threads[i := s.threads[i].(pc := pc)])
  }

  /** Where push continues with what it got from a closed entry. */
  function AfterSearch(r: Outcome<Client>): PC {
    if r.err.Some? then Finished(None)
    else if r.val.Some? then Finished(r.val)
    else ReadClock
  }

  function AfterIdent(r: Outcome<ValidID>): PC {
    if r.err.Some? then SearchDone(Outcome(None, r.err))
    else if r.val.Some? then Build(r.val.value)
    else CallSource
  }

  /** After the leader's own identification newAutodeviceClient continues; a nil ID
      without an error would be dereferenced. */
  function AfterOwnIdent(r: Outcome<ValidID>): PC {
    if r.err.Some? then SearchDone(Outcome(None, r.err))
    else if r.val.Some? then Build(r.val.value)
    else Panicked
  }

  /** Where thread i goes from its current section. */
  function NextPC<P>(slots: seq<Slot<P>>, s: State, i: nat): PC
    requires Enabled(slots, s, Step(i)) && s.threads[i].slot < |s.clients|
  {
    var t := s.threads[i];
    match t.pc
    case SearchPush =>
      if KeyOf(slots, t) in s.search.m then SearchWait(s.search.m[KeyOf(slots, t)]) else ReadClock
    case SearchWait(e) => AfterSearch(s.search.entries[e].result.value)
    case ReadClock => Find
    case Find =>
      var found := FoundValid(s.clients[t.slot], t.addr, t.now);
      if found.Some? then SearchDone(Outcome(found, None)) else IdentPush
    case IdentPush => if t.addr in s.ident.m then IdentWait(s.ident.m[t.addr]) else CallSource
    case IdentWait(e) => AfterIdent(s.ident.entries[e].result.value)
    case CheckIdentity(hid) =>
      if Conflicts(s.identified, t.addr, hid, t.now) then IdentDone(Outcome(None, Some(Duplicated)))
      else IdentDone(Outcome(Some(hid), None))
    case IdentDone(r) => if CanPublish(s.ident, t.addr) then IdentDelete(r) else Panicked
    case IdentDelete(r) => AfterOwnIdent(r)
    case StoreClient(c) => SearchDone(Outcome(Some(c), None))
    case SearchDone(r) => if CanPublish(s.search, KeyOf(slots, t)) then SearchDelete(r) else Panicked
    case SearchDelete(r) => Finished(r.val)
    case CallSource => t.pc
    case Build(_) => t.pc
    case Finished(_) => t.pc
    case Panicked => t.pc
  }

  /** One section of thread i: its next position, and what it does to the shared
      data. */
  function StepThread<P>(slots: seq<Slot<P>>, s: State, i: nat): State
    requires Enabled(slots, s, Step(i))
    requires s.threads[i].slot < |slots| && |s.clients| == |slots|
  {
    var t := s.threads[i];
    var key := KeyOf(slots, t);
    var s1 := To(s, i, NextPC(slots, s, i));
    match t.pc
    case SearchPush => s1.(search := LoadOrStore(s.search, key, i))
    case ReadClock => s.(threads := s.threads[i := t.(now := s.clock, pc := Find)])
    case Find =>
      if FoundValid(s.clients[t.slot], t.addr, t.now).Some? then s1
      else
        s1.(clients := s.clients[t.slot := AfterFind(s.clients[t.slot], t.addr, t.now)],
        finalized := s.finalized + FinalizedByFind(s.clients[t.slot], t.addr, t.now))
    case IdentPush => s1.(ident := LoadOrStore(s.ident, t.addr, i))
    case CheckIdentity(hid) =>
      if Conflicts(s.identified, t.addr, hid, t.now) then s1
      else s1.(identified := s.identified[hid.id := Identity(t.addr, hid)])
    case IdentDone(r) => if CanPublish(s.ident, t.addr) then s1.(ident := Publish(s.ident, t.addr, r)) else s1
    case IdentDelete(_) => s1.(ident := Remove(s.ident, t.addr))
    case StoreClient(c) => s1.(clients := s.clients[t.slot := s.clients[t.slot][t.addr := c]])
    case SearchDone(r) => if CanPublish(s.search, key) then s1.(search := Publish(s.search, key, r)) else s1
    case SearchDelete(_) => s1.(search := Remove(s.search, key))
    case _ => s1
  }

  /** The source has answered thread i. */
  function AnswerSource(s: State, i: nat, answer: Option<ValidID>): State
    requires i < |s.threads|
  {
    if answer.None? then To(s, i, IdentDone(Outcome(None, Some(SourceFailed))))
    else
      To(s, i, CheckIdentity(answer.value)).(
      answered := s.answered[(s.threads[i].addr, answer.value.id) := answer.value.until])
  }

  function Apply<P>(slots: seq<Slot<P>>, s: State, a: Action): State
    requires Enabled(slots, s, a)
    requires |s.clients| == |slots| && forall i :: 0 <= i < |s.threads| ==> s.threads[i].slot < |slots|
  {
    match a
    case NewGet(addr, question) =>
      s.(threads := s.threads + [Thread(addr, question, FirstIndex(slots, addr, question), s.clock, SearchPush)])
    case Tick(to) => s.(clock := to)
    case StartGc(now) => s.(gc := GcRunning(now, 0))
    case GcStep =>
      if s.gc.next < |slots| then
        s.(gc := s.gc.(next := s.gc.next + 1),
        clients := s.clients[s.gc.next := KeptClients(s.clients[s.gc.next], s.gc.now)],
        finalized := s.finalized + multiset(DroppedClients(s.clients[s.gc.next], s.gc.now)))
      else
        s.(gc := GcIdle, identified := KeptIdentities(s.identified, s.gc.now))
    case Cancel(i) =>
      if s.threads[i].pc.SearchWait? then To(s, i, Finished(None))
      else To(s, i, SearchDone(Outcome(None, Some(Cancelled))))
    case Step(i) => StepThread(slots, s, i)
    case SourceAnswers(i, answer) => AnswerSource(s, i, answer)
    case ConstructorAnswers(i, built) =>
      if !built then To(s, i, SearchDone(Outcome(None, Some(BadUpstream))))
      else
        var c := Client(|s.created|, s.threads[i].slot, s.threads[i].addr, s.threads[i].pc.hid);
        To(s, i, StoreClient(c)).(created := s.created + [c], creators := s.creators + [i])
  }

  // ---- The invariant ----

  function SearchRole<P>(slots: seq<Slot<P>>, t: Thread): Role<SearchKey> {
    match t.pc
    case SearchPush => Outside
    case SearchWait(e) => Waiting(KeyOf(slots, t), e)
    case SearchDelete(_) => Deleting(KeyOf(slots, t))
    case Finished(_) => Outside
    case Panicked => Outside
    case _ => Leading(KeyOf(slots, t))
  }

  function IdentRole(t: Thread): Role<Addr> {
    match t.pc
    case IdentWait(e) => Waiting(t.addr, e)
    case CallSource => Leading(t.addr)
    case CheckIdentity(_) => Leading(t.addr)
    case IdentDone(_) => Leading(t.addr)
    case IdentDelete(_) => Deleting(t.addr)
    case _ => Outside
  }

  function SearchRoles<P>(slots: seq<Slot<P>>, ts: seq<Thread>): (r: seq<Role<SearchKey>>)
    ensures |r| == |ts|
  {
    if ts == [] then []
    else SearchRoles(slots, ts[..|ts| - 1]) + [SearchRole(slots, ts[|ts| - 1])]
  }

  function IdentRoles(ts: seq<Thread>): (r: seq<Role<Addr>>)
    ensures |r| == |ts|
  {
    if ts == [] then []
    else IdentRoles(ts[..|ts| - 1]) + [IdentRole(ts[|ts| - 1])]
  }

  /** If hid is live, its ID is recorded as in use by addr for at least as long. */
  ghost predicate Backed(s: State, addr: Addr, hid: ValidID) {
    hid.until > s.clock ==>
      && hid.id in s.identified
      && s.identified[hid.id].addr == addr
      && hid.until <= s.identified[hid.id].hid.until
  }

  /** A leader returns either a value or an error, never both nor none. */
  predicate Proper<V>(r: Outcome<V>) {
    r.val.Some? != r.err.Some?
  }

  ghost predicate KnownClient(s: State, c: Client) {
    c.uid < |s.created| && s.created[c.uid] == c
  }

  /** The thread has looked up its client in vain and may be about to store one. */
  predicate Missing(pc: PC) {
    || pc.IdentPush? || pc.IdentWait? || pc.CallSource? || pc.CheckIdentity? || pc.IdentDone?
    || pc.IdentDelete? || pc.Build? || pc.StoreClient?
  }

  ghost predicate ThreadOk<P>(slots: seq<Slot<P>>, s: State, i: nat)
    requires i < |s.threads|
  {
    var t := s.threads[i];
    && t.slot == FirstIndex(slots, t.addr, t.question) && t.slot < |slots|
    && t.now <= s.clock
    && !t.pc.Panicked?
    && (Missing(t.pc) ==> t.slot < |s.clients| && t.addr !in s.clients[t.slot])
    && (t.pc.CheckIdentity? ==>
          (t.addr, t.pc.hid.id) in s.answered && s.answered[(t.addr, t.pc.hid.id)] == t.pc.hid.until)
    && (t.pc.IdentDone? || t.pc.IdentDelete? ==>
          Proper(t.pc.ires) && (t.pc.ires.val.Some? ==> Backed(s, t.addr, t.pc.ires.val.value)))
    && (t.pc.Build? ==> Backed(s, t.addr, t.pc.hid))
    && (t.pc.StoreClient? ==>
          && KnownClient(s, t.pc.client)
          && t.pc.client.uid < |s.creators| && s.creators[t.pc.client.uid] == i
          && t.pc.client.addr == t.addr && t.pc.client.slot == t.slot
          && Backed(s, t.addr, t.pc.client.hid))
    && (t.pc.SearchDone? || t.pc.SearchDelete? ==>
          && Proper(t.pc.sres)
          && (t.pc.sres.val.Some? ==> t.pc.sres.val.value.addr == t.addr && t.pc.sres.val.value.slot == t.slot))
    && (t.pc.Finished? && t.pc.answer.Some? ==>
          t.pc.answer.value.addr == t.addr && t.pc.answer.value.slot == t.slot)
  }

  ghost predicate ThreadsOk<P>(slots: seq<Slot<P>>, s: State) {
    forall i {:trigger ThreadOk(slots, s, i)} :: 0 <= i < |s.threads| ==> ThreadOk(slots, s, i)
  }

  ghost predicate Shape<P>(slots: seq<Slot<P>>, s: State) {
    && |s.clients| == |slots|
    && (forall i :: 0 <= i < |s.threads| ==> s.threads[i].slot < |slots|)
    && |s.creators| == |s.created|
    && (forall u :: 0 <= u < |s.created| ==> s.created[u].uid == u)
    && (s.gc.GcRunning? ==> s.gc.now <= s.clock)
  }

  /** Identities are filed under their ID and are no newer than what the source
      last said. */
  ghost predicate IdentitiesOk(s: State) {
    forall x :: x in s.identified ==>
      && s.identified[x].hid.id == x
      && (s.identified[x].addr, x) in s.answered
      && s.identified[x].hid.until <= s.answered[(s.identified[x].addr, x)]
  }

  ghost predicate StoredOk(s: State) {
    forall k, a :: 0 <= k < |s.clients| && a in s.clients[k] ==>
      && KnownClient(s, s.clients[k][a])
      && s.clients[k][a].addr == a && s.clients[k][a].slot == k
      && Backed(s, a, s.clients[k][a].hid)
  }

  /** The key of an entry is the search key of the thread that stored it; its
      result is what that thread returns, made for the thread's address and slot. */
  ghost predicate SearchEntryOk<P>(slots: seq<Slot<P>>, s: State, n: Entry<SearchKey, Outcome<Client>>) {
    && n.leader < |s.threads|
    && s.threads[n.leader].slot < |slots|
    && KeyOf(slots, s.threads[n.leader]) == n.key
    && (n.result.Some? ==>
          && Proper(n.result.value)
          && (|| s.threads[n.leader].pc == SearchDelete(n.result.value)
              || s.threads[n.leader].pc == Finished(n.result.value.val))
          && (n.result.value.val.Some? ==>
                && n.result.value.val.value.addr == n.key.addr
                && n.result.value.val.value.slot == s.threads[n.leader].slot))
  }

  ghost predicate SearchEntriesOk<P>(slots: seq<Slot<P>>, s: State) {
    forall e {:trigger SearchEntryOk(slots, s, s.search.entries[e])} :: 0 <= e < |s.search.entries| ==>
      SearchEntryOk(slots, s, s.search.entries[e])
  }

  ghost predicate IdentEntryOk(s: State, n: Entry<Addr, Outcome<ValidID>>) {
    n.result.Some? ==>
      && Proper(n.result.value)
      && (n.result.value.val.Some? ==> Backed(s, n.key, n.result.value.val.value))
  }

  ghost predicate IdentEntriesOk(s: State) {
    forall e {:trigger IdentEntryOk(s, s.ident.entries[e])} :: 0 <= e < |s.ident.entries| ==>
      IdentEntryOk(s, s.ident.entries[e])
  }

  ghost predicate InFlight(s: State, u: nat)
    requires u < |s.created|
  {
    u < |s.creators| && s.creators[u] < |s.threads| && s.threads[s.creators[u]].pc == StoreClient(s.created[u])
  }

  ghost predicate IsStored(s: State, u: nat)
    requires u < |s.created|
  {
    var c := s.created[u];
    c.slot < |s.clients| && c.addr in s.clients[c.slot] && s.clients[c.slot][c.addr] == c
  }

  ghost function One(b: bool): nat {
    if b then 1 else 0
  }

  /** Every client ever created is in exactly one place: held by the thread that
      created it, stored, or handed to setFinalizer once. */
  ghost predicate Conserved(s: State) {
    forall u :: 0 <= u < |s.created| ==>
      One(InFlight(s, u)) + One(IsStored(s, u)) + s.finalized[s.created[u]] == 1
  }

  ghost predicate FinalizedKnown(s: State) {
    forall c :: c in s.finalized ==> KnownClient(s, c)
  }

  ghost predicate QueuesOk<P>(slots: seq<Slot<P>>, s: State) {
    && QueueInv(s.search, SearchRoles(slots, s.threads))
    && QueueInv(s.ident, IdentRoles(s.threads))
  }

  ghost predicate Inv<P>(slots: seq<Slot<P>>, s: State) {
    && Shape(slots, s)
    && ThreadsOk(slots, s)
    && QueuesOk(slots, s)
    && IdentitiesOk(s)
    && StoredOk(s)
    && SearchEntriesOk(slots, s)
    && IdentEntriesOk(s)
    && Conserved(s)
    && FinalizedKnown(s)
  }
}
