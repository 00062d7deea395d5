/** DefaultStorage.Get as a whole: the compiled index in front of the autodevice
    clients.  The device that answers belongs to the selected configuration. */
module WholeGet {
  import opened Wrappers
  import opened Net
  import opened DomainNames
  import opened HumanIDs
  import opened Lookup
  import opened Config
  import opened ConfigBuild
  import opened EndToEnd
  import Protocol
  import ProtocolTheorems
  import Storage

  datatype Answer = NoClient | StaticAnswer(ups: Ups) | DeviceAnswer(client: Storage.Client)

  /** What the clock, the human ID source and the upstream constructor say. */
  datatype World = World(now: Storage.Time, source: Option<Storage.ValidID>, built: bool)

  function Answered(idx: Index, st: Storage.Store, addr: Addr, q: string, identifiable: bool, w: World)
    : (Storage.Store, Answer)
    requires |st.clients| == |idx.autos|
  {
    var i, j := FirstIndex(idx.statics, addr, q), FirstIndex(idx.autos, addr, q);
    if i < |idx.statics| then (st, StaticAnswer(idx.statics[i].payload.ups))
    else if !identifiable || j == |idx.autos| then (st, NoClient)
    else
      var r := Storage.Get(st, j, addr, w.now, w.source, w.built);
      (r.0, if r.1.Some? then DeviceAnswer(r.1.value) else NoClient)
  }

  /** ServeDNS and Get: the storage is asked for the lowercased domain. */
  method Get(idx: Index, storage: Storage.DefaultStorage, addr: Addr, q: string, identifiable: bool, w: World)
    returns (a: Answer)
    requires |storage.clients| == |idx.autos|
    modifies storage
    ensures (storage.View(), a) == Answered(idx, old(storage.View()), addr, ToLower(q), identifiable, w)
  {
    var c := FindFirst(idx.statics, addr, ToLower(q));
    if c.Some? {
      return StaticAnswer(c.value.ups);
    }
    if idx.autos == [] || !identifiable {
      return NoClient;
    }
    var slot := FindSlot(idx.autos, addr, ToLower(q));
    if slot.None? {
      return NoClient;
    }
    var device := storage.GetClient(slot.value, addr, w.now, w.source, w.built);
    a := if device.Some? then DeviceAnswer(device.value) else NoClient;
  }

  /** Questions that differ at most in letter case get one answer, and leave one
      storage. */
  lemma LetterCaseIsIgnored(idx: Index, st: Storage.Store, addr: Addr, q: string, q': string, identifiable: bool, w: World)
    requires |st.clients| == |idx.autos| && EqualFold(q, q')
    ensures Answered(idx, st, addr, ToLower(q), identifiable, w) == Answered(idx, st, addr, ToLower(q'), identifiable, w)
  {
    LowerIsFold(q, q');
  }

  /** Clients are stored in their own slot under their own address. */
  ghost predicate Placed(st: Storage.Store) {
    forall i, a :: 0 <= i < |st.clients| && a in st.clients[i] ==>
      st.clients[i][a].slot == i && st.clients[i][a].addr == a
  }

  lemma SectionsKeepPlaced(st: Storage.Store, slot: nat, addr: Addr, now: Storage.Time, hid: Storage.ValidID)
    requires Placed(st) && slot < |st.clients|
    ensures Placed(Storage.Found(st, slot, addr, now))
    ensures Placed(Storage.Identified(st, addr, hid)) && Placed(Storage.Stored(st, slot, addr, hid))
  {
  }

  lemma GetKeepsPlaced(idx: Index, st: Storage.Store, addr: Addr, q: string, identifiable: bool, w: World)
    requires |st.clients| == |idx.autos| && Placed(st)
    ensures var (st', a) := Answered(idx, st, addr, q, identifiable, w);
      Placed(st') && |st'.clients| == |idx.autos|
  {
    var j := FirstIndex(idx.autos, addr, q);
    if j < |idx.autos| {
      var hid := if w.source.Some? then w.source.value else Storage.ValidID("", 0);
      var found := Storage.Found(st, j, addr, w.now);
      SectionsKeepPlaced(st, j, addr, w.now, hid);
      SectionsKeepPlaced(found, j, addr, w.now, hid);
      SectionsKeepPlaced(Storage.Identified(found, addr, hid), j, addr, w.now, hid);
    }
  }

  lemma CollectKeepsPlaced(st: Storage.Store, now: Storage.Time)
    requires Placed(st)
    ensures Placed(Storage.Collect(st, now))
  {
  }

  /** A device that is not stored cannot be made. */
  predicate DeviceFails(st: Storage.Store, slot: nat, addr: Addr, w: World)
    requires slot < |st.clients|
  {
    && Storage.FoundValid(st.clients[slot], addr, w.now).None?
    && (w.source.None? || Storage.Conflicts(st.identified, addr, w.source.value, w.now) || !w.built)
  }

  /** The configuration behind an answer. */
  function UpsOfAnswer(idx: Index, a: Answer): Option<Ups> {
    match a
    case NoClient => None
    case StaticAnswer(ups) => Some(ups)
    case DeviceAnswer(c) => if c.slot < |idx.autos| then Some(idx.autos[c.slot].payload) else None
  }

  lemma AnswerIsFound(idx: Index, st: Storage.Store, addr: Addr, q: string, identifiable: bool, w: World)
    requires |st.clients| == |idx.autos| && Placed(st)
    ensures var a := Answered(idx, st, addr, q, identifiable, w).1;
      var found := Found(idx, addr, q, identifiable);
      && (a.DeviceAnswer? ==> a.client.addr == addr && a.client.slot < |idx.autos|)
      && (a.NoClient? <==> found.None? || (FirstIndex(idx.statics, addr, q) == |idx.statics|
                                           && DeviceFails(st, FirstIndex(idx.autos, addr, q), addr, w)))
      && (!a.NoClient? ==> UpsOfAnswer(idx, a) == found)
  {
  }

  /** Whatever is in the storage: the answer is of the group that the rule selects, a
      device of the asking address with the address template, profile and device type
      of the group; there is none exactly if the rule selects none or selects an
      autodevice group for which no device is stored or can be made. */
  lemma AnswerIsSelected(env: Env, groups: Groups, idx: Index, st: Storage.Store, addr: Addr, q: string,
                         identifiable: bool, w: World)
    requires Sound(env) && ValidConfig(env, groups) && IsIndexOf(groups, idx) && ParsedPrefixes(groups)
    requires NoOverlaps(groups, false) && NoOverlaps(groups, true) && (q != "" ==> q[0] != '.')
    requires |st.clients| == |idx.autos| && Placed(st)
    ensures var a := Answered(idx, st, addr, ToLower(q), identifiable, w).1;
      var u := UpsOfAnswer(idx, a);
      && (!a.NoClient? ==>
            && u.Some? && IsOfItsGroup(groups, u.value)
            && Selects(groups, addr, q, identifiable, Some(u.value.group)))
      && (a.DeviceAnswer? ==> a.client.addr == addr)
      && (a.NoClient? <==>
            || Selects(groups, addr, q, identifiable, None)
            || (&& !HasCandidate(groups, false, addr, q) && identifiable
                && FirstIndex(idx.autos, addr, ToLower(q)) < |idx.autos|
                && DeviceFails(st, FirstIndex(idx.autos, addr, ToLower(q)), addr, w)))
  {
    AnswerIsFound(idx, st, addr, ToLower(q), identifiable, w);
    FoundIsSelected(env, groups, idx, addr, q, identifiable);
    FirstIsBestMatch(env, groups, false, idx.statics, StaticUpsOf(), addr, q);
    var found := Found(idx, addr, ToLower(q), identifiable);
    if found.Some? && Selects(groups, addr, q, identifiable, None) {
      SelectionIsUnique(env, groups, addr, q, identifiable, GroupOf(found), None);
      assert false;
    }
  }

  // ---- Any history ----

  datatype Op = GetOp(addr: Addr, q: string, identifiable: bool, world: World) | GcOp(now: Storage.Time)

  /** The storage after lookups and collections, from its start. */
  function History(idx: Index, ops: seq<Op>): (st: Storage.Store)
    ensures |st.clients| == |idx.autos|
    decreases |ops|
  {
    if ops == [] then Storage.Store(seq(|idx.autos|, _ => map[]), map[], 0, multiset{})
    else
      var before := History(idx, ops[..|ops| - 1]);
      match ops[|ops| - 1]
      case GetOp(addr, q, identifiable, w) => Answered(idx, before, addr, q, identifiable, w).0
      case GcOp(now) => Storage.Collect(before, now)
  }

  lemma {:induction false} HistoryIsPlaced(idx: Index, ops: seq<Op>)
    ensures Placed(History(idx, ops))
    decreases |ops|
  {
    if ops != [] {
      var before := History(idx, ops[..|ops| - 1]);
      HistoryIsPlaced(idx, ops[..|ops| - 1]);
      match ops[|ops| - 1]
      case GetOp(addr, q, identifiable, w) => GetKeepsPlaced(idx, before, addr, q, identifiable, w);
      case GcOp(now) => CollectKeepsPlaced(before, now);
    }
  }

  /** After any sequence of lookups and collections, with whatever clock readings and
      answers of the source, the answer is of the group that the rule selects. */
  lemma AnswerIsAlwaysSelected(env: Env, groups: Groups, idx: Index, ops: seq<Op>, addr: Addr, q: string,
                               identifiable: bool, w: World)
    requires Sound(env) && ValidConfig(env, groups) && IsIndexOf(groups, idx) && ParsedPrefixes(groups)
    requires NoOverlaps(groups, false) && NoOverlaps(groups, true) && (q != "" ==> q[0] != '.')
    ensures var st := History(idx, ops);
      var a := Answered(idx, st, addr, ToLower(q), identifiable, w).1;
      var u := UpsOfAnswer(idx, a);
      && (!a.NoClient? ==>
            && u.Some? && IsOfItsGroup(groups, u.value)
            && Selects(groups, addr, q, identifiable, Some(u.value.group)))
      && (a.DeviceAnswer? ==> a.client.addr == addr)
      && (a.NoClient? <==>
            || Selects(groups, addr, q, identifiable, None)
            || (&& !HasCandidate(groups, false, addr, q) && identifiable
                && FirstIndex(idx.autos, addr, ToLower(q)) < |idx.autos|
                && DeviceFails(st, FirstIndex(idx.autos, addr, ToLower(q)), addr, w)))
  {
    HistoryIsPlaced(idx, ops);
    AnswerIsSelected(env, groups, idx, History(idx, ops), addr, q, identifiable, w);
  }

  /** The same in any interleaving of lookups, collections and clock: a device that
      answers a question no static group covers is of the selected group. */
  lemma ConcurrentAnswerIsSelected(env: Env, groups: Groups, idx: Index, states: seq<Protocol.State>,
                                   acts: seq<Protocol.Action>, k: nat, i: nat, q: string)
    requires Sound(env) && ValidConfig(env, groups) && IsIndexOf(groups, idx) && ParsedPrefixes(groups)
    requires NoOverlaps(groups, false) && NoOverlaps(groups, true) && (q != "" ==> q[0] != '.')
    requires ProtocolTheorems.IsExecution(idx.autos, states, acts) && k <= |acts| && i < |states[k].threads|
    requires states[k].threads[i].pc.Finished? && states[k].threads[i].pc.answer.Some?
    requires states[k].threads[i].question == ToLower(q)
    requires !HasCandidate(groups, false, states[k].threads[i].addr, q)
    ensures var t := states[k].threads[i];
      var c := t.pc.answer.value;
      && c.addr == t.addr && c.slot < |idx.autos|
      && IsOfItsGroup(groups, idx.autos[c.slot].payload)
      && Selects(groups, t.addr, q, true, Some(idx.autos[c.slot].payload.group))
  {
    var t := states[k].threads[i];
    ProtocolTheorems.AnswersAreOwn(idx.autos, states, acts, k, i);
    ProtocolTheorems.SelectedSlotExists(idx.autos, states, acts, k, i);
    FirstIsBestMatch(env, groups, false, idx.statics, StaticUpsOf(), t.addr, q);
    FoundIsSelected(env, groups, idx, t.addr, q, true);
  }
}
