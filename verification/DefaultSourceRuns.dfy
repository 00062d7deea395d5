/** Executions whose only human ID source is DefaultHumanIDSource: it meets the
    contract the protocol assumes, and no Get ever fails as a duplicate. */
module DefaultSourceRuns {
  import opened Wrappers
  import opened Net
  import opened Lookup
  import opened Storage
  import opened Protocol
  import opened ProtocolTheorems
  import opened IdSources

  /** What Storage.Get requires of an address. */
  predicate IsPlain(a: Addr) {
    ValidAddr(a) && a.zone == "" && Unmap(a) == a
  }

  /** Gets are for plain addresses, and the source answers each with the default ID of
      its address, valid from now on. */
  ghost predicate ByDefaultSource(s: State, a: Action, validity: Time) {
    && (a.NewGet? ==> IsPlain(a.addr))
    && (a.SourceAnswers? && a.thread < |s.threads| ==>
          && ValidAddr(s.threads[a.thread].addr)
          && a.answer == Some(ValidID(DefaultID(s.threads[a.thread].addr), s.clock + validity)))
  }

  ghost predicate UsesDefaultSource(states: seq<State>, acts: seq<Action>, validity: Time) {
    |states| == |acts| + 1 && forall k :: 0 <= k < |acts| ==> ByDefaultSource(states[k], acts[k], validity)
  }

  ghost predicate SourceInv(s: State, validity: Time) {
    && (forall i :: 0 <= i < |s.threads| ==>
          && IsPlain(s.threads[i].addr)
          && (s.threads[i].pc.CheckIdentity? ==> s.threads[i].pc.hid.id == DefaultID(s.threads[i].addr)))
    && (forall x :: x in s.identified ==> IsPlain(s.identified[x].addr) && DefaultID(s.identified[x].addr) == x)
    && (forall key :: key in s.answered ==> s.answered[key] <= s.clock + validity)
  }

  lemma StepKeepsSourceInv<P>(slots: seq<Slot<P>>, s: State, i: nat, validity: Time)
    requires CanApply(slots, s, Step(i)) && SourceInv(s, validity)
    ensures SourceInv(StepThread(slots, s, i), validity)
  {
    var s' := StepThread(slots, s, i);
    StepKeepsThreads(slots, s, i);
    forall x | x in s'.identified
      ensures IsPlain(s'.identified[x].addr) && DefaultID(s'.identified[x].addr) == x
    {
      StepKeepsIdentified(slots, s, i, x);
    }
  }

  lemma StepKeepsThreads<P>(slots: seq<Slot<P>>, s: State, i: nat)
    requires CanApply(slots, s, Step(i))
    ensures var s' := StepThread(slots, s, i);
      && |s'.threads| == |s.threads| && s'.threads == s.threads[i := s'.threads[i]]
      && s'.threads[i].addr == s.threads[i].addr && !s'.threads[i].pc.CheckIdentity?
      && s'.answered == s.answered && s'.clock == s.clock
  {
    StepMovesOne(slots, s, i);
    StepKeepsSource(slots, s, i);
  }

  lemma StepKeepsSource<P>(slots: seq<Slot<P>>, s: State, i: nat)
    requires CanApply(slots, s, Step(i))
    ensures StepThread(slots, s, i).answered == s.answered && StepThread(slots, s, i).clock == s.clock
    ensures !NextPC(slots, s, i).CheckIdentity?
  {
  }

  lemma StepKeepsIdentified<P>(slots: seq<Slot<P>>, s: State, i: nat, x: HumanID)
    requires CanApply(slots, s, Step(i)) && x in StepThread(slots, s, i).identified
    ensures var t, n := s.threads[i], StepThread(slots, s, i).identified[x];
      || (x in s.identified && n == s.identified[x])
      || (t.pc.CheckIdentity? && x == t.pc.hid.id && n.addr == t.addr)
  {
  }

  lemma AnswerKeepsSourceInv<P>(slots: seq<Slot<P>>, s: State, i: nat, answer: Option<ValidID>, validity: Time)
    requires CanApply(slots, s, SourceAnswers(i, answer)) && SourceInv(s, validity)
    requires ByDefaultSource(s, SourceAnswers(i, answer), validity)
    ensures SourceInv(Apply(slots, s, SourceAnswers(i, answer)), validity)
  {
  }

  lemma CollectKeepsSourceInv<P>(slots: seq<Slot<P>>, s: State, validity: Time)
    requires CanApply(slots, s, GcStep) && SourceInv(s, validity)
    ensures SourceInv(Apply(slots, s, GcStep), validity)
  {
  }

  lemma NewGetKeepsSourceInv<P>(slots: seq<Slot<P>>, s: State, a: Action, validity: Time)
    requires a.NewGet? && CanApply(slots, s, a) && SourceInv(s, validity) && ByDefaultSource(s, a, validity)
    ensures SourceInv(Apply(slots, s, a), validity)
  {
  }

  lemma CancelKeepsSourceInv<P>(slots: seq<Slot<P>>, s: State, i: nat, validity: Time)
    requires CanApply(slots, s, Cancel(i)) && SourceInv(s, validity)
    ensures SourceInv(Apply(slots, s, Cancel(i)), validity)
  {
  }

  lemma ConstructorKeepsSourceInv<P>(slots: seq<Slot<P>>, s: State, i: nat, built: bool, validity: Time)
    requires CanApply(slots, s, ConstructorAnswers(i, built)) && SourceInv(s, validity)
    ensures SourceInv(Apply(slots, s, ConstructorAnswers(i, built)), validity)
  {
  }

  lemma ActionKeepsSourceInv<P>(slots: seq<Slot<P>>, s: State, a: Action, validity: Time)
    requires CanApply(slots, s, a) && SourceInv(s, validity) && ByDefaultSource(s, a, validity)
    ensures SourceInv(Apply(slots, s, a), validity)
  {
    match a
    case Step(i) => StepKeepsSourceInv(slots, s, i, validity);
    case SourceAnswers(i, answer) => AnswerKeepsSourceInv(slots, s, i, answer, validity);
    case NewGet(addr, question) => NewGetKeepsSourceInv(slots, s, a, validity);
    case GcStep => CollectKeepsSourceInv(slots, s, validity);
    case Cancel(i) => CancelKeepsSourceInv(slots, s, i, validity);
    case ConstructorAnswers(i, built) => ConstructorKeepsSourceInv(slots, s, i, built, validity);
    case Tick(to) =>
    case StartGc(now) =>
  }

  lemma {:induction false} RunHasSourceInv<P>(
    slots: seq<Slot<P>>, states: seq<State>, acts: seq<Action>, validity: Time, k: nat)
    requires IsExecution(slots, states, acts) && UsesDefaultSource(states, acts, validity) && k <= |acts|
    ensures SourceInv(states[k], validity)
  {
    if k > 0 {
      RunHasSourceInv(slots, states, acts, validity, k - 1);
      assert ByDefaultSource(states[k - 1], acts[k - 1], validity);
      ActionKeepsSourceInv(slots, states[k - 1], acts[k - 1], validity);
    }
  }

  /** The duplicate check of identify never fires. */
  lemma DefaultSourceNeverConflicts<P>(
    slots: seq<Slot<P>>, states: seq<State>, acts: seq<Action>, validity: Time, k: nat, i: nat)
    requires IsExecution(slots, states, acts) && UsesDefaultSource(states, acts, validity)
    requires k <= |acts| && i < |states[k].threads| && states[k].threads[i].pc.CheckIdentity?
    ensures var t := states[k].threads[i]; !Conflicts(states[k].identified, t.addr, t.pc.hid, t.now)
  {
    RunHasSourceInv(slots, states, acts, validity, k);
    var s, t := states[k], states[k].threads[i];
    if t.pc.hid.id in s.identified {
      DefaultIDIsInjective(s.identified[t.pc.hid.id].addr, t.addr);
    }
  }

  /** The source contract never stands in the way of its answer. */
  lemma DefaultSourceMeetsContract<P>(
    slots: seq<Slot<P>>, states: seq<State>, acts: seq<Action>, validity: Time, k: nat, i: nat)
    requires IsExecution(slots, states, acts) && UsesDefaultSource(states, acts, validity)
    requires k <= |acts| && i < |states[k].threads| && states[k].threads[i].pc.CallSource?
    ensures ValidAddr(states[k].threads[i].addr)
    ensures var answer := Some(ValidID(DefaultID(states[k].threads[i].addr), states[k].clock + validity));
      Enabled(slots, states[k], SourceAnswers(i, answer))
  {
    RunHasSourceInv(slots, states, acts, validity, k);
  }
}
