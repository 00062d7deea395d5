/** Executions whose human ID source is RDNSIDSource with DefaultHumanIDSource behind
    it: while no record names an address by the default ID of the address, the source
    meets the contract that the protocol assumes, and live identities are unique. */
module CompositeRuns {
  import opened Wrappers
  import opened Net
  import opened Lookup
  import opened Storage
  import opened Protocol
  import opened ProtocolInvariant
  import opened ProtocolTheorems
  import R = RdnsCalls

  /** A step of the protocol that assumes nothing of the source's answers. */
  ghost predicate FreeStep<P>(slots: seq<Slot<P>>, s: State, a: Action, s': State) {
    if a.SourceAnswers? then
      a.thread < |s.threads| && s.threads[a.thread].pc.CallSource? && s' == AnswerSource(s, a.thread, a.answer)
    else
      CanApply(slots, s, a) && s' == Apply(slots, s, a)
  }

  ghost predicate IsFreeExecution<P>(slots: seq<Slot<P>>, states: seq<State>, acts: seq<Action>) {
    && |states| == |acts| + 1 && states[0] == Init(|slots|, states[0].clock)
    && forall k {:trigger StepsFreely(slots, states, acts, k)} :: 0 <= k < |acts| ==> StepsFreely(slots, states, acts, k)
  }

  ghost predicate StepsFreely<P>(slots: seq<Slot<P>>, states: seq<State>, acts: seq<Action>, k: nat)
    requires k < |acts| < |states|
  {
    FreeStep(slots, states[k], acts[k], states[k + 1])
  }

  predicate GivesID(a: Action) {
    a.SourceAnswers? && a.answer.Some?
  }

  /** Each ID that the source gives in the execution is the answer of the two sources
      at an event of their run, in the order of the run for each address. */
  ghost predicate AnsweredBy(states: seq<State>, acts: seq<Action>, cs: seq<R.Calls>, es: seq<R.Event>, validity: Time,
                             at: seq<nat>)
    requires |states| == |acts| + 1 && |cs| == |es| + 1
  {
    && |at| == |acts|
    && (forall k :: 0 <= k < |acts| && GivesID(acts[k]) ==>
          && at[k] < |es| && acts[k].thread < |states[k].threads|
          && es[at[k]].addr == states[k].threads[acts[k].thread].addr
          && R.CompositeAt(cs, es, at[k], validity) == acts[k].answer)
    && (forall k, l :: 0 <= k < l < |acts| && GivesID(acts[k]) && GivesID(acts[l]) && es[at[k]].addr == es[at[l]].addr ==>
          at[k] < at[l])
  }

  lemma OnlyTheSourceAnswers<P>(slots: seq<Slot<P>>, s: State, a: Action)
    requires CanApply(slots, s, a) && !a.SourceAnswers?
    ensures Apply(slots, s, a).answered == s.answered
  {
  }

  /** What is recorded as answered was answered by an earlier action. */
  lemma {:induction false} AnsweredEarlier<P>(
    slots: seq<Slot<P>>, states: seq<State>, acts: seq<Action>, k: nat, key: (Addr, HumanID)) returns (j: nat)
    requires IsFreeExecution(slots, states, acts) && k <= |acts| && key in states[k].answered
    ensures j < k && GivesID(acts[j]) && acts[j].thread < |states[j].threads|
    ensures states[j].threads[acts[j].thread].addr == key.0
    ensures acts[j].answer.value == ValidID(key.1, states[k].answered[key])
  {
    assert k > 0;
    assert StepsFreely(slots, states, acts, k - 1);
    var s, a := states[k - 1], acts[k - 1];
    if a.SourceAnswers? {
      if a.answer.Some? && key == (s.threads[a.thread].addr, a.answer.value.id) {
        j := k - 1;
      } else {
        j := AnsweredEarlier(slots, states, acts, k - 1, key);
      }
    } else {
      OnlyTheSourceAnswers(slots, s, a);
      j := AnsweredEarlier(slots, states, acts, k - 1, key);
    }
  }

  /** No answer of such a run is backdated. */
  lemma CompositeIsNotBackdated<P>(
    slots: seq<Slot<P>>, states: seq<State>, acts: seq<Action>,
    cs: seq<R.Calls>, es: seq<R.Event>, validity: Time, at: seq<nat>, k: nat)
    requires IsFreeExecution(slots, states, acts) && R.IsCallRun(cs, es) && 0 <= validity
    requires AnsweredBy(states, acts, cs, es, validity, at) && R.NoOwnDefaultNames(es)
    requires k < |acts| && acts[k].SourceAnswers? && acts[k].thread < |states[k].threads|
    ensures NotBackdated(states[k], states[k].threads[acts[k].thread].addr, acts[k].answer)
  {
    var addr := states[k].threads[acts[k].thread].addr;
    if acts[k].answer.Some? && (addr, acts[k].answer.value.id) in states[k].answered {
      var j := AnsweredEarlier(slots, states, acts, k, (addr, acts[k].answer.value.id));
      R.CompositeNeverGoesBack(cs, es, validity, at[j], at[k]);
    }
  }

  lemma FreeStepIsStep<P>(slots: seq<Slot<P>>, s: State, a: Action, s': State)
    requires Shape(slots, s) && FreeStep(slots, s, a, s')
    requires a.SourceAnswers? ==> NotBackdated(s, s.threads[a.thread].addr, a.answer)
    ensures CanApply(slots, s, a) && s' == Apply(slots, s, a)
  {
  }

  lemma {:induction false} FreeStateHasInv<P>(
    slots: seq<Slot<P>>, states: seq<State>, acts: seq<Action>,
    cs: seq<R.Calls>, es: seq<R.Event>, validity: Time, at: seq<nat>, k: nat)
    requires IsFreeExecution(slots, states, acts) && R.IsCallRun(cs, es) && 0 <= validity
    requires AnsweredBy(states, acts, cs, es, validity, at) && R.NoOwnDefaultNames(es)
    requires k <= |acts|
    ensures Inv(slots, states[k])
  {
    if k == 0 {
      InitHasInv(slots, states[0].clock);
    } else {
      FreeStateHasInv(slots, states, acts, cs, es, validity, at, k - 1);
      FreeStepIsProper(slots, states, acts, cs, es, validity, at, k - 1);
      ActionKeepsInv(slots, states[k - 1], acts[k - 1], states[k]);
    }
  }

  lemma FreeStepIsProper<P>(
    slots: seq<Slot<P>>, states: seq<State>, acts: seq<Action>,
    cs: seq<R.Calls>, es: seq<R.Event>, validity: Time, at: seq<nat>, k: nat)
    requires IsFreeExecution(slots, states, acts) && R.IsCallRun(cs, es) && 0 <= validity
    requires AnsweredBy(states, acts, cs, es, validity, at) && R.NoOwnDefaultNames(es)
    requires k < |acts| && Shape(slots, states[k])
    ensures CanApply(slots, states[k], acts[k]) && states[k + 1] == Apply(slots, states[k], acts[k])
  {
    assert StepsFreely(slots, states, acts, k);
    if acts[k].SourceAnswers? {
      CompositeIsNotBackdated(slots, states, acts, cs, es, validity, at, k);
    }
    FreeStepIsStep(slots, states[k], acts[k], states[k + 1]);
  }

  /** With the two sources every run of the program is an execution of the protocol,
      as long as no record names an address by its own default ID. */
  lemma CompositeRunsAreExecutions<P>(
    slots: seq<Slot<P>>, states: seq<State>, acts: seq<Action>,
    cs: seq<R.Calls>, es: seq<R.Event>, validity: Time, at: seq<nat>)
    requires IsFreeExecution(slots, states, acts) && R.IsCallRun(cs, es) && 0 <= validity
    requires AnsweredBy(states, acts, cs, es, validity, at) && R.NoOwnDefaultNames(es)
    ensures IsExecution(slots, states, acts)
  {
    forall k | 0 <= k < |acts|
      ensures CanApply(slots, states[k], acts[k]) && states[k + 1] == Apply(slots, states[k], acts[k])
    {
      FreeStateHasInv(slots, states, acts, cs, es, validity, at, k);
      FreeStepIsProper(slots, states, acts, cs, es, validity, at, k);
    }
  }

  /** So no two live clients of different addresses share an identity in it. */
  lemma CompositeIdentitiesAreUnique<P>(
    slots: seq<Slot<P>>, states: seq<State>, acts: seq<Action>,
    cs: seq<R.Calls>, es: seq<R.Event>, validity: Time, at: seq<nat>, k: nat, u: nat, v: nat)
    requires IsFreeExecution(slots, states, acts) && R.IsCallRun(cs, es) && 0 <= validity
    requires AnsweredBy(states, acts, cs, es, validity, at) && R.NoOwnDefaultNames(es)
    requires k <= |acts|
    requires var s := states[k];
      && u < |s.created| && v < |s.created|
      && s.finalized[s.created[u]] == 0 && s.finalized[s.created[v]] == 0
      && s.created[u].hid.until > s.clock && s.created[v].hid.until > s.clock
      && s.created[u].hid.id == s.created[v].hid.id
    ensures states[k].created[u].addr == states[k].created[v].addr
  {
    CompositeRunsAreExecutions(slots, states, acts, cs, es, validity, at);
    LiveIdentitiesAreUnique(slots, states, acts, k, u, v);
  }
}
