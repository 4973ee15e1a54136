/** A request that may have outlived its key: exactly when storing its answer does harm. */
module SettleEndpointLate {
  import opened Common
  import opened SettleEndpoint

  /** The state as everybody but request `e` sees it. */
  function Without(s: EState, e: nat): EState {
    s.(requests := s.requests - {e})
  }

  /** A key that carries a fingerprint is that fingerprint's key. */
  ghost predicate KeysOwned(s: EState) {
    forall k :: k in s.keys && s.keys[k].fingerprint.Some?
                ==> s.keys[k].fingerprint.value.identifier.Some? && KeyOf(s.keys[k].fingerprint.value) == k
  }

  /** Request `e` has an honest terminal answer to store.  Every other request kept to its key. */
  ghost predicate OutlivedBy(s: EState, e: nat) {
    && EInv(Without(s, e)) && KeysOwned(s)
    && e in s.requests && s.requests[e].fp.identifier.Some? && s.requests[e].point.Storing?
    && s.requests[e].point.response.Answered?
    && Honest(s.core.ledger, s.requests[e].fp, s.requests[e].point.response)
  }

  // ---- Such states are what runs lead to ----

  lemma StepKeepsOwned(s: EState, step: EStep)
    requires KeysOwned(s) && EEnabled(s, step)
    ensures KeysOwned(EApply(s, step))
  {
  }

  /** In a prompt run nobody has outlived a key. */
  lemma PromptIsOutlived(s: EState, e: nat)
    requires EInv(s) && KeysOwned(s) && e in s.requests && s.requests[e].fp.identifier.Some?
    requires s.requests[e].point.Storing? && s.requests[e].point.response.Answered?
    ensures OutlivedBy(s, e)
  {
    var w := Without(s, e);
    assert RequestOk(s, e);
    forall d | d in w.requests ensures RequestOk(w, d) {
      assert RequestOk(s, d);
    }
  }

  predicate IsStepOf(step: EStep, e: nat) {
    && !step.Core? && !step.Expire? && step.request == e
  }

  /** The steps of the others do not look at request `e`. */
  lemma OthersIgnore(s: EState, e: nat, step: EStep)
    requires e in s.requests && EEnabled(s, step) && !IsStepOf(step, e)
    ensures EEnabled(Without(s, e), step) && EApply(Without(s, e), step) == Without(EApply(s, step), e)
    ensures EApply(s, step).requests[e] == s.requests[e]
  {
    var w, s' := Without(s, e), EApply(s, step);
    if step.Core? || step.Expire? {
    } else {
      var d := step.request;
      assert s'.requests == s.requests[d := s'.requests[d]];
      assert EApply(w, step).requests == w.requests[d := s'.requests[d]];
      assert Without(s', e).requests == w.requests[d := s'.requests[d]];
    }
  }

  /** Then `e` may be left behind: while it waits, its key may expire and be bound again, as long as
      no other request outlives a key. */
  lemma OthersKeepOutlived(s: EState, e: nat, step: EStep)
    requires OutlivedBy(s, e) && EEnabled(s, step) && !IsStepOf(step, e) && KeyPrompt(Without(s, e), step)
    ensures OutlivedBy(EApply(s, step), e)
  {
    OthersIgnore(s, e, step);
    StepKeepsOwned(s, step);
    EStepKeepsEInv(Without(s, e), step);
    if step.Core? {
      CoreGrows(s.core, step.step);
      HonestIsStable(s.core.ledger, EApply(s, step).core.ledger, s.requests[e].fp, s.requests[e].point.response);
    } else if step.ReadCache? {
      GrowsReflexively(s.core.ledger);
    }
  }

  ghost predicate WaitingReaches(s: EState, e: nat, steps: seq<EStep>, t: EState)
    decreases |steps|
  {
    if steps == [] then s == t
    else && EEnabled(s, steps[0]) && !IsStepOf(steps[0], e) && KeyPrompt(Without(s, e), steps[0])
         && WaitingReaches(EApply(s, steps[0]), e, steps[1..], t)
  }

  lemma {:induction false} WaitingKeepsOutlived(s: EState, e: nat, steps: seq<EStep>, t: EState)
    requires OutlivedBy(s, e) && WaitingReaches(s, e, steps, t)
    ensures OutlivedBy(t, e)
    decreases |steps|
  {
    if steps != [] {
      OthersKeepOutlived(s, e, steps[0]);
      WaitingKeepsOutlived(EApply(s, steps[0]), e, steps[1..], t);
    }
  }

  lemma {:induction false} PromptRunKeepsOwned(s: EState, steps: seq<EStep>, t: EState)
    requires KeysOwned(s) && EPromptlyReaches(s, steps, t)
    ensures KeysOwned(t)
    decreases |steps|
  {
    if steps != [] {
      StepKeepsOwned(s, steps[0]);
      PromptRunKeepsOwned(EApply(s, steps[0]), steps[1..], t);
    }
  }

  // ---- The exact condition ----

  /** A request was served a terminal answer of another request. */
  ghost predicate ServedForeign(s: EState) {
    exists i :: 0 <= i < |s.served| && s.served[i].1.Answered? && s.served[i].1.record.fp != s.served[i].0
  }

  /** Some run in which no request outlives its key comes to that. */
  ghost predicate HarmPossible(s: EState) {
    exists steps, t :: EPromptlyReaches(s, steps, t) && ServedForeign(t)
  }

  predicate StillOwns(s: EState, e: nat)
    requires e in s.requests && s.requests[e].fp.identifier.Some?
  {
    FieldsAt(s.keys, KeyOf(s.requests[e].fp)).fingerprint == Some(s.requests[e].fp)
  }

  lemma OwnPutKeepsEInv(s: EState, e: nat)
    requires OutlivedBy(s, e) && StillOwns(s, e)
    ensures EInv(EApply(s, Put(e)))
  {
    var w, s' := Without(s, e), EApply(s, Put(e));
    assert forall k :: k in w.keys ==> KeyOk(w.core.ledger, w.keys[k]);
    PutSoundExactlyWhenBound(s, e);
    forall d | d in s'.requests ensures RequestOk(s', d) {
      if d != e { assert d in w.requests && RequestOk(w, d); }
    }
  }

  lemma SoundServesNoForeign(s: EState)
    requires EInv(s)
    ensures !HarmPossible(s)
  {
    forall steps, t | EPromptlyReaches(s, steps, t) ensures !ServedForeign(t) {
      ERunKeepsEInv(s, steps, t);
      assert forall i :: 0 <= i < |t.served| ==> Honest(t.core.ledger, t.served[i].0, t.served[i].1);
    }
  }

  lemma PromptStep(s: EState, step: EStep, steps: seq<EStep>, t: EState)
    requires EEnabled(s, step) && !step.Expire? && EPromptlyReaches(EApply(s, step), steps, t)
    ensures EPromptlyReaches(s, [step] + steps, t)
  {
    assert ([step] + steps)[1..] == steps;
  }

  lemma ForeignPutHarms(s: EState, e: nat)
    requires OutlivedBy(s, e) && !StillOwns(s, e)
    ensures HarmPossible(EApply(s, Put(e)))
  {
    var fp := s.requests[e].fp;
    var owner := FieldsAt(s.keys, KeyOf(fp)).fingerprint;
    var other := if owner.Some? then owner.value else fp.(context := fp.context + 1);
    var d := Unused(s.requests.Keys + s.core.calls.Keys, 0);
    var t := LatePutAnswersAnotherRequest(s, e, d, other);
    var s1, s2, s3, s4 :|
      && s1 == EApply(s, Put(e))
      && EEnabled(s1, Arrive(d, other)) && s2 == EApply(s1, Arrive(d, other))
      && EEnabled(s2, Bind(d)) && s3 == EApply(s2, Bind(d))
      && EEnabled(s3, Compare(d)) && s4 == EApply(s3, Compare(d))
      && EEnabled(s4, ReadCache(d)) && t == EApply(s4, ReadCache(d));
    assert EPromptlyReaches(t, [], t);
    PromptStep(s4, ReadCache(d), [], t);
    PromptStep(s3, Compare(d), [ReadCache(d)] + [], t);
    PromptStep(s2, Bind(d), [Compare(d)] + ([ReadCache(d)] + []), t);
    PromptStep(s1, Arrive(d, other), [Bind(d)] + ([Compare(d)] + ([ReadCache(d)] + [])), t);
    assert t.served[|t.served| - 1].1.record.fp != other;
  }

  /** Storing a late answer does harm exactly when the request lost its key: afterwards some run in
      which no request outlives its key serves a request the terminal answer of another one, if and
      only if the key does not carry the storing request's fingerprint any more, whether it expired
      or was bound again. */
  lemma PutHarmsExactlyWhenLost(s: EState, e: nat)
    requires OutlivedBy(s, e)
    ensures HarmPossible(EApply(s, Put(e))) <==> !StillOwns(s, e)
  {
    if StillOwns(s, e) {
      OwnPutKeepsEInv(s, e);
      SoundServesNoForeign(EApply(s, Put(e)));
    } else {
      ForeignPutHarms(s, e);
    }
  }

  /** A request that lost its key before its cache read is served a foreign answer exactly when the key
      then holds a terminal answer of its new owner. */
  lemma LateReadIsForeignExactlyWhen(s: EState, e: nat)
    requires EInv(Without(s, e)) && EEnabled(s, ReadCache(e)) && s.requests[e].fp.identifier.Some?
    ensures ServedForeign(EApply(s, ReadCache(e)))
            <==> && CachedFor(s.keys, s.requests[e].fp).Some? && CachedFor(s.keys, s.requests[e].fp).value.Answered?
                 && !StillOwns(s, e)
  {
    var w, s' := Without(s, e), EApply(s, ReadCache(e));
    var cached := CachedFor(s.keys, s.requests[e].fp);
    assert forall i :: 0 <= i < |s.served| ==> Honest(w.core.ledger, w.served[i].0, w.served[i].1);
    if cached.Some? {
      assert KeyOk(w.core.ledger, w.keys[KeyOf(s.requests[e].fp)]);
      if cached.value.Answered? { assert s'.served[|s.served|] == (s.requests[e].fp, cached.value); }
    }
  }

  /** The same over whole runs: after any run in which no request outlived its key, let `e` wait with
      its answer while the others go on and keys expire. */
  lemma LatePutHarmsExactlyWhenLost(
    s: EState, steps: seq<EStep>, t: EState, e: nat, waiting: seq<EStep>, u: EState)
    requires EInitial(s) && EPromptlyReaches(s, steps, t) && WaitingReaches(t, e, waiting, u)
    requires e in t.requests && t.requests[e].fp.identifier.Some?
    requires t.requests[e].point.Storing? && t.requests[e].point.response.Answered?
    ensures EEnabled(u, Put(e)) && u.requests[e].fp.identifier.Some?
    ensures HarmPossible(EApply(u, Put(e))) <==> !StillOwns(u, e)
  {
    ERunKeepsEInv(s, steps, t);
    PromptRunKeepsOwned(s, steps, t);
    PromptIsOutlived(t, e);
    WaitingKeepsOutlived(t, e, waiting, u);
    PutHarmsExactlyWhenLost(u, e);
  }
}
