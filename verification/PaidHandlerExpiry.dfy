/** Exactly when the expiry of a key can make a replay return a response of no run of its epoch. */
module PaidHandlerExpiry {
  import opened Common
  import opened PaidHandler

  ghost predicate PromptlyReachable(s: State, t: State) {
    exists steps :: PromptlyReaches(s, steps, t)
  }

  /** Some replay returned a response that no run of its own epoch and fingerprint gave. */
  ghost predicate Unfounded(s: State) {
    exists i :: 0 <= i < |s.log| && s.log[i].Replayed?
                && !RunGave(s.log, s.log[i].key, s.log[i].epoch, s.log[i].fp, s.log[i].response)
  }

  /** One step, then a prompt run. */
  lemma StepThen(s: State, step: Step, t: State)
    requires Enabled(s, step) && !step.Expire? && PromptlyReachable(Apply(s, step), t)
    ensures PromptlyReachable(s, t)
  {
    var steps :| PromptlyReaches(Apply(s, step), steps, t);
    assert ([step] + steps)[1..] == steps;
    assert PromptlyReaches(s, [step] + steps, t);
  }

  /** No run has started in the key's current epoch. */
  ghost predicate NoRunYet(s: State, k: Key) {
    forall i :: 0 <= i < |s.log| && s.log[i].Started? && s.log[i].key == k ==> s.log[i].epoch != Epoch(s, k)
  }

  lemma ReplayIsUnfounded(s: State, d: nat)
    requires Enabled(s, Get(d)) && NoRunYet(s, s.requests[d].key)
    requires s.requests[d].key in s.keys && s.keys[s.requests[d].key].Stored?
    requires s.keys[s.requests[d].key].fp == s.requests[d].fp
    ensures Unfounded(Apply(s, Get(d)))
  {
    var t := Apply(s, Get(d));
    var i := |s.log|;
    assert t.log[i].Replayed? && t.log[i].key == s.requests[d].key && t.log[i].epoch == Epoch(s, s.requests[d].key);
    assert forall j :: 0 <= j < |t.log| && t.log[j].Started? ==> j < i && t.log[j] == s.log[j];
  }

  /** A stored response is replayed to a new request with the same fingerprint. */
  lemma StoredIsReplayed(s: State, k: Key) returns (t: State)
    requires k in s.keys && s.keys[k].Stored? && NoRunYet(s, k)
    ensures PromptlyReachable(s, t) && Unfounded(t)
  {
    var d := Unused(s.requests.Keys, 0);
    var arrive := Arrive(d, k, s.keys[k].fp, false);
    var s1 := Apply(s, arrive);
    t := Apply(s1, Get(d));
    ReplayIsUnfounded(s1, d);
    assert PromptlyReaches(t, [], t);
    StepThen(s1, Get(d), t);
    StepThen(s, arrive, t);
  }

  /** An active request stores its response under the absent key. */
  lemma PutWritingStores(s: State, e: nat) returns (t: State)
    requires e in s.requests && s.requests[e].point.PutWriting? && NoRunYet(s, s.requests[e].key)
    ensures PromptlyReachable(s, t) && Unfounded(t)
  {
    var s1 := Apply(s, PutWrite(e));
    t := StoredIsReplayed(s1, s.requests[e].key);
    StepThen(s, PutWrite(e), t);
  }

  lemma PutReadingStores(s: State, e: nat) returns (t: State)
    requires e in s.requests && s.requests[e].point.PutReading? && NoRunYet(s, s.requests[e].key)
    requires s.requests[e].key !in s.keys
    ensures PromptlyReachable(s, t) && Unfounded(t)
  {
    t := PutWritingStores(Apply(s, PutRead(e)), e);
    StepThen(s, PutRead(e), t);
  }

  lemma RunningStores(s: State, e: nat) returns (t: State)
    requires e in s.requests && s.requests[e].point.Running? && NoRunYet(s, s.requests[e].key)
    requires s.requests[e].key !in s.keys
    ensures PromptlyReachable(s, t) && Unfounded(t)
  {
    t := PutReadingStores(Apply(s, HandlerEnds(e, Some(0))), e);
    StepThen(s, HandlerEnds(e, Some(0)), t);
  }

  lemma PromptIsFounded(s: State, steps: seq<Step>, t: State)
    requires PromptInv(s) && PromptlyReaches(s, steps, t)
    ensures !Unfounded(t)
  {
    PromptRunKeeps(s, steps, t);
    forall i | 0 <= i < |t.log| && t.log[i].Replayed?
      ensures RunGave(t.log, t.log[i].key, t.log[i].epoch, t.log[i].fp, t.log[i].response)
    {
      assert ReplayOk(t, t.log[i]);
    }
  }

  /** The exact condition: after a run in which no handler outlived its key, the expiry of a key can
      lead to an unfounded replay, with only prompt expiries from then on, if and only if some
      request is running the handler on it or has yet to store its response. */
  lemma ExpiryIsUnsafeExactlyWhenActive(s: State, k: Key)
    requires PromptInv(s) && Enabled(s, Expire(k))
    ensures (exists t :: PromptlyReachable(Apply(s, Expire(k)), t) && Unfounded(t))
            <==> exists e :: e in s.requests && s.requests[e].key == k && IsActive(s.requests[e].point)
  {
    var s' := Apply(s, Expire(k));
    assert NoRunYet(s', k);
    if e :| e in s.requests && s.requests[e].key == k && IsActive(s.requests[e].point) {
      var t: State;
      if s.requests[e].point.Running? { t := RunningStores(s', e); }
      else if s.requests[e].point.PutReading? { t := PutReadingStores(s', e); }
      else { t := PutWritingStores(s', e); }
    } else {
      assert Prompt(s, Expire(k));
      PromptStepKeeps(s, Expire(k));
      forall t | PromptlyReachable(s', t) ensures !Unfounded(t) {
        var steps :| PromptlyReaches(s', steps, t);
        PromptIsFounded(s', steps, t);
      }
    }
  }
}
