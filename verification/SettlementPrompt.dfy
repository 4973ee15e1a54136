/** Runs in which no call outlives the time to live of a record. */
module SettlementPrompt {
  import opened Common
  import opened XrplLedger
  import opened Settlement
  import opened SettlementSafety
  import opened SettlementBroadcast
  import opened SettlementEviction

  // ---- How a step changes the counts of a hash ----

  lemma QuietTally(s: State, step: Step, tx: Tx)
    requires Enabled(s, step) && IsCallStep(step) && !step.Submit?
    requires step.ReserveHash? ==> s.calls[step.call].fp.tx in s.store
    ensures TallyOf(Apply(s, step).log, tx) == TallyOf(s.log, tx)
  {
    QuietSteps(s, step);
    SilentTally(s.log, CallEffect(s, step).events, tx);
  }

  lemma SubmitTally(s: State, step: Step, tx: Tx)
    requires Enabled(s, step) && step.Submit?
    ensures TallyOf(Apply(s, step).log, tx)
         == Count(TallyOf(s.log, tx), Submitted(step.call, s.calls[step.call].fp), tx)
  {
    var more := SubmitEvents(s, step);
    SubmittedTally(s.log, Submitted(step.call, s.calls[step.call].fp), more, tx);
  }

  lemma ReserveTally(s: State, step: Step, tx: Tx)
    requires Enabled(s, step) && step.ReserveHash? && s.calls[step.call].fp.tx !in s.store
    ensures TallyOf(Apply(s, step).log, tx)
         == Count(TallyOf(s.log, tx), Reserved(step.call, s.calls[step.call].fp), tx)
  {
    TallyAppend(s.log, Reserved(step.call, s.calls[step.call].fp), tx);
  }

  predicate ReservesAt(s: State, step: Step, tx: Tx)
    requires Enabled(s, step)
  {
    step.ReserveHash? && s.calls[step.call].fp.tx == tx && tx !in s.store
  }

  predicate SubmitsAt(s: State, step: Step, tx: Tx)
    requires Enabled(s, step)
  {
    step.Submit? && s.calls[step.call].fp.tx == tx
  }

  /** The counts of a hash move only with its own reservation, submission or eviction. */
  lemma StepCounts(s: State, step: Step, tx: Tx)
    requires Enabled(s, step)
    ensures var before, after := TallyOf(s.log, tx), TallyOf(Apply(s, step).log, tx);
            if ReservesAt(s, step, tx)
            then after == before.(reserved := before.reserved + 1, bound := Some(s.calls[step.call].fp))
            else if SubmitsAt(s, step, tx) then after == before.(submitted := before.submitted + 1)
            else if step == Evict(tx) then after == before.(evicted := before.evicted + 1)
            else after == before
  {
    if step.CloseLedger? || step.Start? {
    } else if step.Evict? {
      TallyAppend(s.log, Evicted(step.tx), tx);
    } else if step.Submit? {
      SubmitTally(s, step, tx);
    } else if step.ReserveHash? && s.calls[step.call].fp.tx !in s.store {
      ReserveTally(s, step, tx);
    } else {
      QuietTally(s, step, tx);
    }
  }

  // ---- Prompt runs: at most one broadcast ever ----

  /** A record is evicted only when no call for it can still submit, which is exactly when the
      eviction is harmless. */
  ghost predicate Prompt(s: State, step: Step) {
    step.Evict? ==> forall c :: c in s.calls && s.calls[c].fp.tx == step.tx ==> !CanSubmit(s.ledger, s.calls[c])
  }

  ghost predicate PromptlyReaches(s: State, steps: seq<Step>, t: State)
    decreases |steps|
  {
    if steps == [] then s == t
    else && Enabled(s, steps[0]) && Prompt(s, steps[0])
         && PromptlyReaches(Apply(s, steps[0]), steps[1..], t)
  }

  ghost predicate PromptInv(s: State) {
    && Inv(s) && TallyInv(s)
    && forall tx :: TallyOf(s.log, tx).evicted > 0 ==> NoneCanSubmit(s, tx) && TallyOf(s.log, tx).submitted <= 1
  }

  lemma PromptTx(s: State, step: Step, tx: Tx)
    requires PromptInv(s) && Enabled(s, step) && Prompt(s, step)
    requires TallyOf(Apply(s, step).log, tx).evicted > 0
    ensures NoneCanSubmit(Apply(s, step), tx) && TallyOf(Apply(s, step).log, tx).submitted <= 1
  {
    StepCounts(s, step, tx);
    assert TxTallied(s, tx);
    if step == Evict(tx) {
      JustifiedIsDead(s.ledger, s.store[tx].body);
    } else {
      assert NoneCanSubmit(s, tx);
      NoneCanSubmitStays(s, step, tx);
    }
  }

  lemma PromptStepKeeps(s: State, step: Step)
    requires PromptInv(s) && Enabled(s, step) && Prompt(s, step)
    ensures PromptInv(Apply(s, step))
  {
    StepKeepsInv(s, step);
    StepKeepsTally(s, step);
    var s' := Apply(s, step);
    forall tx | TallyOf(s'.log, tx).evicted > 0
      ensures NoneCanSubmit(s', tx) && TallyOf(s'.log, tx).submitted <= 1
    {
      PromptTx(s, step, tx);
    }
  }

  lemma {:induction false} PromptRunKeeps(s: State, steps: seq<Step>, t: State)
    requires PromptInv(s) && PromptlyReaches(s, steps, t)
    ensures PromptInv(t)
    decreases |steps|
  {
    if steps != [] {
      PromptStepKeeps(s, steps[0]);
      PromptRunKeeps(Apply(s, steps[0]), steps[1..], t);
    }
  }

  lemma InitialIsTallied(s: State)
    requires Initial(s)
    ensures Inv(s) && TallyInv(s)
  {
    forall tx ensures TxTallied(s, tx) {
      assert Holders(s.calls, tx) == {};
    }
  }

  /** If a record is evicted only when no call for it can still submit, a signed transaction is
      broadcast at most once ever, however often its record is evicted. */
  lemma AtMostOneBroadcastEver(s: State, steps: seq<Step>, t: State, tx: Tx)
    requires Initial(s) && PromptlyReaches(s, steps, t)
    ensures TallyOf(t.log, tx).submitted <= 1
  {
    InitialIsTallied(s);
    PromptRunKeeps(s, steps, t);
    assert TxTallied(t, tx);
  }

  // ---- Clean runs: at most one reservation ever ----

  /** The record of `tx` is evicted only when no call for it can still reserve, which is exactly when
      the hash is never reserved again. */
  ghost predicate CleanFor(s: State, step: Step, tx: Tx) {
    step == Evict(tx) ==> forall c :: c in s.calls && s.calls[c].fp.tx == tx ==> !CanReserve(s.ledger, s.calls[c])
  }

  ghost predicate Clean(s: State, step: Step) {
    step.Evict? ==> CleanFor(s, step, step.tx)
  }

  ghost predicate CleanlyReaches(s: State, steps: seq<Step>, t: State)
    decreases |steps|
  {
    if steps == [] then s == t
    else && Enabled(s, steps[0]) && Clean(s, steps[0])
         && CleanlyReaches(Apply(s, steps[0]), steps[1..], t)
  }

  ghost predicate HashClean(s: State, tx: Tx) {
    TallyOf(s.log, tx).evicted > 0 ==> NoneCanReserve(s, tx) && TallyOf(s.log, tx).reserved <= 1
  }

  ghost predicate CleanInv(s: State) {
    Inv(s) && TallyInv(s) && forall tx :: HashClean(s, tx)
  }

  lemma CleanTx(s: State, step: Step, tx: Tx)
    requires Inv(s) && TallyInv(s) && HashClean(s, tx) && Enabled(s, step) && CleanFor(s, step, tx)
    ensures HashClean(Apply(s, step), tx)
  {
    StepCounts(s, step, tx);
    assert TxTallied(s, tx);
    if step == Evict(tx) {
      JustifiedIsDead(s.ledger, s.store[tx].body);
    } else if TallyOf(s.log, tx).evicted > 0 {
      NoneCanReserveStays(s, step, tx);
    }
  }

  lemma CleanStepKeeps(s: State, step: Step)
    requires CleanInv(s) && Enabled(s, step) && Clean(s, step)
    ensures CleanInv(Apply(s, step))
  {
    StepKeepsInv(s, step);
    StepKeepsTally(s, step);
    forall tx ensures HashClean(Apply(s, step), tx) {
      CleanTx(s, step, tx);
    }
  }

  /** In such a state a reservation is the first of its hash, and nothing was submitted before. */
  lemma ReservesFirst(s: State, step: Step, tx: Tx)
    requires TallyInv(s) && HashClean(s, tx) && Enabled(s, step) && ReservesAt(s, step, tx)
    ensures TallyOf(s.log, tx).reserved == 0 && TallyOf(s.log, tx).submitted == 0
  {
    assert TxTallied(s, tx);
    if TallyOf(s.log, tx).evicted > 0 {
      assert CanReserve(s.ledger, s.calls[step.call]);
    }
  }

  // ---- A hash is bound to one request ----

  predicate Carries(pc: Pc) {
    || pc.Submitting? || pc.Waiting? || pc.Reconciling? || pc.SeenAbsent? || pc.Recording?
    || (pc.Finished? && pc.response.Answered?)
  }

  ghost predicate EventBound(log: seq<Event>, e: Event) {
    e.Responded? ==>
      && (e.response.Answered? ==> TallyOf(log, e.fp.tx).bound == Some(e.fp))
      && (e.response.HashMismatch? ==> && TallyOf(log, e.fp.tx).bound.Some?
                                       && TallyOf(log, e.fp.tx).bound != Some(e.fp))
  }

  ghost predicate BoundInv(s: State) {
    && (forall tx :: tx in s.store ==> TallyOf(s.log, tx).bound == Some(s.store[tx].body.fp))
    && (forall c :: c in s.calls && Carries(s.calls[c].pc)
                    ==> TallyOf(s.log, s.calls[c].fp.tx).bound == Some(s.calls[c].fp))
    && (forall i :: 0 <= i < |s.log| ==> EventBound(s.log, s.log[i]))
  }

  lemma {:induction false} UnreservedIsUnbound(log: seq<Event>, tx: Tx)
    ensures TallyOf(log, tx).reserved == 0 <==> TallyOf(log, tx).bound == None
    decreases |log|
  {
    if log != [] { UnreservedIsUnbound(log[..|log| - 1], tx); }
  }

  lemma BoundStays(s: State, step: Step, tx: Tx)
    requires CleanInv(s) && Enabled(s, step) && TallyOf(s.log, tx).bound.Some?
    ensures TallyOf(Apply(s, step).log, tx).bound == TallyOf(s.log, tx).bound
  {
    StepCounts(s, step, tx);
    UnreservedIsUnbound(s.log, tx);
    if ReservesAt(s, step, tx) { ReservesFirst(s, step, tx); }
  }

  /** What a call step adds is bound like what was there. */
  ghost predicate EffectBound(log: seq<Event>, fp: Fingerprint, e: Effect) {
    && (Carries(e.pc) ==> TallyOf(log, fp.tx).bound == Some(fp))
    && (forall tx :: tx in e.store ==> TallyOf(log, tx).bound == Some(e.store[tx].body.fp))
    && (forall i :: 0 <= i < |e.events| ==> EventBound(log, e.events[i]))
  }

  lemma UseRecordBound(s: State, c: nat)
    requires BoundInv(s) && c in s.calls && s.calls[c].fp.tx in s.store
    requires s.store[s.calls[c].fp.tx].body.fp.tx == s.calls[c].fp.tx
    ensures EffectBound(s.log, s.calls[c].fp, UseRecord(s, c, s.store[s.calls[c].fp.tx].body))
  {
  }

  lemma WriteOutcomeBound(s: State, c: nat, r: Record)
    requires BoundInv(s) && c in s.calls && r.fp == s.calls[c].fp
    requires TallyOf(s.log, r.fp.tx).bound == Some(r.fp)
    ensures EffectBound(s.log, s.calls[c].fp, WriteOutcome(s, c, r))
  {
  }

  lemma PlainEffectBound(s: State, step: Step)
    requires BoundInv(s) && Enabled(s, step) && IsCallStep(step)
    requires !step.Get? && !step.GetAgain? && !step.RecordOutcome?
    requires step.ReserveHash? ==> s.calls[step.call].fp.tx in s.store
    ensures EffectBound(s.log, s.calls[step.call].fp, CallEffect(s, step))
  {
    var e := CallEffect(s, step);
    assert e.store == s.store;
    assert Carries(e.pc) ==> Carries(s.calls[step.call].pc);
  }

  lemma CallEffectBound(s: State, step: Step)
    requires Inv(s) && BoundInv(s) && Enabled(s, step) && IsCallStep(step)
    requires step.ReserveHash? ==> s.calls[step.call].fp.tx in s.store
    ensures EffectBound(s.log, s.calls[step.call].fp, CallEffect(s, step))
  {
    var c := step.call;
    if step.Get? || step.GetAgain? {
      if s.calls[c].fp.tx in s.store {
        assert EntryOk(s.ledger, s.calls[c].fp.tx, s.store[s.calls[c].fp.tx]);
        UseRecordBound(s, c);
      }
    } else if step.RecordOutcome? {
      assert CallOk(s.ledger, s.calls[c]);
      WriteOutcomeBound(s, c, s.calls[c].pc.record);
    } else {
      PlainEffectBound(s, step);
    }
  }

  lemma ReserveBound(s: State, step: Step)
    requires CleanInv(s) && BoundInv(s) && Enabled(s, step)
    requires step.ReserveHash? && s.calls[step.call].fp.tx !in s.store
    ensures EffectBound(Apply(s, step).log, s.calls[step.call].fp, CallEffect(s, step))
  {
    var fp := s.calls[step.call].fp;
    ReserveTally(s, step, fp.tx);
    forall tx | tx in s.store ensures TallyOf(Apply(s, step).log, tx).bound == Some(s.store[tx].body.fp) {
      ReserveTally(s, step, tx);
    }
  }

  lemma OldEventsStayBound(s: State, step: Step)
    requires CleanInv(s) && BoundInv(s) && Enabled(s, step)
    ensures forall i :: 0 <= i < |s.log| ==> EventBound(Apply(s, step).log, s.log[i])
    ensures forall c :: c in s.calls && Carries(s.calls[c].pc)
                        ==> TallyOf(Apply(s, step).log, s.calls[c].fp.tx).bound == Some(s.calls[c].fp)
    ensures forall tx :: tx in s.store ==> TallyOf(Apply(s, step).log, tx).bound == Some(s.store[tx].body.fp)
  {
    forall tx | TallyOf(s.log, tx).bound.Some?
      ensures TallyOf(Apply(s, step).log, tx).bound == TallyOf(s.log, tx).bound
    {
      BoundStays(s, step, tx);
    }
    forall i | 0 <= i < |s.log| ensures EventBound(Apply(s, step).log, s.log[i]) {
      assert EventBound(s.log, s.log[i]);
    }
  }

  lemma BoundUnchanged(s: State, step: Step)
    requires Enabled(s, step) && IsCallStep(step)
    requires step.ReserveHash? ==> s.calls[step.call].fp.tx in s.store
    ensures forall tx :: TallyOf(Apply(s, step).log, tx).bound == TallyOf(s.log, tx).bound
  {
    forall tx ensures TallyOf(Apply(s, step).log, tx).bound == TallyOf(s.log, tx).bound {
      StepCounts(s, step, tx);
    }
  }

  lemma SameBound(log: seq<Event>, log': seq<Event>, fp: Fingerprint, e: Effect)
    requires EffectBound(log, fp, e)
    requires forall tx :: TallyOf(log', tx).bound == TallyOf(log, tx).bound
    ensures EffectBound(log', fp, e)
  {
  }

  lemma CallStepBound(s: State, step: Step)
    requires CleanInv(s) && BoundInv(s) && Enabled(s, step) && IsCallStep(step)
    ensures EffectBound(Apply(s, step).log, s.calls[step.call].fp, CallEffect(s, step))
  {
    if step.ReserveHash? && s.calls[step.call].fp.tx !in s.store {
      ReserveBound(s, step);
    } else {
      CallEffectBound(s, step);
      BoundUnchanged(s, step);
      SameBound(s.log, Apply(s, step).log, s.calls[step.call].fp, CallEffect(s, step));
    }
  }

  lemma CommitBound(s: State, s': State, c: nat, e: Effect)
    requires c in s.calls && s' == Commit(s, c, e) && EffectBound(s'.log, s.calls[c].fp, e)
    requires forall i :: 0 <= i < |s.log| ==> EventBound(s'.log, s.log[i])
    requires forall d :: d in s.calls && Carries(s.calls[d].pc)
                         ==> TallyOf(s'.log, s.calls[d].fp.tx).bound == Some(s.calls[d].fp)
    ensures BoundInv(s')
  {
  }

  lemma OtherStepBound(s: State, step: Step)
    requires CleanInv(s) && BoundInv(s) && Enabled(s, step) && !IsCallStep(step)
    ensures BoundInv(Apply(s, step))
  {
    OldEventsStayBound(s, step);
  }

  lemma StepKeepsBound(s: State, step: Step)
    requires CleanInv(s) && BoundInv(s) && Enabled(s, step)
    ensures BoundInv(Apply(s, step))
  {
    if IsCallStep(step) {
      OldEventsStayBound(s, step);
      CallStepBound(s, step);
      CommitBound(s, Apply(s, step), step.call, CallEffect(s, step));
    } else {
      OtherStepBound(s, step);
    }
  }

  lemma {:induction false} CleanRunKeepsBound(s: State, steps: seq<Step>, t: State)
    requires CleanInv(s) && BoundInv(s) && CleanlyReaches(s, steps, t)
    ensures CleanInv(t) && BoundInv(t)
    decreases |steps|
  {
    if steps != [] {
      CleanStepKeeps(s, steps[0]);
      StepKeepsBound(s, steps[0]);
      CleanRunKeepsBound(Apply(s, steps[0]), steps[1..], t);
    }
  }

  /** If a record is evicted only when no call for it can still reserve, one hash answers for one
      request only: two requests that both got a terminal answer for a hash are the same request,
      and a request that got one is never told that the hash belongs to different requirements. */
  lemma OneRequestPerHash(s: State, steps: seq<Step>, t: State, i: nat, j: nat)
    requires Initial(s) && CleanlyReaches(s, steps, t)
    requires i < |t.log| && t.log[i].Responded? && t.log[i].response.Answered?
    requires j < |t.log| && t.log[j].Responded? && t.log[i].fp.tx == t.log[j].fp.tx
    ensures t.log[j].response.Answered? ==> t.log[i].fp == t.log[j].fp
    ensures t.log[j].response.HashMismatch? ==> t.log[i].fp != t.log[j].fp
  {
    InitialIsTallied(s);
    CleanRunKeepsBound(s, steps, t);
    assert EventBound(t.log, t.log[i]) && EventBound(t.log, t.log[j]);
  }
}
