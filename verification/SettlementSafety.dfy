/** What every run of the settlement protocol keeps. */
module SettlementSafety {
  import opened Common
  import opened XrplLedger
  import opened Settlement
  import Store = SettlementStore

  // ---- Terminal records rest on ledger facts that can never be undone ----

  /** The ledger bears out the record's outcome. */
  ghost predicate Justified(l: Ledger, r: Record) {
    && r.outcome.Some?
    && if r.outcome.value == Failure(Expired) then AuthoritativelyAbsent(l, r)
       else && r.fp.tx in l.included
            && !JudgeRaises(l.included[r.fp.tx].answer, r.fp.req)
            && Judge(l.included[r.fp.tx].answer, r.fp.req) == r.outcome.value
  }

  /** No later verification of the blob can pass. */
  ghost predicate Dead(l: Ledger, tx: Tx) {
    Spent(l, tx) || tx.last <= l.index
  }

  lemma JustifiedIsStable(l: Ledger, l': Ledger, r: Record)
    requires Justified(l, r) && Grows(l, l')
    ensures Justified(l', r)
  {
  }

  lemma JustifiedIsDead(l: Ledger, r: Record)
    requires Justified(l, r) && Wf(l)
    ensures Dead(l, r.fp.tx)
  {
  }

  ghost predicate EntryOk(l: Ledger, tx: Tx, e: Store.Entry<Record>) {
    && e.body.fp.tx == tx
    && e.status == StatusOf(e.body)
    && (e.expiring <==> e.status != Store.Pending)
    && (e.body.outcome.Some? ==> Justified(l, e.body))
  }

  ghost predicate CallOk(l: Ledger, call: Call) {
    match call.pc
    case Submitting(r) => r.fp == call.fp && r.outcome == None
    case Waiting(r, _) => r.fp == call.fp && r.outcome == None
    case Reconciling(r) => r.fp == call.fp && r.outcome == None
    case SeenAbsent(r) => r.fp == call.fp && r.outcome == None && AuthoritativelyAbsent(l, r)
    case Recording(r) => r.fp == call.fp && Justified(l, r)
    case Finished(Answered(r)) => r.fp == call.fp && Justified(l, r)
    case _ => true
  }

  ghost predicate EventOk(l: Ledger, e: Event) {
    match e
    case Responded(_, fp, Answered(r)) => r.fp == fp && Justified(l, r)
    case Settled(tx) => Dead(l, tx)
    case Evicted(tx) => Dead(l, tx)
    case _ => true
  }

  ghost predicate Inv(s: State) {
    && Wf(s.ledger)
    && (forall tx :: tx in s.store ==> EntryOk(s.ledger, tx, s.store[tx]))
    && (forall c :: c in s.calls ==> CallOk(s.ledger, s.calls[c]))
    && (forall i :: 0 <= i < |s.log| ==> EventOk(s.ledger, s.log[i]))
  }

  lemma CloseKeepsInv(s: State, batch: seq<Entry>)
    requires Inv(s) && BatchAllowed(s.ledger, batch)
    ensures Inv(Apply(s, CloseLedger(batch)))
  {
    CloseGrows(s.ledger, batch);
    var l' := Close(s.ledger, batch);
    forall r | Justified(s.ledger, r) ensures Justified(l', r) {
      JustifiedIsStable(s.ledger, l', r);
    }
  }

  ghost predicate EffectOk(s: State, c: nat, e: Effect)
    requires c in s.calls
  {
    && CallOk(s.ledger, Call(s.calls[c].fp, e.pc))
    && (forall tx :: tx in e.store ==> EntryOk(s.ledger, tx, e.store[tx]))
    && (forall i :: 0 <= i < |e.events| ==> EventOk(s.ledger, e.events[i]))
  }

  lemma CommitKeepsInv(s: State, c: nat, e: Effect)
    requires Inv(s) && c in s.calls && EffectOk(s, c, e)
    ensures Inv(Commit(s, c, e))
  {
  }

  lemma UseAnswerOk(s: State, c: nat, r: Record)
    requires Inv(s) && c in s.calls && r.fp == s.calls[c].fp && r.fp.tx in s.ledger.included
    ensures EffectOk(s, c, UseAnswer(s, r))
  {
  }

  lemma WriteOutcomeOk(s: State, c: nat, r: Record)
    requires Inv(s) && c in s.calls && r.fp == s.calls[c].fp && Justified(s.ledger, r)
    ensures EffectOk(s, c, WriteOutcome(s, c, r))
  {
    JustifiedIsDead(s.ledger, r);
  }

  lemma UseRecordOk(s: State, c: nat)
    requires Inv(s) && c in s.calls && s.calls[c].fp.tx in s.store
    ensures EffectOk(s, c, UseRecord(s, c, s.store[s.calls[c].fp.tx].body))
  {
  }

  lemma TryReserveOk(s: State, c: nat, first: nat)
    requires Inv(s) && c in s.calls
    ensures EffectOk(s, c, TryReserve(s, c, first))
  {
  }

  /** Steps that neither read a record or an answer nor write the store. */
  predicate IsPlainStep(step: Step) {
    && IsCallStep(step) && !step.Get? && !step.GetAgain? && !step.ReserveHash?
    && !step.Poll? && !step.Lookup? && !step.RecordOutcome?
  }

  lemma PlainStepOk(s: State, step: Step)
    requires Inv(s) && Enabled(s, step) && IsPlainStep(step)
    ensures EffectOk(s, step.call, CallEffect(s, step))
  {
    assert CallOk(s.ledger, s.calls[step.call]);
  }

  lemma CallEffectOk(s: State, step: Step)
    requires Inv(s) && Enabled(s, step) && IsCallStep(step)
    ensures EffectOk(s, step.call, CallEffect(s, step))
  {
    var c := step.call;
    assert CallOk(s.ledger, s.calls[c]);
    if step.Get? || step.GetAgain? {
      if s.calls[c].fp.tx in s.store { UseRecordOk(s, c); }
    } else if step.ReserveHash? {
      TryReserveOk(s, c, s.calls[c].pc.first);
    } else if step.Lookup? || (step.Poll? && step.found) {
      UseAnswerOk(s, c, s.calls[c].pc.record);
    } else if step.RecordOutcome? {
      WriteOutcomeOk(s, c, s.calls[c].pc.record);
    } else if !step.Poll? {
      PlainStepOk(s, step);
    }
  }

  /** Every step keeps the ledger well formed and every record, call and logged response backed
      by the ledger. */
  lemma StepKeepsInv(s: State, step: Step)
    requires Inv(s) && Enabled(s, step)
    ensures Inv(Apply(s, step))
  {
    if IsCallStep(step) {
      CallEffectOk(s, step);
      CommitKeepsInv(s, step.call, CallEffect(s, step));
    } else {
      match step {
        case CloseLedger(batch) => CloseKeepsInv(s, batch);
        case Start(_, _) =>
        case Evict(tx) => JustifiedIsDead(s.ledger, s.store[tx].body);
      }
    }
  }

  lemma {:induction false} RunKeepsInv(s: State, steps: seq<Step>, t: State)
    requires Inv(s) && Reaches(s, steps, t)
    ensures Inv(t)
    decreases |steps|
  {
    if steps != [] {
      StepKeepsInv(s, steps[0]);
      RunKeepsInv(Apply(s, steps[0]), steps[1..], t);
    }
  }

  // ---- Agreement and honesty of every response ----

  /** The transaction was included below the first ledger that a record tells lookups to search. */
  predicate IncludedTooEarly(l: Ledger, r: Record) {
    r.fp.tx in l.included && l.included[r.fp.tx].index < r.first
  }

  /** Over every interleaving and crash, two terminal responses to the same request agree on
      success and on the failure reason, provided the transaction was not included before the
      first ledger recorded for it. */
  lemma TerminalResponsesAgree(s: State, steps: seq<Step>, t: State, i: nat, j: nat)
    requires Initial(s) && Reaches(s, steps, t)
    requires i < |t.log| && t.log[i].Responded? && t.log[i].response.Answered?
    requires j < |t.log| && t.log[j].Responded? && t.log[j].response.Answered?
    requires t.log[i].fp == t.log[j].fp
    requires !IncludedTooEarly(t.ledger, t.log[i].response.record)
    requires !IncludedTooEarly(t.ledger, t.log[j].response.record)
    ensures t.log[i].response.record.outcome == t.log[j].response.record.outcome
  {
    RunKeepsInv(s, steps, t);
    assert EventOk(t.ledger, t.log[i]) && EventOk(t.ledger, t.log[j]);
  }

  predicate SaysExpired(r: Record) { r.outcome == Some(Failure(Expired)) }

  /** The only disagreement there can be: two terminal responses to the same request differ exactly
      when one of them says "transaction_expired" and the other does not, and then the transaction
      was included below the first ledger recorded by the one that does. */
  lemma DisagreementIsEarlyInclusion(s: State, steps: seq<Step>, t: State, i: nat, j: nat)
    requires Initial(s) && Reaches(s, steps, t)
    requires i < |t.log| && t.log[i].Responded? && t.log[i].response.Answered?
    requires j < |t.log| && t.log[j].Responded? && t.log[j].response.Answered?
    requires t.log[i].fp == t.log[j].fp
    ensures var a, b := t.log[i].response.record, t.log[j].response.record;
            && (a.outcome != b.outcome <==> SaysExpired(a) != SaysExpired(b))
            && (SaysExpired(a) && !SaysExpired(b) ==> IncludedTooEarly(t.ledger, a))
  {
    RunKeepsInv(s, steps, t);
    assert EventOk(t.ledger, t.log[i]) && EventOk(t.ledger, t.log[j]);
  }

  /** "transaction_expired" is answered only for a transaction that no ledger from the recorded
      first one on holds, in the final state of any run that continues after the answer. */
  lemma ExpiredNeverValidates(s: State, steps: seq<Step>, t: State, i: nat)
    requires Initial(s) && Reaches(s, steps, t)
    requires i < |t.log| && t.log[i].Responded? && t.log[i].response.Answered?
    requires t.log[i].response.record.outcome == Some(Failure(Expired))
    ensures t.log[i].fp.tx in t.ledger.included
            ==> t.ledger.included[t.log[i].fp.tx].index < t.log[i].response.record.first
    ensures t.log[i].fp.tx.last <= t.ledger.index
  {
    RunKeepsInv(s, steps, t);
    assert EventOk(t.ledger, t.log[i]);
  }

  /** Every success rests on a validated tesSUCCESS of that very hash which delivered exactly the
      required amount, asset and issuer of the fingerprint that asked. */
  lemma SuccessIsHonest(s: State, steps: seq<Step>, t: State, i: nat)
    requires Initial(s) && Reaches(s, steps, t)
    requires i < |t.log| && t.log[i].Responded? && t.log[i].response.Answered?
    requires t.log[i].response.record.outcome == Some(Success)
    ensures var fp := t.log[i].fp;
            && fp.tx in t.ledger.included
            && t.ledger.included[fp.tx].answer.succeeded
            && DeliveredExactly(t.ledger.included[fp.tx].answer.delivered, fp.req)
  {
    RunKeepsInv(s, steps, t);
    assert EventOk(t.ledger, t.log[i]);
    JudgeSucceedsExactly(t.ledger.included[t.log[i].fp.tx].answer, t.log[i].fp.req);
  }
}
