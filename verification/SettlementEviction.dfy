/** What can still happen to a transaction once its record is terminal or evicted. */
module SettlementEviction {
  import opened XrplLedger
  import opened Settlement
  import opened SettlementSafety
  import opened SettlementReach

  // ---- How far a call can still get once its blob is dead ----

  /** The call is about to submit, or would still find itself before LastLedgerSequence. */
  predicate CanSubmit(l: Ledger, call: Call) {
    || call.pc.Submitting?
    || (call.pc.Reserving? && call.pc.first < call.fp.tx.last)
    || (call.pc.Verified? && l.index < call.fp.tx.last)
  }

  /** The call is past its ledger check, and its slot may still be or become available. */
  predicate CanReserve(l: Ledger, call: Call) {
    || call.pc.Reserving?
    || call.pc.Verified?
    || (call.pc.CheckingAccount? && !Spent(l, call.fp.tx))
  }

  ghost predicate NoneCanSubmit(s: State, tx: Tx) {
    Dead(s.ledger, tx) && forall c :: c in s.calls && s.calls[c].fp.tx == tx ==> !CanSubmit(s.ledger, s.calls[c])
  }

  ghost predicate NoneCanReserve(s: State, tx: Tx) {
    Dead(s.ledger, tx) && forall c :: c in s.calls && s.calls[c].fp.tx == tx ==> !CanReserve(s.ledger, s.calls[c])
  }

  lemma DeadCallStays(s: State, step: Step)
    requires Enabled(s, step) && IsCallStep(step) && Dead(s.ledger, s.calls[step.call].fp.tx)
    ensures var call, e := s.calls[step.call], CallEffect(s, step);
            && (!CanSubmit(s.ledger, call) ==> !CanSubmit(s.ledger, Call(call.fp, e.pc)))
            && (!CanReserve(s.ledger, call) ==>
                  && !CanReserve(s.ledger, Call(call.fp, e.pc))
                  && (!call.pc.Submitting? ==> !e.pc.Submitting?))
  {
  }

  lemma DeadStays(s: State, step: Step, tx: Tx)
    requires Inv(s) && Enabled(s, step) && Dead(s.ledger, tx)
    ensures Dead(Apply(s, step).ledger, tx)
    ensures Spent(s.ledger, tx) ==> Spent(Apply(s, step).ledger, tx)
    ensures s.ledger.index <= Apply(s, step).ledger.index
  {
    if step.CloseLedger? { CloseGrows(s.ledger, step.batch); }
  }

  lemma NoneCanSubmitStays(s: State, step: Step, tx: Tx)
    requires Inv(s) && Enabled(s, step) && NoneCanSubmit(s, tx)
    ensures NoneCanSubmit(Apply(s, step), tx)
  {
    DeadStays(s, step, tx);
    if IsCallStep(step) && s.calls[step.call].fp.tx == tx { DeadCallStays(s, step); }
  }

  lemma NoneCanReserveStays(s: State, step: Step, tx: Tx)
    requires Inv(s) && Enabled(s, step) && NoneCanReserve(s, tx)
    ensures NoneCanReserve(Apply(s, step), tx)
  {
    DeadStays(s, step, tx);
    if IsCallStep(step) && s.calls[step.call].fp.tx == tx { DeadCallStays(s, step); }
  }

  // ---- What a step adds to the log ----

  predicate Submits(e: Event, tx: Tx) { e.Submitted? && e.fp.tx == tx }

  predicate Reserves(e: Event, tx: Tx) { e.Reserved? && e.fp.tx == tx }

  predicate LogsNo(s: State, s': State, bad: Event -> bool) {
    s.log <= s'.log && forall k :: |s.log| <= k < |s'.log| ==> !bad(s'.log[k])
  }

  lemma StepSubmits(s: State, step: Step, tx: Tx)
    requires Enabled(s, step)
    ensures LogsNo(s, Apply(s, step), e => Submits(e, tx))
            || (step.Submit? && s.calls[step.call].fp.tx == tx)
  {
  }

  lemma StepReserves(s: State, step: Step, tx: Tx)
    requires Enabled(s, step)
    ensures LogsNo(s, Apply(s, step), e => Reserves(e, tx))
            || (step.ReserveHash? && s.calls[step.call].fp.tx == tx)
  {
  }

  lemma {:induction false} NeverSubmitted(s: State, steps: seq<Step>, t: State, tx: Tx)
    requires Inv(s) && Reaches(s, steps, t) && NoneCanSubmit(s, tx)
    ensures LogsNo(s, t, e => Submits(e, tx))
    decreases |steps|
  {
    if steps != [] {
      StepKeepsInv(s, steps[0]);
      NoneCanSubmitStays(s, steps[0], tx);
      StepSubmits(s, steps[0], tx);
      NeverSubmitted(Apply(s, steps[0]), steps[1..], t, tx);
    }
  }

  lemma {:induction false} NeverReserved(s: State, steps: seq<Step>, t: State, tx: Tx)
    requires Inv(s) && Reaches(s, steps, t) && NoneCanReserve(s, tx)
    ensures LogsNo(s, t, e => Reserves(e, tx))
    decreases |steps|
  {
    if steps != [] {
      StepKeepsInv(s, steps[0]);
      NoneCanReserveStays(s, steps[0], tx);
      StepReserves(s, steps[0], tx);
      NeverReserved(Apply(s, steps[0]), steps[1..], t, tx);
    }
  }

  // ---- Eviction is safe exactly when no call is too far ahead ----

  /** Some continuation logs such an event. */
  ghost predicate Possible(s: State, wanted: Event -> bool) {
    exists t, k :: Reachable(s, t) && |s.log| <= k < |t.log| && wanted(t.log[k])
  }

  lemma SubmittingSubmits(s: State, c: nat)
    requires c in s.calls && s.calls[c].pc.Submitting?
    ensures Possible(s, e => Submits(e, s.calls[c].fp.tx))
  {
    Stay(s);
    OneMore(s, s, Submit(c, true));
    var t := Apply(s, Submit(c, true));
    assert Submits(t.log[|s.log|], s.calls[c].fp.tx);
  }

  lemma LaterIsPossible(s: State, step: Step, wanted: Event -> bool)
    requires Enabled(s, step) && Possible(Apply(s, step), wanted)
    ensures Possible(s, wanted)
  {
    var s' := Apply(s, step);
    var t, k :| Reachable(s', t) && |s'.log| <= k < |t.log| && wanted(t.log[k]);
    Stay(s);
    OneMore(s, s, step);
    Then(s, s', t);
  }

  lemma ReservingSubmits(s: State, c: nat)
    requires c in s.calls && s.calls[c].pc.Reserving? && s.calls[c].pc.first < s.calls[c].fp.tx.last
    requires s.calls[c].fp.tx !in s.store
    ensures Possible(s, e => Submits(e, s.calls[c].fp.tx))
  {
    var s' := Apply(s, ReserveHash(c));
    SubmittingSubmits(s', c);
    assert s'.calls[c].fp == s.calls[c].fp;
    LaterIsPossible(s, ReserveHash(c), e => Submits(e, s.calls[c].fp.tx));
  }

  lemma VerifiedSubmits(s: State, c: nat)
    requires c in s.calls && s.calls[c].pc.Verified? && s.ledger.index < s.calls[c].fp.tx.last
    requires s.calls[c].fp.tx !in s.store
    ensures Possible(s, e => Submits(e, s.calls[c].fp.tx))
  {
    var s' := Apply(s, ReadFirstLedger(c));
    ReservingSubmits(s', c);
    assert s'.calls[c].fp == s.calls[c].fp;
    LaterIsPossible(s, ReadFirstLedger(c), e => Submits(e, s.calls[c].fp.tx));
  }

  /** The exact condition: after the eviction of a settled record, some continuation submits the
      transaction again if and only if some call for it is already about to submit, or has passed
      its checks with LastLedgerSequence still ahead of the index it read or will read. */
  lemma EvictionAllowsSubmitExactlyWhen(s: State, tx: Tx)
    requires Inv(s) && Enabled(s, Evict(tx))
    ensures Possible(Apply(s, Evict(tx)), e => Submits(e, tx))
            <==> exists c :: c in s.calls && s.calls[c].fp.tx == tx && CanSubmit(s.ledger, s.calls[c])
  {
    var s' := Apply(s, Evict(tx));
    StepKeepsInv(s, Evict(tx));
    JustifiedIsDead(s.ledger, s.store[tx].body);
    if c :| c in s.calls && s.calls[c].fp.tx == tx && CanSubmit(s.ledger, s.calls[c]) {
      if s.calls[c].pc.Submitting? { SubmittingSubmits(s', c); }
      else if s.calls[c].pc.Reserving? { ReservingSubmits(s', c); }
      else { VerifiedSubmits(s', c); }
    } else {
      assert NoneCanSubmit(s', tx);
      if Possible(s', e => Submits(e, tx)) {
        var t, k :| Reachable(s', t) && |s'.log| <= k < |t.log| && Submits(t.log[k], tx);
        var steps :| Reaches(s', steps, t);
        NeverSubmitted(s', steps, t, tx);
      }
    }
  }

  // ---- The same for a second reservation ----

  lemma ReservingReserves(s: State, c: nat)
    requires c in s.calls && s.calls[c].pc.Reserving? && s.calls[c].fp.tx !in s.store
    ensures Possible(s, e => Reserves(e, s.calls[c].fp.tx))
  {
    Stay(s);
    OneMore(s, s, ReserveHash(c));
    var t := Apply(s, ReserveHash(c));
    assert Reserves(t.log[|s.log|], s.calls[c].fp.tx);
  }

  lemma VerifiedReserves(s: State, c: nat)
    requires c in s.calls && s.calls[c].pc.Verified? && s.calls[c].fp.tx !in s.store
    ensures Possible(s, e => Reserves(e, s.calls[c].fp.tx))
  {
    var s' := Apply(s, ReadFirstLedger(c));
    ReservingReserves(s', c);
    assert s'.calls[c].fp == s.calls[c].fp;
    LaterIsPossible(s, ReadFirstLedger(c), e => Reserves(e, s.calls[c].fp.tx));
  }

  /** A slot that is not spent can become available: the account opens, its sequence advances, or
      the ticket is created. */
  lemma SlotCanOpen(l: Ledger, tx: Tx) returns (batch: seq<Entry>)
    requires !Spent(l, tx)
    ensures BatchAllowed(l, batch) && SlotAvailable(Close(l, batch), tx)
  {
    var count := if tx.slot.Ticket? then 1 else 0;
    var n := tx.slot.number;
    if SlotAvailable(l, tx) {
      batch := [];
    } else if tx.account in l.accounts {
      batch := [CreateTickets(tx.account, n, count)];
      OneEntry(l, batch[0]);
    } else {
      batch := [OpenAccount(tx.account, n), CreateTickets(tx.account, n, count)];
      var l' := ApplyEntry(l, batch[0]);
      OneEntry(l', batch[1]);
      assert batch[1..] == [batch[1]];
    }
  }

  lemma CheckingReserves(s: State, c: nat)
    requires c in s.calls && s.calls[c].pc.CheckingAccount? && !Spent(s.ledger, s.calls[c].fp.tx)
    requires s.calls[c].fp.tx !in s.store
    ensures Possible(s, e => Reserves(e, s.calls[c].fp.tx))
  {
    var wanted := e => Reserves(e, s.calls[c].fp.tx);
    var batch := SlotCanOpen(s.ledger, s.calls[c].fp.tx);
    var s1 := Apply(s, CloseLedger(batch));
    var s2 := Apply(s1, VerifyAccount(c));
    assert s2.calls[c] == Call(s.calls[c].fp, Verified);
    VerifiedReserves(s2, c);
    LaterIsPossible(s1, VerifyAccount(c), wanted);
    LaterIsPossible(s, CloseLedger(batch), wanted);
  }

  /** After the eviction of a settled record, some continuation reserves the hash again if and only
      if some call for it is past its ledger check and its slot is not seen to be spent. */
  lemma EvictionAllowsReserveExactlyWhen(s: State, tx: Tx)
    requires Inv(s) && Enabled(s, Evict(tx))
    ensures Possible(Apply(s, Evict(tx)), e => Reserves(e, tx))
            <==> exists c :: c in s.calls && s.calls[c].fp.tx == tx && CanReserve(s.ledger, s.calls[c])
  {
    var s' := Apply(s, Evict(tx));
    StepKeepsInv(s, Evict(tx));
    JustifiedIsDead(s.ledger, s.store[tx].body);
    if c :| c in s.calls && s.calls[c].fp.tx == tx && CanReserve(s.ledger, s.calls[c]) {
      if s.calls[c].pc.Reserving? { ReservingReserves(s', c); }
      else if s.calls[c].pc.Verified? { VerifiedReserves(s', c); }
      else { CheckingReserves(s', c); }
    } else {
      assert NoneCanReserve(s', tx);
      if Possible(s', e => Reserves(e, tx)) {
        var t, k :| Reachable(s', t) && |s'.log| <= k < |t.log| && Reserves(t.log[k], tx);
        var steps :| Reaches(s', steps, t);
        NeverReserved(s', steps, t, tx);
      }
    }
  }

  // ---- A call that starts verifying after the settlement never submits ----

  /** The call has submitted, or will not any more. */
  predicate PastSubmit(pc: Pc) { pc.Waiting? || pc.Recording? || pc.Finished? || pc.Crashed? }

  ghost predicate SubmittedIsPast(s: State) {
    forall k :: 0 <= k < |s.log| && s.log[k].Submitted?
                ==> s.log[k].call in s.calls && PastSubmit(s.calls[s.log[k].call].pc)
  }

  /** The call began its checks when its transaction had been settled. */
  predicate StartsLate(log: seq<Event>, c: nat, tx: Tx) {
    exists i, j :: 0 <= i < j < |log| && log[i] == Settled(tx)
                   && log[j].VerifyStarted? && log[j].call == c && log[j].fp.tx == tx
  }

  /** The call is stuck before a submission that it never made. */
  ghost predicate NeverWill(s: State, c: nat, tx: Tx) {
    && c in s.calls && s.calls[c].fp.tx == tx && Dead(s.ledger, tx)
    && !CanReserve(s.ledger, s.calls[c]) && !s.calls[c].pc.Submitting?
    && forall k :: 0 <= k < |s.log| && s.log[k].Submitted? ==> s.log[k].call != c
  }

  ghost predicate LateInv(s: State) {
    && Inv(s) && SubmittedIsPast(s)
    && forall c, tx :: StartsLate(s.log, c, tx) ==> NeverWill(s, c, tx)
  }

  /** What a call step logs about verifying and submitting. */
  lemma CallEvents(s: State, step: Step)
    requires Enabled(s, step) && IsCallStep(step)
    ensures var call, e := s.calls[step.call], CallEffect(s, step);
            forall k :: 0 <= k < |e.events| ==>
              && (e.events[k].VerifyStarted? ==>
                    && e.events[k].call == step.call && e.events[k].fp == call.fp
                    && call.pc.Started? && e.pc.CheckingLedger? && |e.events| == 1)
              && (e.events[k].Submitted? ==>
                    e.events[k].call == step.call && call.pc.Submitting? && PastSubmit(e.pc))
    ensures PastSubmit(s.calls[step.call].pc) ==> PastSubmit(CallEffect(s, step).pc)
  {
  }

  lemma StepKeepsSubmitted(s: State, step: Step)
    requires SubmittedIsPast(s) && Enabled(s, step)
    ensures SubmittedIsPast(Apply(s, step))
  {
    if IsCallStep(step) { CallEvents(s, step); }
  }

  lemma StepKeepsLate(s: State, step: Step)
    requires LateInv(s) && Enabled(s, step)
    ensures LateInv(Apply(s, step))
  {
    StepKeepsInv(s, step);
    StepKeepsSubmitted(s, step);
    var s' := Apply(s, step);
    forall c, tx | StartsLate(s'.log, c, tx) ensures NeverWill(s', c, tx) {
      if StartsLate(s.log, c, tx) {
        LateCallStays(s, step, c, tx);
      } else {
        LateStartBegins(s, step, c, tx);
        LateCallBegins(s, c, tx);
      }
    }
  }

  lemma LateCallStays(s: State, step: Step, c: nat, tx: Tx)
    requires Inv(s) && NeverWill(s, c, tx) && Enabled(s, step)
    ensures NeverWill(Apply(s, step), c, tx)
  {
    DeadStays(s, step, tx);
    if IsCallStep(step) {
      CallEvents(s, step);
      if step.call == c { DeadCallStays(s, step); }
    }
  }

  /** A late start comes from the call's own store miss. */
  lemma LateStartBegins(s: State, step: Step, c: nat, tx: Tx)
    requires Enabled(s, step) && StartsLate(Apply(s, step).log, c, tx) && !StartsLate(s.log, c, tx)
    ensures step == Get(c) && s.calls[c].fp.tx == tx && tx !in s.store
    ensures exists i :: 0 <= i < |s.log| && s.log[i] == Settled(tx)
  {
    var s' := Apply(s, step);
    var i, j :| 0 <= i < j < |s'.log| && s'.log[i] == Settled(tx)
                && s'.log[j].VerifyStarted? && s'.log[j].call == c && s'.log[j].fp.tx == tx;
    assert IsCallStep(step);
    CallEvents(s, step);
    assert j == |s.log| && s.log[i] == Settled(tx);
  }

  lemma LateCallBegins(s: State, c: nat, tx: Tx)
    requires LateInv(s) && Enabled(s, Get(c)) && s.calls[c].fp.tx == tx && tx !in s.store
    requires exists i :: 0 <= i < |s.log| && s.log[i] == Settled(tx)
    ensures NeverWill(Apply(s, Get(c)), c, tx)
  {
    var i :| 0 <= i < |s.log| && s.log[i] == Settled(tx);
    assert EventOk(s.ledger, s.log[i]);
  }

  lemma {:induction false} RunKeepsLate(s: State, steps: seq<Step>, t: State)
    requires LateInv(s) && Reaches(s, steps, t)
    ensures LateInv(t)
    decreases |steps|
  {
    if steps != [] {
      StepKeepsLate(s, steps[0]);
      RunKeepsLate(Apply(s, steps[0]), steps[1..], t);
    }
  }

  /** Eviction is safe for later calls: in every run, a call that begins to verify a transaction
      after it was settled never submits, whether or not the record is still stored. */
  lemma SettledIsNeverSubmittedLater(s: State, steps: seq<Step>, t: State, i: nat, j: nat, k: nat)
    requires Initial(s) && Reaches(s, steps, t)
    requires i < j < |t.log| && t.log[i].Settled? && t.log[j].VerifyStarted? && t.log[j].fp.tx == t.log[i].tx
    requires k < |t.log| && t.log[k].Submitted?
    ensures t.log[k].call != t.log[j].call
  {
    RunKeepsLate(s, steps, t);
    assert StartsLate(t.log, t.log[j].call, t.log[i].tx);
  }
}
