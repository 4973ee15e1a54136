/** Which response each call gets: exactly when a hash is refused as another request's, reported,
    left pending or rejected, and that a call answers once. */
module SettlementAnswers {
  import opened Common
  import opened XrplLedger
  import opened Settlement
  import opened SettlementSafety
  import opened SettlementReach

  /** The step logs this response of its call and nothing else. */
  predicate LogsResponse(s: State, step: Step, response: Response)
    requires Enabled(s, step) && IsCallStep(step)
  {
    Apply(s, step).log == s.log + [Responded(step.call, s.calls[step.call].fp, response)]
  }

  predicate LogsNothing(s: State, step: Step)
    requires Enabled(s, step) && IsCallStep(step)
  {
    Apply(s, step).log == s.log
  }

  // ---- Reading the store ----

  /** A call that finds its hash stored: another request's hash is refused as a mismatch, a terminal
      record of its own is reported as it stands, and a pending one is reconciled without a word. */
  lemma ReadAnswersExactly(s: State, step: Step)
    requires Enabled(s, step) && (step.Get? || step.GetAgain?) && s.calls[step.call].fp.tx in s.store
    ensures var fp := s.calls[step.call].fp;
            var r := s.store[fp.tx].body;
            && (LogsResponse(s, step, HashMismatch) <==> r.fp != fp)
            && (LogsResponse(s, step, Answered(r)) <==> r.fp == fp && r.outcome.Some?)
            && (LogsNothing(s, step) <==> r.fp == fp && r.outcome == None)
            && (r.fp == fp && r.outcome == None ==> Apply(s, step).calls[step.call].pc == Reconciling(r))
            && Apply(s, step).store == s.store
  {
    var fp := s.calls[step.call].fp;
    var r := s.store[fp.tx].body;
    assert s.log + [] == s.log;
    var mismatch, answered := Responded(step.call, fp, HashMismatch), Responded(step.call, fp, Answered(r));
    assert (s.log + [mismatch])[|s.log|] != (s.log + [answered])[|s.log|];
  }

  /** A call that does not: the first read goes on to verify, the second leaves the payment pending. */
  lemma MissExactly(s: State, c: nat)
    requires c in s.calls && s.calls[c].fp.tx !in s.store
    ensures Enabled(s, Get(c)) ==>
              && Apply(s, Get(c)).log == s.log + [VerifyStarted(c, s.calls[c].fp)]
              && Apply(s, Get(c)).calls[c].pc == CheckingLedger
    ensures Enabled(s, GetAgain(c)) ==> LogsResponse(s, GetAgain(c), StillPending)
  {
  }

  // ---- Verifying ----

  /** Both ledger checks, at one ledger: the call passes exactly when LastLedgerSequence lies within
      the window and the slot is available, and is refused otherwise. */
  lemma VerifiedExactly(s: State, c: nat)
    requires c in s.calls && s.calls[c].pc.CheckingLedger?
    ensures var tx, n := s.calls[c].fp.tx, s.ledger.index;
            var inWindow := n + 1 <= tx.last <= n + (s.calls[c].fp.req.timeout + 4) / 5 + 2;
            && (!inWindow ==> LogsResponse(s, VerifyLedger(c), Invalid))
            && (inWindow ==>
                  && LogsNothing(s, VerifyLedger(c))
                  && var s1 := Apply(s, VerifyLedger(c));
                  && Enabled(s1, VerifyAccount(c))
                  && (SlotAvailable(s.ledger, tx) ==> Apply(s1, VerifyAccount(c)).calls[c].pc == Verified)
                  && (!SlotAvailable(s.ledger, tx) ==> LogsResponse(s1, VerifyAccount(c), Invalid)))
  {
    assert s.log + [] == s.log;
  }

  // ---- Waiting and reconciling ----

  /** The step leaves the payment pending exactly where the outcome is unknown. */
  lemma PendingExactly(s: State, step: Step)
    requires Enabled(s, step) && IsCallStep(step) && !step.Get?
    ensures (exists k :: |s.log| <= k < |Apply(s, step).log|
                         && Apply(s, step).log[k] == Responded(step.call, s.calls[step.call].fp, StillPending))
            <==> || (step.GetAgain? && s.calls[step.call].fp.tx !in s.store)
                 || (step.Submit? && !step.answered)
                 || (step.Poll? && s.calls[step.call].pc.polls == 0)
                 || step.LookupUncertain?
                 || (step.ReadExpiryLedger?
                     && !(step.available && s.calls[step.call].pc.record.fp.tx.last <= s.ledger.index))
  {
    var c := step.call;
    var e := CallEffect(s, step);
    assert Apply(s, step).log == s.log + e.events;
    if |e.events| > 0 { assert Apply(s, step).log[|s.log| + |e.events| - 1] == e.events[|e.events| - 1]; }
    PendingIsLast(s, step);
  }

  /** A pending response is the last thing its step logs. */
  lemma PendingIsLast(s: State, step: Step)
    requires Enabled(s, step) && IsCallStep(step)
    ensures var e := CallEffect(s, step);
            forall k :: 0 <= k < |e.events| && e.events[k] == Responded(step.call, s.calls[step.call].fp, StillPending)
                        ==> k == |e.events| - 1
  {
  }

  /** Polling ends: a call that never sees its transaction asks as often as it may and then answers
      pending, leaving its record for others. */
  lemma {:induction false} PollsRunOut(s: State, c: nat) returns (t: State)
    requires c in s.calls && s.calls[c].pc.Waiting?
    ensures Calmly(s, t) && t.store == s.store && t.ledger == s.ledger
    ensures t.log == s.log + [Responded(c, s.calls[c].fp, StillPending)]
    ensures c in t.calls && t.calls[c] == Call(s.calls[c].fp, Finished(StillPending))
    decreases s.calls[c].pc.polls
  {
    var s1 := Apply(s, Poll(c, false));
    Stay(s);
    CalmStep(s, s, Poll(c, false));
    if s.calls[c].pc.polls == 0 {
      t := s1;
    } else {
      assert s.log + [] == s.log;
      t := PollsRunOut(s1, c);
      CalmlyThen(s, s1, t);
    }
  }

  /** Writing an outcome by status name: a pending record takes it and gets an expiry, a failed one
      gives way to a success only, a validated one stays. */
  lemma OutcomeIsStored(s: State, c: nat)
    requires Inv(s) && Enabled(s, RecordOutcome(c)) && s.calls[c].fp.tx in s.store
    ensures var tx, r := s.calls[c].fp.tx, s.calls[c].pc.record;
            var before, after := s.store[tx], Apply(s, RecordOutcome(c)).store[tx];
            && (before.body.outcome == None || (before.body.outcome.value.Failure? && r.outcome == Some(Success))
                ==> after.body == r)
            && (before.body.outcome == Some(Success) ==> after.body == before.body)
            && (before.body.outcome.Some? && before.body.outcome.value.Failure? && r.outcome != Some(Success)
                ==> after.body == before.body)
            && after.expiring
  {
    assert CallOk(s.ledger, s.calls[c]);
    assert EntryOk(s.ledger, s.calls[c].fp.tx, s.store[s.calls[c].fp.tx]);
  }

  // ---- One call, one response ----

  predicate RespondedBy(e: Event, c: nat) { e.Responded? && e.call == c }

  ghost predicate AnswersOnce(s: State) {
    && (forall i :: 0 <= i < |s.log| && s.log[i].Responded?
                    ==> s.log[i].call in s.calls && s.calls[s.log[i].call].pc == Finished(s.log[i].response))
    && (forall i, j :: 0 <= i < j < |s.log| && s.log[i].Responded? && s.log[j].Responded?
                       ==> s.log[i].call != s.log[j].call)
  }

  /** A step responds at most once, for its own call, which it finishes. */
  lemma StepResponse(s: State, step: Step)
    requires Enabled(s, step) && IsCallStep(step)
    ensures var e := CallEffect(s, step);
            && (forall k :: 0 <= k < |e.events| && e.events[k].Responded?
                            ==> e.events[k].call == step.call && e.pc == Finished(e.events[k].response)
                                && k == |e.events| - 1)
            && !s.calls[step.call].pc.Finished?
  {
  }

  lemma StepAnswersOnce(s: State, step: Step)
    requires AnswersOnce(s) && Enabled(s, step)
    ensures AnswersOnce(Apply(s, step))
  {
    if IsCallStep(step) { StepResponse(s, step); }
  }

  lemma {:induction false} RunAnswersOnce(s: State, steps: seq<Step>, t: State)
    requires AnswersOnce(s) && Reaches(s, steps, t)
    ensures AnswersOnce(t)
    decreases |steps|
  {
    if steps != [] {
      StepAnswersOnce(s, steps[0]);
      RunAnswersOnce(Apply(s, steps[0]), steps[1..], t);
    }
  }

  /** In every run a call responds at most once. */
  lemma OneResponsePerCall(s: State, steps: seq<Step>, t: State, i: nat, j: nat)
    requires Initial(s) && Reaches(s, steps, t) && i < j < |t.log| && t.log[i].Responded? && t.log[j].Responded?
    ensures t.log[i].call != t.log[j].call
  {
    RunAnswersOnce(s, steps, t);
  }

  /** So a call that reads its hash while it is stored for another fingerprint is told so in every
      run: whatever it responds is the mismatch, never pending and never an answer. */
  lemma MismatchIsTheOnlyAnswer(
    s: State, before: seq<Step>, m: State, step: Step, after: seq<Step>, t: State, k: nat)
    requires Initial(s) && Reaches(s, before, m) && Enabled(m, step) && (step.Get? || step.GetAgain?)
    requires var fp := m.calls[step.call].fp; fp.tx in m.store && m.store[fp.tx].body.fp != fp
    requires Reaches(Apply(m, step), after, t) && k < |t.log| && RespondedBy(t.log[k], step.call)
    ensures t.log[k].response == HashMismatch
    ensures exists i :: 0 <= i < |t.log| && t.log[i] == Responded(step.call, m.calls[step.call].fp, HashMismatch)
  {
    var m' := Apply(m, step);
    ReadAnswersExactly(m, step);
    RunAnswersOnce(s, before, m);
    StepAnswersOnce(m, step);
    LogGrows(m', after, t);
    RunAnswersOnce(m', after, t);
    assert t.log[|m.log|] == Responded(step.call, m.calls[step.call].fp, HashMismatch);
  }

  lemma {:induction false} LogGrows(s: State, steps: seq<Step>, t: State)
    requires Reaches(s, steps, t)
    ensures s.log <= t.log
    decreases |steps|
  {
    if steps != [] { LogGrows(Apply(s, steps[0]), steps[1..], t); }
  }

  // ---- Which failure is reported ----

  /** The reason for judging a validated answer a failure, case by case. */
  lemma JudgeReasonExactly(answer: Answer, req: Requirements)
    ensures var v, d := Judge(answer, req), answer.delivered;
            && (v == Failure(ResultCode(answer.code)) <==> !answer.succeeded)
            && (v == Failure(MissingMetadata) <==> answer.succeeded && d == NoMetadata)
            && (v == Failure(AmountUnavailable) <==> answer.succeeded && d == Unavailable)
            && v != Failure(Expired)
            && (v == Failure(AmountMismatch) && !JudgeRaises(answer, req) <==>
                  && answer.succeeded && d != NoMetadata && d != Unavailable && !JudgeRaises(answer, req)
                  && !DeliveredExactly(d, req))
  {
  }
}
