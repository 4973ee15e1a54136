/** Concrete runs: the protocol does settle, and the side conditions of the safety theorems are
    needed. */
module SettlementRuns {
  import opened Common
  import opened XrplLedger
  import opened Settlement
  import opened SettlementSafety
  import opened SettlementReach
  import opened SettlementAgreement
  import opened SettlementEviction
  import opened SettlementPrompt
  import Store = SettlementStore

  const TX := Tx(1, Sequence(5), 13, 0)
  const REQ := Requirements("xrpl:1", "payee", "XRP", "", 100.0, 60)
  const FP := Fingerprint(TX, REQ, Some(0), 0)
  const PAID := Answer(true, 0, DropsText(100))
  const START := State(Ledger(10, map[1 := Account(5, {})], map[]), map[], map[], [])
  const SUCCESS := Record(FP, 10, Some(Success))

  function AtPoint(t: State, c: nat, pc: Pc): State {
    State(t.ledger, t.store, t.calls[c := Call(FP, pc)], t.log)
  }

  lemma SampleStarts(t: State, c: nat)
    requires Reachable(START, t) && c !in t.calls
    ensures Reachable(START, AtPoint(t, c, Started))
  {
    OneMore(START, t, Start(c, FP));
  }

  /** Takes a started call of the sample request until it has passed verification. */
  lemma RunToVerified(t: State, c: nat) returns (t': State)
    requires c in t.calls && t.calls[c] == Call(FP, Started) && TX !in t.store && t.ledger == START.ledger
    ensures Calmly(t, t')
    ensures t' == State(t.ledger, t.store, t.calls[c := Call(FP, Verified)], t.log + [VerifyStarted(c, FP)])
  {
    Stay(t);
    var t1 := State(t.ledger, t.store, t.calls[c := Call(FP, CheckingLedger)], t.log + [VerifyStarted(c, FP)]);
    CallStep(t, t, Get(c), Effect(CheckingLedger, t.store, [VerifyStarted(c, FP)]));
    assert t1.log + [] == t1.log;
    CallStep(t, t1, VerifyLedger(c), Goto(t1, CheckingAccount));
    var t2 := AtPoint(t1, c, CheckingAccount);
    CallStep(t, t2, VerifyAccount(c), Goto(t2, Verified));
    t' := AtPoint(t2, c, Verified);
    assert t'.calls == t.calls[c := Call(FP, Verified)];
  }

  /** Takes a verified call through its first-ledger read and reservation to its submission. */
  lemma RunToSubmitted(t: State, c: nat) returns (t': State)
    requires c in t.calls && t.calls[c] == Call(FP, Verified) && TX !in t.store && t.ledger.index < 13
    ensures Calmly(t, t')
    ensures var r := Record(FP, t.ledger.index, None);
            t' == State(t.ledger, t.store[TX := Store.Entry(Store.Pending, r, false)],
                        t.calls[c := Call(FP, Waiting(r, VALIDATION_TIMEOUT))],
                        t.log + [Reserved(c, FP)] + [Submitted(c, FP)])
  {
    var r := Record(FP, t.ledger.index, None);
    Stay(t);
    CallStep(t, t, ReadFirstLedger(c), Goto(t, Reserving(t.ledger.index)));
    var t1 := AtPoint(t, c, Reserving(t.ledger.index));
    assert t.log + [] == t.log;
    var store := t.store[TX := Store.Entry(Store.Pending, r, false)];
    CallStep(t, t1, ReserveHash(c), Effect(Submitting(r), store, [Reserved(c, FP)]));
    var t2 := State(t.ledger, store, t.calls[c := Call(FP, Submitting(r))], t.log + [Reserved(c, FP)]);
    assert t1.calls[c := Call(FP, Submitting(r))] == t2.calls;
    CallStep(t, t2, Submit(c, true), Effect(Waiting(r, VALIDATION_TIMEOUT), store, [Submitted(c, FP)]));
    t' := State(t.ledger, store, t.calls[c := Call(FP, Waiting(r, VALIDATION_TIMEOUT))],
                t.log + [Reserved(c, FP)] + [Submitted(c, FP)]);
    assert t2.calls[c := Call(FP, Waiting(r, VALIDATION_TIMEOUT))] == t'.calls;
  }

  /** A ledger that closes at index `n` with the sample payment in it. */
  function PaidLedger(n: nat): Ledger {
    Ledger(n, map[1 := Account(6, {})], map[TX := Inclusion(n, PAID)])
  }

  lemma PaymentApplies(l: Ledger)
    requires l == Ledger(l.index, START.ledger.accounts, map[]) && l.index < 13
    ensures EntryAllowed(l, Include(TX, PAID))
    ensures ApplyEntry(l, Include(TX, PAID)) == PaidLedger(l.index + 1).(index := l.index)
  {
    var accounts := map[1 := Account(5, {})];
    assert accounts[1 := Account(6, {})] == map[1 := Account(6, {})];
    assert map[][TX := Inclusion(l.index + 1, PAID)] == map[TX := Inclusion(l.index + 1, PAID)];
  }

  lemma PaymentCloses(l: Ledger)
    requires l == Ledger(l.index, START.ledger.accounts, map[]) && l.index < 13
    ensures BatchAllowed(l, [Include(TX, PAID)])
    ensures Close(l, [Include(TX, PAID)]) == PaidLedger(l.index + 1)
  {
    PaymentApplies(l);
    OneEntry(l, Include(TX, PAID));
  }

  lemma EmptyClose(l: Ledger)
    ensures BatchAllowed(l, []) && Close(l, []) == l.(index := l.index + 1)
  {
  }

  lemma PaymentContinues(t: State) returns (t': State)
    requires t.ledger == START.ledger
    ensures Continues(t, t') && t' == State(PaidLedger(11), t.store, t.calls, t.log)
    ensures Enabled(t, CloseLedger([Include(TX, PAID)])) && t' == Apply(t, CloseLedger([Include(TX, PAID)]))
  {
    PaymentCloses(t.ledger);
    var step := CloseLedger([Include(TX, PAID)]);
    OneStep(t, step);
    assert StartsNone([step]) && EvictsNone([step]);
    t' := Apply(t, step);
  }

  lemma EmptyContinues(t: State) returns (t': State)
    ensures Calmly(t, t') && t' == State(t.ledger.(index := t.ledger.index + 1), t.store, t.calls, t.log)
  {
    EmptyClose(t.ledger);
    Stay(t);
    CalmStep(t, t, CloseLedger([]));
    t' := Apply(t, CloseLedger([]));
  }

  /** A waiting call polls the validated payment and records the success. */
  lemma RunToSettled(t: State, c: nat, r: Record) returns (t': State)
    requires c in t.calls && r.fp == FP && r.outcome == None
    requires t.calls[c] == Call(FP, Waiting(r, VALIDATION_TIMEOUT))
    requires TX in t.ledger.included && t.ledger.included[TX].answer == PAID
    requires TX in t.store && t.store[TX].status == Store.Pending
    ensures Calmly(t, t')
    ensures var r' := r.(outcome := Some(Success));
            t' == State(t.ledger, t.store[TX := Store.Entry(Store.Validated, r', true)],
                        t.calls[c := Call(FP, Finished(Answered(r')))],
                        t.log + ([Settled(TX)] + [Responded(c, FP, Answered(r'))]))
  {
    var r' := r.(outcome := Some(Success));
    Stay(t);
    CallStep(t, t, Poll(c, true), Goto(t, Recording(r')));
    var t1 := AtPoint(t, c, Recording(r'));
    assert t.log + [] == t.log;
    var store := t.store[TX := Store.Entry(Store.Validated, r', true)];
    var events := [Settled(TX)] + [Responded(c, FP, Answered(r'))];
    CallStep(t, t1, RecordOutcome(c), Effect(Finished(Answered(r')), store, events));
    t' := State(t.ledger, store, t.calls[c := Call(FP, Finished(Answered(r')))], t.log + events);
    assert t1.calls[c := Call(FP, Finished(Answered(r')))] == t'.calls;
  }

  /** A started call of the sample request verifies and submits. */
  lemma RunToBroadcast(t: State, c: nat) returns (t': State)
    requires c in t.calls && t.calls[c] == Call(FP, Started) && TX !in t.store && t.ledger == START.ledger
    ensures Calmly(t, t')
    ensures t' == State(t.ledger, t.store[TX := Store.Entry(Store.Pending, Record(FP, 10, None), false)],
                        t.calls[c := Call(FP, Waiting(Record(FP, 10, None), VALIDATION_TIMEOUT))],
                        t.log + [VerifyStarted(c, FP)] + [Reserved(c, FP)] + [Submitted(c, FP)])
  {
    var t1 := RunToVerified(t, c);
    t' := RunToSubmitted(t1, c);
    CalmlyThen(t, t1, t');
    Overwrite(t.calls, c, t1.calls[c], t'.calls[c]);
  }

  lemma Overwrite<K, V>(m: map<K, V>, k: K, a: V, b: V)
    ensures m[k := a][k := b] == m[k := b]
  {
  }

  /** And its payment is included. */
  lemma RunToPaid(t: State, c: nat) returns (t': State)
    requires c in t.calls && t.calls[c] == Call(FP, Started) && TX !in t.store && t.ledger == START.ledger
    ensures Continues(t, t')
    ensures t' == State(PaidLedger(11), t.store[TX := Store.Entry(Store.Pending, Record(FP, 10, None), false)],
                        t.calls[c := Call(FP, Waiting(Record(FP, 10, None), VALIDATION_TIMEOUT))],
                        t.log + [VerifyStarted(c, FP)] + [Reserved(c, FP)] + [Submitted(c, FP)])
  {
    var t1 := RunToBroadcast(t, c);
    t' := PaymentContinues(t1);
    CalmContinues(t, t1);
    ContinuesThen(t, t1, t');
  }

  /** A started call of the sample request reserves, broadcasts and answers with the validated
      success, on a ledger that starts like the sample. */
  lemma RunSettles(t: State, c: nat) returns (t': State)
    requires c in t.calls && t.calls[c] == Call(FP, Started) && TX !in t.store && t.ledger == START.ledger
    ensures Continues(t, t') && t'.ledger == PaidLedger(11)
    ensures t'.calls == t.calls[c := Call(FP, Finished(Answered(SUCCESS)))]
    ensures t'.store == t.store[TX := Store.Entry(Store.Validated, SUCCESS, true)]
    ensures t'.log == t.log + [VerifyStarted(c, FP)] + [Reserved(c, FP)] + [Submitted(c, FP)]
                            + ([Settled(TX)] + [Responded(c, FP, Answered(SUCCESS))])
  {
    var t1 := RunToPaid(t, c);
    t' := RunToSettled(t1, c, Record(FP, 10, None));
    Overwrite(t.calls, c, t1.calls[c], t'.calls[c]);
    Overwrite(t.store, TX, t1.store[TX], t'.store[TX]);
    CalmContinues(t1, t');
    ContinuesThen(t, t1, t');
  }

  /** A call settles: it reserves, broadcasts and answers with the validated success. */
  lemma OneCallSettles() returns (t: State)
    ensures Initial(START) && Reachable(START, t)
    ensures Submitted(1, FP) in t.log && Responded(1, FP, Answered(SUCCESS)) in t.log
  {
    Stay(START);
    SampleStarts(START, 1);
    var s := AtPoint(START, 1, Started);
    t := RunSettles(s, 1);
    Then(START, s, t);
    assert t.log[2] == Submitted(1, FP) && t.log[4] == Responded(1, FP, Answered(SUCCESS));
  }

  // ---- Runs with prompt evictions in which only the facilitator broadcasts ----

  ghost predicate Obeying(t: State) {
    exists steps :: PromptFacilitatedReaches(START, steps, t, TX)
  }

  lemma ObeyingIsReachable(t: State)
    requires Obeying(t)
    ensures Reachable(START, t)
  {
    var steps :| PromptFacilitatedReaches(START, steps, t, TX);
    ForgetRules(START, steps, t);
  }

  lemma {:induction false} ForgetRules(s: State, steps: seq<Step>, t: State)
    requires PromptFacilitatedReaches(s, steps, t, TX)
    ensures Reaches(s, steps, t)
    decreases |steps|
  {
    if steps != [] { ForgetRules(Apply(s, steps[0]), steps[1..], t); }
  }

  lemma ObeyStep(t: State, step: Step) returns (t': State)
    requires Obeying(t) && Enabled(t, step) && Prompt(t, step) && Facilitated(t, step, TX)
    ensures Obeying(t') && t' == Apply(t, step)
  {
    var steps :| PromptFacilitatedReaches(START, steps, t, TX);
    t' := Apply(t, step);
    assert [step][1..] == [];
    assert PromptFacilitatedReaches(t', [], t', TX);
    ObeyingConcat(START, steps, t, [step], t', TX);
  }

  lemma ObeyCalm(t: State, t': State)
    requires Obeying(t) && Calmly(t, t')
    ensures Obeying(t')
  {
    var steps :| PromptFacilitatedReaches(START, steps, t, TX);
    var more :| Reaches(t, more, t') && AllCalm(more);
    CalmObeys(t, more, t', TX);
    ObeyingConcat(START, steps, t, more, t', TX);
  }

  lemma RunToFirstVerified() returns (t: State)
    ensures Obeying(t)
    ensures t == State(START.ledger, map[], map[1 := Call(FP, Verified)], [VerifyStarted(1, FP)])
  {
    assert PromptFacilitatedReaches(START, [], START, TX);
    var s := ObeyStep(START, Start(1, FP));
    t := RunToVerified(s, 1);
    ObeyCalm(s, t);
    assert t.calls == map[1 := Call(FP, Verified)];
    assert [] + [VerifyStarted(1, FP)] == [VerifyStarted(1, FP)];
  }

  /** Call 1 has verified, then call 2 has submitted. */
  lemma RunToSecondSubmitted() returns (t: State)
    ensures Initial(START) && Obeying(t) && t.ledger == START.ledger
    ensures t.calls == map[1 := Call(FP, Verified), 2 := Call(FP, Waiting(Record(FP, 10, None), VALIDATION_TIMEOUT))]
    ensures t.store == map[TX := Store.Entry(Store.Pending, Record(FP, 10, None), false)]
    ensures |t.log| == 4 && t.log[3] == Submitted(2, FP)
  {
    var t1 := RunToFirstVerified();
    var s2 := ObeyStep(t1, Start(2, FP));
    assert s2.calls == map[1 := Call(FP, Verified), 2 := Call(FP, Started)];
    t := RunToBroadcast(s2, 2);
    ObeyCalm(s2, t);
    TwoCalls(s2.calls[1], s2.calls[2], t.calls[2]);
  }

  lemma TwoCalls(a: Call, b: Call, c: Call)
    ensures map[1 := a, 2 := b][2 := c] == map[1 := a, 2 := c]
  {
  }

  /** A payment that was submitted may be included. */
  lemma ObeyPayment(t: State) returns (t': State)
    requires Obeying(t) && t.ledger == START.ledger && WasSubmitted(t.log, TX)
    ensures Obeying(t') && t' == State(PaidLedger(11), t.store, t.calls, t.log)
  {
    t' := PaymentContinues(t);
    var t1 := ObeyStep(t, CloseLedger([Include(TX, PAID)]));
  }

  /** Call 1 has verified when call 2 settles. */
  lemma RunToOvertaken() returns (t: State)
    ensures Initial(START) && Obeying(t) && t.ledger == PaidLedger(11)
    ensures t.calls == map[1 := Call(FP, Verified), 2 := Call(FP, Finished(Answered(SUCCESS)))]
    ensures TX in t.store && t.store[TX].expiring
    ensures Submitted(2, FP) in t.log && Responded(2, FP, Answered(SUCCESS)) in t.log
  {
    var t1 := RunToSecondSubmitted();
    assert Submits(t1.log[3], TX);
    var t2 := ObeyPayment(t1);
    t := RunToSettled(t2, 2, Record(FP, 10, None));
    ObeyCalm(t2, t);
    TwoCalls(t2.calls[1], t2.calls[2], t.calls[2]);
    assert t.log[3] == Submitted(2, FP) && t.log[5] == Responded(2, FP, Answered(SUCCESS));
  }

  /** A call that outlives the record's time to live broadcasts a settled transaction again: it
      verified before the settlement and reserves after the eviction. */
  lemma SlowCallBroadcastsAgain() returns (t: State)
    ensures Initial(START) && Reachable(START, t)
    ensures Submitted(1, FP) in t.log && Submitted(2, FP) in t.log && Evicted(TX) in t.log
  {
    var t1 := RunToOvertaken();
    ObeyingIsReachable(t1);
    OneMore(START, t1, Evict(TX));
    var t2 := Apply(t1, Evict(TX));
    t := RunToSubmitted(t2, 1);
    Then(START, t2, t);
    assert t2.log[|t1.log|] == Evicted(TX);
    assert t1.log <= t2.log <= t.log;
    assert t.log[|t2.log| + 1] == Submitted(1, FP);
  }

  // ---- Disagreement ----

  /** With the payment in ledger 11, call 1 reads its first ledger at 12, and 13 closes. */
  lemma RunToLateRecord(t: State) returns (t': State)
    requires 1 in t.calls && t.calls[1] == Call(FP, Verified) && TX !in t.store && t.ledger == PaidLedger(11)
    ensures Calmly(t, t') && t'.ledger == PaidLedger(11).(index := 13) && t'.calls.Keys == t.calls.Keys
    ensures TX in t'.store && t'.store[TX] == Store.Entry(Store.Pending, Record(FP, 12, None), false)
  {
    var t1 := EmptyContinues(t);
    var t2 := RunToSubmitted(t1, 1);
    t' := EmptyContinues(t2);
    CalmlyThen(t, t1, t2);
    CalmlyThen(t, t2, t');
  }

  /** The payer's own broadcast is included at 11, between the facilitator's verification at 10
      and its first-ledger read at 12; the record then tells lookups to start at 12. */
  lemma RunToEarlyInclusion() returns (steps: seq<Step>, t: State)
    ensures Initial(START) && Reaches(START, steps, t) && EvictsNone(steps)
    ensures t.ledger == PaidLedger(11).(index := 13) && 2 !in t.calls && 3 !in t.calls
    ensures TX in t.store && t.store[TX] == Store.Entry(Store.Pending, Record(FP, 12, None), false)
  {
    var s := Apply(START, Start(1, FP));
    var t1 := RunToVerified(s, 1);
    var t2 := PaymentContinues(t1);
    t := RunToLateRecord(t2);
    CalmContinues(s, t1);
    ContinuesThen(s, t1, t2);
    CalmContinues(t2, t);
    ContinuesThen(s, t2, t);
    steps := FromStart(t);
  }

  lemma FromStart(t: State) returns (steps: seq<Step>)
    requires Continues(Apply(START, Start(1, FP)), t)
    ensures Reaches(START, steps, t) && EvictsNone(steps)
  {
    var s := Apply(START, Start(1, FP));
    OneStep(START, Start(1, FP));
    var more :| Reaches(s, more, t) && StartsNone(more) && EvictsNone(more);
    steps := [Start(1, FP)] + more;
    Concat(START, [Start(1, FP)], s, more, t);
  }

  /** The payer's own early broadcast breaks agreement: in a run without any eviction, two retries
      answer differently.  The run is clean, so what it breaks is the inclusion rule. */
  lemma EarlyInclusionBreaksAgreement() returns (steps: seq<Step>, t: State)
    ensures Initial(START) && CleanlyReaches(START, steps, t) && EvictsNone(steps)
    ensures Disagree(START, t, FP) && !FacilitatedReaches(START, steps, t, TX)
  {
    var before, t1 := RunToEarlyInclusion();
    RunKeepsInv(START, before, t1);
    t := RetriesCanDisagree(t1, TX, 2, 3);
    var more :| Reaches(t1, more, t) && ByRetries(more, 2, 3);
    assert forall k :: 0 <= k < |more| ==> RetryStep(more[k], 2, 3);
    steps := before + more;
    Concat(START, before, t1, more, t);
    assert EvictsNone(steps);
    WithoutEvictionsClean(START, steps, t);
    assert Disagree(START, t, FP);
    DisagreementBreaksARule(steps, t);
  }

  lemma DisagreementBreaksARule(steps: seq<Step>, t: State)
    requires Disagree(START, t, FP)
    ensures !FacilitatedReaches(START, steps, t, TX)
  {
    if FacilitatedReaches(START, steps, t, TX) {
      var i, j :| 0 <= i < |t.log| && 0 <= j < |t.log| && AnswersFor(t.log[i], FP) && AnswersFor(t.log[j], FP)
                  && t.log[i].response.record.outcome != t.log[j].response.record.outcome;
      FacilitatedAnswersAgree(START, steps, t, FP, i, j);
    }
  }

  /** A verified call reads its first ledger past LastLedgerSequence, reserves a hash whose record
      was evicted, and does not find what was included below that ledger. */
  lemma RunToLateExpired(t: State, c: nat) returns (t': State)
    requires c in t.calls && t.calls[c] == Call(FP, Verified) && TX !in t.store
    requires t.ledger == PaidLedger(11).(index := 13)
    ensures Calmly(t, t')
    ensures t' == State(t.ledger, t.store[TX := Store.Entry(Store.Pending, Record(FP, 13, None), false)],
                        t.calls[c := Call(FP, SeenAbsent(Record(FP, 13, None)))], t.log + [Reserved(c, FP)])
  {
    var r := Record(FP, 13, None);
    Stay(t);
    CallStep(t, t, ReadFirstLedger(c), Goto(t, Reserving(13)));
    var t1 := AtPoint(t, c, Reserving(13));
    assert t.log + [] == t.log;
    var store := t.store[TX := Store.Entry(Store.Pending, r, false)];
    CallStep(t, t1, ReserveHash(c), Effect(Reconciling(r), store, [Reserved(c, FP)]));
    var t2 := State(t.ledger, store, t.calls[c := Call(FP, Reconciling(r))], t.log + [Reserved(c, FP)]);
    assert t1.calls[c := Call(FP, Reconciling(r))] == t2.calls;
    CallStep(t, t2, LookupAbsent(c), Goto(t2, SeenAbsent(r)));
    t' := AtPoint(t2, c, SeenAbsent(r));
    assert t2.log + [] == t2.log;
    assert t'.calls == t.calls[c := Call(FP, SeenAbsent(r))];
  }

  lemma RunToExpiredAnswer(t: State, c: nat, r: Record) returns (t': State)
    requires c in t.calls && r.fp == FP && t.calls[c] == Call(FP, SeenAbsent(r)) && t.ledger.index >= 13
    ensures Calmly(t, t') && t.log < t'.log
    ensures t'.log[|t'.log| - 1] == Responded(c, FP, Answered(r.(outcome := Some(Failure(Expired)))))
  {
    var x := r.(outcome := Some(Failure(Expired)));
    Stay(t);
    CallStep(t, t, ReadExpiryLedger(c, true), Goto(t, Recording(x)));
    var t1 := AtPoint(t, c, Recording(x));
    assert t.log + [] == t.log;
    CalmStep(t, t1, RecordOutcome(c));
    t' := Apply(t1, RecordOutcome(c));
  }

  lemma TooLateToSubmit(t: State)
    requires t.calls == map[1 := Call(FP, Verified), 2 := Call(FP, Finished(Answered(SUCCESS)))]
    requires t.ledger.index >= 13
    ensures Prompt(t, Evict(TX))
  {
    forall c | c in t.calls ensures !CanSubmit(t.ledger, t.calls[c]) {
    }
  }

  /** The record of a settled payment is evicted past LastLedgerSequence, when no call can submit
      it any more, while call 1 is still between its checks and its reservation. */
  lemma RunToPromptEviction() returns (t: State)
    ensures Initial(START) && Obeying(t) && Enabled(t, Evict(TX)) && Prompt(t, Evict(TX))
    ensures t.ledger == PaidLedger(11).(index := 13) && 1 in t.calls && t.calls[1] == Call(FP, Verified)
    ensures Responded(2, FP, Answered(SUCCESS)) in t.log
  {
    var t1 := RunToOvertaken();
    var t2 := EmptyContinues(t1);
    t := EmptyContinues(t2);
    CalmlyThen(t1, t2, t);
    ObeyCalm(t1, t);
    TooLateToSubmit(t);
  }

  lemma RunToEvicted() returns (t: State)
    ensures Initial(START) && Obeying(t) && t.ledger == PaidLedger(11).(index := 13) && TX !in t.store
    ensures 1 in t.calls && t.calls[1] == Call(FP, Verified)
    ensures Responded(2, FP, Answered(SUCCESS)) in t.log
  {
    var t1 := RunToPromptEviction();
    t := ObeyStep(t1, Evict(TX));
    assert t.log == t1.log + [Evicted(TX)];
  }

  /** After that eviction call 1 answers "transaction_expired". */
  lemma RunToSlowAnswer(t: State) returns (t': State)
    requires 1 in t.calls && t.calls[1] == Call(FP, Verified) && TX !in t.store
    requires t.ledger == PaidLedger(11).(index := 13)
    ensures Calmly(t, t') && t.log < t'.log
    ensures t'.log[|t'.log| - 1] == Responded(1, FP, Answered(Record(FP, 13, Some(Failure(Expired)))))
  {
    var t1 := RunToLateExpired(t, 1);
    t' := RunToExpiredAnswer(t1, 1, Record(FP, 13, None));
    CalmlyThen(t, t1, t');
  }

  lemma RunToSlowDisagreement() returns (t: State)
    ensures Initial(START) && Obeying(t) && Disagree(START, t, FP)
  {
    var t1 := RunToEvicted();
    t := RunToSlowAnswer(t1);
    ObeyCalm(t1, t);
    var i :| 0 <= i < |t1.log| && t1.log[i] == Responded(2, FP, Answered(SUCCESS));
    assert t.log[i] == t1.log[i];
    Differ(START, t, FP, i, |t.log| - 1);
  }

  /** Even if every eviction is prompt and nobody but the facilitator broadcasts, a slow call breaks
      agreement: after such an eviction it answers "transaction_expired" for a payment that another
      call reported as settled.  What the run breaks is cleanness. */
  lemma SlowCallBreaksAgreement() returns (steps: seq<Step>, t: State)
    ensures Initial(START) && PromptFacilitatedReaches(START, steps, t, TX)
    ensures Disagree(START, t, FP) && !CleanlyReaches(START, steps, t)
  {
    t := RunToSlowDisagreement();
    steps :| PromptFacilitatedReaches(START, steps, t, TX);
    DisagreementBreaksARule(steps, t);
    if CleanlyReaches(START, steps, t) { BothRules(START, steps, t, TX); }
  }
}
