/** Exactly when terminal answers for one request agree. */
module SettlementAgreement {
  import opened Common
  import opened XrplLedger
  import opened Settlement
  import opened SettlementSafety
  import opened SettlementReach
  import opened SettlementBroadcast
  import opened SettlementEviction
  import opened SettlementPrompt

  predicate AnswersFor(e: Event, fp: Fingerprint) {
    e.Responded? && e.response.Answered? && e.fp == fp
  }

  function RecordIn(pc: Pc): Option<Record> {
    match pc
    case Submitting(r) => Some(r)
    case Waiting(r, _) => Some(r)
    case Reconciling(r) => Some(r)
    case SeenAbsent(r) => Some(r)
    case Recording(r) => Some(r)
    case Finished(Answered(r)) => Some(r)
    case _ => None
  }

  // ---- Where the records of a call step come from ----

  predicate SameSource(a: Record, b: Record) { a.fp == b.fp && a.first == b.first }

  /** The record continues the call's own one or the stored one of its hash. */
  ghost predicate Known(s: State, c: nat, r: Record)
    requires c in s.calls
  {
    var call := s.calls[c];
    || (RecordIn(call.pc).Some? && SameSource(r, RecordIn(call.pc).value))
    || (call.fp.tx in s.store && SameSource(r, s.store[call.fp.tx].body))
  }

  ghost predicate EffectKnown(s: State, c: nat, e: Effect)
    requires c in s.calls
  {
    var fp := s.calls[c].fp;
    && (RecordIn(e.pc).Some? ==> Known(s, c, RecordIn(e.pc).value))
    && (forall i :: 0 <= i < |e.events| && e.events[i].Responded? && e.events[i].response.Answered?
                    ==> e.events[i].fp == fp && Known(s, c, e.events[i].response.record))
    && e.store.Keys == s.store.Keys
    && (forall tx :: tx in e.store && tx != fp.tx ==> e.store[tx] == s.store[tx])
    && (fp.tx in e.store ==> SameSource(e.store[fp.tx].body, s.store[fp.tx].body) || Known(s, c, e.store[fp.tx].body))
  }

  lemma PlainKnown(s: State, step: Step)
    requires Enabled(s, step) && IsCallStep(step) && !step.Get? && !step.GetAgain? && !step.RecordOutcome?
    requires step.ReserveHash? ==> s.calls[step.call].fp.tx in s.store
    ensures EffectKnown(s, step.call, CallEffect(s, step))
  {
    assert CallEffect(s, step).store == s.store;
  }

  lemma WriteOutcomeKnown(s: State, c: nat)
    requires Inv(s) && Enabled(s, RecordOutcome(c))
    ensures EffectKnown(s, c, CallEffect(s, RecordOutcome(c)))
  {
    assert CallOk(s.ledger, s.calls[c]);
  }

  /** Every step but a first reservation only passes records on. */
  lemma RecordsAreKnown(s: State, step: Step)
    requires Inv(s) && Enabled(s, step) && IsCallStep(step)
    requires step.ReserveHash? ==> s.calls[step.call].fp.tx in s.store
    ensures EffectKnown(s, step.call, CallEffect(s, step))
  {
    if step.RecordOutcome? {
      WriteOutcomeKnown(s, step.call);
    } else if !step.Get? && !step.GetAgain? {
      PlainKnown(s, step);
    }
  }

  // ---- Runs in which only a submission of the facilitator brings the transaction in ----

  predicate WasSubmitted(log: seq<Event>, tx: Tx) {
    exists k :: 0 <= k < |log| && Submits(log[k], tx)
  }

  predicate Includes(batch: seq<Entry>, tx: Tx) {
    exists k :: 0 <= k < |batch| && batch[k].Include? && batch[k].tx == tx
  }

  /** A ledger includes the transaction only after some call submitted it. */
  ghost predicate Facilitated(s: State, step: Step, tx: Tx) {
    step.CloseLedger? && Includes(step.batch, tx) ==> WasSubmitted(s.log, tx)
  }

  ghost predicate FacilitatedReaches(s: State, steps: seq<Step>, t: State, tx: Tx)
    decreases |steps|
  {
    if steps == [] then s == t
    else && Enabled(s, steps[0]) && CleanFor(s, steps[0], tx) && Facilitated(s, steps[0], tx)
         && FacilitatedReaches(Apply(s, steps[0]), steps[1..], t, tx)
  }

  /** The weaker rule: evictions are only prompt. */
  ghost predicate PromptFacilitatedReaches(s: State, steps: seq<Step>, t: State, tx: Tx)
    decreases |steps|
  {
    if steps == [] then s == t
    else && Enabled(s, steps[0]) && Prompt(s, steps[0]) && Facilitated(s, steps[0], tx)
         && PromptFacilitatedReaches(Apply(s, steps[0]), steps[1..], t, tx)
  }

  /** A clean run that obeys the inclusion rule obeys both rules of agreement. */
  lemma {:induction false} BothRules(s: State, steps: seq<Step>, t: State, tx: Tx)
    requires CleanlyReaches(s, steps, t) && PromptFacilitatedReaches(s, steps, t, tx)
    ensures FacilitatedReaches(s, steps, t, tx)
    decreases |steps|
  {
    if steps != [] { BothRules(Apply(s, steps[0]), steps[1..], t, tx); }
  }

  lemma {:induction false} WithoutEvictionsClean(s: State, steps: seq<Step>, t: State)
    requires Reaches(s, steps, t) && EvictsNone(steps)
    ensures CleanlyReaches(s, steps, t)
    decreases |steps|
  {
    if steps != [] {
      assert !steps[0].Evict? && EvictsNone(steps[1..]);
      WithoutEvictionsClean(Apply(s, steps[0]), steps[1..], t);
    }
  }

  lemma {:induction false} CalmObeys(s: State, steps: seq<Step>, t: State, tx: Tx)
    requires Reaches(s, steps, t) && AllCalm(steps)
    ensures PromptFacilitatedReaches(s, steps, t, tx)
    decreases |steps|
  {
    if steps != [] {
      assert IsCalm(steps[0]) && AllCalm(steps[1..]);
      CalmObeys(Apply(s, steps[0]), steps[1..], t, tx);
    }
  }

  lemma {:induction false} ObeyingConcat(s: State, steps: seq<Step>, t: State, more: seq<Step>, u: State, tx: Tx)
    requires PromptFacilitatedReaches(s, steps, t, tx) && PromptFacilitatedReaches(t, more, u, tx)
    ensures PromptFacilitatedReaches(s, steps + more, u, tx)
    decreases |steps|
  {
    if steps == [] {
      assert steps + more == more;
    } else {
      ObeyingConcat(Apply(s, steps[0]), steps[1..], t, more, u, tx);
      assert (steps + more)[1..] == steps[1..] + more;
    }
  }

  lemma {:induction false} SubmittedIsCounted(log: seq<Event>, tx: Tx)
    requires WasSubmitted(log, tx)
    ensures TallyOf(log, tx).submitted > 0
    decreases |log|
  {
    var k :| 0 <= k < |log| && Submits(log[k], tx);
    if k < |log| - 1 {
      assert Submits(log[..|log| - 1][k], tx);
      SubmittedIsCounted(log[..|log| - 1], tx);
    }
  }

  lemma {:induction false} NewlyIncluded(l: Ledger, batch: seq<Entry>, tx: Tx)
    requires BatchAllowed(l, batch) && tx !in l.included && tx in ApplyBatch(l, batch).included
    ensures Includes(batch, tx)
    decreases |batch|
  {
    if batch[0].Include? && batch[0].tx == tx {
    } else {
      NewlyIncluded(ApplyEntry(l, batch[0]), batch[1..], tx);
      var k :| 0 <= k < |batch[1..]| && batch[1..][k].Include? && batch[1..][k].tx == tx;
      assert batch[k + 1].Include? && batch[k + 1].tx == tx;
    }
  }

  /** A lookup from `first` on cannot miss the transaction. */
  predicate SeesAll(l: Ledger, tx: Tx, first: nat) {
    first <= l.index && (tx in l.included ==> first <= l.included[tx].index)
  }

  ghost predicate FirstInv(s: State, tx: Tx) {
    && (tx in s.ledger.included ==> WasSubmitted(s.log, tx))
    && (tx in s.store ==> SeesAll(s.ledger, tx, s.store[tx].body.first))
    && (forall c :: c in s.calls && s.calls[c].fp.tx == tx ==> CallSeesAll(s.ledger, s.calls[c]))
    && (forall i :: 0 <= i < |s.log| ==> EventSeesAll(s.ledger, tx, s.log[i]))
  }

  ghost predicate CallSeesAll(l: Ledger, call: Call) {
    && (call.pc.Reserving? ==> call.pc.first <= l.index)
    && (RecordIn(call.pc).Some? ==> SeesAll(l, call.fp.tx, RecordIn(call.pc).value.first))
  }

  ghost predicate EventSeesAll(l: Ledger, tx: Tx, e: Event) {
    e.Responded? && e.response.Answered? && e.fp.tx == tx ==> SeesAll(l, tx, e.response.record.first)
  }

  lemma CloseKeepsFirst(s: State, batch: seq<Entry>, tx: Tx)
    requires Inv(s) && FirstInv(s, tx) && BatchAllowed(s.ledger, batch) && Facilitated(s, CloseLedger(batch), tx)
    ensures FirstInv(Apply(s, CloseLedger(batch)), tx)
  {
    var l' := Close(s.ledger, batch);
    CloseGrows(s.ledger, batch);
    if tx !in s.ledger.included && tx in l'.included { NewlyIncluded(s.ledger, batch, tx); }
    forall first | SeesAll(s.ledger, tx, first) ensures SeesAll(l', tx, first) {
    }
  }

  /** What a call step of the hash leaves behind. */
  ghost predicate EffectSeesAll(s: State, c: nat, e: Effect)
    requires c in s.calls
  {
    var tx := s.calls[c].fp.tx;
    && CallSeesAll(s.ledger, Call(s.calls[c].fp, e.pc))
    && (tx in e.store ==> SeesAll(s.ledger, tx, e.store[tx].body.first))
    && (forall i :: 0 <= i < |e.events| ==> EventSeesAll(s.ledger, tx, e.events[i]))
  }

  lemma ReserveSeesAll(s: State, step: Step)
    requires Enabled(s, step) && step.ReserveHash? && FirstInv(s, s.calls[step.call].fp.tx)
    requires TallyInv(s) && HashClean(s, s.calls[step.call].fp.tx)
    ensures EffectSeesAll(s, step.call, CallEffect(s, step))
  {
    var tx := s.calls[step.call].fp.tx;
    if tx !in s.store {
      ReservesFirst(s, step, tx);
      if WasSubmitted(s.log, tx) { SubmittedIsCounted(s.log, tx); }
    }
  }

  lemma KnownSeesAll(s: State, c: nat, e: Effect)
    requires c in s.calls && FirstInv(s, s.calls[c].fp.tx) && EffectKnown(s, c, e)
    requires e.pc.Reserving? ==> e.pc.first <= s.ledger.index
    ensures EffectSeesAll(s, c, e)
  {
    assert CallSeesAll(s.ledger, s.calls[c]);
  }

  lemma FirstIsRead(s: State, step: Step)
    requires Enabled(s, step) && IsCallStep(step) && CallEffect(s, step).pc.Reserving?
    ensures CallEffect(s, step).pc.first == s.ledger.index || CallEffect(s, step).pc == s.calls[step.call].pc
  {
  }

  lemma CallStepSeesAll(s: State, step: Step)
    requires Inv(s) && Enabled(s, step) && IsCallStep(step) && FirstInv(s, s.calls[step.call].fp.tx)
    requires TallyInv(s) && HashClean(s, s.calls[step.call].fp.tx)
    ensures EffectSeesAll(s, step.call, CallEffect(s, step))
  {
    assert CallSeesAll(s.ledger, s.calls[step.call]);
    if step.ReserveHash? {
      ReserveSeesAll(s, step);
    } else {
      RecordsAreKnown(s, step);
      if CallEffect(s, step).pc.Reserving? { FirstIsRead(s, step); }
      KnownSeesAll(s, step.call, CallEffect(s, step));
    }
  }

  /** A call step touches only its own hash. */
  lemma OtherHashUntouched(s: State, step: Step, tx: Tx)
    requires Inv(s) && Enabled(s, step) && IsCallStep(step) && s.calls[step.call].fp.tx != tx
    ensures var e := CallEffect(s, step);
            && (tx in e.store ==> tx in s.store && e.store[tx] == s.store[tx])
            && forall i :: 0 <= i < |e.events| ==> EventSeesAll(s.ledger, tx, e.events[i])
  {
    if !step.ReserveHash? { RecordsAreKnown(s, step); }
  }

  lemma CommitKeepsFirst(s: State, step: Step, tx: Tx)
    requires Inv(s) && TallyInv(s) && HashClean(s, tx) && FirstInv(s, tx) && Enabled(s, step) && IsCallStep(step)
    ensures FirstInv(Apply(s, step), tx)
  {
    var s' := Apply(s, step);
    if s.calls[step.call].fp.tx == tx { CallStepSeesAll(s, step); } else { OtherHashUntouched(s, step, tx); }
    if WasSubmitted(s.log, tx) {
      var k :| 0 <= k < |s.log| && Submits(s.log[k], tx);
      assert Submits(s'.log[k], tx);
    }
  }

  lemma StepKeepsFirst(s: State, step: Step, tx: Tx)
    requires Inv(s) && TallyInv(s) && HashClean(s, tx) && FirstInv(s, tx)
    requires Enabled(s, step) && Facilitated(s, step, tx)
    ensures FirstInv(Apply(s, step), tx)
  {
    if step.CloseLedger? {
      CloseKeepsFirst(s, step.batch, tx);
    } else if IsCallStep(step) {
      CommitKeepsFirst(s, step, tx);
    } else if WasSubmitted(s.log, tx) {
      var k :| 0 <= k < |s.log| && Submits(s.log[k], tx);
      assert Submits(Apply(s, step).log[k], tx);
    }
  }

  lemma {:induction false} FacilitatedRunKeeps(s: State, steps: seq<Step>, t: State, tx: Tx)
    requires Inv(s) && TallyInv(s) && HashClean(s, tx) && FirstInv(s, tx) && FacilitatedReaches(s, steps, t, tx)
    ensures Inv(t) && FirstInv(t, tx)
    decreases |steps|
  {
    if steps != [] {
      StepKeepsInv(s, steps[0]);
      StepKeepsTally(s, steps[0]);
      CleanTx(s, steps[0], tx);
      StepKeepsFirst(s, steps[0], tx);
      FacilitatedRunKeeps(Apply(s, steps[0]), steps[1..], t, tx);
    }
  }

  /** Agreement: when the transaction reaches the ledger only after the facilitator submitted it,
      and its record is evicted only when no call can still reserve it, any two terminal answers to
      one request agree on success and reason, and "transaction_expired" is answered only for a
      transaction that never validates. */
  lemma FacilitatedAnswersAgree(s: State, steps: seq<Step>, t: State, fp: Fingerprint, i: nat, j: nat)
    requires Initial(s) && fp.tx !in s.ledger.included && FacilitatedReaches(s, steps, t, fp.tx)
    requires i < |t.log| && AnswersFor(t.log[i], fp) && j < |t.log| && AnswersFor(t.log[j], fp)
    ensures t.log[i].response.record.outcome == t.log[j].response.record.outcome
    ensures SaysExpired(t.log[i].response.record) ==> fp.tx !in t.ledger.included && fp.tx.last <= t.ledger.index
  {
    InitialIsTallied(s);
    FacilitatedRunKeeps(s, steps, t, fp.tx);
    assert EventOk(t.ledger, t.log[i]) && EventOk(t.ledger, t.log[j]);
    assert EventSeesAll(t.ledger, fp.tx, t.log[i]) && EventSeesAll(t.ledger, fp.tx, t.log[j]);
  }

  // ---- Two retries of an overdue pending record ----

  /** Only the two retries and the ledger move. */
  predicate ByRetries(steps: seq<Step>, c: nat, d: nat) {
    forall k :: 0 <= k < |steps| ==> RetryStep(steps[k], c, d)
  }

  predicate RetryStep(step: Step, c: nat, d: nat) {
    step.CloseLedger? || (!step.Evict? && (step.call == c || step.call == d))
  }

  ghost predicate Retried(s: State, t: State, c: nat, d: nat) {
    exists steps :: Reaches(s, steps, t) && ByRetries(steps, c, d)
  }

  /** Two answers given since `s` differ. */
  ghost predicate Disagree(s: State, t: State, fp: Fingerprint) {
    exists i, j :: |s.log| <= i < |t.log| && |s.log| <= j < |t.log|
                   && AnswersFor(t.log[i], fp) && AnswersFor(t.log[j], fp)
                   && t.log[i].response.record.outcome != t.log[j].response.record.outcome
  }

  /** The hash's pending record has outlived LastLedgerSequence, and its answer can be judged. */
  ghost predicate Overdue(s: State, tx: Tx) {
    && tx in s.store && s.store[tx].body.outcome == None && tx.last <= s.ledger.index
    && (tx in s.ledger.included ==> !JudgeRaises(s.ledger.included[tx].answer, s.store[tx].body.fp.req))
  }

  /** Everything the retries know about the hash comes from the record `r`. */
  ghost predicate RetryInv(base: nat, s: State, r: Record, c: nat, d: nat) {
    && Inv(s) && base <= |s.log|
    && r.fp.tx in s.store && s.store[r.fp.tx].body.fp == r.fp && s.store[r.fp.tx].body.first == r.first
    && (forall k :: (k == c || k == d) && k in s.calls && s.calls[k].fp.tx == r.fp.tx
                    ==> FromRecord(s.calls[k].pc, r))
    && (forall i :: base <= i < |s.log| && AnswersFor(s.log[i], r.fp) ==> s.log[i].response.record.first == r.first)
  }

  predicate FromRecord(pc: Pc, r: Record) {
    RecordIn(pc).Some? ==> RecordIn(pc).value.fp == r.fp && RecordIn(pc).value.first == r.first
  }

  lemma RetryEffect(base: nat, s: State, r: Record, c: nat, d: nat, step: Step)
    requires RetryInv(base, s, r, c, d) && Enabled(s, step) && IsCallStep(step) && (step.call == c || step.call == d)
    ensures var e := CallEffect(s, step);
            && r.fp.tx in e.store && e.store[r.fp.tx].body.fp == r.fp && e.store[r.fp.tx].body.first == r.first
            && (s.calls[step.call].fp.tx == r.fp.tx ==> FromRecord(e.pc, r))
            && forall i :: 0 <= i < |e.events| && AnswersFor(e.events[i], r.fp)
                           ==> e.events[i].response.record.first == r.first
  {
    if !step.ReserveHash? || s.calls[step.call].fp.tx in s.store { RecordsAreKnown(s, step); }
  }

  lemma RetryKeeps(base: nat, s: State, r: Record, c: nat, d: nat, step: Step)
    requires RetryInv(base, s, r, c, d) && Enabled(s, step) && RetryStep(step, c, d)
    ensures RetryInv(base, Apply(s, step), r, c, d)
  {
    StepKeepsInv(s, step);
    if IsCallStep(step) { RetryEffect(base, s, r, c, d, step); }
  }

  lemma {:induction false} RetriesKeep(base: nat, s: State, steps: seq<Step>, t: State, r: Record, c: nat, d: nat)
    requires RetryInv(base, s, r, c, d) && Reaches(s, steps, t) && ByRetries(steps, c, d)
    ensures RetryInv(base, t, r, c, d) && Grows(s.ledger, t.ledger)
    decreases |steps|
  {
    if steps != [] {
      assert RetryStep(steps[0], c, d);
      RetryKeeps(base, s, r, c, d, steps[0]);
      if steps[0].CloseLedger? { CloseGrows(s.ledger, steps[0].batch); }
      assert ByRetries(steps[1..], c, d);
      RetriesKeep(base, Apply(s, steps[0]), steps[1..], t, r, c, d);
    }
  }

  /** Retries of a record whose search range cannot miss the transaction agree. */
  lemma RetriesAgree(s: State, tx: Tx, c: nat, d: nat, t: State)
    requires Inv(s) && Overdue(s, tx) && c !in s.calls && d !in s.calls && Retried(s, t, c, d)
    requires !IncludedTooEarly(s.ledger, s.store[tx].body)
    ensures !Disagree(s, t, s.store[tx].body.fp)
  {
    var r := s.store[tx].body;
    assert EntryOk(s.ledger, tx, s.store[tx]);
    var steps :| Reaches(s, steps, t) && ByRetries(steps, c, d);
    RetriesKeep(|s.log|, s, steps, t, r, c, d);
    assert !IncludedTooEarly(t.ledger, r);
    forall i, j | |s.log| <= i < |t.log| && |s.log| <= j < |t.log|
                  && AnswersFor(t.log[i], r.fp) && AnswersFor(t.log[j], r.fp)
      ensures t.log[i].response.record.outcome == t.log[j].response.record.outcome
    {
      assert EventOk(t.ledger, t.log[i]) && EventOk(t.ledger, t.log[j]);
    }
  }

  lemma RetryMore(s: State, t: State, c: nat, d: nat, step: Step)
    requires Retried(s, t, c, d) && Enabled(t, step) && RetryStep(step, c, d)
    ensures Retried(s, Apply(t, step), c, d)
  {
    var steps :| Reaches(s, steps, t) && ByRetries(steps, c, d);
    OneStep(t, step);
    Concat(s, steps, t, [step], Apply(t, step));
    assert ByRetries(steps + [step], c, d);
  }

  /** A fresh retry gets as far as looking the hash up. */
  lemma RetryToLookup(s: State, t: State, c: nat, d: nat, e: nat, r: Record) returns (t': State)
    requires Retried(s, t, c, d) && (e == c || e == d) && e !in t.calls
    requires r.fp.tx in t.store && t.store[r.fp.tx].body == r && r.outcome == None
    ensures Retried(s, t', c, d)
    ensures t' == t.(calls := t.calls[e := Call(r.fp, Reconciling(r))])
  {
    RetryMore(s, t, c, d, Start(e, r.fp));
    var t1 := Apply(t, Start(e, r.fp));
    RetryMore(s, t1, c, d, Get(e));
    t' := Apply(t1, Get(e));
    assert t'.calls == t.calls[e := Call(r.fp, Reconciling(r))];
    assert t.log + [] == t.log;
  }

  /** It can take the lookup's absence as authoritative. */
  lemma RetryToExpired(s: State, t: State, c: nat, d: nat, e: nat, r: Record) returns (t': State)
    requires Retried(s, t, c, d) && (e == c || e == d) && e in t.calls && t.calls[e] == Call(r.fp, Reconciling(r))
    requires IncludedTooEarly(t.ledger, r) && r.fp.tx.last <= t.ledger.index
    ensures Retried(s, t', c, d)
    ensures t' == t.(calls := t.calls[e := Call(r.fp, Recording(r.(outcome := Some(Failure(Expired)))))])
  {
    RetryMore(s, t, c, d, LookupAbsent(e));
    var t1 := Apply(t, LookupAbsent(e));
    assert t.log + [] == t.log;
    assert t1 == t.(calls := t.calls[e := Call(r.fp, SeenAbsent(r))]);
    RetryMore(s, t1, c, d, ReadExpiryLedger(e, true));
    t' := Apply(t1, ReadExpiryLedger(e, true));
    assert t'.calls == t.calls[e := Call(r.fp, Recording(r.(outcome := Some(Failure(Expired)))))];
  }

  /** Or it is shown the transaction and judges it. */
  lemma RetryToJudged(s: State, t: State, c: nat, d: nat, e: nat, r: Record) returns (t': State)
    requires Retried(s, t, c, d) && (e == c || e == d) && e in t.calls && t.calls[e] == Call(r.fp, Reconciling(r))
    requires r.fp.tx in t.ledger.included && !JudgeRaises(t.ledger.included[r.fp.tx].answer, r.fp.req)
    ensures Retried(s, t', c, d)
    ensures var verdict := Judge(t.ledger.included[r.fp.tx].answer, r.fp.req);
            t' == t.(calls := t.calls[e := Call(r.fp, Recording(r.(outcome := Some(verdict))))])
  {
    RetryMore(s, t, c, d, Lookup(e));
    t' := Apply(t, Lookup(e));
    assert t.log + [] == t.log;
  }

  lemma RetryToAnswer(s: State, t: State, c: nat, d: nat, e: nat, r: Record) returns (t': State)
    requires Retried(s, t, c, d) && (e == c || e == d) && e in t.calls && t.calls[e] == Call(r.fp, Recording(r))
    ensures Retried(s, t', c, d) && t.log < t'.log
    ensures t'.log[|t'.log| - 1] == Responded(e, r.fp, Answered(r))
    ensures forall k :: k in t.calls && k != e ==> k in t'.calls && t'.calls[k] == t.calls[k]
  {
    RetryMore(s, t, c, d, RecordOutcome(e));
    t' := Apply(t, RecordOutcome(e));
  }

  /** Both retries have made up their minds, differently. */
  lemma RetriesToSplit(s: State, tx: Tx, c: nat, d: nat) returns (t: State)
    requires Inv(s) && Overdue(s, tx) && c !in s.calls && d !in s.calls && c != d
    requires IncludedTooEarly(s.ledger, s.store[tx].body)
    ensures var r := s.store[tx].body;
            var verdict := Judge(s.ledger.included[r.fp.tx].answer, r.fp.req);
            && Retried(s, t, c, d) && t.log == s.log && c in t.calls && d in t.calls
            && t.calls[c] == Call(r.fp, Recording(r.(outcome := Some(Failure(Expired)))))
            && t.calls[d] == Call(r.fp, Recording(r.(outcome := Some(verdict))))
  {
    var r := s.store[tx].body;
    assert EntryOk(s.ledger, tx, s.store[tx]);
    assert Reaches(s, [], s) && ByRetries([], c, d);
    var t1 := RetryToLookup(s, s, c, d, c, r);
    var t2 := RetryToLookup(s, t1, c, d, d, r);
    var t3 := RetryToExpired(s, t2, c, d, c, r);
    t := RetryToJudged(s, t3, c, d, d, r);
  }

  lemma Differ(s: State, t: State, fp: Fingerprint, i: nat, j: nat)
    requires |s.log| <= i < |t.log| && |s.log| <= j < |t.log| && AnswersFor(t.log[i], fp) && AnswersFor(t.log[j], fp)
    requires t.log[i].response.record.outcome != t.log[j].response.record.outcome
    ensures Disagree(s, t, fp)
  {
  }

  lemma SplitAnswers(s: State, t: State, c: nat, d: nat, a: Record, b: Record) returns (t': State)
    requires Retried(s, t, c, d) && |s.log| <= |t.log| && c != d && c in t.calls && d in t.calls && a.fp == b.fp
    requires t.calls[c] == Call(a.fp, Recording(a)) && t.calls[d] == Call(b.fp, Recording(b))
    requires a.outcome != b.outcome
    ensures Retried(s, t', c, d) && Disagree(s, t', a.fp)
  {
    var t1 := RetryToAnswer(s, t, c, d, c, a);
    t' := RetryToAnswer(s, t1, c, d, d, b);
    var i := |t1.log| - 1;
    assert t'.log[i] == t1.log[i];
    Differ(s, t', a.fp, i, |t'.log| - 1);
  }

  lemma VerdictIsNotExpired(answer: Answer, req: Requirements)
    ensures Judge(answer, req) != Failure(Expired)
  {
  }

  lemma RetriesCanDisagree(s: State, tx: Tx, c: nat, d: nat) returns (t: State)
    requires Inv(s) && Overdue(s, tx) && c !in s.calls && d !in s.calls && c != d
    requires IncludedTooEarly(s.ledger, s.store[tx].body)
    ensures Retried(s, t, c, d) && Disagree(s, t, s.store[tx].body.fp)
  {
    var r := s.store[tx].body;
    VerdictIsNotExpired(s.ledger.included[tx].answer, r.fp.req);
    assert EntryOk(s.ledger, tx, s.store[tx]);
    var t1 := RetriesToSplit(s, tx, c, d);
    t := SplitAnswers(s, t1, c, d, t1.calls[c].pc.record, t1.calls[d].pc.record);
  }

  /** The exact condition for retries: two fresh retries of an overdue pending record can give
      different terminal answers if and only if the transaction was included below the first ledger
      that the stored record tells lookups to search. */
  lemma RetriesDisagreeExactlyWhen(s: State, tx: Tx, c: nat, d: nat)
    requires Inv(s) && Overdue(s, tx) && c !in s.calls && d !in s.calls && c != d
    ensures (exists t :: Retried(s, t, c, d) && Disagree(s, t, s.store[tx].body.fp))
            <==> IncludedTooEarly(s.ledger, s.store[tx].body)
  {
    if IncludedTooEarly(s.ledger, s.store[tx].body) {
      var t := RetriesCanDisagree(s, tx, c, d);
    } else {
      forall t | Retried(s, t, c, d) ensures !Disagree(s, t, s.store[tx].body.fp) {
        RetriesAgree(s, tx, c, d, t);
      }
    }
  }
}
