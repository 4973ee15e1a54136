/** Exactly when an included transaction can still be answered in two ways, over all runs. */
module SettlementForesight {
  import opened Common
  import opened XrplLedger
  import opened Settlement
  import opened SettlementSafety
  import opened SettlementReach
  import opened SettlementAgreement
  import Store = SettlementStore

  /** A lookup from `first` on misses the transaction. */
  predicate Blind(l: Ledger, tx: Tx, first: nat) {
    tx in l.included && l.included[tx].index < first
  }

  /** The call read a first ledger past the inclusion, or has yet to read one. */
  predicate CanGoBlind(l: Ledger, call: Call) {
    call.pc.Verified? || (call.pc.Reserving? && Blind(l, call.fp.tx, call.pc.first))
  }

  ghost predicate NoBlindRecord(s: State, tx: Tx) {
    && (tx in s.store ==> !Blind(s.ledger, tx, s.store[tx].body.first))
    && (forall c :: c in s.calls && s.calls[c].fp.tx == tx && RecordIn(s.calls[c].pc).Some?
                    ==> !Blind(s.ledger, tx, RecordIn(s.calls[c].pc).value.first))
    && (forall i :: 0 <= i < |s.log| ==> EventSighted(s.ledger, tx, s.log[i]))
  }

  predicate EventSighted(l: Ledger, tx: Tx, e: Event) {
    e.Responded? && e.response.Answered? && e.fp.tx == tx ==> !Blind(l, tx, e.response.record.first)
  }

  ghost predicate NoneGoesBlind(s: State, tx: Tx) {
    forall c :: c in s.calls && s.calls[c].fp.tx == tx ==> !CanGoBlind(s.ledger, s.calls[c])
  }

  /** The transaction is included, and its answer can be judged for every requirement. */
  ghost predicate Judged(l: Ledger, tx: Tx) {
    tx in l.included && forall req :: !JudgeRaises(l.included[tx].answer, req)
  }

  ghost predicate Split(s: State, fp: Fingerprint) {
    exists i, j :: 0 <= i < |s.log| && 0 <= j < |s.log| && AnswersFor(s.log[i], fp) && AnswersFor(s.log[j], fp)
                   && s.log[i].response.record.outcome != s.log[j].response.record.outcome
  }

  // ---- Without such a call, nothing is ever overlooked ----

  /** What a call step leaves behind overlooks nothing. */
  ghost predicate EffectSighted(s: State, tx: Tx, c: nat, e: Effect)
    requires c in s.calls
  {
    && (tx in e.store ==> !Blind(s.ledger, tx, e.store[tx].body.first))
    && (s.calls[c].fp.tx == tx ==>
          && !CanGoBlind(s.ledger, Call(s.calls[c].fp, e.pc))
          && (RecordIn(e.pc).Some? ==> !Blind(s.ledger, tx, RecordIn(e.pc).value.first)))
    && (forall i :: 0 <= i < |e.events| ==> EventSighted(s.ledger, tx, e.events[i]))
  }

  lemma CommitSighted(s: State, tx: Tx, c: nat, e: Effect)
    requires NoBlindRecord(s, tx) && NoneGoesBlind(s, tx) && c in s.calls && EffectSighted(s, tx, c, e)
    ensures NoBlindRecord(Commit(s, c, e), tx) && NoneGoesBlind(Commit(s, c, e), tx)
  {
  }

  lemma KnownSighted(s: State, tx: Tx, c: nat, e: Effect)
    requires NoBlindRecord(s, tx) && c in s.calls && EffectKnown(s, c, e)
    requires s.calls[c].fp.tx == tx ==> !CanGoBlind(s.ledger, Call(s.calls[c].fp, e.pc))
    ensures EffectSighted(s, tx, c, e)
  {
  }

  lemma ReserveSighted(s: State, tx: Tx, c: nat)
    requires NoBlindRecord(s, tx) && NoneGoesBlind(s, tx) && Enabled(s, ReserveHash(c)) && s.calls[c].fp.tx !in s.store
    ensures EffectSighted(s, tx, c, CallEffect(s, ReserveHash(c)))
  {
  }

  /** With the slot spent, no step leads to a verified call or a new first-ledger read. */
  lemma SpentNeverVerifies(s: State, step: Step)
    requires Enabled(s, step) && IsCallStep(step) && Spent(s.ledger, s.calls[step.call].fp.tx)
    requires !CanGoBlind(s.ledger, s.calls[step.call])
    ensures !CanGoBlind(s.ledger, Call(s.calls[step.call].fp, CallEffect(s, step).pc))
  {
  }

  lemma CallStaysSighted(s: State, step: Step, tx: Tx)
    requires Inv(s) && tx in s.ledger.included && NoBlindRecord(s, tx) && NoneGoesBlind(s, tx)
    requires Enabled(s, step) && IsCallStep(step)
    ensures NoBlindRecord(Apply(s, step), tx) && NoneGoesBlind(Apply(s, step), tx)
  {
    var c, e := step.call, CallEffect(s, step);
    if step.ReserveHash? && s.calls[c].fp.tx !in s.store {
      ReserveSighted(s, tx, c);
    } else {
      if s.calls[c].fp.tx == tx { SpentNeverVerifies(s, step); }
      RecordsAreKnown(s, step);
      KnownSighted(s, tx, c, e);
    }
    CommitSighted(s, tx, c, e);
  }

  lemma CloseStaysSighted(s: State, batch: seq<Entry>, tx: Tx)
    requires Wf(s.ledger) && BatchAllowed(s.ledger, batch) && tx in s.ledger.included
    requires NoBlindRecord(s, tx) && NoneGoesBlind(s, tx)
    ensures var s' := s.(ledger := Close(s.ledger, batch));
            tx in s'.ledger.included && NoBlindRecord(s', tx) && NoneGoesBlind(s', tx)
  {
    CloseGrows(s.ledger, batch);
    var l' := Close(s.ledger, batch);
    assert forall first :: Blind(l', tx, first) == Blind(s.ledger, tx, first);
    forall i | 0 <= i < |s.log| ensures EventSighted(l', tx, s.log[i]) {
      assert EventSighted(s.ledger, tx, s.log[i]);
    }
  }

  lemma StaysSighted(s: State, step: Step, tx: Tx)
    requires Inv(s) && tx in s.ledger.included && NoBlindRecord(s, tx) && NoneGoesBlind(s, tx) && Enabled(s, step)
    ensures var s' := Apply(s, step);
            tx in s'.ledger.included && NoBlindRecord(s', tx) && NoneGoesBlind(s', tx)
  {
    if step.CloseLedger? {
      CloseStaysSighted(s, step.batch, tx);
    } else if IsCallStep(step) {
      CallStaysSighted(s, step, tx);
    }
  }

  lemma {:induction false} RunStaysSighted(s: State, steps: seq<Step>, t: State, tx: Tx)
    requires Inv(s) && tx in s.ledger.included && NoBlindRecord(s, tx) && NoneGoesBlind(s, tx) && Reaches(s, steps, t)
    ensures Inv(t) && NoBlindRecord(t, tx)
    decreases |steps|
  {
    if steps != [] {
      StepKeepsInv(s, steps[0]);
      StaysSighted(s, steps[0], tx);
      RunStaysSighted(Apply(s, steps[0]), steps[1..], t, tx);
    }
  }

  lemma SightedNeverSplits(t: State, fp: Fingerprint)
    requires Inv(t) && NoBlindRecord(t, fp.tx)
    ensures !Split(t, fp)
  {
    forall i, j | 0 <= i < |t.log| && 0 <= j < |t.log| && AnswersFor(t.log[i], fp) && AnswersFor(t.log[j], fp)
      ensures t.log[i].response.record.outcome == t.log[j].response.record.outcome
    {
      assert EventOk(t.ledger, t.log[i]) && EventOk(t.ledger, t.log[j]);
    }
  }

  // ---- With one, some run ends in two answers ----

  /** Only the ledger index has moved. */
  lemma {:induction false} WaitUntil(s: State, n: nat) returns (t: State)
    requires Inv(s)
    ensures Reachable(s, t) && Inv(t) && t.ledger.index >= n && t.ledger.index >= s.ledger.index
    ensures t == s.(ledger := s.ledger.(index := t.ledger.index))
    decreases n - s.ledger.index
  {
    if s.ledger.index >= n {
      t := s;
      Stay(s);
    } else {
      var s' := Apply(s, CloseLedger([]));
      StepKeepsInv(s, CloseLedger([]));
      OneStep(s, CloseLedger([]));
      t := WaitUntil(s', n);
      Then(s, s', t);
    }
  }

  ghost predicate KeepsCalls(s: State, t: State) {
    forall c :: c in s.calls ==> c in t.calls && t.calls[c] == s.calls[c]
  }

  lemma RecordingSettles(s: State, e: nat)
    requires Enabled(s, RecordOutcome(e)) && s.calls[e].pc.record.outcome.Some?
    requires s.calls[e].pc.record.fp.tx in s.store && s.store[s.calls[e].pc.record.fp.tx].status == Store.Pending
    ensures var t, tx := Apply(s, RecordOutcome(e)), s.calls[e].pc.record.fp.tx;
            && tx in t.store && t.store[tx].expiring && t.ledger == s.ledger
            && forall c :: c in s.calls && c != e ==> c in t.calls && t.calls[c] == s.calls[c]
  {
  }

  /** A fresh call looks a pending record up and judges its answer. */
  lemma JudgePending(s: State, tx: Tx, e: nat) returns (t: State)
    requires Inv(s) && Judged(s.ledger, tx) && tx in s.store && s.store[tx].body.outcome == None && e !in s.calls
    ensures Reachable(s, t)
    ensures var r := s.store[tx].body;
            var verdict := Judge(s.ledger.included[tx].answer, r.fp.req);
            t == s.(calls := s.calls[e := Call(r.fp, Recording(r.(outcome := Some(verdict))))])
  {
    var r := s.store[tx].body;
    assert EntryOk(s.ledger, tx, s.store[tx]);
    assert Reaches(s, [], s) && ByRetries([], e, e);
    var t1 := RetryToLookup(s, s, e, e, e, r);
    t := RetryToJudged(s, t1, e, e, e, r);
    var steps :| Reaches(s, steps, t) && ByRetries(steps, e, e);
    assert t.calls == s.calls[e := t.calls[e]];
  }

  /** A fresh call makes a pending record terminal. */
  lemma SettlePending(s: State, tx: Tx) returns (t: State)
    requires Inv(s) && Judged(s.ledger, tx) && tx in s.store && s.store[tx].body.outcome == None
    ensures Reachable(s, t) && t.ledger == s.ledger && KeepsCalls(s, t)
    ensures tx in t.store && t.store[tx].expiring
  {
    var e := Unused(s.calls.Keys, 0);
    assert EntryOk(s.ledger, tx, s.store[tx]);
    var t1 := JudgePending(s, tx, e);
    RecordingSettles(t1, e);
    OneMore(s, t1, RecordOutcome(e));
    t := Apply(t1, RecordOutcome(e));
  }

  /** The hash's record can be made to go away without disturbing any call. */
  lemma ClearStore(s: State, tx: Tx) returns (t: State)
    requires Inv(s) && Judged(s.ledger, tx)
    ensures Reachable(s, t) && t.ledger == s.ledger && KeepsCalls(s, t) && tx !in t.store
  {
    Stay(s);
    if tx !in s.store {
      t := s;
    } else {
      var s1 := s;
      assert EntryOk(s.ledger, tx, s.store[tx]);
      if s.store[tx].body.outcome == None { s1 := SettlePending(s, tx); }
      OneMore(s, s1, Evict(tx));
      t := Apply(s1, Evict(tx));
    }
  }

  lemma RunFrom(s: State, t: State)
    requires Inv(s) && Reachable(s, t)
    ensures Inv(t)
  {
    var steps :| Reaches(s, steps, t);
    RunKeepsInv(s, steps, t);
  }

  /** A blind reservation past LastLedgerSequence: two retries then answer differently. */
  lemma BlindReservationSplits(s: State, c: nat) returns (t: State)
    requires Inv(s) && c in s.calls && s.calls[c].pc.Reserving? && s.calls[c].fp.tx !in s.store
    requires Judged(s.ledger, s.calls[c].fp.tx) && Blind(s.ledger, s.calls[c].fp.tx, s.calls[c].pc.first)
    requires s.calls[c].fp.tx.last <= s.ledger.index
    ensures Reachable(s, t) && Split(t, s.calls[c].fp)
  {
    var tx := s.calls[c].fp.tx;
    var s1 := Apply(s, ReserveHash(c));
    OneStep(s, ReserveHash(c));
    RunFrom(s, s1);
    assert s1.store[tx].body == Record(s.calls[c].fp, s.calls[c].pc.first, None);
    var a := Unused(s1.calls.Keys, 0);
    var b := Unused(s1.calls.Keys, a + 1);
    t := RetriesCanDisagree(s1, tx, a, b);
    var steps :| Reaches(s1, steps, t) && ByRetries(steps, a, b);
    Then(s, s1, t);
    var i, j :| |s1.log| <= i < |t.log| && |s1.log| <= j < |t.log|
                && AnswersFor(t.log[i], s.calls[c].fp) && AnswersFor(t.log[j], s.calls[c].fp)
                && t.log[i].response.record.outcome != t.log[j].response.record.outcome;
  }

  /** From a call that read a blind first ledger. */
  lemma BlindReservingSplits(s: State, c: nat) returns (t: State)
    requires Inv(s) && c in s.calls && s.calls[c].pc.Reserving? && Judged(s.ledger, s.calls[c].fp.tx)
    requires Blind(s.ledger, s.calls[c].fp.tx, s.calls[c].pc.first)
    ensures Reachable(s, t) && Split(t, s.calls[c].fp)
  {
    var s1 := WaitUntil(s, s.calls[c].fp.tx.last);
    var s2 := ClearStore(s1, s.calls[c].fp.tx);
    RunFrom(s1, s2);
    Then(s, s1, s2);
    t := BlindReservationSplits(s2, c);
    Then(s, s2, t);
  }

  /** From a verified call, which can read one later. */
  lemma VerifiedSplits(s: State, c: nat) returns (t: State)
    requires Inv(s) && c in s.calls && s.calls[c].pc.Verified? && Judged(s.ledger, s.calls[c].fp.tx)
    ensures Reachable(s, t) && Split(t, s.calls[c].fp)
  {
    var s1 := WaitUntil(s, s.ledger.included[s.calls[c].fp.tx].index + 1);
    var s2 := Apply(s1, ReadFirstLedger(c));
    OneMore(s, s1, ReadFirstLedger(c));
    RunFrom(s, s2);
    assert s2.calls[c] == Call(s.calls[c].fp, Reserving(s1.ledger.index));
    t := BlindReservingSplits(s2, c);
    Then(s, s2, t);
  }

  /** The exact condition: take any state in which the transaction is included and no record so far
      overlooks it.  Some continuation, with any crashes, evictions and other calls, gives two
      different terminal answers to one request if and only if some call for the transaction has
      passed its checks and has yet to read its first ledger, or read one past the inclusion. */
  lemma AnswersCanSplitExactlyWhen(s: State, tx: Tx)
    requires Inv(s) && Judged(s.ledger, tx) && NoBlindRecord(s, tx)
    ensures (exists t: State, fp: Fingerprint :: Reachable(s, t) && fp.tx == tx && Split(t, fp))
            <==> exists c :: c in s.calls && s.calls[c].fp.tx == tx && CanGoBlind(s.ledger, s.calls[c])
  {
    if c :| c in s.calls && s.calls[c].fp.tx == tx && CanGoBlind(s.ledger, s.calls[c]) {
      var t: State;
      if s.calls[c].pc.Verified? { t := VerifiedSplits(s, c); } else { t := BlindReservingSplits(s, c); }
      assert Split(t, s.calls[c].fp);
    } else {
      forall t: State, fp: Fingerprint | Reachable(s, t) && fp.tx == tx ensures !Split(t, fp) {
        var steps :| Reaches(s, steps, t);
        RunStaysSighted(s, steps, t, tx);
        SightedNeverSplits(t, fp);
      }
    }
  }
}
