/** The lease of a payment attempt over traces: how long it keeps other callers from signing. */
module PayerLeases {
  import opened AsciiText
  import opened Common
  import opened ReceiptJournal
  import opened PayerAttempts

  /** The step makes its caller the owner of the attempt for `f`, so that it goes on to sign. */
  predicate GivesToken(s: State, step: Step, f: nat)
    requires Enabled(s, step)
  {
    && step.ClaimStep? && s.callers[step.caller].fingerprint == f
    && Apply(s, step).callers[step.caller].at.Signing?
  }

  /** The ways in which an attempt is given up before its lease runs out: its owner releases it, an
      outcome is recorded for its fingerprint, or it was paid and its reuse window has passed. */
  predicate Frees(s: State, step: Step, f: nat)
    requires Enabled(s, step)
  {
    || (step.Release? && f in s.index && s.callers[step.caller].owner == Some(s.index[f].owner))
    || ((step.Report? || step.Interrupt?) && s.callers[step.caller].fingerprint == f)
    || ((step.ClaimStep? || step.PruneStep?) && f in s.index && ExpiredPaid(s.index[f], s.now))
  }

  /** Otherwise the attempt stays its owner's, and while it has no payload it does not change. */
  lemma AttemptStays(s: State, step: Step, f: nat)
    requires Enabled(s, step) && f in s.index && !Frees(s, step, f) && !GivesToken(s, step, f)
    ensures var s' := Apply(s, step);
            && f in s'.index && s'.index[f].owner == s.index[f].owner
            && (s'.index[f].payload == None ==> s'.index[f] == s.index[f])
  {
    if step.ClaimStep? {
      var k := s.callers[step.caller];
      ClaimExactly(s.index, k.fingerprint, k.payer, k.scope, s.now, ATTEMPT_LEASE_SECONDS, s.nextToken);
    }
  }

  ghost predicate LeaseHeld(s: State, f: nat, token: nat, until: int) {
    && f in s.index && s.index[f].owner == token
    && (s.index[f].payload == None ==> s.index[f].leaseExpiresAt == until && s.index[f].state == Claimed)
  }

  lemma TokenStartsLease(s: State, step: Step, f: nat)
    requires Enabled(s, step) && GivesToken(s, step, f)
    ensures LeaseHeld(Apply(s, step), f, s.nextToken, s.now + 30)
    ensures Apply(s, step).callers[step.caller].at == Signing(s.nextToken)
  {
    var k := s.callers[step.caller];
    ClaimExactly(s.index, k.fingerprint, k.payer, k.scope, s.now, ATTEMPT_LEASE_SECONDS, s.nextToken);
  }

  /** A token is given for a held attempt only once its lease has run out. */
  lemma TokenNeedsOverdue(s: State, step: Step, f: nat, token: nat, until: int)
    requires Enabled(s, step) && GivesToken(s, step, f) && !Frees(s, step, f) && LeaseHeld(s, f, token, until)
    ensures s.now >= until
  {
    var k := s.callers[step.caller];
    ClaimExactly(s.index, k.fingerprint, k.payer, k.scope, s.now, ATTEMPT_LEASE_SECONDS, s.nextToken);
  }

  ghost predicate UndisturbedBetween(states: seq<State>, steps: seq<Step>, f: nat, i: nat, j: nat)
    requires IsTrace(states, steps) && i <= j <= |steps|
  {
    forall k :: i <= k < j ==> !Frees(states[k], steps[k], f) && !GivesToken(states[k], steps[k], f)
  }

  lemma {:induction false} LeaseLasts(
    states: seq<State>, steps: seq<Step>, f: nat, token: nat, until: int, i: nat, j: nat)
    requires IsTrace(states, steps) && i <= j <= |steps| && LeaseHeld(states[i], f, token, until)
    requires UndisturbedBetween(states, steps, f, i, j)
    ensures LeaseHeld(states[j], f, token, until)
    decreases j - i
  {
    if i < j {
      LeaseLasts(states, steps, f, token, until, i, j - 1);
      AttemptStays(states[j - 1], steps[j - 1], f);
    }
  }

  /** The lease is exclusive: over every trace, once a caller was sent to sign for a fingerprint, the
      next one is sent to sign for it only when the clock has passed the lease of 30 seconds, or
      after the attempt was released by its owner, given an outcome, or pruned as paid. */
  lemma LeaseIsExclusive(states: seq<State>, steps: seq<Step>, f: nat, i: nat, j: nat)
    requires IsTrace(states, steps) && i < j < |steps|
    requires GivesToken(states[i], steps[i], f) && GivesToken(states[j], steps[j], f)
    requires forall k :: i < k < j ==> !GivesToken(states[k], steps[k], f)
    ensures states[j].now >= states[i].now + 30 || exists k :: i < k <= j && Frees(states[k], steps[k], f)
  {
    if forall k :: i < k <= j ==> !Frees(states[k], steps[k], f) {
      TokenStartsLease(states[i], steps[i], f);
      LeaseLasts(states, steps, f, states[i].nextToken, states[i].now + 30, i + 1, j);
      TokenNeedsOverdue(states[j], steps[j], f, states[i].nextToken, states[i].now + 30);
    }
  }

  /** And a lease that has run out holds nobody back: a claim without a payload is taken over. */
  lemma OverdueIsTakenOver(s: State, c: nat)
    requires Enabled(s, ClaimStep(c)) && s.callers[c].fingerprint in s.index
    requires var k, a := s.callers[c], s.index[s.callers[c].fingerprint];
             && a.payload == None && a.leaseExpiresAt <= s.now && a.payer == k.payer && a.scope == k.scope
             && Strip(k.scope) != ""
    ensures GivesToken(s, ClaimStep(c), s.callers[c].fingerprint)
    ensures Apply(s, ClaimStep(c)).index[s.callers[c].fingerprint]
         == Attempt(s.callers[c].payer, s.callers[c].scope, s.nextToken, Claimed, s.now + 30, None)
  {
    var k := s.callers[c];
    ClaimExactly(s.index, k.fingerprint, k.payer, k.scope, s.now, ATTEMPT_LEASE_SECONDS, s.nextToken);
  }

  /** While the lease runs, a caller that asks is neither given a payload nor sent to sign. */
  lemma LiveLeaseMakesWait(s: State, c: nat)
    requires Enabled(s, ClaimStep(c)) && s.callers[c].fingerprint in s.index
    requires var k, a := s.callers[c], s.index[s.callers[c].fingerprint];
             && a.payload == None && a.leaseExpiresAt > s.now && a.payer == k.payer && a.scope == k.scope
             && Strip(k.scope) != ""
    ensures Apply(s, ClaimStep(c)).callers[c].at == Asking
    ensures Apply(s, ClaimStep(c)).index[s.callers[c].fingerprint] == s.index[s.callers[c].fingerprint]
  {
    var k := s.callers[c];
    ClaimExactly(s.index, k.fingerprint, k.payer, k.scope, s.now, ATTEMPT_LEASE_SECONDS, s.nextToken);
  }

  /** A payment made is shared for 300 seconds after its report. */
  lemma PaidWindow(s: State, c: nat, tx: nat, accepted: Accepted)
    requires Enabled(s, Report(c, Settled, tx, accepted)) && s.callers[c].fingerprint in s.index
    ensures var f, s' := s.callers[c].fingerprint, Apply(s, Report(c, Settled, tx, accepted));
            f in s'.index && s'.index[f] == s.index[f].(state := Paid, leaseExpiresAt := s.now + 300)
  {
  }

  // ---- A caller goes one way ----

  /** How far a caller has got; it never goes back. */
  function Stage(at: Point): nat {
    match at
    case Asking => 0
    case Signing(_) => 1
    case Signed(_, _) => 2
    case Holding(_) => 3
    case Dispatched(_) => 4
    case Releasing(_) => 5
    case Done => 6
  }

  lemma StageGrows(s: State, step: Step, c: nat)
    requires Enabled(s, step) && Has(s, c)
    ensures Has(Apply(s, step), c) && Stage(Apply(s, step).callers[c].at) >= Stage(s.callers[c].at)
    ensures step == Dispatch(c) ==> Stage(s.callers[c].at) == 3 && Stage(Apply(s, step).callers[c].at) == 4
    ensures step == Refuse(c) ==> Stage(Apply(s, step).callers[c].at) == 5
  {
  }

  lemma {:induction false} StageGrowsOver(states: seq<State>, steps: seq<Step>, i: nat, j: nat, c: nat)
    requires IsTrace(states, steps) && i <= j <= |steps| && Has(states[i], c)
    ensures Has(states[j], c) && Stage(states[j].callers[c].at) >= Stage(states[i].callers[c].at)
    decreases j - i
  {
    if i < j {
      StageGrowsOver(states, steps, i, j - 1, c);
      StageGrows(states[j - 1], steps[j - 1], c);
    }
  }

  /** A caller dispatches at most once, and never a payload that it refused as not matching its
      challenge. */
  lemma DispatchesOnce(states: seq<State>, steps: seq<Step>, i: nat, j: nat, c: nat)
    requires IsTrace(states, steps) && i < j < |steps| && (steps[i] == Refuse(c) || steps[i] == Dispatch(c))
    ensures steps[j] != Dispatch(c)
  {
    StageGrows(states[i], steps[i], c);
    StageGrowsOver(states, steps, i + 1, j, c);
    if steps[j] == Dispatch(c) { StageGrows(states[j], steps[j], c); }
  }

  // ---- Giving up ----

  /** An owner without a payload that gives up frees the attempt: whoever asks next is sent to sign at
      once, however long the lease would have run. */
  lemma ReleaseLetsNextSign(s: State, c: nat, d: nat)
    requires Enabled(s, Release(c)) && Enabled(s, ClaimStep(d)) && c != d
    requires var f := s.callers[c].fingerprint;
             && f in s.index && s.callers[c].owner == Some(s.index[f].owner) && s.index[f].payload == None
             && s.callers[d].fingerprint == f && Strip(s.callers[d].scope) != ""
    ensures var s1 := Apply(s, Release(c));
            && s.callers[c].fingerprint !in s1.index && s1.callers[c].at == Done
            && Enabled(s1, ClaimStep(d)) && GivesToken(s1, ClaimStep(d), s.callers[c].fingerprint)
  {
    var s1, k := Apply(s, Release(c)), s.callers[d];
    ClaimExactly(s1.index, k.fingerprint, k.payer, k.scope, s1.now, ATTEMPT_LEASE_SECONDS, s1.nextToken);
  }

  /** A caller whose payload is not accepted goes on to release what it claimed. */
  lemma RejectedPersistReleases(s: State, c: nat)
    requires Enabled(s, Persist(c))
    requires var k := s.callers[c]; PersistIndex(s.index, k.fingerprint, Some(k.at.token), k.at.payload).1.Err?
    ensures Apply(s, Persist(c)).callers[c].at == Releasing(Some(s.callers[c].at.token))
    ensures Apply(s, Persist(c)).index == s.index
  {
  }

  /** Pruning leaves exactly the attempts that are not paid or still in their window. */
  lemma PruneClears(s: State, f: nat)
    ensures Enabled(s, PruneStep)
    ensures f in Apply(s, PruneStep).index <==> Current(s.index, f, s.now)
    ensures f in Apply(s, PruneStep).index ==> Apply(s, PruneStep).index[f] == s.index[f]
  {
  }

  /** An interrupted caller leaves a pending receipt of its own payload, unless a terminal one is kept
      already, and the payload stays for others. */
  lemma InterruptLeavesReceipt(s: State, c: nat, accepted: Accepted)
    requires Enabled(s, Interrupt(c, accepted))
    ensures var r := Receipt(Some(s.callers[c].fingerprint), Pending, s.callers[c].at.payload.tx, accepted);
            var s' := Apply(s, Interrupt(c, accepted));
            && s'.log == RecordLog(s.log, r)
            && (!IsLate(s.log, r) && !HasDuplicate(s.log, r) ==> s'.log == s.log + [r])
            && PayloadAt(s'.index, s.callers[c].fingerprint) == PayloadAt(s.index, s.callers[c].fingerprint)
            && s'.callers[c].at == Releasing(s.callers[c].owner)
  {
  }

  /** A report leaves a receipt of the outcome and transaction that were reported. */
  lemma ReportLeavesReceipt(s: State, c: nat, outcome: Outcome, tx: nat, accepted: Accepted)
    requires Enabled(s, Report(c, outcome, tx, accepted))
    ensures var r := Receipt(Some(s.callers[c].fingerprint), outcome, tx, accepted);
            var s' := Apply(s, Report(c, outcome, tx, accepted));
            && s'.log == RecordLog(s.log, r) && s'.callers[c].at == Done
            && (!IsLate(s.log, r) && !HasDuplicate(s.log, r) ==> s'.log == s.log + [r])
  {
  }
}
