/** A concrete trace of payers: a late failure report removes a payload signed after its own. */
module PayerRuns {
  import opened AsciiText
  import opened Common
  import opened ReceiptJournal
  import opened PayerAttempts

  const START := State(map[], [], 0, 0, map[])
  const TERMS := Accepted("xrpl:1", "XRP", None, 1.0)
  const OLD := Payload(10, 0)
  const NEW := Payload(11, 0)

  ghost predicate Reachable(t: State) {
    exists states, steps :: IsTrace(states, steps) && states[0] == START && states[|steps|] == t
  }

  lemma OneMore(t: State, step: Step) returns (t': State)
    requires Reachable(t) && Enabled(t, step)
    ensures Reachable(t') && t' == Apply(t, step)
  {
    var states, steps :| IsTrace(states, steps) && states[0] == START && states[|steps|] == t;
    t' := Apply(t, step);
    var states', steps' := states + [t'], steps + [step];
    forall i | 0 <= i < |steps'|
      ensures Enabled(states'[i], steps'[i]) && states'[i + 1] == Apply(states'[i], steps'[i])
    {
      if i < |steps| { assert Enabled(states[i], steps[i]) && states[i + 1] == Apply(states[i], steps[i]); }
    }
    assert IsTrace(states', steps') && states'[|steps'|] == t';
  }

  lemma ScopeIsNotBlank()
    ensures !IsBlank("s")
  {
    assert !IsSpace("s"[0]);
  }

  lemma StartIsReachable()
    ensures Reachable(START)
  {
    assert IsTrace([START], []);
  }

  /** Caller 1 signs the first payload of request 0 and stores it. */
  lemma RunToStored() returns (t: State)
    ensures Reachable(t) && t.now == 0 && t.log == [] && t.nextToken == 1
    ensures t.index == map[0 := Attempt(9, "s", 0, Ready, 0, Some(OLD))]
    ensures t.callers == map[1 := Caller(0, 9, "s", Some(0), Holding(OLD))]
  {
    StartIsReachable();
    ScopeIsNotBlank();
    t := OneMore(START, Arrive(1, 0, 9, "s"));
    t := OneMore(t, ClaimStep(1));
    assert t.index == map[0 := Attempt(9, "s", 0, Claimed, 30, None)];
    t := OneMore(t, Sign(1, OLD));
    t := OneMore(t, Persist(1));
  }

  /** Caller 2 gets the same payload. */
  lemma RunToShared() returns (t: State)
    ensures Reachable(t) && t.now == 0 && t.log == [] && t.nextToken == 2
    ensures t.index == map[0 := Attempt(9, "s", 0, Ready, 0, Some(OLD))]
    ensures t.callers == map[1 := Caller(0, 9, "s", Some(0), Holding(OLD)), 2 := Caller(0, 9, "s", None, Holding(OLD))]
  {
    t := RunToStored();
    ScopeIsNotBlank();
    t := OneMore(t, Arrive(2, 0, 9, "s"));
    var pruned := Prune(t.index, t.now);
    assert pruned == t.index;
    t := OneMore(t, ClaimStep(2));
  }

  /** Both dispatch it, and caller 1 reports its failure. */
  lemma RunToRemoved() returns (t: State)
    ensures Reachable(t) && t.now == 0 && t.index == map[] && t.nextToken == 2
    ensures t.log == [Receipt(Some(0), Failed, 10, TERMS)]
    ensures t.callers.Keys == {1, 2} && t.callers[2] == Caller(0, 9, "s", None, Dispatched(OLD))
  {
    t := RunToShared();
    t := OneMore(t, Dispatch(1));
    t := OneMore(t, Dispatch(2));
    t := OneMore(t, Report(1, Failed, 10, TERMS));
    assert t.index == map[];
  }

  /** Caller 3 takes the lease. */
  lemma RunToReclaimed() returns (t: State)
    ensures Reachable(t) && t.log == [Receipt(Some(0), Failed, 10, TERMS)]
    ensures t.index == map[0 := Attempt(9, "s", 2, Claimed, 30, None)]
    ensures 2 in t.callers && t.callers[2] == Caller(0, 9, "s", None, Dispatched(OLD))
    ensures 3 in t.callers && t.callers[3] == Caller(0, 9, "s", Some(2), Signing(2))
  {
    t := RunToRemoved();
    ScopeIsNotBlank();
    t := OneMore(t, Arrive(3, 0, 9, "s"));
    var pruned := Prune(t.index, t.now);
    assert pruned == map[];
    t := OneMore(t, ClaimStep(3));
  }

  /** It signs and stores a new payload for the same request. */
  lemma RunToResigned() returns (t: State)
    ensures Reachable(t) && t.log == [Receipt(Some(0), Failed, 10, TERMS)]
    ensures PayloadAt(t.index, 0) == Some(NEW)
    ensures 2 in t.callers && t.callers[2] == Caller(0, 9, "s", None, Dispatched(OLD))
  {
    t := RunToReclaimed();
    t := OneMore(t, Sign(3, NEW));
    t := OneMore(t, Persist(3));
  }

  /** Caller 2, still holding the old payload, reports a failure without a transaction hash, here 0:
      the new payload is removed although it never failed. */
  lemma OldFailureRemovesNewPayload() returns (t: State, t': State)
    ensures Reachable(t) && 2 in t.callers && t.callers[2].at == Dispatched(OLD) && OLD != NEW
    ensures t.callers[2].fingerprint == 0 && PayloadAt(t.index, 0) == Some(NEW)
    ensures Enabled(t, Report(2, Failed, 0, TERMS)) && t' == Apply(t, Report(2, Failed, 0, TERMS))
    ensures Reachable(t') && PayloadAt(t'.index, 0) == None
  {
    t := RunToResigned();
    t' := OneMore(t, Report(2, Failed, 0, TERMS));
  }

  /** Had it reported the hash of the old payload, which has a failed receipt, nothing would have
      been removed. */
  lemma RepeatedFailureRemovesNothing() returns (t: State, t': State)
    ensures Reachable(t) && Enabled(t, Report(2, Failed, 10, TERMS)) && t' == Apply(t, Report(2, Failed, 10, TERMS))
    ensures PayloadAt(t.index, 0) == Some(NEW) && PayloadAt(t'.index, 0) == Some(NEW)
  {
    t := RunToResigned();
    t' := OneMore(t, Report(2, Failed, 10, TERMS));
    assert TerminalFor(t.log[0], ReportFor(t, 2, Failed, 10, TERMS));
  }

  // ---- A late report cancels a live lease ----

  /** As above, but caller 1's failure carries no transaction hash; caller 3 then owns the attempt. */
  lemma RunToLeased() returns (t: State)
    ensures Reachable(t) && t.now == 0 && t.log == [Receipt(Some(0), Failed, 0, TERMS)] && t.nextToken == 3
    ensures t.index == map[0 := Attempt(9, "s", 2, Claimed, 30, None)] && t.callers.Keys == {1, 2, 3}
    ensures t.callers[2] == Caller(0, 9, "s", None, Dispatched(OLD))
    ensures t.callers[3] == Caller(0, 9, "s", Some(2), Signing(2))
  {
    t := RunToShared();
    t := OneMore(t, Dispatch(1));
    t := OneMore(t, Dispatch(2));
    t := OneMore(t, Report(1, Failed, 0, TERMS));
    assert t.index == map[];
    ScopeIsNotBlank();
    t := OneMore(t, Arrive(3, 0, 9, "s"));
    var pruned := Prune(t.index, t.now);
    assert pruned == map[];
    t := OneMore(t, ClaimStep(3));
  }

  /** Caller 2 is interrupted and reports its old payload as pending: the lease of caller 3 is reset,
      and caller 4 is sent to sign for the same request at the same moment. */
  lemma OldReportCancelsLease() returns (t: State, t': State)
    ensures Reachable(t) && t.now == 0 && 0 in t.index && t.index[0].leaseExpiresAt == 30
    ensures 3 in t.callers && t.callers[3].at == Signing(2)
    ensures Reachable(t') && t'.now == 0 && 3 in t'.callers && t'.callers[3].at == Signing(2)
    ensures 4 in t'.callers && t'.callers[4].at == Signing(3) && t'.callers[4].fingerprint == t'.callers[3].fingerprint
  {
    t := RunToLeased();
    ScopeIsNotBlank();
    t' := OneMore(t, Interrupt(2, TERMS));
    assert t'.index == map[0 := Attempt(9, "s", 2, InFlight, 0, None)];
    t' := OneMore(t', Arrive(4, 0, 9, "s"));
    var pruned := Prune(t'.index, t'.now);
    assert pruned == t'.index;
    t' := OneMore(t', ClaimStep(4));
  }
}
