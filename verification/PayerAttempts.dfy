/** Payers over one journal.  Any number of callers (HTTP or MCP) claim, sign, persist, dispatch
    and record, interleaved step by step; clocks may jump, leases may expire and be taken over,
    and a caller may crash anywhere. */
module PayerAttempts {
  import opened Common
  import opened ReceiptJournal

  datatype Point =
    | Asking                                  // inside the claim-or-wait loop
    | Signing(token: nat)                     // owns the lease, has no payload yet
    | Signed(token: nat, payload: Payload)    // signed, not yet persisted
    | Holding(payload: Payload)               // has the durable payload, not yet dispatched
    | Dispatched(payload: Payload)            // the paid request crossed the transport boundary
    | Releasing(owner: Option<nat>)
    | Done

  datatype Caller = Caller(fingerprint: nat, payer: nat, scope: string, owner: Option<nat>, at: Point)

  datatype State = State(index: Index, log: seq<Receipt>, now: int, nextToken: nat, callers: map<nat, Caller>)

  datatype Step =
    | Tick(now: int)
    | Arrive(caller: nat, fingerprint: nat, payer: nat, scope: string)
    | ClaimStep(caller: nat)
    | Sign(caller: nat, payload: Payload)
    | Persist(caller: nat)
    | Refuse(caller: nat)                     // the payload does not match the challenge
    | Dispatch(caller: nat)
    | Report(caller: nat, outcome: Outcome, tx: nat, accepted: Accepted)
    | Interrupt(caller: nat, accepted: Accepted)   // an exception with the payload in hand
    | Release(caller: nat)
    | Crash(caller: nat)
    | PruneStep

  predicate Has(s: State, c: nat) { c in s.callers }

  predicate Enabled(s: State, step: Step) {
    match step
    case Tick(_) => true
    case Arrive(c, _, _, _) => c !in s.callers
    case ClaimStep(c) => Has(s, c) && s.callers[c].at.Asking?
    case Sign(c, _) => Has(s, c) && s.callers[c].at.Signing?
    case Persist(c) => Has(s, c) && s.callers[c].at.Signed?
    case Refuse(c) => Has(s, c) && s.callers[c].at.Holding?
    case Dispatch(c) => Has(s, c) && s.callers[c].at.Holding?
    case Report(c, _, _, _) => Has(s, c) && s.callers[c].at.Dispatched?
    case Interrupt(c, _) => Has(s, c) && (s.callers[c].at.Holding? || s.callers[c].at.Dispatched?)
    case Release(c) => Has(s, c) && (s.callers[c].at.Releasing? || s.callers[c].at.Signing? || s.callers[c].at.Signed?)
    case Crash(c) => Has(s, c)
    case PruneStep => true
  }

  function Move(s: State, c: nat, at: Point): State
    requires c in s.callers
  {
    s.(callers := s.callers[c := s.callers[c].(at := at)])
  }

  function AfterClaim(r: Result<Claim, JournalError>): Point {
    match r
    case Err(_) => Done
    case Ok(claim) =>
      if claim.owner.Some? then Signing(claim.owner.value)
      else if claim.attempt.payload.Some? then Holding(claim.attempt.payload.value)
      else Asking
  }

  function AfterPersist(owner: Option<nat>, r: Result<Attempt, JournalError>): Point {
    match r
    case Err(_) => Releasing(owner)
    case Ok(attempt) => if attempt.payload.Some? then Holding(attempt.payload.value) else Releasing(owner)
  }

  function ReportFor(s: State, c: nat, outcome: Outcome, tx: nat, accepted: Accepted): Receipt
    requires c in s.callers
  {
    Receipt(Some(s.callers[c].fingerprint), outcome, tx, accepted)
  }

  function Recorded(s: State, r: Receipt): State {
    s.(index := RecordIndex(s.index, s.log, r, s.now, TERMINAL_REUSE_SECONDS), log := RecordLog(s.log, r))
  }

  function Apply(s: State, step: Step): State
    requires Enabled(s, step)
  {
    match step
    case Tick(now) => s.(now := now)
    case Arrive(c, f, payer, scope) =>
      s.(callers := s.callers[c := Caller(f, payer, scope, None, Asking)])
    case ClaimStep(c) =>
      var k := s.callers[c];
      var (index, r) := ClaimIndex(s.index, k.fingerprint, k.payer, k.scope, s.now, ATTEMPT_LEASE_SECONDS, s.nextToken);
      s.(index := index, nextToken := s.nextToken + 1,
         callers := s.callers[c := k.(at := AfterClaim(r), owner := if r.Ok? then r.value.owner else None)])
    case Sign(c, payload) => Move(s, c, Signed(s.callers[c].at.token, payload))
    case Persist(c) =>
      var k := s.callers[c];
      var (index, r) := PersistIndex(s.index, k.fingerprint, Some(k.at.token), k.at.payload);
      Move(s.(index := index), c, AfterPersist(Some(k.at.token), r))
    case Refuse(c) => Move(s, c, Releasing(s.callers[c].owner))
    case Dispatch(c) => Move(s, c, Dispatched(s.callers[c].at.payload))
    case Report(c, outcome, tx, accepted) =>
      Move(Recorded(s, ReportFor(s, c, outcome, tx, accepted)), c, Done)
    case Interrupt(c, accepted) =>
      var r := ReportFor(s, c, Pending, s.callers[c].at.payload.tx, accepted);
      Move(Recorded(s, r), c, Releasing(s.callers[c].owner))
    case Release(c) =>
      Move(s.(index := ReleaseIndex(s.index, s.callers[c].fingerprint, s.callers[c].owner)), c, Done)
    case Crash(c) => Move(s, c, Done)
    case PruneStep => s.(index := Prune(s.index, s.now))
  }

  // ---- Traces ----

  predicate Initial(s: State) { s.index == map[] && s.log == [] && s.callers == map[] }

  predicate IsTrace(states: seq<State>, steps: seq<Step>) {
    && |states| == |steps| + 1
    && Initial(states[0])
    && forall i :: 0 <= i < |steps| ==> Enabled(states[i], steps[i]) && states[i + 1] == Apply(states[i], steps[i])
  }

  function PayloadAt(index: Index, f: nat): Option<Payload> {
    if f in index then index[f].payload else None
  }

  /** The only two ways in which a stored payload goes away: its caller reports a failure, or the
      attempt was paid and its reuse window has passed. */
  predicate MayRemove(s: State, step: Step, f: nat) {
    || (step.Report? && Has(s, step.caller) && s.callers[step.caller].fingerprint == f && step.outcome == Failed)
    || ((step.ClaimStep? || step.PruneStep?) && f in s.index && ExpiredPaid(s.index[f], s.now))
  }

  /** In one step a stored payload stays or is removed for one of those reasons; it is never
      replaced. */
  lemma PayloadStaysOrIsRemoved(s: State, step: Step, f: nat)
    requires Enabled(s, step) && PayloadAt(s.index, f).Some?
    ensures var after := PayloadAt(Apply(s, step).index, f);
            after == PayloadAt(s.index, f) || (after.None? && MayRemove(s, step, f))
  {
  }

  /** The caller just obtained a payload, from the index or by persisting its own. */
  predicate Obtains(s: State, step: Step, s': State, c: nat, p: Payload) {
    && (step == ClaimStep(c) || step == Persist(c))
    && Has(s', c) && s'.callers[c].at == Holding(p)
  }

  /** What a caller obtains is what the index durably holds at that moment. */
  lemma ObtainedIsStored(s: State, step: Step, c: nat, p: Payload)
    requires Enabled(s, step) && Obtains(s, step, Apply(s, step), c, p)
    ensures PayloadAt(Apply(s, step).index, s.callers[c].fingerprint) == Some(p)
  {
  }

  predicate RemovedAt(states: seq<State>, steps: seq<Step>, k: nat, f: nat)
    requires k < |steps| && |states| == |steps| + 1
  {
    && PayloadAt(states[k].index, f).Some? && PayloadAt(states[k + 1].index, f).None?
    && MayRemove(states[k], steps[k], f)
  }

  lemma {:induction false} StoredUntilRemoved(states: seq<State>, steps: seq<Step>, f: nat, i: nat, j: nat)
    requires IsTrace(states, steps) && i <= j <= |steps|
    requires PayloadAt(states[i].index, f).Some?
    requires forall k :: i <= k < j ==> !RemovedAt(states, steps, k, f)
    ensures PayloadAt(states[j].index, f) == PayloadAt(states[i].index, f)
    decreases j - i
  {
    if i < j {
      StoredUntilRemoved(states, steps, f, i, j - 1);
      assert !RemovedAt(states, steps, j - 1, f);
      PayloadStaysOrIsRemoved(states[j - 1], steps[j - 1], f);
    }
  }

  /** One signed payload per attempt: over every interleaving, crash and lease takeover, two
      callers that obtain payloads for one fingerprint obtain the same payload, unless in between
      it was removed by a reported failure or by pruning an expired paid attempt. */
  lemma OnePayloadPerAttempt(
    states: seq<State>, steps: seq<Step>, i: nat, c: nat, p: Payload, j: nat, d: nat, q: Payload)
    requires IsTrace(states, steps) && i < j < |steps|
    requires Obtains(states[i], steps[i], states[i + 1], c, p)
    requires Obtains(states[j], steps[j], states[j + 1], d, q)
    requires states[i].callers[c].fingerprint == states[j].callers[d].fingerprint
    requires forall k :: i < k <= j ==> !RemovedAt(states, steps, k, states[i].callers[c].fingerprint)
    ensures p == q
  {
    var f := states[i].callers[c].fingerprint;
    ObtainedIsStored(states[i], steps[i], c, p);
    StoredUntilRemoved(states, steps, f, i + 1, j + 1);
    ObtainedIsStored(states[j], steps[j], d, q);
  }

  ghost predicate StoredBefore(states: seq<State>, n: nat, f: nat, p: Payload)
    requires n < |states|
  {
    exists i :: 0 <= i <= n && PayloadAt(states[i].index, f) == Some(p)
  }

  predicate InHand(at: Point, p: Payload) {
    at == Holding(p) || at == Dispatched(p)
  }

  lemma {:induction false} HeldWasStored(states: seq<State>, steps: seq<Step>, n: nat, c: nat, p: Payload)
    requires IsTrace(states, steps) && n <= |steps|
    requires Has(states[n], c) && InHand(states[n].callers[c].at, p)
    ensures StoredBefore(states, n, states[n].callers[c].fingerprint, p)
    decreases n
  {
    assert n > 0;
    var s, step := states[n - 1], steps[n - 1];
    if Obtains(s, step, states[n], c, p) {
      ObtainedIsStored(s, step, c, p);
    } else {
      HeldComesFromBefore(s, step, c, p);
      HeldWasStored(states, steps, n - 1, c, p);
    }
  }

  lemma HeldComesFromBefore(s: State, step: Step, c: nat, p: Payload)
    requires Enabled(s, step) && Has(Apply(s, step), c) && InHand(Apply(s, step).callers[c].at, p)
    requires !Obtains(s, step, Apply(s, step), c, p)
    ensures Has(s, c) && InHand(s.callers[c].at, p)
    ensures s.callers[c].fingerprint == Apply(s, step).callers[c].fingerprint
  {
  }

  /** Durable before dispatch: when a caller dispatches a payload, the index held exactly that
      payload for its fingerprint at some moment before. */
  lemma StoredBeforeDispatch(states: seq<State>, steps: seq<Step>, j: nat, c: nat)
    requires IsTrace(states, steps) && j < |steps| && steps[j] == Dispatch(c)
    ensures StoredBefore(states, j, states[j].callers[c].fingerprint, states[j].callers[c].at.payload)
  {
    HeldWasStored(states, steps, j, c, states[j].callers[c].at.payload);
  }

  // ---- Leases ----

  ghost predicate TokensFresh(s: State) {
    && (forall f :: f in s.index ==> s.index[f].owner < s.nextToken)
    && (forall c :: c in s.callers && s.callers[c].owner.Some? ==> s.callers[c].owner.value < s.nextToken)
    && (forall c :: c in s.callers && (s.callers[c].at.Signing? || s.callers[c].at.Signed?)
                    ==> s.callers[c].owner == Some(s.callers[c].at.token))
    && (forall c, d :: c in s.callers && d in s.callers && c != d && s.callers[c].owner.Some?
                       ==> s.callers[c].owner != s.callers[d].owner)
  }

  lemma ClaimKeepsTokensFresh(s: State, c: nat)
    requires TokensFresh(s) && Enabled(s, ClaimStep(c))
    ensures TokensFresh(Apply(s, ClaimStep(c)))
  {
  }

  /** Every other step changes no owner token and adds no index entry. */
  lemma OthersKeepOwners(s: State, step: Step)
    requires Enabled(s, step) && !step.ClaimStep?
    ensures var s' := Apply(s, step);
            && s'.nextToken == s.nextToken
            && (forall f :: f in s'.index ==> f in s.index && s'.index[f].owner == s.index[f].owner)
            && (forall c :: c in s'.callers ==>
                  && (c in s.callers ==> s'.callers[c].owner == s.callers[c].owner)
                  && (c !in s.callers ==> s'.callers[c].owner.None? && s'.callers[c].at.Asking?)
                  && (s'.callers[c].at.Signing? ==> c in s.callers && s.callers[c].at == s'.callers[c].at)
                  && (s'.callers[c].at.Signed? ==>
                        c in s.callers
                        && (s.callers[c].at == s'.callers[c].at
                            || s.callers[c].at == Signing(s'.callers[c].at.token))))
  {
  }

  lemma TokensStayFresh(s: State, step: Step)
    requires TokensFresh(s) && Enabled(s, step)
    ensures TokensFresh(Apply(s, step))
  {
    if step.ClaimStep? {
      ClaimKeepsTokensFresh(s, step.caller);
    } else {
      OthersKeepOwners(s, step);
    }
  }

  lemma {:induction false} TokensAlwaysFresh(states: seq<State>, steps: seq<Step>, n: nat)
    requires IsTrace(states, steps) && n <= |steps|
    ensures TokensFresh(states[n])
    decreases n
  {
    if n > 0 {
      TokensAlwaysFresh(states, steps, n - 1);
      TokensStayFresh(states[n - 1], steps[n - 1]);
    }
  }

  /** In every run at most one caller can turn its signature into the stored payload of a
      fingerprint: of two callers that both signed for it, at most one is accepted by persist. */
  lemma OneSignerCanPersist(states: seq<State>, steps: seq<Step>, n: nat, c: nat, d: nat)
    requires IsTrace(states, steps) && n <= |steps| && c != d
    requires Has(states[n], c) && states[n].callers[c].at.Signed?
    requires Has(states[n], d) && states[n].callers[d].at.Signed?
    requires states[n].callers[c].fingerprint == states[n].callers[d].fingerprint
    requires PayloadAt(states[n].index, states[n].callers[c].fingerprint).None?
    ensures var s := states[n];
            var f := s.callers[c].fingerprint;
            !(PersistIndex(s.index, f, Some(s.callers[c].at.token), s.callers[c].at.payload).1.Ok?
              && PersistIndex(s.index, f, Some(s.callers[d].at.token), s.callers[d].at.payload).1.Ok?)
  {
    TokensAlwaysFresh(states, steps, n);
  }

  // ---- Whose failure removes a payload ----

  /** A reported failure removes whatever payload the fingerprint holds, also one signed after the
      reporter's own, exactly when no terminal receipt is kept for the reported transaction. */
  lemma FailureOfAnyPayloadRemoves(s: State, c: nat, tx: nat, accepted: Accepted)
    requires Has(s, c) && s.callers[c].at.Dispatched?
    requires PayloadAt(s.index, s.callers[c].fingerprint).Some?
    ensures var r := ReportFor(s, c, Failed, tx, accepted);
            PayloadAt(Apply(s, Report(c, Failed, tx, accepted)).index, s.callers[c].fingerprint).None?
            <==> forall i :: 0 <= i < |s.log| ==> !TerminalFor(s.log[i], r)
  {
  }
}
