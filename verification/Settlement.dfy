/** Facilitator settlement.  Any number of `settle` calls, in any number of facilitator
    instances, interleave step by step over one shared store and one ledger, and may crash
    between any two steps. */
module Settlement {
  import opened Common
  import opened XrplLedger
  import Store = SettlementStore

  /** The payment requirements that settlement looks at.  `asset` is the canonical wire code,
      which the shape check demands, so `xrpl_currency_code(asset)` is `asset` itself. */
  datatype Requirements = Requirements(
    network: string, payTo: string, asset: string, issuer: string, amount: real, timeout: nat)

  /** `requirements_fingerprint`, taken as injective: the signed blob, the requirements, the
      payment identifier and everything else that is hashed in (resource, extensions). */
  datatype Fingerprint = Fingerprint(tx: Tx, req: Requirements, identifier: Option<nat>, context: nat)

  datatype Reason =
    | Expired                  // transaction_expired
    | ResultCode(code: nat)    // transaction_failed: <code>
    | MissingMetadata
    | AmountUnavailable        // transaction_failed: delivered_amount_unavailable
    | AmountMismatch           // transaction_failed: delivered_amount_mismatch

  datatype Outcome = Success | Failure(reason: Reason)

  // ---- Judging a validated answer ----

  /** `_delivered_amount_error`; None means the delivered amount is exact. */
  function DeliveredError(d: Delivered, req: Requirements): Option<Reason> {
    if d.NoMetadata? then Some(MissingMetadata)
    else if d.Unavailable? then Some(AmountUnavailable)
    else if req.asset == "XRP" then
      if d.DropsText? && d.drops as real == req.amount then None else Some(AmountMismatch)
    else if !d.IssuedAmount? then Some(AmountMismatch)
    else if d.currency != req.asset || d.issuer != req.issuer || d.value != req.amount
    then Some(AmountMismatch)
    else None
  }

  /** Comparing decimals raises when the delivered value is not decimal text. */
  predicate ComparisonRaises(d: Delivered, req: Requirements) {
    && req.asset != "XRP" && d.IssuedAmount?
    && d.currency == req.asset && d.issuer == req.issuer && !d.isDecimal
  }

  /** The verdict that both the polling loop and reconciliation reach on a validated answer. */
  function Judge(answer: Answer, req: Requirements): Outcome {
    if !answer.succeeded then Failure(ResultCode(answer.code))
    else match DeliveredError(answer.delivered, req)
      case None => Success
      case Some(reason) => Failure(reason)
  }

  predicate JudgeRaises(answer: Answer, req: Requirements) {
    answer.succeeded && ComparisonRaises(answer.delivered, req)
  }

  /** Independent statement of "delivered exactly what was required". */
  ghost predicate DeliveredExactly(d: Delivered, req: Requirements) {
    if req.asset == "XRP" then d.DropsText? && d.drops as real == req.amount
    else d == IssuedAmount(req.asset, req.issuer, true, req.amount)
  }

  /** Success is reached exactly on a tesSUCCESS that delivered the required amount of the
      required asset from the required issuer. */
  lemma JudgeSucceedsExactly(answer: Answer, req: Requirements)
    requires !JudgeRaises(answer, req)
    ensures Judge(answer, req) == Success
            <==> answer.succeeded && DeliveredExactly(answer.delivered, req)
  {
  }

  // ---- Records, calls and the global state ----

  datatype Record = Record(fp: Fingerprint, first: nat, outcome: Option<Outcome>)

  function StatusOf(r: Record): Store.Status {
    match r.outcome
    case None => Store.Pending
    case Some(Success) => Store.Validated
    case Some(Failure(_)) => Store.Failed
  }

  datatype Response =
    | Answered(record: Record)   // the terminal state of the hash
    | StillPending               // settlement_pending
    | HashMismatch               // transaction_hash_request_mismatch
    | Invalid                    // verification failed; the response carries no hash

  datatype Pc =
    | Started
    | CheckingLedger
    | CheckingAccount
    | Verified
    | Reserving(first: nat)
    | LostRace
    | Submitting(record: Record)
    | Waiting(record: Record, polls: nat)
    | Reconciling(record: Record)
    | SeenAbsent(record: Record)
    | Recording(record: Record)
    | Finished(response: Response)
    | Crashed

  datatype Call = Call(fp: Fingerprint, pc: Pc)

  datatype Event =
    | VerifyStarted(call: nat, fp: Fingerprint)
    | Reserved(call: nat, fp: Fingerprint)
    | Submitted(call: nat, fp: Fingerprint)
    | Settled(tx: Tx)            // the stored record turned terminal
    | Responded(call: nat, fp: Fingerprint, response: Response)
    | Evicted(tx: Tx)

  datatype State = State(
    ledger: Ledger,
    store: map<Tx, Store.Entry<Record>>,
    calls: map<nat, Call>,
    log: seq<Event>)

  const VALIDATION_TIMEOUT: nat := 15

  const LEDGER_CLOSE_SECONDS: int := 5

  /** `get_max_last_ledger_sequence`, with the quotient rounded up. */
  function MaxLastLedger(index: nat, timeout: int): int {
    index + (timeout + LEDGER_CLOSE_SECONDS - 1) / LEDGER_CLOSE_SECONDS + 2
  }

  // ---- Steps ----

  datatype Step =
    | CloseLedger(batch: seq<Entry>)
    | Start(call: nat, fp: Fingerprint)
    | Get(call: nat)
    | VerifyLedger(call: nat)
    | VerifyAccount(call: nat)
    | Reject(call: nat)            // any other verification check fails
    | ReadFirstLedger(call: nat)
    | ReserveHash(call: nat)
    | GetAgain(call: nat)
    | Submit(call: nat, answered: bool)
    | Poll(call: nat, found: bool)
    | Lookup(call: nat)
    | LookupAbsent(call: nat)
    | LookupUncertain(call: nat)
    | ReadExpiryLedger(call: nat, available: bool)
    | RecordOutcome(call: nat)
    | Crash(call: nat)
    | Evict(tx: Tx)

  /** The lookup answers "not found, searched all": every ledger up to LastLedgerSequence is
      available and the hash is in none of the ledgers from the recorded first one on. */
  predicate AuthoritativelyAbsent(l: Ledger, r: Record) {
    && r.fp.tx.last <= l.index
    && (r.fp.tx in l.included ==> l.included[r.fp.tx].index < r.first)
  }

  /** Before the call's first-ledger read; other checks of `verify` may still refuse it. */
  predicate InVerification(pc: Pc) { pc.CheckingLedger? || pc.CheckingAccount? || pc.Verified? }

  predicate At(s: State, c: nat) { c in s.calls }

  predicate Enabled(s: State, step: Step) {
    match step
    case CloseLedger(batch) => BatchAllowed(s.ledger, batch)
    case Start(c, _) => c !in s.calls
    case Get(c) => At(s, c) && s.calls[c].pc.Started?
    case VerifyLedger(c) => At(s, c) && s.calls[c].pc.CheckingLedger?
    case VerifyAccount(c) => At(s, c) && s.calls[c].pc.CheckingAccount?
    case Reject(c) => At(s, c) && InVerification(s.calls[c].pc)
    case ReadFirstLedger(c) => At(s, c) && s.calls[c].pc.Verified?
    case ReserveHash(c) => At(s, c) && s.calls[c].pc.Reserving?
    case GetAgain(c) => At(s, c) && s.calls[c].pc.LostRace?
    case Submit(c, _) => At(s, c) && s.calls[c].pc.Submitting?
    case Poll(c, found) => At(s, c) && s.calls[c].pc.Waiting?
                           && (found ==> s.calls[c].pc.polls > 0 && s.calls[c].pc.record.fp.tx in s.ledger.included)
    case Lookup(c) => At(s, c) && s.calls[c].pc.Reconciling? && s.calls[c].pc.record.fp.tx in s.ledger.included
    case LookupAbsent(c) => At(s, c) && s.calls[c].pc.Reconciling?
                            && AuthoritativelyAbsent(s.ledger, s.calls[c].pc.record)
    case LookupUncertain(c) => At(s, c) && s.calls[c].pc.Reconciling?
    case ReadExpiryLedger(c, _) => At(s, c) && s.calls[c].pc.SeenAbsent?
    case RecordOutcome(c) => At(s, c) && s.calls[c].pc.Recording?
    case Crash(c) => At(s, c) && !s.calls[c].pc.Finished?
    case Evict(tx) => Store.Evictable(s.store, tx)
  }

  /** What one step of a call does: its next program point, the store, and the events to log. */
  datatype Effect = Effect(pc: Pc, store: map<Tx, Store.Entry<Record>>, events: seq<Event>)

  function Goto(s: State, pc: Pc): Effect {
    Effect(pc, s.store, [])
  }

  function Respond(s: State, c: nat, response: Response): Effect
    requires c in s.calls
  {
    Effect(Finished(response), s.store, [Responded(c, s.calls[c].fp, response)])
  }

  /** A stored record was read: refuse another fingerprint, report a terminal record, reconcile
      a pending one. */
  function UseRecord(s: State, c: nat, record: Record): Effect
    requires c in s.calls
  {
    if record.fp != s.calls[c].fp then Respond(s, c, HashMismatch)
    else if record.outcome.Some? then Respond(s, c, Answered(record))
    else Goto(s, Reconciling(record))
  }

  /** A validated answer was read for the record's hash. */
  function UseAnswer(s: State, record: Record): Effect
    requires record.fp.tx in s.ledger.included
  {
    var answer := s.ledger.included[record.fp.tx].answer;
    if JudgeRaises(answer, record.fp.req) then Goto(s, Crashed)
    else Goto(s, Recording(record.(outcome := Some(Judge(answer, record.fp.req)))))
  }

  /** SET NX of a pending record; only the winner goes on to submit, and only before expiry. */
  function TryReserve(s: State, c: nat, first: nat): Effect
    requires c in s.calls
  {
    var fp := s.calls[c].fp;
    var record := Record(fp, first, None);
    if fp.tx in s.store then Goto(s, LostRace)
    else Effect(if first >= fp.tx.last then Reconciling(record) else Submitting(record),
                Store.Reserve(s.store, fp.tx, Store.Pending, record),
                [Reserved(c, fp)])
  }

  /** The monotonic update of the stored record, and the response built from the call's own copy. */
  function WriteOutcome(s: State, c: nat, record: Record): Effect
    requires c in s.calls
  {
    var tx := record.fp.tx;
    var settles := tx in s.store && s.store[tx].status == Store.Pending;
    Effect(Finished(Answered(record)),
           Store.Update(s.store, tx, StatusOf(record), record),
           (if settles then [Settled(tx)] else []) + [Responded(c, s.calls[c].fp, Answered(record))])
  }

  predicate IsCallStep(step: Step) {
    !step.CloseLedger? && !step.Start? && !step.Evict?
  }

  function CallEffect(s: State, step: Step): Effect
    requires Enabled(s, step) && IsCallStep(step)
  {
    var c := step.call;
    var fp, pc := s.calls[c].fp, s.calls[c].pc;
    match step
    case Get(_) =>
      if fp.tx in s.store then UseRecord(s, c, s.store[fp.tx].body)
      else Effect(CheckingLedger, s.store, [VerifyStarted(c, fp)])
    case VerifyLedger(_) =>
      if s.ledger.index < fp.tx.last <= MaxLastLedger(s.ledger.index, fp.req.timeout)
      then Goto(s, CheckingAccount) else Respond(s, c, Invalid)
    case VerifyAccount(_) =>
      if SlotAvailable(s.ledger, fp.tx) then Goto(s, Verified) else Respond(s, c, Invalid)
    case Reject(_) => Respond(s, c, Invalid)
    case ReadFirstLedger(_) => Goto(s, Reserving(s.ledger.index))
    case ReserveHash(_) => TryReserve(s, c, pc.first)
    case GetAgain(_) =>
      if fp.tx in s.store then UseRecord(s, c, s.store[fp.tx].body) else Respond(s, c, StillPending)
    case Submit(_, answered) =>
      if answered then Effect(Waiting(pc.record, VALIDATION_TIMEOUT), s.store, [Submitted(c, fp)])
      else Effect(Finished(StillPending), s.store, [Submitted(c, fp), Responded(c, fp, StillPending)])
    case Poll(_, found) =>
      if pc.polls == 0 then Respond(s, c, StillPending)
      else if found then UseAnswer(s, pc.record)
      else Goto(s, Waiting(pc.record, pc.polls - 1))
    case Lookup(_) => UseAnswer(s, pc.record)
    case LookupAbsent(_) => Goto(s, SeenAbsent(pc.record))
    case LookupUncertain(_) => Respond(s, c, StillPending)
    case ReadExpiryLedger(_, available) =>
      if available && s.ledger.index >= pc.record.fp.tx.last
      then Goto(s, Recording(pc.record.(outcome := Some(Failure(Expired)))))
      else Respond(s, c, StillPending)
    case RecordOutcome(_) => WriteOutcome(s, c, pc.record)
    case Crash(_) => Goto(s, Crashed)
  }

  function Commit(s: State, c: nat, e: Effect): State
    requires c in s.calls
  {
    State(s.ledger, e.store, s.calls[c := Call(s.calls[c].fp, e.pc)], s.log + e.events)
  }

  function Apply(s: State, step: Step): State
    requires Enabled(s, step)
  {
    match step
    case CloseLedger(batch) => s.(ledger := Close(s.ledger, batch))
    case Start(c, fp) => s.(calls := s.calls[c := Call(fp, Started)])
    case Evict(tx) => s.(store := s.store - {tx}, log := s.log + [Evicted(tx)])
    case _ => Commit(s, step.call, CallEffect(s, step))
  }

  ghost predicate Initial(s: State) {
    Wf(s.ledger) && s.store == map[] && s.calls == map[] && s.log == []
  }

  /** `t` is reached from `s` by taking `steps` in order. */
  ghost predicate Reaches(s: State, steps: seq<Step>, t: State)
    decreases |steps|
  {
    if steps == [] then s == t
    else Enabled(s, steps[0]) && Reaches(Apply(s, steps[0]), steps[1..], t)
  }
}
