/** The client's signer and the facilitator's structural and ledger checks of what it signs. */
module SignedPayments {
  import opened Common
  import opened AsciiText
  import opened CurrencyCodes
  import opened PaymentShape
  import Ledger = XrplLedger
  import Settlement

  /** An amount field: native drops as text, or an issued amount. */
  datatype Amount = Drops(text: string) | Issued(currency: string, issuer: string, value: real)

  /** An InvoiceID field.  The SHA-256 of the invoice text is taken as injective. */
  datatype InvoiceField = HashOf(invoiceId: string) | OtherHash(number: nat)

  /** A Payment transaction.  `others` names the fields that are none of these. */
  datatype Payment = Payment(
    account: string,
    destination: string,
    amount: Option<Amount>,
    deliverMax: Option<Amount>,
    sendMax: Option<Amount>,
    invoice: Option<InvoiceField>,
    destinationTag: Option<int>,
    networkId: Option<nat>,
    last: Option<int>,
    sequence: Option<nat>,
    ticket: Option<nat>,
    fee: Option<string>,
    flags: nat,
    signerAddress: string,   // the address derived from SigningPubKey
    others: set<string>)

  const TF_PARTIAL_PAYMENT := 0x0002_0000
  const STANDARD_NETWORKS := 1024

  // ---- Signing ----

  /** The signer's settings. `autofill` off means the defaults are used. */
  datatype Signer = Signer(
    address: string, network: Option<string>, autofill: bool,
    defaultFee: string, defaultSequence: nat, defaultLast: Option<int>)

  /** What the signer reads from outside: the current ledger, an unused ticket, and the values with
      which xrpl-py's `autofill` completes missing fields. */
  datatype Env = Env(
    current: Option<nat>, ticket: Option<nat>, fee: Option<string>, sequence: Option<nat>, last: Option<int>,
    networkId: Option<nat>)

  datatype SignError =
    | Shape(error: ShapeError)
    | NetworkMismatch
    | EmptyInvoice
    | NoTicket
    | FeeMissing
    | LastLedgerMissing
    | TicketOnSequence
    | SequenceMissing
    | TicketMissing
    | NetworkIdOnStandard
    | NetworkIdMissing

  function Filled<T>(field: Option<T>, value: Option<T>): Option<T> {
    if field.Some? then field else value
  }

  function SignedMethod(req: Requirements): string {
    OrElse(Typed(req.extra).transferMethod, "sequence")
  }

  /** The fields that `sign_requirements` sets itself. */
  function Draft(signer: Signer, req: Requirements, typed: Extra, env: Env): Payment {
    var id := NetworkId(req.network);
    var ticketed := SignedMethod(req) == "ticketSequence";
    var issued := Issued(req.asset, OrElse(typed.issuer, ""), DecimalValue(req.amount));
    Payment(
      signer.address,
      req.payTo,
      Some(if req.asset == "XRP" then Drops(req.amount) else issued),
      None,
      if req.asset == "XRP" then None else Some(issued),
      if typed.invoiceId.Some? then Some(HashOf(typed.invoiceId.value)) else None,
      typed.destinationTag,
      if id > STANDARD_NETWORKS then Some(id) else None,
      if env.current.Some? then Some(Settlement.MaxLastLedger(env.current.value, req.timeout)) else signer.defaultLast,
      if ticketed then Some(0) else if signer.autofill then None else Some(signer.defaultSequence),
      if ticketed then env.ticket else None,
      if signer.autofill then None else Some(signer.defaultFee),
      0,
      signer.address,
      {})
  }

  function Autofilled(p: Payment, env: Env): Payment {
    p.(fee := Filled(p.fee, env.fee), sequence := Filled(p.sequence, env.sequence),
       last := Filled(p.last, env.last), networkId := Filled(p.networkId, env.networkId))
  }

  /** `_validate_prepared`; None means the payment may be signed. */
  function ValidatePrepared(p: Payment, transferMethod: string, id: nat): Option<SignError> {
    if p.fee.None? || !IsDigits(p.fee.value) then Some(FeeMissing)
    else if p.last.None? then Some(LastLedgerMissing)
    else if transferMethod == "sequence" && p.ticket.Some? then Some(TicketOnSequence)
    else if transferMethod == "sequence" && (p.sequence.None? || p.sequence == Some(0)) then Some(SequenceMissing)
    else if transferMethod != "sequence" && (p.sequence != Some(0) || p.ticket.None?) then Some(TicketMissing)
    else if id <= STANDARD_NETWORKS && p.networkId.Some? then Some(NetworkIdOnStandard)
    else if id > STANDARD_NETWORKS && p.networkId != Some(id) then Some(NetworkIdMissing)
    else None
  }

  /** `sign_requirements`. */
  function Sign(signer: Signer, req: Requirements, env: Env): Result<Payment, SignError> {
    var shape := CheckShape(req);
    if shape.Err? then Err(Shape(shape.error))
    else if signer.network.Some? && req.network != signer.network.value then Err(NetworkMismatch)
    else if shape.value.invoiceId == Some("") then Err(EmptyInvoice)
    else if SignedMethod(req) == "ticketSequence" && env.ticket.None? then Err(NoTicket)
    else
      var draft := Draft(signer, req, shape.value, env);
      var prepared := if signer.autofill then Autofilled(draft, env) else draft;
      var problem := ValidatePrepared(prepared, SignedMethod(req), NetworkId(req.network));
      if problem.Some? then Err(problem.value) else Ok(prepared)
  }

  lemma ShapeGivesTyped(req: Requirements)
    requires CheckShape(req).Ok?
    ensures CheckShape(req).value == Typed(req.extra) && IsMethod(SignedMethod(req))
  {
  }

  lemma FilledIsValid(signer: Signer, req: Requirements, typed: Extra, env: Env)
    requires signer.autofill && env.current.Some? && env.networkId.None? && IsMethod(SignedMethod(req))
    requires env.fee.Some? && IsDigits(env.fee.value) && env.sequence.Some? && env.sequence.value > 0
    requires SignedMethod(req) == "ticketSequence" ==> env.ticket.Some?
    ensures var prepared := Autofilled(Draft(signer, req, typed, env), env);
            ValidatePrepared(prepared, SignedMethod(req), NetworkId(req.network)) == None
  {
  }

  /** Given a well-formed fill, signing fails only for the caller's own reasons: requirements of
      the wrong shape or network, an empty invoice, or no ticket. */
  lemma SignsExactly(signer: Signer, req: Requirements, env: Env)
    requires signer.autofill && env.current.Some? && env.networkId.None?
    requires env.fee.Some? && IsDigits(env.fee.value) && env.sequence.Some? && env.sequence.value > 0
    ensures Sign(signer, req, env).Ok?
            <==> && CheckShape(req).Ok?
                 && (signer.network.Some? ==> signer.network.value == req.network)
                 && Typed(req.extra).invoiceId != Some("")
                 && (SignedMethod(req) == "ticketSequence" ==> env.ticket.Some?)
  {
    if CheckShape(req).Ok? {
      ShapeGivesTyped(req);
      if SignedMethod(req) == "ticketSequence" ==> env.ticket.Some? {
        FilledIsValid(signer, req, Typed(req.extra), env);
      }
    }
  }

  // ---- Verifying ----

  /** The facilitator's settings. */
  datatype Facilitator = Facilitator(
    network: string, payTo: string, supported: set<(string, Option<string>)>, minDrops: int, maxFee: int)

  datatype Rejection =
    | BadRequirements | BadAccepted | AcceptedMismatch | FlowMismatch | BadMethod | MethodMismatch
    | WrongNetwork | WrongPayTo | AssetNotAllowed | BelowMinimum
    | UnexpectedFields | WrongDestination | FieldNotAllowed | PartialPayment | AmbiguousAmount
    | NotDrops | WrongAmount | SendMaxNotAllowed
    | NotIssued | WrongCurrency | WrongValueIssuer | WrongValue
    | SendMaxRequired | WrongSendMaxAsset | SendMaxTooLow
    | WrongTag | WrongInvoice | UnwantedNetworkId | WrongNetworkId | NoFee | FeeTooHigh
    | NoLastLedger | PaymentExpired | LastLedgerTooLarge | SignerNotAuthorized
    | TicketNotAllowed | SequenceNotCurrent | NoTicketSequence | TicketNotAvailable

  /** `_friendly_currency`; a byte above 127 leaves the hexadecimal text. */
  function Friendly(asset: string): string {
    if IsHex40(asset) && IsAscii(StripNul(DecodeHex(asset))) then Upper(StripNul(DecodeHex(asset)))
    else Upper(asset)
  }

  /** `_verify_envelope`: returns the selected sequencing method. */
  function VerifyEnvelope(f: Facilitator, accepted: Requirements, req: Requirements): Result<string, Rejection> {
    var selected := OrElse(accepted.extra.transferMethod, OrElse(req.extra.transferMethod, "sequence"));
    if CheckShape(req).Err? then Err(BadRequirements)
    else if CheckShape(accepted).Err? then Err(BadAccepted)
    else if accepted.(extra := req.extra) != req then Err(AcceptedMismatch)
    else if OrElse(accepted.extra.flow, "authorization") != OrElse(req.extra.flow, "authorization")
    then Err(FlowMismatch)
    else if accepted.extra.(transferMethod := None, flow := None) != req.extra.(transferMethod := None, flow := None)
    then Err(AcceptedMismatch)
    else if !IsMethod(selected) then Err(BadMethod)
    else if req.extra.transferMethod.Some? && selected != req.extra.transferMethod.value then Err(MethodMismatch)
    else if req.network != f.network then Err(WrongNetwork)
    else if req.payTo != f.payTo then Err(WrongPayTo)
    else if (if req.asset == "XRP" then "XRP" else Friendly(req.asset), req.extra.issuer) !in f.supported
    then Err(AssetNotAllowed)
    else if req.asset == "XRP" && IntValue(req.amount) < f.minDrops then Err(BelowMinimum)
    else Ok(selected)
  }

  /** `_verify_iou_amount`; None means it passes. */
  function VerifyIouAmount(amount: Amount, sendMax: Option<Amount>, req: Requirements): Option<Rejection> {
    if !amount.Issued? then Some(NotIssued)
    else if Ok(amount.currency) != WireCode(req.asset) then Some(WrongCurrency)
    else if Some(amount.issuer) != req.extra.issuer then Some(WrongValueIssuer)
    else if amount.value != DecimalValue(req.amount) then Some(WrongValue)
    else if sendMax.None? || !sendMax.value.Issued? then Some(SendMaxRequired)
    else if Ok(sendMax.value.currency) != WireCode(req.asset) || Some(sendMax.value.issuer) != req.extra.issuer
    then Some(WrongSendMaxAsset)
    else if sendMax.value.value < DecimalValue(req.amount) then Some(SendMaxTooLow)
    else None
  }

  function VerifyXrpAmount(amount: Amount, sendMax: Option<Amount>, req: Requirements): Option<Rejection> {
    if !amount.Drops? || !IsDigits(amount.text) then Some(NotDrops)
    else if IntValue(amount.text) != IntValue(req.amount) then Some(WrongAmount)
    else if sendMax.Some? then Some(SendMaxNotAllowed)
    else None
  }

  function VerifyAmount(tx: Payment, req: Requirements): Option<Rejection> {
    if tx.amount.Some? == tx.deliverMax.Some? then Some(AmbiguousAmount)
    else
      var amount := if tx.amount.Some? then tx.amount.value else tx.deliverMax.value;
      if req.asset == "XRP" then VerifyXrpAmount(amount, tx.sendMax, req)
      else VerifyIouAmount(amount, tx.sendMax, req)
  }

  predicate HasPartialFlag(flags: nat) { (flags / TF_PARTIAL_PAYMENT) % 2 == 1 }

  function ExpectedInvoice(req: Requirements): Option<InvoiceField> {
    if req.extra.invoiceId.Some? then Some(HashOf(req.extra.invoiceId.value)) else None
  }

  /** `_verify_structure`, reached only with requirements that passed the shape check. */
  function VerifyStructure(f: Facilitator, tx: Payment, req: Requirements): Option<Rejection> {
    var id := NetworkId(req.network);
    if tx.others != {} then Some(UnexpectedFields)
    else if tx.destination != req.payTo then Some(WrongDestination)
    else if tx.others * {"Memos", "Delegate", "Paths", "DeliverMin"} != {} then Some(FieldNotAllowed)
    else if HasPartialFlag(tx.flags) then Some(PartialPayment)
    else if VerifyAmount(tx, req).Some? then VerifyAmount(tx, req)
    else if tx.destinationTag != req.extra.destinationTag then Some(WrongTag)
    else if tx.invoice != ExpectedInvoice(req) then Some(WrongInvoice)
    else if id <= STANDARD_NETWORKS && tx.networkId.Some? then Some(UnwantedNetworkId)
    else if id > STANDARD_NETWORKS && tx.networkId != Some(id) then Some(WrongNetworkId)
    else if tx.fee.None? || !IsDigits(tx.fee.value) then Some(NoFee)
    else if IntValue(tx.fee.value) > f.maxFee then Some(FeeTooHigh)
    else None
  }

  /** The payer's account root and its unused tickets. */
  datatype Account = Account(sequence: nat, tickets: set<nat>, masterDisabled: bool, regularKey: Option<string>)

  /** `_verify_ledger_and_account_state`. */
  function VerifyState(tx: Payment, req: Requirements, transferMethod: string, current: nat, acct: Account)
    : Option<Rejection>
  {
    if tx.last.None? then Some(NoLastLedger)
    else if tx.last.value <= current then Some(PaymentExpired)
    else if tx.last.value > Settlement.MaxLastLedger(current, req.timeout) then Some(LastLedgerTooLarge)
    else if Some(tx.signerAddress) != acct.regularKey && !(tx.signerAddress == tx.account && !acct.masterDisabled)
    then Some(SignerNotAuthorized)
    else if transferMethod == "sequence" then
      if tx.ticket.Some? then Some(TicketNotAllowed)
      else if tx.sequence != Some(acct.sequence) then Some(SequenceNotCurrent)
      else None
    else if tx.sequence != Some(0) || tx.ticket.None? then Some(NoTicketSequence)
    else if tx.ticket.value !in acct.tickets then Some(TicketNotAvailable)
    else None
  }

  // ---- Agreement ----

  /** The codec keeps every value; `spell` is how it spells a currency when it decodes one. */
  function DecodedAmount(a: Option<Amount>, spell: string -> string): Option<Amount> {
    if a.Some? && a.value.Issued? then Some(a.value.(currency := spell(a.value.currency))) else a
  }

  function Decoded(p: Payment, spell: string -> string): Payment {
    p.(amount := DecodedAmount(p.amount, spell), deliverMax := DecodedAmount(p.deliverMax, spell),
       sendMax := DecodedAmount(p.sendMax, spell))
  }

  predicate OptionTrimmed(s: Option<string>) { s.Some? ==> IsTrimmed(s.value) }

  lemma StripOptionKeepsExactlyTrimmed(s: Option<string>)
    ensures StripOption(s) == s <==> OptionTrimmed(s)
  {
    if s.Some? {
      if IsTrimmed(s.value) { StripOfTrimmed(s.value); }
      StripIsTrimmed(s.value);
    }
  }

  /** Two requirements that pass the envelope check differ at most in method and flow. */
  lemma EnvelopeBinds(f: Facilitator, accepted: Requirements, req: Requirements)
    requires VerifyEnvelope(f, accepted, req).Ok?
    ensures var extra := req.extra.(transferMethod := accepted.extra.transferMethod, flow := accepted.extra.flow);
            accepted == req.(extra := extra)
    ensures CheckShape(accepted).Ok? && CheckShape(req).Ok?
  {
  }

  /** The facilitator takes payments for this asset on its own network and address. */
  predicate Serves(f: Facilitator, req: Requirements) {
    && req.network == f.network && req.payTo == f.payTo
    && (if req.asset == "XRP" then ("XRP", None) in f.supported && IntValue(req.amount) >= f.minDrops
        else (Friendly(req.asset), req.extra.issuer) in f.supported)
  }

  /** A client that echoes the requirements passes the envelope check exactly when they have the
      right shape, the facilitator serves them, and the method was sent trimmed and not empty. */
  lemma EchoPassesExactly(f: Facilitator, req: Requirements)
    ensures VerifyEnvelope(f, req, req).Ok?
            <==> && CheckShape(req).Ok? && Serves(f, req)
                 && (req.extra.transferMethod.Some? ==> IsMethod(req.extra.transferMethod.value))
  {
    if CheckShape(req).Ok? { ShapeDemands(req); }
  }

  /** Whatever the client selected, only served requirements pass, and a required method wins. */
  lemma EnvelopeServes(f: Facilitator, accepted: Requirements, req: Requirements)
    requires VerifyEnvelope(f, accepted, req).Ok?
    ensures Serves(f, req) && IsMethod(VerifyEnvelope(f, accepted, req).value)
    ensures req.extra.transferMethod.Some? ==> VerifyEnvelope(f, accepted, req).value == req.extra.transferMethod.value
  {
    ShapeDemands(req);
  }

  /** The asset survives the codec and the issuer was sent without outer white space. */
  predicate AssetSurvives(req: Requirements, spell: string -> string) {
    req.asset == "XRP" || (spell(req.asset) == req.asset && OptionTrimmed(req.extra.issuer))
  }

  /** What every signed payment carries, whatever was filled in for it. */
  predicate SignedFor(tx: Payment, req: Requirements) {
    var typed, id := Typed(req.extra), NetworkId(req.network);
    var issued := Issued(req.asset, OrElse(typed.issuer, ""), DecimalValue(req.amount));
    && tx.destination == req.payTo && tx.deliverMax.None? && tx.flags == 0 && tx.others == {}
    && tx.amount == Some(if req.asset == "XRP" then Drops(req.amount) else issued)
    && tx.sendMax == (if req.asset == "XRP" then None else Some(issued))
    && tx.destinationTag == typed.destinationTag
    && tx.invoice == (if typed.invoiceId.Some? then Some(HashOf(typed.invoiceId.value)) else None)
    && tx.networkId == (if id > STANDARD_NETWORKS then Some(id) else None)
    && tx.fee.Some? && IsDigits(tx.fee.value)
  }

  lemma SignedCarries(signer: Signer, req: Requirements, env: Env)
    requires Sign(signer, req, env).Ok?
    ensures SignedFor(Sign(signer, req, env).value, req) && CheckShape(req).Ok?
  {
  }

  /** The signed amount fields, seen through the codec, pass exactly when the asset survives. */
  lemma SignedAmountAgrees(tx: Payment, req: Requirements, spell: string -> string)
    requires SignedFor(tx, req) && WellShaped(req)
    ensures VerifyAmount(Decoded(tx, spell), req) == None <==> AssetSurvives(req, spell)
  {
    StripOptionKeepsExactlyTrimmed(req.extra.issuer);
  }

  lemma SignedStructureAgrees(f: Facilitator, tx: Payment, req: Requirements, spell: string -> string)
    requires SignedFor(tx, req) && WellShaped(req)
    ensures VerifyStructure(f, Decoded(tx, spell), req) == None
            <==> && IntValue(tx.fee.value) <= f.maxFee && AssetSurvives(req, spell)
                 && OptionTrimmed(req.extra.invoiceId)
  {
    SignedAmountAgrees(tx, req, spell);
    StripOptionKeepsExactlyTrimmed(req.extra.invoiceId);
  }

  /** The structural check does not look at method or flow. */
  lemma StructureIgnoresMethod(f: Facilitator, tx: Payment, req: Requirements, m: Option<string>, flow: Option<string>)
    ensures VerifyStructure(f, tx, req.(extra := req.extra.(transferMethod := m, flow := flow)))
         == VerifyStructure(f, tx, req)
  {
  }

  /** Signer and verifier agree on structure: for all requirements that pass the envelope check,
      whatever the signer signs for the accepted ones passes the structural check against the
      required ones exactly when its fee is within the cap, the codec spells the asset as required,
      and issuer and invoice were sent trimmed. */
  lemma SignedPassesStructure(
    f: Facilitator, signer: Signer, accepted: Requirements, req: Requirements, env: Env, spell: string -> string)
    requires VerifyEnvelope(f, accepted, req).Ok? && Sign(signer, accepted, env).Ok?
    ensures var tx := Sign(signer, accepted, env).value;
            && tx.fee.Some?
            && (VerifyStructure(f, Decoded(tx, spell), req) == None
                <==> && IntValue(tx.fee.value) <= f.maxFee && AssetSurvives(req, spell)
                     && OptionTrimmed(req.extra.invoiceId))
  {
    var tx := Sign(signer, accepted, env).value;
    SignedCarries(signer, accepted, env);
    EnvelopeBinds(f, accepted, req);
    ShapeDemands(accepted);
    SignedStructureAgrees(f, tx, accepted, spell);
    StructureIgnoresMethod(f, Decoded(tx, spell), req, accepted.extra.transferMethod, accepted.extra.flow);
  }

  /** Typed and trimmed extra fields, with the codec spelling canonical codes as they are: then
      only the fee cap is left. */
  lemma TrimmedPassesStructure(
    f: Facilitator, signer: Signer, req: Requirements, env: Env, spell: string -> string)
    requires VerifyEnvelope(f, req, req).Ok? && Sign(signer, req, env).Ok? && Typed(req.extra) == req.extra
    requires spell(req.asset) == req.asset && IntValue(Sign(signer, req, env).value.fee.value) <= f.maxFee
    ensures VerifyStructure(f, Decoded(Sign(signer, req, env).value, spell), req) == None
  {
    StripOptionKeepsExactlyTrimmed(req.extra.issuer);
    StripOptionKeepsExactlyTrimmed(req.extra.invoiceId);
    SignedPassesStructure(f, signer, req, req, env, spell);
  }

  /** The signer's method is the facilitator's selected one, unless the client dropped a required
      ticket method. */
  lemma MethodsAgreeExactly(f: Facilitator, accepted: Requirements, req: Requirements)
    requires VerifyEnvelope(f, accepted, req).Ok?
    ensures SignedMethod(accepted) == VerifyEnvelope(f, accepted, req).value
            <==> !(&& OrElse(accepted.extra.transferMethod, "") == ""
                   && req.extra.transferMethod == Some("ticketSequence"))
  {
    var m := accepted.extra.transferMethod;
    StripOptionKeepsExactlyTrimmed(m);
    StripOptionKeepsExactlyTrimmed(req.extra.transferMethod);
    assert IsTrimmed("sequence") && IsTrimmed("ticketSequence") && IsTrimmed("");
  }

  /** The payment names a slot that the account still has. */
  predicate SlotFits(tx: Payment, transferMethod: string, acct: Account) {
    if transferMethod == "sequence" then tx.sequence == Some(acct.sequence)
    else tx.ticket.Some? && tx.ticket.value in acct.tickets
  }

  predicate KeyFits(tx: Payment, acct: Account) {
    acct.regularKey == Some(tx.signerAddress) || (tx.signerAddress == tx.account && !acct.masterDisabled)
  }

  /** Signed at ledger `s` with timeout `t`, a payment passes the ledger and account check at
      exactly the ledgers from s to s + ceil(t/5) + 1, provided its slot and key fit. */
  lemma SignedPassesStateExactly(
    f: Facilitator, signer: Signer, accepted: Requirements, req: Requirements, env: Env, current: nat, acct: Account)
    requires VerifyEnvelope(f, accepted, req).Ok? && Sign(signer, accepted, env).Ok? && env.current.Some?
    requires SignedMethod(accepted) == VerifyEnvelope(f, accepted, req).value
    ensures var tx, s := Sign(signer, accepted, env).value, env.current.value;
            VerifyState(tx, req, VerifyEnvelope(f, accepted, req).value, current, acct) == None
            <==> && s <= current <= s + (req.timeout + 4) / 5 + 1
                 && SlotFits(tx, SignedMethod(accepted), acct) && KeyFits(tx, acct)
  {
    EnvelopeBinds(f, accepted, req);
  }

  // ---- What acceptance means ----

  /** Payee, asset, issuer and value that a transaction moves. */
  datatype Transfer = Transfer(payTo: string, asset: string, issuer: Option<string>, value: real)

  function TransferOf(tx: Payment): (t: Option<Transfer>)
    ensures t.Some? && t.value.issuer.None? ==> t.value.value >= 0.0
  {
    match (tx.amount, tx.deliverMax)
    case (Some(Drops(text)), None) => Some(Transfer(tx.destination, "XRP", None, IntValue(text) as real))
    case (None, Some(Drops(text))) => Some(Transfer(tx.destination, "XRP", None, IntValue(text) as real))
    case (Some(Issued(c, i, v)), None) => Some(Transfer(tx.destination, c, Some(i), v))
    case (None, Some(Issued(c, i, v))) => Some(Transfer(tx.destination, c, Some(i), v))
    case (_, _) => None
  }

  /** An accepted transaction moves exactly what the requirements ask for, in full, under their
      tag, invoice and network, and spends at least that from the same issuer. */
  lemma AcceptedNamesExactly(f: Facilitator, tx: Payment, req: Requirements)
    requires WellShaped(req) && VerifyStructure(f, tx, req) == None
    ensures var issuer := if req.asset == "XRP" then None else req.extra.issuer;
            TransferOf(tx) == Some(Transfer(req.payTo, req.asset, issuer, DecimalValue(req.amount)))
    ensures !HasPartialFlag(tx.flags) && tx.others == {}
    ensures tx.destinationTag == req.extra.destinationTag && tx.invoice == ExpectedInvoice(req)
    ensures tx.networkId == if NetworkId(req.network) > 1024 then Some(NetworkId(req.network)) else None
    ensures if req.asset == "XRP" then tx.sendMax.None?
            else && tx.sendMax.Some? && tx.sendMax.value.Issued? && tx.sendMax.value.currency == req.asset
                 && Some(tx.sendMax.value.issuer) == req.extra.issuer
                 && tx.sendMax.value.value >= DecimalValue(req.amount)
  {
    if req.asset == "XRP" { IntegerIsDecimal(req.amount); }
  }

  /** One signed transaction is never accepted for two requirements that differ in payee, asset,
      issuer, value, tag or invoice. */
  lemma AcceptedForOneDemand(f: Facilitator, tx: Payment, a: Requirements, b: Requirements)
    requires WellShaped(a) && VerifyStructure(f, tx, a) == None
    requires WellShaped(b) && VerifyStructure(f, tx, b) == None
    ensures a.payTo == b.payTo && a.asset == b.asset && DecimalValue(a.amount) == DecimalValue(b.amount)
    ensures a.extra.destinationTag == b.extra.destinationTag && a.extra.invoiceId == b.extra.invoiceId
    ensures a.asset != "XRP" ==> a.extra.issuer == b.extra.issuer
  {
    AcceptedNamesExactly(f, tx, a);
    AcceptedNamesExactly(f, tx, b);
  }

  /** The requirements as settlement sees them. */
  function SettlementView(req: Requirements): Settlement.Requirements
    requires req.timeout >= 0
  {
    Settlement.Requirements(
      req.network, req.payTo, req.asset, OrElse(req.extra.issuer, ""), DecimalValue(req.amount), req.timeout)
  }

  /** The delivered amount that full delivery of a transfer shows in the metadata. */
  function FullDelivery(t: Transfer): Ledger.Delivered
    requires t.issuer.None? ==> t.value >= 0.0
  {
    if t.issuer.None? then Ledger.DropsText(t.value.Floor)
    else Ledger.IssuedAmount(t.asset, t.issuer.value, true, t.value)
  }

  /** From signature to settlement: an accepted transaction that the ledger delivers in full is
      judged a success, and one judged a success delivered what the transaction named. */
  lemma AcceptedSettlesExactlyOnFullDelivery(f: Facilitator, tx: Payment, req: Requirements, answer: Ledger.Answer)
    requires WellShaped(req) && VerifyStructure(f, tx, req) == None
    requires answer.succeeded && !Settlement.JudgeRaises(answer, SettlementView(req))
    ensures TransferOf(tx).Some?
    ensures Settlement.Judge(answer, SettlementView(req)) == Settlement.Success
            <==> answer.delivered == FullDelivery(TransferOf(tx).value)
  {
    AcceptedNamesExactly(f, tx, req);
    if req.asset == "XRP" { IntegerIsDecimal(req.amount); }
    Settlement.JudgeSucceedsExactly(answer, SettlementView(req));
  }

  // ---- The checks can be passed ----

  const SAMPLE := Requirements(
    "exact", "xrpl:1", "XRP", "12", "payee", 60, Extra(None, Some(false), None, None, None, None))

  const UNTRIMMED := SAMPLE.(extra := SAMPLE.extra.(invoiceId := Some(" a")))
  const SERVER := Facilitator("xrpl:1", "payee", {("XRP", None)}, 1, 1000)
  const PAYER := Signer("payer", None, true, "12", 1, None)
  const AT_TEN := Env(Some(10), None, Some("9"), Some(7), None, None)

  /** A sample request goes all the way: it is signed at ledger 10 and verified at ledger 12. */
  lemma SampleIsAccepted(f: Facilitator, signer: Signer, env: Env, acct: Account, spell: string -> string)
    requires f == SERVER && signer == PAYER && env == AT_TEN && acct == Account(7, {}, false, None)
    ensures VerifyEnvelope(f, SAMPLE, SAMPLE) == Ok("sequence") && Sign(signer, SAMPLE, env).Ok?
    ensures VerifyStructure(f, Decoded(Sign(signer, SAMPLE, env).value, spell), SAMPLE) == None
    ensures VerifyState(Sign(signer, SAMPLE, env).value, SAMPLE, "sequence", 12, acct) == None
  {
    SampleIsWellShaped();
    EchoPassesExactly(f, SAMPLE);
    SignsExactly(signer, SAMPLE, env);
    assert IntValue("9") == 9 by { assert "9"[..0] == ""; }
    SignedPassesStructure(f, signer, SAMPLE, SAMPLE, env, spell);
    SignedPassesStateExactly(f, signer, SAMPLE, SAMPLE, env, 12, acct);
  }

  lemma SampleIsWellShaped()
    ensures CheckShape(SAMPLE).Ok? && IntValue(SAMPLE.amount) == 12
  {
    StripOfTrimmed("xrpl:1");
    StripOfTrimmed("XRP");
    assert "xrpl:1"[..5] == "xrpl:" && "xrpl:1"[5..] == "1";
    assert "12"[..1] == "1" && "1"[..0] == "";
    assert IntValue("1") == 1;
  }

  // ---- What is refused ----

  /** White space around the invoice is enough to be refused, whatever else is right. */
  lemma UntrimmedInvoiceIsRefused(
    f: Facilitator, signer: Signer, accepted: Requirements, req: Requirements, env: Env, spell: string -> string)
    requires VerifyEnvelope(f, accepted, req).Ok? && Sign(signer, accepted, env).Ok?
    requires req.extra.invoiceId.Some? && !IsTrimmed(req.extra.invoiceId.value)
    ensures VerifyStructure(f, Decoded(Sign(signer, accepted, env).value, spell), req) != None
  {
    SignedPassesStructure(f, signer, accepted, req, env, spell);
  }

  /** A sample: an invoice with a leading blank passes the envelope check and is signed, and the
      signed payment is refused for its invoice. */
  lemma UntrimmedSampleIsRefused(f: Facilitator, signer: Signer, env: Env, spell: string -> string)
    requires f == SERVER && signer == PAYER && env == AT_TEN
    ensures VerifyEnvelope(f, UNTRIMMED, UNTRIMMED).Ok? && Sign(signer, UNTRIMMED, env).Ok?
    ensures VerifyStructure(f, Decoded(Sign(signer, UNTRIMMED, env).value, spell), UNTRIMMED) != None
  {
    SampleIsWellShaped();
    UntrimmedIsWellShaped();
    EchoPassesExactly(f, UNTRIMMED);
    SignsExactly(signer, UNTRIMMED, env);
    UntrimmedInvoiceIsRefused(f, signer, UNTRIMMED, UNTRIMMED, env, spell);
  }

  lemma UntrimmedIsWellShaped()
    requires CheckShape(SAMPLE).Ok?
    ensures CheckShape(UNTRIMMED).Ok? && Typed(UNTRIMMED.extra).invoiceId == Some("a")
    ensures !IsTrimmed(UNTRIMMED.extra.invoiceId.value)
  {
    assert " a"[1..] == "a";
    assert StripLeft(" a") == StripLeft("a") == "a";
    StripOfTrimmed("a");
  }

  /** The ledger's own hexadecimal spelling of a three-character code: twelve zero bytes, the code,
      five zero bytes. */
  function IsoHex(code: string): (h: string)
    requires |code| == 3 && IsAscii(code)
    ensures IsHex40(h)
  {
    seq(24, i => '0') + EncodeHex40(code)[..6] + seq(10, i => '0')
  }

  /** The bytes of that spelling. */
  function IsoBytes(code: string): string { seq(12, i => '\0') + code + seq(5, i => '\0') }

  lemma IsoHexZero(code: string, i: nat)
    requires |code| == 3 && IsPrintable(code) && (i < 12 || 15 <= i < 20)
    ensures DecodeHex(IsoHex(code))[i] == '\0' && IsoBytes(code)[i] == '\0'
  {
    var h := IsoHex(code);
    assert h[2 * i] == '0' && h[2 * i + 1] == '0';
  }

  lemma IsoHexLetter(code: string, i: nat)
    requires |code| == 3 && IsPrintable(code) && i < 3
    ensures DecodeHex(IsoHex(code))[12 + i] == code[i]
  {
    var h, e := IsoHex(code), EncodeHex40(code);
    EncodedByte(code, i);
    assert h[24 + 2 * i] == e[2 * i] && h[24 + 2 * i + 1] == e[2 * i + 1];
  }

  lemma IsoHexBytes(code: string)
    requires |code| == 3 && IsPrintable(code)
    ensures DecodeHex(IsoHex(code)) == IsoBytes(code)
  {
    forall i: nat | i < 20 ensures DecodeHex(IsoHex(code))[i] == IsoBytes(code)[i] {
      if 12 <= i < 15 { IsoHexLetter(code, i - 12); } else { IsoHexZero(code, i); }
    }
  }

  lemma FriendlyIsoHex(code: string)
    requires |code| == 3 && IsPrintable(code)
    ensures Friendly(IsoHex(code)) == seq(12, i => '\0') + Upper(code)
  {
    IsoHexBytes(code);
    var name := seq(12, i => '\0') + code;
    assert DecodeHex(IsoHex(code)) == name + seq(5, i => '\0');
    StripNulPadding(name, 5);
    assert IsAscii(name);
    assert Upper(name) == seq(12, i => '\0') + Upper(code);
  }

  /** That spelling has the right shape for an issued asset, but no facilitator serves it whose
      supported codes carry no zero byte in front: it is refused at the envelope, even by one that
      supports the three-character code itself. */
  lemma IsoHexIsNeverServed(f: Facilitator, accepted: Requirements, req: Requirements, code: string)
    requires |code| == 3 && IsPrintable(code) && req.asset == IsoHex(code)
    requires forall a :: a in f.supported ==> a.0 != "" && a.0[0] != '\0'
    ensures WireCode(req.asset) == Ok(req.asset) && Normalize(req.asset) != Ok("XRP")
    ensures VerifyEnvelope(f, accepted, req).Err?
  {
    FriendlyIsoHex(code);
    IsoHexBytes(code);
    HexIsTrimmed(req.asset);
    UpperKeepsHex(req.asset);
    IsoHexIsUpper(code);
    assert Friendly(req.asset)[0] == '\0';
    IsoHexNormalizesToItself(code);
  }

  lemma IsoHexIsUpper(code: string)
    requires |code| == 3 && IsAscii(code)
    ensures Upper(IsoHex(code)) == IsoHex(code)
  {
    EncodedIsUpper(code);
    var h := IsoHex(code);
    forall i | 0 <= i < 40 ensures UpperChar(h[i]) == h[i] {
      if 24 <= i < 30 { assert h[i] == EncodeHex40(code)[i - 24] == Upper(EncodeHex40(code))[i - 24]; }
    }
  }

  /** It does pass the shape check: a request for the ledger's spelling of USD. */
  lemma IsoHexHasShape(req: Requirements)
    requires req == SAMPLE.(asset := IsoHex("USD"), extra := SAMPLE.extra.(issuer := Some("r")))
    ensures CheckShape(req).Ok?
  {
    SampleIsWellShaped();
    IntegerIsDecimal(req.amount);
    HexIsTrimmed(req.asset);
    IsoHexIsUpper("USD");
    IsoHexNormalizesToItself("USD");
    StripOfTrimmed("r");
    assert req.asset[0] == '0' && RLUSD_HEX[0] == '5';
    assert WireCode(req.asset) == Ok(req.asset);
  }

  lemma IsoHexNormalizesToItself(code: string)
    requires |code| == 3 && IsPrintable(code)
    ensures Normalize(IsoHex(code)) == Ok(Upper(IsoHex(code)))
  {
    var h := IsoHex(code);
    HexIsTrimmed(h);
    UpperKeepsHex(h);
    IsoHexBytes(code);
    var name := seq(12, i => '\0') + code;
    assert DecodeHex(h) == name + seq(5, i => '\0');
    StripNulPadding(name, 5);
    assert !IsPrintable(name) by { assert name[0] == '\0'; }
  }

  /** The structural check's own reason for memos, delegates, paths and DeliverMin is never given:
      those fields are already refused as unexpected. */
  lemma FieldReasonIsNeverGiven(f: Facilitator, tx: Payment, req: Requirements)
    ensures VerifyStructure(f, tx, req) != Some(FieldNotAllowed)
    ensures tx.others != {} ==> VerifyStructure(f, tx, req) == Some(UnexpectedFields)
  {
  }

  /** Where the remaining fields of a signed payment come from. */
  lemma SignedSlotAndFee(signer: Signer, req: Requirements, env: Env)
    requires Sign(signer, req, env).Ok?
    ensures var tx, ticketed := Sign(signer, req, env).value, SignedMethod(req) == "ticketSequence";
            && tx.account == signer.address && tx.signerAddress == signer.address
            && tx.fee == (if signer.autofill then env.fee else Some(signer.defaultFee))
            && tx.sequence == (if ticketed then Some(0)
                               else if signer.autofill then env.sequence else Some(signer.defaultSequence))
            && tx.ticket == (if ticketed then env.ticket else None)
            && (env.current == None ==>
                  tx.last == if signer.defaultLast.Some? then signer.defaultLast
                             else if signer.autofill then env.last else None)
            && (env.current.Some? ==> tx.last == Some(env.current.value + (req.timeout + 4) / 5 + 2))
  {
  }
}
