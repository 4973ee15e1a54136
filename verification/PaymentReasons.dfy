/** The reasons that signer and facilitator give for refusing a payment are true ones. */
module PaymentReasons {
  import opened Common
  import opened CurrencyCodes
  import opened PaymentShape
  import opened SignedPayments

  // ---- The structural check ----

  lemma XrpReasonIsTrue(amount: Amount, sendMax: Option<Amount>, req: Requirements)
    ensures var r := VerifyXrpAmount(amount, sendMax, req);
            && (r == Some(NotDrops) <==> !(amount.Drops? && IsDigits(amount.text)))
            && (r == Some(WrongAmount) ==> amount.Drops? && IntValue(amount.text) != IntValue(req.amount))
            && (r == Some(SendMaxNotAllowed) ==> sendMax.Some?)
            && (r.Some? ==> r.value in {NotDrops, WrongAmount, SendMaxNotAllowed})
  {
  }

  lemma IouReasonIsTrue(amount: Amount, sendMax: Option<Amount>, req: Requirements)
    requires WireCode(req.asset) == Ok(req.asset)
    ensures var r := VerifyIouAmount(amount, sendMax, req);
            && (r == Some(NotIssued) <==> amount.Drops?)
            && (r == Some(WrongCurrency) ==> amount.Issued? && amount.currency != req.asset)
            && (r == Some(WrongValueIssuer) ==> amount.Issued? && Some(amount.issuer) != req.extra.issuer)
            && (r == Some(WrongValue) ==> amount.Issued? && amount.value != DecimalValue(req.amount))
            && (r == Some(SendMaxRequired) ==> sendMax == None || sendMax.value.Drops?)
            && (r == Some(WrongSendMaxAsset) ==>
                  && sendMax.Some? && sendMax.value.Issued?
                  && (sendMax.value.currency != req.asset || Some(sendMax.value.issuer) != req.extra.issuer))
            && (r == Some(SendMaxTooLow) ==>
                  sendMax.Some? && sendMax.value.Issued? && sendMax.value.value < DecimalValue(req.amount))
            && (r == None ==> && amount == Issued(req.asset, amount.issuer, DecimalValue(req.amount))
                              && Some(amount.issuer) == req.extra.issuer && sendMax.Some?
                              && sendMax.value == Issued(req.asset, amount.issuer, sendMax.value.value)
                              && sendMax.value.value >= DecimalValue(req.amount))
            && (r.Some? ==> r.value in {NotIssued, WrongCurrency, WrongValueIssuer, WrongValue, SendMaxRequired,
                                        WrongSendMaxAsset, SendMaxTooLow})
  {
  }

  /** The one amount field that a payment may have. */
  lemma AmountFieldExactly(tx: Payment, req: Requirements)
    ensures VerifyAmount(tx, req) == Some(AmbiguousAmount)
            <==> (tx.amount.Some? && tx.deliverMax.Some?) || (tx.amount == None && tx.deliverMax == None)
    ensures forall a :: (tx.amount == Some(a) && tx.deliverMax == None)
                        || (tx.amount == None && tx.deliverMax == Some(a))
                        ==> VerifyAmount(tx, req) == if req.asset == "XRP" then VerifyXrpAmount(a, tx.sendMax, req)
                                                     else VerifyIouAmount(a, tx.sendMax, req)
  {
  }

  /** The structural check names a defect that the transaction has; amount defects are those above. */
  lemma StructureReasonIsTrue(f: Facilitator, tx: Payment, req: Requirements)
    ensures var r, id := VerifyStructure(f, tx, req), NetworkId(req.network);
            && (r == Some(UnexpectedFields) <==> tx.others != {})
            && (r == Some(WrongDestination) ==> tx.destination != req.payTo)
            && (r == Some(PartialPayment) ==> (tx.flags / 0x2_0000) % 2 == 1)
            && (VerifyAmount(tx, req) == None && r == Some(WrongTag) ==> tx.destinationTag != req.extra.destinationTag)
            && (VerifyAmount(tx, req) == None && r == Some(WrongInvoice) ==> tx.invoice != ExpectedInvoice(req))
            && (VerifyAmount(tx, req) == None && r == Some(UnwantedNetworkId) ==> id <= 1024 && tx.networkId.Some?)
            && (VerifyAmount(tx, req) == None && r == Some(WrongNetworkId) ==> id > 1024 && tx.networkId != Some(id))
            && (VerifyAmount(tx, req) == None && r == Some(NoFee) ==> tx.fee == None || !IsDigits(tx.fee.value))
            && (VerifyAmount(tx, req) == None && r == Some(FeeTooHigh) ==>
                  tx.fee.Some? && IntValue(tx.fee.value) > f.maxFee)
  {
    AmountReasonsAreItsOwn(tx, req);
  }

  lemma AmountReasonsAreItsOwn(tx: Payment, req: Requirements)
    ensures var r := VerifyAmount(tx, req);
            r != Some(UnexpectedFields) && r != Some(WrongDestination) && r != Some(PartialPayment)
  {
  }

  /** The invoice that is expected is the hash of the one that was sent. */
  lemma ExpectedInvoiceMeans(req: Requirements)
    ensures req.extra.invoiceId == None ==> ExpectedInvoice(req) == None
    ensures forall id :: req.extra.invoiceId == Some(id) ==> ExpectedInvoice(req) == Some(HashOf(id))
  {
  }

  // ---- The ledger and account check ----

  /** It passes exactly within the window, with a key and a slot that fit. */
  lemma StatePassesExactly(tx: Payment, req: Requirements, chosen: string, current: nat, acct: Account)
    ensures VerifyState(tx, req, chosen, current, acct) == None
            <==> && tx.last.Some? && current + 1 <= tx.last.value <= current + (req.timeout + 4) / 5 + 2
                 && (acct.regularKey == Some(tx.signerAddress)
                     || (tx.signerAddress == tx.account && !acct.masterDisabled))
                 && (if chosen == "sequence" then tx.ticket == None && tx.sequence == Some(acct.sequence)
                     else tx.sequence == Some(0) && tx.ticket.Some? && tx.ticket.value in acct.tickets)
  {
  }

  /** Otherwise it names the obstacle that there is. */
  lemma StateReasonIsTrue(tx: Payment, req: Requirements, chosen: string, current: nat, acct: Account)
    ensures var r := VerifyState(tx, req, chosen, current, acct);
            && (r == Some(NoLastLedger) <==> tx.last == None)
            && (r == Some(PaymentExpired) <==> tx.last.Some? && tx.last.value <= current)
            && (r == Some(LastLedgerTooLarge) ==> tx.last.Some? && tx.last.value > current + (req.timeout + 4) / 5 + 2)
            && (r == Some(SignerNotAuthorized) ==>
                  && acct.regularKey != Some(tx.signerAddress)
                  && (tx.signerAddress != tx.account || acct.masterDisabled))
            && (r == Some(TicketNotAllowed) ==> chosen == "sequence" && tx.ticket.Some?)
            && (r == Some(SequenceNotCurrent) ==> chosen == "sequence" && tx.sequence != Some(acct.sequence))
            && (r == Some(NoTicketSequence) ==> chosen != "sequence" && (tx.sequence != Some(0) || tx.ticket == None))
            && (r == Some(TicketNotAvailable) ==>
                  chosen != "sequence" && tx.ticket.Some? && tx.ticket.value !in acct.tickets)
  {
  }

  // ---- The envelope check ----

  predicate SameTerms(a: Requirements, b: Requirements) {
    && a.scheme == b.scheme && a.network == b.network && a.asset == b.asset && a.amount == b.amount
    && a.payTo == b.payTo && a.timeout == b.timeout
    && a.extra.issuer == b.extra.issuer && a.extra.feesSponsored == b.extra.feesSponsored
    && a.extra.invoiceId == b.extra.invoiceId && a.extra.destinationTag == b.extra.destinationTag
  }

  lemma SameTermsMeans(a: Requirements, b: Requirements)
    ensures SameTerms(a, b)
            <==> && a.(extra := b.extra) == b
                 && a.extra.(transferMethod := None, flow := None) == b.extra.(transferMethod := None, flow := None)
  {
  }

  /** It names a mismatch that there is. */
  lemma EnvelopeReasonIsTrue(f: Facilitator, accepted: Requirements, req: Requirements)
    ensures var r, chosen := VerifyEnvelope(f, accepted, req), accepted.extra.transferMethod;
            && (r == Err(BadRequirements) <==> CheckShape(req).Err?)
            && (r == Err(BadAccepted) <==> CheckShape(req).Ok? && CheckShape(accepted).Err?)
            && (r == Err(AcceptedMismatch) ==> !SameTerms(accepted, req))
            && (r == Err(WrongNetwork) ==> req.network != f.network)
            && (r == Err(WrongPayTo) ==> req.payTo != f.payTo)
            && (r == Err(BelowMinimum) ==> req.asset == "XRP" && IntValue(req.amount) < f.minDrops)
            && (r.Ok? ==> SameTerms(accepted, req))
  {
    SameTermsMeans(accepted, req);
  }

  lemma MethodReasonIsTrue(f: Facilitator, accepted: Requirements, req: Requirements)
    ensures var r, a, b := VerifyEnvelope(f, accepted, req), accepted.extra.transferMethod, req.extra.transferMethod;
            && (r == Err(BadMethod) ==> !IsMethod(if OrElse(a, "") != "" then a.value else OrElse(b, "sequence")))
            && (r == Err(MethodMismatch) ==> b.Some? && (b.value == "" || (OrElse(a, "") != "" && a != b)))
            && (r == Err(AssetNotAllowed) ==>
                  (if req.asset == "XRP" then "XRP" else Friendly(req.asset), req.extra.issuer) !in f.supported)
  {
  }

  /** The flow check cannot fail: the shape check leaves one flow. */
  lemma FlowReasonIsNeverGiven(f: Facilitator, accepted: Requirements, req: Requirements)
    ensures VerifyEnvelope(f, accepted, req) != Err(FlowMismatch)
  {
    if CheckShape(req).Ok? && CheckShape(accepted).Ok? {
      ShapeExactly(req);
      ShapeExactly(accepted);
    }
  }

  // ---- Signing ----

  lemma PreparedReasonIsTrue(p: Payment, chosen: string, id: nat)
    ensures var r := ValidatePrepared(p, chosen, id);
            && (r == Some(FeeMissing) <==> p.fee == None || !IsDigits(p.fee.value))
            && (r == Some(LastLedgerMissing) ==> p.last == None)
            && (r == Some(TicketOnSequence) ==> chosen == "sequence" && p.ticket.Some?)
            && (r == Some(SequenceMissing) ==> chosen == "sequence" && (p.sequence == None || p.sequence == Some(0)))
            && (r == Some(TicketMissing) ==> chosen != "sequence" && (p.sequence != Some(0) || p.ticket == None))
            && (r == Some(NetworkIdOnStandard) ==> id <= 1024 && p.networkId.Some?)
            && (r == Some(NetworkIdMissing) ==> id > 1024 && p.networkId != Some(id))
            && (r == None ==> p.fee.Some? && p.last.Some? && p.sequence.Some?
                              && (p.networkId == if id > 1024 then Some(id) else None)
                              && (chosen == "sequence" <==> p.ticket == None))
  {
  }

  lemma SignErrorIsTrue(signer: Signer, req: Requirements, env: Env)
    ensures var r := Sign(signer, req, env);
            && (forall error :: r == Err(Shape(error)) <==> CheckShape(req) == Err(error))
            && (r == Err(NetworkMismatch) <==>
                  CheckShape(req).Ok? && signer.network.Some? && signer.network.value != req.network)
            && (r == Err(EmptyInvoice) ==> CheckShape(req).Ok? && CheckShape(req).value.invoiceId == Some(""))
            && (r == Err(NoTicket) ==> SignedMethod(req) == "ticketSequence" && env.ticket == None)
  {
    if CheckShape(req).Ok? { PreparedNames(signer, req, env); }
  }

  lemma PreparedNames(signer: Signer, req: Requirements, env: Env)
    requires CheckShape(req).Ok?
    ensures var draft := Draft(signer, req, CheckShape(req).value, env);
            var prepared := if signer.autofill then Autofilled(draft, env) else draft;
            var r := ValidatePrepared(prepared, SignedMethod(req), NetworkId(req.network));
            r.Some? ==> !r.value.Shape? && r.value != NetworkMismatch && r.value != EmptyInvoice && r.value != NoTicket
  {
  }
}
