/** The RLUSD funding tool: a write-ahead journal of one pending transaction, kept across any
    series of runs with a crash at any step.  The file lock allows one run at a time. */
module RlusdFunding {
  import opened Common
  import opened RlusdQuote

  /** A conversion keeps the quote, in drops, from which its SendMax was computed. */
  datatype Kind = TrustLine | Convert(amount: real, quote: int, sendMax: int)

  /** A signed transaction; `id` stands for its hash. */
  datatype Tx = Tx(id: nat, kind: Kind, first: nat, last: nat, fee: int)

  /** The wallet's validated ledger.  While `closing`, the next ledger is being put together and
      no read sees it. */
  datatype Chain = Chain(
    index: nat, closing: bool, rlusd: real, xrp: int, owners: nat, included: map<nat, bool>)

  /** Operator settings and ledger constants. */
  datatype Config = Config(
    target: real, maxXrp: int, slippageBps: int, maxFee: int, reserveBase: int, reserveInc: int)

  const BUFFER_DROPS: int := 5000000

  /** Where the current run is, in the order of `fund_rlusd_wallet`. */
  datatype Point =
    | NoRun
    | Loaded                           // journal read
    | SawMissing(searchedAll: bool)    // lookup found nothing validated; ledger read next
    | Resubmitting
    | Waiting(tx: Tx, resumed: bool)   // inside submit_and_wait
    | Reconciled                       // nothing pending; first balance read next
    | CheckingLine
    | ReadingBalance
    | Quoting(needed: real)
    | CheckingSpendable(needed: real, quote: int, sendMax: int)
    | Preparing(kind: Kind)            // first-ledger read next
    | Signing(kind: Kind, first: nat)
    | Journaling(tx: Tx)               // signed, not yet written
    | Sending(tx: Tx)                  // written, not yet submitted

  datatype Event =
    | Began                                // a run read its journal
    | LineRead(sufficient: bool)           // it read the trust line
    | Quoted(needed: real, drops: int)
    | Journaled(tx: Tx)
    | Sent(tx: Tx)
    | Confirmed(tx: Tx)                    // it saw the transaction validated with success
    | Rejected(tx: Tx)                     // it saw it validated with a failure

  datatype State = State(
    chain: Chain, nextId: nat, sent: map<nat, Tx>, pending: Option<Tx>, completed: seq<nat>,
    run: Point, log: seq<Event>)

  datatype Step =
    // the ledger and the outside world
    | BeginClose
    | Include(id: nat, success: bool, spent: int)
    | EndClose
    | CreditXrp(drops: int)
    | SpendRlusd(amount: real)
    // the tool
    | StartRun
    | LookupValidated
    | LookupMissing(searchedAll: bool)
    | ReadReconcileLedger
    | Resubmit
    | ResultValidated
    | Abort                            // any raise or crash: the run ends, the journal stays
    | ReadStartBalance(readable: bool)
    | LineReady(sufficient: bool)
    | ReadBalance
    | Quote(drops: int)
    | CheckSpendable
    | ReadFirstLedger
    | Sign(last: nat, fee: int)
    | WriteJournal
    | Send

  function Reserve(cfg: Config, c: Chain): int {
    cfg.reserveBase + cfg.reserveInc * c.owners
  }

  /** The ledger can no longer include the transaction, or already has. */
  predicate Over(c: Chain, tx: Tx) {
    tx.id in c.included || tx.last <= c.index
  }

  predicate Enabled(cfg: Config, s: State, step: Step) {
    match step
    case BeginClose => !s.chain.closing
    case Include(id, success, spent) =>
      && s.chain.closing && id in s.sent && id !in s.chain.included && s.chain.index < s.sent[id].last
      && (success && s.sent[id].kind.Convert? ==> 0 <= spent <= s.sent[id].kind.sendMax)
    case EndClose => s.chain.closing
    case CreditXrp(drops) => s.chain.closing && drops >= 0
    case SpendRlusd(amount) => s.chain.closing && amount >= 0.0
    case _ => !s.chain.closing && ToolEnabled(cfg, s, step)
  }

  predicate ToolEnabled(cfg: Config, s: State, step: Step) {
    match step
    case StartRun => s.run.NoRun?
    case LookupValidated => s.run.Loaded? && s.pending.Some? && s.pending.value.id in s.chain.included
    case LookupMissing(all) =>
      && s.run.Loaded? && s.pending.Some?
      && (all ==> s.pending.value.last <= s.chain.index && s.pending.value.id !in s.chain.included)
    case ReadReconcileLedger => s.run.SawMissing? && s.pending.Some?
    case Resubmit => s.run.Resubmitting? && s.pending.Some?
    case ResultValidated => s.run.Waiting? && s.run.tx.id in s.chain.included
    case Abort => !s.run.NoRun?
    case ReadStartBalance(_) => s.run.Reconciled? || (s.run.Loaded? && s.pending.None?)
    case LineReady(_) => s.run.CheckingLine?
    case ReadBalance => s.run.ReadingBalance?
    case Quote(_) => s.run.Quoting?
    case CheckSpendable => s.run.CheckingSpendable?
    case ReadFirstLedger => s.run.Preparing?
    case Sign(_, _) => s.run.Signing?
    case WriteJournal => s.run.Journaling?
    case Send => s.run.Sending?
    case _ => false
  }

  /** Inclusion moves balances: the fee always, and on success what the transaction asks for. */
  function IncludeTx(c: Chain, tx: Tx, success: bool, spent: int): Chain {
    var paid := c.(included := c.included[tx.id := success], xrp := c.xrp - tx.fee);
    if !success then paid
    else match tx.kind
      case TrustLine => paid.(owners := paid.owners + 1)
      case Convert(amount, _, _) => paid.(rlusd := paid.rlusd + amount, xrp := paid.xrp - spent)
  }

  /** A validated result ends the pending transaction: success is recorded and the run goes on, a
      failure clears the journal and raises. */
  function Conclude(s: State, tx: Tx, next: Point): State
    requires tx.id in s.chain.included
  {
    if s.chain.included[tx.id]
    then s.(pending := None, run := next,
            completed := if tx.id in s.completed then s.completed else s.completed + [tx.id],
            log := s.log + [Confirmed(tx)])
    else s.(pending := None, run := NoRun, log := s.log + [Rejected(tx)])
  }

  function Apply(cfg: Config, s: State, step: Step): State
    requires Enabled(cfg, s, step)
  {
    match step
    case BeginClose => s.(chain := s.chain.(closing := true))
    case Include(id, success, spent) => s.(chain := IncludeTx(s.chain, s.sent[id], success, spent))
    case EndClose => s.(chain := s.chain.(closing := false, index := s.chain.index + 1))
    case CreditXrp(drops) => s.(chain := s.chain.(xrp := s.chain.xrp + drops))
    case SpendRlusd(amount) => s.(chain := s.chain.(rlusd := s.chain.rlusd - amount))
    case _ => ToolApply(cfg, s, step)
  }

  function ToolApply(cfg: Config, s: State, step: Step): State
    requires ToolEnabled(cfg, s, step)
  {
    match step
    case StartRun => s.(run := Loaded, log := s.log + [Began])
    case LookupValidated => Conclude(s, s.pending.value, Reconciled)
    case LookupMissing(all) => s.(run := SawMissing(all))
    case ReadReconcileLedger =>
      if s.chain.index < s.pending.value.last then s.(run := Resubmitting)
      else if s.run.searchedAll then s.(pending := None, run := Reconciled)
      else s.(run := NoRun)
    case Resubmit =>
      var tx := s.pending.value;
      s.(sent := s.sent[tx.id := tx], run := Waiting(tx, true), log := s.log + [Sent(tx)])
    case ResultValidated =>
      Conclude(s, s.run.tx,
               if s.run.resumed then Reconciled else if s.run.tx.kind.TrustLine? then ReadingBalance else NoRun)
    case Abort => s.(run := NoRun)
    case ReadStartBalance(readable) =>
      s.(run := if readable && s.chain.rlusd >= cfg.target then NoRun else CheckingLine)
    case LineReady(sufficient) =>
      s.(run := if sufficient then ReadingBalance else Preparing(TrustLine), log := s.log + [LineRead(sufficient)])
    case ReadBalance =>
      s.(run := if s.chain.rlusd < cfg.target then Quoting(cfg.target - s.chain.rlusd) else NoRun)
    case Quote(drops) =>
      var bound := SendMaxDrops(drops, cfg.slippageBps);
      s.(run := if bound.Err? || bound.value > cfg.maxXrp then NoRun
                else CheckingSpendable(s.run.needed, drops, bound.value),
         log := s.log + [Quoted(s.run.needed, drops)])
    case CheckSpendable =>
      s.(run := if s.chain.xrp < Reserve(cfg, s.chain) + BUFFER_DROPS + s.run.sendMax + cfg.maxFee then NoRun
                else Preparing(Convert(s.run.needed, s.run.quote, s.run.sendMax)))
    case ReadFirstLedger =>
      s.(run := if s.pending.Some? then NoRun else Signing(s.run.kind, s.chain.index))
    case Sign(last, fee) =>
      if fee <= 0 || fee > cfg.maxFee then s.(run := NoRun)
      else s.(nextId := s.nextId + 1, run := Journaling(Tx(s.nextId, s.run.kind, s.run.first, last, fee)))
    case WriteJournal =>
      s.(pending := Some(s.run.tx), run := Sending(s.run.tx), log := s.log + [Journaled(s.run.tx)])
    case Send =>
      var tx := s.run.tx;
      s.(sent := s.sent[tx.id := tx], run := Waiting(tx, false), log := s.log + [Sent(tx)])
  }

  ghost predicate Reaches(cfg: Config, s: State, steps: seq<Step>, t: State)
    decreases |steps|
  {
    if steps == [] then s == t
    else Enabled(cfg, s, steps[0]) && Reaches(cfg, Apply(cfg, s, steps[0]), steps[1..], t)
  }

  predicate Initial(s: State) {
    && !s.chain.closing && s.chain.included == map[] && s.nextId == 0 && s.sent == map[]
    && s.pending == None && s.completed == [] && s.run == NoRun && s.log == []
  }

  // ---- Invariant ----

  /** SendMax is the slippage bound of the quote, within the operator's cap. */
  predicate BoundedSpend(cfg: Config, quote: int, sendMax: int) {
    sendMax <= cfg.maxXrp && SendMaxDrops(quote, cfg.slippageBps) == Ok(sendMax)
  }

  /** What a transaction that may still be included must leave room for. */
  ghost predicate Affordable(cfg: Config, cap: real, c: Chain, k: Kind) {
    k.Convert? ==>
      && c.rlusd + k.amount <= cap
      && BoundedSpend(cfg, k.quote, k.sendMax)
      && c.xrp >= Reserve(cfg, c) + BUFFER_DROPS + k.sendMax + cfg.maxFee
  }

  ghost predicate TxOk(cfg: Config, cap: real, s: State, tx: Tx) {
    && tx.id < s.nextId && 0 < tx.fee <= cfg.maxFee
    && (!Over(s.chain, tx) ==> Affordable(cfg, cap, s.chain, tx.kind))
  }

  /** At these points the journal must be empty. */
  predicate NothingPendingAt(p: Point) {
    || p.Reconciled? || p.CheckingLine? || p.ReadingBalance? || p.Quoting? || p.CheckingSpendable?
    || p.Preparing? || p.Signing? || p.Journaling?
  }

  ghost predicate PointOk(cfg: Config, cap: real, s: State) {
    && (NothingPendingAt(s.run) ==> s.pending.None?)
    && match s.run
       case SawMissing(all) =>
         s.pending.Some? && (all ==> s.pending.value.last <= s.chain.index && s.pending.value.id !in s.chain.included)
       case Waiting(tx, _) => s.pending == Some(tx)
       case Sending(tx) => s.pending == Some(tx) && tx.id !in s.sent
       case Quoting(needed) => s.chain.rlusd + needed <= cap
       case CheckingSpendable(needed, quote, sendMax) =>
         s.chain.rlusd + needed <= cap && BoundedSpend(cfg, quote, sendMax)
       case Preparing(k) => Affordable(cfg, cap, s.chain, k)
       case Signing(k, _) => Affordable(cfg, cap, s.chain, k)
       case Journaling(tx) =>
         && tx.id < s.nextId && 0 < tx.fee <= cfg.maxFee && tx.id !in s.sent
         && Affordable(cfg, cap, s.chain, tx.kind)
       case _ => true
  }

  /** Whatever was ever sent is the pending transaction or can no longer happen. */
  ghost predicate SentOk(s: State) {
    && (forall id :: id in s.chain.included ==> id in s.sent)
    && (forall id :: id in s.sent ==> s.sent[id].id == id && id < s.nextId
                                      && (s.pending == Some(s.sent[id]) || Over(s.chain, s.sent[id])))
    && (s.pending.Some? && s.pending.value.id in s.sent ==> s.sent[s.pending.value.id] == s.pending.value)
  }

  ghost predicate Inv(cfg: Config, cap: real, s: State) {
    && cfg.target <= cap && s.chain.rlusd <= cap && cfg.maxFee >= 0 && cfg.reserveInc >= 0
    && SentOk(s)
    && (s.pending.Some? ==> TxOk(cfg, cap, s, s.pending.value))
    && PointOk(cfg, cap, s)
  }

  lemma IncludeKeepsInv(cfg: Config, cap: real, s: State, step: Step)
    requires Inv(cfg, cap, s) && Enabled(cfg, s, step) && step.Include?
    ensures Inv(cfg, cap, Apply(cfg, s, step))
  {
    var tx := s.sent[step.id];
    assert !Over(s.chain, tx);
    assert s.pending == Some(tx);
  }

  lemma OutsideKeepsInv(cfg: Config, cap: real, s: State, step: Step)
    requires Inv(cfg, cap, s) && Enabled(cfg, s, step)
    requires step.BeginClose? || step.EndClose? || step.CreditXrp? || step.SpendRlusd?
    ensures Inv(cfg, cap, Apply(cfg, s, step))
  {
  }

  lemma ReconcileKeepsInv(cfg: Config, cap: real, s: State, step: Step)
    requires Inv(cfg, cap, s) && ToolEnabled(cfg, s, step)
    requires step.StartRun? || step.LookupValidated? || step.LookupMissing? || step.ReadReconcileLedger?
             || step.Resubmit? || step.ResultValidated? || step.Abort?
    ensures Inv(cfg, cap, ToolApply(cfg, s, step))
  {
  }

  lemma PrepareKeepsInv(cfg: Config, cap: real, s: State, step: Step)
    requires Inv(cfg, cap, s) && ToolEnabled(cfg, s, step)
    requires step.ReadStartBalance? || step.LineReady? || step.ReadBalance? || step.Quote? || step.CheckSpendable?
    ensures Inv(cfg, cap, ToolApply(cfg, s, step))
  {
  }

  lemma SubmitKeepsInv(cfg: Config, cap: real, s: State, step: Step)
    requires Inv(cfg, cap, s) && ToolEnabled(cfg, s, step)
    requires step.ReadFirstLedger? || step.Sign? || step.WriteJournal? || step.Send?
    ensures Inv(cfg, cap, ToolApply(cfg, s, step))
  {
  }

  lemma StepKeepsInv(cfg: Config, cap: real, s: State, step: Step)
    requires Inv(cfg, cap, s) && Enabled(cfg, s, step)
    ensures Inv(cfg, cap, Apply(cfg, s, step))
  {
    if step.Include? {
      IncludeKeepsInv(cfg, cap, s, step);
    } else if step.BeginClose? || step.EndClose? || step.CreditXrp? || step.SpendRlusd? {
      OutsideKeepsInv(cfg, cap, s, step);
    } else if step.ReadStartBalance? || step.LineReady? || step.ReadBalance? || step.Quote? || step.CheckSpendable? {
      PrepareKeepsInv(cfg, cap, s, step);
    } else if step.ReadFirstLedger? || step.Sign? || step.WriteJournal? || step.Send? {
      SubmitKeepsInv(cfg, cap, s, step);
    } else {
      ReconcileKeepsInv(cfg, cap, s, step);
    }
  }

  lemma {:induction false} RunKeepsInv(cfg: Config, cap: real, s: State, steps: seq<Step>, t: State)
    requires Inv(cfg, cap, s) && Reaches(cfg, s, steps, t)
    ensures Inv(cfg, cap, t)
    decreases |steps|
  {
    if steps != [] {
      StepKeepsInv(cfg, cap, s, steps[0]);
      RunKeepsInv(cfg, cap, Apply(cfg, s, steps[0]), steps[1..], t);
    }
  }

  predicate Sensible(cfg: Config) { cfg.maxFee > 0 && cfg.reserveInc >= 0 }

  function Cap(cfg: Config, s: State): real {
    if s.chain.rlusd > cfg.target then s.chain.rlusd else cfg.target
  }

  // ---- Theorems over any series of runs ----

  /** No overlap: whenever a transaction is about to be signed, everything ever submitted before
      has been included or can no longer be, in this and every later ledger. */
  lemma NoOverlap(cfg: Config, s: State, steps: seq<Step>, t: State, last: nat, fee: int, id: nat)
    requires Sensible(cfg) && Initial(s) && Reaches(cfg, s, steps, t)
    requires Enabled(cfg, t, Sign(last, fee)) && id in t.sent
    ensures id in t.chain.included || t.sent[id].last <= t.chain.index
  {
    RunKeepsInv(cfg, Cap(cfg, s), s, steps, t);
  }

  /** So at any moment at most one submitted transaction is still open, and it is the journaled
      one. */
  lemma OneOpenTransaction(cfg: Config, s: State, steps: seq<Step>, t: State, a: nat, b: nat)
    requires Sensible(cfg) && Initial(s) && Reaches(cfg, s, steps, t)
    requires a in t.sent && !Over(t.chain, t.sent[a]) && b in t.sent && !Over(t.chain, t.sent[b])
    ensures a == b && t.pending == Some(t.sent[a])
  {
    RunKeepsInv(cfg, Cap(cfg, s), s, steps, t);
  }

  /** No overshoot: with honest reads and no outside credits, the RLUSD balance never exceeds the
      larger of its start and the target, over any series of runs and crashes. */
  lemma NeverOvershoots(cfg: Config, s: State, steps: seq<Step>, t: State)
    requires Sensible(cfg) && Initial(s) && Reaches(cfg, s, steps, t)
    ensures t.chain.rlusd <= Cap(cfg, s)
  {
    RunKeepsInv(cfg, Cap(cfg, s), s, steps, t);
  }

  /** Spend bound end to end: whenever a conversion validates, its SendMax is the slippage bound of
      the very quote that was obtained for its amount right before it was journaled, at least that
      quote and at most the operator's cap, and the XRP balance left still covers base reserve,
      owner reserve and the buffer. */
  lemma ConversionLeavesReserve(cfg: Config, s: State, steps: seq<Step>, t: State, id: nat, success: bool, spent: int)
    requires Sensible(cfg) && Initial(s) && Reaches(cfg, s, steps, t)
    requires Enabled(cfg, t, Include(id, success, spent)) && t.sent[id].kind.Convert?
    ensures QuotedFor(t.log, t.sent[id])
    ensures var k := t.sent[id].kind;
            SendMaxDrops(k.quote, cfg.slippageBps) == Ok(k.sendMax) && k.quote <= k.sendMax <= cfg.maxXrp
    ensures var c := Apply(cfg, t, Include(id, success, spent)).chain;
            c.xrp >= Reserve(cfg, c) + BUFFER_DROPS
  {
    RunKeepsInv(cfg, Cap(cfg, s), s, steps, t);
    var tx := t.sent[id];
    assert !Over(t.chain, tx) && t.pending == Some(tx);
    RunKeepsQuotes(cfg, s, steps, t);
    SendMaxIsLeast(tx.kind.quote, cfg.slippageBps, 0);
  }

  // ---- Every conversion rests on its own quote ----

  /** The quote for the transaction's amount was logged right before the transaction was journaled. */
  predicate QuotedFor(log: seq<Event>, tx: Tx) {
    tx.kind.Convert? ==>
      exists i :: 0 <= i < |log| - 1
                  && log[i + 1] == Journaled(tx) && log[i] == Quoted(tx.kind.amount, tx.kind.quote)
  }

  /** The last thing logged is the quote for this conversion. */
  predicate JustQuoted(log: seq<Event>, k: Kind) {
    k.Convert? ==> log != [] && log[|log| - 1] == Quoted(k.amount, k.quote)
  }

  ghost predicate QuoteInv(s: State) {
    && (forall id :: id in s.sent ==> QuotedFor(s.log, s.sent[id]))
    && (s.pending.Some? ==> QuotedFor(s.log, s.pending.value))
    && match s.run
       case CheckingSpendable(needed, quote, sendMax) => JustQuoted(s.log, Convert(needed, quote, sendMax))
       case Preparing(k) => JustQuoted(s.log, k)
       case Signing(k, _) => JustQuoted(s.log, k)
       case Journaling(tx) => JustQuoted(s.log, tx.kind)
       case Sending(tx) => QuotedFor(s.log, tx)
       case _ => true
  }

  lemma QuotedStays(log: seq<Event>, e: Event, tx: Tx)
    requires QuotedFor(log, tx)
    ensures QuotedFor(log + [e], tx)
  {
    if tx.kind.Convert? {
      var i :| 0 <= i < |log| - 1 && log[i + 1] == Journaled(tx) && log[i] == Quoted(tx.kind.amount, tx.kind.quote);
      assert (log + [e])[i] == log[i] && (log + [e])[i + 1] == log[i + 1];
    }
  }

  lemma JournalingQuotes(log: seq<Event>, tx: Tx)
    requires JustQuoted(log, tx.kind)
    ensures QuotedFor(log + [Journaled(tx)], tx)
  {
    if tx.kind.Convert? {
      var log', i := log + [Journaled(tx)], |log| - 1;
      assert log'[i + 1] == Journaled(tx) && log'[i] == log[i];
    }
  }

  lemma StepKeepsQuotes(cfg: Config, s: State, step: Step)
    requires QuoteInv(s) && Enabled(cfg, s, step)
    ensures QuoteInv(Apply(cfg, s, step))
  {
    forall tx, e | QuotedFor(s.log, tx) ensures QuotedFor(s.log + [e], tx) {
      QuotedStays(s.log, e, tx);
    }
    if step.WriteJournal? { JournalingQuotes(s.log, s.run.tx); }
  }

  lemma {:induction false} RunKeepsQuotes(cfg: Config, s: State, steps: seq<Step>, t: State)
    requires QuoteInv(s) && Reaches(cfg, s, steps, t)
    ensures QuoteInv(t)
    decreases |steps|
  {
    if steps != [] {
      StepKeepsQuotes(cfg, s, steps[0]);
      RunKeepsQuotes(cfg, Apply(cfg, s, steps[0]), steps[1..], t);
    }
  }

  // ---- Write-ahead ----

  ghost predicate WriteAhead(s: State) {
    && (forall i :: 0 <= i < |s.log| && s.log[i].Sent? ==> Journaled(s.log[i].tx) in s.log[..i])
    && (s.pending.Some? ==> Journaled(s.pending.value) in s.log)
    && (s.run.Sending? ==> s.pending == Some(s.run.tx))
  }

  lemma StepKeepsWriteAhead(cfg: Config, s: State, step: Step)
    requires WriteAhead(s) && Enabled(cfg, s, step)
    ensures WriteAhead(Apply(cfg, s, step))
  {
    var s' := Apply(cfg, s, step);
    assert s.log <= s'.log;
    forall i | 0 <= i < |s'.log| && s'.log[i].Sent? ensures Journaled(s'.log[i].tx) in s'.log[..i] {
      if i < |s.log| {
        assert s'.log[..i] == s.log[..i];
      } else {
        assert s'.log[..i] == s.log;
      }
    }
  }

  lemma {:induction false} RunKeepsWriteAhead(cfg: Config, s: State, steps: seq<Step>, t: State)
    requires WriteAhead(s) && Reaches(cfg, s, steps, t)
    ensures WriteAhead(t)
    decreases |steps|
  {
    if steps != [] {
      StepKeepsWriteAhead(cfg, s, steps[0]);
      RunKeepsWriteAhead(cfg, Apply(cfg, s, steps[0]), steps[1..], t);
    }
  }

  /** Every submission, first or repeated after a crash, was journaled before as the same signed
      transaction. */
  lemma JournaledBeforeSent(cfg: Config, s: State, steps: seq<Step>, t: State, i: nat)
    requires Initial(s) && Reaches(cfg, s, steps, t) && i < |t.log| && t.log[i].Sent?
    ensures exists j :: 0 <= j < i && t.log[j] == Journaled(t.log[i].tx)
  {
    RunKeepsWriteAhead(cfg, s, steps, t);
    var j :| 0 <= j < i && t.log[..i][j] == Journaled(t.log[i].tx);
    assert t.log[j] == Journaled(t.log[i].tx);
  }
}
