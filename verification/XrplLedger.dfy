/** The validated XRPL ledger as the facilitator sees it: a growing index, account sequences and
    tickets, and transactions that are included at most once. */
module XrplLedger {

  /** What a signed Payment uses up: the account sequence, or a ticket. */
  datatype Slot = Sequence(number: nat) | Ticket(number: nat)

  /** A signed transaction blob.  Transaction hashes are taken as injective, so the blob itself
      stands for its hash; `rest` covers the fields that no ledger rule below looks at. */
  datatype Tx = Tx(account: nat, slot: Slot, last: nat, rest: nat)

  /** The `delivered_amount` metadata of a validated transaction. */
  datatype Delivered =
    | NoMetadata                  // metadata is not an object
    | Unavailable                 // absent, or the text "unavailable"
    | DropsText(drops: nat)       // a string of digits
    | IssuedAmount(currency: string, issuer: string, isDecimal: bool, value: real)
    | OtherShape                  // any other JSON value

  /** The validated answer for a hash: its result code and what it delivered. */
  datatype Answer = Answer(succeeded: bool, code: nat, delivered: Delivered)

  datatype Inclusion = Inclusion(index: nat, answer: Answer)

  datatype Account = Account(sequence: nat, tickets: set<nat>)

  datatype Ledger = Ledger(index: nat, accounts: map<nat, Account>, included: map<Tx, Inclusion>)

  /** One ledger entry: an x402 payment or any other transaction, a ticket creation, a new account. */
  datatype Entry =
    | Include(tx: Tx, answer: Answer)
    | CreateTickets(account: nat, from: nat, count: nat)
    | OpenAccount(account: nat, sequence: nat)

  predicate SlotAvailable(l: Ledger, tx: Tx) {
    && tx.account in l.accounts
    && match tx.slot
       case Sequence(n) => l.accounts[tx.account].sequence == n
       case Ticket(n) => n in l.accounts[tx.account].tickets
  }

  /** The slot can never match again: the sequence has moved on, or the ticket is gone and its
      number lies below the account sequence, from which new tickets are numbered. */
  predicate Spent(l: Ledger, tx: Tx) {
    && tx.account in l.accounts
    && tx.slot.number < l.accounts[tx.account].sequence
    && (tx.slot.Ticket? ==> tx.slot.number !in l.accounts[tx.account].tickets)
  }

  predicate EntryAllowed(l: Ledger, e: Entry) {
    match e
    case Include(tx, _) => tx !in l.included && SlotAvailable(l, tx) && l.index < tx.last
    case CreateTickets(a, from, _) => a in l.accounts && l.accounts[a].sequence <= from
    case OpenAccount(a, _) => a !in l.accounts
  }

  function TicketRange(from: nat, count: nat): (r: set<nat>)
    ensures forall n :: n in r <==> from <= n < from + count
  {
    if count == 0 then {} else TicketRange(from, count - 1) + {from + count - 1}
  }

  /** Applies one entry of the ledger numbered `l.index + 1`; a failed (`tec`) inclusion uses its
      slot like a successful one. */
  function ApplyEntry(l: Ledger, e: Entry): Ledger
    requires EntryAllowed(l, e)
  {
    match e
    case Include(tx, answer) =>
      var a := l.accounts[tx.account];
      var a' := if tx.slot.Sequence? then a.(sequence := a.sequence + 1)
                else a.(tickets := a.tickets - {tx.slot.number});
      l.(accounts := l.accounts[tx.account := a'],
         included := l.included[tx := Inclusion(l.index + 1, answer)])
    case CreateTickets(a, from, count) =>
      var acct := l.accounts[a];
      l.(accounts := l.accounts[a := Account(from + count, acct.tickets + TicketRange(from, count))])
    case OpenAccount(a, n) => l.(accounts := l.accounts[a := Account(n, {})])
  }

  predicate BatchAllowed(l: Ledger, batch: seq<Entry>)
    decreases |batch|
  {
    batch == [] || (EntryAllowed(l, batch[0]) && BatchAllowed(ApplyEntry(l, batch[0]), batch[1..]))
  }

  function ApplyBatch(l: Ledger, batch: seq<Entry>): Ledger
    requires BatchAllowed(l, batch)
    decreases |batch|
  {
    if batch == [] then l else ApplyBatch(ApplyEntry(l, batch[0]), batch[1..])
  }

  /** The next ledger validates, holding the entries of `batch`. */
  function Close(l: Ledger, batch: seq<Entry>): Ledger
    requires BatchAllowed(l, batch)
  {
    var l' := ApplyBatch(l, batch);
    l'.(index := l.index + 1)
  }

  lemma OneEntry(l: Ledger, e: Entry)
    requires EntryAllowed(l, e)
    ensures BatchAllowed(l, [e]) && ApplyBatch(l, [e]) == ApplyEntry(l, e)
  {
    assert [e][1..] == [];
    assert BatchAllowed(ApplyEntry(l, e), []);
  }

  // ---- What every ledger keeps, and how it grows ----

  ghost predicate TicketsBelowSequence(l: Ledger) {
    forall a, t :: a in l.accounts && t in l.accounts[a].tickets ==> t < l.accounts[a].sequence
  }

  ghost predicate Wf(l: Ledger) {
    && TicketsBelowSequence(l)
    && (forall tx :: tx in l.included ==> Spent(l, tx) && l.included[tx].index <= tx.last)
  }

  /** `l'` may follow `l`: answers never change, spent slots stay spent, and anything newly
      included lies above the old index and within its own LastLedgerSequence. */
  ghost predicate Grows(l: Ledger, l': Ledger) {
    && l.index <= l'.index
    && (forall tx :: tx in l.included ==> tx in l'.included && l'.included[tx] == l.included[tx])
    && (forall tx :: tx in l'.included && tx !in l.included
                     ==> l.index < l'.included[tx].index <= tx.last)
    && (forall tx :: Spent(l, tx) ==> Spent(l', tx))
  }

  lemma EntryGrows(l: Ledger, e: Entry)
    requires EntryAllowed(l, e) && Wf(l)
    ensures Wf(ApplyEntry(l, e)) && Grows(l, ApplyEntry(l, e))
    ensures ApplyEntry(l, e).index == l.index
  {
    var l' := ApplyEntry(l, e);
    forall tx | Spent(l, tx) ensures Spent(l', tx) {
    }
    if e.Include? {
      assert Spent(l', e.tx);
    }
  }

  lemma {:induction false} BatchGrows(l: Ledger, batch: seq<Entry>)
    requires BatchAllowed(l, batch) && Wf(l)
    ensures Wf(ApplyBatch(l, batch)) && Grows(l, ApplyBatch(l, batch))
    ensures ApplyBatch(l, batch).index == l.index
    ensures forall tx :: tx in ApplyBatch(l, batch).included && tx !in l.included
                         ==> ApplyBatch(l, batch).included[tx].index == l.index + 1
    decreases |batch|
  {
    if batch != [] {
      EntryGrows(l, batch[0]);
      BatchGrows(ApplyEntry(l, batch[0]), batch[1..]);
    }
  }

  /** Closing any ledger keeps the accounts well formed and only ever adds facts. */
  lemma CloseGrows(l: Ledger, batch: seq<Entry>)
    requires BatchAllowed(l, batch) && Wf(l)
    ensures Wf(Close(l, batch)) && Grows(l, Close(l, batch))
  {
    BatchGrows(l, batch);
    var b := ApplyBatch(l, batch);
    assert forall tx :: Spent(b, tx) <==> Spent(Close(l, batch), tx);
  }

  /** A spent slot fails both account checks of the verifier, now and in every later ledger. */
  lemma SpentStaysUnavailable(l: Ledger, l': Ledger, tx: Tx)
    requires Spent(l, tx) && Grows(l, l')
    ensures !SlotAvailable(l', tx)
  {
    assert Spent(l', tx);
  }
}
