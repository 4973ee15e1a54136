/** The payer's budget: what a wallet has spent, read off the receipt log. */
module SpendBudget {
  import opened AsciiText
  import opened Common
  import opened CurrencyCodes
  import opened ReceiptJournal

  datatype Query = Query(network: string, asset: string, issuer: Option<string>)

  predicate Matches(a: Accepted, q: Query) {
    && a.network == q.network
    && Normalize(a.asset) == Normalize(q.asset)
    && a.issuer == q.issuer
  }

  function Contribution(r: Receipt, q: Query): real {
    if r.outcome == Settled && Matches(r.accepted, q) then r.accepted.amount else 0.0
  }

  /** `budget_summary`: the filtered sum over the whole log. */
  function Spent(log: seq<Receipt>, q: Query): real {
    if log == [] then 0.0 else Spent(log[..|log| - 1], q) + Contribution(log[|log| - 1], q)
  }

  // ---- Reference: one entry per paid fingerprint and transaction ----

  type PaymentKey = (nat, nat)

  /** A receipt adds an entry when it is the first paid one of its key. */
  function TrackOne(m: map<PaymentKey, Accepted>, r: Receipt): map<PaymentKey, Accepted> {
    if r.outcome == Settled && r.fingerprint.Some? && (r.fingerprint.value, r.tx) !in m
    then m[(r.fingerprint.value, r.tx) := r.accepted] else m
  }

  /** The accepted terms of each distinct paid (fingerprint, transaction), first report first. */
  function PaidPayments(m: map<PaymentKey, Accepted>, history: seq<Receipt>): map<PaymentKey, Accepted>
    decreases |history|
  {
    if history == [] then m
    else PaidPayments(TrackOne(m, history[0]), history[1..])
  }

  ghost function Total(m: map<PaymentKey, Accepted>, q: Query): real
    decreases |m|
  {
    if m == map[] then 0.0
    else
      var k :| k in m;
      Total(m - {k}, q) + (if Matches(m[k], q) then m[k].amount else 0.0)
  }

  lemma {:induction false} TotalInsert(m: map<PaymentKey, Accepted>, k: PaymentKey, a: Accepted, q: Query)
    requires k !in m
    ensures Total(m[k := a], q) == Total(m, q) + (if Matches(a, q) then a.amount else 0.0)
    decreases |m|
  {
    var m' := m[k := a];
    assert k in m';
    var j :| j in m' && Total(m', q) == Total(m' - {j}, q) + (if Matches(m'[j], q) then m'[j].amount else 0.0);
    if j == k {
      assert m' - {j} == m;
    } else {
      assert m' - {j} == (m - {j})[k := a];
      TotalInsert(m - {j}, k, a, q);
      TotalRemove(m, j, q);
    }
  }

  lemma {:induction false} TotalRemove(m: map<PaymentKey, Accepted>, j: PaymentKey, q: Query)
    requires j in m
    ensures Total(m, q) == Total(m - {j}, q) + (if Matches(m[j], q) then m[j].amount else 0.0)
    decreases |m|
  {
    var k :| k in m && Total(m, q) == Total(m - {k}, q) + (if Matches(m[k], q) then m[k].amount else 0.0);
    if k != j {
      TotalRemove(m - {k}, j, q);
      assert m - {k} - {j} == m - {j} - {k};
      TotalRemove(m - {j}, k, q);
    }
  }

  // ---- The log sums to the reference ----

  /** The log keeps a paid receipt exactly for the keys of `m`. */
  ghost predicate Tracks(log: seq<Receipt>, m: map<PaymentKey, Accepted>) {
    && (forall i :: 0 <= i < |log| && log[i].outcome == Settled && log[i].fingerprint.Some?
                    ==> (log[i].fingerprint.value, log[i].tx) in m)
    && (forall k :: k in m ==> exists i :: 0 <= i < |log| && SameKey(log[i], PaidReceipt(k, m[k])))
  }

  function PaidReceipt(k: PaymentKey, a: Accepted): Receipt {
    Receipt(Some(k.0), Settled, k.1, a)
  }

  lemma SpentAppend(log: seq<Receipt>, r: Receipt, q: Query)
    ensures Spent(log + [r], q) == Spent(log, q) + Contribution(r, q)
  {
    assert (log + [r])[..|log|] == log;
  }

  lemma RecordTracks(log: seq<Receipt>, m: map<PaymentKey, Accepted>, r: Receipt, q: Query)
    requires Tracks(log, m) && r.fingerprint.Some? && Spent(log, q) == Total(m, q)
    ensures Tracks(RecordLog(log, r), TrackOne(m, r))
    ensures Spent(RecordLog(log, r), q) == Total(TrackOne(m, r), q)
  {
    var k := (r.fingerprint.value, r.tx);
    SpentAppend(log, r, q);
    if r.outcome == Settled {
      if k in m {
        assert HasDuplicate(log, r);
      } else {
        assert !HasDuplicate(log, r);
        TotalInsert(m, k, r.accepted, q);
        var log', m' := log + [r], m[k := r.accepted];
        forall j | j in m' ensures exists i :: 0 <= i < |log'| && SameKey(log'[i], PaidReceipt(j, m'[j])) {
          if j == k {
            assert SameKey(log'[|log|], PaidReceipt(j, m'[j]));
          } else {
            var i :| 0 <= i < |log| && SameKey(log[i], PaidReceipt(j, m[j]));
            assert SameKey(log'[i], PaidReceipt(j, m'[j]));
          }
        }
      }
    } else {
      var log' := log + [r];
      forall j | j in m ensures exists i :: 0 <= i < |log'| && SameKey(log'[i], PaidReceipt(j, m[j])) {
        var i :| 0 <= i < |log| && SameKey(log[i], PaidReceipt(j, m[j]));
        assert SameKey(log'[i], PaidReceipt(j, m[j]));
      }
    }
  }

  lemma {:induction false} SpentFrom(log: seq<Receipt>, m: map<PaymentKey, Accepted>, history: seq<Receipt>, q: Query)
    requires Tracks(log, m) && Spent(log, q) == Total(m, q)
    requires forall i :: 0 <= i < |history| ==> history[i].fingerprint.Some?
    ensures Spent(RecordAll(log, history), q) == Total(PaidPayments(m, history), q)
    decreases |history|
  {
    if history != [] {
      assert history[0].fingerprint.Some?;
      RecordTracks(log, m, history[0], q);
      SpentFrom(RecordLog(log, history[0]), TrackOne(m, history[0]), history[1..], q);
    }
  }

  /** For every history of recorded outcomes, in any order and with any repetition, the budget
      counts each paid (fingerprint, transaction) once and nothing else. */
  lemma BudgetCountsEachPaymentOnce(history: seq<Receipt>, q: Query)
    requires forall i :: 0 <= i < |history| ==> history[i].fingerprint.Some?
    ensures Spent(RecordAll([], history), q) == Total(PaidPayments(map[], history), q)
  {
    SpentFrom([], map[], history, q);
  }

  /** Recording never lowers what was spent, and a pending or failed outcome never changes it. */
  lemma SpentNeverDecreases(log: seq<Receipt>, r: Receipt, q: Query)
    requires r.accepted.amount >= 0.0
    ensures Spent(RecordLog(log, r), q) >= Spent(log, q)
    ensures r.outcome != Settled ==> Spent(RecordLog(log, r), q) == Spent(log, q)
  {
    SpentAppend(log, r, q);
  }

  /** So over every history, what was spent never goes down. */
  lemma {:induction false} SpentOnlyGrows(log: seq<Receipt>, history: seq<Receipt>, q: Query)
    requires forall i :: 0 <= i < |history| ==> history[i].accepted.amount >= 0.0
    ensures Spent(RecordAll(log, history), q) >= Spent(log, q)
    decreases |history|
  {
    if history != [] {
      SpentNeverDecreases(log, history[0], q);
      SpentOnlyGrows(RecordLog(log, history[0]), history[1..], q);
    }
  }

  // ---- What counts for a query ----

  /** A receipt adds its amount exactly when it is paid on the queried network, with the queried
      issuer, in an asset that normalises like the queried one. */
  lemma ReceiptCountsExactlyWhen(log: seq<Receipt>, r: Receipt, q: Query)
    requires r.accepted.amount > 0.0
    ensures Spent(log + [r], q) == Spent(log, q) + r.accepted.amount || Spent(log + [r], q) == Spent(log, q)
    ensures Spent(log + [r], q) != Spent(log, q)
            <==> && r.outcome == Settled && r.accepted.network == q.network && r.accepted.issuer == q.issuer
                 && Normalize(r.accepted.asset) == Normalize(q.asset)
  {
    SpentAppend(log, r, q);
  }

  /** A query by symbol counts payments recorded by wire code, for every printable symbol. */
  lemma SymbolFindsWireCode(log: seq<Receipt>, r: Receipt, q: Query)
    requires WireCode(q.asset).Ok? && IsPrintable(Strip(q.asset)) && r.accepted.asset == WireCode(q.asset).value
    requires r.outcome == Settled && r.accepted.network == q.network && r.accepted.issuer == q.issuer
    ensures Spent(log + [r], q) == Spent(log, q) + r.accepted.amount
  {
    NormalizeOfWire(q.asset);
    SpentAppend(log, r, q);
  }
}
