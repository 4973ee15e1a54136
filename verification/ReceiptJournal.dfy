/** The payer's journal: an index of payment attempts beside an append-only receipt log.
    Every operation runs under the journal lock and is one atomic step. */
module ReceiptJournal {
  import opened AsciiText
  import opened Common

  /** A signed payment payload; `tx` is the hash of its signed blob. */
  datatype Payload = Payload(tx: nat, rest: nat)

  datatype AttemptState = Claimed | Ready | InFlight | Paid

  datatype Attempt = Attempt(
    payer: nat, scope: string, owner: nat, state: AttemptState, leaseExpiresAt: int, payload: Option<Payload>)

  datatype Claim = Claim(attempt: Attempt, owner: Option<nat>)

  datatype JournalError = BlankScope | ScopeMismatch | ClaimDisappeared | NotOwner

  datatype Outcome = Pending | Failed | Settled

  datatype Accepted = Accepted(network: string, asset: string, issuer: Option<string>, amount: real)

  /** A receipt; `fingerprint` is None when the request had none. */
  datatype Receipt = Receipt(fingerprint: Option<nat>, outcome: Outcome, tx: nat, accepted: Accepted)

  const ATTEMPT_LEASE_SECONDS: int := 30
  const TERMINAL_REUSE_SECONDS: int := 300

  type Index = map<nat, Attempt>

  // ---- Specification of the index operations ----

  predicate ExpiredPaid(a: Attempt, now: int) {
    a.state == Paid && a.leaseExpiresAt <= now
  }

  function Prune(index: Index, now: int): Index {
    map f | f in index && !ExpiredPaid(index[f], now) :: index[f]
  }

  predicate IsBlank(s: string) {
    forall i :: 0 <= i < |s| ==> IsSpace(s[i])
  }

  function ClaimIndex(index: Index, f: nat, payer: nat, scope: string, now: int, lease: int, token: nat)
    : (Index, Result<Claim, JournalError>)
  {
    var pruned := Prune(index, now);
    if IsBlank(scope) then (index, Err(BlankScope))
    else if f in pruned && (pruned[f].payer != payer || pruned[f].scope != scope)
    then (index, Err(ScopeMismatch))
    else if f in pruned && (pruned[f].payload.Some? || pruned[f].leaseExpiresAt > now)
    then (pruned, Ok(Claim(pruned[f], None)))
    else
      var claimed := Attempt(payer, scope, token, Claimed, now + lease, None);
      (pruned[f := claimed], Ok(Claim(claimed, Some(token))))
  }

  function PersistIndex(index: Index, f: nat, owner: Option<nat>, payload: Payload)
    : (Index, Result<Attempt, JournalError>)
  {
    if f !in index then (index, Err(ClaimDisappeared))
    else if index[f].payload.Some? then (index, Ok(index[f]))
    else if owner != Some(index[f].owner) then (index, Err(NotOwner))
    else
      var ready := index[f].(state := Ready, leaseExpiresAt := 0, payload := Some(payload));
      (index[f := ready], Ok(ready))
  }

  function ReleaseIndex(index: Index, f: nat, owner: Option<nat>): Index {
    if f in index && owner == Some(index[f].owner) && index[f].payload.None? then index - {f} else index
  }

  // ---- Specification of the receipt log ----

  predicate SameKey(a: Receipt, b: Receipt) {
    a.fingerprint == b.fingerprint && a.outcome == b.outcome && a.tx == b.tx
  }

  predicate HasDuplicate(log: seq<Receipt>, r: Receipt) {
    r.fingerprint.Some? && exists i :: 0 <= i < |log| && SameKey(log[i], r)
  }

  predicate TerminalFor(a: Receipt, r: Receipt) {
    a.fingerprint == r.fingerprint && a.tx == r.tx && a.outcome != Pending
  }

  /** A late pending or failed report of a transaction that already has a terminal receipt. */
  predicate IsLate(log: seq<Receipt>, r: Receipt) {
    && r.fingerprint.Some? && r.outcome != Settled
    && exists i :: 0 <= i < |log| && TerminalFor(log[i], r)
  }

  function AppendReceipt(log: seq<Receipt>, r: Receipt): seq<Receipt> {
    if HasDuplicate(log, r) then log else log + [r]
  }

  function RecordLog(log: seq<Receipt>, r: Receipt): seq<Receipt> {
    if IsLate(log, r) then log else AppendReceipt(log, r)
  }

  function RecordIndex(index: Index, log: seq<Receipt>, r: Receipt, now: int, reuse: int): Index {
    if IsLate(log, r) || r.fingerprint.None? || r.fingerprint.value !in index then index
    else
      var f := r.fingerprint.value;
      match r.outcome
      case Pending => index[f := index[f].(state := InFlight, leaseExpiresAt := 0)]
      case Settled => index[f := index[f].(state := Paid, leaseExpiresAt := now + reuse)]
      case Failed => index - {f}
  }

  // ---- The journal ----

  class Journal {
    var index: Index
    var log: seq<Receipt>

    constructor ()
      ensures index == map[] && log == []
    {
      index := map[];
      log := [];
    }

    method PruneExpiredAttempts(now: int) returns (count: nat)
      modifies this`index
      ensures index == Prune(old(index), now)
      ensures count == |old(index).Keys - index.Keys|
      ensures count == 0 ==> index == old(index)
    {
      var expired: set<nat> := {};
      var todo := index.Keys;
      while todo != {}
        invariant todo <= index.Keys && expired <= index.Keys && expired !! todo
        invariant forall f :: f in index && f !in todo ==> (f in expired <==> ExpiredPaid(index[f], now))
        decreases |todo|
      {
        var f :| f in todo;
        if index[f].state == Paid && index[f].leaseExpiresAt <= now {
          expired := expired + {f};
        }
        todo := todo - {f};
      }
      ghost var before := index;
      index := index - expired;
      assert index == Prune(before, now);
      assert before.Keys - index.Keys == expired;
      count := |expired|;
      if count == 0 {
        assert expired == {};
      }
    }

    method ClaimAttempt(f: nat, payer: nat, scope: string, now: int, lease: int, token: nat)
      returns (r: Result<Claim, JournalError>)
      modifies this`index
      ensures (index, r) == ClaimIndex(old(index), f, payer, scope, now, lease, token)
    {
      if IsBlank(scope) {
        return Err(BlankScope);
      }
      var before := index;
      var _ := PruneExpiredAttempts(now);
      if f in index {
        var existing := index[f];
        if existing.payer != payer || existing.scope != scope {
          index := before;      // raised before the pruned index is written
          return Err(ScopeMismatch);
        }
        if existing.payload.Some? || existing.leaseExpiresAt > now {
          return Ok(Claim(existing, None));
        }
      }
      var claimed := Attempt(payer, scope, token, Claimed, now + lease, None);
      index := index[f := claimed];
      r := Ok(Claim(claimed, Some(token)));
    }

    method PersistAttemptPayload(f: nat, owner: Option<nat>, payload: Payload)
      returns (r: Result<Attempt, JournalError>)
      modifies this`index
      ensures (index, r) == PersistIndex(old(index), f, owner, payload)
    {
      if f !in index {
        return Err(ClaimDisappeared);
      }
      var current := index[f];
      if current.payload.Some? {
        return Ok(current);
      }
      if owner.None? || current.owner != owner.value {
        return Err(NotOwner);
      }
      var ready := current.(state := Ready, leaseExpiresAt := 0, payload := Some(payload));
      index := index[f := ready];
      r := Ok(ready);
    }

    method ReleaseClaim(f: nat, owner: Option<nat>)
      modifies this`index
      ensures index == ReleaseIndex(old(index), f, owner)
    {
      if owner.None? {
        return;
      }
      if f in index && index[f].owner == owner.value && index[f].payload.None? {
        index := index - {f};
      }
    }

    method Append(receipt: Receipt) returns (appended: bool)
      modifies this`log
      ensures log == AppendReceipt(old(log), receipt)
      ensures appended <==> log != old(log)
    {
      if receipt.fingerprint.Some? {
        for i := 0 to |log|
          invariant log == old(log)
          invariant forall j :: 0 <= j < i ==> !SameKey(log[j], receipt)
        {
          if SameKey(log[i], receipt) {
            return false;
          }
        }
      }
      log := log + [receipt];
      assert |log| == |old(log)| + 1;
      appended := true;
    }

    method RecordOutcome(receipt: Receipt, now: int, reuse: int) returns (appended: bool)
      modifies this
      ensures log == RecordLog(old(log), receipt)
      ensures index == RecordIndex(old(index), old(log), receipt, now, reuse)
      ensures appended <==> log != old(log)
    {
      if receipt.fingerprint.Some? && receipt.outcome != Settled {
        for i := 0 to |log|
          invariant log == old(log) && index == old(index)
          invariant forall j :: 0 <= j < i ==> !TerminalFor(log[j], receipt)
        {
          if TerminalFor(log[i], receipt) {
            return false;
          }
        }
      }
      appended := Append(receipt);
      if receipt.fingerprint.None? || receipt.fingerprint.value !in index {
        return;
      }
      var f := receipt.fingerprint.value;
      match receipt.outcome {
        case Pending => index := index[f := index[f].(state := InFlight, leaseExpiresAt := 0)];
        case Settled => index := index[f := index[f].(state := Paid, leaseExpiresAt := now + reuse)];
        case Failed => index := index - {f};
      }
    }
  }

  // ---- Receipts never regress ----

  function OutcomeRank(o: Outcome): nat {
    match o
    case Pending => 0
    case Failed => 1
    case Settled => 2
  }

  function RecordAll(log: seq<Receipt>, history: seq<Receipt>): seq<Receipt>
    decreases |history|
  {
    if history == [] then log else RecordAll(RecordLog(log, history[0]), history[1..])
  }

  predicate SamePayment(a: Receipt, b: Receipt) {
    a.fingerprint.Some? && a.fingerprint == b.fingerprint && a.tx == b.tx
  }

  ghost predicate Progressing(log: seq<Receipt>) {
    forall i, j :: 0 <= i < j < |log| && SamePayment(log[i], log[j])
                   ==> OutcomeRank(log[i].outcome) < OutcomeRank(log[j].outcome)
  }

  lemma RecordKeepsProgress(log: seq<Receipt>, r: Receipt)
    requires Progressing(log)
    ensures Progressing(RecordLog(log, r))
  {
    var log' := RecordLog(log, r);
    if log' != log {
      forall i | 0 <= i < |log| && SamePayment(log[i], r)
        ensures OutcomeRank(log[i].outcome) < OutcomeRank(r.outcome)
      {
        assert !SameKey(log[i], r);
        assert r.outcome != Settled ==> !TerminalFor(log[i], r);
      }
    }
  }

  /** For every history of recorded outcomes, the receipts kept for one fingerprint and
      transaction strictly increase in the order pending, failed, paid. */
  lemma {:induction false} ReceiptsNeverRegress(log: seq<Receipt>, history: seq<Receipt>)
    requires Progressing(log)
    ensures Progressing(RecordAll(log, history))
    decreases |history|
  {
    if history != [] {
      RecordKeepsProgress(log, history[0]);
      ReceiptsNeverRegress(RecordLog(log, history[0]), history[1..]);
    }
  }

  /** So at most three receipts are kept for one payment. */
  lemma AtMostThreeReceipts(history: seq<Receipt>, i: nat, j: nat, k: nat, l: nat)
    requires i < j < k < l < |RecordAll([], history)|
    ensures var log := RecordAll([], history);
            !(SamePayment(log[i], log[j]) && SamePayment(log[j], log[k]) && SamePayment(log[k], log[l]))
  {
    ReceiptsNeverRegress([], history);
  }

  /** And none follows a paid one. */
  lemma NothingFollowsPaid(history: seq<Receipt>, i: nat, j: nat)
    requires i < j < |RecordAll([], history)| && RecordAll([], history)[i].outcome == Settled
    ensures !SamePayment(RecordAll([], history)[i], RecordAll([], history)[j])
  {
    ReceiptsNeverRegress([], history);
  }

  /** A failed outcome removes the stored attempt exactly when no terminal receipt is kept for the
      same fingerprint and transaction text; a second failure that reports the same (for example
      empty) transaction leaves the attempt and its payload in place. */
  lemma FailureRemovesExactlyWhenFirst(index: Index, log: seq<Receipt>, r: Receipt, now: int, reuse: int)
    requires r.outcome == Failed && r.fingerprint.Some? && r.fingerprint.value in index
    ensures r.fingerprint.value !in RecordIndex(index, log, r, now, reuse)
            <==> forall i :: 0 <= i < |log| ==> !TerminalFor(log[i], r)
  {
  }

  // ---- What a claim returns ----

  /** There is an attempt that pruning leaves in place. */
  predicate Current(index: Index, f: nat, now: int) {
    f in index && !(index[f].state == Paid && index[f].leaseExpiresAt <= now)
  }

  /** Whether the attempt holds others back: it has a payload to share, or its lease runs on. */
  predicate HoldsBack(a: Attempt, now: int) {
    a.payload.Some? || a.leaseExpiresAt >= now + 1
  }

  /** A claim in full: refused for a blank or different scope, given what is there while that holds
      others back, and otherwise the new owner until `now + lease`. */
  lemma ClaimExactly(index: Index, f: nat, payer: nat, scope: string, now: int, lease: int, token: nat)
    ensures var (index', r) := ClaimIndex(index, f, payer, scope, now, lease, token);
            var same := Current(index, f, now) && index[f].payer == payer && index[f].scope == scope;
            && (r == Err(BlankScope) <==> Strip(scope) == "")
            && (r == Err(ScopeMismatch) <==> Strip(scope) != "" && Current(index, f, now) && !same)
            && (r.Ok? && r.value.owner == None <==> Strip(scope) != "" && same && HoldsBack(index[f], now))
            && (r.Ok? && r.value.owner == Some(token) <==>
                  Strip(scope) != "" && (!Current(index, f, now) || (same && !HoldsBack(index[f], now))))
            && (r.Ok? && r.value.owner == None ==> r.value.attempt == index[f] && f in index' && index'[f] == index[f])
            && (r.Ok? && r.value.owner.Some? ==>
                  && r.value.owner == Some(token) && f in index' && r.value.attempt == index'[f]
                  && index'[f] == Attempt(payer, scope, token, Claimed, now + lease, None))
            && (r.Err? ==> index' == index)
            && (forall g :: g != f && r.Ok? ==> (g in index' <==> Current(index, g, now))
                                                && (g in index' ==> index'[g] == index[g]))
  {
    BlankExactly(scope);
  }

  lemma {:induction false} StripLeftOfBlank(s: string)
    ensures StripLeft(s) == "" <==> IsBlank(s)
  {
    if s != "" {
      if IsSpace(s[0]) {
        StripLeftOfBlank(s[1..]);
        assert s == [s[0]] + s[1..];
      }
    }
  }

  /** A scope is blank exactly when stripping leaves nothing. */
  lemma BlankExactly(s: string)
    ensures Strip(s) == "" <==> IsBlank(s)
  {
    StripLeftOfBlank(s);
    StripLeftResult(s);
    var l := StripLeft(s);
    if l != "" { FirstStays(l); }
  }

  lemma {:induction false} FirstStays(s: string)
    requires s != "" && !IsSpace(s[0])
    ensures StripRight(s) != ""
  {
    if IsSpace(s[|s| - 1]) { FirstStays(s[..|s| - 1]); }
  }

  // ---- What an outcome and a release leave behind ----

  /** A release takes away exactly the owner's own claim without a payload, after which the next
      claim owns it at once. */
  lemma ReleaseExactly(index: Index, f: nat, owner: Option<nat>)
    ensures f in index && f !in ReleaseIndex(index, f, owner)
            <==> f in index && owner == Some(index[f].owner) && index[f].payload == None
    ensures forall g :: g in index && g != f ==> g in ReleaseIndex(index, f, owner)
                                                 && ReleaseIndex(index, f, owner)[g] == index[g]
    ensures ReleaseIndex(index, f, owner).Keys <= index.Keys
    ensures f in ReleaseIndex(index, f, owner) ==> ReleaseIndex(index, f, owner)[f] == index[f]
  {
  }

  /** A pending outcome keeps the payload for good: whoever asks later, at any time, is given it. */
  lemma PendingIsShared(
    index: Index, log: seq<Receipt>, r: Receipt, now: int, reuse: int, later: int, lease: int, token: nat)
    requires r.outcome == Pending && r.fingerprint.Some? && r.fingerprint.value in index && !IsLate(log, r)
    requires index[r.fingerprint.value].payload.Some? && Strip(index[r.fingerprint.value].scope) != ""
    ensures var f := r.fingerprint.value;
            var a := index[f];
            var claim := ClaimIndex(RecordIndex(index, log, r, now, reuse), f, a.payer, a.scope, later, lease, token).1;
            claim.Ok? && claim.value.owner == None && claim.value.attempt.payload == a.payload
            && claim.value.attempt.state == InFlight
  {
    var f := r.fingerprint.value;
    ClaimExactly(RecordIndex(index, log, r, now, reuse), f, index[f].payer, index[f].scope, later, lease, token);
  }

  /** A paid outcome keeps it for the reuse window: before its end whoever asks is given the payload,
      from then on the next one signs anew. */
  lemma PaidIsSharedUntil(
    index: Index, log: seq<Receipt>, r: Receipt, now: int, reuse: int, later: int, lease: int, token: nat)
    requires r.outcome == Settled && r.fingerprint.Some? && r.fingerprint.value in index
    requires index[r.fingerprint.value].payload.Some? && Strip(index[r.fingerprint.value].scope) != ""
    ensures var f := r.fingerprint.value;
            var a := index[f];
            var claim := ClaimIndex(RecordIndex(index, log, r, now, reuse), f, a.payer, a.scope, later, lease, token).1;
            && claim.Ok?
            && (later < now + reuse ==> claim.value.owner == None && claim.value.attempt.payload == a.payload)
            && (later >= now + reuse ==> claim.value.owner == Some(token))
  {
    var f := r.fingerprint.value;
    ClaimExactly(RecordIndex(index, log, r, now, reuse), f, index[f].payer, index[f].scope, later, lease, token);
  }

  /** A receipt is appended exactly when it has no fingerprint, or none of the kept receipts has its
      fingerprint, outcome and transaction. */
  lemma AppendExactly(log: seq<Receipt>, r: Receipt)
    ensures AppendReceipt(log, r) == log + [r]
            <==> r.fingerprint == None
                 || forall i :: 0 <= i < |log|
                      ==> log[i].fingerprint != r.fingerprint || log[i].outcome != r.outcome || log[i].tx != r.tx
    ensures AppendReceipt(log, r) == log || AppendReceipt(log, r) == log + [r]
  {
    assert |log + [r]| == |log| + 1;
    if i :| 0 <= i < |log| && SameKey(log[i], r) { assert SameKey(log[i], r); }
  }

  /** A report is late exactly when it is not of a payment made, and a failed or paid receipt is kept
      for its fingerprint and transaction. */
  lemma LateExactly(log: seq<Receipt>, r: Receipt)
    ensures IsLate(log, r)
            <==> r.fingerprint.Some? && (r.outcome == Pending || r.outcome == Failed)
                 && exists i :: 0 <= i < |log| && log[i].fingerprint == r.fingerprint && log[i].tx == r.tx
                                && (log[i].outcome == Failed || log[i].outcome == Settled)
  {
    if IsLate(log, r) {
      var i :| 0 <= i < |log| && TerminalFor(log[i], r);
    }
    if i :| 0 <= i < |log| && log[i].fingerprint == r.fingerprint && log[i].tx == r.tx
            && (log[i].outcome == Failed || log[i].outcome == Settled) {
      assert TerminalFor(log[i], r);
    }
  }

  /** Storing a payload, case by case. */
  lemma PersistExactly(index: Index, f: nat, owner: Option<nat>, payload: Payload)
    ensures var (index', r) := PersistIndex(index, f, owner, payload);
            && (r == Err(ClaimDisappeared) <==> f !in index)
            && (r == Err(NotOwner) <==> f in index && index[f].payload == None && owner != Some(index[f].owner))
            && (r.Ok? && index' == index ==> f in index && r.value == index[f] && r.value.payload.Some?)
            && (f in index && index[f].payload == None && owner == Some(index[f].owner) ==>
                  && r == Ok(Attempt(index[f].payer, index[f].scope, index[f].owner, Ready, 0, Some(payload)))
                  && index' == index[f := r.value])
            && (f !in index || index[f].payload.Some? || owner != Some(index[f].owner) ==> index' == index)
  {
  }
}
