/** How often a signed transaction is broadcast, and to which request it is bound, over every run. */
module SettlementBroadcast {
  import opened Common
  import opened XrplLedger
  import opened Settlement

  // ---- Counting one hash's events in the log ----

  datatype Tally = Tally(reserved: nat, submitted: nat, evicted: nat, bound: Option<Fingerprint>)

  function Count(t: Tally, e: Event, tx: Tx): Tally {
    match e
    case Reserved(_, fp) => if fp.tx == tx then t.(reserved := t.reserved + 1, bound := Some(fp)) else t
    case Submitted(_, fp) => if fp.tx == tx then t.(submitted := t.submitted + 1) else t
    case Evicted(x) => if x == tx then t.(evicted := t.evicted + 1) else t
    case _ => t
  }

  /** The reservations, SubmitOnly requests and evictions of `tx`, and the fingerprint of its
      latest reservation. */
  function TallyOf(log: seq<Event>, tx: Tx): Tally {
    if log == [] then Tally(0, 0, 0, None)
    else Count(TallyOf(log[..|log| - 1], tx), log[|log| - 1], tx)
  }

  lemma TallyAppend(log: seq<Event>, e: Event, tx: Tx)
    ensures TallyOf(log + [e], tx) == Count(TallyOf(log, tx), e, tx)
  {
    assert (log + [e])[..|log|] == log;
  }

  /** The calls that hold a reservation of `tx` and are about to submit it. */
  function Holders(calls: map<nat, Call>, tx: Tx): set<nat> {
    set c | c in calls && calls[c].pc.Submitting? && calls[c].fp.tx == tx
  }

  ghost predicate TallyInv(s: State) {
    forall tx :: TxTallied(s, tx)
  }

  ghost predicate TxTallied(s: State, tx: Tx) {
    var t := TallyOf(s.log, tx);
    && t.reserved == t.evicted + (if tx in s.store then 1 else 0)
    && t.submitted + |Holders(s.calls, tx)| <= t.reserved
  }

  predicate Silent(e: Event) { !e.Reserved? && !e.Submitted? && !e.Evicted? }

  lemma {:induction false} SilentTally(log: seq<Event>, more: seq<Event>, tx: Tx)
    requires forall i :: 0 <= i < |more| ==> Silent(more[i])
    ensures TallyOf(log + more, tx) == TallyOf(log, tx)
    decreases |more|
  {
    if more == [] {
      assert log + more == log;
    } else {
      var init, e := more[..|more| - 1], more[|more| - 1];
      assert log + more == (log + init) + [e];
      SilentTally(log, init, tx);
      TallyAppend(log + init, e, tx);
    }
  }

  lemma SmallerSet(a: set<nat>, b: set<nat>)
    requires a <= b
    ensures |a| <= |b|
  {
    assert b == a + (b - a);
  }

  /** The step reserved, submitted and evicted nothing. */
  predicate Quiet(s: State, e: Effect) {
    && e.store.Keys == s.store.Keys
    && !e.pc.Submitting?
    && forall i :: 0 <= i < |e.events| ==> Silent(e.events[i])
  }

  lemma QuietKeepsTally(s: State, c: nat, e: Effect)
    requires TallyInv(s) && c in s.calls && Quiet(s, e)
    ensures TallyInv(Commit(s, c, e))
  {
    var s' := Commit(s, c, e);
    forall tx ensures TxTallied(s', tx) {
      assert TxTallied(s, tx);
      SilentTally(s.log, e.events, tx);
      assert tx in s'.store <==> tx in s.store.Keys;
      SmallerSet(Holders(s'.calls, tx), Holders(s.calls, tx));
    }
  }

  lemma MoveHolder(calls: map<nat, Call>, c: nat, pc: Pc, tx: Tx)
    requires c in calls
    ensures var h' := Holders(calls[c := Call(calls[c].fp, pc)], tx);
            && |h'| <= |Holders(calls, tx)| + 1
            && (calls[c].fp.tx != tx || !pc.Submitting? ==> |h'| <= |Holders(calls, tx)|)
  {
    var h' := Holders(calls[c := Call(calls[c].fp, pc)], tx);
    SmallerSet(h', Holders(calls, tx) + {c});
    if calls[c].fp.tx != tx || !pc.Submitting? { SmallerSet(h', Holders(calls, tx)); }
  }

  lemma ReserveKeepsTally(s: State, c: nat, first: nat)
    requires TallyInv(s) && c in s.calls && s.calls[c].fp.tx !in s.store
    ensures TallyInv(Commit(s, c, TryReserve(s, c, first)))
  {
    var fp := s.calls[c].fp;
    var e := TryReserve(s, c, first);
    forall tx ensures TxTallied(Commit(s, c, e), tx) {
      assert TxTallied(s, tx);
      TallyAppend(s.log, Reserved(c, fp), tx);
      MoveHolder(s.calls, c, e.pc, tx);
    }
  }

  lemma OneThenMore(log: seq<Event>, e: Event, more: seq<Event>)
    ensures log + ([e] + more) == log + [e] + more
  {
  }

  lemma SubmittedTally(log: seq<Event>, e: Event, more: seq<Event>, tx: Tx)
    requires forall i :: 0 <= i < |more| ==> Silent(more[i])
    ensures TallyOf(log + ([e] + more), tx) == Count(TallyOf(log, tx), e, tx)
  {
    OneThenMore(log, e, more);
    SilentTally(log + [e], more, tx);
    TallyAppend(log, e, tx);
  }

  /** Submitting uses up the call's place among the holders. */
  lemma SubmitKeepsTally(s: State, c: nat, pc: Pc, more: seq<Event>)
    requires TallyInv(s) && c in s.calls && s.calls[c].pc.Submitting? && !pc.Submitting?
    requires forall i :: 0 <= i < |more| ==> Silent(more[i])
    ensures TallyInv(Commit(s, c, Effect(pc, s.store, [Submitted(c, s.calls[c].fp)] + more)))
  {
    var fp := s.calls[c].fp;
    var events := [Submitted(c, fp)] + more;
    var s' := Commit(s, c, Effect(pc, s.store, events));
    forall tx ensures TxTallied(s', tx) {
      assert TxTallied(s, tx);
      SubmittedTally(s.log, Submitted(c, fp), more, tx);
      assert Holders(s'.calls, tx) == Holders(s.calls, tx) - {c};
    }
  }

  lemma EvictKeepsTally(s: State, tx: Tx)
    requires TallyInv(s) && Enabled(s, Evict(tx))
    ensures TallyInv(Apply(s, Evict(tx)))
  {
    forall x ensures TxTallied(Apply(s, Evict(tx)), x) {
      assert TxTallied(s, x);
      TallyAppend(s.log, Evicted(tx), x);
    }
  }

  lemma QuietSteps(s: State, step: Step)
    requires Enabled(s, step) && IsCallStep(step) && !step.Submit?
    requires step.ReserveHash? ==> s.calls[step.call].fp.tx in s.store
    ensures Quiet(s, CallEffect(s, step))
  {
  }

  lemma SubmitEvents(s: State, step: Step) returns (more: seq<Event>)
    requires Enabled(s, step) && step.Submit?
    ensures forall i :: 0 <= i < |more| ==> Silent(more[i])
    ensures var e := CallEffect(s, step);
            && e.store == s.store && !e.pc.Submitting? && s.calls[step.call].pc.Submitting?
            && e.events == [Submitted(step.call, s.calls[step.call].fp)] + more
  {
    more := CallEffect(s, step).events[1..];
  }

  lemma SubmitStepKeepsTally(s: State, step: Step)
    requires TallyInv(s) && Enabled(s, step) && step.Submit?
    ensures TallyInv(Apply(s, step))
  {
    var more := SubmitEvents(s, step);
    SubmitKeepsTally(s, step.call, CallEffect(s, step).pc, more);
  }

  lemma StepKeepsTally(s: State, step: Step)
    requires TallyInv(s) && Enabled(s, step)
    ensures TallyInv(Apply(s, step))
  {
    if step.CloseLedger? || step.Start? {
      forall tx ensures TxTallied(Apply(s, step), tx) {
        assert TxTallied(s, tx);
        assert Holders(Apply(s, step).calls, tx) == Holders(s.calls, tx);
      }
    } else if step.Evict? {
      EvictKeepsTally(s, step.tx);
    } else if step.Submit? {
      SubmitStepKeepsTally(s, step);
    } else if step.ReserveHash? && s.calls[step.call].fp.tx !in s.store {
      ReserveKeepsTally(s, step.call, s.calls[step.call].pc.first);
    } else {
      QuietSteps(s, step);
      QuietKeepsTally(s, step.call, CallEffect(s, step));
    }
  }

  lemma {:induction false} RunKeepsTally(s: State, steps: seq<Step>, t: State)
    requires TallyInv(s) && Reaches(s, steps, t)
    ensures TallyInv(t)
    decreases |steps|
  {
    if steps != [] {
      StepKeepsTally(s, steps[0]);
      RunKeepsTally(Apply(s, steps[0]), steps[1..], t);
    }
  }

  /** At most one broadcast: in every run, over all calls, instances and crashes, a signed
      transaction is submitted at most once more than its record was evicted; so it is submitted
      at most once while its record is not evicted. */
  lemma AtMostOneBroadcast(s: State, steps: seq<Step>, t: State, tx: Tx)
    requires Initial(s) && Reaches(s, steps, t)
    ensures TallyOf(t.log, tx).submitted <= 1 + TallyOf(t.log, tx).evicted
    ensures TallyOf(t.log, tx).evicted == 0 ==> TallyOf(t.log, tx).submitted <= 1
  {
    forall x ensures TxTallied(s, x) {
      assert Holders(s.calls, x) == {};
    }
    RunKeepsTally(s, steps, t);
    assert TxTallied(t, tx);
  }
}
