/** Runs of the funding tool that get where they should: to the target, with or without a trust
    line, and on again after a crash. */
module RlusdFundingRuns {
  import opened Common
  import opened RlusdQuote
  import opened RlusdFunding

  ghost predicate Reachable(cfg: Config, s: State, t: State) {
    exists steps :: Reaches(cfg, s, steps, t)
  }

  lemma {:induction false} Extend(cfg: Config, s: State, steps: seq<Step>, t: State, step: Step)
    requires Reaches(cfg, s, steps, t) && Enabled(cfg, t, step)
    ensures Reaches(cfg, s, steps + [step], Apply(cfg, t, step))
    decreases |steps|
  {
    if steps == [] {
      assert steps + [step] == [step];
      assert Reaches(cfg, Apply(cfg, s, step), [], Apply(cfg, t, step));
    } else {
      Extend(cfg, Apply(cfg, s, steps[0]), steps[1..], t, step);
      assert (steps + [step])[1..] == steps[1..] + [step];
    }
  }

  lemma OneMore(cfg: Config, s: State, t: State, step: Step)
    requires Reachable(cfg, s, t) && Enabled(cfg, t, step)
    ensures Reachable(cfg, s, Apply(cfg, t, step))
  {
    var steps :| Reaches(cfg, s, steps, t);
    Extend(cfg, s, steps, t, step);
  }

  lemma StartIsReachable(cfg: Config, s: State)
    ensures Reachable(cfg, s, s)
  {
    assert Reaches(cfg, s, [], s);
  }

  // ---- Pieces of a run ----

  /** A run without a pending transaction finds the balance short and reads the trust line. */
  lemma RunToLine(cfg: Config, s: State, s1: State, sufficient: bool) returns (t: State)
    requires Reachable(cfg, s, s1) && s1.run.NoRun? && s1.pending.None? && !s1.chain.closing
    requires s1.chain.rlusd < cfg.target
    ensures Reachable(cfg, s, t)
    ensures t == s1.(run := if sufficient then ReadingBalance else Preparing(TrustLine),
                     log := s1.log + [Began] + [LineRead(sufficient)])
  {
    OneMore(cfg, s, s1, StartRun);
    var s2 := s1.(run := Loaded, log := s1.log + [Began]);
    OneMore(cfg, s, s2, ReadStartBalance(true));
    var s3 := s2.(run := CheckingLine);
    OneMore(cfg, s, s3, LineReady(sufficient));
    t := Apply(cfg, s3, LineReady(sufficient));
  }

  /** With a line it reads the balance, gets a quote within the cap and finds it spendable. */
  lemma RunToPrepared(cfg: Config, s: State, s1: State, quote: int) returns (t: State)
    requires Reachable(cfg, s, s1) && s1.run.ReadingBalance? && !s1.chain.closing && s1.chain.rlusd < cfg.target
    requires SendMaxDrops(quote, cfg.slippageBps).Ok?
    requires var m := SendMaxDrops(quote, cfg.slippageBps).value;
             m <= cfg.maxXrp && s1.chain.xrp >= Reserve(cfg, s1.chain) + BUFFER_DROPS + m + cfg.maxFee
    ensures Reachable(cfg, s, t)
    ensures var needed, m := cfg.target - s1.chain.rlusd, SendMaxDrops(quote, cfg.slippageBps).value;
            t == s1.(run := Preparing(Convert(needed, quote, m)), log := s1.log + [Quoted(needed, quote)])
  {
    var needed, m := cfg.target - s1.chain.rlusd, SendMaxDrops(quote, cfg.slippageBps).value;
    OneMore(cfg, s, s1, ReadBalance);
    var s2 := s1.(run := Quoting(needed));
    OneMore(cfg, s, s2, Quote(quote));
    var s3 := s2.(run := CheckingSpendable(needed, quote, m), log := s2.log + [Quoted(needed, quote)]);
    OneMore(cfg, s, s3, CheckSpendable);
    t := s3.(run := Preparing(Convert(needed, quote, m)));
  }

  lemma RunToJournaling(cfg: Config, s: State, s1: State, tx: Tx) returns (t: State)
    requires Reachable(cfg, s, s1) && s1.run == Preparing(tx.kind) && s1.pending.None? && !s1.chain.closing
    requires tx.id == s1.nextId && tx.first == s1.chain.index && 0 < tx.fee <= cfg.maxFee
    ensures Reachable(cfg, s, t) && t == s1.(nextId := s1.nextId + 1, run := Journaling(tx))
  {
    OneMore(cfg, s, s1, ReadFirstLedger);
    OneMore(cfg, s, s1.(run := Signing(tx.kind, tx.first)), Sign(tx.last, tx.fee));
    t := s1.(nextId := s1.nextId + 1, run := Journaling(tx));
  }

  lemma RunToSent(cfg: Config, s: State, s1: State, tx: Tx) returns (t: State)
    requires Reachable(cfg, s, s1) && s1.run == Journaling(tx) && !s1.chain.closing
    ensures Reachable(cfg, s, t)
    ensures t == s1.(pending := Some(tx), sent := s1.sent[tx.id := tx], run := Waiting(tx, false),
                     log := s1.log + [Journaled(tx)] + [Sent(tx)])
  {
    OneMore(cfg, s, s1, WriteJournal);
    var s2 := s1.(pending := Some(tx), run := Sending(tx), log := s1.log + [Journaled(tx)]);
    OneMore(cfg, s, s2, Send);
    t := s2.(sent := s2.sent[tx.id := tx], run := Waiting(tx, false), log := s2.log + [Sent(tx)]);
  }

  /** The next ledger includes the transaction. */
  lemma RunToIncluded(cfg: Config, s: State, s1: State, tx: Tx, spent: int) returns (t: State)
    requires Reachable(cfg, s, s1) && !s1.chain.closing
    requires tx.id in s1.sent && s1.sent[tx.id] == tx && tx.id !in s1.chain.included && s1.chain.index < tx.last
    requires tx.kind.Convert? ==> 0 <= spent <= tx.kind.sendMax
    ensures Reachable(cfg, s, t)
    ensures var c := IncludeTx(s1.chain.(closing := true), tx, true, spent);
            t == s1.(chain := c.(closing := false, index := c.index + 1))
  {
    OneMore(cfg, s, s1, BeginClose);
    var s2 := s1.(chain := s1.chain.(closing := true));
    OneMore(cfg, s, s2, Include(tx.id, true, spent));
    var s3 := s2.(chain := IncludeTx(s2.chain, tx, true, spent));
    OneMore(cfg, s, s3, EndClose);
    t := s3.(chain := s3.chain.(closing := false, index := s3.chain.index + 1));
  }

  /** The waiting run sees the success. */
  lemma RunToConfirmed(cfg: Config, s: State, s1: State) returns (t: State)
    requires Reachable(cfg, s, s1) && s1.run.Waiting? && !s1.chain.closing && s1.run.tx.id !in s1.completed
    requires s1.run.tx.id in s1.chain.included && s1.chain.included[s1.run.tx.id]
    ensures Reachable(cfg, s, t)
    ensures var tx := s1.run.tx;
            t == s1.(pending := None, completed := s1.completed + [tx.id], log := s1.log + [Confirmed(tx)],
                     run := if s1.run.resumed then Reconciled
                            else if tx.kind.TrustLine? then ReadingBalance else NoRun)
  {
    OneMore(cfg, s, s1, ResultValidated);
    t := Apply(cfg, s1, ResultValidated);
  }

  /** One transaction from its preparation to its confirmation. */
  lemma RunTransaction(cfg: Config, s: State, s1: State, tx: Tx) returns (t: State)
    requires Reachable(cfg, s, s1) && s1.run == Preparing(tx.kind) && s1.pending.None? && !s1.chain.closing
    requires tx.id == s1.nextId && tx.first == s1.chain.index && 0 < tx.fee <= cfg.maxFee && s1.chain.index < tx.last
    requires tx.id !in s1.chain.included && tx.id !in s1.completed && (tx.kind.Convert? ==> 0 <= tx.kind.sendMax)
    ensures Reachable(cfg, s, t)
    ensures var c := IncludeTx(s1.chain.(closing := true), tx, true, 0);
            t == s1.(chain := c.(closing := false, index := c.index + 1), nextId := s1.nextId + 1,
                     sent := s1.sent[tx.id := tx], completed := s1.completed + [tx.id],
                     run := if tx.kind.TrustLine? then ReadingBalance else NoRun,
                     log := s1.log + [Journaled(tx)] + [Sent(tx)] + [Confirmed(tx)])
  {
    var s2 := RunToJournaling(cfg, s, s1, tx);
    var s3 := RunToSent(cfg, s, s2, tx);
    var s4 := RunToIncluded(cfg, s, s3, tx, 0);
    t := RunToConfirmed(cfg, s, s4);
  }

  /** From any fresh wallet below the target whose balance covers a quote within the cap, a run
      with one conversion ends exactly at the target, with an empty journal. */
  lemma OneRunFunds(cfg: Config, s: State, quote: int) returns (t: State)
    requires Sensible(cfg) && Initial(s) && s.chain.rlusd < cfg.target
    requires SendMaxDrops(quote, cfg.slippageBps).Ok?
    requires var m := SendMaxDrops(quote, cfg.slippageBps).value;
             m <= cfg.maxXrp && s.chain.xrp >= Reserve(cfg, s.chain) + BUFFER_DROPS + m + cfg.maxFee
    ensures Reachable(cfg, s, t)
    ensures t.chain.rlusd == cfg.target && t.pending.None? && t.completed == [0] && t.run.NoRun?
  {
    StartIsReachable(cfg, s);
    SendMaxIsLeast(quote, cfg.slippageBps, 0);
    var s1 := RunToLine(cfg, s, s, true);
    var s2 := RunToPrepared(cfg, s, s1, quote);
    var tx := Tx(0, s2.run.kind, s2.chain.index, s2.chain.index + 20, 1);
    t := RunTransaction(cfg, s, s2, tx);
  }

  /** A fresh wallet without a sufficient trust line: the run first sets one. */
  lemma RunSetsLine(cfg: Config, s: State) returns (t: State)
    requires Sensible(cfg) && Initial(s) && s.chain.rlusd < cfg.target
    ensures Reachable(cfg, s, t) && t.run.ReadingBalance? && t.pending.None? && !t.chain.closing
    ensures t.chain.rlusd == s.chain.rlusd && t.chain.xrp == s.chain.xrp - 1 && t.chain.owners == s.chain.owners + 1
    ensures t.chain.included == map[0 := true] && t.completed == [0] && t.nextId == 1
    ensures var tx := Tx(0, TrustLine, s.chain.index, s.chain.index + 20, 1);
            t.log == [Began, LineRead(false), Journaled(tx), Sent(tx), Confirmed(tx)] && t.sent == map[0 := tx]
  {
    StartIsReachable(cfg, s);
    var s1 := RunToLine(cfg, s, s, false);
    var tx := Tx(0, TrustLine, s1.chain.index, s1.chain.index + 20, 1);
    t := RunTransaction(cfg, s, s1, tx);
  }

  /** And then, as soon as one reserve increment more is covered, it converts and ends exactly at the
      target: first the trust line, then one conversion. */
  lemma OneRunSetsLineAndFunds(cfg: Config, s: State, quote: int) returns (t: State)
    requires Sensible(cfg) && Initial(s) && s.chain.rlusd < cfg.target
    requires SendMaxDrops(quote, cfg.slippageBps).Ok?
    requires var m := SendMaxDrops(quote, cfg.slippageBps).value;
             && m <= cfg.maxXrp
             && s.chain.xrp - 1 >= Reserve(cfg, s.chain) + cfg.reserveInc + BUFFER_DROPS + m + cfg.maxFee
    ensures Reachable(cfg, s, t)
    ensures t.chain.rlusd == cfg.target && t.pending.None? && t.completed == [0, 1] && t.run.NoRun?
    ensures t.sent.Keys >= {0, 1} && t.sent[0].kind == TrustLine && t.sent[1].kind.Convert?
    ensures t.chain.included == map[0 := true, 1 := true]
  {
    SendMaxIsLeast(quote, cfg.slippageBps, 0);
    var s1 := RunSetsLine(cfg, s);
    ReserveGrows(cfg, s.chain, s1.chain);
    var s2 := RunToPrepared(cfg, s, s1, quote);
    var tx := Tx(1, s2.run.kind, s2.chain.index, s2.chain.index + 20, 1);
    t := RunTransaction(cfg, s, s2, tx);
    assert t.chain.included == map[0 := true][1 := true];
    assert [0] + [1] == [0, 1];
  }

  lemma ReserveGrows(cfg: Config, c: Chain, c': Chain)
    requires c'.owners == c.owners + 1
    ensures Reserve(cfg, c') == Reserve(cfg, c) + cfg.reserveInc
  {
  }

  // ---- After a crash ----

  /** A run that finds a pending transaction which is not validated and can still be, submits the very
      same transaction again and carries it to its end. */
  lemma InterruptedIsFinished(cfg: Config, s: State, tx: Tx) returns (t: State)
    requires s.run.NoRun? && s.pending == Some(tx) && !s.chain.closing && tx.id !in s.completed
    requires tx.id !in s.chain.included && s.chain.index < tx.last && (tx.kind.Convert? ==> 0 <= tx.kind.sendMax)
    ensures Reachable(cfg, s, t) && t.run.Reconciled? && t.pending.None?
    ensures t.completed == s.completed + [tx.id] && t.log == s.log + [Began] + [Sent(tx)] + [Confirmed(tx)]
  {
    StartIsReachable(cfg, s);
    OneMore(cfg, s, s, StartRun);
    var s1 := s.(run := Loaded, log := s.log + [Began]);
    OneMore(cfg, s, s1, LookupMissing(false));
    var s2 := s1.(run := SawMissing(false));
    OneMore(cfg, s, s2, ReadReconcileLedger);
    var s3 := s2.(run := Resubmitting);
    OneMore(cfg, s, s3, Resubmit);
    var s4 := Apply(cfg, s3, Resubmit);
    var s5 := RunToIncluded(cfg, s, s4, tx, 0);
    t := RunToConfirmed(cfg, s, s5);
  }

  /** A run that finds a pending transaction validated takes its result, without submitting. */
  lemma ValidatedIsRecorded(cfg: Config, s: State, tx: Tx) returns (t: State)
    requires s.run.NoRun? && s.pending == Some(tx) && !s.chain.closing && tx.id in s.chain.included
    ensures Reachable(cfg, s, t) && t.pending.None? && t.sent == s.sent
    ensures if s.chain.included[tx.id]
            then t.run.Reconciled? && tx.id in t.completed && t.log == s.log + [Began] + [Confirmed(tx)]
            else t.run.NoRun? && t.completed == s.completed && t.log == s.log + [Began] + [Rejected(tx)]
  {
    StartIsReachable(cfg, s);
    OneMore(cfg, s, s, StartRun);
    var s1 := s.(run := Loaded, log := s.log + [Began]);
    OneMore(cfg, s, s1, LookupValidated);
    t := Apply(cfg, s1, LookupValidated);
  }

  /** A run that finds it absent past its last ledger forgets it and goes on; if the search was not
      complete, it ends and keeps the journal. */
  lemma AbsentIsForgotten(cfg: Config, s: State, tx: Tx, searchedAll: bool) returns (t: State)
    requires s.run.NoRun? && s.pending == Some(tx) && !s.chain.closing
    requires tx.id !in s.chain.included && tx.last <= s.chain.index
    ensures Reachable(cfg, s, t) && t.sent == s.sent && t.log == s.log + [Began]
    ensures if searchedAll then t.run.Reconciled? && t.pending.None? else t.run.NoRun? && t.pending == s.pending
  {
    StartIsReachable(cfg, s);
    OneMore(cfg, s, s, StartRun);
    var s1 := s.(run := Loaded, log := s.log + [Began]);
    OneMore(cfg, s, s1, LookupMissing(searchedAll));
    var s2 := s1.(run := SawMissing(searchedAll));
    OneMore(cfg, s, s2, ReadReconcileLedger);
    t := Apply(cfg, s2, ReadReconcileLedger);
  }

  /** A run on a wallet that has reached its target does nothing. */
  lemma FundedIsLeftAlone(cfg: Config, s: State) returns (t: State)
    requires s.run.NoRun? && s.pending.None? && !s.chain.closing && s.chain.rlusd >= cfg.target
    ensures Reachable(cfg, s, t) && t == s.(log := s.log + [Began])
    ensures t == Apply(cfg, Apply(cfg, s, StartRun), ReadStartBalance(true))
  {
    StartIsReachable(cfg, s);
    OneMore(cfg, s, s, StartRun);
    var s1 := s.(run := Loaded, log := s.log + [Began]);
    OneMore(cfg, s, s1, ReadStartBalance(true));
    t := Apply(cfg, s1, ReadStartBalance(true));
  }

  /** Each check ends the run before anything is signed: a quote over the cap, an unspendable
      balance, a pending transaction, a fee of nothing or over the cap. */
  lemma ChecksEndTheRun(cfg: Config, s: State, drops: int, last: nat, fee: int)
    requires !s.chain.closing
    ensures s.run.Quoting? ==>
              (Apply(cfg, s, Quote(drops)).run == NoRun
               <==> || SendMaxDrops(drops, cfg.slippageBps).Err?
                    || SendMaxDrops(drops, cfg.slippageBps).value > cfg.maxXrp)
    ensures s.run.CheckingSpendable? ==>
              (Apply(cfg, s, CheckSpendable).run == NoRun
               <==> s.chain.xrp - s.run.sendMax - cfg.maxFee - 5000000
                    < cfg.reserveBase + cfg.reserveInc * s.chain.owners)
    ensures s.run.Signing? ==> (Apply(cfg, s, Sign(last, fee)).run == NoRun <==> !(1 <= fee <= cfg.maxFee))
    ensures s.run.Preparing? ==> (Apply(cfg, s, ReadFirstLedger).run == NoRun <==> s.pending.Some?)
    ensures s.run.ReadingBalance? ==> (Apply(cfg, s, ReadBalance).run == NoRun <==> s.chain.rlusd >= cfg.target)
  {
  }
}
