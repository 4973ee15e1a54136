/** What a run of the funding tool does about the trust line, and what its journal ends with. */
module RlusdTrustLine {
  import opened Common
  import opened RlusdFunding

  // ---- No conversion without a line ----

  /** The run has a line: it read a sufficient one, or saw its own TrustSet succeed. */
  predicate LineOk(log: seq<Event>) {
    if log == [] then false
    else match log[|log| - 1]
      case Began => false
      case LineRead(sufficient) => sufficient
      case Confirmed(tx) => tx.kind.TrustLine? || LineOk(log[..|log| - 1])
      case _ => LineOk(log[..|log| - 1])
  }

  lemma LineOkAfter(log: seq<Event>, e: Event)
    ensures LineOk(log + [e]) == match e
                                 case Began => false
                                 case LineRead(sufficient) => sufficient
                                 case Confirmed(tx) => tx.kind.TrustLine? || LineOk(log)
                                 case _ => LineOk(log)
  {
    assert (log + [e])[..|log|] == log;
  }

  /** From here on the run may convert. */
  predicate Converting(p: Point) {
    || p.ReadingBalance? || p.Quoting? || p.CheckingSpendable?
    || (p.Preparing? && p.kind.Convert?) || (p.Signing? && p.kind.Convert?) || (p.Journaling? && p.tx.kind.Convert?)
  }

  ghost predicate LineInv(s: State) {
    && (Converting(s.run) ==> LineOk(s.log))
    && (forall i :: 0 <= i < |s.log| && s.log[i].Journaled? && s.log[i].tx.kind.Convert? ==> LineOk(s.log[..i]))
  }

  lemma StepKeepsLine(cfg: Config, s: State, step: Step)
    requires LineInv(s) && Enabled(cfg, s, step)
    ensures LineInv(Apply(cfg, s, step))
  {
    var s' := Apply(cfg, s, step);
    LogStep(cfg, s, step);
    if s'.log != s.log {
      LineOkAfter(s.log, s'.log[|s.log|]);
    }
    forall i | 0 <= i < |s'.log| && s'.log[i].Journaled? && s'.log[i].tx.kind.Convert? ensures LineOk(s'.log[..i]) {
      if i < |s.log| { assert s'.log[..i] == s.log[..i]; } else { assert s'.log[..i] == s.log; }
    }
  }

  /** A step logs one event at most. */
  lemma LogStep(cfg: Config, s: State, step: Step)
    requires Enabled(cfg, s, step)
    ensures var log' := Apply(cfg, s, step).log;
            log' == s.log || (|log'| == |s.log| + 1 && log' == s.log + [log'[|s.log|]])
  {
  }

  lemma {:induction false} RunKeepsLine(cfg: Config, s: State, steps: seq<Step>, t: State)
    requires LineInv(s) && Reaches(cfg, s, steps, t)
    ensures LineInv(t)
    decreases |steps|
  {
    if steps != [] {
      StepKeepsLine(cfg, s, steps[0]);
      RunKeepsLine(cfg, Apply(cfg, s, steps[0]), steps[1..], t);
    }
  }

  /** The event that gave the run its line, with no new run and no line read as insufficient since. */
  lemma {:induction false} WhyLineOk(log: seq<Event>) returns (i: nat)
    requires LineOk(log)
    ensures i < |log| && (log[i] == LineRead(true) || (log[i].Confirmed? && log[i].tx.kind.TrustLine?))
    ensures forall k :: i < k < |log| ==> log[k] != Began && log[k] != LineRead(false)
    decreases |log|
  {
    var n := |log| - 1;
    if log[n] == LineRead(true) || (log[n].Confirmed? && log[n].tx.kind.TrustLine?) {
      i := n;
    } else {
      i := WhyLineOk(log[..n]);
      assert forall k :: i < k < n ==> log[..n][k] == log[k];
    }
  }

  /** Over any series of runs and crashes, a conversion is journaled only in a run that read a
      sufficient trust line, or that saw its own TrustSet validated after reading an insufficient
      one. */
  lemma ConversionNeedsLine(cfg: Config, s: State, steps: seq<Step>, t: State, j: nat) returns (i: nat)
    requires Initial(s) && Reaches(cfg, s, steps, t)
    requires j < |t.log| && t.log[j].Journaled? && t.log[j].tx.kind.Convert?
    ensures i < j && (t.log[i] == LineRead(true) || (t.log[i].Confirmed? && t.log[i].tx.kind.TrustLine?))
    ensures forall k :: i < k < j ==> t.log[k] != Began && t.log[k] != LineRead(false)
  {
    RunKeepsLine(cfg, s, steps, t);
    i := WhyLineOk(t.log[..j]);
    assert forall k :: i < k < j ==> t.log[..j][k] == t.log[k];
  }

  // ---- Confirmations are true ----

  predicate Succeeded(c: Chain, id: nat) { id in c.included && c.included[id] }

  /** What an event says about the ledger and the completed hashes. */
  predicate EventTrue(s: State, e: Event) {
    && (e.Confirmed? ==> Succeeded(s.chain, e.tx.id) && e.tx.id in s.completed)
    && (e.Rejected? ==> e.tx.id in s.chain.included && !s.chain.included[e.tx.id])
  }

  ghost predicate ConfirmedInv(s: State) {
    && (forall id :: id in s.sent ==> s.sent[id].id == id)
    && (forall i :: 0 <= i < |s.log| ==> EventTrue(s, s.log[i]))
    && (forall i :: 0 <= i < |s.completed| ==> Succeeded(s.chain, s.completed[i]))
    && (forall i, j :: 0 <= i < j < |s.completed| ==> s.completed[i] != s.completed[j])
  }

  lemma ResultsStay(cfg: Config, s: State, step: Step)
    requires Enabled(cfg, s, step) && forall id :: id in s.sent ==> s.sent[id].id == id
    ensures var s' := Apply(cfg, s, step);
            forall id :: id in s.chain.included
                         ==> id in s'.chain.included && s'.chain.included[id] == s.chain.included[id]
  {
  }

  /** What a step does to the completed hashes and to the ids of sent transactions. */
  lemma StepCompletes(cfg: Config, s: State, step: Step)
    requires ConfirmedInv(s) && Enabled(cfg, s, step)
    ensures var s' := Apply(cfg, s, step);
            && (forall id :: id in s'.sent ==> s'.sent[id].id == id)
            && s.completed <= s'.completed && |s'.completed| <= |s.completed| + 1
            && (|s'.completed| > |s.completed| ==>
                  && s'.completed[|s.completed|] !in s.completed
                  && Succeeded(s.chain, s'.completed[|s.completed|]))
  {
  }

  /** What it logs is true. */
  lemma StepLogsTrue(cfg: Config, s: State, step: Step)
    requires Enabled(cfg, s, step)
    ensures var s' := Apply(cfg, s, step);
            |s'.log| > |s.log| ==> EventTrue(s', s'.log[|s.log|])
  {
  }

  lemma StepKeepsConfirmed(cfg: Config, s: State, step: Step)
    requires ConfirmedInv(s) && Enabled(cfg, s, step)
    ensures ConfirmedInv(Apply(cfg, s, step))
  {
    var s' := Apply(cfg, s, step);
    LogStep(cfg, s, step);
    ResultsStay(cfg, s, step);
    StepCompletes(cfg, s, step);
    StepLogsTrue(cfg, s, step);
    assert forall id :: id in s.completed ==> id in s'.completed;
    forall i | 0 <= i < |s'.log| ensures EventTrue(s', s'.log[i]) {
      if i < |s.log| { assert EventTrue(s, s.log[i]) && s'.log[i] == s.log[i]; }
    }
    forall i | 0 <= i < |s'.completed| ensures Succeeded(s'.chain, s'.completed[i]) {
      if i < |s.completed| { assert Succeeded(s.chain, s.completed[i]) && s'.completed[i] == s.completed[i]; }
    }
  }

  lemma {:induction false} RunKeepsConfirmed(cfg: Config, s: State, steps: seq<Step>, t: State)
    requires ConfirmedInv(s) && Reaches(cfg, s, steps, t)
    ensures ConfirmedInv(t)
    decreases |steps|
  {
    if steps != [] {
      StepKeepsConfirmed(cfg, s, steps[0]);
      RunKeepsConfirmed(cfg, Apply(cfg, s, steps[0]), steps[1..], t);
    }
  }

  /** The completed hashes are exactly distinct successes of the ledger, and hold every one that a
      run confirmed. */
  lemma CompletedAreSuccesses(cfg: Config, s: State, steps: seq<Step>, t: State)
    requires Initial(s) && Reaches(cfg, s, steps, t)
    ensures forall i :: 0 <= i < |t.completed|
                        ==> t.completed[i] in t.chain.included && t.chain.included[t.completed[i]]
    ensures forall i, j :: 0 <= i < j < |t.completed| ==> t.completed[i] != t.completed[j]
    ensures forall i :: 0 <= i < |t.log| && t.log[i].Confirmed? ==> t.log[i].tx.id in t.completed
    ensures forall i :: 0 <= i < |t.log| && t.log[i].Rejected?
                        ==> t.log[i].tx.id in t.chain.included && !t.chain.included[t.log[i].tx.id]
  {
    RunKeepsConfirmed(cfg, s, steps, t);
    assert forall i :: 0 <= i < |t.completed| ==> Succeeded(t.chain, t.completed[i]);
    assert forall i :: 0 <= i < |t.log| ==> EventTrue(t, t.log[i]);
  }

  // ---- When the journal entry goes away ----

  /** A pending transaction leaves the journal exactly when the tool sees its validated result, or
      sees past its last ledger that the whole search found nothing. */
  lemma PendingEndsExactly(cfg: Config, s: State, step: Step)
    requires Enabled(cfg, s, step) && s.pending.Some? && !step.WriteJournal?
    ensures Apply(cfg, s, step).pending == None
            <==> || step.LookupValidated?
                 || step.ResultValidated?
                 || (step.ReadReconcileLedger? && s.run.searchedAll && s.pending.value.last <= s.chain.index)
    ensures Apply(cfg, s, step).pending == None || Apply(cfg, s, step).pending == s.pending
  {
  }

  /** And then the ledger has it or can never have it. */
  lemma PendingEndsOnlyWhenOver(cfg: Config, cap: real, s: State, step: Step)
    requires Inv(cfg, cap, s) && Enabled(cfg, s, step) && s.pending.Some?
    requires Apply(cfg, s, step).pending != s.pending
    ensures s.pending.value.id in s.chain.included || s.pending.value.last <= s.chain.index
  {
    if !step.WriteJournal? { PendingEndsExactly(cfg, s, step); }
  }

  // ---- What an inclusion costs ----

  /** Inclusion takes the fee in any case.  On success a conversion also moves the amount in and what
      it spent out, and a TrustSet adds an owned object; on failure nothing else moves. */
  lemma InclusionMoves(c: Chain, tx: Tx, success: bool, spent: int)
    ensures var c' := IncludeTx(c, tx, success, spent);
            var converted := success && tx.kind.Convert?;
            && c'.xrp == c.xrp - tx.fee - (if converted then spent else 0)
            && c'.rlusd == c.rlusd + (if converted then tx.kind.amount else 0.0)
            && c'.owners == c.owners + (if success && tx.kind.TrustLine? then 1 else 0)
            && c'.included == c.included[tx.id := success] && c'.index == c.index && c'.closing == c.closing
  {
  }
}
