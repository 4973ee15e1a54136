/** Building settlement runs step by step. */
module SettlementReach {
  import opened Settlement

  ghost predicate Reachable(s: State, t: State) {
    exists steps :: Reaches(s, steps, t)
  }

  predicate StartsNone(steps: seq<Step>) {
    forall k :: 0 <= k < |steps| ==> !steps[k].Start?
  }

  predicate EvictsNone(steps: seq<Step>) {
    forall k :: 0 <= k < |steps| ==> !steps[k].Evict?
  }

  /** `t` is reached from `s` by calls that are already under way. */
  ghost predicate Continues(s: State, t: State) {
    exists steps :: Reaches(s, steps, t) && StartsNone(steps) && EvictsNone(steps)
  }

  /** A step of a call under way, or an empty ledger. */
  predicate IsCalm(step: Step) {
    !step.Start? && !step.Evict? && (step.CloseLedger? ==> step.batch == [])
  }

  predicate AllCalm(steps: seq<Step>) {
    forall k :: 0 <= k < |steps| ==> IsCalm(steps[k])
  }

  ghost predicate Calmly(s: State, t: State) {
    exists steps :: Reaches(s, steps, t) && AllCalm(steps)
  }

  lemma {:induction false} Concat(s: State, steps: seq<Step>, t: State, more: seq<Step>, u: State)
    requires Reaches(s, steps, t) && Reaches(t, more, u)
    ensures Reaches(s, steps + more, u)
    decreases |steps|
  {
    if steps == [] {
      assert steps + more == more;
    } else {
      Concat(Apply(s, steps[0]), steps[1..], t, more, u);
      assert (steps + more)[1..] == steps[1..] + more;
    }
  }

  lemma OneStep(t: State, step: Step)
    requires Enabled(t, step)
    ensures Reaches(t, [step], Apply(t, step))
  {
    assert [step][1..] == [];
    assert Reaches(Apply(t, step), [], Apply(t, step));
  }

  lemma Stay(s: State)
    ensures Reachable(s, s) && Calmly(s, s)
  {
    assert Reaches(s, [], s);
  }

  lemma CalmContinues(s: State, t: State)
    requires Calmly(s, t)
    ensures Continues(s, t)
  {
    var steps :| Reaches(s, steps, t) && AllCalm(steps);
    assert forall k :: 0 <= k < |steps| ==> IsCalm(steps[k]);
  }

  /** Runs compose. */
  lemma Then(s: State, t: State, u: State)
    requires Reachable(s, t) && (Reachable(t, u) || Continues(t, u) || Calmly(t, u))
    ensures Reachable(s, u)
  {
    var steps :| Reaches(s, steps, t);
    var more :| Reaches(t, more, u);
    Concat(s, steps, t, more, u);
  }

  lemma ContinuesThen(s: State, t: State, u: State)
    requires Continues(s, t) && Continues(t, u)
    ensures Continues(s, u)
  {
    var steps :| Reaches(s, steps, t) && StartsNone(steps) && EvictsNone(steps);
    var more :| Reaches(t, more, u) && StartsNone(more) && EvictsNone(more);
    Concat(s, steps, t, more, u);
    assert StartsNone(steps + more) && EvictsNone(steps + more);
  }

  lemma CalmlyThen(s: State, t: State, u: State)
    requires Calmly(s, t) && Calmly(t, u)
    ensures Calmly(s, u)
  {
    var steps :| Reaches(s, steps, t) && AllCalm(steps);
    var more :| Reaches(t, more, u) && AllCalm(more);
    Concat(s, steps, t, more, u);
    assert AllCalm(steps + more);
  }

  lemma OneMore(s: State, t: State, step: Step)
    requires Reachable(s, t) && Enabled(t, step)
    ensures Reachable(s, Apply(t, step))
  {
    OneStep(t, step);
    Then(s, t, Apply(t, step));
  }

  lemma CalmStep(s: State, t: State, step: Step)
    requires Calmly(s, t) && Enabled(t, step) && IsCalm(step)
    ensures Calmly(s, Apply(t, step))
  {
    var steps :| Reaches(s, steps, t) && AllCalm(steps);
    OneStep(t, step);
    Concat(s, steps, t, [step], Apply(t, step));
    assert AllCalm(steps + [step]);
  }

  /** A call step, described by its effect. */
  lemma CallStep(s: State, t: State, step: Step, e: Effect)
    requires Calmly(s, t) && Enabled(t, step) && IsCallStep(step) && CallEffect(t, step) == e
    ensures Calmly(s, Commit(t, step.call, e))
  {
    CalmStep(s, t, step);
  }
}
