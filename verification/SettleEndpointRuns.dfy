/** A concrete run of the settle endpoint: a request that outlives its key makes it report a false
    success. */
module SettleEndpointRuns {
  import opened Common
  import opened XrplLedger
  import opened Settlement
  import opened SettleEndpoint
  import Reach = SettlementReach
  import Runs = SettlementRuns

  const START := EState(Runs.START, map[], map[], [])
  const KEY := Key("xrpl:1", "payee", 0)
  const ANSWER := Answered(Runs.SUCCESS)

  /** Another signed payment under the same identifier, network and payee. */
  const OTHER := Fingerprint(Tx(1, Sequence(5), 13, 1), Runs.REQ, Some(0), 0)

  ghost predicate Reachable(t: EState) {
    exists steps :: EReaches(START, steps, t)
  }

  lemma {:induction false} Concat(s: EState, steps: seq<EStep>, t: EState, more: seq<EStep>, u: EState)
    requires EReaches(s, steps, t) && EReaches(t, more, u)
    ensures EReaches(s, steps + more, u)
    decreases |steps|
  {
    if steps == [] {
      assert steps + more == more;
    } else {
      Concat(EApply(s, steps[0]), steps[1..], t, more, u);
      assert (steps + more)[1..] == steps[1..] + more;
    }
  }

  lemma OneMore(t: EState, step: EStep) returns (t': EState)
    requires Reachable(t) && EEnabled(t, step)
    ensures Reachable(t') && t' == EApply(t, step)
  {
    var steps :| EReaches(START, steps, t);
    t' := EApply(t, step);
    assert [step][1..] == [];
    assert EReaches(t', [], t');
    Concat(START, steps, t, [step], t');
  }

  /** A settlement run of calls under way is a run of the endpoint. */
  lemma {:induction false} Lift(e: EState, steps: seq<Step>, core: State) returns (lifted: seq<EStep>)
    requires Reaches(e.core, steps, core) && Reach.StartsNone(steps)
    ensures EReaches(e, lifted, e.(core := core))
    decreases |steps|
  {
    if steps == [] {
      lifted := [];
    } else {
      assert !steps[0].Start?;
      var e' := EApply(e, Core(steps[0]));
      assert Reach.StartsNone(steps[1..]);
      var rest := Lift(e', steps[1..], core);
      lifted := [Core(steps[0])] + rest;
      assert lifted[1..] == rest;
      assert e'.(core := core) == e.(core := core);
    }
  }

  lemma CoreContinues(e: EState, core: State) returns (e': EState)
    requires Reachable(e) && Reach.Continues(e.core, core)
    ensures Reachable(e') && e' == e.(core := core)
  {
    var steps :| Reaches(e.core, steps, core) && Reach.StartsNone(steps) && Reach.EvictsNone(steps);
    var lifted := Lift(e, steps, core);
    var before :| EReaches(START, before, e);
    e' := e.(core := core);
    Concat(START, before, e, lifted, e');
  }

  /** Request 1 owns the key and is inside settlement. */
  lemma RunToSettling() returns (t: EState)
    ensures EInitial(START) && Reachable(t)
    ensures t.core == Runs.AtPoint(Runs.START, 1, Started) && t.served == []
    ensures t.keys == map[KEY := Fields(Some(Runs.FP), None)]
    ensures t.requests == map[1 := Request(Runs.FP, Settling)]
  {
    assert EReaches(START, [], START);
    assert KeyOf(Runs.FP) == KEY;
    t := OneMore(START, Arrive(1, Runs.FP));
    t := OneMore(t, Bind(1));
    t := OneMore(t, Compare(1));
    t := OneMore(t, ReadCache(1));
  }

  /** It settles; its key expires before it stores the answer. */
  lemma RunToLatePut() returns (t: EState)
    ensures Reachable(t) && t.core.ledger == Runs.PaidLedger(11) && t.core.calls.Keys == {1}
    ensures t.keys == map[] && t.requests == map[1 := Request(Runs.FP, Storing(ANSWER))]
  {
    t := RunToSettling();
    var core := Runs.RunSettles(t.core, 1);
    t := CoreContinues(t, core);
    t := OneMore(t, Collect(1));
    t := OneMore(t, Expire(KEY));
  }

  /** The answer is stored under the bare key, which the next request then owns. */
  lemma RunToOtherBound() returns (t: EState)
    ensures Reachable(t) && t.core.ledger == Runs.PaidLedger(11) && t.core.calls.Keys == {1}
    ensures t.keys == map[KEY := Fields(Some(OTHER), Some(ANSWER))]
    ensures 2 in t.requests && t.requests[2] == Request(OTHER, Comparing)
  {
    t := RunToLatePut();
    assert KeyOf(Runs.FP) == KEY && KeyOf(OTHER) == KEY;
    t := OneMore(t, Put(1));
    assert t.keys == map[KEY := Fields(None, Some(ANSWER))];
    t := OneMore(t, Arrive(2, OTHER));
    t := OneMore(t, Bind(2));
  }

  /** No false success fails once a request outlives its key: another request is served a success
      although its transaction is in no ledger. */
  lemma LatePutServesFalseSuccess() returns (t: EState)
    ensures EInitial(START) && Reachable(t)
    ensures (OTHER, ANSWER) in t.served && ANSWER.record.outcome == Some(Success)
    ensures OTHER.tx !in t.core.ledger.included
  {
    t := RunToOtherBound();
    assert KeyOf(OTHER) == KEY;
    t := OneMore(t, Compare(2));
    t := OneMore(t, ReadCache(2));
    assert t.served[|t.served| - 1] == (OTHER, ANSWER);
  }
}
