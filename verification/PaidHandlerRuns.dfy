/** Concrete runs of the paid handler: both promptness conditions are needed. */
module PaidHandlerRuns {
  import opened Common
  import opened PaidHandler

  const START := State(map[], map[], map[], [])

  ghost predicate Reachable(t: State) {
    exists steps :: Reaches(START, steps, t)
  }

  lemma {:induction false} Extend(s: State, steps: seq<Step>, t: State, step: Step)
    requires Reaches(s, steps, t) && Enabled(t, step)
    ensures Reaches(s, steps + [step], Apply(t, step))
    decreases |steps|
  {
    if steps == [] {
      assert steps + [step] == [step];
      assert Reaches(Apply(s, step), [], Apply(t, step));
    } else {
      Extend(Apply(s, steps[0]), steps[1..], t, step);
      assert (steps + [step])[1..] == steps[1..] + [step];
    }
  }

  lemma OneMore(t: State, step: Step) returns (t': State)
    requires Reachable(t) && Enabled(t, step)
    ensures Reachable(t') && t' == Apply(t, step)
  {
    var steps :| Reaches(START, steps, t);
    Extend(START, steps, t, step);
    t' := Apply(t, step);
  }

  /** Request 1 binds key 0 and starts the handler. */
  lemma RunToRunning() returns (t: State)
    ensures Initial(START) && Reachable(t)
    ensures t.keys == map[0 := Bound(5)] && t.epochs == map[]
    ensures t.requests == map[1 := Request(0, 5, false, None, Running(0))] && t.log == [Started(0, 0, 5, 1)]
  {
    assert Reaches(START, [], START);
    t := OneMore(START, Arrive(1, 0, 5, false));
    t := OneMore(t, Get(1));
    t := OneMore(t, SetNx(1));
  }

  /** It is about to store its response 7. */
  lemma RunToPutWriting() returns (t: State)
    ensures Initial(START) && Reachable(t)
    ensures t.keys == map[0 := Bound(5)] && t.epochs == map[]
    ensures t.requests == map[1 := Request(0, 5, false, None, PutWriting(0, 7))]
    ensures t.log == [Started(0, 0, 5, 1), Finished(0, 0, 5, 1, 7)]
  {
    t := RunToRunning();
    t := OneMore(t, HandlerEnds(1, Some(7)));
    t := OneMore(t, PutRead(1));
  }

  /** A second request, whose authorization is stale, is let through by the cached response. */
  lemma RunToStaleSeen() returns (t: State)
    ensures Reachable(t) && t.keys == map[0 := Stored(5, 7)] && t.epochs == map[]
    ensures 2 in t.requests && t.requests[2] == Request(0, 5, true, Some(0), Getting)
    ensures t.log == [Started(0, 0, 5, 1), Finished(0, 0, 5, 1, 7)]
  {
    t := RunToPutWriting();
    t := OneMore(t, PutWrite(1));
    t := OneMore(t, Arrive(2, 0, 5, true));
    t := OneMore(t, CheckStale(2));
  }

  /** The key expires before that request's second read: the handler runs twice on one payment. */
  lemma StaleAuthorizationRunsTwice() returns (t: State)
    ensures Initial(START) && Reachable(t)
    ensures t.log == [Started(0, 0, 5, 1), Finished(0, 0, 5, 1, 7), Started(0, 1, 5, 2)]
    ensures 2 in t.requests && t.requests[2] == Request(0, 5, true, Some(0), Running(1))
  {
    t := RunToStaleSeen();
    t := OneMore(t, Expire(0));
    t := OneMore(t, Get(2));
    t := OneMore(t, SetNx(2));
  }

  /** The key expires before request 1 stores: its response is replayed in an epoch without a run. */
  lemma LateResponseIsReplayed() returns (t: State)
    ensures Initial(START) && Reachable(t)
    ensures t.log == [Started(0, 0, 5, 1), Finished(0, 0, 5, 1, 7), Replayed(0, 1, 5, 7)]
  {
    t := RunToPutWriting();
    t := OneMore(t, Expire(0));
    t := OneMore(t, PutWrite(1));
    t := OneMore(t, Arrive(2, 0, 5, false));
    t := OneMore(t, Get(2));
  }
}
