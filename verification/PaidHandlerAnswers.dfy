/** What each request to a paid handler gets: run, replay or one of the refusals. */
module PaidHandlerAnswers {
  import opened Common
  import opened PaidHandler

  /** The key holds a record of another request. */
  predicate Foreign(s: State, e: nat)
    requires e in s.requests
  {
    s.requests[e].key in s.keys && s.keys[s.requests[e].key].fp != s.requests[e].fp
  }

  predicate OwnStored(s: State, e: nat, response: nat)
    requires e in s.requests
  {
    s.requests[e].key in s.keys && s.keys[s.requests[e].key] == Stored(s.requests[e].fp, response)
  }

  function PointAfter(s: State, step: Step): Point
    requires Enabled(s, step) && IsRequestStep(step)
  {
    Apply(s, step).requests[step.request].point
  }

  /** The read before the handler: another request's key is a conflict, an own stored response is
      replayed as it stands, and only an absent or merely bound key goes on to bind. */
  lemma GetExactly(s: State, e: nat)
    requires Enabled(s, Get(e))
    ensures PointAfter(s, Get(e)) == Refused(Conflict) <==> Foreign(s, e)
    ensures forall response :: PointAfter(s, Get(e)) == Replied(response) <==> OwnStored(s, e, response)
    ensures PointAfter(s, Get(e)) == Binding(0)
            <==> s.requests[e].key !in s.keys || s.keys[s.requests[e].key] == Bound(s.requests[e].fp)
    ensures forall response :: OwnStored(s, e, response)
              ==> Apply(s, Get(e)).log
                  == s.log + [Replayed(s.requests[e].key, Epoch(s, s.requests[e].key), s.requests[e].fp, response)]
    ensures PointAfter(s, Get(e)).Replied? || Apply(s, Get(e)).log == s.log
    ensures Apply(s, Get(e)).keys == s.keys
  {
  }

  /** Binding: the request runs the handler exactly when the key is absent at its SET NX.  Otherwise
      its next read decides: another request's key is a conflict, its own means that a matching
      request is executing, and a key that is gone again is tried once more, but only once. */
  lemma BindExactly(s: State, e: nat)
    requires e in s.requests
    ensures Enabled(s, SetNx(e)) ==>
              && (PointAfter(s, SetNx(e)).Running? <==> s.requests[e].key !in s.keys)
              && (s.requests[e].key !in s.keys ==>
                    && Apply(s, SetNx(e)).keys == s.keys[s.requests[e].key := Bound(s.requests[e].fp)]
                    && Apply(s, SetNx(e)).log
                       == s.log + [Started(s.requests[e].key, Epoch(s, s.requests[e].key), s.requests[e].fp, e)])
              && (s.requests[e].key in s.keys ==>
                    && PointAfter(s, SetNx(e)) == Rereading(s.requests[e].point.tries)
                    && Apply(s, SetNx(e)).keys == s.keys && Apply(s, SetNx(e)).log == s.log)
    ensures Enabled(s, Reread(e)) ==>
              && (PointAfter(s, Reread(e)) == Refused(Conflict) <==> Foreign(s, e))
              && (PointAfter(s, Reread(e)) == Refused(InProgress) <==> s.requests[e].key in s.keys && !Foreign(s, e))
              && (PointAfter(s, Reread(e)) == Binding(1)
                  <==> s.requests[e].key !in s.keys && s.requests[e].point.tries == 0)
              && (PointAfter(s, Reread(e)) == Refused(Vanished)
                  <==> s.requests[e].key !in s.keys && s.requests[e].point.tries != 0)
              && Apply(s, Reread(e)).keys == s.keys && Apply(s, Reread(e)).log == s.log
  {
  }

  /** A stale authorization is let through exactly by its own stored response. */
  lemma StaleExactly(s: State, e: nat)
    requires Enabled(s, CheckStale(e))
    ensures PointAfter(s, CheckStale(e)) == Getting <==> exists response :: OwnStored(s, e, response)
    ensures PointAfter(s, CheckStale(e)) == Refused(Conflict) <==> Foreign(s, e)
    ensures PointAfter(s, CheckStale(e)).Getting? || PointAfter(s, CheckStale(e)).Refused?
  {
    if s.requests[e].key in s.keys && s.keys[s.requests[e].key].Stored? && !Foreign(s, e) {
      assert OwnStored(s, e, s.keys[s.requests[e].key].response);
    }
  }

  /** A failed handler stores nothing and keeps its binding: until the key expires, a retry is told
      that the request is in progress. */
  lemma FailureHoldsTheKey(s: State, e: nat, d: nat)
    requires Enabled(s, HandlerEnds(e, None)) && d != e && Enabled(s, Reread(d))
    requires s.requests[d].key == s.requests[e].key && s.requests[d].fp == s.requests[e].fp
    requires s.requests[e].key in s.keys && s.keys[s.requests[e].key] == Bound(s.requests[e].fp)
    ensures var s1 := Apply(s, HandlerEnds(e, None));
            && s1.keys == s.keys && s1.log == s.log && s1.requests[e].point == Refused(HandlerFailed)
            && Enabled(s1, Reread(d)) && PointAfter(s1, Reread(d)) == Refused(InProgress)
  {
  }

  /** A response is never stored over what is seen to be another request's record. */
  lemma PutExactly(s: State, e: nat)
    requires Enabled(s, PutRead(e))
    ensures PointAfter(s, PutRead(e)) == Refused(Conflict) <==> Foreign(s, e)
    ensures !Foreign(s, e) ==>
              && Enabled(Apply(s, PutRead(e)), PutWrite(e))
              && var t := Apply(Apply(s, PutRead(e)), PutWrite(e));
              && t.keys == s.keys[s.requests[e].key := Stored(s.requests[e].fp, s.requests[e].point.response)]
              && t.requests[e].point == Replied(s.requests[e].point.response) && t.log == s.log
    ensures Apply(s, PutRead(e)).keys == s.keys
  {
  }

  /** Served once, replayed from then on: on an absent key a request runs the handler, its response is
      stored, and every later request with its fingerprint is answered with that response. */
  lemma RunThenReplay(s: State, e: nat, d: nat, k: Key, fp: nat, response: nat) returns (ran: State, t: State)
    requires k !in s.keys && e !in s.requests && d !in s.requests && e != d
    ensures ran == Apply(Apply(Apply(s, Arrive(e, k, fp, false)), Get(e)), SetNx(e))
    ensures ran.requests[e].point.Running? && ran.log == s.log + [Started(k, Epoch(s, k), fp, e)]
    ensures t == Apply(Apply(Apply(Apply(Apply(ran, HandlerEnds(e, Some(response))), PutRead(e)), PutWrite(e)),
                             Arrive(d, k, fp, false)), Get(d))
    ensures t.requests[d].point == Replied(response) && t.requests[e].point == Replied(response)
    ensures t.log == ran.log + [Finished(k, Epoch(s, k), fp, e, response)] + [Replayed(k, Epoch(s, k), fp, response)]
  {
    var s1 := Apply(s, Arrive(e, k, fp, false));
    var s2 := Apply(s1, Get(e));
    assert s1.log + [] == s1.log;
    ran := Apply(s2, SetNx(e));
    var s3 := Apply(ran, HandlerEnds(e, Some(response)));
    var s4 := Apply(s3, PutRead(e));
    assert s3.log + [] == s3.log;
    var s5 := Apply(s4, PutWrite(e));
    var s6 := Apply(s5, Arrive(d, k, fp, false));
    t := Apply(s6, Get(d));
  }

  // ---- A conflict is final ----

  /** A refused request does nothing more than crash. */
  lemma {:induction false} RefusedIsFinal(s: State, steps: seq<Step>, t: State, e: nat)
    requires Reaches(s, steps, t) && e in s.requests && (s.requests[e].point.Refused? || s.requests[e].point.Crashed?)
    ensures e in t.requests && (t.requests[e].point == s.requests[e].point || t.requests[e].point.Crashed?)
    ensures s.log <= t.log
    ensures forall i :: |s.log| <= i < |t.log| && t.log[i].Started? ==> t.log[i].request != e
    decreases |steps|
  {
    if steps != [] {
      var s' := Apply(s, steps[0]);
      if IsRequestStep(steps[0]) { EffectShape(s, steps[0]); }
      RefusedIsFinal(s', steps[1..], t, e);
    }
  }

  /** So a request that reads its key while another fingerprint holds it never runs the handler. */
  lemma ForeignNeverRuns(s: State, e: nat, steps: seq<Step>, t: State)
    requires Enabled(s, Get(e)) && Foreign(s, e) && Reaches(Apply(s, Get(e)), steps, t)
    ensures e in t.requests && (t.requests[e].point == Refused(Conflict) || t.requests[e].point.Crashed?)
    ensures forall i :: |s.log| <= i < |t.log| && t.log[i].Started? ==> t.log[i].request != e
  {
    GetExactly(s, e);
    RefusedIsFinal(Apply(s, Get(e)), steps, t, e);
  }
}
