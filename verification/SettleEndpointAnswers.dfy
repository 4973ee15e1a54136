/** What the settle endpoint does with a request: conflict, cached answer, or settlement. */
module SettleEndpointAnswers {
  import opened Common
  import opened Settlement
  import opened SettleEndpoint

  /** Binding and comparing without interruption: a request conflicts exactly when the key already
      carries another fingerprint, which stays; otherwise the key is its own. */
  lemma ConflictExactly(s: EState, e: nat)
    requires EEnabled(s, Bind(e))
    ensures var fp := s.requests[e].fp;
            var owner := FieldsAt(s.keys, KeyOf(fp)).fingerprint;
            var s1 := EApply(s, Bind(e));
            && EEnabled(s1, Compare(e))
            && var s2 := EApply(s1, Compare(e));
            && (s2.requests[e].point == Conflicted <==> owner.Some? && owner != Some(fp))
            && (s2.requests[e].point == Reading <==> owner == None || owner == Some(fp))
            && KeyOf(fp) in s2.keys
            && s2.keys[KeyOf(fp)].fingerprint == (if owner.Some? then owner else Some(fp))
            && s2.keys[KeyOf(fp)].settle == FieldsAt(s.keys, KeyOf(fp)).settle
            && s2.served == s.served && s2.core == s.core
            && forall k :: k != KeyOf(fp)
                           ==> (k in s2.keys <==> k in s.keys) && (k in s.keys ==> s2.keys[k] == s.keys[k])
  {
  }

  /** The cache read: a stored answer that is not pending is served as it stands without settling;
      everything else settles. */
  lemma CacheReadExactly(s: EState, e: nat)
    requires EEnabled(s, ReadCache(e))
    ensures var fp := s.requests[e].fp;
            var t := EApply(s, ReadCache(e));
            var cached := if fp.identifier.Some? then FieldsAt(s.keys, KeyOf(fp)).settle else None;
            && (cached.Some? && cached.value != StillPending
                ==> t.served == s.served + [(fp, cached.value)] && t.core == s.core && t.requests[e].point == Served)
            && (cached == None || cached == Some(StillPending)
                ==> t.served == s.served && t.requests[e].point == Settling
                    && e in t.core.calls && t.core.calls[e] == Call(fp, Started))
            && t.keys == s.keys
  {
  }

  /** What settlement answered: a pending answer is served and forgotten, any other one is stored
      under the request's key and then served. */
  lemma CollectExactly(s: EState, e: nat)
    requires EEnabled(s, Collect(e))
    ensures var fp, response := s.requests[e].fp, s.core.calls[e].pc.response;
            var t := EApply(s, Collect(e));
            && t.keys == s.keys && t.core == s.core
            && (response == StillPending ==> t.served == s.served + [(fp, response)] && t.requests[e].point == Served)
            && (response != StillPending ==>
                  && t.served == s.served && EEnabled(t, Put(e))
                  && var u := EApply(t, Put(e));
                  && u.served == s.served + [(fp, response)] && u.requests[e].point == Served
                  && (fp.identifier == None ==> u.keys == s.keys)
                  && (fp.identifier.Some? ==>
                        && KeyOf(fp) in u.keys && u.keys[KeyOf(fp)].settle == Some(response)
                        && u.keys[KeyOf(fp)].fingerprint == FieldsAt(s.keys, KeyOf(fp)).fingerprint))
  {
  }

  ghost predicate NoPendingStored(s: EState) {
    && (forall k :: k in s.keys ==> s.keys[k].settle != Some(StillPending))
    && (forall e :: e in s.requests && s.requests[e].point.Storing? ==> s.requests[e].point.response != StillPending)
  }

  lemma StepStoresNoPending(s: EState, step: EStep)
    requires NoPendingStored(s) && EEnabled(s, step)
    ensures NoPendingStored(EApply(s, step))
  {
  }

  /** A pending answer is never cached, in any run, so every retry of a pending payment settles. */
  lemma {:induction false} PendingIsNeverCached(s: EState, steps: seq<EStep>, t: EState)
    requires NoPendingStored(s) && EReaches(s, steps, t)
    ensures NoPendingStored(t)
    decreases |steps|
  {
    if steps != [] {
      StepStoresNoPending(s, steps[0]);
      PendingIsNeverCached(EApply(s, steps[0]), steps[1..], t);
    }
  }

  /** Requests share a key exactly when network, payee and identifier are the same. */
  lemma KeysSeparate(a: Fingerprint, b: Fingerprint)
    requires a.identifier.Some? && b.identifier.Some?
    ensures KeyOf(a) == KeyOf(b)
            <==> a.req.network == b.req.network && a.req.payTo == b.req.payTo && a.identifier == b.identifier
  {
  }
}
