/** The /settle endpoint: the payment-identifier cache in front of facilitator settlement.
    Requests interleave with each other, with every settlement step, and with key expiry. */
module SettleEndpoint {
  import opened Common
  import opened XrplLedger
  import opened Settlement
  import opened SettlementSafety

  /** A Redis hash key: the identifier scoped to network and payee. */
  datatype Key = Key(network: string, payTo: string, identifier: nat)

  /** The fields of the Redis hash. */
  datatype Fields = Fields(fingerprint: Option<Fingerprint>, settle: Option<Response>)

  datatype Point =
    | Binding                    // before HSETNX fingerprint
    | Comparing                  // before HGET fingerprint
    | Reading                    // before HGET settle
    | Settling                   // inside facilitator.settle
    | Storing(response: Response)
    | Served
    | Conflicted                 // HTTP 409
    | Lost                       // crashed or raised

  datatype Request = Request(fp: Fingerprint, point: Point)

  datatype EState = EState(
    core: State,
    keys: map<Key, Fields>,
    requests: map<nat, Request>,
    served: seq<(Fingerprint, Response)>)

  datatype EStep =
    | Core(step: Step)
    | Arrive(request: nat, fp: Fingerprint)
    | Bind(request: nat)
    | Compare(request: nat)
    | ReadCache(request: nat)
    | Collect(request: nat)
    | Put(request: nat)
    | Lose(request: nat)
    | Expire(key: Key)

  function KeyOf(fp: Fingerprint): Key
    requires fp.identifier.Some?
  {
    Key(fp.req.network, fp.req.payTo, fp.identifier.value)
  }

  predicate EEnabled(s: EState, step: EStep) {
    match step
    case Core(inner) => Enabled(s.core, inner) && (inner.Start? ==> inner.call !in s.requests)
    case Arrive(e, _) => e !in s.requests && e !in s.core.calls
    case Bind(e) => e in s.requests && s.requests[e].point.Binding? && s.requests[e].fp.identifier.Some?
    case Compare(e) => e in s.requests && s.requests[e].point.Comparing? && s.requests[e].fp.identifier.Some?
    case ReadCache(e) => && e in s.requests && e !in s.core.calls
                         && (s.requests[e].point.Reading?
                             || (s.requests[e].point.Binding? && s.requests[e].fp.identifier.None?))
    case Collect(e) => && e in s.requests && s.requests[e].point.Settling?
                       && e in s.core.calls && s.core.calls[e].pc.Finished?
    case Put(e) => e in s.requests && s.requests[e].point.Storing?
    case Lose(e) => e in s.requests
    case Expire(k) => k in s.keys
  }

  function FieldsAt(keys: map<Key, Fields>, k: Key): Fields {
    if k in keys then keys[k] else Fields(None, None)
  }

  function MoveTo(s: EState, e: nat, point: Point): EState
    requires e in s.requests
  {
    s.(requests := s.requests[e := s.requests[e].(point := point)])
  }

  function Serve(s: EState, e: nat, response: Response): EState
    requires e in s.requests
  {
    MoveTo(s, e, Served).(served := s.served + [(s.requests[e].fp, response)])
  }

  /** HSETNX of the fingerprint: the first request to name the identifier owns the key. */
  function BindFields(keys: map<Key, Fields>, fp: Fingerprint): map<Key, Fields>
    requires fp.identifier.Some?
  {
    var fields := FieldsAt(keys, KeyOf(fp));
    keys[KeyOf(fp) := if fields.fingerprint.None? then fields.(fingerprint := Some(fp)) else fields]
  }

  /** HSET of the response, creating the key if it is gone. */
  function PutFields(keys: map<Key, Fields>, fp: Fingerprint, response: Response): map<Key, Fields> {
    if fp.identifier.None? then keys
    else keys[KeyOf(fp) := FieldsAt(keys, KeyOf(fp)).(settle := Some(response))]
  }

  function CachedFor(keys: map<Key, Fields>, fp: Fingerprint): Option<Response> {
    if fp.identifier.None? then None else FieldsAt(keys, KeyOf(fp)).settle
  }

  /** `PaymentIdentifierStore` over its Redis hashes, each operation uninterrupted.  `timed` holds
      the keys that carry an expiry. */
  class PaymentIdentifierStore {
    var keys: map<Key, Fields>
    var timed: set<Key>

    constructor ()
      ensures keys == map[] && timed == {}
    {
      keys, timed := map[], {};
    }

    /** Returns whether the request may go on; false is the HTTP 409, which leaves the owner's key
        and its expiry alone. */
    method Bind(fp: Fingerprint) returns (ok: bool)
      modifies this
      ensures fp.identifier.None? ==> ok && keys == old(keys) && timed == old(timed)
      ensures fp.identifier.Some? ==>
                && keys == BindFields(old(keys), fp)
                && ok == (FieldsAt(keys, KeyOf(fp)).fingerprint == Some(fp))
                && timed == old(timed) + (if ok then {KeyOf(fp)} else {})
    {
      ok := true;
      if fp.identifier.Some? {
        var key := KeyOf(fp);
        var fields := FieldsAt(keys, key);
        if fields.fingerprint.None? {
          fields := fields.(fingerprint := Some(fp));
        }
        keys := keys[key := fields];
        ok := fields.fingerprint == Some(fp);
        if ok { timed := timed + {key}; }
      }
    }

    method GetCached(fp: Fingerprint) returns (cached: Result<Option<Response>, ()>)
      modifies this
      ensures keys == if fp.identifier.None? then old(keys) else BindFields(old(keys), fp)
      ensures cached.Ok? <==> fp.identifier.None? || FieldsAt(keys, KeyOf(fp)).fingerprint == Some(fp)
      ensures cached.Ok? ==> cached.value == CachedFor(old(keys), fp)
    {
      var ok := Bind(fp);
      if ok { cached := Ok(CachedFor(keys, fp)); } else { cached := Err(()); }
    }

    method Put(fp: Fingerprint, response: Response)
      modifies this
      ensures keys == PutFields(old(keys), fp, response)
      ensures timed == old(timed) + (if fp.identifier.Some? then {KeyOf(fp)} else {})
    {
      if fp.identifier.Some? {
        keys := keys[KeyOf(fp) := FieldsAt(keys, KeyOf(fp)).(settle := Some(response))];
        timed := timed + {KeyOf(fp)};
      }
    }
  }

  function EApply(s: EState, step: EStep): EState
    requires EEnabled(s, step)
  {
    match step
    case Core(inner) => s.(core := Apply(s.core, inner))
    case Arrive(e, fp) => s.(requests := s.requests[e := Request(fp, Binding)])
    case Bind(e) =>
      MoveTo(s, e, Comparing).(keys := BindFields(s.keys, s.requests[e].fp))
    case Compare(e) =>
      var fp := s.requests[e].fp;
      MoveTo(s, e, if FieldsAt(s.keys, KeyOf(fp)).fingerprint == Some(fp) then Reading else Conflicted)
    case ReadCache(e) =>
      var cached := CachedFor(s.keys, s.requests[e].fp);
      if cached.Some? && !cached.value.StillPending? then Serve(s, e, cached.value)
      else MoveTo(s, e, Settling).(core := Apply(s.core, Start(e, s.requests[e].fp)))
    case Collect(e) =>
      var response := s.core.calls[e].pc.response;
      if response.StillPending? then Serve(s, e, response) else MoveTo(s, e, Storing(response))
    case Put(e) =>
      var response := s.requests[e].point.response;
      Serve(s, e, response).(keys := PutFields(s.keys, s.requests[e].fp, response))
    case Lose(e) => MoveTo(s, e, Lost)
    case Expire(k) => s.(keys := s.keys - {k})
  }

  // ---- What the cache and the served responses rest on ----

  /** A terminal answer belongs to the request and is borne out by the ledger. */
  ghost predicate Honest(l: Ledger, fp: Fingerprint, r: Response) {
    r.Answered? ==> r.record.fp == fp && Justified(l, r.record)
  }

  ghost predicate KeyOk(l: Ledger, f: Fields) {
    f.settle.Some? ==> f.fingerprint.Some? && Honest(l, f.fingerprint.value, f.settle.value)
  }

  predicate HoldsKey(r: Request) {
    r.fp.identifier.Some? && (r.point.Reading? || r.point.Settling? || r.point.Storing?)
  }

  ghost predicate RequestOk(s: EState, e: nat)
    requires e in s.requests
  {
    var r := s.requests[e];
    && (r.point.Storing? ==> Honest(s.core.ledger, r.fp, r.point.response))
    && (HoldsKey(r) ==> KeyOf(r.fp) in s.keys && s.keys[KeyOf(r.fp)].fingerprint == Some(r.fp))
    && (r.point.Settling? && e in s.core.calls ==> s.core.calls[e].fp == r.fp)
    && (r.point.Binding? || r.point.Comparing? || r.point.Reading? ==> e !in s.core.calls)
  }

  ghost predicate EInv(s: EState) {
    && Inv(s.core)
    && (forall k :: k in s.keys ==> KeyOk(s.core.ledger, s.keys[k]))
    && (forall e :: e in s.requests ==> RequestOk(s, e))
    && (forall i :: 0 <= i < |s.served| ==> Honest(s.core.ledger, s.served[i].0, s.served[i].1))
  }

  /** No request outlives its key: a key expires only while no request is past its bind. */
  ghost predicate KeyPrompt(s: EState, step: EStep) {
    step.Expire? ==> forall e :: e in s.requests && HoldsKey(s.requests[e]) ==> KeyOf(s.requests[e].fp) != step.key
  }

  lemma HonestIsStable(l: Ledger, l': Ledger, fp: Fingerprint, r: Response)
    requires Honest(l, fp, r) && Grows(l, l')
    ensures Honest(l', fp, r)
  {
    if r.Answered? { JustifiedIsStable(l, l', r.record); }
  }

  lemma GrowsReflexively(l: Ledger)
    ensures Grows(l, l)
  {
  }

  lemma CoreGrows(s: State, step: Step)
    requires Inv(s) && Enabled(s, step)
    ensures Grows(s.ledger, Apply(s, step).ledger)
    ensures forall c :: c in s.calls ==> c in Apply(s, step).calls && Apply(s, step).calls[c].fp == s.calls[c].fp
    ensures forall c :: c in Apply(s, step).calls && c !in s.calls ==> step.Start? && step.call == c
  {
    if step.CloseLedger? { CloseGrows(s.ledger, step.batch); } else { GrowsReflexively(s.ledger); }
  }

  lemma CoreKeepsEInv(s: EState, inner: Step)
    requires EInv(s) && EEnabled(s, Core(inner))
    ensures EInv(EApply(s, Core(inner)))
  {
    StepKeepsInv(s.core, inner);
    CoreGrows(s.core, inner);
    var s' := EApply(s, Core(inner));
    forall fp, r | Honest(s.core.ledger, fp, r) ensures Honest(s'.core.ledger, fp, r) {
      HonestIsStable(s.core.ledger, s'.core.ledger, fp, r);
    }
    forall e | e in s'.requests ensures RequestOk(s', e) {
      assert RequestOk(s, e);
    }
  }

  /** Every other step: the ledger is unchanged and at most one request and one key move. */
  lemma RequestStepKeepsEInv(s: EState, step: EStep)
    requires EInv(s) && EEnabled(s, step) && KeyPrompt(s, step)
    requires step.Arrive? || step.Compare? || step.Lose? || step.Expire?
    ensures EInv(EApply(s, step))
  {
    var s' := EApply(s, step);
    forall e | e in s'.requests ensures RequestOk(s', e) {
      if e in s.requests { assert RequestOk(s, e); }
    }
  }

  lemma CollectKeepsEInv(s: EState, e: nat)
    requires EInv(s) && EEnabled(s, Collect(e))
    ensures EInv(EApply(s, Collect(e)))
  {
    var s' := EApply(s, Collect(e));
    assert CallOk(s.core.ledger, s.core.calls[e]);
    assert RequestOk(s, e);
    forall d | d in s'.requests ensures RequestOk(s', d) {
      assert RequestOk(s, d);
    }
  }

  lemma BindKeepsEInv(s: EState, e: nat)
    requires EInv(s) && EEnabled(s, Bind(e))
    ensures EInv(EApply(s, Bind(e)))
  {
    var s' := EApply(s, Bind(e));
    forall d | d in s'.requests ensures RequestOk(s', d) {
      assert RequestOk(s, d);
    }
  }

  lemma ReadCacheKeepsEInv(s: EState, e: nat)
    requires EInv(s) && EEnabled(s, ReadCache(e))
    ensures EInv(EApply(s, ReadCache(e)))
  {
    var s' := EApply(s, ReadCache(e));
    assert RequestOk(s, e);
    var fp := s.requests[e].fp;
    if fp.identifier.Some? { assert KeyOk(s.core.ledger, s.keys[KeyOf(fp)]); }
    if s'.requests[e].point.Settling? {
      StepKeepsInv(s.core, Start(e, fp));
    }
    forall d | d in s'.requests ensures RequestOk(s', d) {
      assert RequestOk(s, d);
    }
  }

  lemma PutKeepsEInv(s: EState, e: nat)
    requires EInv(s) && EEnabled(s, Put(e))
    ensures EInv(EApply(s, Put(e)))
  {
    var s' := EApply(s, Put(e));
    assert RequestOk(s, e);
    forall d | d in s'.requests ensures RequestOk(s', d) {
      assert RequestOk(s, d);
    }
  }

  lemma EStepKeepsEInv(s: EState, step: EStep)
    requires EInv(s) && EEnabled(s, step) && KeyPrompt(s, step)
    ensures EInv(EApply(s, step))
  {
    if step.Core? {
      CoreKeepsEInv(s, step.step);
    } else if step.Bind? {
      BindKeepsEInv(s, step.request);
    } else if step.ReadCache? {
      ReadCacheKeepsEInv(s, step.request);
    } else if step.Put? {
      PutKeepsEInv(s, step.request);
    } else if step.Collect? {
      CollectKeepsEInv(s, step.request);
    } else {
      RequestStepKeepsEInv(s, step);
    }
  }

  ghost predicate EReaches(s: EState, steps: seq<EStep>, t: EState)
    decreases |steps|
  {
    if steps == [] then s == t
    else EEnabled(s, steps[0]) && EReaches(EApply(s, steps[0]), steps[1..], t)
  }

  /** A run in which no request outlives its key. */
  ghost predicate EPromptlyReaches(s: EState, steps: seq<EStep>, t: EState)
    decreases |steps|
  {
    if steps == [] then s == t
    else EEnabled(s, steps[0]) && KeyPrompt(s, steps[0]) && EPromptlyReaches(EApply(s, steps[0]), steps[1..], t)
  }

  ghost predicate EInitial(s: EState) {
    Initial(s.core) && s.keys == map[] && s.requests == map[] && s.served == []
  }

  lemma {:induction false} ERunKeepsEInv(s: EState, steps: seq<EStep>, t: EState)
    requires EInv(s) && EPromptlyReaches(s, steps, t)
    ensures EInv(t)
    decreases |steps|
  {
    if steps != [] {
      EStepKeepsEInv(s, steps[0]);
      ERunKeepsEInv(EApply(s, steps[0]), steps[1..], t);
    }
  }

  /** No false success: in every run in which no request outlives its key, each success the
      endpoint serves, fresh or from the identifier cache, rests on a validated tesSUCCESS of the
      request's own hash that delivered exactly the request's amount, asset and issuer. */
  lemma NoFalseSuccess(s: EState, steps: seq<EStep>, t: EState, i: nat)
    requires EInitial(s) && EPromptlyReaches(s, steps, t) && i < |t.served|
    requires t.served[i].1.Answered? && t.served[i].1.record.outcome == Some(Success)
    ensures var fp := t.served[i].0;
            && fp.tx in t.core.ledger.included
            && t.core.ledger.included[fp.tx].answer.succeeded
            && DeliveredExactly(t.core.ledger.included[fp.tx].answer.delivered, fp.req)
  {
    ERunKeepsEInv(s, steps, t);
    assert Honest(t.core.ledger, t.served[i].0, t.served[i].1);
    JudgeSucceedsExactly(t.core.ledger.included[t.served[i].0.tx].answer, t.served[i].0.req);
  }

  // ---- Why the key must live as long as the request ----

  ghost predicate CacheSound(s: EState) {
    forall k :: k in s.keys ==> KeyOk(s.core.ledger, s.keys[k])
  }

  /** Storing a terminal answer keeps the cache sound exactly when the key still carries the
      request's own fingerprint. */
  lemma PutSoundExactlyWhenBound(s: EState, e: nat)
    requires CacheSound(s) && EEnabled(s, Put(e)) && s.requests[e].fp.identifier.Some?
    requires s.requests[e].point.response.Answered?
    requires Honest(s.core.ledger, s.requests[e].fp, s.requests[e].point.response)
    ensures var fp := s.requests[e].fp;
            CacheSound(EApply(s, Put(e))) <==> FieldsAt(s.keys, KeyOf(fp)).fingerprint == Some(fp)
  {
    var fp := s.requests[e].fp;
    var s' := EApply(s, Put(e));
    assert KeyOf(fp) in s'.keys;
    if CacheSound(s') {
      assert KeyOk(s'.core.ledger, s'.keys[KeyOf(fp)]);
    }
  }

  /** Whenever a request stores its answer under a key that it does not own any more, the current
      owner, or any different request if there is none, is served that answer as its own when it
      arrives next. */
  lemma LatePutAnswersAnotherRequest(s: EState, e: nat, d: nat, other: Fingerprint)
    returns (t: EState)
    requires EEnabled(s, Put(e)) && s.requests[e].fp.identifier.Some?
    requires !s.requests[e].point.response.StillPending?
    requires other != s.requests[e].fp && other.identifier.Some? && KeyOf(other) == KeyOf(s.requests[e].fp)
    requires var owner := FieldsAt(s.keys, KeyOf(other)).fingerprint; owner == None || owner == Some(other)
    requires d !in s.requests && d !in s.core.calls
    ensures exists s1, s2, s3, s4 ::
              && s1 == EApply(s, Put(e))
              && EEnabled(s1, Arrive(d, other)) && s2 == EApply(s1, Arrive(d, other))
              && EEnabled(s2, Bind(d)) && s3 == EApply(s2, Bind(d))
              && EEnabled(s3, Compare(d)) && s4 == EApply(s3, Compare(d))
              && EEnabled(s4, ReadCache(d)) && t == EApply(s4, ReadCache(d))
    ensures |t.served| > 0 && t.served[|t.served| - 1] == (other, s.requests[e].point.response)
  {
    var s1 := EApply(s, Put(e));
    var s2 := EApply(s1, Arrive(d, other));
    var s3 := EApply(s2, Bind(d));
    var s4 := EApply(s3, Compare(d));
    t := EApply(s4, ReadCache(d));
  }
}
