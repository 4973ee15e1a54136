/** Unsafe paid handlers behind the resource response store.  Requests to one Redis key
    interleave command by command (SET NX, GET, SET), and the key may expire between any two. */
module PaidHandler {
  import opened Common

  /** The Redis key: identifier scoped to network and payee. */
  type Key = nat

  datatype Record = Bound(fp: nat) | Stored(fp: nat, response: nat)

  datatype Refusal =
    | Conflict             // the identifier belongs to a different request
    | InProgress           // a matching request is already executing
    | Vanished             // the binding disappeared twice during reservation
    | StaleAuthorization   // nothing cached vouches for it
    | HandlerFailed        // the handler raised or answered with an error status

  datatype Point =
    | CheckingStale        // verification failed as stale: look for a cached response
    | Getting              // before the GET of `recover_handler` / `load_cached_response`
    | Binding(tries: nat)  // before SET NX
    | Rereading(tries: nat)// SET NX lost, before GET
    | Running(epoch: nat)  // the protected handler executes, started in this epoch
    | PutReading(epoch: nat, response: nat)
    | PutWriting(epoch: nat, response: nat)
    | Replied(response: nat)
    | Refused(reason: Refusal)
    | Crashed

  /** `stale` says that the authorization failed verification as stale on arrival, and `seen` is the
      key's epoch at which a cached response let it through. */
  datatype Request = Request(key: Key, fp: nat, stale: bool, seen: Option<nat>, point: Point)

  datatype Event =
    | Started(key: Key, epoch: nat, fp: nat, request: nat)
    | Finished(key: Key, epoch: nat, fp: nat, request: nat, response: nat)   // the epoch it started in
    | Replayed(key: Key, epoch: nat, fp: nat, response: nat)

  /** `epochs` counts the expiries of each key. */
  datatype State = State(
    keys: map<Key, Record>, epochs: map<Key, nat>, requests: map<nat, Request>, log: seq<Event>)

  datatype Step =
    | Arrive(request: nat, key: Key, fp: nat, stale: bool)
    | CheckStale(request: nat)
    | Get(request: nat)
    | SetNx(request: nat)
    | Reread(request: nat)
    | HandlerEnds(request: nat, result: Option<nat>)   // None: an error response or an exception
    | PutRead(request: nat)
    | PutWrite(request: nat)
    | Crash(request: nat)
    | Expire(key: Key)

  function Epoch(s: State, k: Key): nat {
    if k in s.epochs then s.epochs[k] else 0
  }

  predicate Enabled(s: State, step: Step) {
    match step
    case Arrive(e, _, _, _) => e !in s.requests
    case CheckStale(e) => e in s.requests && s.requests[e].point.CheckingStale?
    case Get(e) => e in s.requests && s.requests[e].point.Getting?
    case SetNx(e) => e in s.requests && s.requests[e].point.Binding?
    case Reread(e) => e in s.requests && s.requests[e].point.Rereading?
    case HandlerEnds(e, _) => e in s.requests && s.requests[e].point.Running?
    case PutRead(e) => e in s.requests && s.requests[e].point.PutReading?
    case PutWrite(e) => e in s.requests && s.requests[e].point.PutWriting?
    case Crash(e) => e in s.requests
    case Expire(k) => k in s.keys
  }

  /** What one command of a request does: the request, the keys, and the events to log. */
  datatype Effect = Effect(request: Request, keys: map<Key, Record>, events: seq<Event>)

  predicate IsRequestStep(step: Step) { !step.Arrive? && !step.Expire? }

  function RequestEffect(s: State, step: Step): Effect
    requires Enabled(s, step) && IsRequestStep(step)
  {
    var e := step.request;
    var r := s.requests[e];
    var at := (p: Point) => Effect(r.(point := p), s.keys, []);
    match step
    case CheckStale(_) =>
      if r.key in s.keys && s.keys[r.key].Stored? && s.keys[r.key].fp == r.fp
      then Effect(r.(point := Getting, seen := Some(Epoch(s, r.key))), s.keys, [])
      else at(Refused(if r.key in s.keys && s.keys[r.key].fp != r.fp then Conflict else StaleAuthorization))
    case Get(_) =>
      if r.key !in s.keys then at(Binding(0))
      else if s.keys[r.key].fp != r.fp then at(Refused(Conflict))
      else if s.keys[r.key].Bound? then at(Binding(0))
      else
        var response := s.keys[r.key].response;
        Effect(r.(point := Replied(response)), s.keys, [Replayed(r.key, Epoch(s, r.key), r.fp, response)])
    case SetNx(_) =>
      if r.key in s.keys then at(Rereading(r.point.tries))
      else Effect(r.(point := Running(Epoch(s, r.key))), s.keys[r.key := Bound(r.fp)],
                  [Started(r.key, Epoch(s, r.key), r.fp, e)])
    case Reread(_) =>
      at(if r.key in s.keys then Refused(if s.keys[r.key].fp != r.fp then Conflict else InProgress)
         else if r.point.tries == 0 then Binding(1) else Refused(Vanished))
    case HandlerEnds(_, result) =>
      if result.None? then at(Refused(HandlerFailed))
      else Effect(r.(point := PutReading(r.point.epoch, result.value)), s.keys,
                  [Finished(r.key, r.point.epoch, r.fp, e, result.value)])
    case PutRead(_) =>
      at(if r.key in s.keys && s.keys[r.key].fp != r.fp then Refused(Conflict)
         else PutWriting(r.point.epoch, r.point.response))
    case PutWrite(_) =>
      Effect(r.(point := Replied(r.point.response)), s.keys[r.key := Stored(r.fp, r.point.response)], [])
    case Crash(_) => at(Crashed)
  }

  function Commit(s: State, e: nat, f: Effect): State {
    State(f.keys, s.epochs, s.requests[e := f.request], s.log + f.events)
  }

  function Apply(s: State, step: Step): State
    requires Enabled(s, step)
  {
    match step
    case Arrive(e, k, fp, stale) =>
      s.(requests := s.requests[e := Request(k, fp, stale, None, if stale then CheckingStale else Getting)])
    case Expire(k) => s.(keys := s.keys - {k}, epochs := s.epochs[k := Epoch(s, k) + 1])
    case _ => Commit(s, step.request, RequestEffect(s, step))
  }

  predicate Initial(s: State) { s.keys == map[] && s.epochs == map[] && s.requests == map[] && s.log == [] }

  ghost predicate Reaches(s: State, steps: seq<Step>, t: State)
    decreases |steps|
  {
    if steps == [] then s == t
    else Enabled(s, steps[0]) && Reaches(Apply(s, steps[0]), steps[1..], t)
  }

  // ---- The handler starts at most once between two expiries ----

  ghost predicate StartsOnce(log: seq<Event>) {
    forall i, j :: 0 <= i < j < |log| && log[i].Started? && log[j].Started? && log[i].key == log[j].key
                   ==> log[i].epoch != log[j].epoch
  }

  /** A start of the current epoch left the key in place. */
  ghost predicate StartHoldsKey(s: State) {
    forall i :: 0 <= i < |s.log| && s.log[i].Started?
                ==> && s.log[i].epoch <= Epoch(s, s.log[i].key)
                    && (s.log[i].epoch == Epoch(s, s.log[i].key) ==> s.log[i].key in s.keys)
  }

  /** A stale authorization was let through on a cached response, which stays until expiry. */
  ghost predicate StaleSawResponse(s: State) {
    forall e :: e in s.requests && s.requests[e].seen.Some?
                ==> && s.requests[e].seen.value <= Epoch(s, s.requests[e].key)
                    && (s.requests[e].seen.value == Epoch(s, s.requests[e].key) ==> s.requests[e].key in s.keys)
  }

  /** The request that started the handler is past its checks, and if its authorization was
      stale, the key expired since it was let through. */
  ghost predicate StaleStartsLate(s: State) {
    forall i :: 0 <= i < |s.log| && s.log[i].Started?
                ==> && s.log[i].request in s.requests
                    && !s.requests[s.log[i].request].point.CheckingStale?
                    && (s.requests[s.log[i].request].stale ==> s.requests[s.log[i].request].seen.Some?)
                    && (s.requests[s.log[i].request].seen.Some?
                        ==> s.requests[s.log[i].request].seen.value < s.log[i].epoch)
  }

  /** A stale authorization gets past its check only if it was let through. */
  ghost predicate StaleWasSeen(s: State) {
    forall e :: e in s.requests && s.requests[e].stale && s.requests[e].seen.None?
                ==> var p := s.requests[e].point; p.CheckingStale? || p.Refused? || p.Crashed?
  }

  predicate IsActive(p: Point) { p.Running? || p.PutReading? || p.PutWriting? }

  /** An active request started the handler, and has its response only from that run. */
  ghost predicate RunLogged(s: State, e: nat)
    requires e in s.requests
  {
    var r := s.requests[e];
    IsActive(r.point) ==>
      && Started(r.key, r.point.epoch, r.fp, e) in s.log
      && (!r.point.Running? ==> Finished(r.key, r.point.epoch, r.fp, e, r.point.response) in s.log)
  }

  /** What finished had started: same request, same epoch. */
  ghost predicate FinishedRan(log: seq<Event>) {
    forall i :: 0 <= i < |log| && log[i].Finished?
                ==> Started(log[i].key, log[i].epoch, log[i].fp, log[i].request) in log
  }

  ghost predicate Inv(s: State) {
    && StartsOnce(s.log) && StartHoldsKey(s) && StaleSawResponse(s) && StaleStartsLate(s) && StaleWasSeen(s)
    && (forall e :: e in s.requests ==> RunLogged(s, e)) && FinishedRan(s.log)
  }

  /** The shape of every request step: it stays on its key, keeps every key it finds, and starts
      the handler only by creating the key. */
  lemma EffectShape(s: State, step: Step)
    requires Enabled(s, step) && IsRequestStep(step)
    ensures var r, f := s.requests[step.request], RequestEffect(s, step);
            && f.request.key == r.key && f.request.fp == r.fp && f.request.stale == r.stale
            && (r.point.CheckingStale? && f.request.seen.None? ==> f.request.point.Refused? || f.request.point.Crashed?)
            && (r.point.Refused? || r.point.Crashed? ==> f.request.point.Crashed?)
            && f.keys.Keys == s.keys.Keys + (if r.key in f.keys then {r.key} else {})
            && |f.events| <= 1
            && (|f.events| == 1 && f.events[0].Started? ==>
                  && f.events[0] == Started(r.key, Epoch(s, r.key), r.fp, step.request)
                  && r.key !in s.keys && r.key in f.keys && f.request.point == Running(Epoch(s, r.key)))
            && (r.point.CheckingStale? || f.request.seen == r.seen)
            && !f.request.point.CheckingStale?
            && (f.request.seen != r.seen ==> f.request.seen == Some(Epoch(s, r.key)) && r.key in s.keys)
            && (r.point.CheckingStale? ==> f.events == [])
  {
  }

  /** How a request becomes active, and what it then logs. */
  lemma EffectRuns(s: State, step: Step)
    requires Enabled(s, step) && IsRequestStep(step)
    ensures var r, f := s.requests[step.request], RequestEffect(s, step);
            && (IsActive(f.request.point) ==>
                  || f.events == [Started(r.key, f.request.point.epoch, r.fp, step.request)]
                  || (IsActive(r.point) && f.request.point.epoch == r.point.epoch))
            && (f.request.point.PutReading? || f.request.point.PutWriting? ==>
                  || f.events == [Finished(r.key, f.request.point.epoch, r.fp, step.request, f.request.point.response)]
                  || (r.point.PutReading? && r.point.response == f.request.point.response))
            && (forall i :: 0 <= i < |f.events| && f.events[i].Finished?
                  ==> r.point.Running? && f.events[i].key == r.key && f.events[i].epoch == r.point.epoch
                      && f.events[i].fp == r.fp && f.events[i].request == step.request)
            && (f.request.point.Running? ==> f.events != [])
  {
  }

  lemma StepKeepsRuns(s: State, step: Step)
    requires Inv(s) && Enabled(s, step)
    ensures forall e :: e in Apply(s, step).requests ==> RunLogged(Apply(s, step), e)
    ensures FinishedRan(Apply(s, step).log)
  {
    var s' := Apply(s, step);
    assert s.log <= s'.log;
    assert forall x :: x in s.log ==> x in s'.log;
    if IsRequestStep(step) {
      EffectShape(s, step);
      EffectRuns(s, step);
      var f := RequestEffect(s, step);
      assert forall x :: x in f.events ==> x in s'.log;
      assert RunLogged(s, step.request);
    }
  }

  lemma StepKeepsStarts(s: State, step: Step)
    requires Inv(s) && Enabled(s, step)
    ensures StartsOnce(Apply(s, step).log) && StartHoldsKey(Apply(s, step))
  {
    if IsRequestStep(step) { EffectShape(s, step); }
  }

  lemma StepKeepsStaleSeen(s: State, step: Step)
    requires Inv(s) && Enabled(s, step)
    ensures StaleSawResponse(Apply(s, step))
  {
    if IsRequestStep(step) { EffectShape(s, step); }
  }

  lemma StepKeepsStaleStarts(s: State, step: Step)
    requires Inv(s) && Enabled(s, step)
    ensures StaleStartsLate(Apply(s, step)) && StaleWasSeen(Apply(s, step))
  {
    if IsRequestStep(step) { EffectShape(s, step); }
  }

  lemma {:induction false} RunKeepsInv(s: State, steps: seq<Step>, t: State)
    requires Inv(s) && Reaches(s, steps, t)
    ensures Inv(t)
    decreases |steps|
  {
    if steps != [] {
      StepKeepsStarts(s, steps[0]);
      StepKeepsStaleSeen(s, steps[0]);
      StepKeepsStaleStarts(s, steps[0]);
      StepKeepsRuns(s, steps[0]);
      RunKeepsInv(Apply(s, steps[0]), steps[1..], t);
    }
  }

  /** Over all concurrent requests, crashes and expiries, the handler starts at most once for a key
      between two of its expiries; so once one request started it, no other request and no other
      fingerprint does. */
  lemma HandlerStartsAtMostOnce(s: State, steps: seq<Step>, t: State, i: nat, j: nat)
    requires Initial(s) && Reaches(s, steps, t) && i < j < |t.log|
    requires t.log[i].Started? && t.log[j].Started? && t.log[i].key == t.log[j].key
    ensures t.log[i].epoch != t.log[j].epoch
  {
    RunKeepsInv(s, steps, t);
  }

  /** A request whose authorization was stale on arrival starts the handler only after a cached
      response vouched for it, and only if the key expired since. */
  lemma StaleStartsOnlyAfterExpiry(s: State, steps: seq<Step>, t: State, i: nat)
    requires Initial(s) && Reaches(s, steps, t) && i < |t.log| && t.log[i].Started?
    ensures t.log[i].request in t.requests
    ensures var r := t.requests[t.log[i].request];
            && (r.stale ==> r.seen.Some?)
            && (r.seen.Some? ==> r.seen.value < t.log[i].epoch)
  {
    RunKeepsInv(s, steps, t);
  }

  /** And then it does: a stale authorization that a cached response vouches for, whose key expires
      before its next read, starts the handler in the next epoch. */
  lemma ExpiryLetsStaleStart(s: State, e: nat, response: nat)
    requires Enabled(s, CheckStale(e)) && s.requests[e].key in s.keys
    requires s.keys[s.requests[e].key] == Stored(s.requests[e].fp, response)
    ensures var k, n := s.requests[e].key, Epoch(s, s.requests[e].key);
            var s1 := Apply(s, CheckStale(e));
            && Enabled(s1, Expire(k)) && s1.requests[e].seen == Some(n)
            && var s2 := Apply(s1, Expire(k));
            && Enabled(s2, Get(e))
            && var s3 := Apply(s2, Get(e));
            && Enabled(s3, SetNx(e))
            && var s4 := Apply(s3, SetNx(e));
            && s4.log == s.log + [Started(k, n + 1, s.requests[e].fp, e)] && s4.requests[e].seen == Some(n)
  {
  }

  // ---- Every replay returns the stored response of the run of its epoch ----

  /** No handler outlives its key: a key expires only while no request is running on it. */
  ghost predicate Prompt(s: State, step: Step) {
    step.Expire? ==> forall e :: e in s.requests && s.requests[e].key == step.key ==> !IsActive(s.requests[e].point)
  }

  ghost predicate ActiveOk(s: State, e: nat)
    requires e in s.requests
  {
    var r := s.requests[e];
    IsActive(r.point) ==>
      r.key in s.keys && s.keys[r.key] == Bound(r.fp) && r.point.epoch == Epoch(s, r.key)
  }

  /** One request started the handler in that epoch and finished that run with the response. */
  ghost predicate RunGave(log: seq<Event>, k: Key, epoch: nat, fp: nat, response: nat) {
    exists e :: Started(k, epoch, fp, e) in log && Finished(k, epoch, fp, e, response) in log
  }

  lemma StepKeepsGiven(s: State, step: Step, k: Key, epoch: nat, fp: nat, response: nat)
    requires Enabled(s, step) && RunGave(s.log, k, epoch, fp, response)
    ensures RunGave(Apply(s, step).log, k, epoch, fp, response)
  {
    var e :| Started(k, epoch, fp, e) in s.log && Finished(k, epoch, fp, e, response) in s.log;
    var log' := Apply(s, step).log;
    assert s.log <= log';
    assert Started(k, epoch, fp, e) in log' && Finished(k, epoch, fp, e, response) in log';
  }

  ghost predicate StoredOk(s: State) {
    forall k :: k in s.keys && s.keys[k].Stored?
                ==> RunGave(s.log, k, Epoch(s, k), s.keys[k].fp, s.keys[k].response)
  }

  ghost predicate ReplayOk(s: State, r: Event) {
    r.Replayed? ==>
      && RunGave(s.log, r.key, r.epoch, r.fp, r.response)
      && r.epoch <= Epoch(s, r.key)
      && (r.epoch == Epoch(s, r.key) ==> r.key in s.keys && s.keys[r.key] == Stored(r.fp, r.response))
  }

  ghost predicate ReplaysAgree(log: seq<Event>) {
    forall i, j :: 0 <= i < j < |log| && log[i].Replayed? && log[j].Replayed?
                   && log[i].key == log[j].key && log[i].epoch == log[j].epoch
                   ==> log[i].response == log[j].response && log[i].fp == log[j].fp
  }

  ghost predicate PromptInv(s: State) {
    && Inv(s)
    && (forall e :: e in s.requests ==> ActiveOk(s, e))
    && StoredOk(s)
    && (forall i :: 0 <= i < |s.log| ==> ReplayOk(s, s.log[i]))
    && ReplaysAgree(s.log)
  }

  /** One key has one active request at a time. */
  lemma OneActive(s: State, e: nat, d: nat)
    requires PromptInv(s) && e in s.requests && d in s.requests && s.requests[e].key == s.requests[d].key
    requires IsActive(s.requests[e].point) && IsActive(s.requests[d].point)
    ensures e == d
  {
    assert ActiveOk(s, e) && ActiveOk(s, d) && RunLogged(s, e) && RunLogged(s, d);
    var k := s.requests[e].key;
    var i :| 0 <= i < |s.log| && s.log[i] == Started(k, Epoch(s, k), s.requests[e].fp, e);
    var j :| 0 <= j < |s.log| && s.log[j] == Started(k, Epoch(s, k), s.requests[d].fp, d);
    assert i == j;
  }

  lemma PromptKeepsActive(s: State, step: Step, d: nat)
    requires PromptInv(s) && Enabled(s, step) && Prompt(s, step) && d in Apply(s, step).requests
    ensures ActiveOk(Apply(s, step), d)
  {
    if d in s.requests { assert ActiveOk(s, d); }
    if step.PutWrite? { PutWriteKeepsActive(s, step.request, d); }
  }

  /** Storing ends the only activity on its key. */
  lemma PutWriteKeepsActive(s: State, e: nat, d: nat)
    requires PromptInv(s) && Enabled(s, PutWrite(e)) && d in s.requests
    ensures ActiveOk(Apply(s, PutWrite(e)), d)
  {
    assert ActiveOk(s, d);
    if d != e && s.requests[d].key == s.requests[e].key && IsActive(s.requests[d].point) { OneActive(s, d, e); }
  }

  lemma PromptKeepsStored(s: State, step: Step)
    requires PromptInv(s) && Enabled(s, step) && Prompt(s, step)
    ensures StoredOk(Apply(s, step))
  {
    var s' := Apply(s, step);
    forall k | k in s'.keys && s'.keys[k].Stored?
      ensures RunGave(s'.log, k, Epoch(s', k), s'.keys[k].fp, s'.keys[k].response)
    {
      if k in s.keys && s.keys[k] == s'.keys[k] {
        StepKeepsGiven(s, step, k, Epoch(s, k), s.keys[k].fp, s.keys[k].response);
      } else {
        assert step.PutWrite? && ActiveOk(s, step.request) && RunLogged(s, step.request);
        assert s'.log == s.log;
      }
    }
  }

  lemma ReplayStaysOk(s: State, step: Step, r: Event)
    requires PromptInv(s) && Enabled(s, step) && Prompt(s, step) && ReplayOk(s, r)
    ensures ReplayOk(Apply(s, step), r)
  {
    if step.PutWrite? { assert ActiveOk(s, step.request); }
    if r.Replayed? { StepKeepsGiven(s, step, r.key, r.epoch, r.fp, r.response); }
  }

  lemma NewReplayOk(s: State, e: nat, r: Event)
    requires PromptInv(s) && Enabled(s, Get(e)) && RequestEffect(s, Get(e)).events == [r]
    ensures ReplayOk(Apply(s, Get(e)), r)
    ensures forall i :: 0 <= i < |s.log| && s.log[i].Replayed? && s.log[i].key == r.key && s.log[i].epoch == r.epoch
                        ==> s.log[i].response == r.response && s.log[i].fp == r.fp
  {
    forall i | 0 <= i < |s.log| && s.log[i].Replayed? && s.log[i].key == r.key && s.log[i].epoch == r.epoch
      ensures s.log[i].response == r.response && s.log[i].fp == r.fp
    {
      assert ReplayOk(s, s.log[i]);
    }
  }

  /** Only the GET of a request replays. */
  lemma OnlyGetReplays(s: State, step: Step)
    requires Enabled(s, step) && IsRequestStep(step) && !step.Get?
    ensures forall i :: 0 <= i < |RequestEffect(s, step).events| ==> !RequestEffect(s, step).events[i].Replayed?
    ensures |RequestEffect(s, step).events| <= 1
  {
  }

  lemma PromptKeepsReplays(s: State, step: Step)
    requires PromptInv(s) && Enabled(s, step) && Prompt(s, step)
    ensures forall i :: 0 <= i < |Apply(s, step).log| ==> ReplayOk(Apply(s, step), Apply(s, step).log[i])
    ensures ReplaysAgree(Apply(s, step).log)
  {
    var s' := Apply(s, step);
    forall i | 0 <= i < |s.log| ensures ReplayOk(s', s.log[i]) {
      ReplayStaysOk(s, step, s.log[i]);
    }
    if step.Get? {
      var events := RequestEffect(s, step).events;
      if events != [] {
        assert events == [events[0]];
        NewReplayOk(s, step.request, events[0]);
      }
    } else if IsRequestStep(step) {
      OnlyGetReplays(s, step);
    }
  }

  lemma PromptStepKeeps(s: State, step: Step)
    requires PromptInv(s) && Enabled(s, step) && Prompt(s, step)
    ensures PromptInv(Apply(s, step))
  {
    StepKeepsStarts(s, step);
    StepKeepsStaleSeen(s, step);
    StepKeepsStaleStarts(s, step);
    StepKeepsRuns(s, step);
    forall d | d in Apply(s, step).requests ensures ActiveOk(Apply(s, step), d) {
      PromptKeepsActive(s, step, d);
    }
    PromptKeepsStored(s, step);
    PromptKeepsReplays(s, step);
  }

  ghost predicate PromptlyReaches(s: State, steps: seq<Step>, t: State)
    decreases |steps|
  {
    if steps == [] then s == t
    else && Enabled(s, steps[0]) && Prompt(s, steps[0])
         && PromptlyReaches(Apply(s, steps[0]), steps[1..], t)
  }

  lemma {:induction false} PromptRunKeeps(s: State, steps: seq<Step>, t: State)
    requires PromptInv(s) && PromptlyReaches(s, steps, t)
    ensures PromptInv(t)
    decreases |steps|
  {
    if steps != [] {
      PromptStepKeeps(s, steps[0]);
      PromptRunKeeps(Apply(s, steps[0]), steps[1..], t);
    }
  }

  /** If no handler outlives the key's time to live, every replay returns the response with which one
      request both started and finished the handler in the replay's own epoch and fingerprint, and
      all replays of an epoch agree. */
  lemma ReplaysReturnTheRun(s: State, steps: seq<Step>, t: State, i: nat, j: nat)
    requires Initial(s) && PromptlyReaches(s, steps, t)
    requires i < |t.log| && t.log[i].Replayed? && j < |t.log| && t.log[j].Replayed?
    ensures exists e :: && Started(t.log[i].key, t.log[i].epoch, t.log[i].fp, e) in t.log
                        && Finished(t.log[i].key, t.log[i].epoch, t.log[i].fp, e, t.log[i].response) in t.log
    ensures t.log[i].key == t.log[j].key && t.log[i].epoch == t.log[j].epoch
            ==> t.log[i].response == t.log[j].response && t.log[i].fp == t.log[j].fp
  {
    PromptRunKeeps(s, steps, t);
    assert ReplayOk(t, t.log[i]);
  }

  /** A handler that outlives its key breaks this, in every reachable state: its late response lands
      in a later epoch than its own, and every matching request there is answered with it although
      no run has started or finished in that epoch. */
  lemma LatePutIsReplayed(s0: State, steps: seq<Step>, s: State, e: nat, d: nat)
    requires Initial(s0) && Reaches(s0, steps, s)
    requires e in s.requests && s.requests[e].point.PutWriting? && s.requests[e].key !in s.keys
    requires d in s.requests && d != e && s.requests[d].point.Getting?
    requires s.requests[d].key == s.requests[e].key && s.requests[d].fp == s.requests[e].fp
    ensures Enabled(Apply(s, PutWrite(e)), Get(d))
    ensures var k, n := s.requests[e].key, Epoch(s, s.requests[e].key);
            var t := Apply(Apply(s, PutWrite(e)), Get(d));
            && t.log == s.log + [Replayed(k, n, s.requests[e].fp, s.requests[e].point.response)]
            && s.requests[e].point.epoch < n
            && forall i :: 0 <= i < |t.log| && t.log[i].key == k && t.log[i].epoch == n ==> t.log[i].Replayed?
  {
    RunKeepsInv(s0, steps, s);
    assert RunLogged(s, e);
    var k, n := s.requests[e].key, Epoch(s, s.requests[e].key);
    assert forall i :: 0 <= i < |s.log| && s.log[i].Started? && s.log[i].key == k ==> s.log[i].epoch < n;
  }
}
