/** The transaction-hash settlement stores: the Redis store with its monotonic Lua update,
    and the in-memory store that must show the same values. */
module SettlementStore {
  import opened AsciiText
  import opened Common

  datatype Status = Pending | Failed | Validated

  function Rank(s: Status): nat {
    match s
    case Pending => 0
    case Failed => 1
    case Validated => 2
  }

  /** One Redis key: the stored status and record body, and whether the key carries an expiry. */
  datatype Entry<R> = Entry(status: Status, body: R, expiring: bool)

  // ---- Specification of the three operations, on any key type ----

  function Join<R>(current: Entry<R>, status: Status, body: R): Entry<R> {
    if Rank(status) > Rank(current.status) then Entry(status, body, true)
    else if current.status == Pending then Entry(Pending, body, false)
    else current.(expiring := true)
  }

  function Reserve<K, R>(m: map<K, Entry<R>>, k: K, status: Status, body: R): map<K, Entry<R>> {
    if k in m then m else m[k := Entry(status, body, status != Pending)]
  }

  function Update<K, R>(m: map<K, Entry<R>>, k: K, status: Status, body: R): map<K, Entry<R>> {
    if k in m then m[k := Join(m[k], status, body)] else m
  }

  /** Redis may drop a key only when it carries an expiry. */
  predicate Evictable<K, R>(m: map<K, Entry<R>>, k: K) {
    k in m && m[k].expiring
  }

  // ---- The two stores ----

  class RedisSettlementStore<R> {
    var entries: map<string, Entry<R>>

    constructor ()
      ensures entries == map[]
    {
      entries := map[];
    }

    method Get(transaction: string) returns (r: Option<Entry<R>>)
      ensures r == if Upper(transaction) in entries then Some(entries[Upper(transaction)]) else None
    {
      var key := Upper(transaction);
      if key in entries {
        r := Some(entries[key]);
      } else {
        r := None;
      }
    }

    /** SET NX, with EX only for a record that is already terminal. */
    method ReserveKey(transaction: string, status: Status, body: R) returns (acquired: bool)
      modifies this
      ensures acquired <==> Upper(transaction) !in old(entries)
      ensures entries == Reserve(old(entries), Upper(transaction), status, body)
    {
      var key := Upper(transaction);
      if key in entries {
        return false;
      }
      var expiring := false;
      if status != Pending {
        expiring := true;
      }
      entries := entries[key := Entry(status, body, expiring)];
      acquired := true;
    }

    /** The Lua script, branch by branch. */
    method UpdateKey(transaction: string, status: Status, body: R) returns (written: bool)
      modifies this
      ensures entries == Update(old(entries), Upper(transaction), status, body)
      ensures written ==> Upper(transaction) in entries && entries[Upper(transaction)].body == body
      ensures !written ==> entries.Keys == old(entries).Keys
                           && forall k :: k in entries ==> entries[k].status == old(entries)[k].status
                                                           && entries[k].body == old(entries)[k].body
    {
      var key := Upper(transaction);
      if key !in entries {
        return false;
      }
      var current := entries[key];
      if current.status == Pending && status == Pending {
        entries := entries[key := Entry(status, body, false)];
        return true;
      }
      if Rank(status) > Rank(current.status) {
        entries := entries[key := Entry(status, body, true)];
        return true;
      }
      if current.status != Pending {
        entries := entries[key := current.(expiring := true)];
      }
      written := false;
    }
  }

  /** What a store shows to `get`: status and body, without expiries. */
  function Shown<K, R>(m: map<K, Entry<R>>): map<K, (Status, R)> {
    map k | k in m :: (m[k].status, m[k].body)
  }

  function MemoryReserve<K, R>(m: map<K, (Status, R)>, k: K, status: Status, body: R): map<K, (Status, R)> {
    if k in m then m else m[k := (status, body)]
  }

  function MemoryUpdate<K, R>(m: map<K, (Status, R)>, k: K, status: Status, body: R): map<K, (Status, R)> {
    if k in m && ((m[k].0 == Pending && status == Pending) || Rank(status) > Rank(m[k].0))
    then m[k := (status, body)] else m
  }

  class InMemorySettlementStore<R> {
    var values: map<string, (Status, R)>

    constructor ()
      ensures values == map[]
    {
      values := map[];
    }

    method ReserveKey(transaction: string, status: Status, body: R) returns (acquired: bool)
      modifies this
      ensures acquired <==> Upper(transaction) !in old(values)
      ensures values == MemoryReserve(old(values), Upper(transaction), status, body)
    {
      var key := Upper(transaction);
      if key in values {
        return false;
      }
      values := values[key := (status, body)];
      acquired := true;
    }

    method UpdateKey(transaction: string, status: Status, body: R)
      modifies this
      ensures values == MemoryUpdate(old(values), Upper(transaction), status, body)
    {
      var key := Upper(transaction);
      if key !in values {
        return;
      }
      var current := values[key].0;
      if (current == Pending && status == Pending) || Rank(status) > Rank(current) {
        values := values[key := (status, body)];
      }
    }
  }

  // ---- Whole histories ----

  datatype Op<R> =
    | ReserveOp(transaction: string, status: Status, body: R)
    | UpdateOp(transaction: string, status: Status, body: R)
    | EvictOp(transaction: string)

  function ApplyRedis<R>(m: map<string, Entry<R>>, op: Op<R>): map<string, Entry<R>> {
    match op
    case ReserveOp(t, s, b) => Reserve(m, Upper(t), s, b)
    case UpdateOp(t, s, b) => Update(m, Upper(t), s, b)
    case EvictOp(t) => if Evictable(m, Upper(t)) then m - {Upper(t)} else m
  }

  function RunRedis<R>(m: map<string, Entry<R>>, ops: seq<Op<R>>): map<string, Entry<R>>
    decreases |ops|
  {
    if ops == [] then m else RunRedis(ApplyRedis(m, ops[0]), ops[1..])
  }

  function RunMemory<R>(m: map<string, (Status, R)>, ops: seq<Op<R>>): map<string, (Status, R)>
    decreases |ops|
  {
    if ops == [] then m
    else
      var next := match ops[0]
        case ReserveOp(t, s, b) => MemoryReserve(m, Upper(t), s, b)
        case UpdateOp(t, s, b) => MemoryUpdate(m, Upper(t), s, b)
        case EvictOp(_) => m;
      RunMemory(next, ops[1..])
  }

  ghost predicate ExpiresExactlyWhenTerminal<K, R>(m: map<K, Entry<R>>) {
    forall k :: k in m ==> (m[k].expiring <==> m[k].status != Pending)
  }

  /** In every history, with evictions anywhere, a key has an expiry exactly when its status
      is terminal; so a pending reservation can never be evicted. */
  lemma {:induction false} ExpiryFollowsStatus<R>(m: map<string, Entry<R>>, ops: seq<Op<R>>)
    requires ExpiresExactlyWhenTerminal(m)
    ensures ExpiresExactlyWhenTerminal(RunRedis(m, ops))
    ensures forall k :: k in RunRedis(m, ops) && RunRedis(m, ops)[k].status == Pending
                        ==> !Evictable(RunRedis(m, ops), k)
    decreases |ops|
  {
    if ops != [] {
      ExpiryFollowsStatus(ApplyRedis(m, ops[0]), ops[1..]);
    }
  }

  /** Without evictions the Lua store and the in-memory store show the same values after
      every history. */
  lemma {:induction false} StoresAgree<R>(m: map<string, Entry<R>>, ops: seq<Op<R>>)
    requires forall i :: 0 <= i < |ops| ==> !ops[i].EvictOp?
    ensures Shown(RunRedis(m, ops)) == RunMemory(Shown(m), ops)
    decreases |ops|
  {
    if ops != [] {
      assert !ops[0].EvictOp?;
      var m' := ApplyRedis(m, ops[0]);
      match ops[0] {
        case ReserveOp(t, s, b) =>
          assert Shown(m') == MemoryReserve(Shown(m), Upper(t), s, b);
        case UpdateOp(t, s, b) =>
          assert Shown(m') == MemoryUpdate(Shown(m), Upper(t), s, b);
      }
      StoresAgree(m', ops[1..]);
    }
  }

  // ---- Updates to one reserved hash form an order-independent join ----

  function UpdateAll<R>(e: Entry<R>, us: seq<(Status, R)>): Entry<R>
    decreases |us|
  {
    if us == [] then e else UpdateAll(Join(e, us[0].0, us[0].1), us[1..])
  }

  function UpdateAllKeys<K, R>(m: map<K, Entry<R>>, k: K, us: seq<(Status, R)>): map<K, Entry<R>> {
    if us == [] then m else UpdateAllKeys(Update(m, k, us[0].0, us[0].1), k, us[1..])
  }

  /** Updates never create a key, and touch only the key they name. */
  lemma {:induction false} UpdatesNeverCreate<K, R>(m: map<K, Entry<R>>, k: K, us: seq<(Status, R)>)
    ensures UpdateAllKeys(m, k, us) == if k in m then m[k := UpdateAll(m[k], us)] else m
  {
    if us == [] {
      assert k in m ==> m == m[k := m[k]];
    } else {
      UpdatesNeverCreate(Update(m, k, us[0].0, us[0].1), k, us[1..]);
    }
  }

  /** The final status bounds every candidate's rank and is one of them. */
  lemma {:induction false} FinalStatusIsHighest<R>(e: Entry<R>, us: seq<(Status, R)>)
    ensures var f := UpdateAll(e, us);
            && Rank(e.status) <= Rank(f.status)
            && (forall i :: 0 <= i < |us| ==> Rank(us[i].0) <= Rank(f.status))
            && (f.status == e.status || exists i :: 0 <= i < |us| && us[i].0 == f.status)
    decreases |us|
  {
    if us != [] {
      var e' := Join(e, us[0].0, us[0].1);
      FinalStatusIsHighest(e', us[1..]);
      var f := UpdateAll(e, us);
      forall i | 0 <= i < |us| ensures Rank(us[i].0) <= Rank(f.status) {
        if i > 0 { assert us[1..][i - 1] == us[i]; }
      }
      if f.status != e.status {
        if f.status == e'.status {
          assert us[0].0 == f.status;
        } else {
          var i :| 0 <= i < |us[1..]| && us[1..][i].0 == f.status;
          assert us[i + 1].0 == f.status;
        }
      }
    }
  }

  /** Which body survives: the first update that reached the winning terminal rank, the stored
      one when it was already terminal at that rank, the latest one while all are pending. */
  lemma {:induction false} FirstWinnerIsKept<R>(e: Entry<R>, us: seq<(Status, R)>)
    ensures var f := UpdateAll(e, us);
            && (f.status != e.status ==>
                  exists i :: 0 <= i < |us| && us[i] == (f.status, f.body)
                              && forall j :: 0 <= j < i ==> us[j].0 != f.status)
            && (f.status == e.status != Pending ==> f.body == e.body)
            && (f.status == Pending ==> f.body == if us == [] then e.body else us[|us| - 1].1)
    decreases |us|
  {
    if us != [] {
      var e' := Join(e, us[0].0, us[0].1);
      var f := UpdateAll(e, us);
      FinalStatusIsHighest(e', us[1..]);
      FirstWinnerIsKept(e', us[1..]);
      if f.status != e.status {
        if f.status == e'.status {
          assert us[0] == (f.status, f.body);
        } else {
          var i :| 0 <= i < |us[1..]| && us[1..][i] == (f.status, f.body)
                   && forall j :: 0 <= j < i ==> us[1..][j].0 != f.status;
          assert us[i + 1] == (f.status, f.body);
          forall j | 0 <= j < i + 1 ensures us[j].0 != f.status {
            if j > 0 { assert us[1..][j - 1] == us[j]; }
          }
        }
      }
    }
  }

  /** Any two orders of the same updates end in the same status. */
  lemma OrderIndependent<R>(e: Entry<R>, us: seq<(Status, R)>, vs: seq<(Status, R)>)
    requires multiset(us) == multiset(vs)
    ensures UpdateAll(e, us).status == UpdateAll(e, vs).status
  {
    FinalStatusIsHighest(e, us);
    FinalStatusIsHighest(e, vs);
    HighestWithin(e, us, vs);
    HighestWithin(e, vs, us);
  }

  lemma HighestWithin<R>(e: Entry<R>, us: seq<(Status, R)>, vs: seq<(Status, R)>)
    requires multiset(us) == multiset(vs)
    ensures Rank(UpdateAll(e, us).status) <= Rank(UpdateAll(e, vs).status)
  {
    FinalStatusIsHighest(e, us);
    FinalStatusIsHighest(e, vs);
    var f := UpdateAll(e, us);
    if f.status != e.status {
      var i :| 0 <= i < |us| && us[i].0 == f.status;
      assert us[i] in multiset(us);
      assert us[i] in multiset(vs);
    }
  }

  // ---- The same laws by status name ----

  predicate Offers<R>(us: seq<(Status, R)>, status: Status) {
    exists i :: 0 <= i < |us| && us[i].0 == status
  }

  /** Validated wins over everything, failed over pending, in any order. */
  lemma {:induction false} FinalStatusByName<R>(e: Entry<R>, us: seq<(Status, R)>)
    ensures var f := UpdateAll(e, us);
            && (f.status == Validated <==> e.status == Validated || Offers(us, Validated))
            && (f.status == Failed <==> !(e.status == Validated || Offers(us, Validated))
                                        && (e.status == Failed || Offers(us, Failed)))
    decreases |us|
  {
    if us != [] {
      var e' := Join(e, us[0].0, us[0].1);
      FinalStatusByName(e', us[1..]);
      OffersFirst(us, Validated);
      OffersFirst(us, Failed);
    }
  }

  lemma OffersFirst<R>(us: seq<(Status, R)>, status: Status)
    requires us != []
    ensures Offers(us, status) <==> us[0].0 == status || Offers(us[1..], status)
  {
    if Offers(us, status) && us[0].0 != status {
      var i :| 0 <= i < |us| && us[i].0 == status;
      assert us[1..][i - 1] == us[i];
    }
    if Offers(us[1..], status) {
      var i :| 0 <= i < |us[1..]| && us[1..][i].0 == status;
      assert us[i + 1].0 == status;
    }
  }

  /** A validated record is never overwritten, in either store: no series of updates changes it. */
  lemma {:induction false} ValidatedIsFinal<R>(e: Entry<R>, us: seq<(Status, R)>)
    requires e.status == Validated
    ensures UpdateAll(e, us).status == Validated && UpdateAll(e, us).body == e.body
    decreases |us|
  {
    if us != [] { ValidatedIsFinal(Join(e, us[0].0, us[0].1), us[1..]); }
  }

  /** A failed record yields to the first validated update and to nothing else. */
  lemma {:induction false} FailedYieldsToValidated<R>(e: Entry<R>, us: seq<(Status, R)>)
    requires e.status == Failed
    ensures var f := UpdateAll(e, us);
            if Offers(us, Validated)
            then exists i :: 0 <= i < |us| && us[i] == (Validated, f.body) && f.status == Validated
                             && forall j :: 0 <= j < i ==> us[j].0 != Validated
            else f.status == Failed && f.body == e.body
    decreases |us|
  {
    if us != [] {
      OffersFirst(us, Validated);
      var e' := Join(e, us[0].0, us[0].1);
      if us[0].0 == Validated {
        ValidatedIsFinal(e', us[1..]);
        assert us[0] == (Validated, us[0].1);
      } else {
        FailedYieldsToValidated(e', us[1..]);
        if Offers(us[1..], Validated) {
          var f := UpdateAll(e, us);
          var i :| 0 <= i < |us[1..]| && us[1..][i] == (Validated, f.body)
                   && forall j :: 0 <= j < i ==> us[1..][j].0 != Validated;
          assert us[i + 1] == (Validated, f.body);
          forall j | 0 <= j < i + 1 ensures us[j].0 != Validated {
            if j > 0 { assert us[1..][j - 1] == us[j]; }
          }
        }
      }
    }
  }

  /** One in-memory update by name: a pending record takes anything, a failed one only a validated
      update, a validated one nothing. */
  lemma MemoryUpdateByName<K, R>(m: map<K, (Status, R)>, k: K, status: Status, body: R)
    requires k in m
    ensures MemoryUpdate(m, k, status, body)[k]
         == if m[k].0 == Pending || (m[k].0 == Failed && status == Validated) then (status, body) else m[k]
    ensures forall j :: j in m && j != k ==> j in MemoryUpdate(m, k, status, body)
                                             && MemoryUpdate(m, k, status, body)[j] == m[j]
  {
  }
}
