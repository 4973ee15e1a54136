/** The two paging loops over an account's ticket objects: the signer collects every ticket, the
    facilitator looks for one.  Both read one validated ledger, so each marker has a fixed reply. */
module TicketPaging {
  import opened Common

  datatype Object = Ticket(sequence: int) | OtherObject

  datatype Reply = Page(objects: seq<Object>, next: Option<nat>) | MalformedReply

  /** The replies of one ledger snapshot: to the first request and to each marker. */
  datatype Snapshot = Snapshot(first: Reply, at: map<nat, Reply>)

  datatype PagingError = Malformed | RepeatedMarker

  function ReplyAt(snap: Snapshot, marker: Option<nat>): Reply {
    if marker.None? then snap.first
    else if marker.value in snap.at then snap.at[marker.value]
    else MalformedReply
  }

  /** Every marker that some reply hands out. */
  function Markers(snap: Snapshot): set<nat> {
    (set m | m in snap.at && snap.at[m].Page? && snap.at[m].next.Some? :: snap.at[m].next.value)
    + (if snap.first.Page? && snap.first.next.Some? then {snap.first.next.value} else {})
  }

  lemma NextIsMarker(snap: Snapshot, marker: Option<nat>)
    requires ReplyAt(snap, marker).Page? && ReplyAt(snap, marker).next.Some?
    ensures ReplyAt(snap, marker).next.value in Markers(snap)
  {
  }

  lemma FewerUnseen(snap: Snapshot, seen: set<nat>, m: nat)
    requires m in Markers(snap) && m !in seen
    ensures |Markers(snap) - (seen + {m})| < |Markers(snap) - seen|
  {
    assert Markers(snap) - seen == (Markers(snap) - (seen + {m})) + {m};
  }

  // ---- Specification: all objects from a marker on ----

  function Prepend(objects: seq<Object>, rest: Result<seq<Object>, PagingError>): Result<seq<Object>, PagingError> {
    if rest.Err? then rest else Ok(objects + rest.value)
  }

  function Walk(snap: Snapshot, marker: Option<nat>, seen: set<nat>): Result<seq<Object>, PagingError>
    decreases |Markers(snap) - seen|
  {
    var reply := ReplyAt(snap, marker);
    if reply.MalformedReply? then Err(Malformed)
    else if reply.next.None? then Ok(reply.objects)
    else if reply.next.value in seen then Err(RepeatedMarker)
    else
      NextIsMarker(snap, marker);
      FewerUnseen(snap, seen, reply.next.value);
      Prepend(reply.objects, Walk(snap, reply.next, seen + {reply.next.value}))
  }

  /** The tickets among some objects, in order. */
  function TicketsIn(objects: seq<Object>): seq<int> {
    if objects == [] then []
    else (if objects[0].Ticket? then [objects[0].sequence] else []) + TicketsIn(objects[1..])
  }

  lemma {:induction false} TicketsInMember(objects: seq<Object>, t: int)
    ensures t in TicketsIn(objects) <==> Ticket(t) in objects
  {
    if objects != [] {
      TicketsInMember(objects[1..], t);
      assert objects == [objects[0]] + objects[1..];
    }
  }

  // ---- sorted(set(...)) ----

  predicate StrictlyIncreasing(s: seq<int>) {
    forall i, j :: 0 <= i < j < |s| ==> s[i] < s[j]
  }

  function Insert(s: seq<int>, x: int): (r: seq<int>)
    requires StrictlyIncreasing(s)
    ensures StrictlyIncreasing(r)
    ensures forall y :: y in r <==> y == x || y in s
    ensures s != [] ==> r != [] && (r[0] == s[0] || r[0] == x)
  {
    if s == [] || x < s[0] then [x] + s
    else if x == s[0] then s
    else
      var rest := Insert(s[1..], x);
      assert s == [s[0]] + s[1..];
      assert forall i :: 0 <= i < |rest| ==> rest[i] in rest;
      [s[0]] + rest
  }

  function SortedDistinct(s: seq<int>): (r: seq<int>)
    ensures StrictlyIncreasing(r)
    ensures forall y :: y in r <==> y in s
  {
    if s == [] then [] else
      assert s == [s[0]] + s[1..];
      Insert(SortedDistinct(s[1..]), s[0])
  }

  // ---- The signer's loop ----

  lemma PrependNothing(rest: Result<seq<Object>, PagingError>)
    ensures Prepend([], rest) == rest
  {
    if rest.Ok? { assert [] + rest.value == rest.value; }
  }

  lemma WalkUnrolls(snap: Snapshot, marker: Option<nat>, seen: set<nat>, before: seq<Object>)
    requires ReplyAt(snap, marker).Page? && ReplyAt(snap, marker).next.Some?
    requires ReplyAt(snap, marker).next.value !in seen
    ensures var reply := ReplyAt(snap, marker);
            Prepend(before, Walk(snap, marker, seen))
            == Prepend(before + reply.objects, Walk(snap, reply.next, seen + {reply.next.value}))
  {
    var reply := ReplyAt(snap, marker);
    var rest := Walk(snap, reply.next, seen + {reply.next.value});
    if rest.Ok? {
      assert before + (reply.objects + rest.value) == before + reply.objects + rest.value;
    }
  }

  lemma {:induction false} TicketsInConcat(a: seq<Object>, b: seq<Object>)
    ensures TicketsIn(a + b) == TicketsIn(a) + TicketsIn(b)
  {
    if a == [] {
      assert a + b == b;
    } else {
      TicketsInConcat(a[1..], b);
      assert (a + b)[1..] == a[1..] + b;
    }
  }

  /** `_available_ticket_sequences`: terminates on every snapshot, because each round either ends
      or sees a new marker. */
  method AvailableTicketSequences(snap: Snapshot) returns (r: Result<seq<int>, PagingError>)
    ensures var all := Walk(snap, None, {});
            r == if all.Err? then Err(all.error) else Ok(SortedDistinct(TicketsIn(all.value)))
  {
    var tickets: seq<int> := [];
    var marker: Option<nat> := None;
    var seen: set<nat> := {};
    ghost var read: seq<Object> := [];
    PrependNothing(Walk(snap, None, {}));
    while true
      invariant tickets == TicketsIn(read)
      invariant Walk(snap, None, {}) == Prepend(read, Walk(snap, marker, seen))
      decreases |Markers(snap) - seen|
    {
      var reply := ReplyAt(snap, marker);
      if reply.MalformedReply? { return Err(Malformed); }
      TicketsInConcat(read, reply.objects);
      tickets := tickets + TicketsIn(reply.objects);
      if reply.next.None? { return Ok(SortedDistinct(tickets)); }
      if reply.next.value in seen { return Err(RepeatedMarker); }
      WalkUnrolls(snap, marker, seen, read);
      NextIsMarker(snap, marker);
      FewerUnseen(snap, seen, reply.next.value);
      read := read + reply.objects;
      marker, seen := reply.next, seen + {reply.next.value};
    }
  }

  // ---- The facilitator's loop ----

  /** What a search for one ticket finds: it stops at the first page that has it. */
  function Search(snap: Snapshot, marker: Option<nat>, seen: set<nat>, ticket: int): Result<bool, PagingError>
    decreases |Markers(snap) - seen|
  {
    var reply := ReplyAt(snap, marker);
    if reply.MalformedReply? then Err(Malformed)
    else if Ticket(ticket) in reply.objects then Ok(true)
    else if reply.next.None? then Ok(false)
    else if reply.next.value in seen then Err(RepeatedMarker)
    else
      NextIsMarker(snap, marker);
      FewerUnseen(snap, seen, reply.next.value);
      Search(snap, reply.next, seen + {reply.next.value}, ticket)
  }

  /** `_ticket_is_available`. */
  method TicketIsAvailable(snap: Snapshot, ticket: int) returns (r: Result<bool, PagingError>)
    ensures r == Search(snap, None, {}, ticket)
  {
    var marker: Option<nat> := None;
    var seen: set<nat> := {};
    while true
      invariant Search(snap, None, {}, ticket) == Search(snap, marker, seen, ticket)
      decreases |Markers(snap) - seen|
    {
      var reply := ReplyAt(snap, marker);
      if reply.MalformedReply? { return Err(Malformed); }
      if Ticket(ticket) in reply.objects { return Ok(true); }
      if reply.next.None? { return Ok(false); }
      if reply.next.value in seen { return Err(RepeatedMarker); }
      NextIsMarker(snap, marker);
      FewerUnseen(snap, seen, reply.next.value);
      marker, seen := reply.next, seen + {reply.next.value};
    }
  }

  // ---- Agreement ----

  ghost predicate Agree(all: Result<seq<Object>, PagingError>, found: Result<bool, PagingError>, ticket: int) {
    if all.Ok? then found == Ok(Ticket(ticket) in all.value)
    else found == Ok(true) || found == Err(all.error)
  }

  lemma AgreeAfter(
    objects: seq<Object>, rest: Result<seq<Object>, PagingError>, found: Result<bool, PagingError>, ticket: int)
    requires Agree(rest, found, ticket)
    ensures Agree(Prepend(objects, rest), if Ticket(ticket) in objects then Ok(true) else found, ticket)
  {
  }

  lemma {:induction false} SearchAgainstWalk(snap: Snapshot, marker: Option<nat>, seen: set<nat>, ticket: int)
    ensures Agree(Walk(snap, marker, seen), Search(snap, marker, seen, ticket), ticket)
    decreases |Markers(snap) - seen|
  {
    var reply := ReplyAt(snap, marker);
    if reply.Page? && reply.next.Some? && reply.next.value !in seen {
      NextIsMarker(snap, marker);
      FewerUnseen(snap, seen, reply.next.value);
      var seen' := seen + {reply.next.value};
      SearchAgainstWalk(snap, reply.next, seen', ticket);
      AgreeAfter(reply.objects, Walk(snap, reply.next, seen'), Search(snap, reply.next, seen', ticket), ticket);
    }
  }

  /** On one ledger snapshot, whenever the signer's loop ends without an error, the facilitator
      reports a ticket available exactly when it is in the signer's sorted list.  When the signer's
      loop fails, the facilitator fails the same way or has already found the ticket: it never
      reports a ticket absent that it did not read to the end for. */
  lemma PagingAgrees(snap: Snapshot, ticket: int)
    ensures var all, found := Walk(snap, None, {}), Search(snap, None, {}, ticket);
            && (all.Ok? ==> found == Ok(ticket in SortedDistinct(TicketsIn(all.value))))
            && (all.Err? ==> found == Ok(true) || found == Err(all.error))
  {
    SearchAgainstWalk(snap, None, {}, ticket);
    var all := Walk(snap, None, {});
    if all.Ok? { TicketsInMember(all.value, ticket); }
  }

  // ---- When a marker repeats ----

  /** The reply after following `n` markers; None once there is nothing left to follow. */
  function Follow(snap: Snapshot, n: nat): Option<Reply> {
    if n == 0 then Some(snap.first)
    else
      var previous := Follow(snap, n - 1);
      if previous.Some? && previous.value.Page? && previous.value.next.Some?
      then Some(ReplyAt(snap, previous.value.next)) else None
  }

  predicate HasNext(snap: Snapshot, n: nat) {
    var reply := Follow(snap, n);
    reply.Some? && reply.value.Page? && reply.value.next.Some?
  }

  function NextAfter(snap: Snapshot, n: nat): nat
    requires HasNext(snap, n)
  {
    Follow(snap, n).value.next.value
  }

  /** The markers seen before the `n`th reply are those of the replies before it. */
  ghost predicate SeenAre(snap: Snapshot, n: nat, seen: set<nat>) {
    && (forall i :: 0 <= i < n ==> HasNext(snap, i) && NextAfter(snap, i) in seen)
    && (forall m :: m in seen ==> exists i :: 0 <= i < n && HasNext(snap, i) && NextAfter(snap, i) == m)
  }

  /** Once a marker comes back, the replies go round in a circle. */
  lemma {:induction false} Circle(snap: Snapshot, j: nat, k: nat, n: nat)
    requires j < k && HasNext(snap, j) && HasNext(snap, k) && NextAfter(snap, j) == NextAfter(snap, k)
    ensures Follow(snap, j + 1 + n) == Follow(snap, k + 1 + n)
  {
    if n > 0 { Circle(snap, j, k, n - 1); }
  }

  lemma {:induction false} CircleNeverEnds(snap: Snapshot, j: nat, k: nat, n: nat)
    requires j < k && forall i :: 0 <= i <= k ==> HasNext(snap, i)
    requires NextAfter(snap, j) == NextAfter(snap, k)
    ensures HasNext(snap, n)
    decreases n
  {
    if n > k {
      var i := n - k - 1;
      Circle(snap, j, k, i);
      CircleNeverEnds(snap, j, k, j + 1 + i);
    }
  }

  lemma SeenGrows(snap: Snapshot, n: nat, seen: set<nat>)
    requires SeenAre(snap, n, seen) && HasNext(snap, n)
    ensures SeenAre(snap, n + 1, seen + {NextAfter(snap, n)})
  {
  }

  /** A marker that was seen before closes a circle. */
  lemma SeenIsEndless(snap: Snapshot, n: nat, seen: set<nat>)
    requires SeenAre(snap, n, seen) && HasNext(snap, n) && NextAfter(snap, n) in seen
    ensures forall i: nat :: HasNext(snap, i)
  {
    var j :| 0 <= j < n && HasNext(snap, j) && NextAfter(snap, j) == NextAfter(snap, n);
    forall i: nat ensures HasNext(snap, i) {
      CircleNeverEnds(snap, j, n, i);
    }
  }

  lemma {:induction false} RepeatMeansEndless(snap: Snapshot, marker: Option<nat>, seen: set<nat>, n: nat)
    requires Follow(snap, n) == Some(ReplyAt(snap, marker)) && SeenAre(snap, n, seen)
    ensures Walk(snap, marker, seen) == Err(RepeatedMarker) <==> forall i: nat :: HasNext(snap, i)
    decreases |Markers(snap) - seen|
  {
    var reply := ReplyAt(snap, marker);
    if reply.MalformedReply? || reply.next.None? {
      assert !HasNext(snap, n);
    } else if reply.next.value in seen {
      assert HasNext(snap, n) && NextAfter(snap, n) in seen;
      SeenIsEndless(snap, n, seen);
    } else {
      var m := reply.next.value;
      NextIsMarker(snap, marker);
      FewerUnseen(snap, seen, m);
      assert HasNext(snap, n) && NextAfter(snap, n) == m;
      SeenGrows(snap, n, seen);
      RepeatMeansEndless(snap, reply.next, seen + {m}, n + 1);
    }
  }

  /** The repeated-marker error is raised exactly when following the markers would never end. */
  lemma RepeatedExactlyWhenEndless(snap: Snapshot)
    ensures Walk(snap, None, {}) == Err(RepeatedMarker) <==> forall n: nat :: HasNext(snap, n)
  {
    RepeatMeansEndless(snap, None, {}, 0);
  }

  // ---- What a successful walk returns ----

  /** The objects of the replies from the `n`th to the `m`th, in order. */
  function ObjectsBetween(snap: Snapshot, n: nat, m: nat): seq<Object>
    requires n <= m
    decreases m - n
  {
    var reply := Follow(snap, n);
    (if reply.Some? && reply.value.Page? then reply.value.objects else [])
    + (if n == m then [] else ObjectsBetween(snap, n + 1, m))
  }

  /** The replies end after the `m`th, a page without a marker. */
  predicate EndsAt(snap: Snapshot, m: nat) {
    var reply := Follow(snap, m);
    reply.Some? && reply.value.Page? && reply.value.next.None?
  }

  lemma {:induction false} WalkCollects(snap: Snapshot, marker: Option<nat>, seen: set<nat>, n: nat)
    requires Follow(snap, n) == Some(ReplyAt(snap, marker)) && Walk(snap, marker, seen).Ok?
    ensures exists m: nat :: n <= m && EndsAt(snap, m) && Walk(snap, marker, seen).value == ObjectsBetween(snap, n, m)
    decreases |Markers(snap) - seen|
  {
    var reply := ReplyAt(snap, marker);
    if reply.next.None? {
      assert EndsAt(snap, n);
      assert ObjectsBetween(snap, n, n) == reply.objects + [] == reply.objects;
    } else {
      NextIsMarker(snap, marker);
      FewerUnseen(snap, seen, reply.next.value);
      var seen' := seen + {reply.next.value};
      WalkCollects(snap, reply.next, seen', n + 1);
      var m: nat :| n + 1 <= m && EndsAt(snap, m)
               && Walk(snap, reply.next, seen').value == ObjectsBetween(snap, n + 1, m);
      assert ObjectsBetween(snap, n, m) == reply.objects + ObjectsBetween(snap, n + 1, m);
    }
  }

  /** The marker chain has one end at most. */
  lemma {:induction false} OneEnd(snap: Snapshot, a: nat, b: nat)
    requires EndsAt(snap, a) && a < b
    ensures Follow(snap, b) == None
    decreases b
  {
    if b > a + 1 { OneEnd(snap, a, b - 1); }
  }

  /** Both loops see every page: a walk succeeds exactly when following the markers ends at a page
      without one, and then it returns the objects of all pages up to that one, in order. */
  lemma WalkReturnsEveryPage(snap: Snapshot, m: nat)
    ensures EndsAt(snap, m) ==> Walk(snap, None, {}) == Ok(ObjectsBetween(snap, 0, m))
    ensures Walk(snap, None, {}).Ok? ==> exists k: nat :: EndsAt(snap, k)
  {
    if Walk(snap, None, {}).Ok? {
      WalkCollects(snap, None, {}, 0);
      var k: nat :| EndsAt(snap, k) && Walk(snap, None, {}).value == ObjectsBetween(snap, 0, k);
      if EndsAt(snap, m) {
        if k < m { OneEnd(snap, k, m); }
        if m < k { OneEnd(snap, m, k); }
      }
    } else if EndsAt(snap, m) {
      RepeatedExactlyWhenEndless(snap);
      assert !HasNext(snap, m);
      var error := Walk(snap, None, {}).error;
      assert Walk(snap, None, {}) == Err(error);
      assert error.Malformed?;
      MalformedEnds(snap, None, {}, 0);
      var k: nat :| Follow(snap, k) == Some(MalformedReply);
      if k < m { StopsAt(snap, k, m); }
      if m < k { OneEnd(snap, m, k); }
    }
  }

  lemma {:induction false} StopsAt(snap: Snapshot, a: nat, b: nat)
    requires !HasNext(snap, a) && a < b
    ensures Follow(snap, b) == None
    decreases b
  {
    if b > a + 1 { StopsAt(snap, a, b - 1); }
  }

  lemma {:induction false} MalformedEnds(snap: Snapshot, marker: Option<nat>, seen: set<nat>, n: nat)
    requires Follow(snap, n) == Some(ReplyAt(snap, marker))
    ensures Walk(snap, marker, seen) == Err(Malformed)
            ==> exists k: nat :: n <= k && Follow(snap, k) == Some(MalformedReply)
    decreases |Markers(snap) - seen|
  {
    var reply := ReplyAt(snap, marker);
    if reply.Page? && reply.next.Some? && reply.next.value !in seen {
      NextIsMarker(snap, marker);
      FewerUnseen(snap, seen, reply.next.value);
      MalformedEnds(snap, reply.next, seen + {reply.next.value}, n + 1);
    }
  }

  // ---- Choosing a ticket ----

  datatype TicketError = Paging(error: PagingError) | CreationDisabled | NothingCreated

  function Smallest(s: seq<int>): (m: int)
    requires s != []
    ensures m in s && forall x :: x in s ==> m <= x
  {
    if |s| == 1 then s[0]
    else
      assert s == [s[0]] + s[1..];
      var rest := Smallest(s[1..]);
      if s[0] < rest then s[0] else rest
  }

  /** `_available_ticket` on the ledger's own inventory; `created` is what a TicketCreate for
      `missing` more tickets yields. */
  function AvailableTicket(listed: Result<seq<int>, PagingError>, target: nat, created: seq<int>)
    : Result<int, TicketError>
  {
    if listed.Err? then Err(Paging(listed.error))
    else
      var tickets := if target > |listed.value| then listed.value + created else listed.value;
      if tickets != [] then Ok(Smallest(tickets))
      else if target == 0 then Err(CreationDisabled)
      else Err(NothingCreated)
  }

  /** The ticket the signer picks is the lowest it knows; unless it was created just now, the
      facilitator finds it available on the same snapshot. */
  lemma ChosenTicketIsAvailable(snap: Snapshot, target: nat, created: seq<int>)
    requires Walk(snap, None, {}).Ok?
    ensures var listed := SortedDistinct(TicketsIn(Walk(snap, None, {}).value));
            var chosen := AvailableTicket(Ok(listed), target, created);
            && (chosen.Err? <==> listed == [] && (target == 0 || created == []))
            && (chosen.Ok? ==>
                  && (chosen.value !in created ==> Search(snap, None, {}, chosen.value) == Ok(true))
                  && (forall t :: Search(snap, None, {}, t) == Ok(true) ==> chosen.value <= t))
  {
    var listed := SortedDistinct(TicketsIn(Walk(snap, None, {}).value));
    var chosen := AvailableTicket(Ok(listed), target, created);
    if chosen.Ok? {
      PagingAgrees(snap, chosen.value);
      forall t | Search(snap, None, {}, t) == Ok(true) ensures chosen.value <= t {
        PagingAgrees(snap, t);
      }
    }
  }

  /** Which error is given when there is no ticket to use. */
  lemma NoTicketExactly(listed: Result<seq<int>, PagingError>, target: nat, created: seq<int>)
    ensures var chosen := AvailableTicket(listed, target, created);
            && (forall error :: chosen == Err(Paging(error)) <==> listed == Err(error))
            && (chosen == Err(CreationDisabled) <==> listed == Ok([]) && target == 0)
            && (chosen == Err(NothingCreated) <==> listed == Ok([]) && target > 0 && created == [])
  {
  }
}
