/** The work queue of `get_missing_events_route`: a walk backwards over the
    event graph. */
module MissingEvents {
  import opened Collections

  type EventId = nat
  type RoomId = nat

  /** A stored event; a field is `None` when it is absent or does not parse. */
  datatype Pdu = Pdu(room: Option<RoomId>, prev: Option<seq<EventId>>)

  datatype Response =
    | Events(events: seq<EventId>)
    | EvilEvent
    | BadDatabase

  /** The request, the stored events, and what the asking server may see. */
  datatype Query = Query(
    room: RoomId,
    latest: seq<EventId>,
    earliest: seq<EventId>,
    limit: nat,
    stored: map<EventId, Pdu>,
    visible: set<EventId>)
  {
    predicate Evil(e: EventId) {
      e in stored && stored[e].room.Some? && stored[e].room.value != room
    }

    /** Events the walk may return and walk through. */
    predicate Sendable(e: EventId) {
      e in stored && stored[e].room == Some(room) && e !in earliest && e in visible
    }

    /** Stored events whose fields the walk cannot read. */
    predicate Unreadable(e: EventId) {
      e in stored && (stored[e].room.None? || (Sendable(e) && stored[e].prev.None?))
    }

    function Prev(e: EventId): seq<EventId> {
      if e in stored && stored[e].prev.Some? then stored[e].prev.value else []
    }
  }

  /** A backward path from a latest event that passes through sendable events. */
  predicate IsPath(q: Query, path: seq<EventId>) {
    && path != []
    && path[0] in q.latest
    && forall i :: 0 <= i < |path| - 1 ==> q.Sendable(path[i]) && path[i + 1] in q.Prev(path[i])
  }

  ghost predicate Reached(q: Query, e: EventId) {
    exists path :: IsPath(q, path) && path[|path| - 1] == e
  }

  lemma LatestIsReached(q: Query, e: EventId)
    requires e in q.latest
    ensures Reached(q, e)
  {
    assert IsPath(q, [e]);
  }

  lemma PrevIsReached(q: Query, e: EventId, p: EventId)
    requires Reached(q, e) && q.Sendable(e) && p in q.Prev(e)
    ensures Reached(q, p)
  {
    var path :| IsPath(q, path) && path[|path| - 1] == e;
    assert IsPath(q, path + [p]);
    assert (path + [p])[|path + [p]| - 1] == p;
  }

  // ---------------------------------------------------------------------
  // The queue the walk works through
  // ---------------------------------------------------------------------

  function AllPrev(q: Query, events: seq<EventId>): seq<EventId> {
    if events == [] then []
    else AllPrev(q, events[..|events| - 1]) + q.Prev(events[|events| - 1])
  }

  /** The queue after returning `events`. */
  function Queue(q: Query, events: seq<EventId>): seq<EventId> {
    q.latest + AllPrev(q, events)
  }

  function OnlySendable(q: Query, es: seq<EventId>): seq<EventId> {
    if es == [] then []
    else
      var init, last := es[..|es| - 1], es[|es| - 1];
      OnlySendable(q, init) + if q.Sendable(last) then [last] else []
  }

  lemma {:induction false} OnlySendableHas(q: Query, es: seq<EventId>, e: EventId)
    ensures e in OnlySendable(q, es) <==> e in es && q.Sendable(e)
  {
    if es != [] {
      OnlySendableHas(q, es[..|es| - 1], e);
      assert es == es[..|es| - 1] + [es[|es| - 1]];
    }
  }

  lemma {:induction false} AllPrevHas(q: Query, events: seq<EventId>, e: EventId, p: EventId)
    requires e in events && p in q.Prev(e)
    ensures p in AllPrev(q, events)
  {
    if e != events[|events| - 1] {
      assert events == events[..|events| - 1] + [events[|events| - 1]];
      AllPrevHas(q, events[..|events| - 1], e, p);
    }
  }

  /** Once the queue is used up, everything reachable has been on it. */
  lemma {:induction false} ReachedIsQueued(q: Query, events: seq<EventId>, path: seq<EventId>)
    requires events == OnlySendable(q, Queue(q, events))
    requires IsPath(q, path)
    ensures path[|path| - 1] in Queue(q, events)
    decreases |path|
  {
    if |path| > 1 {
      var init := path[..|path| - 1];
      ReachedIsQueued(q, events, init);
      var e := init[|init| - 1];
      assert e == path[|path| - 2];
      OnlySendableHas(q, Queue(q, events), e);
      AllPrevHas(q, events, e, path[|path| - 1]);
    }
  }

  /** The walk, having returned `before`, returns what it reads at `m`. */
  predicate ReadsNext(q: Query, before: seq<EventId>, m: nat, e: EventId) {
    m < |Queue(q, before)| && Queue(q, before)[m] == e && q.Sendable(e) && before == OnlySendable(q, Queue(q, before)[..m])
  }

  /** Each event was on the queue before it was returned. */
  ghost predicate Stepwise(q: Query, events: seq<EventId>) {
    events == [] ||
    var init, last := events[..|events| - 1], events[|events| - 1];
    Stepwise(q, init) && exists m :: ReadsNext(q, init, m, last)
  }

  lemma StepwiseGrows(q: Query, events: seq<EventId>, n: nat, e: EventId)
    requires Stepwise(q, events) && ReadsNext(q, events, n, e)
    ensures Stepwise(q, events + [e])
  {
    var more := events + [e];
    assert more[..|more| - 1] == events && more[|more| - 1] == e;
    assert ReadsNext(q, more[..|more| - 1], n, more[|more| - 1]);
  }

  /** `events` is what the walk returns after reading the queue up to `n`. */
  ghost predicate WalkedTo(q: Query, events: seq<EventId>, n: nat) {
    && n <= |Queue(q, events)|
    && events == OnlySendable(q, Queue(q, events)[..n])
    && |events| <= q.limit
    && (forall e :: e in Queue(q, events) ==> Reached(q, e))
    && (forall i :: 0 <= i < n ==> !q.Evil(Queue(q, events)[i]) && !q.Unreadable(Queue(q, events)[i]))
  }

  lemma SkipOne(q: Query, events: seq<EventId>, n: nat)
    requires WalkedTo(q, events, n) && n < |Queue(q, events)|
    requires var e := Queue(q, events)[n]; !q.Sendable(e) && !q.Evil(e) && !q.Unreadable(e)
    ensures WalkedTo(q, events, n + 1)
  {
    var queue := Queue(q, events);
    assert queue[..n + 1][..n] == queue[..n];
  }

  lemma ReturnOne(q: Query, events: seq<EventId>, n: nat)
    requires WalkedTo(q, events, n) && n < |Queue(q, events)| && |events| < q.limit
    requires q.Sendable(Queue(q, events)[n]) && !q.Unreadable(Queue(q, events)[n])
    ensures var e := Queue(q, events)[n];
            && Queue(q, events + [e]) == Queue(q, events) + q.Prev(e)
            && WalkedTo(q, events + [e], n + 1)
  {
    var queue := Queue(q, events);
    var e := queue[n];
    var longer := queue + q.Prev(e);
    assert (events + [e])[..|events|] == events;
    assert Queue(q, events + [e]) == longer;
    assert longer[..n + 1][..n] == queue[..n] && longer[n] == e;
    forall p | p in longer ensures Reached(q, p) {
      if p in q.Prev(e) {
        assert e in queue;
        PrevIsReached(q, e, p);
      }
    }
    forall i | 0 <= i < n + 1 ensures !q.Evil(longer[i]) && !q.Unreadable(longer[i]) {
      assert longer[i] == queue[i];
    }
  }

  /** The loop's state: returned events, place in the queue, and the queue. */
  ghost predicate OnTheWay(q: Query, events: seq<EventId>, n: nat, queue: seq<EventId>) {
    WalkedTo(q, events, n) && Stepwise(q, events) && Queue(q, events) == queue
  }

  lemma WalkBegins(q: Query)
    ensures OnTheWay(q, [], 0, q.latest)
  {
    forall e | e in q.latest ensures Reached(q, e) {
      LatestIsReached(q, e);
    }
    assert Queue(q, []) == q.latest;
  }

  lemma SkipStep(q: Query, events: seq<EventId>, n: nat, queue: seq<EventId>)
    requires OnTheWay(q, events, n, queue) && n < |queue|
    requires !q.Sendable(queue[n]) && !q.Evil(queue[n]) && !q.Unreadable(queue[n])
    ensures OnTheWay(q, events, n + 1, queue)
  {
    SkipOne(q, events, n);
  }

  lemma ReturnStep(q: Query, events: seq<EventId>, n: nat, e: EventId,
                   queue: seq<EventId>, events': seq<EventId>, queue': seq<EventId>)
    requires OnTheWay(q, events, n, queue)
    requires n < |queue| && queue[n] == e && q.Sendable(e) && |events| < q.limit && !q.Unreadable(e)
    requires events' == events + [e] && queue' == queue + q.Prev(e)
    ensures OnTheWay(q, events', n + 1, queue')
  {
    StepwiseGrows(q, events, n, e);
    ReturnOne(q, events, n);
  }

  lemma WalkEnds(q: Query, events: seq<EventId>, n: nat, queue: seq<EventId>)
    requires OnTheWay(q, events, n, queue) && (n == |queue| || |events| == q.limit)
    ensures Complete(q, events)
  {
  }

  /** The walk comes to this event, below the limit. */
  ghost predicate ComesTo(q: Query, e: EventId) {
    exists events: seq<EventId>, n: nat :: Before(q, events, n, e)
  }

  ghost predicate Before(q: Query, events: seq<EventId>, n: nat, e: EventId) {
    && WalkedTo(q, events, n) && Stepwise(q, events) && |events| < q.limit
    && n < |Queue(q, events)| && Queue(q, events)[n] == e
  }

  /** What one pass of the loop does with an event. */
  datatype Found = Taken(prev: seq<EventId>) | Skipped | Foreign | Broken

  method Examine(q: Query, e: EventId) returns (found: Found)
    ensures found.Taken? <==> q.Sendable(e) && !q.Unreadable(e)
    ensures found.Taken? ==> found.prev == q.Prev(e)
    ensures found.Foreign? <==> q.Evil(e)
    ensures found.Broken? <==> q.Unreadable(e)
  {
    if e !in q.stored {
      return Skipped;
    }
    var pdu := q.stored[e];
    if pdu.room.None? {
      return Broken;
    }
    if pdu.room.value != q.room {
      return Foreign;
    }
    if e in q.earliest || e !in q.visible {
      return Skipped;
    }
    if pdu.prev.None? {
      return Broken;
    }
    found := Taken(pdu.prev.value);
  }

  /** The route's loop, by limit and remaining queue. */
  method GetMissingEvents(q: Query) returns (r: Response)
    ensures r.Events? ==> Complete(q, r.events)
    ensures r.EvilEvent? ==> exists e :: ComesTo(q, e) && q.Evil(e)
    ensures r.BadDatabase? ==> exists e :: ComesTo(q, e) && q.Unreadable(e)
  {
    var queued := q.latest;
    var events: seq<EventId> := [];
    var i := 0;
    WalkBegins(q);
    while i < |queued| && |events| < q.limit
      invariant i <= |queued| && OnTheWay(q, events, i, queued)
      decreases q.limit - |events|, |queued| - i
    {
      var e := queued[i];
      var found := Examine(q, e);
      if found.Broken? || found.Foreign? {
        assert Before(q, events, i, e) && ComesTo(q, e);
        return if found.Foreign? then EvilEvent else BadDatabase;
      }
      if found.Taken? {
        ReturnStep(q, events, i, e, queued, events + [e], queued + found.prev);
        queued := queued + found.prev;
        events := events + [e];
      } else {
        SkipStep(q, events, i, queued);
      }
      i := i + 1;
    }
    WalkEnds(q, events, i, queued);
    r := Events(events);
  }

  /** Every returned event is known, in the room, visible, not an earliest event,
      and reachable from a latest event through such events. */
  lemma ReturnedEventsAreReached(q: Query, events: seq<EventId>, n: nat, e: EventId)
    requires WalkedTo(q, events, n) && e in events
    ensures e in q.stored && q.stored[e].room == Some(q.room) && e in q.visible && e !in q.earliest
    ensures Reached(q, e) && |events| <= q.limit
  {
    OnlySendableHas(q, Queue(q, events)[..n], e);
  }

  /** A response shorter than the limit holds all of them, and then no reachable
      event was evil or unreadable. */
  lemma ShortResponsesAreComplete(q: Query, events: seq<EventId>, n: nat, e: EventId)
    requires WalkedTo(q, events, n) && (n == |Queue(q, events)| || |events| == q.limit)
    requires |events| < q.limit && Reached(q, e)
    ensures e in events <==> e in q.stored && q.stored[e].room == Some(q.room) && e in q.visible && e !in q.earliest
    ensures e in q.stored ==> q.stored[e].room == Some(q.room) && (e in events ==> q.stored[e].prev.Some?)
  {
    assert Queue(q, events)[..n] == Queue(q, events);
    var path :| IsPath(q, path) && path[|path| - 1] == e;
    ReachedIsQueued(q, events, path);
    OnlySendableHas(q, Queue(q, events), e);
  }

  /** An error means that the walk came to an event of another room, or to one
      whose room, or whose parents if it was to be sent, cannot be read. */
  lemma ErrorsAreMet(q: Query, e: EventId)
    requires ComesTo(q, e) && (q.Evil(e) || q.Unreadable(e))
    ensures Reached(q, e) && e in q.stored
    ensures q.Evil(e) <==> q.stored[e].room.Some? && q.stored[e].room != Some(q.room)
    ensures q.Unreadable(e) <==>
              || q.stored[e].room.None?
              || (q.stored[e].prev.None? && q.stored[e].room == Some(q.room) && e in q.visible && e !in q.earliest)
  {
    var events: seq<EventId>, n: nat :| Before(q, events, n, e);
    assert Queue(q, events)[n] in Queue(q, events);
  }

  // One walk only: at each place there is one outcome

  lemma {:induction false} OnlySendableGrows(q: Query, es: seq<EventId>, m: nat, n: nat)
    requires m <= n <= |es|
    ensures OnlySendable(q, es[..m]) <= OnlySendable(q, es[..n])
    decreases n
  {
    if m < n {
      OnlySendableGrows(q, es, m, n - 1);
      assert es[..n][..n - 1] == es[..n - 1];
    }
  }

  /** What the walk returns next is determined by what it has returned. */
  lemma NextIsDetermined(q: Query, before: seq<EventId>, m: nat, e: EventId, n: nat, f: EventId)
    requires ReadsNext(q, before, m, e) && ReadsNext(q, before, n, f)
    ensures m == n && e == f
  {
    var queue := Queue(q, before);
    if m < n {
      SentBy(q, queue, m, n);
    } else if n < m {
      SentBy(q, queue, n, m);
    }
  }

  lemma SentBy(q: Query, queue: seq<EventId>, m: nat, n: nat)
    requires m < n <= |queue| && q.Sendable(queue[m])
    ensures |OnlySendable(q, queue[..n])| > |OnlySendable(q, queue[..m])|
  {
    OnlySendableGrows(q, queue, m + 1, n);
    assert queue[..m + 1][..m] == queue[..m];
  }

  lemma {:induction false} StepwiseAt(q: Query, events: seq<EventId>, k: nat) returns (m: nat)
    requires Stepwise(q, events) && k < |events|
    ensures ReadsNext(q, events[..k], m, events[k])
    decreases |events|
  {
    var n := |events| - 1;
    if k == n {
      m :| ReadsNext(q, events[..n], m, events[n]);
    } else {
      m := StepwiseAt(q, events[..n], k);
      assert events[..n][..k] == events[..k];
    }
  }

  ghost predicate NextRead(q: Query, events: seq<EventId>, k: nat)
    requires k < |events|
  {
    exists m :: ReadsNext(q, events[..k], m, events[k])
  }

  lemma AgreeNext(q: Query, a: seq<EventId>, b: seq<EventId>, k: nat)
    requires k < |a| && k < |b| && a[..k] == b[..k] && NextRead(q, a, k) && NextRead(q, b, k)
    ensures a[..k + 1] == b[..k + 1]
  {
    var i :| ReadsNext(q, a[..k], i, a[k]);
    var j :| ReadsNext(q, b[..k], j, b[k]);
    NextIsDetermined(q, a[..k], i, a[k], j, b[k]);
    assert a[..k + 1] == a[..k] + [a[k]] && b[..k + 1] == b[..k] + [b[k]];
  }

  lemma {:induction false} ReadsAgree(q: Query, a: seq<EventId>, b: seq<EventId>, k: nat)
    requires k <= |a| && k <= |b| && forall i | 0 <= i < k :: NextRead(q, a, i) && NextRead(q, b, i)
    ensures a[..k] == b[..k]
    decreases k
  {
    if k > 0 {
      ReadsAgree(q, a, b, k - 1);
      AgreeNext(q, a, b, k - 1);
    }
  }

  /** Of two walks, one is the beginning of the other. */
  lemma WalksAgree(q: Query, a: seq<EventId>, b: seq<EventId>, k: nat)
    requires Stepwise(q, a) && Stepwise(q, b) && k <= |a| && k <= |b|
    ensures a[..k] == b[..k]
  {
    forall i | 0 <= i < k ensures NextRead(q, a, i) && NextRead(q, b, i) {
      var m := StepwiseAt(q, a, i);
      var n := StepwiseAt(q, b, i);
    }
    ReadsAgree(q, a, b, k);
  }

  /** The walk to the end of the queue or to the limit. */
  ghost predicate Complete(q: Query, events: seq<EventId>) {
    Stepwise(q, events) && exists n: nat :: WalkedTo(q, events, n) && (n == |Queue(q, events)| || |events| == q.limit)
  }

  lemma CompleteHasNoNext(q: Query, a: seq<EventId>, b: seq<EventId>)
    requires Complete(q, a) && Stepwise(q, b) && |a| < |b| <= q.limit
    ensures a != b[..|a|]
  {
    var n: nat :| WalkedTo(q, a, n) && (n == |Queue(q, a)| || |a| == q.limit);
    var i := StepwiseAt(q, b, |a|);
    if a == b[..|a|] {
      SentBy(q, Queue(q, a), i, |Queue(q, a)|);
    }
  }

  /** So the response is determined by the query. */
  lemma ResponseIsDetermined(q: Query, a: seq<EventId>, b: seq<EventId>)
    requires Complete(q, a) && Complete(q, b)
    ensures a == b
  {
    if |a| < |b| {
      NotLonger(q, a, b);
    } else if |b| < |a| {
      NotLonger(q, b, a);
    } else {
      WalksAgree(q, a, b, |a|);
      assert a[..|a|] == a && b[..|a|] == b;
    }
  }

  lemma NotLonger(q: Query, a: seq<EventId>, b: seq<EventId>)
    requires Complete(q, a) && Complete(q, b)
    ensures |a| >= |b|
  {
    if |a| < |b| {
      assert a[..|a|] == a;
      WalksAgree(q, a, b, |a|);
      CompleteHasNoNext(q, a, b);
    }
  }

  // ---------------------------------------------------------------------
  // Repeated events: the walk keeps no visited set
  // ---------------------------------------------------------------------

  predicate SendableOnce(q: Query, s: seq<EventId>) {
    forall i, j :: 0 <= i < j < |s| && s[i] == s[j] ==> !q.Sendable(s[i])
  }

  /** One way only leads to each event that can be sent. */
  ghost predicate NoForks(q: Query) {
    && SendableOnce(q, q.latest)
    && (forall x | q.Sendable(x) && Reached(q, x) :: SendableOnce(q, q.Prev(x)))
    && (forall a, b | IsPath(q, a) && IsPath(q, b) && a[|a| - 1] == b[|b| - 1] && q.Sendable(a[|a| - 1]) :: a == b)
  }

  lemma {:induction false} SendableCount(q: Query, es: seq<EventId>, e: EventId)
    ensures multiset(OnlySendable(q, es))[e] == if q.Sendable(e) then multiset(es)[e] else 0
  {
    if es != [] {
      SendableCount(q, es[..|es| - 1], e);
      assert es == es[..|es| - 1] + [es[|es| - 1]];
    }
  }

  lemma CountTwice(s: seq<EventId>, i: nat, j: nat)
    requires i < j < |s| && s[i] == s[j]
    ensures multiset(s)[s[i]] >= 2
  {
    assert s == s[..i] + [s[i]] + s[i + 1..j] + [s[j]] + s[j + 1..];
  }

  lemma {:induction false} CountOnce(s: seq<EventId>, e: EventId)
    requires Distinct(s)
    ensures multiset(s)[e] <= 1
  {
    if s != [] {
      var init := s[..|s| - 1];
      CountOnce(init, e);
      assert s == init + [s[|s| - 1]];
      assert s[|s| - 1] !in init;
    }
  }

  /** Where the parents of `events[a]` lie in the queue. */
  lemma {:induction false} BlockOf(q: Query, events: seq<EventId>, a: nat, pos: nat)
    requires a < |events| && pos < |q.Prev(events[a])|
    ensures var p := |AllPrev(q, events[..a])| + pos;
            p < |AllPrev(q, events)| && AllPrev(q, events)[p] == q.Prev(events[a])[pos]
  {
    var init := events[..|events| - 1];
    if a < |init| {
      BlockOf(q, init, a, pos);
      assert init[..a] == events[..a];
    } else {
      assert events[..a] == init;
    }
  }

  lemma {:induction false} FindBlock(q: Query, events: seq<EventId>, p: nat) returns (a: nat, pos: nat)
    requires p < |AllPrev(q, events)|
    ensures a < |events| && pos < |q.Prev(events[a])|
    ensures p == |AllPrev(q, events[..a])| + pos && AllPrev(q, events)[p] == q.Prev(events[a])[pos]
  {
    var init := events[..|events| - 1];
    if p < |AllPrev(q, init)| {
      a, pos := FindBlock(q, init, p);
      assert init[..a] == events[..a];
    } else {
      a, pos := |init|, p - |AllPrev(q, init)|;
      assert events[..a] == init;
    }
  }

  lemma {:induction false} BlocksAreOrdered(q: Query, events: seq<EventId>, a: nat, b: nat)
    requires a < b <= |events|
    ensures |AllPrev(q, events[..a])| + |q.Prev(events[a])| <= |AllPrev(q, events[..b])|
  {
    assert events[..b][..b - 1] == events[..b - 1];
    if a < b - 1 {
      BlocksAreOrdered(q, events, a, b - 1);
    }
  }

  // One way to each event means no repeats

  lemma TwoPathsFork(q: Query, a: seq<EventId>, b: seq<EventId>)
    requires IsPath(q, a) && IsPath(q, b) && a[|a| - 1] == b[|b| - 1] && q.Sendable(a[|a| - 1]) && a != b
    ensures !NoForks(q)
  {
  }

  lemma RepeatedParentsFork(q: Query, x: EventId)
    requires q.Sendable(x) && Reached(q, x) && !SendableOnce(q, q.Prev(x))
    ensures !NoForks(q)
  {
  }

  lemma PathThrough(q: Query, x: EventId, e: EventId) returns (path: seq<EventId>)
    requires Reached(q, x) && q.Sendable(x) && e in q.Prev(x)
    ensures IsPath(q, path) && |path| >= 2 && path[|path| - 1] == e && path[|path| - 2] == x
  {
    var way :| IsPath(q, way) && way[|way| - 1] == x;
    path := way + [e];
  }

  /** Two entries among the parents of returned events. */
  lemma TwiceAmongParents(q: Query, events: seq<EventId>, i: nat, j: nat)
    requires Distinct(events) && i < j < |AllPrev(q, events)| && AllPrev(q, events)[i] == AllPrev(q, events)[j]
    requires forall x | x in events :: q.Sendable(x) && Reached(q, x)
    requires q.Sendable(AllPrev(q, events)[i])
    ensures !NoForks(q)
  {
    var e := AllPrev(q, events)[i];
    var a, posA := FindBlock(q, events, i);
    var b, posB := FindBlock(q, events, j);
    if a == b {
      RepeatedParentsFork(q, events[a]);
    } else {
      var pathA := PathThrough(q, events[a], e);
      var pathB := PathThrough(q, events[b], e);
      TwoPathsFork(q, pathA, pathB);
    }
  }

  /** An event that is on the queue twice was put there in two ways. */
  lemma TwicePutTwoWays(q: Query, events: seq<EventId>, i: nat, j: nat)
    requires Distinct(events) && i < j < |Queue(q, events)| && Queue(q, events)[i] == Queue(q, events)[j]
    requires forall x | x in events :: q.Sendable(x) && Reached(q, x)
    requires q.Sendable(Queue(q, events)[i])
    ensures !NoForks(q)
  {
    var e, n := Queue(q, events)[i], |q.latest|;
    if i >= n {
      TwiceAmongParents(q, events, i - n, j - n);
    } else if j >= n {
      var b, pos := FindBlock(q, events, j - n);
      var path := PathThrough(q, events[b], e);
      assert IsPath(q, [e]);
      TwoPathsFork(q, [e], path);
    } else {
      assert q.latest[i] == q.latest[j];
    }
  }

  lemma {:induction false} QueuedIsReached(q: Query, events: seq<EventId>, x: EventId)
    requires Stepwise(q, events) && x in Queue(q, events)
    ensures Reached(q, x)
  {
    if events == [] {
      LatestIsReached(q, x);
    } else {
      var init, e := events[..|events| - 1], events[|events| - 1];
      assert Queue(q, events) == Queue(q, init) + q.Prev(e);
      if x in Queue(q, init) {
        QueuedIsReached(q, init, x);
      } else {
        var m :| ReadsNext(q, init, m, e);
        QueuedIsReached(q, init, e);
        PrevIsReached(q, e, x);
      }
    }
  }

  lemma {:induction false} ReturnedIsReached(q: Query, events: seq<EventId>, x: EventId)
    requires Stepwise(q, events) && x in events
    ensures q.Sendable(x) && Reached(q, x)
  {
    var init, e := events[..|events| - 1], events[|events| - 1];
    if x in init {
      ReturnedIsReached(q, init, x);
    } else {
      assert x == e;
      var m :| ReadsNext(q, init, m, e);
      QueuedIsReached(q, init, e);
    }
  }

  lemma NextIsNew(q: Query, events: seq<EventId>, m: nat, e: EventId)
    requires NoForks(q) && Stepwise(q, events) && Distinct(events) && ReadsNext(q, events, m, e)
    ensures e !in events
  {
    var queue := Queue(q, events);
    OnlySendableHas(q, queue[..m], e);
    forall x | x in events ensures q.Sendable(x) && Reached(q, x) {
      ReturnedIsReached(q, events, x);
    }
    if e in queue[..m] {
      var l :| 0 <= l < m && queue[..m][l] == e;
      assert queue[l] == queue[m];
      TwicePutTwoWays(q, events, l, m);
    }
  }

  /** In a graph without forks no walk returns an event twice, complete or not. */
  lemma {:induction false} NoForksNoRepeats(q: Query, events: seq<EventId>)
    requires NoForks(q) && Stepwise(q, events)
    ensures Distinct(events)
  {
    if events != [] {
      var init, e := events[..|events| - 1], events[|events| - 1];
      NoForksNoRepeats(q, init);
      var m :| ReadsNext(q, init, m, e);
      NextIsNew(q, init, m, e);
      DistinctGrows(events);
    }
  }

  lemma DistinctGrows(s: seq<EventId>)
    requires s != [] && Distinct(s[..|s| - 1]) && s[|s| - 1] !in s[..|s| - 1]
    ensures Distinct(s)
  {
    var init := s[..|s| - 1];
    assert forall i | 0 <= i < |init| :: init[i] == s[i] && init[i] in init;
  }

  // No repeats mean one way to each event

  /** In a complete response without repeats, the queue holds an event once. */
  lemma OnQueueOnce(q: Query, events: seq<EventId>, i: nat, j: nat)
    requires Distinct(events) && events == OnlySendable(q, Queue(q, events))
    requires i < j < |Queue(q, events)| && q.Sendable(Queue(q, events)[i])
    ensures Queue(q, events)[i] != Queue(q, events)[j]
  {
    var queue := Queue(q, events);
    if queue[i] == queue[j] {
      CountTwice(queue, i, j);
      SendableCount(q, queue, queue[i]);
      CountOnce(events, queue[i]);
    }
  }

  /** The place of a parent in the queue. */
  lemma ParentPlace(q: Query, events: seq<EventId>, x: EventId, e: EventId) returns (a: nat, p: nat)
    requires x in events && e in q.Prev(x)
    ensures a < |events| && events[a] == x
    ensures |q.latest| + |AllPrev(q, events[..a])| <= p < |q.latest| + |AllPrev(q, events[..a])| + |q.Prev(x)|
    ensures p < |Queue(q, events)| && Queue(q, events)[p] == e
  {
    a :| 0 <= a < |events| && events[a] == x;
    var pos :| 0 <= pos < |q.Prev(x)| && q.Prev(x)[pos] == e;
    BlockOf(q, events, a, pos);
    p := |q.latest| + |AllPrev(q, events[..a])| + pos;
  }

  /** Parents reached through different events lie at different places. */
  lemma OneParent(q: Query, events: seq<EventId>, x: EventId, y: EventId, e: EventId)
    requires Distinct(events) && events == OnlySendable(q, Queue(q, events))
    requires x in events && y in events && e in q.Prev(x) && e in q.Prev(y) && q.Sendable(e)
    ensures x == y
  {
    var a, i := ParentPlace(q, events, x, e);
    var b, j := ParentPlace(q, events, y, e);
    if a < b {
      BlocksAreOrdered(q, events, a, b);
      OnQueueOnce(q, events, i, j);
    } else if b < a {
      BlocksAreOrdered(q, events, b, a);
      OnQueueOnce(q, events, j, i);
    }
  }

  lemma LatestHasNoParent(q: Query, events: seq<EventId>, x: EventId, e: EventId)
    requires Distinct(events) && events == OnlySendable(q, Queue(q, events))
    requires x in events && e in q.Prev(x) && q.Sendable(e)
    ensures e !in q.latest
  {
    if e in q.latest {
      var i :| 0 <= i < |q.latest| && q.latest[i] == e;
      var a, j := ParentPlace(q, events, x, e);
      OnQueueOnce(q, events, i, j);
    }
  }

  /** A sendable event at the end of a path has been returned. */
  lemma PathIsReturned(q: Query, events: seq<EventId>, path: seq<EventId>)
    requires events == OnlySendable(q, Queue(q, events)) && IsPath(q, path) && q.Sendable(path[|path| - 1])
    ensures path[|path| - 1] in events
  {
    ReachedIsQueued(q, events, path);
    OnlySendableHas(q, Queue(q, events), path[|path| - 1]);
  }

  lemma InitIsPath(q: Query, path: seq<EventId>)
    requires IsPath(q, path) && |path| > 1
    ensures IsPath(q, path[..|path| - 1]) && q.Sendable(path[|path| - 2]) && path[|path| - 1] in q.Prev(path[|path| - 2])
  {
  }

  lemma {:induction false} OnePath(q: Query, events: seq<EventId>, a: seq<EventId>, b: seq<EventId>)
    requires Distinct(events) && events == OnlySendable(q, Queue(q, events))
    requires IsPath(q, a) && IsPath(q, b) && a[|a| - 1] == b[|b| - 1] && q.Sendable(a[|a| - 1])
    ensures a == b
    decreases |a|
  {
    var e := a[|a| - 1];
    if |a| > 1 {
      InitIsPath(q, a);
      PathIsReturned(q, events, a[..|a| - 1]);
      LatestHasNoParent(q, events, a[|a| - 2], e);
    }
    if |b| > 1 {
      InitIsPath(q, b);
      PathIsReturned(q, events, b[..|b| - 1]);
      LatestHasNoParent(q, events, b[|b| - 2], e);
    }
    assert |a| == 1 <==> |b| == 1;
    if |a| > 1 {
      OneParent(q, events, a[|a| - 2], b[|b| - 2], e);
      OnePath(q, events, a[..|a| - 1], b[..|b| - 1]);
      assert a == a[..|a| - 1] + [e] && b == b[..|b| - 1] + [e];
    } else {
      assert a == [e] && b == [e];
    }
  }

  lemma ParentsDiffer(q: Query, events: seq<EventId>, a: nat, i: nat, j: nat)
    requires Distinct(events) && events == OnlySendable(q, Queue(q, events)) && a < |events|
    requires i < j < |q.Prev(events[a])| && q.Sendable(q.Prev(events[a])[i])
    ensures q.Prev(events[a])[i] != q.Prev(events[a])[j]
  {
    BlockOf(q, events, a, i);
    BlockOf(q, events, a, j);
    var start := |q.latest| + |AllPrev(q, events[..a])|;
    OnQueueOnce(q, events, start + i, start + j);
  }

  lemma OnceAmongParents(q: Query, events: seq<EventId>, x: EventId)
    requires Distinct(events) && events == OnlySendable(q, Queue(q, events)) && q.Sendable(x) && Reached(q, x)
    ensures SendableOnce(q, q.Prev(x))
  {
    var path :| IsPath(q, path) && path[|path| - 1] == x;
    PathIsReturned(q, events, path);
    var a :| 0 <= a < |events| && events[a] == x;
    forall i, j | 0 <= i < j < |q.Prev(x)| && q.Sendable(q.Prev(x)[i])
      ensures q.Prev(x)[i] != q.Prev(x)[j]
    {
      ParentsDiffer(q, events, a, i, j);
    }
  }

  lemma LatestOnce(q: Query, events: seq<EventId>)
    requires Distinct(events) && events == OnlySendable(q, Queue(q, events))
    ensures SendableOnce(q, q.latest)
  {
    forall i, j | 0 <= i < j < |q.latest| && q.Sendable(q.latest[i]) ensures q.latest[i] != q.latest[j] {
      OnQueueOnce(q, events, i, j);
    }
  }

  lemma NoRepeatsNoForks(q: Query, events: seq<EventId>)
    requires Distinct(events) && events == OnlySendable(q, Queue(q, events))
    ensures NoForks(q)
  {
    LatestOnce(q, events);
    forall x | q.Sendable(x) && Reached(q, x) ensures SendableOnce(q, q.Prev(x)) {
      OnceAmongParents(q, events, x);
    }
    forall a, b | IsPath(q, a) && IsPath(q, b) && a[|a| - 1] == b[|b| - 1] && q.Sendable(a[|a| - 1]) ensures a == b {
      OnePath(q, events, a, b);
    }
  }

  /** A complete response repeats no event if and only if each event that can be
      sent is led to in one way. */
  lemma RepeatsExactly(q: Query, events: seq<EventId>, n: nat)
    requires WalkedTo(q, events, n) && Stepwise(q, events) && n == |Queue(q, events)|
    ensures Distinct(events) <==> NoForks(q)
  {
    assert Queue(q, events)[..n] == Queue(q, events);
    if Distinct(events) {
      NoRepeatsNoForks(q, events);
    } else if NoForks(q) {
      NoForksNoRepeats(q, events);
    }
  }

  // ---------------------------------------------------------------------
  // A diamond
  // ---------------------------------------------------------------------

  /** Two latest events with one parent. */
  function Diamond(a: EventId, b: EventId, c: EventId, limit: nat): Query {
    var stored := map[a := Pdu(Some(0), Some([c])), b := Pdu(Some(0), Some([c])), c := Pdu(Some(0), Some([]))];
    Query(0, [a, b], [], limit, stored, {a, b, c})
  }

  predicate Good(q: Query, e: EventId, prev: seq<EventId>) {
    q.Sendable(e) && !q.Unreadable(e) && q.Prev(e) == prev
  }

  lemma DiamondIsGood(a: EventId, b: EventId, c: EventId, limit: nat)
    requires a != b && b != c && a != c
    ensures var q := Diamond(a, b, c, limit); Good(q, a, [c]) && Good(q, b, [c]) && Good(q, c, [])
  {
  }

  /** The walk over two latest events with one parent. */
  lemma ParentTwice(q: Query, a: EventId, b: EventId, c: EventId)
    requires q.latest == [a, b] && q.limit >= 4 && Good(q, a, [c]) && Good(q, b, [c]) && Good(q, c, [])
    ensures OnTheWay(q, [a, b, c, c], 4, [a, b, c, c])
  {
    ParentQueued(q, a, b, c);
    var all := [a, b, c, c];
    ReturnStep(q, [a, b], 2, c, all, [a, b, c], all);
    ReturnStep(q, [a, b, c], 3, c, all, all, all);
  }

  lemma ParentQueued(q: Query, a: EventId, b: EventId, c: EventId)
    requires q.latest == [a, b] && q.limit >= 4 && Good(q, a, [c]) && Good(q, b, [c])
    ensures OnTheWay(q, [a, b], 2, [a, b, c, c])
  {
    WalkBegins(q);
    ReturnStep(q, [], 0, a, [a, b], [a], [a, b, c]);
    ReturnStep(q, [a], 1, b, [a, b, c], [a, b], [a, b, c, c]);
  }

  /** The parent comes back twice, and counts twice against the limit. */
  lemma DiamondRepeats(a: EventId, b: EventId, c: EventId, limit: nat)
    requires a != b && b != c && a != c && limit >= 4
    ensures var q, events := Diamond(a, b, c, limit), [a, b, c, c];
            WalkedTo(q, events, 4) && Stepwise(q, events) && Queue(q, events) == events
  {
    DiamondIsGood(a, b, c, limit);
    ParentTwice(Diamond(a, b, c, limit), a, b, c);
  }
}
