/** `sync_events_v4_route` up to the rooms it has to load: it fills the request up
    from the connection's cache, collects what every list and subscription asks
    of each room, and writes the cache back. */
module SlidingSyncRoute {

  import opened Collections
  import opened SlidingSync

  /** User, device and connection id together. */
  type ConnKey = nat

  const U64_MAX: U64 := 0xFFFF_FFFF_FFFF_FFFF

  // ---------------------------------------------------------------------
  // What is asked of a room
  // ---------------------------------------------------------------------

  datatype Ask = Ask(required: set<nat>, limit: nat, since: U64)

  datatype Want = Want(room: RoomId, ask: Ask)

  type Todo = map<RoomId, Ask>

  function Limit(timelineLimit: Option<nat>): nat {
    var limit := if timelineLimit.Some? then timelineLimit.value else 10;
    if limit < 100 then limit else 100
  }

  function Since(known: Known, room: RoomId): U64 {
    if room in known then known[room] else 0
  }

  function ListAsk(list: SyncList, known: Known, room: RoomId): Ask {
    Ask(Elements(list.requiredState), Limit(list.timelineLimit), Since(known, room))
  }

  function SubscriptionAsk(sub: Subscription, known: Known, room: RoomId): Ask {
    Ask(Elements(sub.requiredState), Limit(sub.timelineLimit), Since(known, room))
  }

  function ListWants(list: SyncList, known: Known, window: set<RoomId>): set<Want> {
    set r | r in window :: Want(r, ListAsk(list, known, r))
  }

  function AllListWants(lists: map<ListId, SyncList>, known: map<ListId, Known>, joined: seq<RoomId>): set<Want>
    requires Servable(lists, joined)
  {
    set id, r | id in lists && r in ListWindow(lists[id], joined) :: Want(r, ListAsk(lists[id], KnownIn(known, id), r))
  }

  function SubscriptionWants(subs: map<RoomId, Subscription>, known: Known, rooms: set<RoomId>): set<Want> {
    set r | r in subs && r in rooms :: Want(r, SubscriptionAsk(subs[r], known, r))
  }

  /** Everything a request asks for. Unsubscribed rooms still count this time. */
  function Wants(lists: map<ListId, SyncList>, subs: map<RoomId, Subscription>, known: map<ListId, Known>, rooms: Rooms): set<Want>
    requires Servable(lists, rooms.joined)
  {
    AllListWants(lists, known, rooms.joined) + SubscriptionWants(subs, KnownIn(known, SUBSCRIPTIONS), rooms.existing)
  }

  /** One room's entry: the smallest since, the largest limit and all required
      state of the wants for it. */
  ghost predicate Covers(entry: Ask, wants: set<Want>, room: RoomId) {
    && (forall w | w in wants && w.room == room ::
          entry.since <= w.ask.since && w.ask.limit <= entry.limit && w.ask.required <= entry.required)
    && (exists w :: w in wants && w.room == room && w.ask.since == entry.since)
    && (exists w :: w in wants && w.room == room && w.ask.limit == entry.limit)
    && (forall x | x in entry.required :: exists w :: w in wants && w.room == room && x in w.ask.required)
  }

  ghost predicate Summarises(todo: Todo, wants: set<Want>) {
    && (forall w | w in wants :: w.room in todo)
    && (forall room | room in todo :: Covers(todo[room], wants, room))
  }

  /** What one list or subscription asks of a room: ten events unless it says
      otherwise, a hundred at most, since the number it knows the room under, if any. */
  ghost predicate Asks(w: Want, requiredState: seq<nat>, timelineLimit: Option<nat>, known: Known) {
    && (forall x :: x in w.ask.required <==> x in requiredState)
    && (timelineLimit.None? ==> w.ask.limit == 10)
    && (timelineLimit.Some? && timelineLimit.value <= 100 ==> w.ask.limit == timelineLimit.value)
    && (timelineLimit.Some? && timelineLimit.value > 100 ==> w.ask.limit == 100)
    && w.ask.since == if w.room in known then known[w.room] else 0
  }

  ghost predicate AskedByList(w: Want, lists: map<ListId, SyncList>, known: map<ListId, Known>, joined: seq<RoomId>, id: ListId) {
    id in lists && Shows(lists[id], joined, w.room) && Asks(w, lists[id].requiredState, lists[id].timelineLimit, KnownIn(known, id))
  }

  /** A list that shows the room asks, or a subscription to it. */
  ghost predicate Asked(w: Want, lists: map<ListId, SyncList>, subs: map<RoomId, Subscription>, known: map<ListId, Known>, rooms: Rooms) {
    || (exists id :: AskedByList(w, lists, known, rooms.joined, id))
    || (w.room in subs && w.room in rooms.existing
        && Asks(w, subs[w.room].requiredState, subs[w.room].timelineLimit, KnownIn(known, SUBSCRIPTIONS)))
  }

  lemma ListAskExactly(w: Want, list: SyncList, known: Known)
    ensures w == Want(w.room, ListAsk(list, known, w.room)) <==> Asks(w, list.requiredState, list.timelineLimit, known)
  {
    assert Elements(list.requiredState) == w.ask.required <==> forall x :: x in w.ask.required <==> x in list.requiredState;
  }

  lemma SubscriptionAskExactly(w: Want, sub: Subscription, known: Known)
    ensures w == Want(w.room, SubscriptionAsk(sub, known, w.room)) <==> Asks(w, sub.requiredState, sub.timelineLimit, known)
  {
    assert Elements(sub.requiredState) == w.ask.required <==> forall x :: x in w.ask.required <==> x in sub.requiredState;
  }

  lemma AllListWantsExactly(lists: map<ListId, SyncList>, known: map<ListId, Known>, joined: seq<RoomId>, w: Want)
    requires Servable(lists, joined)
    ensures w in AllListWants(lists, known, joined) <==> exists id :: AskedByList(w, lists, known, joined, id)
  {
    if w in AllListWants(lists, known, joined) {
      var id, r :| id in lists && r in ListWindow(lists[id], joined) && w == Want(r, ListAsk(lists[id], KnownIn(known, id), r));
      ListWindowExactly(lists[id], joined, w.room);
      ListAskExactly(w, lists[id], KnownIn(known, id));
      assert AskedByList(w, lists, known, joined, id);
    }
    if id :| AskedByList(w, lists, known, joined, id) {
      ListWindowExactly(lists[id], joined, w.room);
      ListAskExactly(w, lists[id], KnownIn(known, id));
    }
  }

  /** What is asked for, said without windows and clamping. */
  lemma WantsExactly(lists: map<ListId, SyncList>, subs: map<RoomId, Subscription>, known: map<ListId, Known>, rooms: Rooms, w: Want)
    requires Servable(lists, rooms.joined)
    ensures w in Wants(lists, subs, known, rooms) <==> Asked(w, lists, subs, known, rooms)
  {
    AllListWantsExactly(lists, known, rooms.joined, w);
    if w.room in subs {
      SubscriptionAskExactly(w, subs[w.room], KnownIn(known, SUBSCRIPTIONS));
    }
    SubscriptionWantsExactly(subs, KnownIn(known, SUBSCRIPTIONS), rooms.existing, w);
  }

  lemma SubscriptionWantsExactly(subs: map<RoomId, Subscription>, known: Known, rooms: set<RoomId>, w: Want)
    ensures w in SubscriptionWants(subs, known, rooms) <==>
              w.room in subs && w.room in rooms && w == Want(w.room, SubscriptionAsk(subs[w.room], known, w.room))
  {
  }

  /** The entries sum up what the lists and subscriptions ask for, and nothing else. */
  ghost predicate SumsUp(todo: Todo, lists: map<ListId, SyncList>, subs: map<RoomId, Subscription>, known: map<ListId, Known>, rooms: Rooms) {
    exists wants: set<Want> :: AllAsked(wants, lists, subs, known, rooms) && Summarises(todo, wants)
  }

  ghost predicate AllAsked(wants: set<Want>, lists: map<ListId, SyncList>, subs: map<RoomId, Subscription>, known: map<ListId, Known>, rooms: Rooms) {
    forall w :: w in wants <==> Asked(w, lists, subs, known, rooms)
  }

  lemma SummarySumsUp(todo: Todo, lists: map<ListId, SyncList>, subs: map<RoomId, Subscription>, known: map<ListId, Known>, rooms: Rooms)
    requires Servable(lists, rooms.joined) && Summarises(todo, Wants(lists, subs, known, rooms))
    ensures SumsUp(todo, lists, subs, known, rooms)
  {
    forall w ensures w in Wants(lists, subs, known, rooms) <==> Asked(w, lists, subs, known, rooms) {
      WantsExactly(lists, subs, known, rooms, w);
    }
    assert AllAsked(Wants(lists, subs, known, rooms), lists, subs, known, rooms);
  }

  function Combine(a: Ask, b: Ask): Ask {
    Ask(a.required + b.required,
        if a.limit < b.limit then b.limit else a.limit,
        if b.since < a.since then b.since else a.since)
  }

  function Added(todo: Todo, room: RoomId, ask: Ask): Todo {
    todo[room := Combine(if room in todo then todo[room] else Ask({}, 0, U64_MAX), ask)]
  }

  lemma CombineCovers(entry: Ask, wants: set<Want>, room: RoomId, ask: Ask)
    requires Covers(entry, wants, room) || (entry == Ask({}, 0, U64_MAX) && forall w | w in wants :: w.room != room)
    ensures Covers(Combine(entry, ask), wants + {Want(room, ask)}, room)
  {
    var combined, all, new' := Combine(entry, ask), wants + {Want(room, ask)}, Want(room, ask);
    assert new' in all;
    if combined.since != ask.since {
      var w :| w in wants && w.room == room && w.ask.since == entry.since;
      assert w in all;
    }
    if combined.limit != ask.limit {
      var w :| w in wants && w.room == room && w.ask.limit == entry.limit;
      assert w in all;
    }
    forall x | x in combined.required
      ensures exists w :: w in all && w.room == room && x in w.ask.required
    {
      if x in ask.required {
        assert x in new'.ask.required;
      } else {
        var w :| w in wants && w.room == room && x in w.ask.required;
        assert w in all;
      }
    }
  }

  lemma OtherWantsDoNotMatter(entry: Ask, wants: set<Want>, room: RoomId, w: Want)
    requires Covers(entry, wants, room) && w.room != room
    ensures Covers(entry, wants + {w}, room)
  {
    var all := wants + {w};
    var a :| a in wants && a.room == room && a.ask.since == entry.since;
    var b :| b in wants && b.room == room && b.ask.limit == entry.limit;
    assert a in all && b in all;
    forall x | x in entry.required
      ensures exists v :: v in all && v.room == room && x in v.ask.required
    {
      var v :| v in wants && v.room == room && x in v.ask.required;
      assert v in all;
    }
  }

  lemma AddedSummarises(todo: Todo, wants: set<Want>, room: RoomId, ask: Ask)
    requires Summarises(todo, wants)
    ensures Summarises(Added(todo, room, ask), wants + {Want(room, ask)})
  {
    var after := Added(todo, room, ask);
    forall r | r in after
      ensures Covers(after[r], wants + {Want(room, ask)}, r)
    {
      if r == room {
        CombineCovers(if room in todo then todo[room] else Ask({}, 0, U64_MAX), wants, room, ask);
      } else {
        OtherWantsDoNotMatter(todo[r], wants, r, Want(room, ask));
      }
    }
  }

  // ---------------------------------------------------------------------
  // Wants in the order the handler meets them
  // ---------------------------------------------------------------------

  function TodoOf(log: seq<Want>): Todo {
    if log == [] then map[]
    else
      var last := log[|log| - 1];
      Added(TodoOf(log[..|log| - 1]), last.room, last.ask)
  }

  function In(log: seq<Want>): set<Want> {
    set w | w in log
  }

  lemma OneMore(log: seq<Want>, w: Want)
    ensures TodoOf(log + [w]) == Added(TodoOf(log), w.room, w.ask)
    ensures In(log + [w]) == In(log) + {w}
  {
    assert (log + [w])[..|log|] == log;
  }

  lemma LastWant(log: seq<Want>)
    requires log != []
    ensures var n := |log| - 1;
            In(log) == In(log[..n]) + {log[n]} && In(log[..n]) + {log[n]} == In(log[..n]) + {Want(log[n].room, log[n].ask)}
  {
    var n := |log| - 1;
    assert log == log[..n] + [log[n]];
  }

  /** Whatever the order, the entries sum up the wants. */
  lemma {:induction false} TodoSummarises(log: seq<Want>)
    ensures Summarises(TodoOf(log), In(log))
  {
    if log != [] {
      var n := |log| - 1;
      TodoSummarises(log[..n]);
      AddedSummarises(TodoOf(log[..n]), In(log[..n]), log[n].room, log[n].ask);
      LastWant(log);
    }
  }

  // ---------------------------------------------------------------------
  // The loops of the handler
  // ---------------------------------------------------------------------

  lemma WantsOfOneMoreRoom(wants: set<Want>, list: SyncList, known: Known, window: set<RoomId>, room: RoomId)
    ensures wants + ListWants(list, known, window + {room})
         == wants + ListWants(list, known, window) + {Want(room, ListAsk(list, known, room))}
  {
  }

  function Between(joined: seq<RoomId>, lo: nat, hi: nat): set<RoomId>
    requires lo <= hi <= |joined|
  {
    set j | lo <= j < hi :: joined[j]
  }

  lemma BetweenOneMore(window: set<RoomId>, joined: seq<RoomId>, lo: nat, hi: nat)
    requires lo <= hi < |joined|
    ensures window + Between(joined, lo, hi + 1) == window + Between(joined, lo, hi) + {joined[hi]}
  {
  }

  lemma WholeRange(window: set<RoomId>, joined: seq<RoomId>, r: (nat, nat))
    requires joined != []
    ensures var c := Clamp(r, |joined|);
            window + Between(joined, c.0, c.0) == window && Between(joined, c.0, c.1 + 1) == Slice(joined, r)
  {
  }

  /** The rooms of one range. */
  method AskRange(todo: Todo, ghost log: seq<Want>, list: SyncList, known: Known, joined: seq<RoomId>, r: (nat, nat),
                  window: set<RoomId>, ghost wants: set<Want>)
    returns (todo': Todo, ghost log': seq<Want>, window': set<RoomId>)
    requires joined != [] && todo == TodoOf(log) && In(log) == wants + ListWants(list, known, window)
    ensures window' == window + Slice(joined, r)
    ensures todo' == TodoOf(log') && In(log') == wants + ListWants(list, known, window')
  {
    var c := Clamp(r, |joined|);
    todo', log', window' := todo, log, window;
    WholeRange(window, joined, r);
    for i := c.0 to c.1 + 1
      invariant window' == window + Between(joined, c.0, i)
      invariant todo' == TodoOf(log') && In(log') == wants + ListWants(list, known, window')
    {
      var ask := ListAsk(list, known, joined[i]);
      WantsOfOneMoreRoom(wants, list, known, window', joined[i]);
      BetweenOneMore(window, joined, c.0, i);
      OneMore(log', Want(joined[i], ask));
      todo', window' := Added(todo', joined[i], ask), window' + {joined[i]};
      log' := log' + [Want(joined[i], ask)];
    }
  }

  /** All ranges of one list. */
  method AskList(todo: Todo, ghost log: seq<Want>, list: SyncList, known: Known, joined: seq<RoomId>)
    returns (todo': Todo, ghost log': seq<Want>, window: set<RoomId>)
    requires (list.ranges != [] ==> joined != []) && todo == TodoOf(log)
    ensures window == Window(list.ranges, joined, |list.ranges|)
    ensures todo' == TodoOf(log') && In(log') == In(log) + ListWants(list, known, window)
  {
    todo', log', window := todo, log, {};
    assert In(log) + ListWants(list, known, {}) == In(log);
    for k := 0 to |list.ranges|
      invariant window == Window(list.ranges, joined, k)
      invariant todo' == TodoOf(log') && In(log') == In(log) + ListWants(list, known, window)
    {
      todo', log', window := AskRange(todo', log', list, known, joined, list.ranges[k], window, In(log));
    }
  }

  lemma WantsOfOneMoreSubscription(wants: set<Want>, subs: map<RoomId, Subscription>, known: Known, rooms: set<RoomId>, room: RoomId)
    requires room in subs
    ensures wants + SubscriptionWants(subs, known, rooms + {room})
         == wants + SubscriptionWants(subs, known, rooms) + {Want(room, SubscriptionAsk(subs[room], known, room))}
  {
  }

  lemma WantsOfSubscribed(wants: set<Want>, subs: map<RoomId, Subscription>, known: Known, existing: set<RoomId>)
    ensures SubscriptionWants(subs, known, subs.Keys * existing) == SubscriptionWants(subs, known, existing)
    ensures wants + SubscriptionWants(subs, known, {}) == wants
  {
  }

  method AskSubscriptions(todo: Todo, ghost log: seq<Want>, subs: map<RoomId, Subscription>, known: Known, existing: set<RoomId>)
    returns (todo': Todo, ghost log': seq<Want>, subscribed: set<RoomId>)
    requires todo == TodoOf(log)
    ensures subscribed == subs.Keys * existing
    ensures todo' == TodoOf(log') && In(log') == In(log) + SubscriptionWants(subs, known, existing)
  {
    todo', log', subscribed := todo, log, {};
    var rest := subs.Keys;
    WantsOfSubscribed(In(log), subs, known, existing);
    while rest != {}
      invariant rest <= subs.Keys
      invariant subscribed == (subs.Keys - rest) * existing
      invariant todo' == TodoOf(log') && In(log') == In(log) + SubscriptionWants(subs, known, subscribed)
      decreases rest
    {
      var room :| room in rest;
      rest := rest - {room};
      if room in existing {
        var ask := SubscriptionAsk(subs[room], known, room);
        WantsOfOneMoreSubscription(In(log), subs, known, subscribed, room);
        OneMore(log', Want(room, ask));
        todo', subscribed := Added(todo', room, ask), subscribed + {room};
        log' := log' + [Want(room, ask)];
      }
    }
    assert subscribed == subs.Keys * existing;
  }

  /** The lists of a request of which those in `rest` are not yet filled up. */
  function PartlyMerged(cached: map<ListId, SyncList>, lists: map<ListId, SyncList>, rest: set<ListId>): map<ListId, SyncList> {
    map id | id in lists :: if id in rest then lists[id] else MergedWith(cached, id, lists[id])
  }

  lemma OneMoreFilled(cached: map<ListId, SyncList>, lists: map<ListId, SyncList>, rest: set<ListId>, id: ListId)
    requires id in rest && id in lists
    ensures PartlyMerged(cached, lists, rest - {id})
         == PartlyMerged(cached, lists, rest)[id := MergedWith(cached, id, lists[id])]
  {
  }

  lemma OneMoreCached(cached: map<ListId, SyncList>, merged: map<ListId, SyncList>, rest: set<ListId>, id: ListId)
    requires id in rest && id in merged
    ensures cached + Except(merged, rest - {id}) == (cached + Except(merged, rest))[id := merged[id]]
  {
    ExceptOneLess(merged, rest, id);
  }

  lemma OneMoreMerged(cached: map<ListId, SyncList>, lists: map<ListId, SyncList>, rest: set<ListId>, id: ListId)
    requires id in rest && id in lists
    ensures PartlyMerged(cached, lists, rest - {id})
         == PartlyMerged(cached, lists, rest)[id := MergedWith(cached, id, lists[id])]
    ensures var merged := Merged(cached, lists);
            cached + Except(merged, rest - {id}) == (cached + Except(merged, rest))[id := merged[id]]
    ensures MergedWith(cached + Except(Merged(cached, lists), rest), id, lists[id]) == MergedWith(cached, id, lists[id])
  {
    OneMoreFilled(cached, lists, rest, id);
    OneMoreCached(cached, Merged(cached, lists), rest, id);
  }

  lemma AllMerged(cached: map<ListId, SyncList>, lists: map<ListId, SyncList>)
    ensures PartlyMerged(cached, lists, lists.Keys) == lists && PartlyMerged(cached, lists, {}) == Merged(cached, lists)
    ensures cached + Except(Merged(cached, lists), lists.Keys) == cached
    ensures Except(Merged(cached, lists), {}) == Merged(cached, lists)
  {
  }

  /** Every list of the request is filled up from the cache and cached. */
  method MergeLists(cached: map<ListId, SyncList>, lists: map<ListId, SyncList>)
    returns (filled: map<ListId, SyncList>, cached': map<ListId, SyncList>)
    ensures filled == Merged(cached, lists)
    ensures cached' == cached + filled
  {
    filled, cached' := lists, cached;
    var rest := lists.Keys;
    AllMerged(cached, lists);
    while rest != {}
      invariant rest <= lists.Keys
      invariant filled == PartlyMerged(cached, lists, rest)
      invariant cached' == cached + Except(Merged(cached, lists), rest)
      decreases rest
    {
      var id :| id in rest;
      OneMoreMerged(cached, lists, rest, id);
      filled := filled[id := MergedWith(cached', id, filled[id])];
      cached' := cached'[id := filled[id]];
      rest := rest - {id};
    }
  }

  function Remaining(rooms: set<RoomId>, unsubscribe: seq<RoomId>): set<RoomId> {
    set r | r in rooms && r !in unsubscribe
  }

  method Unsubscribe(unsubscribe: seq<RoomId>, subs: map<RoomId, Subscription>, subscribed: set<RoomId>)
    returns (subs': map<RoomId, Subscription>, subscribed': set<RoomId>)
    ensures subs' == Unsubscribed(subs, unsubscribe)
    ensures subscribed' == Remaining(subscribed, unsubscribe)
  {
    subs', subscribed' := subs, subscribed;
    for i := 0 to |unsubscribe|
      invariant subs' == Unsubscribed(subs, unsubscribe[..i])
      invariant subscribed' == Remaining(subscribed, unsubscribe[..i])
    {
      assert unsubscribe[..i + 1] == unsubscribe[..i] + [unsubscribe[i]];
      subs', subscribed' := subs' - {unsubscribe[i]}, subscribed' - {unsubscribe[i]};
    }
    assert unsubscribe[..|unsubscribe|] == unsubscribe;
  }

  // ---------------------------------------------------------------------
  // The cache of all connections
  // ---------------------------------------------------------------------

  function Except(lists: map<ListId, SyncList>, rest: set<ListId>): map<ListId, SyncList> {
    map id | id in lists && id !in rest :: lists[id]
  }

  lemma ExceptOneLess(lists: map<ListId, SyncList>, rest: set<ListId>, id: ListId)
    requires id in rest && id in lists
    ensures Except(lists, rest - {id}) == Except(lists, rest)[id := lists[id]]
    ensures id !in Except(lists, rest)
  {
  }

  predicate Part(done: map<ListId, SyncList>, lists: map<ListId, SyncList>) {
    forall id | id in done :: id in lists && done[id] == lists[id]
  }

  lemma ServableOneMore(lists: map<ListId, SyncList>, rest: set<ListId>, id: ListId, joined: seq<RoomId>)
    requires id in rest && id in lists && Servable(Except(lists, rest), joined) && HasRooms(lists[id], joined)
    ensures Servable(Except(lists, rest)[id := lists[id]], joined) && Servable(Except(lists, rest - {id}), joined)
  {
    ExceptOneLess(lists, rest, id);
  }

  lemma ExceptAllOrNone(lists: map<ListId, SyncList>)
    ensures Except(lists, lists.Keys) == map[] && Except(lists, {}) == lists
  {
  }

  lemma NoListsYet(known: map<ListId, Known>, joined: seq<RoomId>, pos: U64)
    ensures AllListWants(map[], known, joined) == {} && AfterLists(known, map[], joined, pos) == known
  {
  }

  /** The connections after one of them has new known rooms. */
  function WithKnown(connections: map<ConnKey, Cache>, conn: Option<ConnKey>, known: map<ListId, Known>): map<ConnKey, Cache>
    requires conn.Some? ==> conn.value in connections
  {
    if conn.None? then connections
    else connections[conn.value := connections[conn.value].(knownRooms := known)]
  }

  lemma WantsOfOneMoreList(done: map<ListId, SyncList>, known: map<ListId, Known>, joined: seq<RoomId>, id: ListId, list: SyncList)
    requires id !in done && Servable(done, joined)
    requires HasRooms(list, joined)
    ensures Servable(done[id := list], joined)
    ensures AllListWants(done[id := list], known, joined)
         == AllListWants(done, known, joined) + ListWants(list, KnownIn(known, id), ListWindow(list, joined))
  {
    var more := done[id := list];
    forall w | w in AllListWants(done, known, joined) + ListWants(list, KnownIn(known, id), ListWindow(list, joined))
      ensures w in AllListWants(more, known, joined)
    {
      if w in AllListWants(done, known, joined) {
        var i, r :| i in done && r in ListWindow(done[i], joined) && w == Want(r, ListAsk(done[i], KnownIn(known, i), r));
        assert i in more && more[i] == done[i];
      } else {
        assert id in more && more[id] == list && w.room in ListWindow(more[id], joined);
      }
    }
  }

  lemma OtherListsUnchanged(done: map<ListId, SyncList>, known: map<ListId, Known>, joined: seq<RoomId>, pos: U64, id: ListId, list: SyncList, i: ListId)
    requires Servable(done, joined) && Servable(done[id := list], joined) && i != id
    ensures Updates(done[id := list], i) == Updates(done, i)
    ensures AfterList(known, done[id := list], joined, pos, i) == AfterList(known, done, joined, pos, i)
  {
  }

  lemma KnownAfterOneMoreList(done: map<ListId, SyncList>, known: map<ListId, Known>, joined: seq<RoomId>, pos: U64, id: ListId, list: SyncList)
    requires id !in done && Servable(done, joined) && Servable(done[id := list], joined) && HasRooms(list, joined)
    ensures KnownIn(AfterLists(known, done, joined, pos), id) == KnownIn(known, id)
    ensures AfterLists(known, done[id := list], joined, pos)
         == if InviteList(list) then AfterLists(known, done, joined, pos)
            else AfterLists(known, done, joined, pos)[id := NewKnown(KnownIn(known, id), ListWindow(list, joined), pos)]
  {
    var more := done[id := list];
    var before, after := AfterLists(known, done, joined, pos), AfterLists(known, more, joined, pos);
    assert Updates(more, id) == !InviteList(list) && !Updates(done, id);
    forall i: ListId | i != id
      ensures i in after <==> i in before
      ensures i in after ==> after[i] == before[i]
    {
      OtherListsUnchanged(done, known, joined, pos, id, list, i);
    }
    SameExceptAt(before, after, id);
  }

  lemma SameExceptAt(before: map<ListId, Known>, after: map<ListId, Known>, id: ListId)
    requires forall i | i in before && i != id :: i in after && after[i] == before[i]
    requires forall i | i in after && i != id :: i in before
    ensures id in after ==> after == before[id := after[id]]
    ensures id !in after && id !in before ==> after == before
    ensures id in after && id in before && after[id] == before[id] ==> after == before
  {
  }

  /** The last of several writes to one connection is the one that counts. */
  lemma LastWriteCounts(connections: map<ConnKey, Cache>, conn: ConnKey, a: Cache, b: Cache)
    ensures connections[conn := a][conn := b] == connections[conn := b]
    ensures (connections - {conn})[conn := b] == connections[conn := b]
  {
  }

  /** The cache once the request has been filled up from it. */
  function Filled(c: Cache, q: Request): Cache {
    Cache(Before(c, q).lists + Lists(c, q), Subscribed(c, q), Before(c, q).knownRooms,
          MergeExtensions(q.extensions, Before(c, q).extensions))
  }

  lemma ServedIs(c: Cache, q: Request, rooms: Rooms, subscribed: set<RoomId>)
    requires Servable(Lists(c, q), rooms.joined)
    requires subscribed == Remaining(Subscribed(c, q).Keys * rooms.existing, q.unsubscribe)
    ensures var known := AfterLists(Before(c, q).knownRooms, Lists(c, q), rooms.joined, q.pos);
            Serve(c, q, rooms) == Filled(c, q).(
              subscriptions := Unsubscribed(Subscribed(c, q), q.unsubscribe),
              knownRooms := known[SUBSCRIPTIONS := NewKnown(KnownIn(known, SUBSCRIPTIONS), subscribed, q.pos)])
  {
    assert subscribed == SubscribedRooms(c, q, rooms);
  }

  class Users {
    var connections: map<ConnKey, Cache>

    constructor ()
      ensures connections == map[]
    {
      connections := map[];
    }

    function CacheOf(conn: ConnKey): Cache
      reads this
    {
      if conn in connections then connections[conn] else EMPTY
    }

    method ForgetConnection(conn: ConnKey)
      modifies this
      ensures connections == old(connections) - {conn}
    {
      connections := connections - {conn};
    }

    /** `update_sync_request_with_cache`: returns the request as filled up, and the
        known rooms as they were. */
    method UpdateRequestWithCache(conn: ConnKey, q: Request) returns (filled: Request, known: map<ListId, Known>)
      modifies this
      ensures known == old(CacheOf(conn)).knownRooms
      ensures filled == q.(
                lists := Merged(old(CacheOf(conn)).lists, q.lists),
                subscriptions := old(CacheOf(conn)).subscriptions + q.subscriptions,
                extensions := MergeExtensions(q.extensions, old(CacheOf(conn)).extensions))
      ensures connections == old(connections)[conn := Cache(
                old(CacheOf(conn)).lists + filled.lists, filled.subscriptions, known, filled.extensions)]
    {
      var cached := CacheOf(conn);
      var lists, cachedLists := MergeLists(cached.lists, q.lists);
      var subscriptions := cached.subscriptions + q.subscriptions;
      assert q.subscriptions + subscriptions == subscriptions;
      filled := q.(lists := lists, subscriptions := q.subscriptions + subscriptions,
                   extensions := MergeExtensions(q.extensions, cached.extensions));
      known := cached.knownRooms;
      connections := connections[conn := Cache(cachedLists, subscriptions, known, filled.extensions)];
    }

    /** `update_sync_subscriptions`. */
    method UpdateSubscriptions(conn: ConnKey, subscriptions: map<RoomId, Subscription>)
      modifies this
      ensures connections == old(connections)[conn := old(CacheOf(conn)).(subscriptions := subscriptions)]
    {
      connections := connections[conn := CacheOf(conn).(subscriptions := subscriptions)];
    }

    /** `update_sync_known_rooms`, with its two loops. */
    method UpdateKnownRooms(conn: ConnKey, id: ListId, window: set<RoomId>, pos: U64)
      modifies this
      ensures var c := old(CacheOf(conn));
              connections == old(connections)[conn := c.(
                knownRooms := c.knownRooms[id := NewKnown(KnownIn(c.knownRooms, id), window, pos)])]
    {
      var cached := CacheOf(conn);
      var before := KnownIn(cached.knownRooms, id);
      var list := before;
      var rest := list.Keys;
      while rest != {}
        invariant rest <= before.Keys == list.Keys
        invariant forall r | r in list :: list[r] == if r in rest then before[r] else Outdated(before, window)[r]
        decreases rest
      {
        var room :| room in rest;
        rest := rest - {room};
        if room !in window {
          list := list[room := 0];
        }
      }
      assert list == Outdated(before, window);
      var news := window;
      while news != {}
        invariant news <= window
        invariant list == Outdated(before, window) + map r | r in window && r !in news :: pos
        decreases news
      {
        var room :| room in news;
        news := news - {room};
        list := list[room := pos];
      }
      assert list == NewKnown(before, window, pos);
      connections := connections[conn := cached.(knownRooms := cached.knownRooms[id := list])];
    }

    /** The lists of a request, with what they leave in the cache. A range cannot be
        clamped to no rooms: then the handler panics, after some of the lists. */
    method AskLists(conn: Option<ConnKey>, lists: map<ListId, SyncList>, known: map<ListId, Known>, joined: seq<RoomId>, pos: U64)
      returns (panics: bool, todo: Todo, ghost log: seq<Want>, ghost done: map<ListId, SyncList>)
      requires conn.Some? ==> conn.value in connections && connections[conn.value].knownRooms == known
      modifies this
      ensures panics <==> !Servable(lists, joined)
      ensures Part(done, lists) && Servable(done, joined) && (!panics ==> done == lists)
      ensures todo == TodoOf(log) && In(log) == AllListWants(done, known, joined)
      ensures connections == WithKnown(old(connections), conn, AfterLists(known, done, joined, pos))
    {
      todo, log := map[], [];
      var rest := lists.Keys;
      ExceptAllOrNone(lists);
      NoListsYet(known, joined, pos);
      while rest != {}
        invariant rest <= lists.Keys
        invariant Servable(Except(lists, rest), joined)
        invariant todo == TodoOf(log) && In(log) == AllListWants(Except(lists, rest), known, joined)
        invariant connections == WithKnown(old(connections), conn, AfterLists(known, Except(lists, rest), joined, pos))
        decreases rest
      {
        var id :| id in rest;
        if !HasRooms(lists[id], joined) {
          return true, todo, log, Except(lists, rest);
        }
        ServableOneMore(lists, rest, id, joined);
        ExceptOneLess(lists, rest, id);
        if conn.Some? {
          LastWriteCounts(old(connections), conn.value, connections[conn.value], connections[conn.value].(
            knownRooms := AfterLists(known, Except(lists, rest - {id}), joined, pos)));
        }
        todo, log := AskOneList(conn, todo, log, id, lists[id], known, joined, pos, Except(lists, rest));
        rest := rest - {id};
      }
      panics, done := false, lists;
    }

    method AskOneList(conn: Option<ConnKey>, todo: Todo, ghost log: seq<Want>, id: ListId, list: SyncList, known: map<ListId, Known>,
                      joined: seq<RoomId>, pos: U64, ghost done: map<ListId, SyncList>)
      returns (todo': Todo, ghost log': seq<Want>)
      requires id !in done && Servable(done, joined) && Servable(done[id := list], joined) && HasRooms(list, joined)
      requires todo == TodoOf(log) && In(log) == AllListWants(done, known, joined)
      requires conn.Some? ==>
                 conn.value in connections && connections[conn.value].knownRooms == AfterLists(known, done, joined, pos)
      modifies this
      ensures todo' == TodoOf(log') && In(log') == AllListWants(done[id := list], known, joined)
      ensures connections == WithKnown(old(connections), conn, AfterLists(known, done[id := list], joined, pos))
    {
      WantsOfOneMoreList(done, known, joined, id, list);
      KnownAfterOneMoreList(done, known, joined, pos, id, list);
      todo', log' := todo, log;
      if !InviteList(list) {
        var window;
        todo', log', window := AskList(todo, log, list, KnownIn(known, id), joined);
        if conn.Some? {
          UpdateKnownRooms(conn.value, id, window, pos);
        }
      }
    }

    /** A request at position 0 first drops the connection. */
    method FillUp(conn: ConnKey, q: Request) returns (filled: Request, known: map<ListId, Known>)
      modifies this
      ensures var c := old(CacheOf(conn));
              && known == Before(c, q).knownRooms
              && filled.lists == Lists(c, q) && filled.subscriptions == Subscribed(c, q)
              && connections == old(connections)[conn := Filled(c, q)]
    {
      ghost var before := connections;
      if q.pos == 0 {
        ForgetConnection(conn);
      }
      filled, known := UpdateRequestWithCache(conn, q);
      LastWriteCounts(before, conn, EMPTY, connections[conn]);
    }

    method SaveSubscriptions(conn: ConnKey, subscriptions: map<RoomId, Subscription>, subscribed: set<RoomId>, pos: U64)
      modifies this
      ensures var c := old(CacheOf(conn));
              connections == old(connections)[conn := c.(
                subscriptions := subscriptions,
                knownRooms := c.knownRooms[SUBSCRIPTIONS := NewKnown(KnownIn(c.knownRooms, SUBSCRIPTIONS), subscribed, pos)])]
    {
      ghost var before := connections;
      UpdateKnownRooms(conn, SUBSCRIPTIONS, subscribed, pos);
      ghost var between := connections[conn];
      UpdateSubscriptions(conn, subscriptions);
      LastWriteCounts(before, conn, between, connections[conn]);
    }

    /** The handler, for one request on a connection. It panics exactly when a list
        needs a joined room and there is none; the cache then has the request's
        parameters, and the known rooms of the lists it got to. */
    method SyncEvents(conn: ConnKey, q: Request, rooms: Rooms) returns (r: Option<Todo>, ghost done: map<ListId, SyncList>)
      modifies this
      ensures r.Some? <==> Servable(Lists(old(CacheOf(conn)), q), rooms.joined)
      ensures r.Some? ==>
                var c := old(CacheOf(conn));
                && connections == old(connections)[conn := Serve(c, q, rooms)]
                && SumsUp(r.value, Lists(c, q), Subscribed(c, q), Before(c, q).knownRooms, rooms)
      ensures r.None? ==>
                var c := old(CacheOf(conn));
                && Part(done, Lists(c, q)) && Servable(done, rooms.joined)
                && connections == old(connections)[conn :=
                     Filled(c, q).(knownRooms := AfterLists(Before(c, q).knownRooms, done, rooms.joined, q.pos))]
    {
      ghost var c, before := CacheOf(conn), connections;
      var filled, known := FillUp(conn, q);
      ghost var log;
      var panics, todo;
      panics, todo, log, done := AskLists(Some(conn), filled.lists, known, rooms.joined, q.pos);
      LastWriteCounts(before, conn, Filled(c, q), connections[conn]);
      if panics {
        return None, done;
      }
      todo := Finish(conn, q, rooms, filled, known, todo, log, c, before);
      SummarySumsUp(todo, Lists(c, q), Subscribed(c, q), known, rooms);
      r := Some(todo);
    }

    /** The subscriptions of a request whose lists have been served. */
    method Finish(conn: ConnKey, q: Request, rooms: Rooms, filled: Request, known: map<ListId, Known>, todo: Todo,
                  ghost log: seq<Want>, ghost c: Cache, ghost before: map<ConnKey, Cache>)
      returns (todo': Todo)
      requires Servable(Lists(c, q), rooms.joined) && known == Before(c, q).knownRooms
      requires filled.lists == Lists(c, q) && filled.subscriptions == Subscribed(c, q)
      requires todo == TodoOf(log) && In(log) == AllListWants(Lists(c, q), known, rooms.joined)
      requires connections == before[conn := Filled(c, q).(knownRooms := AfterLists(known, Lists(c, q), rooms.joined, q.pos))]
      modifies this
      ensures connections == before[conn := Serve(c, q, rooms)]
      ensures Summarises(todo', Wants(Lists(c, q), Subscribed(c, q), known, rooms))
    {
      ghost var listed, log' := connections[conn], [];
      var subscribed, subscriptions;
      todo', log', subscribed := AskSubscriptions(todo, log, filled.subscriptions, KnownIn(known, SUBSCRIPTIONS), rooms.existing);
      TodoSummarises(log');
      subscriptions, subscribed := Unsubscribe(q.unsubscribe, filled.subscriptions, subscribed);
      ServedIs(c, q, rooms, subscribed);
      SaveSubscriptions(conn, subscriptions, subscribed, q.pos);
      LastWriteCounts(before, conn, listed, connections[conn]);
    }

    /** The handler, for a request without a connection id: nothing is kept. */
    method SyncEventsOnce(q: Request, rooms: Rooms) returns (r: Option<Todo>)
      modifies this
      ensures connections == old(connections)
      ensures r.Some? <==> Servable(q.lists, rooms.joined)
      ensures r.Some? ==> SumsUp(r.value, q.lists, q.subscriptions, map[], rooms)
    {
      ghost var log, done;
      var panics, todo;
      panics, todo, log, done := AskLists(None, q.lists, map[], rooms.joined, q.pos);
      if panics {
        return None;
      }
      var subscribed;
      todo, log, subscribed := AskSubscriptions(todo, log, q.subscriptions, map[], rooms.existing);
      TodoSummarises(log);
      SummarySumsUp(todo, q.lists, q.subscriptions, map[], rooms);
      r := Some(todo);
    }
  }
}
