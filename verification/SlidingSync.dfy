/** The per-connection cache of sliding sync: sticky request parameters, room
    subscriptions and the rooms each list has already sent, as functions of the
    requests served so far. */
module SlidingSync {
  import opened Collections

  type RoomId = nat
  type ListId = string
  type U64 = x: int | 0 <= x <= 0xFFFF_FFFF_FFFF_FFFF

  /** The reserved name under which subscribed rooms are remembered. */
  const SUBSCRIPTIONS: ListId := "subscriptions"

  /** Names of states, types, tags and so on are opaque numbers here. */
  datatype Filters = Filters(
    isDm: Option<bool>,
    spaces: seq<nat>,
    isEncrypted: Option<bool>,
    isInvite: Option<bool>,
    roomTypes: seq<nat>,
    notRoomTypes: seq<nat>,
    roomNameLike: Option<nat>,
    tags: seq<nat>,
    notTags: seq<nat>)

  datatype SyncList = SyncList(
    sort: seq<nat>,
    requiredState: seq<nat>,
    timelineLimit: Option<nat>,
    includeOldRooms: Option<nat>,
    filters: Option<Filters>,
    bumpEventTypes: seq<nat>,
    ranges: seq<(nat, nat)>)

  datatype Subscription = Subscription(requiredState: seq<nat>, timelineLimit: Option<nat>)

  datatype Extensions = Extensions(
    e2ee: Option<bool>,
    toDevice: Option<bool>,
    accountData: Option<bool>,
    accountDataLists: Option<nat>,
    accountDataRooms: Option<nat>)

  datatype Request = Request(
    pos: U64,
    lists: map<ListId, SyncList>,
    subscriptions: map<RoomId, Subscription>,
    unsubscribe: seq<RoomId>,
    extensions: Extensions)

  type Known = map<RoomId, U64>

  datatype Cache = Cache(
    lists: map<ListId, SyncList>,
    subscriptions: map<RoomId, Subscription>,
    knownRooms: map<ListId, Known>,
    extensions: Extensions)

  const EMPTY := Cache(map[], map[], map[], Extensions(None, None, None, None, None))

  /** The server's rooms at the time of a request: those the user has joined, in
      list order, and those that exist. */
  datatype Rooms = Rooms(joined: seq<RoomId>, existing: set<RoomId>)

  // ---------------------------------------------------------------------
  // Sticky parameters
  // ---------------------------------------------------------------------

  function Or<T>(a: Option<T>, b: Option<T>): Option<T> {
    if a.Some? then a else b
  }

  function OrSeq(a: seq<nat>, b: seq<nat>): seq<nat> {
    if a == [] then b else a
  }

  function MergeFilters(filters: Option<Filters>, cached: Option<Filters>): Option<Filters> {
    match (filters, cached)
    case (Some(f), Some(c)) =>
      Some(Filters(
        Or(f.isDm, c.isDm),
        OrSeq(f.spaces, c.spaces),
        Or(f.isEncrypted, c.isEncrypted),
        Or(f.isInvite, c.isInvite),
        OrSeq(f.roomTypes, c.roomTypes),
        OrSeq(f.notRoomTypes, c.notRoomTypes),
        Or(f.roomNameLike, c.roomNameLike),
        OrSeq(f.tags, c.tags),
        OrSeq(f.notTags, c.notTags)))
    case (None, Some(c)) => Some(c)
    case (Some(f), None) => Some(f)
    case (None, None) => None
  }

  /** A list of a request, filled up from the cached list; ranges are not sticky. */
  function MergeList(list: SyncList, cached: SyncList): SyncList {
    SyncList(
      OrSeq(list.sort, cached.sort),
      OrSeq(list.requiredState, cached.requiredState),
      Or(list.timelineLimit, cached.timelineLimit),
      Or(list.includeOldRooms, cached.includeOldRooms),
      MergeFilters(list.filters, cached.filters),
      OrSeq(list.bumpEventTypes, cached.bumpEventTypes),
      list.ranges)
  }

  function MergeExtensions(ext: Extensions, cached: Extensions): Extensions {
    Extensions(
      Or(ext.e2ee, cached.e2ee),
      Or(ext.toDevice, cached.toDevice),
      Or(ext.accountData, cached.accountData),
      Or(ext.accountDataLists, cached.accountDataLists),
      Or(ext.accountDataRooms, cached.accountDataRooms))
  }

  function MergedWith(cached: map<ListId, SyncList>, id: ListId, list: SyncList): SyncList {
    if id in cached then MergeList(list, cached[id]) else list
  }

  function Merged(cached: map<ListId, SyncList>, lists: map<ListId, SyncList>): map<ListId, SyncList> {
    map id | id in lists :: MergedWith(cached, id, lists[id])
  }

  /** The sticky parameters of a list, and those of the extensions. */
  datatype Field =
    | Sort | RequiredState | TimelineLimit | IncludeOldRooms | BumpEventTypes | HasFilters | Filter(f: FilterField)

  datatype FilterField =
    | IsDm | Spaces | IsEncrypted | IsInvite | RoomTypes | NotRoomTypes | RoomNameLike | Tags | NotTags

  datatype ExtensionField = E2ee | ToDevice | AccountData | AccountDataLists | AccountDataRooms

  function Num(o: Option<nat>): seq<nat> {
    if o.Some? then [o.value] else []
  }

  function Flag(o: Option<bool>): seq<nat> {
    if o.Some? then [if o.value then 1 else 0] else []
  }

  /** A parameter's value as a sequence; empty when it is not given. */
  function Get(list: SyncList, f: Field): seq<nat> {
    match f
    case Sort => list.sort
    case RequiredState => list.requiredState
    case TimelineLimit => Num(list.timelineLimit)
    case IncludeOldRooms => Num(list.includeOldRooms)
    case BumpEventTypes => list.bumpEventTypes
    case HasFilters => if list.filters.Some? then [1] else []
    case Filter(g) => if list.filters.Some? then GetFilter(list.filters.value, g) else []
  }

  function GetFilter(filters: Filters, f: FilterField): seq<nat> {
    match f
    case IsDm => Flag(filters.isDm)
    case Spaces => filters.spaces
    case IsEncrypted => Flag(filters.isEncrypted)
    case IsInvite => Flag(filters.isInvite)
    case RoomTypes => filters.roomTypes
    case NotRoomTypes => filters.notRoomTypes
    case RoomNameLike => Num(filters.roomNameLike)
    case Tags => filters.tags
    case NotTags => filters.notTags
  }

  function GetExtension(ext: Extensions, f: ExtensionField): seq<nat> {
    match f
    case E2ee => Flag(ext.e2ee)
    case ToDevice => Flag(ext.toDevice)
    case AccountData => Flag(ext.accountData)
    case AccountDataLists => Num(ext.accountDataLists)
    case AccountDataRooms => Num(ext.accountDataRooms)
  }

  function LastNonEmpty(values: seq<seq<nat>>): seq<nat> {
    if values == [] then [] else OrSeq(values[|values| - 1], LastNonEmpty(values[..|values| - 1]))
  }

  lemma MergeIsSticky(list: SyncList, cached: SyncList, f: Field)
    ensures Get(MergeList(list, cached), f) == OrSeq(Get(list, f), Get(cached, f))
  {
  }

  lemma MergeExtensionsIsSticky(ext: Extensions, cached: Extensions, f: ExtensionField)
    ensures GetExtension(MergeExtensions(ext, cached), f) == OrSeq(GetExtension(ext, f), GetExtension(cached, f))
  {
  }

  // ---------------------------------------------------------------------
  // Known rooms
  // ---------------------------------------------------------------------

  /** Clamped as the handler does; with no joined room the source panics. */
  function Clamp(r: (nat, nat), n: nat): (c: (nat, nat))
    requires n > 0
    ensures c.0 <= c.1 < n
    ensures r.0 <= r.1 < n ==> c == r
  {
    var lo := if r.0 > n - 1 then n - 1 else r.0;
    (lo, if r.1 < lo then lo else if r.1 > n - 1 then n - 1 else r.1)
  }

  function Slice(joined: seq<RoomId>, r: (nat, nat)): set<RoomId>
    requires joined != []
  {
    var c := Clamp(r, |joined|);
    set i | c.0 <= i <= c.1 :: joined[i]
  }

  /** The rooms that the first `n` ranges of a list cover. */
  function Window(ranges: seq<(nat, nat)>, joined: seq<RoomId>, n: nat): set<RoomId>
    requires n <= |ranges| && (ranges != [] ==> joined != [])
  {
    if n == 0 then {} else Window(ranges, joined, n - 1) + Slice(joined, ranges[n - 1])
  }

  predicate InviteList(list: SyncList) {
    list.filters.Some? && list.filters.value.isInvite == Some(true)
  }

  /** Lists of invites are skipped; the others need a joined room to clamp to. */
  predicate HasRooms(list: SyncList, joined: seq<RoomId>) {
    InviteList(list) || list.ranges == [] || joined != []
  }

  predicate Servable(lists: map<ListId, SyncList>, joined: seq<RoomId>) {
    forall id | id in lists :: HasRooms(lists[id], joined)
  }

  function ListWindow(list: SyncList, joined: seq<RoomId>): set<RoomId>
    requires HasRooms(list, joined)
  {
    if InviteList(list) then {} else Window(list.ranges, joined, |list.ranges|)
  }

  /** The place `i` among `n` rooms is covered by the range: it lies in it, or it is
      the last place and the range begins beyond it, or it is where a range that
      ends before it begins would begin. */
  predicate Covered(r: (nat, nat), n: nat, i: nat) {
    && i < n
    && (r.0 <= i <= r.1 || (r.0 >= n && i == n - 1) || (r.1 < r.0 && i == r.0))
  }

  ghost predicate CoversRoom(r: (nat, nat), joined: seq<RoomId>, room: RoomId) {
    exists i: nat :: Covered(r, |joined|, i) && joined[i] == room
  }

  /** A range stands for exactly the rooms it covers, also where it reaches past
      the last joined room. */
  lemma SliceExactly(joined: seq<RoomId>, r: (nat, nat), room: RoomId)
    requires joined != []
    ensures room in Slice(joined, r) <==> CoversRoom(r, joined, room)
  {
    var n, c := |joined|, Clamp(r, |joined|);
    assert forall i | 0 <= i < n :: Covered(r, n, i) <==> c.0 <= i <= c.1;
    if room in Slice(joined, r) {
      var i :| c.0 <= i <= c.1 && joined[i] == room;
      assert Covered(r, n, i);
    }
    if CoversRoom(r, joined, room) {
      var i: nat :| Covered(r, n, i) && joined[i] == room;
    }
  }

  lemma {:induction false} WindowsOfRanges(ranges: seq<(nat, nat)>, joined: seq<RoomId>, n: nat, room: RoomId)
    requires n <= |ranges| && (ranges != [] ==> joined != [])
    ensures room in Window(ranges, joined, n) <==> exists k :: 0 <= k < n && CoversRoom(ranges[k], joined, room)
  {
    if n > 0 {
      WindowsOfRanges(ranges, joined, n - 1, room);
      SliceExactly(joined, ranges[n - 1], room);
    }
  }

  /** The list is not one of invites, and one of its ranges covers the room. */
  ghost predicate Shows(list: SyncList, joined: seq<RoomId>, room: RoomId) {
    && !(list.filters.Some? && list.filters.value.isInvite == Some(true))
    && exists k :: 0 <= k < |list.ranges| && CoversRoom(list.ranges[k], joined, room)
  }

  /** The window of a list is the rooms that it shows. */
  lemma ListWindowExactly(list: SyncList, joined: seq<RoomId>, room: RoomId)
    requires HasRooms(list, joined)
    ensures room in ListWindow(list, joined) <==> Shows(list, joined, room)
  {
    if !InviteList(list) {
      WindowsOfRanges(list.ranges, joined, |list.ranges|, room);
    }
  }

  function KnownIn(known: map<ListId, Known>, id: ListId): Known {
    if id in known then known[id] else map[]
  }

  /** Rooms that left the window are remembered with 0. */
  function Outdated(known: Known, window: set<RoomId>): Known {
    map r | r in known :: if r in window then known[r] else 0
  }

  function NewKnown(known: Known, window: set<RoomId>, pos: U64): Known {
    Outdated(known, window) + map r | r in window :: pos
  }

  datatype Update = Update(window: set<RoomId>, pos: U64)

  function KnownAfter(updates: seq<Update>): Known {
    if updates == [] then map[]
    else
      var last := updates[|updates| - 1];
      NewKnown(KnownAfter(updates[..|updates| - 1]), last.window, last.pos)
  }

  /** A room is known to a list once it was in some window; its number is the `pos`
      of the last update when it was in that window, and 0 otherwise. */
  lemma {:induction false} KnownExactly(updates: seq<Update>, room: RoomId)
    ensures room in KnownAfter(updates) <==> exists u :: u in updates && room in u.window
    ensures room in KnownAfter(updates) ==>
              var last := updates[|updates| - 1];
              KnownAfter(updates)[room] == if room in last.window then last.pos else 0
  {
    if updates != [] {
      var n := |updates| - 1;
      KnownExactly(updates[..n], room);
      assert updates == updates[..n] + [updates[n]];
    }
  }

  // ---------------------------------------------------------------------
  // One request, and a connection's run of requests
  // ---------------------------------------------------------------------

  /** A request at position 0 starts the connection anew. */
  function Before(c: Cache, q: Request): Cache {
    if q.pos == 0 then EMPTY else c
  }

  /** The request's lists as filled up from the cache. */
  function Lists(c: Cache, q: Request): map<ListId, SyncList> {
    Merged(Before(c, q).lists, q.lists)
  }

  function Subscribed(c: Cache, q: Request): map<RoomId, Subscription> {
    Before(c, q).subscriptions + q.subscriptions
  }

  function Unsubscribed(subs: map<RoomId, Subscription>, unsubscribe: seq<RoomId>): map<RoomId, Subscription> {
    map r | r in subs && r !in unsubscribe :: subs[r]
  }

  function SubscribedRooms(c: Cache, q: Request, rooms: Rooms): set<RoomId> {
    set r | r in Subscribed(c, q) && r in rooms.existing && r !in q.unsubscribe
  }

  /** Whether a request updates what list `id` remembers. */
  predicate Updates(lists: map<ListId, SyncList>, id: ListId) {
    id in lists && !InviteList(lists[id])
  }

  function AfterList(known: map<ListId, Known>, lists: map<ListId, SyncList>, joined: seq<RoomId>, pos: U64, id: ListId): Known
    requires Servable(lists, joined)
  {
    if Updates(lists, id) then NewKnown(KnownIn(known, id), ListWindow(lists[id], joined), pos) else KnownIn(known, id)
  }

  function AfterLists(known: map<ListId, Known>, lists: map<ListId, SyncList>, joined: seq<RoomId>, pos: U64): map<ListId, Known>
    requires Servable(lists, joined)
  {
    map id | id in known.Keys + lists.Keys && (id in known || Updates(lists, id)) :: AfterList(known, lists, joined, pos, id)
  }

  function Serve(c: Cache, q: Request, rooms: Rooms): Cache
    requires Servable(Lists(c, q), rooms.joined)
  {
    var known := AfterLists(Before(c, q).knownRooms, Lists(c, q), rooms.joined, q.pos);
    Cache(
      Before(c, q).lists + Lists(c, q),
      Unsubscribed(Subscribed(c, q), q.unsubscribe),
      known[SUBSCRIPTIONS := NewKnown(KnownIn(known, SUBSCRIPTIONS), SubscribedRooms(c, q, rooms), q.pos)],
      MergeExtensions(q.extensions, Before(c, q).extensions))
  }

  /** A request with the rooms the server had when it was served. */
  datatype Served = Served(q: Request, rooms: Rooms)

  /** Whether no request of the run makes the handler panic. */
  predicate Runs(run: seq<Served>)
    decreases |run|, 0
  {
    run == [] ||
    var init, last := run[..|run| - 1], run[|run| - 1];
    Runs(init) && Servable(Lists(ServeAll(init), last.q), last.rooms.joined)
  }

  function ServeAll(run: seq<Served>): Cache
    requires Runs(run)
    decreases |run|, 1
  {
    if run == [] then EMPTY
    else
      var init, last := run[..|run| - 1], run[|run| - 1];
      Serve(ServeAll(init), last.q, last.rooms)
  }

  /** The values requests gave a parameter of a list since the last restart. */
  function Given(run: seq<Served>, id: ListId, f: Field): seq<seq<nat>> {
    if run == [] then []
    else
      var q := run[|run| - 1].q;
      var before := if q.pos == 0 then [] else Given(run[..|run| - 1], id, f);
      if id in q.lists then before + [Get(q.lists[id], f)] else before
  }

  predicate Mentioned(run: seq<Served>, id: ListId) {
    run != [] &&
    var q := run[|run| - 1].q;
    id in q.lists || (q.pos != 0 && Mentioned(run[..|run| - 1], id))
  }

  /** The value of a parameter in the cache; empty for a list it does not hold. */
  function Cached(lists: map<ListId, SyncList>, id: ListId, f: Field): seq<nat> {
    if id in lists then Get(lists[id], f) else []
  }

  lemma ServeUpdatesParameter(c: Cache, q: Request, rooms: Rooms, id: ListId, f: Field)
    requires Servable(Lists(c, q), rooms.joined)
    ensures id in Serve(c, q, rooms).lists <==> id in Before(c, q).lists || id in q.lists
    ensures Cached(Serve(c, q, rooms).lists, id, f) == OrSeq(Cached(q.lists, id, f), Cached(Before(c, q).lists, id, f))
  {
    if id in q.lists && id in Before(c, q).lists {
      MergeIsSticky(q.lists[id], Before(c, q).lists[id], f);
    }
  }

  lemma LastNonEmptyOneMore(values: seq<seq<nat>>, v: seq<nat>)
    ensures LastNonEmpty(values + [v]) == OrSeq(v, LastNonEmpty(values))
  {
    assert (values + [v])[..|values|] == values;
  }

  /** Every parameter of every list has its last non-empty value. */
  lemma {:induction false} StickyParameters(run: seq<Served>, id: ListId, f: Field)
    requires Runs(run)
    ensures id in ServeAll(run).lists <==> Mentioned(run, id)
    ensures Cached(ServeAll(run).lists, id, f) == LastNonEmpty(Given(run, id, f))
  {
    if run != [] {
      var init, last := run[..|run| - 1], run[|run| - 1];
      StickyParameters(init, id, f);
      ServeUpdatesParameter(ServeAll(init), last.q, last.rooms, id, f);
      if id in last.q.lists {
        var before := if last.q.pos == 0 then [] else Given(init, id, f);
        LastNonEmptyOneMore(before, Get(last.q.lists[id], f));
      }
    }
  }

  function GivenExtension(run: seq<Served>, f: ExtensionField): seq<seq<nat>> {
    if run == [] then []
    else
      var q := run[|run| - 1].q;
      (if q.pos == 0 then [] else GivenExtension(run[..|run| - 1], f)) + [GetExtension(q.extensions, f)]
  }

  lemma {:induction false} StickyExtensions(run: seq<Served>, f: ExtensionField)
    requires Runs(run)
    ensures GetExtension(ServeAll(run).extensions, f) == LastNonEmpty(GivenExtension(run, f))
  {
    if run != [] {
      var init, last := run[..|run| - 1], run[|run| - 1];
      StickyExtensions(init, f);
      MergeExtensionsIsSticky(last.q.extensions, Before(ServeAll(init), last.q).extensions, f);
      var before := if last.q.pos == 0 then [] else GivenExtension(init, f);
      LastNonEmptyOneMore(before, GetExtension(last.q.extensions, f));
    }
  }

  /** The lists that are served are those of the request, each with the request's own
      ranges: neither lists nor ranges are sticky. */
  lemma ListsAreTheRequests(c: Cache, q: Request, id: ListId)
    ensures id in Lists(c, q) <==> id in q.lists
    ensures id in q.lists ==> Lists(c, q)[id].ranges == q.lists[id].ranges
  {
  }

  /** The windows list `id` had since the last restart. The reserved list has the
      subscribed rooms of each request as a window, after the window of a client
      list that takes its name. */
  function Windows(run: seq<Served>, id: ListId): seq<Update>
    requires Runs(run)
  {
    if run == [] then []
    else
      var init, last := run[..|run| - 1], run[|run| - 1];
      var before := if last.q.pos == 0 then [] else Windows(init, id);
      before + OwnWindow(ServeAll(init), last, id) + ReservedWindow(ServeAll(init), last, id)
  }

  function OwnWindow(c: Cache, last: Served, id: ListId): seq<Update>
    requires Servable(Lists(c, last.q), last.rooms.joined)
  {
    var lists := Lists(c, last.q);
    if Updates(lists, id) then [Update(ListWindow(lists[id], last.rooms.joined), last.q.pos)] else []
  }

  function ReservedWindow(c: Cache, last: Served, id: ListId): seq<Update> {
    if id == SUBSCRIPTIONS then [Update(SubscribedRooms(c, last.q, last.rooms), last.q.pos)] else []
  }

  /** What one request does to the rooms known to list `id`. */
  lemma ServeUpdatesKnown(c: Cache, q: Request, rooms: Rooms, id: ListId)
    requires Servable(Lists(c, q), rooms.joined)
    ensures var lists := Lists(c, q);
            var known := KnownIn(Before(c, q).knownRooms, id);
            var updated :=
              if Updates(lists, id) then NewKnown(known, ListWindow(lists[id], rooms.joined), q.pos) else known;
            KnownIn(Serve(c, q, rooms).knownRooms, id) ==
              if id == SUBSCRIPTIONS then NewKnown(updated, SubscribedRooms(c, q, rooms), q.pos) else updated
  {
  }

  lemma KnownAfterOneMore(updates: seq<Update>, more: seq<Update>)
    requires |more| <= 1
    ensures KnownAfter(updates + more) ==
              if more == [] then KnownAfter(updates) else NewKnown(KnownAfter(updates), more[0].window, more[0].pos)
  {
    if more == [] {
      assert updates + more == updates;
    } else {
      assert (updates + more)[..|updates|] == updates;
    }
  }

  /** What a list remembers is decided by the windows it had. */
  lemma {:induction false} KnownRoomsOfList(run: seq<Served>, id: ListId)
    requires Runs(run)
    ensures KnownIn(ServeAll(run).knownRooms, id) == KnownAfter(Windows(run, id))
  {
    if run != [] {
      var init, last := run[..|run| - 1], run[|run| - 1];
      KnownRoomsOfList(init, id);
      var c := ServeAll(init);
      ServeUpdatesKnown(c, last.q, last.rooms, id);
      var before := if last.q.pos == 0 then [] else Windows(init, id);
      KnownAfterOneMore(before, OwnWindow(c, last, id));
      KnownAfterOneMore(before + OwnWindow(c, last, id), ReservedWindow(c, last, id));
    }
  }

  /** For every run and list: a room is known once it was in a window since the
      last restart, under the `pos` of the last request that updated the list if
      it was in that window, and under 0 if not. */
  lemma KnownRoomHasLastPos(run: seq<Served>, id: ListId, room: RoomId)
    requires Runs(run)
    ensures var known, windows := KnownIn(ServeAll(run).knownRooms, id), Windows(run, id);
            && (room in known <==> exists u :: u in windows && room in u.window)
            && (room in known ==>
                  var last := windows[|windows| - 1];
                  known[room] == if room in last.window then last.pos else 0)
  {
    KnownRoomsOfList(run, id);
    KnownExactly(Windows(run, id), room);
  }

  /** Whether the request sends `room` as part of list `id`. */
  predicate InWindow(c: Cache, last: Served, id: ListId, room: RoomId)
    requires Servable(Lists(c, last.q), last.rooms.joined)
  {
    var lists := Lists(c, last.q);
    Updates(lists, id) && room in ListWindow(lists[id], last.rooms.joined)
  }

  /** Whether a list remembers that the request sent the room. */
  predicate Remembers(c: Cache, last: Served, id: ListId, room: RoomId) {
    id != SUBSCRIPTIONS || room in SubscribedRooms(c, last.q, last.rooms)
  }

  lemma SentRoomIsKnown(c: Cache, last: Served, id: ListId, room: RoomId)
    requires Servable(Lists(c, last.q), last.rooms.joined) && InWindow(c, last, id, room)
    ensures var known := KnownIn(Serve(c, last.q, last.rooms).knownRooms, id);
            room in known && known[room] == if Remembers(c, last, id, room) then last.q.pos else 0
  {
    ServeUpdatesKnown(c, last.q, last.rooms, id);
  }

  /** A room that a request sends as part of a list is known under the request's
      `pos` afterwards if and only if the list does not have the reserved name, or
      the room is also subscribed to; otherwise it counts as never sent. */
  lemma SentRoomIsKnownExactly(run: seq<Served>, id: ListId, room: RoomId)
    requires Runs(run) && run != []
    requires InWindow(ServeAll(run[..|run| - 1]), run[|run| - 1], id, room)
    ensures var known, pos := KnownIn(ServeAll(run).knownRooms, id), run[|run| - 1].q.pos;
            var kept := Remembers(ServeAll(run[..|run| - 1]), run[|run| - 1], id, room);
            && room in known
            && (known[room] == pos <==> kept || pos == 0)
            && (!kept ==> known[room] == 0)
  {
    SentRoomIsKnown(ServeAll(run[..|run| - 1]), run[|run| - 1], id, room);
  }

  // ---------------------------------------------------------------------
  // Subscriptions
  // ---------------------------------------------------------------------

  /** The subscription a room last asked for, if it did not unsubscribe since. */
  function LastSubscription(run: seq<Served>, room: RoomId): Option<Subscription> {
    if run == [] then None
    else
      var q := run[|run| - 1].q;
      if room in q.unsubscribe then None
      else if room in q.subscriptions then Some(q.subscriptions[room])
      else if q.pos == 0 then None
      else LastSubscription(run[..|run| - 1], room)
  }

  lemma {:induction false} SubscriptionsAreTheLast(run: seq<Served>, room: RoomId)
    requires Runs(run)
    ensures var subscriptions := ServeAll(run).subscriptions;
            (if room in subscriptions then Some(subscriptions[room]) else None) == LastSubscription(run, room)
  {
    if run != [] {
      SubscriptionsAreTheLast(run[..|run| - 1], room);
    }
  }

  /** The rooms that a request remembers as subscribed: those that exist and whose
      last subscription has not been withdrawn. */
  lemma SubscribedRoomsExactly(run: seq<Served>, room: RoomId)
    requires Runs(run) && run != []
    ensures var c, last := ServeAll(run[..|run| - 1]), run[|run| - 1];
            room in SubscribedRooms(c, last.q, last.rooms) <==> LastSubscription(run, room).Some? && room in last.rooms.existing
  {
    SubscriptionsAreTheLast(run, room);
  }
}
