/** The handler's own code over the byte-keyed trees. Each method is shown to
    perform a sequence of protocol steps, so what holds of every protocol run
    holds of the code. */
module SendingService {
  import opened Collections
  import opened Bytes
  import opened KvTree
  import opened SendingKeys
  import opened SendingProtocol
  import opened SendingRuns
  import opened SendingStore
  import opened SendingSafety
  import opened SendingLaws
  import opened SendingBatches

  /** The trees hold what the protocol's tables say. */
  ghost predicate TreesMirror(queued: Tree, active: Tree, s: State) {
    forall d ::
      if WellFormed(d) then At(s.queued, d) == Requests(queued, d) && At(s.active, d) == Requests(active, d)
      else At(s.queued, d) == {} && At(s.active, d) == {}
  }

  /** Keys determine events: requests of one destination differ in their ids. */
  predicate Keyed(reqs: set<Request>) {
    forall x, y :: x in reqs && y in reqs && x.id == y.id ==> x == y
  }

  lemma ClearMirrors(queued: Tree, active: Tree, s: State, r: Request)
    requires TreesMirror(queued, active, s)
    requires WellFormed(r.dest) && r in At(s.active, r.dest)
    ensures TreesMirror(queued, active - {Key(r)}, s.(active := Remove(s.active, r)))
  {
    KeyOfRequest(active, r.dest, r);
    forall d | WellFormed(d)
      ensures At(Remove(s.active, r), d) == Requests(active - {Key(r)}, d)
    {
      RemoveRequest(active, r, d);
    }
  }

  lemma InsertMirrors(queued: Tree, active: Tree, s: State, r: Request)
    requires TreesMirror(queued, active, s) && s.phase.Marking?
    requires Faithful(r) && (Key(r) in active ==> active[Key(r)] == Value(r.event))
    ensures TreesMirror(queued, active[Key(r) := Value(r.event)], AfterMarkInsert(s, r))
  {
    forall d | WellFormed(d)
      ensures At(Put(s.active, r), d) == Requests(active[Key(r) := Value(r.event)], d)
    {
      InsertRequest(active, r, d);
    }
  }

  lemma RemoveMirrors(queued: Tree, active: Tree, s: State)
    requires TreesMirror(queued, active, s) && s.phase.Marking? && s.phase.half.Inserted?
    requires WellFormed(s.phase.half.req.dest)
    requires Key(s.phase.half.req) in queued ==>
               s.phase.half.req.event == EventOf(s.phase.half.req.id, queued[Key(s.phase.half.req)])
    ensures TreesMirror(queued - {Key(s.phase.half.req)}, active, AfterMarkRemove(s))
  {
    var r := s.phase.half.req;
    forall d | WellFormed(d)
      ensures At(Remove(s.queued, r), d) == Requests(queued - {Key(r)}, d)
    {
      RemoveRequest(queued, r, d);
    }
  }

  /** A key not yet marked is not in the active tree. */
  lemma UnmarkedIsNotActive(queued: Tree, active: Tree, s: State, r: Request)
    requires TreesMirror(queued, active, s) && s.phase.Marking? && HandlerInv(s)
    requires WellFormed(s.phase.dest) && Keyed(s.phase.batch) && r in s.phase.todo
    ensures Key(r) !in active
  {
    var d := s.phase.dest;
    assert DestinationInv(s, d);
    var q := if Key(r) in active then Request(d, r.id, EventOf(r.id, active[Key(r)])) else r;
    KeyOfRequest(active, d, q);
    assert At(s.active, d) == s.phase.batch - s.phase.todo;
  }

  lemma ClearKey(active: Tree, d: Destination, key: Bytes, s: State)
    requires WellFormed(d) && At(s.active, d) == Requests(active, d)
    requires key in active && Prefix(d) <= key
    ensures Key(RequestAt(active, d, key)) == key
    ensures RequestAt(active, d, key) in At(s.active, d)
  {
    assert key == Prefix(d) + key[|Prefix(d)|..];
  }

  lemma FromHere<T>(s: seq<T>, i: nat)
    requires i < |s|
    ensures s[i..] == [s[i]] + s[i + 1..]
  {
  }

  ghost predicate Tagged(events: seq<(SendingEvent, Bytes)>, reqs: seq<Request>) {
    && |events| == |reqs|
    && forall i :: 0 <= i < |reqs| ==> events[i] == (reqs[i].event, Key(reqs[i]))
  }

  /** Parsing a key under `d`'s prefix always succeeds, with the request's event. */
  function ReadKey(t: Tree, d: Destination, key: Bytes): (e: SendingEvent)
    requires WellFormed(d) && key in t && Prefix(d) <= key
    ensures e == RequestAt(t, d, key).event
  {
    assert key == Prefix(d) + key[|Prefix(d)|..];
    KeyRoundTrip(d, key[|Prefix(d)|..], t[key]);
    Parse(key, t[key]).event
  }

  /** `active_requests_for`, `queued_requests`: scanned keys with their events. */
  function Read(t: Tree, d: Destination, keys: seq<Bytes>): (r: seq<(SendingEvent, Bytes)>)
    requires WellFormed(d) && forall k :: k in keys ==> k in t && Prefix(d) <= k
    ensures |r| == |keys|
  {
    seq(|keys|, i requires 0 <= i < |keys| => assert keys[i] in keys; (ReadKey(t, d, keys[i]), keys[i]))
  }

  ghost function RequestsOf(t: Tree, d: Destination, keys: seq<Bytes>): (r: seq<Request>)
    requires forall k :: k in keys ==> k in t && Prefix(d) <= k
    ensures |r| == |keys|
  {
    seq(|keys|, i requires 0 <= i < |keys| => assert keys[i] in keys; RequestAt(t, d, keys[i]))
  }

  lemma ReadIsFaithful(t: Tree, d: Destination, r: Request)
    requires WellFormed(d) && r in Requests(t, d)
    ensures Faithful(r) && Key(r) in t && t[Key(r)] == Value(r.event)
  {
    KeyOfRequest(t, d, r);
  }

  lemma ReadTagged(t: Tree, d: Destination, keys: seq<Bytes>)
    requires WellFormed(d) && forall k :: k in keys ==> k in t && Prefix(d) <= k
    ensures Tagged(Read(t, d, keys), RequestsOf(t, d, keys))
  {
    forall i | 0 <= i < |keys|
      ensures Read(t, d, keys)[i] == (RequestsOf(t, d, keys)[i].event, Key(RequestsOf(t, d, keys)[i]))
    {
      assert keys[i] in keys;
      KeyOfRead(t, d, keys[i]);
    }
  }

  lemma KeyOfRequestAt(t: Tree, d: Destination, key: Bytes)
    requires key in t && Prefix(d) <= key
    ensures Key(RequestAt(t, d, key)) == key
  {
    assert key == Prefix(d) + key[|Prefix(d)|..];
  }

  lemma KeyOfRead(t: Tree, d: Destination, key: Bytes)
    requires WellFormed(d) && key in t && Prefix(d) <= key
    ensures Key(RequestAt(t, d, key)) == key && ReadKey(t, d, key) == RequestAt(t, d, key).event
  {
    KeyOfRequestAt(t, d, key);
  }

  lemma ReadElements(t: Tree, d: Destination, keys: seq<Bytes>)
    requires Ascending(keys) && forall k :: k in keys ==> k in t && Prefix(d) <= k
    ensures Elements(RequestsOf(t, d, keys)) == RequestsAt(t, d, keys)
    ensures Distinct(RequestsOf(t, d, keys))
  {
    var reqs := RequestsOf(t, d, keys);
    forall i, j | 0 <= i < j < |keys| ensures reqs[i] != reqs[j] {
      assert keys[i] in keys && keys[j] in keys;
      AscendingIsDistinct(keys, i, j);
      if RequestAt(t, d, keys[i]) == RequestAt(t, d, keys[j]) {
        RequestAtInjective(t, d, keys[i], keys[j]);
      }
    }
    forall r | r in RequestsAt(t, d, keys) ensures r in reqs {
      var k :| k in keys && RequestAt(t, d, k) == r;
      var i :| 0 <= i < |keys| && keys[i] == k;
      assert reqs[i] == r;
    }
  }

  lemma BatchIsKeyed(t: Tree, d: Destination, keys: seq<Bytes>)
    requires forall k :: k in keys ==> k in t && Prefix(d) <= k
    ensures Keyed(RequestsAt(t, d, keys))
  {
    forall k, l | k in keys && l in keys && RequestAt(t, d, k).id == RequestAt(t, d, l).id
      ensures RequestAt(t, d, k) == RequestAt(t, d, l)
    {
      assert k == Prefix(d) + k[|Prefix(d)|..] == Prefix(d) + l[|Prefix(d)|..] == l;
    }
  }

  function Events(events: seq<(SendingEvent, Bytes)>): (r: seq<SendingEvent>)
    ensures |r| == |events|
  {
    seq(|events|, i requires 0 <= i < |events| => events[i].0)
  }

  ghost function EventsOf(reqs: set<Request>): set<SendingEvent> {
    set r | r in reqs :: r.event
  }

  lemma TaggedEvents(events: seq<(SendingEvent, Bytes)>, reqs: seq<Request>)
    requires Tagged(events, reqs)
    ensures Elements(Events(events)) == EventsOf(Elements(reqs))
  {
    forall e | e in EventsOf(Elements(reqs)) ensures e in Events(events) {
      var r :| r in reqs && r.event == e;
      var i :| 0 <= i < |reqs| && reqs[i] == r;
      assert Events(events)[i] == e;
    }
    forall e | e in Events(events) ensures e in EventsOf(Elements(reqs)) {
      var i :| 0 <= i < |events| && Events(events)[i] == e;
      assert reqs[i] in Elements(reqs);
    }
  }

  lemma ReadBatch(queued: Tree, active: Tree, d: Destination, keys: seq<Bytes>)
    requires WellFormed(d) && forall k :: k in keys ==> k in queued && Prefix(d) <= k
    ensures EventsAt(queued, d, keys, Events(Read(queued, d, keys)))
    ensures Taken(queued, Read(queued, d, keys)) == WithoutKeys(queued, keys)
    ensures Given(active, Read(queued, d, keys)) == active + Part(queued, keys)
  {
    var events := Read(queued, d, keys);
    forall i | 0 <= i < |keys|
      ensures ParsesAs(queued, d, keys[i], events[i].0) && Value(events[i].0) == queued[keys[i]]
    {
      assert keys[i] in keys;
      KeyOfRead(queued, d, keys[i]);
      var r := RequestAt(queued, d, keys[i]);
      assert r in Requests(queued, d);
      ReadIsFaithful(queued, d, r);
      ReadAs(queued, d, r);
    }
    assert ReadFrom(queued, keys, events);
    MovedBatch(queued, active, keys, events);
  }

  lemma ReadAllAt(t: Tree, d: Destination)
    requires WellFormed(d)
    ensures AllOf(t, d, ScanPrefix(t, Prefix(d))) && EventsAt(t, d, ScanPrefix(t, Prefix(d)), ReadAll(t, d))
  {
    ScanIsAll(t, d);
    ScanPrefixExact(t, Prefix(d));
    ReadBatch(t, t, d, ScanPrefix(t, Prefix(d)));
  }

  /** What a handler call returns to be sent is what is then in flight. */
  ghost predicate Carries(inputs: Option<seq<SendingEvent>>, t: State, d: Destination) {
    match inputs
    case None => Flights(t, d) == []
    case Some(events) => |Flights(t, d)| == 1 && Elements(events) == EventsOf(Flights(t, d)[0])
  }

  function Edus(contents: seq<Bytes>): seq<SendingEvent> {
    seq(|contents|, i requires 0 <= i < |contents| => Edu(contents[i]))
  }

  /** `active_requests_for`, keeping the events. */
  function ReadAll(t: Tree, d: Destination): (events: seq<SendingEvent>)
    requires WellFormed(d)
    ensures Elements(events) == EventsOf(Requests(t, d))
  {
    var keys := ScanPrefix(t, Prefix(d));
    ScanPrefixExact(t, Prefix(d));
    ReadTagged(t, d, keys);
    ReadElements(t, d, keys);
    TaggedEvents(Read(t, d, keys), RequestsOf(t, d, keys));
    assert RequestsAt(t, d, keys) == Requests(t, d);
    Events(Read(t, d, keys))
  }

  /** PDU ids are longer than a counter; an EDU is serialised JSON, never empty. */
  predicate Acceptable(d: Destination, e: SendingEvent) {
    WellFormed(d) && match e
                     case Pdu(id) => |id| != 8
                     case Edu(content) => content != []
  }

  ghost predicate Serves(r: Request, q: (Destination, SendingEvent), key: Bytes) {
    r.dest == q.0 && r.event == q.1 && key == Key(r) && Faithful(r)
  }

  ghost predicate AllServe(made: seq<Request>, reqs: seq<(Destination, SendingEvent)>, keys: seq<Bytes>) {
    && |made| == |keys| <= |reqs|
    && forall i :: 0 <= i < |made| ==> Serves(made[i], reqs[i], keys[i])
  }

  lemma ServeOneMore(made: seq<Request>, reqs: seq<(Destination, SendingEvent)>, keys: seq<Bytes>, r: Request)
    requires AllServe(made, reqs, keys) && |made| < |reqs|
    requires reqs[|made|] == (r.dest, r.event) && Faithful(r)
    ensures AllServe(made + [r], reqs, keys + [Key(r)])
  {
  }

  /** Eight-byte ids come from the counter; all others are PDUs. */
  ghost predicate Counted(t: Tree, counter: nat) {
    forall d, id :: WellFormed(d) && Prefix(d) + id in t ==>
      if |id| == 8 then FromBigEndian(id) <= counter else t[Prefix(d) + id] == []
  }

  ghost predicate QueueMirrors(t: Tree, queued: Table, made: seq<Request>) {
    forall d :: if WellFormed(d) then Requests(t, d) == At(queued, d) + Of(Elements(made), d)
                else At(queued, d) == {} && Of(Elements(made), d) == {}
  }

  lemma EnqueueMirrors(t: Tree, queued: Tree, active: Tree, s: State, made: seq<Request>)
    requires TreesMirror(queued, active, s) && QueueMirrors(t, s.queued, made)
    ensures TreesMirror(t, active, AfterEnqueue(s, made))
  {
    forall d ensures At(PutAll(s.queued, Elements(made)), d) == At(s.queued, d) + Of(Elements(made), d) {
      PutAllAt(s.queued, Elements(made), d);
    }
  }

  // ---------------------------------------------------------------------
  // Requests on their way to the handler
  // ---------------------------------------------------------------------

  /** Requests whose message is not yet consumed. */
  ghost function Mail(s: State): set<Request> {
    Elements(s.channel) + set r | r in s.posting
  }

  /** EDUs are numbered by the counter, PDUs by ids of another length. */
  ghost predicate Numbered(r: Request, counter: nat) {
    if |r.id| == 8 then r.event.Edu? && FromBigEndian(r.id) <= counter else r.event.Pdu?
  }

  /** A message is what the queued tree holds under its key, if anything. */
  ghost predicate Agrees(t: Tree, counter: nat, r: Request) {
    Faithful(r) && Numbered(r, counter) && (Key(r) in t ==> t[Key(r)] == Value(r.event))
  }

  ghost predicate AllAgree(t: Tree, counter: nat, rs: set<Request>) {
    forall r {:trigger Agrees(t, counter, r)} | r in rs :: Agrees(t, counter, r)
  }

  ghost predicate Shrunk(before: Tree, after: Tree) {
    forall k {:trigger k in after} | k in after :: k in before && after[k] == before[k]
  }

  /** Taking requests off the queue, and messages off the channel, keeps both. */
  lemma ShrunkKeeps(before: Tree, after: Tree, counter: nat, rs: set<Request>, qs: set<Request>)
    requires Counted(before, counter) && AllAgree(before, counter, rs) && Shrunk(before, after) && qs <= rs
    ensures Counted(after, counter) && AllAgree(after, counter, qs)
  {
    forall d, id | WellFormed(d) && Prefix(d) + id in after
      ensures if |id| == 8 then FromBigEndian(id) <= counter else after[Prefix(d) + id] == []
    {
      assert Prefix(d) + id in before;
    }
    forall r | r in qs ensures Agrees(after, counter, r) {
      assert Agrees(before, counter, r);
    }
  }

  ghost predicate FreshId(before: nat, counter: nat, r: Request) {
    && Acceptable(r.dest, r.event) && before <= counter <= U64_MAX
    && if r.event.Pdu? then r.id == r.event.pduId
       else before < counter && r.id == U64Bytes(counter)
  }

  lemma FreshIdIsFaithful(t: Tree, before: nat, counter: nat, r: Request)
    requires Counted(t, before) && FreshId(before, counter, r)
    ensures Faithful(r) && (Key(r) in t ==> t[Key(r)] == Value(r.event))
    ensures r.event.Edu? ==> Key(r) !in t
    ensures |r.id| == 8 ==> FromBigEndian(r.id) <= counter
  {
    U64Range();
    if r.event.Edu? {
      BigEndianRoundTrip(counter, 8);
    }
  }

  lemma QueueKeepsCounted(t: Tree, before: nat, counter: nat, r: Request)
    requires Counted(t, before) && FreshId(before, counter, r)
    ensures Counted(t[Key(r) := Value(r.event)], counter)
  {
    FreshIdIsFaithful(t, before, counter, r);
    var t' := t[Key(r) := Value(r.event)];
    forall d, id | WellFormed(d) && Prefix(d) + id in t'
      ensures if |id| == 8 then FromBigEndian(id) <= counter else t'[Prefix(d) + id] == []
    {
      OtherKeys(d, r.dest, id, r);
    }
  }

  lemma QueueKeepsMirror(t: Tree, r: Request, queued: Table, made: seq<Request>)
    requires QueueMirrors(t, queued, made)
    requires Faithful(r) && (Key(r) in t ==> t[Key(r)] == Value(r.event))
    ensures QueueMirrors(t[Key(r) := Value(r.event)], queued, made + [r])
  {
    assert Elements(made + [r]) == Elements(made) + {r};
    forall d
      ensures if WellFormed(d) then Requests(t[Key(r) := Value(r.event)], d) == At(queued, d) + Of(Elements(made + [r]), d)
              else At(queued, d) == {} && Of(Elements(made + [r]), d) == {}
    {
      if d == r.dest {
        OfExtended(Elements(made), r);
      } else {
        OfUnchanged(Elements(made), r, d);
      }
      if WellFormed(d) {
        InsertRequest(t, r, d);
      }
    }
  }

  /** A new request does not disturb the messages under way. */
  lemma AgreesStill(t: Tree, before: nat, counter: nat, r: Request, q: Request)
    requires FreshId(before, counter, r) && Agrees(t, before, q)
    ensures Agrees(t[Key(r) := Value(r.event)], counter, q)
  {
    if Key(q) == Key(r) {
      OtherKeys(r.dest, q.dest, r.id, q);
      U64Range();
      if |r.id| == 8 {
        BigEndianRoundTrip(counter, 8);
      }
    }
  }

  lemma AgreesNew(t: Tree, before: nat, counter: nat, r: Request)
    requires Counted(t, before) && FreshId(before, counter, r)
    ensures Agrees(t[Key(r) := Value(r.event)], counter, r)
  {
    FreshIdIsFaithful(t, before, counter, r);
  }

  lemma QueueKeepsAgreement(t: Tree, before: nat, counter: nat, r: Request, rs: set<Request>)
    requires Counted(t, before) && FreshId(before, counter, r) && AllAgree(t, before, rs)
    ensures AllAgree(t[Key(r) := Value(r.event)], counter, rs + {r})
  {
    AgreesNew(t, before, counter, r);
    forall q | q in rs ensures Agrees(t[Key(r) := Value(r.event)], counter, q) {
      assert Agrees(t, before, q);
      AgreesStill(t, before, counter, r, q);
    }
  }

  lemma QueueOne(t: Tree, before: nat, counter: nat, r: Request, queued: Table, made: seq<Request>)
    requires Counted(t, before) && FreshId(before, counter, r)
    requires QueueMirrors(t, queued, made)
    ensures Faithful(r) && (r.event.Edu? ==> Key(r) !in t)
    ensures Counted(t[Key(r) := Value(r.event)], counter)
    ensures QueueMirrors(t[Key(r) := Value(r.event)], queued, made + [r])
  {
    FreshIdIsFaithful(t, before, counter, r);
    QueueKeepsCounted(t, before, counter, r);
    QueueKeepsMirror(t, r, queued, made);
  }

  // ---------------------------------------------------------------------
  // Start-up
  // ---------------------------------------------------------------------

  ghost predicate SameGroups(groups: map<Destination, seq<SendingEvent>>, g: map<Destination, seq<Request>>) {
    && groups.Keys == g.Keys
    && forall d :: d in g ==>
         && |groups[d]| == |g[d]|
         && forall i :: 0 <= i < |g[d]| ==> groups[d][i] == g[d][i].event
  }

  ghost predicate ActiveMirrors(t: Tree, active: Table, dropped: set<Request>) {
    forall d :: WellFormed(d) ==> Requests(t, d) == At(active, d) - dropped
  }

  lemma DropMirrors(t: Tree, active: Table, dropped: set<Request>, r: Request)
    requires ActiveMirrors(t, active, dropped) && Faithful(r)
    requires Key(r) in t ==> t[Key(r)] == Value(r.event)
    ensures ActiveMirrors(t - {Key(r)}, active, dropped + {r})
  {
    forall d | WellFormed(d) ensures Requests(t - {Key(r)}, d) == At(active, d) - (dropped + {r}) {
      RemoveRequest(t, r, d);
      if d != r.dest && r in Requests(t, d) {
        KeyOfRequest(t, d, r);
      }
    }
  }

  /** The scanned requests are those whose keys were read and parse. */
  ghost predicate Scanned(t: Tree, keys: seq<Bytes>, scan: seq<Request>) {
    && Distinct(scan) && InKeyOrder(scan)
    && forall r: Request :: r in scan <==> WellFormed(r.dest) && Key(r) in keys && r in Requests(t, r.dest)
  }

  /** The keys the loop has not reached are still as they were. */
  ghost predicate Ahead(t: Tree, now: Tree, keys: seq<Bytes>, i: nat) {
    forall j :: i <= j < |keys| ==> keys[j] in t && keys[j] in now && now[keys[j]] == t[keys[j]]
  }

  lemma AheadNext(t: Tree, before: Tree, after: Tree, keys: seq<Bytes>, i: nat)
    requires Ascending(keys) && i < |keys| && Ahead(t, before, keys, i)
    requires after == before || after == before - {keys[i]}
    ensures Ahead(t, after, keys, i + 1)
  {
    forall j | i + 1 <= j < |keys| ensures keys[j] in after && after[keys[j]] == t[keys[j]] {
      AscendingIsDistinct(keys, i, j);
    }
  }

  lemma GroupLast(scan: seq<Request>, r: Request)
    ensures Group(scan + [r]) == GroupNext(Group(scan), r)
  {
    assert (scan + [r])[..|scan|] == scan;
  }

  lemma ParsedRequest(t: Tree, key: Bytes) returns (r: Request)
    requires key in t && Parse(key, t[key]).Ok?
    ensures WellFormed(r.dest) && r in Requests(t, r.dest) && Faithful(r) && Key(r) == key
    ensures Parse(key, t[key]).dest == r.dest && Parse(key, t[key]).event == r.event
  {
    ParsedKeyIsRequestKey(key, t[key]);
    r := Request(Parse(key, t[key]).dest, IdOf(key), Parse(key, t[key]).event);
    KeyOfRequest(t, r.dest, r);
    ReadIsFaithful(t, r.dest, r);
  }

  /** Two requests read from one key are the same. */
  lemma SameKeySameRequest(t: Tree, q: Request, r: Request)
    requires WellFormed(q.dest) && q in Requests(t, q.dest)
    requires WellFormed(r.dest) && r in Requests(t, r.dest)
    requires Key(q) == Key(r)
    ensures q == r
  {
    KeyOfRequest(t, q.dest, q);
    KeyOfRequest(t, r.dest, r);
    OtherKeys(q.dest, r.dest, q.id, r);
  }

  lemma UnparsedKeyHasNoRequest(t: Tree, key: Bytes, q: Request)
    requires key in t && WellFormed(q.dest) && q in Requests(t, q.dest) && Key(q) == key
    ensures Parse(key, t[key]).Ok?
  {
    KeyRoundTrip(q.dest, q.id, t[key]);
  }

  lemma ScanOne(t: Tree, keys: seq<Bytes>, i: nat, scan: seq<Request>) returns (r: Request)
    requires Ascending(keys) && i < |keys| && keys[i] in t && Scanned(t, keys[..i], scan)
    ensures Parse(keys[i], t[keys[i]]).Ok? ==>
              && Faithful(r) && Key(r) == keys[i] && t[keys[i]] == Value(r.event)
              && Parse(keys[i], t[keys[i]]).dest == r.dest && Parse(keys[i], t[keys[i]]).event == r.event
              && Scanned(t, keys[..i + 1], scan + [r])
    ensures !Parse(keys[i], t[keys[i]]).Ok? ==> Scanned(t, keys[..i + 1], scan)
  {
    var key := keys[i];
    assert keys[..i + 1] == keys[..i] + [key];
    if Parse(key, t[key]).Ok? {
      r := ParsedRequest(t, key);
      ReadIsFaithful(t, r.dest, r);
      LastIsNew(keys[..i + 1]);
      assert r !in scan;
      OrderGrows(keys, i, scan, r);
      forall q: Request | WellFormed(q.dest) && Key(q) == key && q in Requests(t, q.dest) ensures q == r {
        SameKeySameRequest(t, q, r);
      }
    } else {
      r := Request(Normal([]), [], Pdu([]));
      forall q: Request | WellFormed(q.dest) && q in Requests(t, q.dest) ensures Key(q) != key {
        if Key(q) == key {
          UnparsedKeyHasNoRequest(t, key, q);
        }
      }
    }
  }

  lemma ScannedAll(t: Tree, keys: seq<Bytes>, scan: seq<Request>, active: Table)
    requires Scanned(t, keys, scan) && (forall k :: k in t ==> k in keys)
    requires forall d :: if WellFormed(d) then At(active, d) == Requests(t, d) else At(active, d) == {}
    ensures Enumerates(scan, active)
  {
    forall d ensures Of(Elements(scan), d) == At(active, d) {
      forall r ensures r in Of(Elements(scan), d) <==> r in At(active, d) {
        KeyOfRequest(t, d, r);
      }
    }
  }

  /** One transaction for each destination with active requests, carrying them. */
  ghost predicate Resumes(groups: map<Destination, seq<SendingEvent>>, s: State, t: State) {
    forall d {:trigger Flights(t, d)} ::
      && (d in groups <==> At(s.active, d) != {})
      && (d in groups ==> Flights(t, d) == [At(s.active, d)] && Elements(groups[d]) == EventsOf(At(s.active, d)))
  }

  function AllRunning(groups: map<Destination, seq<SendingEvent>>): map<Destination, Status> {
    map d | d in groups :: Running
  }

  lemma StartedStatus(s: State, scan: seq<Request>, groups: map<Destination, seq<SendingEvent>>)
    requires SameGroups(groups, Group(scan).groups)
    ensures AfterStart(s, Group(scan)).status == AllRunning(groups)
  {
    assert groups.Keys == Group(scan).groups.Keys;
  }

  lemma RestartMirrors(s: State, scan: seq<Request>, groups: map<Destination, seq<SendingEvent>>)
    requires HandlerInv(s) && Enumerates(scan, s.active) && Group(scan).dropped == {}
    requires SameGroups(groups, Group(scan).groups)
    requires forall d :: GroupedAs(scan, Group(scan), d)
    ensures AfterStart(s, Group(scan)).active == s.active
    ensures Resumes(groups, s, AfterStart(s, Group(scan)))
  {
    var g := Group(scan);
    assert forall d :: d in s.active ==> s.active[d] - g.dropped == s.active[d];
    assert AfterStart(s, g).active == s.active;
    forall d ensures d in groups <==> At(s.active, d) != {} {
      assert GroupedAs(scan, g, d);
    }
    forall d | d in groups
      ensures Elements(g.groups[d]) == At(s.active, d) && Elements(groups[d]) == EventsOf(At(s.active, d))
    {
      assert GroupedAs(scan, g, d);
      assert Of(g.dropped, d) == {};
      var events := seq(|groups[d]|, i requires 0 <= i < |groups[d]| => (groups[d][i], Key(g.groups[d][i])));
      assert Events(events) == groups[d];
      TaggedEvents(events, g.groups[d]);
    }
  }

  lemma MirrorsActive(queued: Tree, active: Tree, s: State)
    requires TreesMirror(queued, active, s)
    ensures ActiveMirrors(active, s.active, {})
    ensures forall d :: if WellFormed(d) then At(s.active, d) == Requests(active, d) else At(s.active, d) == {}
  {
  }

  lemma RestartIsStart(s: State, scan: seq<Request>, groups: map<Destination, seq<SendingEvent>>,
                       queued: Tree, scanned: Tree, active: Tree)
    requires HandlerInv(s) && s.phase.Starting? && Enumerates(scan, s.active)
    requires TreesMirror(queued, scanned, s)
    requires SameGroups(groups, Group(scan).groups) && ActiveMirrors(active, s.active, Group(scan).dropped)
    ensures HandlerInv(AfterStart(s, Group(scan))) && AfterStart(s, Group(scan)).active == s.active
    ensures AfterStart(s, Group(scan)).status == AllRunning(groups)
    ensures TreesMirror(queued, active, AfterStart(s, Group(scan)))
    ensures Resumes(groups, s, AfterStart(s, Group(scan))) && Group(scan).dropped == {}
  {
    StartKeepsHandlerInv(s, scan);
    forall d ensures |At(s.active, d)| <= MAX_BATCH {
      assert DestinationInv(s, d);
    }
    NoneDropped(scan, s.active);
    RestartMirrors(s, scan, groups);
    StartedStatus(s, scan, groups);
  }

  /** Each destination's active requests, in the order of their keys. */
  ghost predicate AllInOrder(active: Tree, groups: map<Destination, seq<SendingEvent>>) {
    forall d {:trigger HasOrder(active, d, groups[d])} | d in groups :: HasOrder(active, d, groups[d])
  }

  ghost predicate HasOrder(t: Tree, d: Destination, events: seq<SendingEvent>) {
    exists keys: seq<Bytes> :: AllOf(t, d, keys) && EventsAt(t, d, keys, events)
  }

  lemma RestartInOrder(s: State, scan: seq<Request>, groups: map<Destination, seq<SendingEvent>>, queued: Tree, active: Tree)
    requires TreesMirror(queued, active, s) && HandlerInv(s) && Enumerates(scan, s.active) && InKeyOrder(scan)
    requires SameGroups(groups, Group(scan).groups) && Group(scan).dropped == {}
    ensures AllInOrder(active, groups)
  {
    var g := Group(scan);
    forall d | d in groups ensures HasOrder(active, d, groups[d]) {
      GroupKeepsFirst31(scan, d);
      GroupsInOrder(scan, d);
      assert Of(g.dropped, d) == {};
      assert Elements(g.groups[d]) == At(s.active, d);
      GroupKeys(active, d, g.groups[d], groups[d]);
    }
  }

  lemma Restarted(s: State, scan: seq<Request>, groups: map<Destination, seq<SendingEvent>>,
                  queued: Tree, scanned: Tree, active: Tree)
    requires HandlerInv(s) && s.phase.Starting? && TreesMirror(queued, scanned, s)
    requires Scanned(scanned, InOrder(scanned.Keys), scan)
    requires SameGroups(groups, Group(scan).groups) && ActiveMirrors(active, s.active, Group(scan).dropped)
    requires Group(scan).dropped == {} ==> active == scanned
    ensures Enumerates(scan, s.active) && active == scanned && AllInOrder(active, groups)
    ensures var t := AfterStart(s, Group(scan));
            HandlerInv(t) && t.active == s.active && t.status == AllRunning(groups)
            && TreesMirror(queued, active, t) && Resumes(groups, s, t)
  {
    ScannedAll(scanned, InOrder(scanned.Keys), scan, s.active);
    RestartIsStart(s, scan, groups, queued, scanned, active);
    RestartInOrder(s, scan, groups, queued, scanned);
  }

  /** The keys under a prefix that a deleting loop has not reached. */
  ghost predicate Left(t: Tree, prefix: Bytes, keys: seq<Bytes>, i: nat)
    requires i <= |keys|
  {
    && (forall j :: i <= j < |keys| ==> keys[j] in t)
    && (forall k :: k in t && prefix <= k ==> k in keys[i..])
  }

  lemma LeftNext(t: Tree, prefix: Bytes, keys: seq<Bytes>, i: nat)
    requires Ascending(keys) && i < |keys| && Left(t, prefix, keys, i)
    ensures Left(t - {keys[i]}, prefix, keys, i + 1)
  {
    FromHere(keys, i);
    forall j | i < j < |keys| ensures keys[j] != keys[i] {
      AscendingIsDistinct(keys, i, j);
    }
  }

  lemma NoneLeft(t: Tree, d: Destination, keys: seq<Bytes>)
    requires Left(t, Prefix(d), keys, |keys|)
    ensures Requests(t, d) == {} && Cleared(t, Prefix(d)) == t
  {
  }

  lemma ClearedAnyway(t: Tree, prefix: Bytes, key: Bytes)
    requires prefix <= key
    ensures Cleared(t - {key}, prefix) == Cleared(t, prefix)
  {
  }

  /** The handler's own steps leave posting and time to others. */
  predicate SameOutside(s: State, t: State) {
    t.posting == s.posting && t.now == s.now
  }

  /** Only this destination's futures changed. */
  ghost predicate OthersInFlight(s: State, t: State, d: Destination) {
    forall e {:trigger Flights(t, e)} | e != d :: Flights(t, e) == Flights(s, e)
  }

  /** Only destinations with stored requests have a future. */
  lemma InFlightIsWellFormed(queued: Tree, active: Tree, s: State, d: Destination)
    requires TreesMirror(queued, active, s) && HandlerInv(s) && s.phase.Idle? && Flights(s, d) != []
    ensures WellFormed(d)
  {
    assert DestinationInv(s, d);
  }

  lemma Received(s: State)
    requires s.phase.Idle? && s.channel != []
    ensures Follows(s, [Receive], AfterReceive(s))
  {
    FollowsThen(s, [], s, Receive);
    assert [] + [Receive] == [Receive];
  }

  /** Looking at the queue after a success. */
  lemma ScanStep(queued: Tree, active: Tree, s: State, d: Destination, keys: seq<Bytes>)
    requires TreesMirror(queued, active, s) && HandlerInv(s) && WellFormed(d)
    requires s.phase == Clearing(d) && At(s.active, d) == {}
    requires keys == First(ScanPrefix(queued, Prefix(d)), MAX_BATCH)
    ensures (forall k :: k in keys ==> k in queued && Prefix(d) <= k) && Ascending(keys)
    ensures var picked := RequestsAt(queued, d, keys);
            && picked <= Requests(queued, d) && (picked == {} <==> keys == [])
            && HandlerInv(AfterScan(s, d, picked)) && Follows(s, [Scan(picked)], AfterScan(s, d, picked))
  {
    TakeThirty(queued, d);
    var picked := RequestsAt(queued, d, keys);
    assert DestinationInv(s, d);
    assert FirstOf(picked, At(s.queued, d));
    ScanKeepsHandlerInv(s, picked);
    FollowsThen(s, [], s, Scan(picked));
    assert [] + [Scan(picked)] == [Scan(picked)];
    if keys != [] {
      assert RequestAt(queued, d, keys[0]) in picked;
    }
  }

  /** The two writes that mark one request active. */
  lemma MarkStep(queued: Tree, active: Tree, s: State, actions: seq<Action>, s0: State, r: Request)
    requires TreesMirror(queued, active, s0) && HandlerInv(s0) && Follows(s, actions, s0)
    requires s0.phase.Marking? && s0.phase.half.Settled? && r in s0.phase.todo
    requires WellFormed(s0.phase.dest) && Keyed(s0.phase.batch) && Faithful(r)
    requires Key(r) in queued ==> queued[Key(r)] == Value(r.event)
    ensures var t := AfterMarkRemove(AfterMarkInsert(s0, r));
            && TreesMirror(queued - {Key(r)}, active[Key(r) := Value(r.event)], t) && HandlerInv(t)
            && Follows(s, actions + [MarkInsert(r)] + [MarkRemove], t)
  {
    UnmarkedIsNotActive(queued, active, s0, r);
    InsertMirrors(queued, active, s0, r);
    MarkInsertKeepsHandlerInv(s0, r);
    FollowsThen(s, actions, s0, MarkInsert(r));
    var mid := AfterMarkInsert(s0, r);
    RemoveMirrors(queued, active[Key(r) := Value(r.event)], mid);
    MarkRemoveKeepsHandlerInv(mid);
    FollowsThen(s, actions + [MarkInsert(r)], mid, MarkRemove);
  }

  /** A marked batch is launched. */
  lemma LaunchStep(s: State, first: Action, mid: State, more: seq<Action>, marked: State)
    requires Follows(s, [first], mid) && Follows(mid, more, marked) && HandlerInv(marked)
    requires marked.phase.Marking? && marked.phase.todo == {} && marked.phase.half.Settled?
    ensures HandlerInv(AfterLaunch(marked)) && Follows(s, [first] + more + [Launch], AfterLaunch(marked))
    ensures Flights(AfterLaunch(marked), marked.phase.dest) == [marked.phase.batch]
    ensures OthersInFlight(marked, AfterLaunch(marked), marked.phase.dest)
  {
    FollowsJoin(s, [first], mid, more, marked);
    LaunchKeepsHandlerInv(marked);
    FollowsThen(s, [first] + more, marked, Launch);
    assert DestinationInv(marked, marked.phase.dest);
  }

  lemma PostKeeps(s: State, r: Request)
    requires HandlerInv(s) && r in s.posting
    ensures HandlerInv(Step(s, SendingProtocol.Post(r))) && Mail(Step(s, SendingProtocol.Post(r))) <= Mail(s)
  {
    QuietStepKeepsHandlerInv(s, Step(s, SendingProtocol.Post(r)));
  }

  /** The keys of EDUs are new. */
  ghost predicate NewKeys(t: Tree, reqs: seq<(Destination, SendingEvent)>, keys: seq<Bytes>) {
    |keys| <= |reqs| && forall i :: 0 <= i < |keys| && reqs[i].1.Edu? ==> keys[i] !in t
  }

  /** All keys of the batch hold their request's value, and no other key changed. */
  ghost predicate Written(before: Tree, after: Tree, reqs: seq<(Destination, SendingEvent)>, keys: seq<Bytes>) {
    && |keys| == |reqs|
    && (forall i {:trigger keys[i]} | 0 <= i < |keys| :: keys[i] in after && after[keys[i]] == Value(reqs[i].1))
    && WithoutKeys(after, keys) == WithoutKeys(before, keys)
  }

  lemma WrittenNext(before: Tree, after: Tree, reqs: seq<(Destination, SendingEvent)>, keys: seq<Bytes>, r: Request,
                    counted: nat, counter: nat)
    requires |keys| < |reqs| && Written(before, after, reqs[..|keys|], keys) && reqs[|keys|] == (r.dest, r.event)
    requires Counted(after, counted) && FreshId(counted, counter, r)
    ensures Written(before, after[Key(r) := Value(r.event)], reqs[..|keys| + 1], keys + [Key(r)])
  {
    FreshIdIsFaithful(after, counted, counter, r);
    var t, all := after[Key(r) := Value(r.event)], keys + [Key(r)];
    WithoutWritten(before, after, keys, Key(r), Value(r.event));
    forall i | 0 <= i < |all| ensures all[i] in t && t[all[i]] == Value(reqs[..|keys| + 1][i].1) {
      if i < |keys| {
        assert all[i] == keys[i];
      }
    }
  }

  /** The loop of `queue_requests`, with what it is about to write. */
  ghost predicate Queueing(queued: Tree, t: Tree, counter: nat, s: State,
                           reqs: seq<(Destination, SendingEvent)>, keys: seq<Bytes>, made: seq<Request>) {
    && Counted(t, counter) && (forall k :: k in queued ==> k in t)
    && AllServe(made, reqs, keys) && NewKeys(queued, reqs, keys)
    && QueueMirrors(t, s.queued, made) && AllAgree(t, counter, Mail(s) + Elements(made))
  }

  lemma QueueNext(queued: Tree, t: Tree, before: nat, counter: nat, s: State,
                  reqs: seq<(Destination, SendingEvent)>, keys: seq<Bytes>, made: seq<Request>, r: Request)
    requires Queueing(queued, t, before, s, reqs, keys, made) && |made| < |reqs|
    requires FreshId(before, counter, r) && reqs[|made|] == (r.dest, r.event)
    ensures Queueing(queued, t[Key(r) := Value(r.event)], counter, s, reqs, keys + [Key(r)], made + [r])
  {
    QueueOne(t, before, counter, r, s.queued, made);
    QueueKeepsAgreement(t, before, counter, r, Mail(s) + Elements(made));
    MailWith(s, made, r);
    ServeOneMore(made, reqs, keys, r);
  }

  /** What it is about to write is also all it is about to write. */
  ghost predicate QueuedSoFar(queued: Tree, t: Tree, counter: nat, s: State,
                              reqs: seq<(Destination, SendingEvent)>, keys: seq<Bytes>, made: seq<Request>) {
    Queueing(queued, t, counter, s, reqs, keys, made) && Written(queued, t, reqs[..|made|], keys)
  }

  lemma QueueStep(queued: Tree, t: Tree, before: nat, counter: nat, s: State,
                  reqs: seq<(Destination, SendingEvent)>, keys: seq<Bytes>, made: seq<Request>, r: Request)
    requires QueuedSoFar(queued, t, before, s, reqs, keys, made) && |made| < |reqs|
    requires FreshId(before, counter, r) && reqs[|made|] == (r.dest, r.event)
    ensures QueuedSoFar(queued, t[Key(r) := Value(r.event)], counter, s, reqs, keys + [Key(r)], made + [r])
  {
    WrittenNext(queued, t, reqs, keys, r, before, counter);
    QueueNext(queued, t, before, counter, s, reqs, keys, made, r);
  }

  lemma MailShrinks(s: State, t: State)
    requires t.posting == s.posting && (t.channel == s.channel || (s.channel != [] && t.channel == s.channel[1..]))
    ensures Mail(t) <= Mail(s)
  {
    assert forall r | r in t.channel :: r in s.channel;
  }

  lemma MailWith(s: State, made: seq<Request>, r: Request)
    ensures Mail(s) + Elements(made) + {r} == Mail(s) + Elements(made + [r])
  {
  }

  lemma MailAfterEnqueue(s: State, made: seq<Request>)
    ensures Mail(AfterEnqueue(s, made)) == Mail(s) + Elements(made)
  {
  }

  /** A destination without a status is started with the one new request, and for a
      server with the EDUs found for it. */
  ghost predicate StartsWith(r: Request, edus: seq<Bytes>, events: seq<SendingEvent>, s: State, t: State) {
    && t.status == s.status[r.dest := Running] && Flights(t, r.dest) == [{r}]
    && events == [r.event] + if r.dest.Normal? then Edus(edus) else []
  }

  /** A failed destination is sent all its active requests again, in the order of
      their keys, under the count it had. */
  ghost predicate Retries(d: Destination, events: seq<SendingEvent>, keys: seq<Bytes>, active: Tree, s: State, t: State) {
    && d in s.status && s.status[d].Failed? && t.status == s.status[d := Retrying(s.status[d].tries)]
    && Flights(t, d) == [At(s.active, d)] && AllOf(active, d, keys) && EventsAt(active, d, keys, events)
  }

  /** What comes of a message. */
  ghost predicate Answers(r: Request, edus: seq<Bytes>, inputs: Option<seq<SendingEvent>>, keys: seq<Bytes>,
                          s: State, t: State, active: Tree) {
    match inputs
    case None => s.channel != [] && t == s.(channel := s.channel[1..])
    case Some(events) =>
      && Flights(s, r.dest) == [] && |Flights(t, r.dest)| == 1
      && if r.dest in s.status then Retries(r.dest, events, keys, active, s, t) else StartsWith(r, edus, events, s, t)
  }

  /** The request's key moves from one tree to the other. */
  predicate Transferred(r: Request, queued: Tree, active: Tree, queued': Tree, active': Tree) {
    queued' == queued - {Key(r)} && active' == active[Key(r) := Value(r.event)]
  }

  /** `Service` of the source, over its two sending trees. */
  class Service {
    var queuedTree: Tree
    var activeTree: Tree
    var counter: nat
    var status: map<Destination, Status>
    var channel: seq<Request>

    ghost predicate Mirrors(s: State)
      reads this
    {
      && TreesMirror(queuedTree, activeTree, s)
      && status == s.status && channel == s.channel
    }

    /** What every operation keeps: the code is in a state of the protocol, and
        whatever is under way is what the queued tree holds. */
    ghost predicate Inv(s: State)
      reads this
    {
      && Mirrors(s) && HandlerInv(s)
      && Counted(queuedTree, counter) && AllAgree(queuedTree, counter, Mail(s))
    }

    constructor ()
      ensures queuedTree == map[] && activeTree == map[] && counter == 0 && status == map[] && channel == []
    {
      queuedTree, activeTree, counter, status, channel := map[], map[], 0, map[], [];
    }

    /** `delete_active_request`. */
    method DeleteActiveRequest(key: Bytes)
      modifies this`activeTree
      ensures activeTree == old(activeTree) - {key}
    {
      activeTree := activeTree - {key};
    }

    /** One deletion while a response is handled is one step of the protocol. */
    method ClearOneRequest(key: Bytes, ghost d: Destination, ghost s: State, ghost s0: State, ghost actions0: seq<Action>)
      returns (ghost t: State, ghost actions: seq<Action>)
      requires WellFormed(d) && Mirrors(s0) && Follows(s, actions0, s0) && s0.phase == Clearing(d)
      requires key in activeTree && Prefix(d) <= key
      modifies this`activeTree
      ensures activeTree == old(activeTree) - {key}
      ensures Mirrors(t) && Follows(s, actions, t) && t == s0.(active := t.active)
    {
      ghost var r := RequestAt(activeTree, d, key);
      ClearKey(activeTree, d, key, s0);
      FollowsThen(s, actions0, s0, ClearOne(r));
      ClearMirrors(queuedTree, activeTree, s0, r);
      DeleteActiveRequest(key);
      t, actions := Step(s0, ClearOne(r)), actions0 + [ClearOne(r)];
    }

    /** What the deleting loop has done after `i` of the keys. */
    ghost predicate ClearedSoFar(d: Destination, keys: seq<Bytes>, i: nat, s: State, t: State, actions: seq<Action>, before: Tree)
      requires i <= |keys|
      reads this
    {
      && Mirrors(t) && Follows(s, actions, t) && t == s.(active := t.active)
      && Left(activeTree, Prefix(d), keys, i) && Cleared(activeTree, Prefix(d)) == Cleared(before, Prefix(d))
    }

    method ClearNext(d: Destination, keys: seq<Bytes>, i: nat, ghost s: State, ghost s0: State, ghost actions0: seq<Action>,
                     ghost before: Tree)
      returns (ghost t: State, ghost actions: seq<Action>)
      requires WellFormed(d) && s.phase == Clearing(d) && i < |keys| && Ascending(keys) && Prefix(d) <= keys[i]
      requires ClearedSoFar(d, keys, i, s, s0, actions0, before)
      modifies this`activeTree
      ensures ClearedSoFar(d, keys, i + 1, s, t, actions, before)
    {
      LeftNext(activeTree, Prefix(d), keys, i);
      ClearedAnyway(activeTree, Prefix(d), keys[i]);
      t, actions := ClearOneRequest(keys[i], d, s, s0, actions0);
    }

    /** `delete_all_active_requests_for`. */
    method DeleteAllActiveRequestsFor(d: Destination, ghost s: State)
      returns (ghost t: State, ghost actions: seq<Action>)
      requires WellFormed(d) && Mirrors(s) && s.phase == Clearing(d)
      modifies this`activeTree
      ensures Mirrors(t) && Follows(s, actions, t)
      ensures t == s.(active := t.active) && At(t.active, d) == {}
      ensures activeTree == Cleared(old(activeTree), Prefix(d))
    {
      var keys := ScanPrefix(activeTree, Prefix(d));
      ScanPrefixExact(activeTree, Prefix(d));
      t, actions := s, [];
      var i := 0;
      while i < |keys|
        invariant 0 <= i <= |keys| && ClearedSoFar(d, keys, i, s, t, actions, old(activeTree))
      {
        t, actions := ClearNext(d, keys, i, s, t, actions, old(activeTree));
        i := i + 1;
      }
      NoneLeft(activeTree, d, keys);
    }

    /** What `mark_as_active` has done after `i` of its events. */
    ghost predicate Marked(events: seq<(SendingEvent, Bytes)>, reqs: seq<Request>, i: nat, s: State, t: State,
                           actions: seq<Action>, queued: Tree, active: Tree)
      requires i <= |events| == |reqs| && s.phase.Marking?
      reads this
    {
      && Mirrors(t) && HandlerInv(t) && Follows(s, actions, t)
      && t.phase == s.phase.(todo := Elements(reqs[i..])) && t.inFlight == s.inFlight
      && Shrunk(queued, queuedTree) && SameOutside(s, t)
      && (forall r :: r in reqs && Key(r) in queuedTree ==> queuedTree[Key(r)] == Value(r.event))
      && queuedTree == Taken(queued, events[..i]) && activeTree == Given(active, events[..i])
    }

    /** `mark_as_active`: each key is inserted into the one tree, then removed
        from the other. */
    method MarkAsActive(events: seq<(SendingEvent, Bytes)>, ghost reqs: seq<Request>, ghost s: State)
      returns (ghost t: State, ghost actions: seq<Action>)
      requires Mirrors(s) && HandlerInv(s) && s.phase.Marking? && s.phase.half.Settled?
      requires WellFormed(s.phase.dest) && Keyed(s.phase.batch)
      requires Tagged(events, reqs) && Distinct(reqs) && Elements(reqs) == s.phase.todo
      requires forall r :: r in reqs ==> Faithful(r)
      requires forall r :: r in reqs && Key(r) in queuedTree ==> queuedTree[Key(r)] == Value(r.event)
      modifies this`queuedTree, this`activeTree
      ensures Mirrors(t) && HandlerInv(t) && Follows(s, actions, t)
      ensures t.phase == s.phase.(todo := {}) && t.inFlight == s.inFlight
      ensures Shrunk(old(queuedTree), queuedTree) && SameOutside(s, t)
      ensures queuedTree == Taken(old(queuedTree), events) && activeTree == Given(old(activeTree), events)
    {
      t, actions := s, [];
      assert reqs[0..] == reqs;
      var i := 0;
      while i < |events|
        invariant 0 <= i <= |events| && Marked(events, reqs, i, s, t, actions, old(queuedTree), old(activeTree))
      {
        t, actions := MarkNext(events, reqs, i, s, t, actions, old(queuedTree), old(activeTree));
        i := i + 1;
      }
      assert events[..i] == events && Elements(reqs[i..]) == {};
    }

    method MarkNext(events: seq<(SendingEvent, Bytes)>, ghost reqs: seq<Request>, i: nat, ghost s: State, ghost s0: State,
                    ghost actions0: seq<Action>, ghost queued: Tree, ghost active: Tree)
      returns (ghost t: State, ghost actions: seq<Action>)
      requires i < |events| && Tagged(events, reqs) && Distinct(reqs) && s.phase.Marking? && s.phase.half.Settled?
      requires WellFormed(s.phase.dest) && Keyed(s.phase.batch) && forall r :: r in reqs ==> Faithful(r)
      requires Marked(events, reqs, i, s, s0, actions0, queued, active)
      modifies this`queuedTree, this`activeTree
      ensures Marked(events, reqs, i + 1, s, t, actions, queued, active)
    {
      OneMoreMoved(queued, active, events, i);
      FromHere(reqs, i);
      t, actions := MarkOne(events[i].0, events[i].1, reqs[i], s, s0, actions0, reqs[i + 1..], reqs);
    }

    method MarkOne(e: SendingEvent, key: Bytes, ghost r: Request, ghost s: State, ghost s0: State,
                   ghost actions0: seq<Action>, ghost rest: seq<Request>, ghost reqs: seq<Request>)
      returns (ghost t: State, ghost actions: seq<Action>)
      requires Mirrors(s0) && HandlerInv(s0) && Follows(s, actions0, s0)
      requires s0.phase.Marking? && s0.phase.half.Settled? && r in s0.phase.todo
      requires s0.phase.todo - {r} == Elements(rest)
      requires WellFormed(s0.phase.dest) && Keyed(s0.phase.batch)
      requires e == r.event && key == Key(r) && Faithful(r) && r in reqs
      requires forall q :: q in reqs && Key(q) in queuedTree ==> queuedTree[Key(q)] == Value(q.event)
      modifies this`queuedTree, this`activeTree
      ensures Mirrors(t) && HandlerInv(t) && Follows(s, actions, t)
      ensures t.phase == s0.phase.(todo := Elements(rest)) && t.inFlight == s0.inFlight
      ensures queuedTree == old(queuedTree) - {key} && activeTree == old(activeTree)[key := Value(e)] && SameOutside(s0, t)
      ensures forall q :: q in reqs && Key(q) in queuedTree ==> queuedTree[Key(q)] == Value(q.event)
    {
      MarkStep(queuedTree, activeTree, s, actions0, s0, r);
      activeTree := activeTree[key := Value(e)];
      queuedTree := queuedTree - {key};
      t, actions := AfterMarkRemove(AfterMarkInsert(s0, r)), actions0 + [MarkInsert(r)] + [MarkRemove];
    }

    /** The tail of `handle_response`: pick up what was queued meanwhile. */
    method SendQueued(d: Destination, ghost s: State)
      returns (inputs: Option<seq<SendingEvent>>, ghost batch: seq<Bytes>, ghost t: State, ghost actions: seq<Action>)
      requires Mirrors(s) && HandlerInv(s) && WellFormed(d)
      requires s.phase == Clearing(d) && At(s.active, d) == {}
      modifies this`queuedTree, this`activeTree, this`status
      ensures Mirrors(t) && HandlerInv(t) && Follows(s, actions, t) && t.phase.Idle?
      ensures Carries(inputs, t, d) && OthersInFlight(s, t, d)
      ensures Shrunk(old(queuedTree), queuedTree) && SameOutside(s, t)
      ensures BatchMoved(old(queuedTree), old(activeTree), queuedTree, activeTree, d, batch, inputs)
      ensures status == if batch == [] then old(status) - {d} else old(status)
    {
      var keys := First(ScanPrefix(queuedTree, Prefix(d)), MAX_BATCH);
      batch := keys;
      FirstAreOldest(queuedTree, d);
      ScanStep(queuedTree, activeTree, s, d, keys);
      ghost var picked := RequestsAt(queuedTree, d, keys);
      ghost var mid := AfterScan(s, d, picked);
      if keys == [] {
        t, actions := ForgetStatus(d, s, mid);
        inputs := None;
      } else {
        inputs, t, actions := MarkAndSend(d, keys, s, mid);
      }
    }

    method ForgetStatus(d: Destination, ghost s: State, ghost mid: State)
      returns (ghost t: State, ghost actions: seq<Action>)
      requires Mirrors(mid) && HandlerInv(mid) && mid.phase == Emptied(d) && Follows(s, [Scan({})], mid)
      requires OldestOf(queuedTree, d, []) && mid.inFlight == s.inFlight && SameOutside(s, mid)
      modifies this`status
      ensures BatchMoved(queuedTree, activeTree, queuedTree, activeTree, d, [], None)
      ensures Mirrors(t) && HandlerInv(t) && Follows(s, actions, t) && t.phase.Idle?
      ensures Carries(None, t, d) && OthersInFlight(s, t, d) && SameOutside(s, t) && status == old(status) - {d}
    {
      NoBatch(queuedTree, activeTree, d);
      assert DestinationInv(mid, d);
      ForgetKeepsHandlerInv(mid);
      FollowsThen(s, [Scan({})], mid, Forget);
      status := status - {d};
      t, actions := AfterForget(mid, d), [Scan({})] + [Forget];
    }

    method MarkAndSend(d: Destination, keys: seq<Bytes>, ghost s: State, ghost mid: State)
      returns (inputs: Option<seq<SendingEvent>>, ghost t: State, ghost actions: seq<Action>)
      requires Mirrors(mid) && HandlerInv(mid) && WellFormed(d) && Ascending(keys)
      requires forall k :: k in keys ==> k in queuedTree && Prefix(d) <= k
      requires RequestsAt(queuedTree, d, keys) <= Requests(queuedTree, d)
      requires mid.phase == Marking(d, RequestsAt(queuedTree, d, keys), RequestsAt(queuedTree, d, keys), Settled)
      requires Follows(s, [Scan(RequestsAt(queuedTree, d, keys))], mid)
      requires OldestOf(queuedTree, d, keys) && keys != [] && mid.inFlight == s.inFlight && SameOutside(s, mid)
      modifies this`queuedTree, this`activeTree
      ensures BatchMoved(old(queuedTree), old(activeTree), queuedTree, activeTree, d, keys, inputs)
      ensures Mirrors(t) && HandlerInv(t) && Follows(s, actions, t) && t.phase.Idle?
      ensures Carries(inputs, t, d) && OthersInFlight(s, t, d)
      ensures Shrunk(old(queuedTree), queuedTree) && SameOutside(s, t)
    {
      ghost var picked := RequestsAt(queuedTree, d, keys);
      var events := Read(queuedTree, d, keys);
      ghost var reqs := RequestsOf(queuedTree, d, keys);
      ReadTagged(queuedTree, d, keys);
      ReadElements(queuedTree, d, keys);
      forall r | r in reqs ensures Faithful(r) && (Key(r) in queuedTree ==> queuedTree[Key(r)] == Value(r.event)) {
        assert r in Elements(reqs);
        ReadIsFaithful(queuedTree, d, r);
      }
      BatchIsKeyed(queuedTree, d, keys);
      ReadBatch(queuedTree, activeTree, d, keys);
      ghost var marked, more := MarkAsActive(events, reqs, mid);
      LaunchStep(s, Scan(picked), mid, more, marked);
      TaggedEvents(events, reqs);
      inputs, t, actions := Some(Events(events)), AfterLaunch(marked), [Scan(picked)] + more + [Launch];
    }

    /** `handle_response`. */
    method HandleResponse(d: Destination, ok: bool, now: nat, ghost s: State, ghost i: nat)
      returns (inputs: Option<seq<SendingEvent>>, ghost batch: seq<Bytes>, ghost t: State, ghost actions: seq<Action>)
      requires Inv(s) && s.phase.Idle? && s.now == now && i < |Flights(s, d)|
      modifies this`queuedTree, this`activeTree, this`status
      ensures Inv(t) && Follows(s, actions, t) && t.phase.Idle?
      ensures actions != [] && actions[0] == if ok then RespondOk(d, i) else RespondErr(d, i)
      ensures Carries(inputs, t, d) && OthersInFlight(s, t, d) && SameOutside(s, t)
      ensures if ok then
                BatchMoved(old(queuedTree), Cleared(old(activeTree), Prefix(d)), queuedTree, activeTree, d, batch, inputs)
              else
                queuedTree == old(queuedTree) && activeTree == old(activeTree) && inputs.None?
    {
      InFlightIsWellFormed(queuedTree, activeTree, s, d);
      if ok {
        inputs, batch, t, actions := HandleOk(d, s, i);
      } else {
        t, actions := HandleError(d, now, s, i);
        inputs, batch := None, [];
      }
      MailShrinks(s, t);
      ShrunkKeeps(old(queuedTree), queuedTree, counter, Mail(s), Mail(t));
    }

    method HandleError(d: Destination, now: nat, ghost s: State, ghost i: nat)
      returns (ghost t: State, ghost actions: seq<Action>)
      requires Mirrors(s) && HandlerInv(s) && s.phase.Idle? && s.now == now && i < |Flights(s, d)|
      modifies this`status
      ensures Mirrors(t) && HandlerInv(t) && Follows(s, actions, t) && t.phase.Idle?
      ensures actions == [RespondErr(d, i)] && Flights(t, d) == [] && OthersInFlight(s, t, d) && SameOutside(s, t)
    {
      assert DestinationInv(s, d);
      ErrorKeepsHandlerInv(s, d, i);
      FollowsThen(s, [], s, RespondErr(d, i));
      t, actions := AfterError(s, d, i), [] + [RespondErr(d, i)];
      if d in status {
        match status[d] {
          case Running => status := status[d := Failed(1, now)];
          case Retrying(n) => status := status[d := Failed(n + 1, now)];
          case Failed(_, _) =>
        }
      }
    }

    method HandleOk(d: Destination, ghost s: State, ghost i: nat)
      returns (inputs: Option<seq<SendingEvent>>, ghost batch: seq<Bytes>, ghost t: State, ghost actions: seq<Action>)
      requires Mirrors(s) && HandlerInv(s) && s.phase.Idle? && WellFormed(d) && i < |Flights(s, d)|
      modifies this`queuedTree, this`activeTree, this`status
      ensures Mirrors(t) && HandlerInv(t) && Follows(s, actions, t) && t.phase.Idle?
      ensures actions != [] && actions[0] == RespondOk(d, i)
      ensures Carries(inputs, t, d) && OthersInFlight(s, t, d)
      ensures Shrunk(old(queuedTree), queuedTree) && SameOutside(s, t)
      ensures BatchMoved(old(queuedTree), Cleared(old(activeTree), Prefix(d)), queuedTree, activeTree, d, batch, inputs)
    {
      assert DestinationInv(s, d);
      OkKeepsHandlerInv(s, d, i);
      FollowsThen(s, [], s, RespondOk(d, i));
      ghost var s1 := AfterOk(s, d, i);
      ghost var s2, a2 := DeleteAllActiveRequestsFor(d, s1);
      FollowsJoin(s, [] + [RespondOk(d, i)], s1, a2, s2);
      FollowsKeepsInv(s1, a2, s2);
      ghost var a3;
      inputs, batch, t, a3 := SendQueued(d, s2);
      FollowsJoin(s, [] + [RespondOk(d, i)] + a2, s2, a3, t);
      actions := [] + [RespondOk(d, i)] + a2 + a3;
    }

    /** The vacant branch of `select_events`: mark the one new request. */
    method SendNew(r: Request, edus: seq<Bytes>, ghost s: State, ghost mid: State)
      returns (events: seq<SendingEvent>, ghost t: State, ghost actions: seq<Action>)
      requires HandlerInv(mid) && Faithful(r) && Mirrors(mid)
      requires mid.phase == Marking(r.dest, {r}, {r}, Settled) && Follows(s, [Receive], mid)
      requires Key(r) in queuedTree ==> queuedTree[Key(r)] == Value(r.event)
      modifies this`queuedTree, this`activeTree
      ensures Mirrors(t) && HandlerInv(t) && Follows(s, actions, t) && t.phase.Idle?
      ensures actions != [] && actions[0] == Receive
      ensures Flights(t, r.dest) == [{r}] && OthersInFlight(mid, t, r.dest)
      ensures Shrunk(old(queuedTree), queuedTree) && SameOutside(mid, t)
      ensures events == [r.event] + if r.dest.Normal? then Edus(edus) else []
      ensures queuedTree == old(queuedTree) - {Key(r)} && activeTree == old(activeTree)[Key(r) := Value(r.event)]
    {
      assert Elements([r]) == {r};
      OneMoved(queuedTree, activeTree, r.event, Key(r));
      ghost var marked, more := MarkAsActive([(r.event, Key(r))], [r], mid);
      LaunchStep(s, Receive, mid, more, marked);
      events := [r.event];
      if r.dest.Normal? {
        events := events + Edus(edus);
      }
      t, actions := AfterLaunch(marked), [Receive] + more + [Launch];
    }

    /** `handle_receiver` and `select_events`; `edus` is what `select_edus`
        found for a server. */
    method HandleReceiver(edus: seq<Bytes>, now: nat, ghost s: State)
      returns (inputs: Option<seq<SendingEvent>>, ghost keys: seq<Bytes>, ghost t: State, ghost actions: seq<Action>)
      requires Inv(s) && s.phase.Idle? && s.now == now && channel != []
      modifies this`queuedTree, this`activeTree, this`status, this`channel
      ensures Inv(t) && Follows(s, actions, t) && t.phase.Idle? && channel == old(channel[1..])
      ensures actions != [] && actions[0] == Receive
      ensures OthersInFlight(s, t, s.channel[0].dest) && SameOutside(s, t)
      ensures Answers(s.channel[0], edus, inputs, keys, s, t, activeTree)
      ensures inputs.Some? <==> s.channel[0].dest !in s.status || Due(s.status[s.channel[0].dest], now)
      ensures if s.channel[0].dest in s.status then queuedTree == old(queuedTree) && activeTree == old(activeTree)
              else Transferred(s.channel[0], old(queuedTree), old(activeTree), queuedTree, activeTree)
    {
      var r := channel[0];
      assert Agrees(queuedTree, counter, r);
      inputs, keys, t, actions := SelectEvents(r, edus, now, s);
      MailShrinks(s, t);
      ShrunkKeeps(old(queuedTree), queuedTree, counter, Mail(s), Mail(t));
    }

    method SelectEvents(r: Request, edus: seq<Bytes>, now: nat, ghost s: State)
      returns (inputs: Option<seq<SendingEvent>>, ghost keys: seq<Bytes>, ghost t: State, ghost actions: seq<Action>)
      requires Mirrors(s) && HandlerInv(s) && s.phase.Idle? && s.now == now && channel != [] && channel[0] == r
      requires Faithful(r) && (Key(r) in queuedTree ==> queuedTree[Key(r)] == Value(r.event))
      modifies this`queuedTree, this`activeTree, this`status, this`channel
      ensures Mirrors(t) && HandlerInv(t) && Follows(s, actions, t) && t.phase.Idle? && channel == old(channel[1..])
      ensures actions != [] && actions[0] == Receive
      ensures OthersInFlight(s, t, r.dest) && SameOutside(s, t) && Shrunk(old(queuedTree), queuedTree)
      ensures Answers(r, edus, inputs, keys, s, t, activeTree)
      ensures inputs.Some? <==> r.dest !in s.status || Due(s.status[r.dest], now)
      ensures if r.dest in s.status then queuedTree == old(queuedTree) && activeTree == old(activeTree)
              else Transferred(r, old(queuedTree), old(activeTree), queuedTree, activeTree)
    {
      channel := channel[1..];
      ReceiveKeepsHandlerInv(s);
      Received(s);
      if r.dest !in status {
        inputs, t, actions := ReceiveVacant(r, edus, s);
        keys := [];
      } else {
        inputs, keys, t, actions := ReceiveKnown(r, now, s);
      }
    }

    /** A destination without a status: the new request alone is sent. */
    method ReceiveVacant(r: Request, edus: seq<Bytes>, ghost s: State)
      returns (inputs: Option<seq<SendingEvent>>, ghost t: State, ghost actions: seq<Action>)
      requires s.phase.Idle? && s.channel != [] && s.channel[0] == r && Faithful(r) && HandlerInv(s)
      requires TreesMirror(queuedTree, activeTree, s) && status == s.status && channel == s.channel[1..]
      requires HandlerInv(AfterReceive(s)) && Follows(s, [Receive], AfterReceive(s)) && r.dest !in status
      requires Key(r) in queuedTree ==> queuedTree[Key(r)] == Value(r.event)
      modifies this`queuedTree, this`activeTree, this`status
      ensures Mirrors(t) && HandlerInv(t) && Follows(s, actions, t) && t.phase.Idle?
      ensures actions != [] && actions[0] == Receive && OthersInFlight(s, t, r.dest)
      ensures inputs.Some? && Flights(s, r.dest) == [] && StartsWith(r, edus, inputs.value, s, t)
      ensures Transferred(r, old(queuedTree), old(activeTree), queuedTree, activeTree)
      ensures Shrunk(old(queuedTree), queuedTree) && SameOutside(s, t)
    {
      assert DestinationInv(s, r.dest);
      status := status[r.dest := Running];
      var events;
      events, t, actions := SendNew(r, edus, s, AfterReceive(s));
      inputs := Some(events);
    }

    /** A destination with a status: only a failure that has rested is retried. */
    method ReceiveKnown(r: Request, now: nat, ghost s: State)
      returns (inputs: Option<seq<SendingEvent>>, ghost keys: seq<Bytes>, ghost t: State, ghost actions: seq<Action>)
      requires s.phase.Idle? && s.now == now && s.channel != [] && s.channel[0] == r && Faithful(r) && HandlerInv(s)
      requires TreesMirror(queuedTree, activeTree, s) && status == s.status && channel == s.channel[1..]
      requires HandlerInv(AfterReceive(s)) && Follows(s, [Receive], AfterReceive(s)) && r.dest in status
      modifies this`status
      ensures t == AfterReceive(s) && actions == [Receive] && Mirrors(t) && t.phase.Idle?
      ensures OthersInFlight(s, t, r.dest) && SameOutside(s, t)
      ensures inputs.None? ==> t == s.(channel := s.channel[1..])
      ensures inputs.Some? <==> Due(s.status[r.dest], now)
      ensures inputs.Some? ==> Flights(s, r.dest) == [] && Retries(r.dest, inputs.value, keys, activeTree, s, t)
    {
      var d := r.dest;
      assert DestinationInv(s, d);
      t, actions := AfterReceive(s), [Receive];
      inputs, keys := None, [];
      match status[d] {
        case Running =>
        case Retrying(_) =>
        case Failed(tries, at) =>
          DueIsBackoff(tries, at, now);
          if now - at >= Backoff(tries) {
            status := status[d := Retrying(tries)];
            var events := ReadAll(activeTree, d);
            keys := ScanPrefix(activeTree, Prefix(d));
            ReadAllAt(activeTree, d);
            inputs := Some(events);
          }
      }
    }

    /** The message a sender posts after its request was queued. */
    method Post(r: Request, ghost s: State)
      requires Inv(s) && r in s.posting
      modifies this`channel
      ensures channel == old(channel) + [r] && Inv(Step(s, SendingProtocol.Post(r)))
    {
      channel := channel + [r];
      PostKeeps(s, r);
    }

    /** The process ends and starts again; only the trees and the counter stay. */
    method Crash(ghost s: State)
      requires Inv(s)
      modifies this`status, this`channel
      ensures Inv(AfterCrash(s))
    {
      status, channel := map[], [];
      CrashKeepsHandlerInv(s);
    }

    /** `queue_requests`: keys are built one by one, the batch is written once. */
    method QueueRequests(reqs: seq<(Destination, SendingEvent)>, ghost s: State)
      returns (keys: seq<Bytes>, made: seq<Request>)
      requires Inv(s) && counter + |reqs| <= U64_MAX
      requires forall q :: q in reqs ==> Acceptable(q.0, q.1)
      modifies this`queuedTree, this`counter
      ensures |keys| == |made| == |reqs| && AllServe(made, reqs, keys) && NewKeys(old(queuedTree), reqs, keys)
      ensures Inv(AfterEnqueue(s, made)) && counter <= old(counter) + |reqs|
      ensures Written(old(queuedTree), queuedTree, reqs, keys)
    {
      var tree := queuedTree;
      keys, made := [], [];
      assert Mail(s) + Elements([]) == Mail(s);
      var i := 0;
      while i < |reqs|
        invariant 0 <= i <= |reqs| && |made| == i
        invariant old(counter) <= counter <= old(counter) + i
        invariant queuedTree == old(queuedTree) && activeTree == old(activeTree)
        invariant QueuedSoFar(queuedTree, tree, counter, s, reqs, keys, made)
      {
        var (d, e) := reqs[i];
        assert (d, e) in reqs;
        ghost var before := counter;
        var id;
        if e.Pdu? {
          id := e.pduId;
        } else {
          counter := counter + 1;
          id := U64Bytes(counter);
        }
        var r := Request(d, id, e);
        QueueStep(queuedTree, tree, before, counter, s, reqs, keys, made, r);
        tree := tree[Prefix(d) + id := Value(e)];
        keys, made := keys + [Prefix(d) + id], made + [r];
        i := i + 1;
      }
      assert reqs[..|made|] == reqs;
      EnqueueMirrors(tree, queuedTree, activeTree, s, made);
      EnqueueKeepsHandlerInv(s, made);
      MailAfterEnqueue(s, made);
      queuedTree := tree;
    }

    /** One pass of the start-up loop of `handler`, for a key that parses. */
    method Resume(key: Bytes, d: Destination, e: SendingEvent, ghost r: Request,
                  groups: map<Destination, seq<SendingEvent>>, ghost g: Grouping, ghost active: Table)
      returns (groups': map<Destination, seq<SendingEvent>>)
      requires Faithful(r) && key == Key(r) && d == r.dest && e == r.event
      requires key in activeTree ==> activeTree[key] == Value(e)
      requires SameGroups(groups, g.groups) && ActiveMirrors(activeTree, active, g.dropped)
      modifies this`activeTree
      ensures SameGroups(groups', GroupNext(g, r).groups)
      ensures ActiveMirrors(activeTree, active, GroupNext(g, r).dropped)
      ensures activeTree == old(activeTree) || activeTree == old(activeTree) - {key}
      ensures GroupNext(g, r).dropped == {} ==> g.dropped == {} && activeTree == old(activeTree)
    {
      var entry := if d in groups then groups[d] else [];
      groups' := groups[d := entry];
      if |entry| > MAX_BATCH {
        DropMirrors(activeTree, active, g.dropped, r);
        DeleteActiveRequest(key);
      } else {
        groups' := groups'[d := entry + [e]];
      }
    }

    /** The start-up loop over `active_requests`. */
    method GroupActive(ghost active: Table)
      returns (groups: map<Destination, seq<SendingEvent>>, ghost scan: seq<Request>)
      requires ActiveMirrors(activeTree, active, {})
      modifies this`activeTree
      ensures Scanned(old(activeTree), InOrder(old(activeTree).Keys), scan)
      ensures SameGroups(groups, Group(scan).groups)
      ensures ActiveMirrors(activeTree, active, Group(scan).dropped)
      ensures Group(scan).dropped == {} ==> activeTree == old(activeTree)
    {
      var keys := InOrder(activeTree.Keys);
      ghost var tree := activeTree;
      groups, scan := map[], [];
      var i := 0;
      while i < |keys|
        invariant 0 <= i <= |keys|
        invariant Scanned(tree, keys[..i], scan)
        invariant SameGroups(groups, Group(scan).groups)
        invariant ActiveMirrors(activeTree, active, Group(scan).dropped)
        invariant Ahead(tree, activeTree, keys, i)
        invariant Group(scan).dropped == {} ==> activeTree == tree
      {
        var key := keys[i];
        var parsed := Parse(key, activeTree[key]);
        ghost var before := activeTree;
        ghost var r := ScanOne(tree, keys, i, scan);
        if parsed.Ok? {
          groups := Resume(key, parsed.dest, parsed.event, r, groups, Group(scan), active);
          GroupLast(scan, r);
          scan := scan + [r];
        }
        AheadNext(tree, before, activeTree, keys, i);
        i := i + 1;
      }
      assert keys[..i] == keys;
    }

    /** The start-up part of `handler`, the protocol's `Start` step: one
        transaction per destination that has active requests. */
    method Restart(ghost s: State)
      returns (groups: map<Destination, seq<SendingEvent>>, ghost t: State, ghost scan: seq<Request>)
      requires Inv(s) && s.phase.Starting?
      modifies this`activeTree, this`status
      ensures Enumerates(scan, s.active) && t == AfterStart(s, Group(scan))
      ensures Inv(t) && t.active == s.active
      ensures Resumes(groups, s, t)
      ensures queuedTree == old(queuedTree) && activeTree == old(activeTree) && AllInOrder(activeTree, groups)
    {
      ghost var tree := activeTree;
      MirrorsActive(queuedTree, activeTree, s);
      groups, scan := GroupActive(s.active);
      Restarted(s, scan, groups, queuedTree, tree, activeTree);
      status := AllRunning(groups);
      t := AfterStart(s, Group(scan));
    }
  }
}
