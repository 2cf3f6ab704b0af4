/** The outgoing sender as a state machine: enqueuers, the handler task and
    crashes interleave, and every database write is a step of its own. */
module SendingProtocol {
  import opened Collections
  import opened SendingKeys

  const MAX_BATCH: nat := 30
  const NANOS: nat := 1_000_000_000

  datatype Status =
    | Running
    | Failed(tries: nat, at: nat)
    | Retrying(tries: nat)

  /** The request `mark_as_active` has inserted into the active tree and not yet
      removed from the queued one. */
  datatype Half = Settled | Inserted(req: Request)

  /** Where the handler task is. `Starting` is a process whose handler has not
      read the active tree yet; the last three are the inside of
      `handle_response` and of `mark_as_active`. */
  datatype Phase =
    | Starting
    | Idle
    | Clearing(dest: Destination)
    | Emptied(dest: Destination)
    | Marking(dest: Destination, batch: set<Request>, todo: set<Request>, half: Half)

  /** Requests of each destination; a destination without an entry has none. */
  type Table = map<Destination, set<Request>>

  function At(t: Table, d: Destination): set<Request> {
    if d in t then t[d] else {}
  }

  function Put(t: Table, r: Request): Table {
    t[r.dest := At(t, r.dest) + {r}]
  }

  function Remove(t: Table, r: Request): Table {
    t[r.dest := At(t, r.dest) - {r}]
  }

  function PutAll(t: Table, reqs: set<Request>): Table {
    map d | d in t.Keys + (set r | r in reqs :: r.dest) :: At(t, d) + Of(reqs, d)
  }

  /** `queued` and `active` are the trees; `inFlight` holds, for each
      destination, the persisted requests of each of its futures; `accepted`,
      `delivered`, `sinceStart` and `firstFailure` only record history. */
  datatype State = State(
    queued: Table,
    active: Table,
    channel: seq<Request>,
    posting: multiset<Request>,
    status: map<Destination, Status>,
    inFlight: map<Destination, seq<set<Request>>>,
    phase: Phase,
    now: nat,
    accepted: set<Request>,
    delivered: set<Request>,
    sinceStart: set<Request>,
    firstFailure: map<Destination, nat>)

  datatype Action =
    | Enqueue(reqs: seq<Request>)
    | Post(req: Request)
    | Start(scan: seq<Request>)
    | Receive
    | RespondErr(dest: Destination, i: nat)
    | RespondOk(dest: Destination, i: nat)
    | ClearOne(req: Request)
    | Scan(picked: set<Request>)
    | Forget
    | MarkInsert(req: Request)
    | MarkRemove
    | Launch
    | Tick(dt: nat)
    | Crash

  function Of(reqs: set<Request>, d: Destination): set<Request> {
    set r | r in reqs && r.dest == d
  }

  // ---------------------------------------------------------------------
  // Backoff
  // ---------------------------------------------------------------------

  /** Nanoseconds a destination rests after its `tries`-th failure. */
  function Backoff(tries: nat): nat {
    var secs := 30 * tries * tries;
    NANOS * (if secs > 86400 then 86400 else secs)
  }

  // ---------------------------------------------------------------------
  // Start-up: grouping the active requests by destination
  // ---------------------------------------------------------------------

  datatype Grouping = Grouping(groups: map<Destination, seq<Request>>, dropped: set<Request>)

  /** One pass of the grouping loop of `handler`. */
  function GroupNext(g: Grouping, r: Request): Grouping {
    var entry := if r.dest in g.groups then g.groups[r.dest] else [];
    if |entry| > MAX_BATCH then Grouping(g.groups[r.dest := entry], g.dropped + {r})
    else Grouping(g.groups[r.dest := entry + [r]], g.dropped)
  }

  function Group(scan: seq<Request>): Grouping {
    if scan == [] then Grouping(map[], {})
    else GroupNext(Group(scan[..|scan| - 1]), scan[|scan| - 1])
  }

  // ---------------------------------------------------------------------
  // Steps
  // ---------------------------------------------------------------------

  function Flights(s: State, d: Destination): seq<set<Request>> {
    if d in s.inFlight then s.inFlight[d] else []
  }

  function Without<T>(s: seq<T>, i: nat): seq<T>
    requires i < |s|
  {
    s[..i] + s[i + 1..]
  }

  /** A full scan of the active tree. */
  ghost predicate Enumerates(scan: seq<Request>, active: Table) {
    Distinct(scan) && forall d :: Of(Elements(scan), d) == At(active, d)
  }

  /** What `take(30)` can return of a destination's queued requests. */
  predicate FirstOf(picked: set<Request>, all: set<Request>) {
    && picked <= all
    && |picked| <= MAX_BATCH
    && (|picked| < MAX_BATCH ==> picked == all)
  }

  ghost predicate Enabled(s: State, a: Action) {
    match a
    case Enqueue(reqs) => true
    case Post(req) => req in s.posting
    case Start(scan) => s.phase.Starting? && Enumerates(scan, s.active)
    case Receive => s.phase.Idle? && s.channel != []
    case RespondErr(d, i) => s.phase.Idle? && i < |Flights(s, d)|
    case RespondOk(d, i) => s.phase.Idle? && i < |Flights(s, d)|
    case ClearOne(req) => s.phase.Clearing? && req in At(s.active, s.phase.dest)
    case Scan(picked) =>
      && s.phase.Clearing? && At(s.active, s.phase.dest) == {}
      && FirstOf(picked, At(s.queued, s.phase.dest))
    case Forget => s.phase.Emptied?
    case MarkInsert(req) => s.phase.Marking? && req in s.phase.todo && s.phase.half.Settled?
    case MarkRemove => s.phase.Marking? && s.phase.half.Inserted?
    case Launch => s.phase.Marking? && s.phase.todo == {} && s.phase.half.Settled?
    case Tick(dt) => true
    case Crash => true
  }

  function AfterReceive(s: State): State
    requires s.channel != []
  {
    var r := s.channel[0];
    var t := s.(channel := s.channel[1..]);
    if r.dest !in s.status then
      // Vacant: start running and mark this one request as active
      t.(status := s.status[r.dest := Running],
         phase := Marking(r.dest, {r}, {r}, Settled))
    else
      match s.status[r.dest]
      case Running => t
      case Retrying(_) => t
      case Failed(tries, at) =>
        if s.now - at < Backoff(tries) then t
        else
          t.(status := s.status[r.dest := Retrying(tries)],
             inFlight := s.inFlight[r.dest := Flights(s, r.dest) + [At(s.active, r.dest)]])
  }

  function AfterError(s: State, d: Destination, i: nat): State
    requires i < |Flights(s, d)|
  {
    var t := s.(inFlight := s.inFlight[d := Without(Flights(s, d), i)]);
    if d !in s.status then t
    else
      match s.status[d]
      case Running =>
        t.(status := s.status[d := Failed(1, s.now)],
           firstFailure := s.firstFailure[d := s.now])
      case Retrying(n) => t.(status := s.status[d := Failed(n + 1, s.now)])
      case Failed(_, _) => t
  }

  /** `queue_requests` writes its whole batch at once. */
  function AfterEnqueue(s: State, reqs: seq<Request>): State {
    s.(queued := PutAll(s.queued, Elements(reqs)),
       posting := s.posting + multiset(reqs),
       accepted := s.accepted + Elements(reqs),
       delivered := s.delivered - Elements(reqs),
       sinceStart := s.sinceStart + Elements(reqs))
  }

  function AfterStart(s: State, g: Grouping): State {
    s.(active := map d | d in s.active :: s.active[d] - g.dropped,
       status := map d | d in g.groups :: Running,
       inFlight := map d | d in g.groups :: [Elements(g.groups[d])],
       phase := Idle)
  }

  function AfterOk(s: State, d: Destination, i: nat): State
    requires i < |Flights(s, d)|
  {
    s.(inFlight := s.inFlight[d := Without(Flights(s, d), i)],
       delivered := s.delivered + Flights(s, d)[i],
       phase := Clearing(d))
  }

  function AfterScan(s: State, d: Destination, picked: set<Request>): State {
    s.(phase := if picked == {} then Emptied(d) else Marking(d, picked, picked, Settled))
  }

  function AfterForget(s: State, d: Destination): State {
    s.(status := s.status - {d}, phase := Idle)
  }

  function AfterMarkInsert(s: State, r: Request): State
    requires s.phase.Marking?
  {
    s.(active := Put(s.active, r),
       phase := s.phase.(todo := s.phase.todo - {r}, half := Inserted(r)))
  }

  function AfterMarkRemove(s: State): State
    requires s.phase.Marking? && s.phase.half.Inserted?
  {
    s.(queued := Remove(s.queued, s.phase.half.req), phase := s.phase.(half := Settled))
  }

  function AfterLaunch(s: State): State
    requires s.phase.Marking?
  {
    var d := s.phase.dest;
    s.(inFlight := s.inFlight[d := Flights(s, d) + [s.phase.batch]], phase := Idle)
  }

  /** Everything but the trees is lost. */
  function AfterCrash(s: State): State {
    s.(channel := [], posting := multiset{}, status := map[], inFlight := map[],
       phase := Starting, sinceStart := {}, firstFailure := map[])
  }

  ghost function Step(s: State, a: Action): State
    requires Enabled(s, a)
  {
    match a
    case Enqueue(reqs) => AfterEnqueue(s, reqs)
    case Post(req) => s.(posting := s.posting - multiset{req}, channel := s.channel + [req])
    case Start(scan) => AfterStart(s, Group(scan))
    case Receive => AfterReceive(s)
    case RespondErr(d, i) => AfterError(s, d, i)
    case RespondOk(d, i) => AfterOk(s, d, i)
    case ClearOne(req) => s.(active := Remove(s.active, req))
    case Scan(picked) => AfterScan(s, s.phase.dest, picked)
    case Forget => AfterForget(s, s.phase.dest)
    case MarkInsert(req) => AfterMarkInsert(s, req)
    case MarkRemove => AfterMarkRemove(s)
    case Launch => AfterLaunch(s)
    case Tick(dt) => s.(now := s.now + dt)
    case Crash => AfterCrash(s)
  }

  /** A process started on an empty database. */
  predicate Init(s: State) {
    && s.queued == map[] && s.active == map[] && s.channel == [] && s.posting == multiset{}
    && s.status == map[] && s.inFlight == map[] && s.phase == Starting
    && s.accepted == {} && s.delivered == {} && s.sinceStart == {} && s.firstFailure == map[]
  }

  const BLANK := State(map[], map[], [], multiset{}, map[], map[], Starting, 0, {}, {}, {}, map[])

  /** States visited by some run: `trace[k + 1]` follows by `actions[k]`. */
  ghost predicate IsRun(trace: seq<State>, actions: seq<Action>) {
    && |trace| == |actions| + 1
    && Init(trace[0])
    && forall k :: 0 <= k < |actions| ==>
         Enabled(trace[k], actions[k]) && trace[k + 1] == Step(trace[k], actions[k])
  }

  // ---------------------------------------------------------------------
  // Handler invariant
  // ---------------------------------------------------------------------

  /** Whether the handler is in the middle of a response or a receive for `d`. */
  predicate Held(s: State, d: Destination) {
    match s.phase
    case Starting => false
    case Idle => false
    case Clearing(e) => d == e
    case Emptied(e) => d == e
    case Marking(e, _, _, _) => d == e
  }

  predicate Busy(s: State, d: Destination) {
    d in s.status && !s.status[d].Failed?
  }

  /** A destination the handler is in the middle of serving. */
  ghost predicate HeldInv(s: State, d: Destination) {
    && Busy(s, d) && Flights(s, d) == []
    && match s.phase
       case Starting => true
       case Idle => true
       case Clearing(_) => true
       case Emptied(_) => At(s.active, d) == {}
       case Marking(_, batch, todo, half) =>
         && todo <= batch && batch != {} && |batch| <= MAX_BATCH
         && (forall r :: r in batch ==> r.dest == d)
         && (half.Inserted? ==> half.req in batch - todo)
         && At(s.active, d) == batch - todo
  }

  /** A destination at rest: with a status exactly when it has active requests,
      one transaction in flight carrying exactly those when running or retrying,
      none when failed. */
  ghost predicate RestInv(s: State, d: Destination) {
    if d !in s.status then
      At(s.active, d) == {} && Flights(s, d) == []
    else
      && At(s.active, d) != {}
      && Flights(s, d) == if s.status[d].Failed? then [] else [At(s.active, d)]
  }

  ghost predicate DestinationInv(s: State, d: Destination) {
    && (forall r :: r in At(s.active, d) ==> r.dest == d)
    && (forall r :: r in At(s.queued, d) ==> r.dest == d)
    && |At(s.active, d)| <= MAX_BATCH
    && if s.phase.Starting? then d !in s.status && Flights(s, d) == []
       else if Held(s, d) then HeldInv(s, d)
       else RestInv(s, d)
  }

  ghost predicate HandlerInv(s: State) {
    forall d :: DestinationInv(s, d)
  }
}
