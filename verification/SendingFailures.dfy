/** What a successful response does to a destination's failure count. */
module SendingFailures {
  import opened Collections
  import opened SendingKeys
  import opened SendingProtocol
  import opened SendingSafety
  import opened SendingRuns
  import opened SendingTheorems

  // ---------------------------------------------------------------------
  // From a success to the handler's next rest
  // ---------------------------------------------------------------------

  /** The handler is still busy with the response of step `k` in state `j`. */
  ghost predicate StillBusy(trace: seq<State>, actions: seq<Action>, k: nat, j: nat)
    requires |trace| == |actions| + 1
  {
    && k < j < |trace|
    && (forall i | k < i <= j :: !trace[i].phase.Idle?)
    && (forall i | k <= i < j :: !actions[i].Crash?)
  }

  /** The status has not changed, and once the queue was scanned the phase tells
      what the scan found. */
  ghost predicate Serving(trace: seq<State>, actions: seq<Action>, k: nat, j: nat, d: Destination, scan: nat)
    requires k < j < |trace| && |trace| == |actions| + 1
  {
    && Held(trace[j], d)
    && d in trace[k].status && d in trace[j].status && trace[j].status[d] == trace[k].status[d]
    && (trace[j].phase.Clearing? ==> forall i | k < i < j :: !actions[i].Scan?)
    && (!trace[j].phase.Clearing? ==>
          && k < scan < j && actions[scan].Scan?
          && (trace[j].phase.Emptied? <==> At(trace[scan].queued, d) == {}))
  }

  /** One step while the handler serves `d`. */
  predicate ServedBy(s: State, a: Action, t: State, d: Destination) {
    && d in s.status && d in t.status && t.status[d] == s.status[d] && Held(t, d)
    && (a.Scan? ==> s.phase.Clearing? && !t.phase.Clearing? && (t.phase.Emptied? <==> At(s.queued, d) == {}))
    && (!a.Scan? ==> (t.phase.Clearing? <==> s.phase.Clearing?) && (t.phase.Emptied? <==> s.phase.Emptied?))
  }

  lemma ServingStep(s: State, a: Action, d: Destination)
    requires HandlerInv(s) && Held(s, d) && Enabled(s, a) && !a.Crash? && !Step(s, a).phase.Idle?
    ensures ServedBy(s, a, Step(s, a), d)
  {
    assert DestinationInv(s, d);
  }

  lemma ServingNext(trace: seq<State>, actions: seq<Action>, k: nat, j: nat, d: Destination, before: nat, scan: nat)
    requires |trace| == |actions| + 1 && k + 1 < j < |trace| && Serving(trace, actions, k, j - 1, d, before)
    requires ServedBy(trace[j - 1], actions[j - 1], trace[j], d)
    requires scan == if actions[j - 1].Scan? then j - 1 else before
    ensures Serving(trace, actions, k, j, d, scan)
  {
  }

  lemma OkStep(s: State, d: Destination, i: nat)
    requires HandlerInv(s) && s.phase.Idle? && i < |Flights(s, d)|
    ensures d in s.status && AfterOk(s, d, i).status == s.status && AfterOk(s, d, i).phase == Clearing(d)
  {
    assert DestinationInv(s, d);
  }

  lemma ServingBegins(trace: seq<State>, actions: seq<Action>, k: nat, d: Destination)
    requires IsRun(trace, actions) && k < |actions| && actions[k].RespondOk? && actions[k].dest == d
    ensures trace[k + 1].phase == Clearing(d) && Serving(trace, actions, k, k + 1, d, 0)
  {
    StepOfRun(trace, actions, k);
    OkStep(trace[k], d, actions[k].i);
  }

  lemma ServedInRun(trace: seq<State>, actions: seq<Action>, j: nat, d: Destination)
    requires IsRun(trace, actions) && 0 < j < |trace| && Held(trace[j - 1], d)
    requires !actions[j - 1].Crash? && !trace[j].phase.Idle?
    ensures ServedBy(trace[j - 1], actions[j - 1], trace[j], d)
  {
    StepOfRun(trace, actions, j - 1);
    ServingStep(trace[j - 1], actions[j - 1], d);
  }

  lemma {:induction false} BusyServes(trace: seq<State>, actions: seq<Action>, k: nat, j: nat, d: Destination) returns (scan: nat)
    requires IsRun(trace, actions) && k < |actions| && actions[k].RespondOk? && actions[k].dest == d
    requires StillBusy(trace, actions, k, j)
    ensures Serving(trace, actions, k, j, d, scan)
    decreases j
  {
    if j == k + 1 {
      scan := 0;
      ServingBegins(trace, actions, k, d);
    } else {
      var before := BusyServes(trace, actions, k, j - 1, d);
      ServedInRun(trace, actions, j, d);
      scan := if actions[j - 1].Scan? then j - 1 else before;
      ServingNext(trace, actions, k, j, d, before, scan);
    }
  }

  /** The step that ends the service of `d`. */
  predicate RestsAfter(s: State, t: State, d: Destination) {
    && d in s.status && (d !in t.status <==> s.phase.Emptied?)
    && (d in t.status ==> t.status[d] == s.status[d])
    && !s.phase.Clearing?
  }

  lemma RestStep(s: State, a: Action, d: Destination)
    requires HandlerInv(s) && Held(s, d) && Enabled(s, a) && !a.Crash? && Step(s, a).phase.Idle?
    ensures RestsAfter(s, Step(s, a), d)
  {
    assert DestinationInv(s, d);
  }

  lemma RestInRun(trace: seq<State>, actions: seq<Action>, m: nat, d: Destination)
    requires IsRun(trace, actions) && 0 < m < |trace| && Held(trace[m - 1], d)
    requires !actions[m - 1].Crash? && trace[m].phase.Idle?
    ensures RestsAfter(trace[m - 1], trace[m], d)
  {
    StepOfRun(trace, actions, m - 1);
    RestStep(trace[m - 1], actions[m - 1], d);
  }

  /** From a successful response at step `k` to the handler's next rest at `m`,
      whatever is enqueued meanwhile: the status is gone if and only if nothing
      was queued when the handler looked, and is otherwise what it was. */
  lemma SuccessKeepsTheFailureCount(trace: seq<State>, actions: seq<Action>, k: nat, m: nat, d: Destination) returns (scan: nat)
    requires IsRun(trace, actions) && k < m < |trace| && actions[k].RespondOk? && actions[k].dest == d
    requires trace[m].phase.Idle? && forall i | k < i < m :: !trace[i].phase.Idle?
    requires forall i | k <= i < m :: !actions[i].Crash?
    ensures k < scan < m && actions[scan].Scan?
    ensures d in trace[k].status
    ensures d !in trace[m].status <==> At(trace[scan].queued, d) == {}
    ensures d in trace[m].status ==> trace[m].status[d] == trace[k].status[d]
  {
    ServingBegins(trace, actions, k, d);
    scan := BusyServes(trace, actions, k, m - 1, d);
    RestInRun(trace, actions, m, d);
  }

  // ---------------------------------------------------------------------
  // A run in which the count survives a success
  // ---------------------------------------------------------------------

  /** What matters of a state for one destination, between two events. */
  predicate AtRest(s: State, d: Destination, queued: set<Request>, active: set<Request>, flights: seq<set<Request>>) {
    && s.phase.Idle? && s.channel == [] && s.posting == multiset{}
    && At(s.queued, d) == queued && At(s.active, d) == active && Flights(s, d) == flights
  }

  lemma Follow2(s: State, a: Action, b: Action)
    requires Enabled(s, a) && Enabled(Step(s, a), b)
    ensures Follows(s, [a, b], Step(Step(s, a), b))
  {
    OneStep(s, a);
    FollowsThen(s, [a], Step(s, a), b);
    assert [a] + [b] == [a, b];
  }

  lemma Starts(d: Destination)
    ensures Init(BLANK) && Follows(BLANK, [Start([])], AfterStart(BLANK, Group([])))
    ensures AtRest(AfterStart(BLANK, Group([])), d, {}, {}, []) && AfterStart(BLANK, Group([])).status == map[]
  {
    assert Enumerates([], map[]);
    OneStep(BLANK, Start([]));
  }

  /** A request is enqueued and its message posted. */
  lemma Arrives(s: State, r: Request, queued: set<Request>, active: set<Request>, flights: seq<set<Request>>) returns (t: State)
    requires AtRest(s, r.dest, queued, active, flights)
    ensures Follows(s, [Enqueue([r]), Post(r)], t)
    ensures t.phase.Idle? && t.channel == [r] && t.posting == multiset{} && t.status == s.status && t.now == s.now
    ensures At(t.queued, r.dest) == queued + {r} && At(t.active, r.dest) == active && Flights(t, r.dest) == flights
  {
    Follow2(s, Enqueue([r]), Post(r));
    t := Step(AfterEnqueue(s, [r]), Post(r));
    PutAllAt(s.queued, Elements([r]), r.dest);
    assert Of(Elements([r]), r.dest) == {r};
  }

  /** One picked request is marked and launched. */
  lemma Launches(s: State, r: Request, queued: set<Request>) returns (t: State)
    requires s.phase == Marking(r.dest, {r}, {r}, Settled) && s.channel == [] && s.posting == multiset{}
    requires At(s.queued, r.dest) == queued && At(s.active, r.dest) == {} && Flights(s, r.dest) == []
    ensures Follows(s, [MarkInsert(r), MarkRemove, Launch], t)
    ensures AtRest(t, r.dest, queued - {r}, {r}, [{r}]) && t.status == s.status && t.now == s.now
  {
    var s1 := AfterMarkInsert(s, r);
    var s2 := AfterMarkRemove(s1);
    Follow2(s, MarkInsert(r), MarkRemove);
    assert {r} - {r} == {};
    FollowsThen(s, [MarkInsert(r), MarkRemove], s2, Launch);
    assert [MarkInsert(r), MarkRemove] + [Launch] == [MarkInsert(r), MarkRemove, Launch];
    t := AfterLaunch(s2);
  }

  /** A new destination's request arrives and is taken up. */
  lemma TakenUp(s: State, r: Request) returns (t: State)
    requires AtRest(s, r.dest, {}, {}, []) && s.status == map[]
    ensures Follows(s, [Enqueue([r]), Post(r)] + [Receive], t)
    ensures t.phase == Marking(r.dest, {r}, {r}, Settled) && t.channel == [] && t.posting == multiset{}
    ensures At(t.queued, r.dest) == {r} && At(t.active, r.dest) == {} && Flights(t, r.dest) == []
    ensures t.status == map[r.dest := Running]
  {
    var s2 := Arrives(s, r, {}, {}, []);
    FollowsThen(s, [Enqueue([r]), Post(r)], s2, Receive);
    t := AfterReceive(s2);
  }

  lemma FailsFirst(s: State, r: Request) returns (t: State)
    requires AtRest(s, r.dest, {}, {r}, [{r}]) && s.status == map[r.dest := Running]
    ensures Follows(s, [RespondErr(r.dest, 0)], t)
    ensures AtRest(t, r.dest, {}, {r}, []) && t.status == map[r.dest := Failed(1, t.now)]
  {
    OneStep(s, RespondErr(r.dest, 0));
    t := AfterError(s, r.dest, 0);
  }

  /** It is sent, and fails. */
  lemma FailsOnce(r: Request) returns (actions: seq<Action>, t: State)
    ensures Follows(BLANK, actions, t)
    ensures AtRest(t, r.dest, {}, {r}, []) && t.status == map[r.dest := Failed(1, t.now)]
  {
    Starts(r.dest);
    var s1 := AfterStart(BLANK, Group([]));
    var s2 := TakenUp(s1, r);
    FollowsJoin(BLANK, [Start([])], s1, [Enqueue([r]), Post(r)] + [Receive], s2);
    var a2 := [Start([])] + ([Enqueue([r]), Post(r)] + [Receive]);
    var s3 := Launches(s2, r, {r});
    FollowsJoin(BLANK, a2, s2, [MarkInsert(r), MarkRemove, Launch], s3);
    var a3 := a2 + [MarkInsert(r), MarkRemove, Launch];
    assert {r} - {r} == {};
    t := FailsFirst(s3, r);
    FollowsJoin(BLANK, a3, s3, [RespondErr(r.dest, 0)], t);
    actions := a3 + [RespondErr(r.dest, 0)];
  }

  /** A message for a destination that has rested long enough. */
  lemma ReceivesRetry(s: State, r: Request, q: Request, at: nat)
    requires s.phase.Idle? && s.channel == [q] && s.posting == multiset{} && q.dest == r.dest
    requires s.status == map[r.dest := Failed(1, at)] && s.now - at >= Backoff(1)
    requires At(s.queued, r.dest) == {q} && At(s.active, r.dest) == {r} && Flights(s, r.dest) == []
    ensures AtRest(AfterReceive(s), r.dest, {q}, {r}, [{r}]) && AfterReceive(s).status == map[r.dest := Retrying(1)]
  {
  }

  lemma Ticks(s: State, dt: nat)
    ensures Follows(s, [Tick(dt)], s.(now := s.now + dt))
  {
    OneStep(s, Tick(dt));
  }

  lemma ArrivesLater(s: State, r: Request, q: Request, dt: nat) returns (actions: seq<Action>, t: State)
    requires AtRest(s, r.dest, {}, {r}, []) && q.dest == r.dest
    ensures Follows(s, actions, t)
    ensures t.phase.Idle? && t.channel == [q] && t.posting == multiset{} && t.status == s.status && t.now == s.now + dt
    ensures At(t.queued, r.dest) == {q} && At(t.active, r.dest) == {r} && Flights(t, r.dest) == []
  {
    var s1 := s.(now := s.now + dt);
    Ticks(s, dt);
    t := Arrives(s1, q, {}, {r}, []);
    FollowsJoin(s, [Tick(dt)], s1, [Enqueue([q]), Post(q)], t);
    actions := [Tick(dt)] + [Enqueue([q]), Post(q)];
    assert {} + {q} == {q};
  }

  /** It rests, another request arrives, and the first is tried again. */
  lemma Retries(s: State, r: Request, q: Request) returns (actions: seq<Action>, t: State)
    requires AtRest(s, r.dest, {}, {r}, []) && s.status == map[r.dest := Failed(1, s.now)] && q.dest == r.dest
    ensures Follows(s, actions, t)
    ensures AtRest(t, r.dest, {q}, {r}, [{r}]) && t.status == map[r.dest := Retrying(1)]
  {
    var more, s2 := ArrivesLater(s, r, q, Backoff(1));
    FollowsThen(s, more, s2, Receive);
    ReceivesRetry(s2, r, q, s.now);
    actions, t := more + [Receive], AfterReceive(s2);
  }

  /** The retry succeeds; the queued request is sent under the same status, and
      its failure counts on. */
  function SuccessThenFailure(r: Request, q: Request): seq<Action> {
    [RespondOk(r.dest, 0), ClearOne(r)] + [Scan({q})] + [MarkInsert(q), MarkRemove, Launch] + [RespondErr(r.dest, 0)]
  }

  /** The handler clears the delivered request and picks the queued one. */
  lemma Succeeds(s: State, r: Request, q: Request) returns (t: State)
    requires AtRest(s, r.dest, {q}, {r}, [{r}]) && q.dest == r.dest
    ensures Follows(s, [RespondOk(r.dest, 0), ClearOne(r)] + [Scan({q})], t)
    ensures t.phase == Marking(q.dest, {q}, {q}, Settled) && t.channel == [] && t.posting == multiset{}
    ensures At(t.queued, q.dest) == {q} && At(t.active, q.dest) == {} && Flights(t, q.dest) == [] && t.status == s.status
  {
    var d := r.dest;
    Follow2(s, RespondOk(d, 0), ClearOne(r));
    var s2 := Step(AfterOk(s, d, 0), ClearOne(r));
    assert At(s2.active, d) == {r} - {r} == {};
    FollowsThen(s, [RespondOk(d, 0), ClearOne(r)], s2, Scan({q}));
    t := AfterScan(s2, d, {q});
  }

  /** A retried request fails. */
  lemma FailsAgain(s: State, q: Request) returns (t: State)
    requires AtRest(s, q.dest, {}, {q}, [{q}]) && s.status == map[q.dest := Retrying(1)]
    ensures Follows(s, [RespondErr(q.dest, 0)], t) && t.phase.Idle? && t.status == map[q.dest := Failed(2, t.now)]
  {
    OneStep(s, RespondErr(q.dest, 0));
    t := AfterError(s, q.dest, 0);
  }

  lemma SucceedsThenFails(s: State, r: Request, q: Request) returns (t: State)
    requires AtRest(s, r.dest, {q}, {r}, [{r}]) && s.status == map[r.dest := Retrying(1)] && q.dest == r.dest
    ensures Follows(s, SuccessThenFailure(r, q), t) && t.phase.Idle? && t.status == map[r.dest := Failed(2, t.now)]
  {
    var s3 := Succeeds(s, r, q);
    var s4 := Launches(s3, q, {q});
    var a3 := [RespondOk(r.dest, 0), ClearOne(r)] + [Scan({q})];
    FollowsJoin(s, a3, s3, [MarkInsert(q), MarkRemove, Launch], s4);
    assert {q} - {q} == {};
    t := FailsAgain(s4, q);
    FollowsJoin(s, a3 + [MarkInsert(q), MarkRemove, Launch], s4, [RespondErr(r.dest, 0)], t);
  }

  /** From an empty database a run leads to a retry that succeeds, after which the
      next failure is the destination's second. */
  lemma CountSurvivesSuccess(r: Request, q: Request) returns (before: seq<Action>, s: State, t: State)
    requires q.dest == r.dest
    ensures Init(BLANK) && Follows(BLANK, before, s) && s.phase.Idle? && s.status == map[r.dest := Retrying(1)]
    ensures Follows(s, SuccessThenFailure(r, q), t) && t.phase.Idle? && t.status == map[r.dest := Failed(2, t.now)]
  {
    var a1, s1 := FailsOnce(r);
    var a2;
    a2, s := Retries(s1, r, q);
    FollowsJoin(BLANK, a1, s1, a2, s);
    before := a1 + a2;
    t := SucceedsThenFails(s, r, q);
  }
}
