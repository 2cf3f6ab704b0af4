/** The sender's operations in any order: whatever happens to a process, its
    restarts included, is a run of the protocol. */
module SendingDriver {
  import opened Bytes
  import opened SendingKeys
  import opened SendingProtocol
  import opened SendingSafety
  import opened SendingRuns
  import opened SendingTheorems
  import opened SendingService

  /** What can happen next; an event that cannot happen now is skipped. */
  datatype Event =
    | Queued(reqs: seq<(Destination, SendingEvent)>)
    | Posted(k: nat)
    | Message(edus: seq<Bytes>)
    | Response(k: nat, ok: bool)
    | Elapsed(dt: nat)
    | Crashed
    | Started

  /** Destinations of the futures in flight, as often as the protocol has them. */
  ghost predicate FuturesMatch(futures: seq<Destination>, s: State) {
    forall d {:trigger Flights(s, d)} :: multiset(futures)[d] == |Flights(s, d)|
  }

  lemma WithoutOne<T>(s: seq<T>, k: nat)
    requires k < |s|
    ensures multiset(Without(s, k)) == multiset(s) - multiset{s[k]}
  {
    assert s == s[..k] + [s[k]] + s[k + 1..];
  }

  lemma FutureStarts(futures: seq<Destination>, s: State, t: State, d: Destination)
    requires FuturesMatch(futures, s) && OthersInFlight(s, t, d) && |Flights(t, d)| == |Flights(s, d)| + 1
    ensures FuturesMatch(futures + [d], t)
  {
    forall e ensures multiset(futures + [d])[e] == |Flights(t, e)| {
      assert multiset(futures)[e] == |Flights(s, e)|;
    }
  }

  /** A response ends one future and may start the next. */
  lemma FutureEnds(futures: seq<Destination>, k: nat, s: State, t: State, again: bool)
    requires k < |futures| && FuturesMatch(futures, s) && OthersInFlight(s, t, futures[k])
    requires |Flights(s, futures[k])| == 1 && |Flights(t, futures[k])| == if again then 1 else 0
    ensures FuturesMatch(if again then Without(futures, k) + [futures[k]] else Without(futures, k), t)
  {
    WithoutOne(futures, k);
    var left := if again then Without(futures, k) + [futures[k]] else Without(futures, k);
    forall e ensures multiset(left)[e] == |Flights(t, e)| {
      assert multiset(futures)[e] == |Flights(s, e)|;
    }
  }

  lemma BeginsWith(done: seq<Action>, more: seq<Action>, a: Action)
    requires more != [] && more[0] == a
    ensures done + [a] <= done + more
  {
    assert done + more == done + [a] + more[1..];
  }

  lemma OneFuture(futures: seq<Destination>, s: State, k: nat)
    requires k < |futures| && FuturesMatch(futures, s) && HandlerInv(s) && s.phase.Idle?
    ensures |Flights(s, futures[k])| == 1
  {
    assert futures[k] in multiset(futures);
    assert DestinationInv(s, futures[k]);
  }

  lemma SameFutures(futures: seq<Destination>, s: State, t: State)
    requires FuturesMatch(futures, s) && t.inFlight == s.inFlight
    ensures FuturesMatch(futures, t)
  {
    forall d ensures multiset(futures)[d] == |Flights(t, d)| {
      assert multiset(futures)[d] == |Flights(s, d)|;
    }
  }

  /** One future for each group of the start-up scan. */
  method Launched(groups: map<Destination, seq<SendingEvent>>) returns (futures: seq<Destination>)
    ensures forall d :: multiset(futures)[d] == if d in groups then 1 else 0
  {
    futures := [];
    var rest := groups.Keys;
    while rest != {}
      invariant rest <= groups.Keys
      invariant forall d :: multiset(futures)[d] == if d in groups && d !in rest then 1 else 0
      decreases rest
    {
      var d :| d in rest;
      futures, rest := futures + [d], rest - {d};
    }
  }

  lemma ResumedFutures(futures: seq<Destination>, groups: map<Destination, seq<SendingEvent>>, s: State, t: State)
    requires Resumes(groups, s, t) && HandlerInv(t) && t.phase.Idle? && t.active == s.active
    requires forall d :: multiset(futures)[d] == if d in groups then 1 else 0
    ensures FuturesMatch(futures, t)
  {
    forall d ensures multiset(futures)[d] == |Flights(t, d)| {
      assert DestinationInv(t, d);
      assert d in groups <==> At(s.active, d) != {};
    }
  }

  /** The requests that were asked for. */
  predicate Made(made: seq<Request>, reqs: seq<(Destination, SendingEvent)>) {
    |made| == |reqs| && forall i | 0 <= i < |made| :: (made[i].dest, made[i].event) == reqs[i]
  }

  class Process {
    const service: Service
    var now: nat
    var posting: seq<Request>
    var futures: seq<Destination>
    var started: bool
    ghost var state: State
    ghost var actions: seq<Action>

    /** The process is in a state of the protocol that its steps so far lead to. */
    ghost predicate Valid()
      reads this, service
    {
      && service.Inv(state) && Follows(BLANK, actions, state)
      && state.now == now && state.posting == multiset(posting) && FuturesMatch(futures, state)
      && (if started then state.phase.Idle? else state.phase.Starting?)
    }

    constructor ()
      ensures Valid() && fresh(this) && fresh(service)
    {
      service := new Service();
      now, posting, futures, started := 0, [], [], false;
      state, actions := BLANK, [];
    }

    /** The steps of an event have been taken. */
    method Settle(now': nat, posting': seq<Request>, futures': seq<Destination>, started': bool,
                  ghost t: State, ghost more: seq<Action>)
      requires service.Inv(t) && Follows(BLANK, actions, state) && Follows(state, more, t)
      requires t.now == now' && t.posting == multiset(posting') && FuturesMatch(futures', t)
      requires if started' then t.phase.Idle? else t.phase.Starting?
      modifies this
      ensures Valid() && actions == old(actions) + more && state == t
    {
      FollowsJoin(BLANK, actions, state, more, t);
      now, posting, futures, started := now', posting', futures', started';
      state, actions := t, actions + more;
    }

    predicate Fits(reqs: seq<(Destination, SendingEvent)>)
      reads this, service
    {
      service.counter + |reqs| <= U64_MAX && forall q | q in reqs :: Acceptable(q.0, q.1)
    }

    method Queue(reqs: seq<(Destination, SendingEvent)>) returns (made: seq<Request>)
      requires Valid()
      modifies this, service
      ensures Valid()
      ensures old(Fits(reqs)) ==> actions == old(actions) + [Enqueue(made)] && Made(made, reqs)
      ensures !old(Fits(reqs)) ==> actions == old(actions)
    {
      made := [];
      if Fits(reqs) {
        var keys;
        keys, made := service.QueueRequests(reqs, state);
        OneStep(state, Enqueue(made));
        SameFutures(futures, state, AfterEnqueue(state, made));
        Settle(now, posting + made, futures, started, AfterEnqueue(state, made), [Enqueue(made)]);
      }
    }

    method PostNext(k: nat)
      requires Valid()
      modifies this, service
      ensures Valid()
      ensures actions == old(actions) + if k < |old(posting)| then [Post(old(posting)[k])] else []
    {
      if k < |posting| {
        var r := posting[k];
        service.Post(r, state);
        OneStep(state, Post(r));
        WithoutOne(posting, k);
        SameFutures(futures, state, Step(state, Post(r)));
        Settle(now, Without(posting, k), futures, started, Step(state, Post(r)), [Post(r)]);
      }
    }

    method Receive(edus: seq<Bytes>)
      requires Valid()
      modifies this, service
      ensures Valid()
      ensures if old(started && service.channel != []) then old(actions) + [SendingProtocol.Receive] <= actions
              else actions == old(actions)
    {
      if started && service.channel != [] {
        var d := service.channel[0].dest;
        var inputs;
        ghost var keys, t, more;
        inputs, keys, t, more := service.HandleReceiver(edus, now, state);
        BeginsWith(actions, more, SendingProtocol.Receive);
        var inFlight := futures;
        if inputs.Some? {
          FutureStarts(futures, state, t, d);
          inFlight := futures + [d];
        } else {
          SameFutures(futures, state, t);
        }
        Settle(now, posting, inFlight, started, t, more);
      }
    }

    method Respond(k: nat, ok: bool)
      requires Valid()
      modifies this, service
      ensures Valid()
      ensures if old(started && k < |futures|) then
                old(actions) + [if ok then RespondOk(old(futures)[k], 0) else RespondErr(old(futures)[k], 0)] <= actions
              else actions == old(actions)
    {
      if started && k < |futures| {
        var d := futures[k];
        OneFuture(futures, state, k);
        var inputs;
        ghost var batch, t, more;
        inputs, batch, t, more := service.HandleResponse(d, ok, now, state, 0);
        BeginsWith(actions, more, if ok then RespondOk(d, 0) else RespondErr(d, 0));
        FutureEnds(futures, k, state, t, inputs.Some?);
        var inFlight := Without(futures, k);
        if inputs.Some? {
          inFlight := inFlight + [d];
        }
        Settle(now, posting, inFlight, started, t, more);
      }
    }

    method Elapse(dt: nat)
      requires Valid()
      modifies this
      ensures Valid() && actions == old(actions) + [Tick(dt)]
    {
      ghost var t := Step(state, Tick(dt));
      OneStep(state, Tick(dt));
      QuietStepKeepsHandlerInv(state, t);
      SameFutures(futures, state, t);
      Settle(now + dt, posting, futures, started, t, [Tick(dt)]);
    }

    method Crash()
      requires Valid()
      modifies this, service
      ensures Valid() && actions == old(actions) + [SendingProtocol.Crash] && !started
    {
      service.Crash(state);
      OneStep(state, SendingProtocol.Crash);
      Settle(now, [], [], false, AfterCrash(state), [SendingProtocol.Crash]);
    }

    method Start() returns (ghost scan: seq<Request>)
      requires Valid()
      modifies this, service
      ensures Valid() && started
      ensures actions == old(actions) + if old(started) then [] else [SendingProtocol.Start(scan)]
    {
      scan := [];
      if !started {
        var groups;
        ghost var t;
        groups, t, scan := service.Restart(state);
        OneStep(state, SendingProtocol.Start(scan));
        var launched := Launched(groups);
        ResumedFutures(launched, groups, state, t);
        Settle(now, posting, launched, true, t, [SendingProtocol.Start(scan)]);
      }
    }

    /** Any sequence of events. */
    method Run(events: seq<Event>)
      requires Valid()
      modifies this, service
      ensures Valid() && old(actions) <= actions
    {
      for i := 0 to |events|
        invariant Valid() && old(actions) <= actions
      {
        match events[i] {
          case Queued(reqs) => var _ := Queue(reqs);
          case Posted(k) => PostNext(k);
          case Message(edus) => Receive(edus);
          case Response(k, ok) => Respond(k, ok);
          case Elapsed(dt) => Elapse(dt);
          case Crashed => Crash();
          case Started => ghost var _ := Start();
        }
      }
    }

    /** So what holds of every run holds of the trees of every process: each request
        it ever enqueued is in one of them, byte for byte, or was delivered since. */
    lemma NothingIsLostFromTheTrees(j: nat, r: Request) returns (trace: seq<State>)
      requires Valid() && EnqueuedAt(actions, j, r) && WellFormed(r.dest)
      ensures IsRun(trace, actions) && trace[|actions|] == state
      ensures (Key(r) in service.queuedTree && service.queuedTree[Key(r)] == Value(r.event))
           || (Key(r) in service.activeTree && service.activeTree[Key(r)] == Value(r.event))
           || DeliveredSince(trace, actions, j + 1, |actions|, r)
    {
      trace := FollowsIsRun(BLANK, actions, state);
      NothingIsLost(trace, actions, j, |actions|, r);
      if r in At(state.queued, r.dest) {
        ReadIsFaithful(service.queuedTree, r.dest, r);
      } else if r in At(state.active, r.dest) {
        ReadIsFaithful(service.activeTree, r.dest, r);
      }
    }
  }
}
