/** Main results about the outgoing sender, over every run: interleavings of
    enqueuers, handler and network responses, with crashes and restarts. */
module SendingTheorems {
  import opened Collections
  import opened SendingKeys
  import opened SendingProtocol
  import opened SendingSafety

  // ---------------------------------------------------------------------
  // No loss
  // ---------------------------------------------------------------------

  predicate Queued(s: State, r: Request) {
    r in At(s.queued, r.dest)
  }

  predicate Active(s: State, r: Request) {
    r in At(s.active, r.dest)
  }

  /** `delivered` holds what was in a transaction that returned Ok and has not
      been enqueued again since. */
  predicate Kept(s: State, r: Request) {
    Queued(s, r) || Active(s, r) || r in s.delivered
  }

  ghost predicate NoLoss(s: State) {
    && (forall r :: r in s.accepted ==> Kept(s, r))
    && (s.phase.Clearing? ==>
          forall r :: r in At(s.active, s.phase.dest) ==> r in s.delivered || Queued(s, r))
  }

  lemma EnqueueKeepsNoLoss(s: State, reqs: seq<Request>)
    requires NoLoss(s) && HandlerInv(s)
    ensures NoLoss(AfterEnqueue(s, reqs))
  {
    var t := AfterEnqueue(s, reqs);
    forall r | r in reqs ensures Queued(t, r) {
      assert r in Of(Elements(reqs), r.dest);
    }
    assert forall r :: Queued(s, r) ==> Queued(t, r);
    if s.phase.Clearing? {
      assert DestinationInv(s, s.phase.dest);
    }
  }

  lemma OkKeepsNoLoss(s: State, d: Destination, i: nat)
    requires NoLoss(s) && HandlerInv(s) && s.phase.Idle? && i < |Flights(s, d)|
    ensures NoLoss(AfterOk(s, d, i))
  {
    assert DestinationInv(s, d);
    var t := AfterOk(s, d, i);
    assert At(t.active, d) <= t.delivered;
    assert forall r :: (Queued(t, r) <==> Queued(s, r)) && (Active(t, r) <==> Active(s, r));
  }

  lemma ClearOneKeepsNoLoss(s: State, q: Request)
    requires NoLoss(s) && HandlerInv(s) && s.phase.Clearing? && q in At(s.active, s.phase.dest)
    ensures NoLoss(s.(active := Remove(s.active, q)))
  {
    assert DestinationInv(s, s.phase.dest);
    var t := s.(active := Remove(s.active, q));
    assert forall r :: r != q && Active(s, r) ==> Active(t, r);
    assert forall r :: Queued(t, r) <==> Queued(s, r);
  }

  lemma MarkKeepsNoLoss(s: State, q: Request)
    requires NoLoss(s) && HandlerInv(s) && s.phase.Marking?
    ensures q in s.phase.todo ==> NoLoss(AfterMarkInsert(s, q))
    ensures s.phase.half.Inserted? ==> NoLoss(AfterMarkRemove(s))
  {
    var d := s.phase.dest;
    assert DestinationInv(s, d) && HeldInv(s, d);
    if q in s.phase.todo {
      var t := AfterMarkInsert(s, q);
      assert forall r :: (Queued(t, r) <==> Queued(s, r)) && (Active(s, r) ==> Active(t, r));
    }
    if s.phase.half.Inserted? {
      var t := AfterMarkRemove(s);
      assert Active(t, s.phase.half.req);
      assert forall r :: r != s.phase.half.req && Queued(s, r) ==> Queued(t, r);
      assert forall r :: Active(t, r) <==> Active(s, r);
    }
  }

  lemma StartKeepsNoLoss(s: State, scan: seq<Request>)
    requires NoLoss(s) && HandlerInv(s) && s.phase.Starting? && Enumerates(scan, s.active)
    ensures NoLoss(AfterStart(s, Group(scan)))
  {
    StartKeepsHandlerInv(s, scan);
    var t := AfterStart(s, Group(scan));
    assert forall r :: (Queued(t, r) <==> Queued(s, r)) && (Active(t, r) <==> Active(s, r));
  }

  lemma SameTreesKeepNoLoss(s: State, t: State)
    requires NoLoss(s) && t.queued == s.queued && t.active == s.active
    requires t.accepted == s.accepted && t.delivered == s.delivered
    requires t.phase.Clearing? ==> t.phase == s.phase
    ensures NoLoss(t)
  {
    assert forall r :: Queued(t, r) <==> Queued(s, r);
    assert forall r :: Kept(s, r) ==> Kept(t, r);
  }

  lemma ReceiveKeepsNoLoss(s: State)
    requires NoLoss(s) && s.phase.Idle? && s.channel != []
    ensures NoLoss(AfterReceive(s))
  {
    SameTreesKeepNoLoss(s, AfterReceive(s));
  }

  lemma ErrorKeepsNoLoss(s: State, d: Destination, i: nat)
    requires NoLoss(s) && i < |Flights(s, d)|
    ensures NoLoss(AfterError(s, d, i))
  {
    SameTreesKeepNoLoss(s, AfterError(s, d, i));
  }

  lemma QuietStepKeepsNoLoss(s: State, a: Action)
    requires NoLoss(s) && Enabled(s, a)
    requires a.Scan? || a.Forget? || a.Launch? || a.Crash? || a.Post? || a.Tick?
    ensures NoLoss(Step(s, a))
  {
    SameTreesKeepNoLoss(s, Step(s, a));
  }

  lemma StepKeepsNoLoss(s: State, a: Action)
    requires NoLoss(s) && HandlerInv(s) && Enabled(s, a)
    ensures NoLoss(Step(s, a))
  {
    match a
    case Enqueue(reqs) => EnqueueKeepsNoLoss(s, reqs);
    case Start(scan) => StartKeepsNoLoss(s, scan);
    case RespondOk(d, i) => OkKeepsNoLoss(s, d, i);
    case ClearOne(r) => ClearOneKeepsNoLoss(s, r);
    case MarkInsert(r) => MarkKeepsNoLoss(s, r);
    case MarkRemove => MarkKeepsNoLoss(s, s.phase.half.req);
    case Receive => ReceiveKeepsNoLoss(s);
    case RespondErr(d, i) => ErrorKeepsNoLoss(s, d, i);
    case _ => QuietStepKeepsNoLoss(s, a);
  }

  // ---------------------------------------------------------------------
  // No stranded request
  // ---------------------------------------------------------------------

  /** Someone will still look at the queue of `r`'s destination: its message is
      unconsumed, or the destination has a status that is not being dropped. */
  predicate Tracked(s: State, r: Request) {
    || r in s.posting
    || r in s.channel
    || (r.dest in s.status && s.phase != Emptied(r.dest))
  }

  ghost predicate NoneStranded(s: State) {
    forall r :: r in s.sinceStart && Queued(s, r) ==> Tracked(s, r)
  }

  lemma ReceiveKeepsNoneStranded(s: State)
    requires NoneStranded(s) && s.phase.Idle? && s.channel != []
    ensures NoneStranded(AfterReceive(s))
  {
    var t, q := AfterReceive(s), s.channel[0];
    assert s.channel == [q] + t.channel;
    forall r | r in t.sinceStart && Queued(t, r) ensures Tracked(t, r) {
      assert Queued(s, r) && Tracked(s, r);
      assert r.dest == q.dest ==> r.dest in t.status;
    }
  }

  lemma ScanKeepsNoneStranded(s: State, picked: set<Request>)
    requires NoneStranded(s) && s.phase.Clearing? && FirstOf(picked, At(s.queued, s.phase.dest))
    ensures NoneStranded(AfterScan(s, s.phase.dest, picked))
  {
    var t := AfterScan(s, s.phase.dest, picked);
    forall r | r in t.sinceStart && Queued(t, r) ensures Tracked(t, r) {
      assert Queued(s, r) && Tracked(s, r);
      assert picked == {} ==> At(s.queued, s.phase.dest) == {};
    }
  }

  lemma EnqueueKeepsNoneStranded(s: State, reqs: seq<Request>)
    requires NoneStranded(s)
    ensures NoneStranded(AfterEnqueue(s, reqs))
  {
    var t := AfterEnqueue(s, reqs);
    forall r | r in t.sinceStart && Queued(t, r) ensures Tracked(t, r) {
      if r in reqs {
        assert r in t.posting;
      } else {
        assert Queued(s, r) && Tracked(s, r);
      }
    }
  }

  lemma StartKeepsNoneStranded(s: State, scan: seq<Request>)
    requires NoneStranded(s) && HandlerInv(s) && s.phase.Starting?
    ensures NoneStranded(AfterStart(s, Group(scan)))
  {
    var t := AfterStart(s, Group(scan));
    forall r | r in t.sinceStart && Queued(t, r) ensures Tracked(t, r) {
      assert Queued(s, r) && Tracked(s, r) && DestinationInv(s, r.dest);
    }
  }

  lemma OtherStepsKeepNoneStranded(s: State, a: Action)
    requires NoneStranded(s) && Enabled(s, a)
    requires a.Post? || a.RespondErr? || a.ClearOne? || a.Forget? || a.MarkInsert? || a.MarkRemove? || a.Tick?
    ensures NoneStranded(Step(s, a))
  {
    var t := Step(s, a);
    forall r | r in t.sinceStart && Queued(t, r) ensures Tracked(t, r) {
      assert Queued(s, r) && Tracked(s, r);
    }
  }

  lemma StepKeepsNoneStranded(s: State, a: Action)
    requires NoneStranded(s) && HandlerInv(s) && Enabled(s, a)
    ensures NoneStranded(Step(s, a))
  {
    match a
    case Enqueue(reqs) => EnqueueKeepsNoneStranded(s, reqs);
    case Receive => ReceiveKeepsNoneStranded(s);
    case Scan(picked) => ScanKeepsNoneStranded(s, picked);
    case Launch => assert DestinationInv(s, s.phase.dest);
    case RespondOk(d, _) => assert DestinationInv(s, d);
    case Crash =>
    case Start(scan) => StartKeepsNoneStranded(s, scan);
    case _ => OtherStepsKeepNoneStranded(s, a);
  }

  // ---------------------------------------------------------------------
  // Backoff
  // ---------------------------------------------------------------------

  /** Rest accumulated between the first failure and the `tries`-th one. */
  function Rested(tries: nat): nat {
    if tries <= 1 then 0 else Rested(tries - 1) + Backoff(tries - 1)
  }

  ghost predicate BackoffInv(s: State) {
    forall d :: d in s.status ==>
      match s.status[d]
      case Running => true
      case Failed(n, at) =>
        n >= 1 && d in s.firstFailure && s.firstFailure[d] + Rested(n) <= at <= s.now
      case Retrying(n) =>
        n >= 1 && d in s.firstFailure && s.firstFailure[d] + Rested(n + 1) <= s.now
  }

  lemma ReceiveKeepsBackoffInv(s: State)
    requires BackoffInv(s) && s.channel != []
    ensures BackoffInv(AfterReceive(s))
  {
    var d := s.channel[0].dest;
    if d in s.status && s.status[d].Failed? {
      assert Rested(s.status[d].tries + 1) == Rested(s.status[d].tries) + Backoff(s.status[d].tries);
    }
  }

  lemma ErrorKeepsBackoffInv(s: State, d: Destination, i: nat)
    requires BackoffInv(s) && i < |Flights(s, d)|
    ensures BackoffInv(AfterError(s, d, i))
  {
  }

  lemma FewerStatusesKeepBackoffInv(s: State, t: State)
    requires BackoffInv(s) && t.firstFailure == s.firstFailure && t.now >= s.now
    requires forall d :: d in t.status ==> d in s.status && t.status[d] == s.status[d]
    ensures BackoffInv(t)
  {
  }

  lemma StepKeepsBackoffInv(s: State, a: Action)
    requires BackoffInv(s) && Enabled(s, a)
    ensures BackoffInv(Step(s, a))
  {
    match a
    case Receive => ReceiveKeepsBackoffInv(s);
    case RespondErr(d, i) => ErrorKeepsBackoffInv(s, d, i);
    case Start(scan) =>
    case Crash =>
    case Enqueue(reqs) => FewerStatusesKeepBackoffInv(s, AfterEnqueue(s, reqs));
    case RespondOk(d, i) => FewerStatusesKeepBackoffInv(s, AfterOk(s, d, i));
    case Scan(picked) => FewerStatusesKeepBackoffInv(s, AfterScan(s, s.phase.dest, picked));
    case Forget => FewerStatusesKeepBackoffInv(s, AfterForget(s, s.phase.dest));
    case MarkInsert(r) => FewerStatusesKeepBackoffInv(s, AfterMarkInsert(s, r));
    case MarkRemove => FewerStatusesKeepBackoffInv(s, AfterMarkRemove(s));
    case Launch => FewerStatusesKeepBackoffInv(s, AfterLaunch(s));
    case Post(_) => FewerStatusesKeepBackoffInv(s, Step(s, a));
    case ClearOne(_) => FewerStatusesKeepBackoffInv(s, Step(s, a));
    case Tick(_) => FewerStatusesKeepBackoffInv(s, Step(s, a));
  }

  lemma {:induction false} RestedGrows(n: nat)
    requires n >= 55
    ensures Rested(n) >= NANOS * 86400 * (n - 55)
  {
    if n > 55 {
      RestedGrows(n - 1);
      assert (n - 1) * (n - 1) >= 55 * 55;
      assert 30 * (n - 1) * (n - 1) == 30 * ((n - 1) * (n - 1));
    }
  }

  lemma SquareMonotone(n: nat, m: nat)
    requires n <= m
    ensures 30 * n * n <= 30 * m * m
  {
    assert n * n <= n * m <= m * m;
    assert 30 * n * n == 30 * (n * n) && 30 * m * m == 30 * (m * m);
  }

  /** `Duration::from_secs(30) * tries * tries` fits 64 bits of seconds, and the
      count fits 32 bits, as long as less than 2^45 seconds have passed. */
  lemma BackoffDoesNotOverflow(n: nat, elapsed: nat)
    requires Rested(n) <= elapsed && elapsed < NANOS * 0x2000_0000_0000
    ensures n + 1 < 0x1_0000_0000
    ensures 30 * n * n < 0x1_0000_0000_0000_0000
  {
    if n >= 55 {
      RestedGrows(n);
      assert 86400 * (n - 55) < 0x2000_0000_0000;
    }
    assert n <= 407_300_000;
    SquareMonotone(n, 407_300_000);
  }

  // ---------------------------------------------------------------------
  // Every run
  // ---------------------------------------------------------------------

  ghost predicate Invariant(s: State) {
    HandlerInv(s) && NoLoss(s) && NoneStranded(s) && BackoffInv(s)
  }

  lemma InitInvariant(s: State)
    requires Init(s)
    ensures Invariant(s)
  {
    forall d ensures DestinationInv(s, d) {}
  }

  lemma {:induction false} RunInvariant(trace: seq<State>, actions: seq<Action>, k: nat)
    requires IsRun(trace, actions) && k < |trace|
    ensures Invariant(trace[k])
  {
    if k == 0 {
      InitInvariant(trace[0]);
    } else {
      RunInvariant(trace, actions, k - 1);
      var s, a := trace[k - 1], actions[k - 1];
      StepKeepsHandlerInv(s, a);
      StepKeepsNoLoss(s, a);
      StepKeepsNoneStranded(s, a);
      StepKeepsBackoffInv(s, a);
    }
  }

  // What the history fields of the state record

  predicate EnqueuedAt(actions: seq<Action>, j: nat, r: Request) {
    j < |actions| && actions[j].Enqueue? && r in actions[j].reqs
  }

  /** A transaction that carries the request returns Ok at this step. */
  predicate DeliveredAt(trace: seq<State>, actions: seq<Action>, i: nat, r: Request)
    requires |trace| == |actions| + 1
  {
    i < |actions| && Delivers(trace[i], actions[i], r)
  }

  ghost predicate DeliveredSince(trace: seq<State>, actions: seq<Action>, j: nat, k: nat, r: Request)
    requires |trace| == |actions| + 1
  {
    exists i :: j <= i < k && DeliveredAt(trace, actions, i, r)
  }

  predicate Records(s: State, t: State, enqueued: set<Request>, delivered: set<Request>) {
    && t.accepted == s.accepted + enqueued && t.delivered == (s.delivered - enqueued) + delivered
    && t.sinceStart == s.sinceStart + enqueued
  }

  lemma EnqueueRecords(s: State, reqs: seq<Request>)
    ensures Records(s, AfterEnqueue(s, reqs), Elements(reqs), {})
  {
  }

  lemma OkRecords(s: State, d: Destination, i: nat)
    requires i < |Flights(s, d)|
    ensures Records(s, AfterOk(s, d, i), {}, Flights(s, d)[i])
  {
  }

  lemma HandlingRecordsNothing(s: State, a: Action)
    requires Enabled(s, a) && (a.Receive? || a.RespondErr? || a.Start? || a.Post? || a.Tick?)
    ensures Records(s, Step(s, a), {}, {})
  {
  }

  lemma MarkingRecordsNothing(s: State, a: Action)
    requires Enabled(s, a)
    requires a.ClearOne? || a.Scan? || a.Forget? || a.MarkInsert? || a.MarkRemove? || a.Launch?
    ensures Records(s, Step(s, a), {}, {})
  {
  }

  lemma CrashRecords(s: State)
    ensures var t := AfterCrash(s);
            t.accepted == s.accepted && t.delivered == s.delivered && t.sinceStart == {}
  {
  }

  predicate Adds(s: State, a: Action, t: State, r: Request) {
    && (r in t.accepted <==> r in s.accepted || (a.Enqueue? && r in a.reqs))
    && (r in t.delivered ==> (r in s.delivered && !(a.Enqueue? && r in a.reqs)) || Delivers(s, a, r))
    && (r in t.sinceStart <==> !a.Crash? && (r in s.sinceStart || (a.Enqueue? && r in a.reqs)))
  }

  predicate Delivers(s: State, a: Action, r: Request) {
    a.RespondOk? && a.i < |Flights(s, a.dest)| && r in Flights(s, a.dest)[a.i]
  }

  lemma HistoryStep(s: State, a: Action, r: Request)
    requires Enabled(s, a)
    ensures Adds(s, a, Step(s, a), r)
  {
    match a
    case Enqueue(reqs) => EnqueueRecords(s, reqs);
    case RespondOk(d, i) => OkRecords(s, d, i);
    case Crash => CrashRecords(s);
    case _ =>
      if a.Receive? || a.RespondErr? || a.Start? || a.Post? || a.Tick? {
        HandlingRecordsNothing(s, a);
      } else {
        MarkingRecordsNothing(s, a);
      }
  }

  ghost predicate AllAdd(trace: seq<State>, actions: seq<Action>, r: Request) {
    |trace| == |actions| + 1 && forall i | 0 <= i < |actions| :: Adds(trace[i], actions[i], trace[i + 1], r)
  }

  lemma RunsAdd(trace: seq<State>, actions: seq<Action>, r: Request)
    requires IsRun(trace, actions)
    ensures AllAdd(trace, actions, r)
  {
    forall i | 0 <= i < |actions| ensures Adds(trace[i], actions[i], trace[i + 1], r) {
      HistoryStep(trace[i], actions[i], r);
    }
  }

  /** What is enqueued at step `j` is recorded as accepted; if it is recorded as
      delivered, it was delivered since. */
  lemma {:induction false} HistoryIsTrue(trace: seq<State>, actions: seq<Action>, j: nat, k: nat, r: Request)
    requires AllAdd(trace, actions, r) && j < k < |trace| && EnqueuedAt(actions, j, r)
    ensures r in trace[k].accepted
    ensures r in trace[k].delivered ==> DeliveredSince(trace, actions, j + 1, k, r)
    ensures (forall i | j <= i < k :: !actions[i].Crash?) ==> r in trace[k].sinceStart
    decreases k
  {
    assert Adds(trace[k - 1], actions[k - 1], trace[k], r);
    if j < k - 1 {
      HistoryIsTrue(trace, actions, j, k - 1, r);
      if r in trace[k].delivered {
        if Delivers(trace[k - 1], actions[k - 1], r) {
          assert DeliveredAt(trace, actions, k - 1, r);
        } else {
          var i :| j + 1 <= i < k - 1 && DeliveredAt(trace, actions, i, r);
        }
      }
    }
  }

  /** A request, once enqueued, is queued, active, or in a transaction that has
      returned Ok since -- whatever crashed in between. */
  lemma NothingIsLost(trace: seq<State>, actions: seq<Action>, j: nat, k: nat, r: Request)
    requires IsRun(trace, actions) && j < k < |trace| && EnqueuedAt(actions, j, r)
    ensures r in At(trace[k].queued, r.dest) || r in At(trace[k].active, r.dest) || DeliveredSince(trace, actions, j + 1, k, r)
  {
    RunInvariant(trace, actions, k);
    RunsAdd(trace, actions, r);
    HistoryIsTrue(trace, actions, j, k, r);
    assert Kept(trace[k], r);
  }

  lemma StepOfRun(trace: seq<State>, actions: seq<Action>, i: nat)
    requires IsRun(trace, actions) && i < |actions|
    ensures HandlerInv(trace[i]) && Enabled(trace[i], actions[i]) && trace[i + 1] == Step(trace[i], actions[i])
  {
    RunInvariant(trace, actions, i);
  }

  /** No destination ever has more than 30 active requests, so start-up never
      takes its "Dropping some current events" branch. */
  lemma StartUpDropsNothing(trace: seq<State>, actions: seq<Action>, k: nat)
    requires IsRun(trace, actions) && k < |actions| && actions[k].Start?
    ensures forall d :: |At(trace[k].active, d)| <= MAX_BATCH
    ensures Group(actions[k].scan).dropped == {}
  {
    RunInvariant(trace, actions, k);
    forall d ensures |At(trace[k].active, d)| <= MAX_BATCH {
      assert DestinationInv(trace[k], d);
    }
    NoneDropped(actions[k].scan, trace[k].active);
  }

  /** Between two events of the handler, status, futures and active set agree. */
  lemma StatusMirrorsFutures(trace: seq<State>, actions: seq<Action>, k: nat, d: Destination)
    requires IsRun(trace, actions) && k < |trace| && trace[k].phase.Idle?
    ensures var s := trace[k];
            && (d in s.status <==> At(s.active, d) != {})
            && (d in s.status && !s.status[d].Failed? <==> |Flights(s, d)| == 1)
            && (Flights(s, d) == [] || Flights(s, d) == [At(s.active, d)])
  {
    RunInvariant(trace, actions, k);
    assert DestinationInv(trace[k], d);
  }

  /** The branch for a failed request "that was not even running" is dead. */
  lemma OnlyRunningRequestsFail(trace: seq<State>, actions: seq<Action>, k: nat)
    requires IsRun(trace, actions) && k < |actions| && actions[k].RespondErr?
    ensures actions[k].dest in trace[k].status && !trace[k].status[actions[k].dest].Failed?
  {
    RunInvariant(trace, actions, k);
    assert DestinationInv(trace[k], actions[k].dest);
  }

  /** Whatever was enqueued since the last crash and is still queued, has a status
      entry for its destination or a message that the handler has not consumed. */
  lemma NothingIsStranded(trace: seq<State>, actions: seq<Action>, j: nat, k: nat, r: Request)
    requires IsRun(trace, actions) && j < k < |trace| && EnqueuedAt(actions, j, r)
    requires (forall i | j <= i < k :: !actions[i].Crash?) && r in At(trace[k].queued, r.dest)
    ensures r.dest in trace[k].status || r in trace[k].channel || r in trace[k].posting
  {
    RunInvariant(trace, actions, k);
    RunsAdd(trace, actions, r);
    HistoryIsTrue(trace, actions, j, k, r);
    assert Tracked(trace[k], r);
  }

  predicate FailsAt(actions: seq<Action>, j: nat, d: Destination) {
    j < |actions| && actions[j].RespondErr? && actions[j].dest == d
  }

  /** The first failure of the destination since it was taken up. */
  ghost predicate FirstFails(trace: seq<State>, actions: seq<Action>, j: nat, k: nat, d: Destination)
    requires |trace| == |actions| + 1
  {
    && j < k < |trace| && FailsAt(actions, j, d) && d in trace[j].status && trace[j].status[d].Running?
    && (forall i | j < i <= k :: d in trace[i].status && !trace[i].status[d].Running?)
  }

  /** What a step does to a destination that has failed before. */
  predicate Onwards(s: State, a: Action, t: State, d: Destination) {
    && d in t.status && !t.status[d].Running? && d in t.firstFailure && d in s.status
    && (s.status[d].Running? ==> a.RespondErr? && a.dest == d && t.firstFailure[d] == s.now)
    && (!s.status[d].Running? ==> d in s.firstFailure && t.firstFailure[d] == s.firstFailure[d])
  }

  /** Steps that change no status, beside time. */
  lemma StatusStays(s: State, a: Action)
    requires Enabled(s, a) && !a.Receive? && !a.RespondErr? && !a.Start? && !a.Forget? && !a.Crash?
    ensures Step(s, a).status == s.status && Step(s, a).firstFailure == s.firstFailure
  {
  }

  lemma FailureStep(s: State, a: Action, d: Destination)
    requires Enabled(s, a) && BackoffInv(s) && d in Step(s, a).status && !Step(s, a).status[d].Running?
    ensures Onwards(s, a, Step(s, a), d)
  {
    match a
    case Receive => FailureReceive(s, d);
    case RespondErr(e, i) => FailureError(s, e, i, d);
    case Start(_) =>
    case Forget =>
    case Crash =>
    case _ => StatusStays(s, a);
  }

  lemma FailureReceive(s: State, d: Destination)
    requires BackoffInv(s) && s.channel != [] && d in AfterReceive(s).status && !AfterReceive(s).status[d].Running?
    ensures Onwards(s, Receive, AfterReceive(s), d)
  {
  }

  lemma FailureError(s: State, e: Destination, i: nat, d: Destination)
    requires BackoffInv(s) && i < |Flights(s, e)| && d in AfterError(s, e, i).status && !AfterError(s, e, i).status[d].Running?
    ensures Onwards(s, RespondErr(e, i), AfterError(s, e, i), d)
  {
  }

  predicate HasFailed(s: State, d: Destination) {
    d in s.status && !s.status[d].Running?
  }

  ghost predicate AllOnwards(trace: seq<State>, actions: seq<Action>, d: Destination) {
    && |trace| == |actions| + 1 && !HasFailed(trace[0], d)
    && forall i | 0 <= i < |actions| && HasFailed(trace[i + 1], d) :: Onwards(trace[i], actions[i], trace[i + 1], d)
  }

  lemma RunsGoOnwards(trace: seq<State>, actions: seq<Action>, d: Destination)
    requires IsRun(trace, actions)
    ensures AllOnwards(trace, actions, d)
  {
    forall i | 0 <= i < |actions| && HasFailed(trace[i + 1], d) ensures Onwards(trace[i], actions[i], trace[i + 1], d) {
      RunInvariant(trace, actions, i);
      FailureStep(trace[i], actions[i], d);
    }
  }

  lemma {:induction false} FirstFailureIsTrue(trace: seq<State>, actions: seq<Action>, k: nat, d: Destination) returns (j: nat)
    requires AllOnwards(trace, actions, d) && k < |trace| && HasFailed(trace[k], d)
    ensures FirstFails(trace, actions, j, k, d)
    ensures d in trace[k].firstFailure && trace[j].now == trace[k].firstFailure[d]
    decreases k
  {
    assert Onwards(trace[k - 1], actions[k - 1], trace[k], d);
    if trace[k - 1].status[d].Running? {
      j := k - 1;
    } else {
      j := FirstFailureIsTrue(trace, actions, k - 1, d);
    }
  }

  /** Reaching the n-th failure takes the rests in between; until 2^45 seconds
      have passed since the first failure the backoff product cannot overflow. */
  lemma FailuresAreSpaced(trace: seq<State>, actions: seq<Action>, k: nat, d: Destination) returns (j: nat)
    requires IsRun(trace, actions) && k < |trace|
    requires d in trace[k].status && trace[k].status[d].Failed?
    ensures FirstFails(trace, actions, j, k, d)
    ensures var s, n := trace[k], trace[k].status[d].tries;
            && s.status[d].at - trace[j].now >= Rested(n)
            && (s.now - trace[j].now < NANOS * 0x2000_0000_0000 ==>
                  n + 1 < 0x1_0000_0000 && 30 * n * n < 0x1_0000_0000_0000_0000)
  {
    RunInvariant(trace, actions, k);
    RunsGoOnwards(trace, actions, d);
    j := FirstFailureIsTrue(trace, actions, k, d);
    var s := trace[k];
    if s.now - s.firstFailure[d] < NANOS * 0x2000_0000_0000 {
      BackoffDoesNotOverflow(s.status[d].tries, s.now - s.firstFailure[d]);
    }
  }
}
