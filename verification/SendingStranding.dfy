/** Queued requests that nobody looks at: start-up resumes the active requests
    only. */
module SendingStranding {
  import opened Collections
  import opened SendingKeys
  import opened SendingProtocol
  import opened SendingSafety
  import opened SendingRuns
  import opened SendingTheorems

  /** Nothing is going on for the destination, and nothing is coming: what is
      queued for it stays where it is. */
  ghost predicate Stranded(s: State, d: Destination, queued: set<Request>) {
    && At(s.queued, d) == queued && At(s.active, d) == {}
    && d !in s.status && Flights(s, d) == [] && !Held(s, d)
    && (forall r | r in s.channel :: r.dest != d)
    && (forall r | r in s.posting :: r.dest != d)
  }

  /** Nothing is enqueued for the destination by this step. */
  predicate Elsewhere(a: Action, d: Destination) {
    a.Enqueue? ==> forall r | r in a.reqs :: r.dest != d
  }

  lemma EnqueuedElsewhere(s: State, reqs: seq<Request>, d: Destination, queued: set<Request>)
    requires Stranded(s, d, queued) && Elsewhere(Enqueue(reqs), d)
    ensures Stranded(AfterEnqueue(s, reqs), d, queued)
  {
    PutAllAt(s.queued, Elements(reqs), d);
    assert Of(Elements(reqs), d) == {};
    forall r | r in AfterEnqueue(s, reqs).posting ensures r.dest != d {
      assert r in s.posting || r in multiset(reqs);
    }
  }

  /** No group of the start-up scan is for a destination without active requests. */
  lemma GroupedExactly(s: State, scan: seq<Request>, d: Destination)
    requires s.phase.Starting? && Enumerates(scan, s.active)
    ensures d in AfterStart(s, Group(scan)).status <==> At(s.active, d) != {}
    ensures At(s.active, d) == {} ==>
              At(AfterStart(s, Group(scan)).active, d) == {} && Flights(AfterStart(s, Group(scan)), d) == []
  {
    GroupedBy(scan, d);
    assert At(s.active, d) == Of(Elements(scan), d);
    if r :| r in scan && r.dest == d {
      assert r in Of(Elements(scan), d);
    }
    if r :| r in Of(Elements(scan), d) {
      assert r in scan;
    }
  }

  lemma {:induction false} GroupedBy(scan: seq<Request>, d: Destination)
    ensures d in Group(scan).groups <==> exists r :: r in scan && r.dest == d
  {
    if scan != [] {
      var init, last := scan[..|scan| - 1], scan[|scan| - 1];
      GroupedBy(init, d);
      assert scan == init + [last];
      assert forall r :: r in scan <==> r in init || r == last;
    }
  }

  lemma ReceivedElsewhere(s: State, d: Destination, queued: set<Request>)
    requires Stranded(s, d, queued) && s.phase.Idle? && s.channel != []
    ensures Stranded(AfterReceive(s), d, queued)
  {
    assert s.channel[0] in s.channel;
    forall r | r in s.channel[1..] ensures r.dest != d {
      assert r in s.channel;
    }
  }

  lemma ErrorElsewhere(s: State, e: Destination, i: nat, d: Destination, queued: set<Request>)
    requires Stranded(s, d, queued) && s.phase.Idle? && i < |Flights(s, e)|
    ensures Stranded(AfterError(s, e, i), d, queued)
  {
    assert d != e;
  }

  lemma OkElsewhere(s: State, e: Destination, i: nat, d: Destination, queued: set<Request>)
    requires Stranded(s, d, queued) && s.phase.Idle? && i < |Flights(s, e)|
    ensures Stranded(AfterOk(s, e, i), d, queued)
  {
    assert d != e;
  }

  lemma PostedElsewhere(s: State, r: Request, d: Destination, queued: set<Request>)
    requires Stranded(s, d, queued) && r in s.posting
    ensures Stranded(Step(s, Post(r)), d, queued)
  {
  }

  lemma ClearedElsewhere(s: State, a: Action, d: Destination, queued: set<Request>)
    requires HandlerInv(s) && Stranded(s, d, queued) && Enabled(s, a) && (a.ClearOne? || a.Scan? || a.Forget?)
    ensures Stranded(Step(s, a), d, queued)
  {
    assert DestinationInv(s, s.phase.dest);
  }

  lemma MarkedElsewhere(s: State, a: Action, d: Destination, queued: set<Request>)
    requires HandlerInv(s) && Stranded(s, d, queued) && Enabled(s, a) && (a.MarkInsert? || a.MarkRemove? || a.Launch?)
    ensures Stranded(Step(s, a), d, queued)
  {
    assert DestinationInv(s, s.phase.dest);
  }

  lemma StrandedStep(s: State, a: Action, d: Destination, queued: set<Request>)
    requires HandlerInv(s) && Stranded(s, d, queued) && Enabled(s, a) && Elsewhere(a, d)
    ensures Stranded(Step(s, a), d, queued)
  {
    match a
    case Enqueue(reqs) => EnqueuedElsewhere(s, reqs, d, queued);
    case Post(r) => PostedElsewhere(s, r, d, queued);
    case Start(scan) => GroupedExactly(s, scan, d);
    case Receive => ReceivedElsewhere(s, d, queued);
    case RespondErr(e, i) => ErrorElsewhere(s, e, i, d, queued);
    case RespondOk(e, i) => OkElsewhere(s, e, i, d, queued);
    case Tick(_) =>
    case Crash =>
    case _ =>
      if a.ClearOne? || a.Scan? || a.Forget? {
        ClearedElsewhere(s, a, d, queued);
      } else {
        MarkedElsewhere(s, a, d, queued);
      }
  }

  /** In every run, start-up takes a destination up again if and only if something
      was active for it, whatever is queued. */
  lemma ResumedExactly(trace: seq<State>, actions: seq<Action>, k: nat, d: Destination)
    requires IsRun(trace, actions) && k < |actions| && actions[k].Start?
    ensures d in trace[k + 1].status <==> At(trace[k].active, d) != {}
    ensures At(trace[k + 1].queued, d) == At(trace[k].queued, d)
  {
    assert Enabled(trace[k], actions[k]) && trace[k + 1] == Step(trace[k], actions[k]);
    GroupedExactly(trace[k], actions[k].scan, d);
  }

  /** A process that has not started yet, and nothing is coming for `d`. */
  ghost predicate Down(s: State, d: Destination, queued: set<Request>, active: set<Request>) {
    && s.phase.Starting? && s.status == map[] && s.inFlight == map[]
    && At(s.queued, d) == queued && At(s.active, d) == active
    && (forall r | r in s.channel :: r.dest != d)
    && (forall r | r in s.posting :: r.dest != d)
  }

  lemma DownStep(s: State, a: Action, d: Destination, queued: set<Request>, active: set<Request>)
    requires Down(s, d, queued, active) && Enabled(s, a) && Elsewhere(a, d) && !a.Start?
    ensures Down(Step(s, a), d, queued, active)
  {
    if a.Enqueue? {
      PutAllAt(s.queued, Elements(a.reqs), d);
      assert Of(Elements(a.reqs), d) == {};
      forall r | r in AfterEnqueue(s, a.reqs).posting ensures r.dest != d {
        assert r in s.posting || r in multiset(a.reqs);
      }
    }
  }

  lemma CrashIsDown(s: State, d: Destination)
    ensures Down(AfterCrash(s), d, At(s.queued, d), At(s.active, d))
  {
  }

  lemma StartsStranded(s: State, scan: seq<Request>, d: Destination, queued: set<Request>, active: set<Request>)
    requires Down(s, d, queued, active) && Enumerates(scan, s.active)
    ensures Stranded(AfterStart(s, Group(scan)), d, queued) <==> active == {}
  {
    GroupedExactly(s, scan, d);
  }

  lemma {:induction false} StaysDown(trace: seq<State>, actions: seq<Action>, k: nat, m: nat, d: Destination)
    requires IsRun(trace, actions) && k < m < |trace| && actions[k].Crash?
    requires forall i | k <= i < m :: Elsewhere(actions[i], d) && !actions[i].Start?
    ensures Down(trace[m], d, At(trace[k].queued, d), At(trace[k].active, d))
    decreases m
  {
    assert Enabled(trace[m - 1], actions[m - 1]) && trace[m] == Step(trace[m - 1], actions[m - 1]);
    if m == k + 1 {
      CrashIsDown(trace[k], d);
    } else {
      StaysDown(trace, actions, k, m - 1, d);
      DownStep(trace[m - 1], actions[m - 1], d, At(trace[k].queued, d), At(trace[k].active, d));
    }
  }

  /** In every run, from a crash at step `k` to the start that follows it at step
      `m`: what was queued for a destination, if nothing was enqueued for it since,
      is stranded if and only if nothing was active for it. */
  lemma RestartStrandsExactly(trace: seq<State>, actions: seq<Action>, k: nat, m: nat, d: Destination)
    requires IsRun(trace, actions) && k < m < |actions| && actions[k].Crash? && actions[m].Start?
    requires forall i | k <= i < m :: Elsewhere(actions[i], d) && !actions[i].Start?
    ensures Stranded(trace[m + 1], d, At(trace[k].queued, d)) <==> At(trace[k].active, d) == {}
  {
    StaysDown(trace, actions, k, m, d);
    assert Enabled(trace[m], actions[m]) && trace[m + 1] == Step(trace[m], actions[m]);
    StartsStranded(trace[m], actions[m].scan, d, At(trace[k].queued, d), At(trace[k].active, d));
  }

  /** In every run, what is stranded stays so until something is enqueued for the
      same destination: no time, no other destination and no restart helps. */
  lemma {:induction false} StrandedUntilEnqueued(trace: seq<State>, actions: seq<Action>, k: nat, m: nat,
                                                 d: Destination, queued: set<Request>)
    requires IsRun(trace, actions) && k <= m < |trace| && Stranded(trace[k], d, queued)
    requires forall i | k <= i < m :: Elsewhere(actions[i], d)
    ensures Stranded(trace[m], d, queued)
    decreases m
  {
    if k < m {
      StrandedUntilEnqueued(trace, actions, k, m - 1, d, queued);
      StepOfRun(trace, actions, m - 1);
      StrandedStep(trace[m - 1], actions[m - 1], d, queued);
    }
  }

  /** One request, accepted just before a crash, is enough. */
  lemma CrashStrands(r: Request) returns (t: State)
    ensures Init(BLANK) && Follows(BLANK, [Enqueue([r]), Crash] + [Start([])], t)
    ensures t.phase.Idle? && r in t.accepted && Stranded(t, r.dest, {r})
  {
    var s1 := AfterEnqueue(BLANK, [r]);
    OneStep(BLANK, Enqueue([r]));
    FollowsThen(BLANK, [Enqueue([r])], s1, Crash);
    assert [Enqueue([r])] + [Crash] == [Enqueue([r]), Crash];
    PutAllAt(BLANK.queued, Elements([r]), r.dest);
    assert Of(Elements([r]), r.dest) == {r};
    var s2 := AfterCrash(s1);
    assert Enumerates([], s2.active);
    FollowsThen(BLANK, [Enqueue([r]), Crash], s2, Start([]));
    t := AfterStart(s2, Group([]));
    GroupedExactly(s2, [], r.dest);
  }
}
