/** What every run of the outgoing sender keeps. */
module SendingSafety {
  import opened Collections
  import opened SendingKeys
  import opened SendingProtocol

  // ---------------------------------------------------------------------
  // Sets of requests by destination
  // ---------------------------------------------------------------------

  lemma SubsetSize<T>(a: set<T>, b: set<T>)
    requires a <= b
    ensures |a| <= |b|
  {
    assert b == a + (b - a);
    assert |b| == |a| + |b - a|;
  }

  lemma OfUnchanged(a: set<Request>, r: Request, d: Destination)
    requires r.dest != d
    ensures Of(a + {r}, d) == Of(a, d) == Of(a - {r}, d)
  {
  }

  lemma OfExtended(a: set<Request>, r: Request)
    ensures Of(a + {r}, r.dest) == Of(a, r.dest) + {r}
  {
  }

  lemma PutAllAt(t: Table, reqs: set<Request>, d: Destination)
    ensures At(PutAll(t, reqs), d) == At(t, d) + Of(reqs, d)
  {
  }

  // ---------------------------------------------------------------------
  // Start-up grouping
  // ---------------------------------------------------------------------

  ghost predicate GroupedAs(scan: seq<Request>, g: Grouping, d: Destination) {
    var all := Of(Elements(scan), d);
    && (d in g.groups <==> all != {})
    && (d in g.groups ==>
          && Elements(g.groups[d]) + Of(g.dropped, d) == all
          && Elements(g.groups[d]) !! Of(g.dropped, d) && |Elements(g.groups[d])| == |g.groups[d]|
          && |g.groups[d]| == if |all| <= MAX_BATCH + 1 then |all| else MAX_BATCH + 1)
    && (Of(g.dropped, d) != {} <==> |all| > MAX_BATCH + 1)
  }

  lemma GroupOther(init: seq<Request>, r: Request, g: Grouping, d: Destination)
    requires GroupedAs(init, g, d) && r.dest != d
    ensures GroupedAs(init + [r], GroupNext(g, r), d)
  {
    assert Elements(init + [r]) == Elements(init) + {r};
    OfUnchanged(Elements(init), r, d);
    OfUnchanged(g.dropped, r, d);
  }

  lemma GroupKept(init: seq<Request>, r: Request, g: Grouping)
    requires GroupedAs(init, g, r.dest) && r !in init
    requires |Of(Elements(init), r.dest)| <= MAX_BATCH
    ensures GroupedAs(init + [r], GroupNext(g, r), r.dest)
  {
    var d, before := r.dest, Of(Elements(init), r.dest);
    var entry := if d in g.groups then g.groups[d] else [];
    assert Elements(init + [r]) == Elements(init) + {r};
    OfExtended(Elements(init), r);
    assert |before + {r}| == |before| + 1;
    assert Of(g.dropped, d) == {};
    assert Elements(entry) == before;
    assert Elements(entry + [r]) == Elements(entry) + {r};
    assert GroupNext(g, r) == Grouping(g.groups[d := entry + [r]], g.dropped);
  }

  lemma GroupDropped(init: seq<Request>, r: Request, g: Grouping)
    requires GroupedAs(init, g, r.dest) && r !in init
    requires |Of(Elements(init), r.dest)| > MAX_BATCH
    ensures GroupedAs(init + [r], GroupNext(g, r), r.dest)
  {
    var d, before := r.dest, Of(Elements(init), r.dest);
    assert d in g.groups && |g.groups[d]| == MAX_BATCH + 1;
    var kept, h := g.groups[d], GroupNext(g, r);
    assert h.groups[d] == kept && h.dropped == g.dropped + {r};
    assert Of(Elements(init + [r]), d) == before + {r} by {
      assert Elements(init + [r]) == Elements(init) + {r};
      OfExtended(Elements(init), r);
    }
    assert Of(h.dropped, d) == Of(g.dropped, d) + {r} by {
      OfExtended(g.dropped, r);
    }
    assert |before + {r}| == |before| + 1;
  }

  /** The start-up loop keeps the first 31 active requests of a destination; its
      "Dropping some current events" branch runs exactly when there are more. */
  lemma {:induction false} GroupKeepsFirst31(scan: seq<Request>, d: Destination)
    requires Distinct(scan)
    ensures GroupedAs(scan, Group(scan), d)
  {
    if scan == [] {
      assert Of(Elements(scan), d) == {};
    } else {
      GroupKeepsFirst31(scan[..|scan| - 1], d);
      var init, r := scan[..|scan| - 1], scan[|scan| - 1];
      assert scan == init + [r];
      if r.dest == d {
        if |Of(Elements(init), d)| <= MAX_BATCH {
          GroupKept(init, r, Group(init));
        } else {
          GroupDropped(init, r, Group(init));
        }
      } else {
        GroupOther(init, r, Group(init), d);
      }
    }
  }

  lemma NoneDropped(scan: seq<Request>, active: Table)
    requires Enumerates(scan, active)
    requires forall d :: |At(active, d)| <= MAX_BATCH
    ensures Group(scan).dropped == {}
    ensures forall d :: GroupedAs(scan, Group(scan), d)
  {
    var g := Group(scan);
    forall d ensures GroupedAs(scan, g, d) && Of(g.dropped, d) == {} {
      GroupKeepsFirst31(scan, d);
      assert |At(active, d)| <= MAX_BATCH;
    }
    forall r ensures r !in g.dropped {
      assert r in g.dropped ==> r in Of(g.dropped, r.dest);
    }
  }

  // ---------------------------------------------------------------------
  // Handler invariant, step by step
  // ---------------------------------------------------------------------

  /** Start-up brings about the handler's invariant, from whatever the trees hold,
      if and only if no destination has more than 30 active requests. */
  lemma StartEstablishesHandlerInv(s: State, scan: seq<Request>)
    requires s.phase.Starting? && Enumerates(scan, s.active)
    requires forall d, r :: r in At(s.queued, d) ==> r.dest == d
    ensures HandlerInv(AfterStart(s, Group(scan))) <==> forall d :: |At(s.active, d)| <= MAX_BATCH
  {
    var g := Group(scan);
    var t := AfterStart(s, g);
    if forall d :: |At(s.active, d)| <= MAX_BATCH {
      NoneDropped(scan, s.active);
      forall d ensures DestinationInv(t, d) {
        StartedDestination(s, scan, d);
      }
    } else {
      var d :| |At(s.active, d)| > MAX_BATCH;
      GroupKeepsFirst31(scan, d);
      assert Of(Elements(scan), d) == At(s.active, d);
      StartedActive(s, g, d);
      assert At(t.active, d) == Elements(g.groups[d]);
      assert !DestinationInv(t, d);
    }
  }

  lemma StartedActive(s: State, g: Grouping, d: Destination)
    requires d in g.groups && Elements(g.groups[d]) + Of(g.dropped, d) == At(s.active, d)
    requires Elements(g.groups[d]) !! Of(g.dropped, d) && forall r :: r in At(s.active, d) ==> r.dest == d
    ensures At(AfterStart(s, g).active, d) == Elements(g.groups[d])
  {
    assert At(AfterStart(s, g).active, d) == At(s.active, d) - g.dropped;
  }

  lemma StartedDestination(s: State, scan: seq<Request>, d: Destination)
    requires s.phase.Starting? && Enumerates(scan, s.active) && GroupedAs(scan, Group(scan), d) && Group(scan).dropped == {}
    requires |At(s.active, d)| <= MAX_BATCH && forall r :: r in At(s.queued, d) ==> r.dest == d
    ensures DestinationInv(AfterStart(s, Group(scan)), d)
  {
    var g := Group(scan);
    assert Of(Elements(scan), d) == At(s.active, d);
    assert Of(g.dropped, d) == {};
    assert At(AfterStart(s, g).active, d) == At(s.active, d);
  }

  lemma StartKeepsHandlerInv(s: State, scan: seq<Request>)
    requires HandlerInv(s) && s.phase.Starting? && Enumerates(scan, s.active)
    ensures Group(scan).dropped == {}
    ensures HandlerInv(AfterStart(s, Group(scan)))
  {
    var g := Group(scan);
    var t := AfterStart(s, g);
    forall d ensures |At(s.active, d)| <= MAX_BATCH {
      assert DestinationInv(s, d);
    }
    NoneDropped(scan, s.active);
    forall d ensures DestinationInv(t, d) {
      assert DestinationInv(s, d) && GroupedAs(scan, g, d);
      assert At(t.active, d) == At(s.active, d);
      assert Of(g.dropped, d) == {};
    }
  }

  /** A step that touches one destination leaves the others as they were. */
  predicate SameElsewhere(s: State, t: State, d: Destination, e: Destination) {
    e != d ==>
      && At(t.active, e) == At(s.active, e)
      && At(t.queued, e) == At(s.queued, e)
      && Flights(t, e) == Flights(s, e)
      && (e in t.status <==> e in s.status)
      && (e in s.status ==> t.status[e] == s.status[e])
      && !Held(t, e) && !Held(s, e)
  }

  lemma OneDestinationStep(s: State, t: State, d: Destination)
    requires HandlerInv(s) && !s.phase.Starting? && !t.phase.Starting?
    requires forall e :: SameElsewhere(s, t, d, e)
    requires DestinationInv(t, d)
    ensures HandlerInv(t)
  {
    forall e ensures DestinationInv(t, e) {
      assert DestinationInv(s, e) && SameElsewhere(s, t, d, e);
    }
  }

  lemma ReceiveKeepsHandlerInv(s: State)
    requires HandlerInv(s) && s.phase.Idle? && s.channel != []
    ensures HandlerInv(AfterReceive(s))
  {
    var t, r := AfterReceive(s), s.channel[0];
    assert DestinationInv(s, r.dest);
    OneDestinationStep(s, t, r.dest);
  }

  lemma ErrorKeepsHandlerInv(s: State, d: Destination, i: nat)
    requires HandlerInv(s) && s.phase.Idle? && i < |Flights(s, d)|
    ensures HandlerInv(AfterError(s, d, i))
  {
    assert DestinationInv(s, d);
    OneDestinationStep(s, AfterError(s, d, i), d);
  }

  lemma OkKeepsHandlerInv(s: State, d: Destination, i: nat)
    requires HandlerInv(s) && s.phase.Idle? && i < |Flights(s, d)|
    ensures HandlerInv(AfterOk(s, d, i))
  {
    assert DestinationInv(s, d);
    OneDestinationStep(s, AfterOk(s, d, i), d);
  }

  lemma ClearOneKeepsHandlerInv(s: State, r: Request)
    requires HandlerInv(s) && s.phase.Clearing? && r in At(s.active, s.phase.dest)
    ensures HandlerInv(s.(active := Remove(s.active, r)))
  {
    var d := s.phase.dest;
    assert DestinationInv(s, d);
    SubsetSize(At(s.active, d) - {r}, At(s.active, d));
    OneDestinationStep(s, s.(active := Remove(s.active, r)), d);
  }

  lemma ScanKeepsHandlerInv(s: State, picked: set<Request>)
    requires HandlerInv(s) && s.phase.Clearing? && At(s.active, s.phase.dest) == {}
    requires FirstOf(picked, At(s.queued, s.phase.dest))
    ensures HandlerInv(AfterScan(s, s.phase.dest, picked))
  {
    var d := s.phase.dest;
    assert DestinationInv(s, d);
    OneDestinationStep(s, AfterScan(s, d, picked), d);
  }

  lemma ForgetKeepsHandlerInv(s: State)
    requires HandlerInv(s) && s.phase.Emptied?
    ensures HandlerInv(AfterForget(s, s.phase.dest))
  {
    assert DestinationInv(s, s.phase.dest);
    OneDestinationStep(s, AfterForget(s, s.phase.dest), s.phase.dest);
  }

  lemma MarkInsertKeepsHandlerInv(s: State, r: Request)
    requires HandlerInv(s) && s.phase.Marking? && r in s.phase.todo
    ensures HandlerInv(AfterMarkInsert(s, r))
  {
    var d, batch, todo := s.phase.dest, s.phase.batch, s.phase.todo;
    assert DestinationInv(s, d);
    assert batch - todo + {r} == batch - (todo - {r});
    SubsetSize(batch - (todo - {r}), batch);
    OneDestinationStep(s, AfterMarkInsert(s, r), d);
  }

  lemma MarkRemoveKeepsHandlerInv(s: State)
    requires HandlerInv(s) && s.phase.Marking? && s.phase.half.Inserted?
    ensures HandlerInv(AfterMarkRemove(s))
  {
    assert DestinationInv(s, s.phase.dest);
    OneDestinationStep(s, AfterMarkRemove(s), s.phase.dest);
  }

  lemma LaunchKeepsHandlerInv(s: State)
    requires HandlerInv(s) && s.phase.Marking? && s.phase.todo == {} && s.phase.half.Settled?
    ensures HandlerInv(AfterLaunch(s))
  {
    var d := s.phase.dest;
    assert DestinationInv(s, d);
    assert At(s.active, d) == s.phase.batch;
    OneDestinationStep(s, AfterLaunch(s), d);
  }

  /** The invariant asks nothing of the queue but that its requests belong there. */
  lemma OtherQueue(s: State, t: State, d: Destination)
    requires DestinationInv(s, d) && forall r :: r in At(t.queued, d) ==> r.dest == d
    requires t.active == s.active && t.status == s.status && t.inFlight == s.inFlight && t.phase == s.phase
    ensures DestinationInv(t, d)
  {
    assert Held(t, d) <==> Held(s, d);
  }

  lemma EnqueueKeepsHandlerInv(s: State, reqs: seq<Request>)
    requires HandlerInv(s)
    ensures HandlerInv(AfterEnqueue(s, reqs))
  {
    var t := AfterEnqueue(s, reqs);
    forall d ensures DestinationInv(t, d) {
      assert DestinationInv(s, d);
      PutAllAt(s.queued, Elements(reqs), d);
      OtherQueue(s, t, d);
    }
  }

  lemma QuietStepKeepsHandlerInv(s: State, t: State)
    requires HandlerInv(s)
    requires t.queued == s.queued && t.active == s.active && t.status == s.status
    requires t.inFlight == s.inFlight && t.phase == s.phase
    ensures HandlerInv(t)
  {
    forall d ensures DestinationInv(t, d) {
      assert DestinationInv(s, d);
      assert Held(t, d) <==> Held(s, d);
    }
  }

  lemma CrashKeepsHandlerInv(s: State)
    requires HandlerInv(s)
    ensures HandlerInv(AfterCrash(s))
  {
    forall d ensures DestinationInv(AfterCrash(s), d) {
      assert DestinationInv(s, d);
    }
  }

  lemma StepKeepsHandlerInv(s: State, a: Action)
    requires HandlerInv(s) && Enabled(s, a)
    ensures HandlerInv(Step(s, a))
  {
    match a
    case Enqueue(reqs) => EnqueueKeepsHandlerInv(s, reqs);
    case Post(_) => QuietStepKeepsHandlerInv(s, Step(s, a));
    case Start(scan) => StartKeepsHandlerInv(s, scan);
    case Receive => ReceiveKeepsHandlerInv(s);
    case RespondErr(d, i) => ErrorKeepsHandlerInv(s, d, i);
    case RespondOk(d, i) => OkKeepsHandlerInv(s, d, i);
    case ClearOne(r) => ClearOneKeepsHandlerInv(s, r);
    case Scan(picked) => ScanKeepsHandlerInv(s, picked);
    case Forget => ForgetKeepsHandlerInv(s);
    case MarkInsert(r) => MarkInsertKeepsHandlerInv(s, r);
    case MarkRemove => MarkRemoveKeepsHandlerInv(s);
    case Launch => LaunchKeepsHandlerInv(s);
    case Tick(_) => QuietStepKeepsHandlerInv(s, Step(s, a));
    case Crash => CrashKeepsHandlerInv(s);
  }
}
