/** What the sender's steps do, said over runs and without the steps' own
    definitions: when a destination is sent to, and how its failures are counted. */
module SendingLaws {
  import opened Collections
  import opened SendingKeys
  import opened SendingProtocol
  import opened SendingSafety
  import opened SendingTheorems

  /** A failed destination has rested for 30 seconds times the square of its
      failures, a day at most. */
  predicate Due(st: Status, now: nat) {
    && st.Failed?
    && var secs := if 30 * st.tries * st.tries < 86400 then 30 * st.tries * st.tries else 86400;
       now - st.at >= 1_000_000_000 * secs
  }

  /** A message makes the handler send to its destination. */
  predicate Sends(s: State, r: Request) {
    r.dest !in s.status || Due(s.status[r.dest], s.now)
  }

  lemma DueIsBackoff(tries: nat, at: nat, now: nat)
    ensures Due(Failed(tries, at), now) <==> now - at >= Backoff(tries)
  {
  }

  lemma ReceiveStep(s: State, r: Request)
    requires HandlerInv(s) && s.phase.Idle? && s.channel != [] && s.channel[0] == r
    ensures var t := AfterReceive(s);
            if r.dest !in s.status then
              t == s.(channel := s.channel[1..], status := s.status[r.dest := Running], phase := Marking(r.dest, {r}, {r}, Settled))
            else if Due(s.status[r.dest], s.now) then
              t == s.(channel := s.channel[1..], status := s.status[r.dest := Retrying(s.status[r.dest].tries)],
                      inFlight := s.inFlight[r.dest := [At(s.active, r.dest)]])
            else
              t == s.(channel := s.channel[1..])
  {
    assert DestinationInv(s, r.dest);
    if r.dest in s.status && s.status[r.dest].Failed? {
      DueIsBackoff(s.status[r.dest].tries, s.status[r.dest].at, s.now);
      assert [] + [At(s.active, r.dest)] == [At(s.active, r.dest)];
    }
  }

  /** In every run: a message starts the destination if it has no status, retries
      what is active if its failure has rested, and otherwise changes nothing. */
  lemma ReceiveExactly(trace: seq<State>, actions: seq<Action>, k: nat)
    requires IsRun(trace, actions) && k < |actions| && actions[k].Receive?
    ensures var s, t := trace[k], trace[k + 1];
            && s.channel != [] && t.channel == s.channel[1..] && t.queued == s.queued && t.active == s.active
            && var r := s.channel[0];
               && (t == s.(channel := s.channel[1..]) <==> !Sends(s, r))
               && (Sends(s, r) && r.dest !in s.status ==>
                     t.status == s.status[r.dest := Running] && t.phase == Marking(r.dest, {r}, {r}, Settled))
               && (Sends(s, r) && r.dest in s.status ==>
                     && t.status == s.status[r.dest := Retrying(s.status[r.dest].tries)]
                     && Flights(t, r.dest) == [At(s.active, r.dest)])
  {
    StepOfRun(trace, actions, k);
    ReceiveStep(trace[k], trace[k].channel[0]);
  }

  /** How often the destination has failed since it was last without a status. */
  ghost function Failures(trace: seq<State>, actions: seq<Action>, k: nat, d: Destination): nat
    requires |trace| == |actions| + 1 && k < |trace|
  {
    if k == 0 || d !in trace[k].status then 0
    else Failures(trace, actions, k - 1, d) + if FailsAt(actions, k - 1, d) then 1 else 0
  }

  predicate Counts(st: Status, n: nat) {
    match st
    case Running => n == 0
    case Failed(tries, _) => tries == n && n > 0
    case Retrying(tries) => tries == n && n > 0
  }

  /** One step of a destination that has a status afterwards. */
  ghost predicate CountsOn(s: State, a: Action, t: State, d: Destination) {
    var failed := if a.RespondErr? && a.dest == d then 1 else 0;
    d in t.status &&
    if d in s.status then forall n: nat | Counts(s.status[d], n) :: Counts(t.status[d], n + failed)
    else failed == 0 && t.status[d].Running?
  }

  lemma CountReceive(s: State, d: Destination)
    requires s.channel != [] && d in AfterReceive(s).status
    ensures CountsOn(s, Receive, AfterReceive(s), d)
  {
  }

  lemma CountError(s: State, e: Destination, i: nat, d: Destination)
    requires HandlerInv(s) && s.phase.Idle? && i < |Flights(s, e)| && d in AfterError(s, e, i).status
    ensures CountsOn(s, RespondErr(e, i), AfterError(s, e, i), d)
  {
    assert DestinationInv(s, e);
  }

  lemma CountStep(s: State, a: Action, d: Destination)
    requires HandlerInv(s) && Enabled(s, a) && d in Step(s, a).status
    ensures CountsOn(s, a, Step(s, a), d)
  {
    match a
    case Receive => CountReceive(s, d);
    case RespondErr(e, i) => CountError(s, e, i, d);
    case Start(_) => assert DestinationInv(s, d);
    case Forget =>
    case Crash =>
    case _ => StatusStays(s, a);
  }

  ghost predicate AllCount(trace: seq<State>, actions: seq<Action>, d: Destination) {
    && |trace| == |actions| + 1 && d !in trace[0].status
    && forall i | 0 <= i < |actions| && d in trace[i + 1].status :: CountsOn(trace[i], actions[i], trace[i + 1], d)
  }

  lemma RunsCount(trace: seq<State>, actions: seq<Action>, d: Destination)
    requires IsRun(trace, actions)
    ensures AllCount(trace, actions, d)
  {
    forall i | 0 <= i < |actions| && d in trace[i + 1].status ensures CountsOn(trace[i], actions[i], trace[i + 1], d) {
      StepOfRun(trace, actions, i);
      CountStep(trace[i], actions[i], d);
    }
  }

  lemma {:induction false} CountedSoFar(trace: seq<State>, actions: seq<Action>, k: nat, d: Destination)
    requires AllCount(trace, actions, d) && k < |trace| && d in trace[k].status
    ensures Counts(trace[k].status[d], Failures(trace, actions, k, d))
  {
    assert CountsOn(trace[k - 1], actions[k - 1], trace[k], d);
    if d in trace[k - 1].status {
      CountedSoFar(trace, actions, k - 1, d);
    }
  }

  /** In every run the count in a status is the number of failures since the
      destination was taken up. */
  lemma FailuresAreCounted(trace: seq<State>, actions: seq<Action>, k: nat, d: Destination)
    requires IsRun(trace, actions) && k < |trace| && d in trace[k].status
    ensures Counts(trace[k].status[d], Failures(trace, actions, k, d))
  {
    RunsCount(trace, actions, d);
    CountedSoFar(trace, actions, k, d);
  }

  predicate TimesOn(s: State, a: Action, t: State, d: Destination) {
    && d in t.status && t.status[d].Failed?
    && if a.RespondErr? && a.dest == d then t.status[d].at == s.now else d in s.status && s.status[d] == t.status[d]
  }

  lemma TimeOfError(s: State, e: Destination, i: nat, d: Destination)
    requires HandlerInv(s) && s.phase.Idle? && i < |Flights(s, e)|
    requires d in AfterError(s, e, i).status && AfterError(s, e, i).status[d].Failed?
    ensures TimesOn(s, RespondErr(e, i), AfterError(s, e, i), d)
  {
    assert DestinationInv(s, e);
  }

  lemma TimeOfReceive(s: State, d: Destination)
    requires s.channel != [] && d in AfterReceive(s).status && AfterReceive(s).status[d].Failed?
    ensures TimesOn(s, Receive, AfterReceive(s), d)
  {
  }

  lemma FailedStep(s: State, a: Action, d: Destination)
    requires HandlerInv(s) && Enabled(s, a) && d in Step(s, a).status && Step(s, a).status[d].Failed?
    ensures TimesOn(s, a, Step(s, a), d)
  {
    match a
    case Receive => TimeOfReceive(s, d);
    case RespondErr(e, i) => TimeOfError(s, e, i, d);
    case Start(_) =>
    case Forget =>
    case Crash =>
    case _ => StatusStays(s, a);
  }

  predicate Failing(s: State, d: Destination) {
    d in s.status && s.status[d].Failed?
  }

  ghost predicate AllTime(trace: seq<State>, actions: seq<Action>, d: Destination) {
    && |trace| == |actions| + 1 && !Failing(trace[0], d)
    && forall i | 0 <= i < |actions| && Failing(trace[i + 1], d) :: TimesOn(trace[i], actions[i], trace[i + 1], d)
  }

  lemma RunsTime(trace: seq<State>, actions: seq<Action>, d: Destination)
    requires IsRun(trace, actions)
    ensures AllTime(trace, actions, d)
  {
    forall i | 0 <= i < |actions| && Failing(trace[i + 1], d) ensures TimesOn(trace[i], actions[i], trace[i + 1], d) {
      StepOfRun(trace, actions, i);
      FailedStep(trace[i], actions[i], d);
    }
  }

  lemma {:induction false} TimedSoFar(trace: seq<State>, actions: seq<Action>, k: nat, d: Destination) returns (j: nat)
    requires AllTime(trace, actions, d) && k < |trace| && Failing(trace[k], d)
    ensures j < k && FailsAt(actions, j, d) && trace[k].status[d].at == trace[j].now
    ensures forall i | j < i < k :: !FailsAt(actions, i, d)
  {
    assert TimesOn(trace[k - 1], actions[k - 1], trace[k], d);
    if FailsAt(actions, k - 1, d) {
      j := k - 1;
    } else {
      j := TimedSoFar(trace, actions, k - 1, d);
    }
  }

  /** And its time is that of the last of them. */
  lemma FailureTimeIsTheLast(trace: seq<State>, actions: seq<Action>, k: nat, d: Destination) returns (j: nat)
    requires IsRun(trace, actions) && k < |trace| && d in trace[k].status && trace[k].status[d].Failed?
    ensures j < k && FailsAt(actions, j, d) && trace[k].status[d].at == trace[j].now
    ensures forall i | j < i < k :: !FailsAt(actions, i, d)
  {
    RunsTime(trace, actions, d);
    j := TimedSoFar(trace, actions, k, d);
  }
}
