/** Sequences of steps of the outgoing sender. */
module SendingRuns {
  import opened SendingProtocol
  import opened SendingSafety
  import opened Chains

  ghost predicate Next(s: State, a: Action, t: State) {
    Enabled(s, a) && t == Step(s, a)
  }

  /** `t` is reached from `s` by the given steps. */
  ghost predicate Follows(s: State, actions: seq<Action>, t: State) {
    Leads(Next, s, actions, t)
  }

  lemma OneStep(s: State, a: Action)
    requires Enabled(s, a)
    ensures Follows(s, [a], Step(s, a))
  {
    OneLeads(Next, s, a, Step(s, a));
  }

  lemma FollowsJoin(s: State, a1: seq<Action>, t: State, a2: seq<Action>, u: State)
    requires Follows(s, a1, t) && Follows(t, a2, u)
    ensures Follows(s, a1 + a2, u)
  {
    LeadsJoin(Next, s, a1, t, a2, u);
  }

  lemma FollowsThen(s: State, actions: seq<Action>, t: State, a: Action)
    requires Follows(s, actions, t) && Enabled(t, a)
    ensures Follows(s, actions + [a], Step(t, a))
  {
    OneStep(t, a);
    FollowsJoin(s, actions, t, [a], Step(t, a));
  }

  lemma {:induction false} FollowsKeepsInv(s: State, actions: seq<Action>, t: State)
    requires HandlerInv(s) && Follows(s, actions, t)
    ensures HandlerInv(t)
    decreases |actions|
  {
    if actions != [] {
      var m :| Next(s, actions[0], m) && Leads(Next, m, actions[1..], t);
      StepKeepsHandlerInv(s, actions[0]);
      FollowsKeepsInv(m, actions[1..], t);
    }
  }

  /** Steps taken one after the other from an initial state make up a run. */
  lemma FollowsIsRun(s: State, actions: seq<Action>, t: State) returns (trace: seq<State>)
    requires Follows(s, actions, t)
    ensures |trace| == |actions| + 1 && trace[0] == s && trace[|actions|] == t
    ensures forall k :: 0 <= k < |actions| ==> Enabled(trace[k], actions[k]) && trace[k + 1] == Step(trace[k], actions[k])
    ensures Init(s) ==> IsRun(trace, actions)
  {
    trace := LeadsHasTrace(Next, s, actions, t);
    forall k | 0 <= k < |actions|
      ensures Enabled(trace[k], actions[k]) && trace[k + 1] == Step(trace[k], actions[k])
    {
      assert Next(trace[k], actions[k], trace[k + 1]);
    }
  }
}
