/** Sequences of steps of any machine. */
module Chains {
  /** `t` is reached from `s` by the given steps. */
  ghost predicate Leads<S(!new), A>(next: (S, A, S) -> bool, s: S, actions: seq<A>, t: S)
    decreases |actions|
  {
    if actions == [] then s == t
    else exists m :: next(s, actions[0], m) && Leads(next, m, actions[1..], t)
  }

  lemma {:induction false} LeadsJoin<S(!new), A>(next: (S, A, S) -> bool, s: S, a1: seq<A>, t: S, a2: seq<A>, u: S)
    requires Leads(next, s, a1, t) && Leads(next, t, a2, u)
    ensures Leads(next, s, a1 + a2, u)
    decreases |a1|
  {
    if a1 == [] {
      assert a1 + a2 == a2;
    } else {
      var m :| next(s, a1[0], m) && Leads(next, m, a1[1..], t);
      LeadsJoin(next, m, a1[1..], t, a2, u);
      assert (a1 + a2)[1..] == a1[1..] + a2 && (a1 + a2)[0] == a1[0];
    }
  }

  lemma OneLeads<S(!new), A>(next: (S, A, S) -> bool, s: S, a: A, t: S)
    requires next(s, a, t)
    ensures Leads(next, s, [a], t)
  {
    assert [a][1..] == [] && [a][0] == a;
    assert Leads(next, t, [a][1..], t);
  }

  /** The states on the way. */
  ghost predicate IsTrace<S, A>(next: (S, A, S) -> bool, trace: seq<S>, actions: seq<A>) {
    && |trace| == |actions| + 1
    && forall k :: 0 <= k < |actions| ==> next(trace[k], actions[k], trace[k + 1])
  }

  lemma TraceGrows<S, A>(next: (S, A, S) -> bool, s: S, rest: seq<S>, actions: seq<A>)
    requires actions != [] && IsTrace(next, rest, actions[1..]) && next(s, actions[0], rest[0])
    ensures IsTrace(next, [s] + rest, actions)
  {
    var trace := [s] + rest;
    forall k | 0 <= k < |actions| ensures next(trace[k], actions[k], trace[k + 1]) {
      if k > 0 {
        assert actions[1..][k - 1] == actions[k] && trace[k] == rest[k - 1] && trace[k + 1] == rest[k];
      }
    }
  }

  lemma {:induction false} LeadsHasTrace<S(!new), A>(next: (S, A, S) -> bool, s: S, actions: seq<A>, t: S) returns (trace: seq<S>)
    requires Leads(next, s, actions, t)
    ensures IsTrace(next, trace, actions) && trace[0] == s && trace[|actions|] == t
    decreases |actions|
  {
    if actions == [] {
      trace := [s];
    } else {
      var m :| next(s, actions[0], m) && Leads(next, m, actions[1..], t);
      var rest := LeadsHasTrace(next, m, actions[1..], t);
      TraceGrows(next, s, rest, actions);
      trace := [s] + rest;
    }
  }
}
