/** The state part of one room's response to a sync, without lazy loading, and what
    a client holds that folds it. */
module SyncResponse {
  import opened Collections

  type StateKey = nat
  type EventId = nat

  /** A state hash stands for exactly one set of state events. */
  type RoomState = map<StateKey, EventId>

  /** The syncing user: their membership key, and the events that make them join. */
  datatype User = User(memberKey: StateKey, joins: set<EventId>)

  predicate Joined(u: User, s: RoomState) {
    u.memberKey in s && s[u.memberKey] in u.joins
  }

  // ---------------------------------------------------------------------
  // The state part of one response
  // ---------------------------------------------------------------------

  /** Events of the current state that the saved state does not have. */
  function Delta(saved: RoomState, current: RoomState, fullState: bool): RoomState {
    map k | k in current && (fullState || k !in saved || saved[k] != current[k]) :: current[k]
  }

  /** Member events of timeline senders that were not sent to this device before. */
  function Members(current: RoomState, senders: set<StateKey>): RoomState {
    map k | k in current && k in senders :: current[k]
  }

  /** `load_joined_room`. */
  function Response(u: User, saved: Option<RoomState>, current: RoomState, timelineEmpty: bool,
                    senders: set<StateKey>, fullState: bool): RoomState {
    if timelineEmpty && saved == Some(current) then map[]
    else if saved.None? || !Joined(u, saved.value) then current
    else if saved.value != current then Delta(saved.value, current, fullState) + Members(current, senders)
    else Members(current, senders)
  }

  /** The loop over the current state. */
  method ComputeDelta(saved: RoomState, current: RoomState, fullState: bool) returns (delta: RoomState)
    ensures delta == Delta(saved, current, fullState)
  {
    delta := map[];
    var rest := current.Keys;
    while rest != {}
      invariant rest <= current.Keys
      invariant delta == Delta(saved, map k | k in current && k !in rest :: current[k], fullState)
      decreases rest
    {
      var key :| key in rest;
      rest := rest - {key};
      if fullState || key !in saved || saved[key] != current[key] {
        delta := delta[key := current[key]];
      }
    }
    assert (map k | k in current && k !in rest :: current[k]) == current;
  }

  /** Everything a response carries is current. */
  lemma ResponseIsCurrent(u: User, saved: Option<RoomState>, current: RoomState, timelineEmpty: bool,
                          senders: set<StateKey>, fullState: bool, k: StateKey)
    requires k in Response(u, saved, current, timelineEmpty, senders, fullState)
    ensures k in current && Response(u, saved, current, timelineEmpty, senders, fullState)[k] == current[k]
  {
  }

  /** An event is new to a client that holds the saved state. */
  predicate IsNew(saved: RoomState, current: RoomState, k: StateKey)
    requires k in current
  {
    k !in saved || saved[k] != current[k]
  }

  /** What a response carries, in each case. Nothing, if nothing happened. All of
      the current state, if there is no saved one or the user had not joined in it.
      Otherwise the member events of those that wrote and, if the state changed,
      what is new in it, or all of it when that is asked for: an unchanged event is
      left out. */
  lemma ResponseExactly(u: User, saved: Option<RoomState>, current: RoomState, timelineEmpty: bool,
                        senders: set<StateKey>, fullState: bool, k: StateKey)
    ensures k in Response(u, saved, current, timelineEmpty, senders, fullState) <==>
              && k in current && !(timelineEmpty && saved == Some(current))
              && (|| saved.None? || !Joined(u, saved.value)
                  || k in senders
                  || (saved.value != current && (fullState || IsNew(saved.value, current, k))))
  {
  }

  /** A client that held the saved state has the current state after folding the
      response exactly when no state key has vanished. */
  lemma FoldIsExact(u: User, saved: RoomState, current: RoomState, timelineEmpty: bool, senders: set<StateKey>, fullState: bool)
    ensures saved + Response(u, Some(saved), current, timelineEmpty, senders, fullState) == current
        <==> saved.Keys <= current.Keys
  {
    var response := Response(u, Some(saved), current, timelineEmpty, senders, fullState);
    forall k | k in current
      ensures k in saved + response && (saved + response)[k] == current[k]
    {
      if k in response {
        ResponseIsCurrent(u, Some(saved), current, timelineEmpty, senders, fullState, k);
      }
    }
    forall k | k in saved + response
      ensures k in saved || k in current
    {
      if k in response {
        ResponseIsCurrent(u, Some(saved), current, timelineEmpty, senders, fullState, k);
      }
    }
    if saved.Keys <= current.Keys {
      assert (saved + response).Keys == current.Keys;
    } else {
      var k :| k in saved && k !in current;
      assert k in saved + response;
    }
  }

  /** Asking for the full state gives it exactly when the state changed, there is
      none, or there are new messages and the response carries all of it anyway:
      as an initial sync, or as the members that wrote. */
  lemma FullStateExactly(u: User, saved: Option<RoomState>, current: RoomState, timelineEmpty: bool, senders: set<StateKey>)
    ensures Response(u, saved, current, timelineEmpty, senders, true) == current
        <==> || saved != Some(current)
             || current == map[]
             || (!timelineEmpty && (!Joined(u, current) || current.Keys <= senders))
  {
    assert Members(current, senders) == current <==> current.Keys <= senders;
    if saved.Some? && saved.value != current {
      assert Delta(saved.value, current, true) == current;
      assert current + Members(current, senders) == current;
    }
  }

  // ---------------------------------------------------------------------
  // Clients that do not hold exactly the saved state
  // ---------------------------------------------------------------------

  predicate Within(saved: RoomState, state: RoomState) {
    forall k | k in saved :: k in state && state[k] == saved[k]
  }

  /** What is saved under a client's token does for what the client holds. */
  predicate Suffices(u: User, saved: RoomState, state: RoomState, current: RoomState) {
    Within(saved, state) || (!Joined(u, saved) && saved.Keys != current.Keys)
  }

  /** Whatever the room's state is by then, the next response brings the client
      up to date. */
  ghost predicate NextExact(u: User, saved: Option<RoomState>, state: RoomState, current: RoomState) {
    forall next: RoomState, timelineEmpty: bool, senders: set<StateKey>, fullState: bool | current.Keys <= next.Keys ::
      state + Response(u, saved, next, timelineEmpty, senders, fullState) == next
  }

  lemma SufficientFolds(u: User, saved: RoomState, state: RoomState, current: RoomState, next: RoomState,
                        timelineEmpty: bool, senders: set<StateKey>, fullState: bool)
    requires saved.Keys <= current.Keys <= next.Keys && state.Keys <= next.Keys
    requires Suffices(u, saved, state, current)
    ensures state + Response(u, Some(saved), next, timelineEmpty, senders, fullState) == next
  {
    var response := Response(u, Some(saved), next, timelineEmpty, senders, fullState);
    forall k | k in next
      ensures k in state + response && (state + response)[k] == next[k]
    {
      if k in response {
        ResponseIsCurrent(u, Some(saved), next, timelineEmpty, senders, fullState, k);
      }
    }
    forall k | k in response
      ensures k in next
    {
      ResponseIsCurrent(u, Some(saved), next, timelineEmpty, senders, fullState, k);
    }
    assert (state + response).Keys == next.Keys;
  }

  /** A state in which the response misses what the client misses. */
  lemma InsufficientMisses(u: User, saved: RoomState, state: RoomState, current: RoomState)
    requires saved.Keys <= current.Keys && !Suffices(u, saved, state, current)
    ensures !NextExact(u, Some(saved), state, current)
  {
    var k :| k in saved && !(k in state && state[k] == saved[k]);
    var next := if Joined(u, saved) then current + saved else saved;
    var response := Response(u, Some(saved), next, true, {}, false);
    assert next.Keys == current.Keys && next[k] == saved[k];
    assert k !in response;
    assert state + response != next;
  }

  /** The next response is right in every case exactly when the saved state
      suffices. */
  lemma SufficesExactly(u: User, saved: RoomState, state: RoomState, current: RoomState)
    requires saved.Keys <= current.Keys && state.Keys <= current.Keys
    ensures NextExact(u, Some(saved), state, current) <==> Suffices(u, saved, state, current)
  {
    if Suffices(u, saved, state, current) {
      forall next: RoomState, timelineEmpty: bool, senders: set<StateKey>, fullState: bool | current.Keys <= next.Keys
        ensures state + Response(u, Some(saved), next, timelineEmpty, senders, fullState) == next
      {
        SufficientFolds(u, saved, state, current, next, timelineEmpty, senders, fullState);
      }
    } else {
      InsufficientMisses(u, saved, state, current);
    }
  }

  lemma NewClientIsExact(u: User, current: RoomState)
    ensures NextExact(u, None, map[], current)
  {
    forall next: RoomState, timelineEmpty: bool, senders: set<StateKey>, fullState: bool | current.Keys <= next.Keys
      ensures map[] + Response(u, None, next, timelineEmpty, senders, fullState) == next
    {
      assert map[] + next == next;
    }
  }
}
