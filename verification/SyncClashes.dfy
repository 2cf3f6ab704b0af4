/** Runs of chained syncs that leave a client without a change for good. */
module SyncClashes {
  import opened Collections
  import opened SyncResponse
  import opened ChainedSync

  /** Every device is this user's. */
  function Only(u: User): Users {
    (d: Device) => u
  }

  function ReadBy(d: Device): Action {
    Read(d, false, {}, false)
  }

  /** A device that read nothing new: its saved state is the current one. */
  lemma NothingNew(s: State, users: Users, d: Device)
    requires Enabled(s, ReadBy(d)) && SavedAt(s, s.clients[d].since) == Some(s.current) && Joined(users(d), s.current)
    ensures AfterRead(s, users, ReadBy(d)) ==
              SetClient(s, d, s.clients[d].(sync := Some(Answered(s.clients[d].sync.value.token, s.current, map[]))))
  {
    assert Members(s.current, {}) == map[];
  }

  lemma FirstRead(s: State, users: Users, d: Device)
    requires d in s.clients && s.clients[d] == Client(0, map[], Some(Began(1))) && 0 !in s.saved
    ensures AfterRead(s, users, ReadBy(d)) == SetClient(s, d, Client(0, map[], Some(Answered(1, s.current, s.current))))
  {
  }

  /** One of the two states that are folded is empty, and the other is `result`. */
  predicate FoldsTo(state: RoomState, response: RoomState, result: RoomState) {
    (state == map[] && response == result) || (state == result && response == map[])
  }

  lemma EndOf(s: State, d: Device, result: RoomState)
    requires Ready(s, d) && FoldsTo(s.clients[d].state, s.clients[d].sync.value.response, result)
    ensures var sync := s.clients[d].sync.value;
            AfterEnd(s, d) == SetClient(s, d, Client(sync.token, result, None)).(saved := s.saved[sync.token := sync.read])
  {
    assert map[] + result == result && result + map[] == result;
  }

  /** Two devices take the same token; the state changes between their readings,
      and the second save makes the first device's next delta miss the change. */
  function ClashActions(next: RoomState): (r: seq<Action>)
    ensures |r| == 10
  {
    [Begin(0), Begin(1), ReadBy(0), End(0), Change(next), ReadBy(1), End(1), Begin(0), ReadBy(0), End(0)]
  }

  function ClashState(first: RoomState, next: RoomState, i: nat): State
    requires i < 11
  {
    var waiting, synced, other := Client(0, map[], Some(Began(1))), Client(1, first, None), Client(1, next, None);
    match i
    case 0 => State(1, first, map[], map[])
    case 1 => State(1, first, map[], map[0 := waiting])
    case 2 => State(1, first, map[], map[0 := waiting, 1 := waiting])
    case 3 => State(1, first, map[], map[0 := Client(0, map[], Some(Answered(1, first, first))), 1 := waiting])
    case 4 => State(1, first, map[1 := first], map[0 := synced, 1 := waiting])
    case 5 => State(2, next, map[1 := first], map[0 := synced, 1 := waiting])
    case 6 => State(2, next, map[1 := first], map[0 := synced, 1 := Client(0, map[], Some(Answered(1, next, next)))])
    case 7 => State(2, next, map[1 := next], map[0 := synced, 1 := other])
    case 8 => State(2, next, map[1 := next], map[0 := synced.(sync := Some(Began(2))), 1 := other])
    case 9 => State(2, next, map[1 := next], map[0 := synced.(sync := Some(Answered(2, next, map[]))), 1 := other])
    case _ => State(2, next, map[1 := next, 2 := next], map[0 := Client(2, first, None), 1 := other])
  }

  ghost predicate ClashStepAt(u: User, first: RoomState, next: RoomState, i: nat)
    requires i < 10
  {
    && Enabled(ClashState(first, next, i), ClashActions(next)[i])
    && Step(ClashState(first, next, i), Only(u), ClashActions(next)[i]) == ClashState(first, next, i + 1)
  }

  lemma ClashBegins(u: User, first: RoomState, next: RoomState, i: nat)
    requires (i == 0 || i == 1 || i == 4 || i == 7) && first.Keys <= next.Keys
    ensures ClashStepAt(u, first, next, i)
  {
  }

  lemma ClashReads(u: User, first: RoomState, next: RoomState, i: nat)
    requires (i == 2 || i == 5 || i == 8) && Joined(u, next)
    ensures ClashStepAt(u, first, next, i)
  {
    if i == 2 {
      FirstRead(ClashState(first, next, 2), Only(u), 0);
    } else if i == 5 {
      FirstRead(ClashState(first, next, 5), Only(u), 1);
    } else {
      NothingNew(ClashState(first, next, 8), Only(u), 0);
    }
  }

  lemma ClashFirstEnds(u: User, first: RoomState, next: RoomState)
    ensures ClashStepAt(u, first, next, 3)
  {
    EndOf(ClashState(first, next, 3), 0, first);
  }

  lemma ClashSecondEnds(u: User, first: RoomState, next: RoomState)
    ensures ClashStepAt(u, first, next, 6)
  {
    EndOf(ClashState(first, next, 6), 1, next);
  }

  lemma ClashFirstEndsAgain(u: User, first: RoomState, next: RoomState)
    ensures ClashStepAt(u, first, next, 9)
  {
    EndOf(ClashState(first, next, 9), 0, first);
  }

  lemma ClashLosesAnEvent(u: User, first: RoomState, next: RoomState) returns (states: seq<State>)
    requires first.Keys <= next.Keys && first != next && Joined(u, next)
    ensures IsRun(states, Only(u), ClashActions(next))
    ensures var last := states[10]; last.current == next && 0 in last.clients && last.clients[0].state == first
  {
    forall i: nat | i < 10
      ensures ClashStepAt(u, first, next, i)
    {
      if i == 2 || i == 5 || i == 8 {
        ClashReads(u, first, next, i);
      } else if i == 3 {
        ClashFirstEnds(u, first, next);
      } else if i == 6 {
        ClashSecondEnds(u, first, next);
      } else if i == 9 {
        ClashFirstEndsAgain(u, first, next);
      } else {
        ClashBegins(u, first, next, i);
      }
    }
    states := seq(11, i requires 0 <= i < 11 => ClashState(first, next, i));
    forall i | 0 <= i < 10
      ensures Enabled(states[i], ClashActions(next)[i]) && states[i + 1] == Step(states[i], Only(u), ClashActions(next)[i])
    {
      assert ClashStepAt(u, first, next, i);
    }
  }

  /** One device alone: an answer that is lost after its state was saved under the
      token the device still has. */
  function LossActions(next: RoomState): (r: seq<Action>)
    ensures |r| == 10
  {
    [Begin(0), ReadBy(0), End(0), Begin(0), Change(next), ReadBy(0), Lose(0), Begin(0), ReadBy(0), End(0)]
  }

  function LossState(u: User, first: RoomState, next: RoomState, i: nat): State
    requires i < 11
  {
    var synced := Client(1, first, None);
    var response := Response(u, Some(first), next, false, {}, false);
    match i
    case 0 => State(1, first, map[], map[])
    case 1 => State(1, first, map[], map[0 := Client(0, map[], Some(Began(1)))])
    case 2 => State(1, first, map[], map[0 := Client(0, map[], Some(Answered(1, first, first)))])
    case 3 => State(1, first, map[1 := first], map[0 := synced])
    case 4 => State(1, first, map[1 := first], map[0 := synced.(sync := Some(Began(1)))])
    case 5 => State(2, next, map[1 := first], map[0 := synced.(sync := Some(Began(1)))])
    case 6 => State(2, next, map[1 := first], map[0 := synced.(sync := Some(Answered(1, next, response)))])
    case 7 => State(2, next, map[1 := next], map[0 := synced])
    case 8 => State(2, next, map[1 := next], map[0 := synced.(sync := Some(Began(2)))])
    case 9 => State(2, next, map[1 := next], map[0 := synced.(sync := Some(Answered(2, next, map[])))])
    case _ => State(2, next, map[1 := next, 2 := next], map[0 := Client(2, first, None)])
  }

  ghost predicate LossStepAt(u: User, first: RoomState, next: RoomState, i: nat)
    requires i < 10
  {
    && Enabled(LossState(u, first, next, i), LossActions(next)[i])
    && Step(LossState(u, first, next, i), Only(u), LossActions(next)[i]) == LossState(u, first, next, i + 1)
  }

  lemma LossReads(u: User, first: RoomState, next: RoomState, i: nat)
    requires (i == 1 || i == 2 || i == 8 || i == 9) && Joined(u, next)
    ensures LossStepAt(u, first, next, i)
  {
    if i == 1 {
      FirstRead(LossState(u, first, next, 1), Only(u), 0);
    } else if i == 8 {
      NothingNew(LossState(u, first, next, 8), Only(u), 0);
    } else {
      EndOf(LossState(u, first, next, i), 0, first);
    }
  }

  lemma LossOthers(u: User, first: RoomState, next: RoomState, i: nat)
    requires i == 0 || 3 <= i <= 7
    requires first.Keys <= next.Keys
    ensures LossStepAt(u, first, next, i)
  {
  }

  lemma LostAnswerLosesAnEvent(u: User, first: RoomState, next: RoomState) returns (states: seq<State>)
    requires first.Keys <= next.Keys && first != next && Joined(u, next)
    ensures IsRun(states, Only(u), LossActions(next))
    ensures var last := states[10]; last.current == next && 0 in last.clients && last.clients[0].state == first
  {
    forall i: nat | i < 10
      ensures LossStepAt(u, first, next, i)
    {
      if i == 0 || 3 <= i <= 7 {
        LossOthers(u, first, next, i);
      } else {
        LossReads(u, first, next, i);
      }
    }
    states := seq(11, i requires 0 <= i < 11 => LossState(u, first, next, i));
    forall i | 0 <= i < 10
      ensures Enabled(states[i], LossActions(next)[i]) && states[i + 1] == Step(states[i], Only(u), LossActions(next)[i])
    {
      assert LossStepAt(u, first, next, i);
    }
  }
}
