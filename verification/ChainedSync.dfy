/** Chained incremental syncs of one room: what clients hold that feed each
    `next_batch` into the next `since` and fold the state deltas. A sync takes its
    token, later reads the room's state and answers, and later still saves that
    state under the token; tokens are shared by all devices, and responses can get
    lost. */
module ChainedSync {
  import opened Collections
  import opened SyncResponse

  type Device = nat
  type Token = nat

  /** Whose device it is. */
  type Users = Device -> User

  // ---------------------------------------------------------------------
  // Runs
  // ---------------------------------------------------------------------

  /** A sync in the handler: its token is taken, or its answer is ready. */
  datatype Sync =
    | Began(token: Token)
    | Answered(token: Token, read: RoomState, response: RoomState)

  datatype Client = Client(since: Token, state: RoomState, sync: Option<Sync>)

  datatype State = State(count: Token, current: RoomState, saved: map<Token, RoomState>, clients: map<Device, Client>)

  /** `End` saves and answers; `Lose` saves, but the client never gets the answer;
      `Drop` gives the sync up before it saves. */
  datatype Action =
    | Change(next: RoomState)
    | Tick
    | Restart(d: Device)
    | Begin(d: Device)
    | Read(d: Device, timelineEmpty: bool, senders: set<StateKey>, fullState: bool)
    | End(d: Device)
    | Lose(d: Device)
    | Drop(d: Device)

  /** A restarted client syncs without `since`, which the server reads as 0. */
  const NEW_CLIENT := Client(0, map[], None)

  function ClientOf(s: State, d: Device): Client {
    if d in s.clients then s.clients[d] else NEW_CLIENT
  }

  function SavedAt(s: State, t: Token): Option<RoomState> {
    if t in s.saved then Some(s.saved[t]) else None
  }

  predicate Ready(s: State, d: Device) {
    d in s.clients && s.clients[d].sync.Some? && s.clients[d].sync.value.Answered?
  }

  predicate Enabled(s: State, a: Action) {
    match a
    case Change(next) => s.current.Keys <= next.Keys
    case Tick => true
    case Restart(d) => ClientOf(s, d).sync.None?
    case Begin(d) => ClientOf(s, d).sync.None?
    case Read(d, _, _, _) => d in s.clients && s.clients[d].sync.Some? && s.clients[d].sync.value.Began?
    case End(d) => Ready(s, d)
    case Lose(d) => Ready(s, d)
    case Drop(d) => d in s.clients && s.clients[d].sync.Some?
  }

  function SetClient(s: State, d: Device, c: Client): State {
    s.(clients := s.clients[d := c])
  }

  function AfterRead(s: State, users: Users, a: Action): State
    requires a.Read? && Enabled(s, a)
  {
    var c := s.clients[a.d];
    var response := Response(users(a.d), SavedAt(s, c.since), s.current, a.timelineEmpty, a.senders, a.fullState);
    SetClient(s, a.d, c.(sync := Some(Answered(c.sync.value.token, s.current, response))))
  }

  function AfterEnd(s: State, d: Device): State
    requires Ready(s, d)
  {
    var c := s.clients[d];
    var sync := c.sync.value;
    SetClient(s, d, Client(sync.token, c.state + sync.response, None)).(saved := s.saved[sync.token := sync.read])
  }

  function AfterLose(s: State, d: Device): State
    requires Ready(s, d)
  {
    var sync := s.clients[d].sync.value;
    SetClient(s, d, s.clients[d].(sync := None)).(saved := s.saved[sync.token := sync.read])
  }

  function Step(s: State, users: Users, a: Action): State
    requires Enabled(s, a)
  {
    match a
    case Change(next) => s.(count := s.count + 1, current := next)
    case Tick => s.(count := s.count + 1)
    case Restart(d) => SetClient(s, d, NEW_CLIENT)
    case Begin(d) => SetClient(s, d, ClientOf(s, d).(sync := Some(Began(s.count))))
    case Read(_, _, _, _) => AfterRead(s, users, a)
    case End(d) => AfterEnd(s, d)
    case Lose(d) => AfterLose(s, d)
    case Drop(d) => SetClient(s, d, s.clients[d].(sync := None))
  }

  /** A run starts with a room whose creation has already counted. */
  ghost predicate IsRun(states: seq<State>, users: Users, actions: seq<Action>) {
    && |states| == |actions| + 1
    && states[0].count > 0 && states[0].saved == map[] && states[0].clients == map[]
    && forall i :: 0 <= i < |actions| ==>
         Enabled(states[i], actions[i]) && states[i + 1] == Step(states[i], users, actions[i])
  }

  predicate Saves(a: Action) {
    a.End? || a.Lose?
  }

  /** The save leaves a device behind that has this token and for which the saved
      state does not do. The device itself counts only if its answer is lost. */
  predicate Clashes(s: State, users: Users, a: Action) {
    Saves(a) && Ready(s, a.d) &&
    var sync := s.clients[a.d].sync.value;
    exists e :: e in s.clients && (e != a.d || a.Lose?) && s.clients[e].since == sync.token
                && !Suffices(users(e), sync.read, s.clients[e].state, s.current)
  }

  ghost predicate ClashFree(states: seq<State>, users: Users, actions: seq<Action>)
    requires |states| == |actions| + 1
  {
    forall i :: 0 <= i < |actions| ==> !Clashes(states[i], users, actions[i])
  }

  // ---------------------------------------------------------------------
  // Invariant
  // ---------------------------------------------------------------------

  predicate ClientInv(s: State, u: User, c: Client) {
    && (if c.since == 0 then c.state == map[]
        else c.since in s.saved && Suffices(u, s.saved[c.since], c.state, s.current))
    && c.state.Keys <= s.current.Keys
    && (c.sync.Some? ==>
          && 0 < c.sync.value.token
          && (c.sync.value.Answered? ==>
                c.sync.value.read.Keys <= s.current.Keys && c.state + c.sync.value.response == c.sync.value.read))
  }

  ghost predicate Inv(s: State, users: Users) {
    && s.count > 0 && 0 !in s.saved
    && (forall t | t in s.saved :: s.saved[t].Keys <= s.current.Keys)
    && (forall d | d in s.clients :: ClientInv(s, users(d), s.clients[d]))
  }

  lemma ReadKeepsInv(s: State, users: Users, a: Action)
    requires Inv(s, users) && a.Read? && Enabled(s, a)
    ensures Inv(AfterRead(s, users, a), users)
  {
    var c := s.clients[a.d];
    assert ClientInv(s, users(a.d), c);
    if c.since == 0 {
      assert map[] + s.current == s.current;
    } else {
      SufficientFolds(users(a.d), s.saved[c.since], c.state, s.current, s.current, a.timelineEmpty, a.senders, a.fullState);
    }
  }

  lemma SaveKeepsInv(s: State, users: Users, a: Action)
    requires Inv(s, users) && Saves(a) && Enabled(s, a) && !Clashes(s, users, a)
    ensures Inv(Step(s, users, a), users)
  {
    var after := Step(s, users, a);
    assert ClientInv(s, users(a.d), s.clients[a.d]);
    forall e | e in after.clients
      ensures ClientInv(after, users(e), after.clients[e])
    {
      assert ClientInv(s, users(e), s.clients[e]);
    }
  }

  lemma OtherStepsKeepInv(s: State, users: Users, a: Action)
    requires Inv(s, users) && !Saves(a) && !a.Read? && Enabled(s, a)
    ensures Inv(Step(s, users, a), users)
  {
    var after := Step(s, users, a);
    forall e | e in after.clients
      ensures ClientInv(after, users(e), after.clients[e])
    {
      if e in s.clients {
        assert ClientInv(s, users(e), s.clients[e]);
      }
    }
  }

  lemma {:induction false} RunInvariant(states: seq<State>, users: Users, actions: seq<Action>, i: nat)
    requires IsRun(states, users, actions) && ClashFree(states, users, actions) && i < |states|
    ensures Inv(states[i], users)
  {
    if i > 0 {
      RunInvariant(states, users, actions, i - 1);
      var s, a := states[i - 1], actions[i - 1];
      assert Enabled(s, a) && states[i] == Step(s, users, a) && !Clashes(s, users, a);
      if Saves(a) {
        SaveKeepsInv(s, users, a);
      } else if a.Read? {
        ReadKeepsInv(s, users, a);
      } else {
        OtherStepsKeepInv(s, users, a);
      }
    }
  }

  /** The answer of a sync was computed from the state the room had at an earlier
      step, and nothing else happened to that device since. */
  lemma {:induction false} AnswerWasRead(states: seq<State>, users: Users, actions: seq<Action>, i: nat, d: Device) returns (j: nat)
    requires IsRun(states, users, actions) && i < |states| && Ready(states[i], d)
    ensures j < i && actions[j].Read? && actions[j].d == d
    ensures states[j].current == states[i].clients[d].sync.value.read
    ensures forall m | j < m <= i :: d in states[m].clients && states[m].clients[d] == states[i].clients[d]
  {
    assert i > 0;
    var s, a := states[i - 1], actions[i - 1];
    assert Enabled(s, a) && states[i] == Step(s, users, a);
    if a.Read? && a.d == d {
      j := i - 1;
    } else {
      j := AnswerWasRead(states, users, actions, i - 1, d);
    }
  }

  /** After every response of a run without clashes the client holds the state
      that its sync read, whatever happened before and after the reading. */
  lemma ClientsHoldTheStateRead(states: seq<State>, users: Users, actions: seq<Action>, i: nat) returns (j: nat)
    requires IsRun(states, users, actions) && ClashFree(states, users, actions)
    requires i < |actions| && actions[i].End?
    ensures var d := actions[i].d;
            && j < i && actions[j].Read? && actions[j].d == d
            && (forall m | j < m < i :: actions[m].Change? || actions[m].Tick? || actions[m].d != d)
            && d in states[i + 1].clients && states[i + 1].clients[d].state == states[j].current
  {
    var d := actions[i].d;
    RunInvariant(states, users, actions, i);
    assert Enabled(states[i], actions[i]) && states[i + 1] == Step(states[i], users, actions[i]);
    j := AnswerWasRead(states, users, actions, i, d);
    assert ClientInv(states[i], users(d), states[i].clients[d]);
    forall m | j < m < i
      ensures actions[m].Change? || actions[m].Tick? || actions[m].d != d
    {
      assert Enabled(states[m], actions[m]) && states[m + 1] == Step(states[m], users, actions[m]);
    }
  }

  // ---------------------------------------------------------------------
  // Clashes, exactly
  // ---------------------------------------------------------------------

  lemma ClientExactly(s: State, users: Users, e: Device)
    requires 0 !in s.saved && e in s.clients && s.clients[e].state.Keys <= s.current.Keys
    requires forall t | t in s.saved :: s.saved[t].Keys <= s.current.Keys
    requires if s.clients[e].since == 0 then s.clients[e].state == map[] else s.clients[e].since in s.saved
    ensures var c := s.clients[e];
            NextExact(users(e), SavedAt(s, c.since), c.state, s.current) <==>
              c.since == 0 || Suffices(users(e), s.saved[c.since], c.state, s.current)
  {
    var c := s.clients[e];
    if c.since == 0 {
      NewClientIsExact(users(e), s.current);
    } else {
      SufficesExactly(users(e), s.saved[c.since], c.state, s.current);
    }
  }

  /** A save leaves the next response of every device right, whatever the room's
      state is by then, if and only if it does not clash. */
  lemma SaveIsSafeExactly(s: State, users: Users, a: Action)
    requires Inv(s, users) && Saves(a) && Enabled(s, a)
    ensures var after := Step(s, users, a);
            (forall e | e in after.clients ::
               NextExact(users(e), SavedAt(after, after.clients[e].since), after.clients[e].state, after.current))
              <==> !Clashes(s, users, a)
  {
    var after := Step(s, users, a);
    var sync := s.clients[a.d].sync.value;
    assert ClientInv(s, users(a.d), s.clients[a.d]);
    forall e | e in after.clients
      ensures NextExact(users(e), SavedAt(after, after.clients[e].since), after.clients[e].state, after.current)
          <==> !((e != a.d || a.Lose?) && s.clients[e].since == sync.token
                 && !Suffices(users(e), sync.read, s.clients[e].state, s.current))
    {
      assert ClientInv(s, users(e), s.clients[e]);
      ClientExactly(after, users, e);
    }
  }

  // ---------------------------------------------------------------------
  // When there are no clashes
  // ---------------------------------------------------------------------

  /** With one device, all of whose answers arrive, there never is a clash. */
  lemma {:induction false} OneDeviceIsEnough(states: seq<State>, users: Users, actions: seq<Action>, d: Device)
    requires IsRun(states, users, actions)
    requires forall i | 0 <= i < |actions| :: !actions[i].Lose? && (!actions[i].Change? && !actions[i].Tick? ==> actions[i].d == d)
    ensures ClashFree(states, users, actions)
  {
    forall i | 0 <= i < |actions|
      ensures !Clashes(states[i], users, actions[i])
    {
      OnlyDevice(states, users, actions, d, i);
    }
  }

  lemma {:induction false} OnlyDevice(states: seq<State>, users: Users, actions: seq<Action>, d: Device, i: nat)
    requires IsRun(states, users, actions) && i < |states|
    requires forall j | 0 <= j < |actions| :: !actions[j].Change? && !actions[j].Tick? ==> actions[j].d == d
    ensures states[i].clients.Keys <= {d}
  {
    if i > 0 {
      OnlyDevice(states, users, actions, d, i - 1);
      assert Enabled(states[i - 1], actions[i - 1]) && states[i] == Step(states[i - 1], users, actions[i - 1]);
    }
  }

  /** No state change falls between the beginning and the end of any sync. */
  ghost predicate Quiet(states: seq<State>, actions: seq<Action>)
    requires |states| == |actions| + 1
  {
    forall i :: 0 <= i < |actions| && actions[i].Change? ==> NoneOpen(states[i])
  }

  predicate NoneOpen(s: State) {
    forall d | d in s.clients :: s.clients[d].sync.None?
  }

  /** Then what is saved under a token is a function of the token, and clients hold
      exactly that. */
  predicate QuietClient(s: State, c: Client) {
    && (c.since != 0 ==> c.since in s.saved && s.saved[c.since] == c.state)
    && (c.sync.Some? ==>
          && c.sync.value.token <= s.count
          && (c.sync.value.token in s.saved ==> s.saved[c.sync.value.token] == s.current)
          && (c.sync.value.Answered? ==> c.sync.value.read == s.current))
  }

  ghost predicate QuietInv(s: State) {
    && (forall t | t in s.saved :: t <= s.count)
    && (forall d | d in s.clients :: QuietClient(s, s.clients[d]))
    && (s.count in s.saved ==> s.saved[s.count] == s.current)
  }

  lemma QuietStep(s: State, users: Users, a: Action)
    requires Inv(s, users) && QuietInv(s) && Enabled(s, a) && (a.Change? ==> NoneOpen(s))
    ensures !Clashes(s, users, a) && QuietInv(Step(s, users, a))
  {
    var after := Step(s, users, a);
    if Saves(a) {
      assert QuietClient(s, s.clients[a.d]) && ClientInv(s, users(a.d), s.clients[a.d]);
    }
    forall e | e in after.clients
      ensures QuietClient(after, after.clients[e])
    {
      if e in s.clients {
        assert QuietClient(s, s.clients[e]);
      }
    }
  }

  lemma {:induction false} QuietRunInvariant(states: seq<State>, users: Users, actions: seq<Action>, i: nat)
    requires IsRun(states, users, actions) && Quiet(states, actions) && i < |states|
    ensures Inv(states[i], users) && QuietInv(states[i])
    ensures forall j | 0 <= j < i :: !Clashes(states[j], users, actions[j])
  {
    if i > 0 {
      QuietRunInvariant(states, users, actions, i - 1);
      var s, a := states[i - 1], actions[i - 1];
      assert Enabled(s, a) && states[i] == Step(s, users, a);
      assert a.Change? ==> NoneOpen(s);
      QuietStep(s, users, a);
      if Saves(a) {
        SaveKeepsInv(s, users, a);
      } else if a.Read? {
        ReadKeepsInv(s, users, a);
      } else {
        OtherStepsKeepInv(s, users, a);
      }
    }
  }

  lemma QuietIsEnough(states: seq<State>, users: Users, actions: seq<Action>)
    requires IsRun(states, users, actions) && Quiet(states, actions)
    ensures ClashFree(states, users, actions)
  {
    QuietRunInvariant(states, users, actions, |actions|);
  }
}
