/** Transaction ids: concurrent `send_message_event_route` calls under per-room
    tokens, beside to-device requests that share the transaction table without
    taking any token. */
module SendIdempotence {
  import opened Collections

  import opened Bytes

  type RoomId = nat
  type TaskId = nat

  /** An event is named by its place in the log of appended events. */
  type EventId = nat

  // ---------------------------------------------------------------------
  // The transaction table
  // ---------------------------------------------------------------------

  /** A client's name for one transaction. */
  datatype Transaction = Transaction(user: Bytes, device: Option<Bytes>, txnId: Bytes)

  function DeviceBytes(device: Option<Bytes>): Bytes {
    if device.Some? then device.value else []
  }

  function Key(txn: Transaction): Bytes {
    Field(txn.user) + Field(DeviceBytes(txn.device)) + txn.txnId
  }

  predicate Textual(txn: Transaction) {
    Text(txn.user) && Text(DeviceBytes(txn.device))
  }

  predicate Same(a: Transaction, b: Transaction) {
    a.user == b.user && DeviceBytes(a.device) == DeviceBytes(b.device) && a.txnId == b.txnId
  }

  /** Keys are injective, except that a missing device is stored as an empty one;
      the transaction id itself may contain any byte. */
  lemma KeyIsInjective(a: Transaction, b: Transaction)
    requires Textual(a) && Textual(b)
    ensures Key(a) == Key(b) <==> Same(a, b)
  {
    if Key(a) == Key(b) {
      var x := Field(DeviceBytes(a.device)) + a.txnId;
      var y := Field(DeviceBytes(b.device)) + b.txnId;
      assert Key(a) == Field(a.user) + x && Key(b) == Field(b.user) + y;
      FieldSplitsUniquely(a.user, x, b.user, y);
      FieldSplitsUniquely(DeviceBytes(a.device), a.txnId, DeviceBytes(b.device), b.txnId);
    }
  }

  /** The stored value: empty for to-device requests, else an event id. */
  datatype Response = NoEvent | Event(event: EventId)

  class TransactionIds {
    var responses: map<Bytes, Response>

    constructor ()
      ensures responses == map[]
    {
      responses := map[];
    }

    method KeyOf(txn: Transaction) returns (key: Bytes)
      ensures key == Key(txn)
    {
      key := txn.user;
      key := key + [SEPARATOR];
      if txn.device.Some? {
        key := key + txn.device.value;
      }
      key := key + [SEPARATOR];
      assert key == Field(txn.user) + Field(DeviceBytes(txn.device));
      key := key + txn.txnId;
    }

    method AddTxnId(txn: Transaction, data: Response)
      requires Textual(txn)
      modifies this
      ensures responses == old(responses)[Key(txn) := data]
      ensures forall other: Transaction | Textual(other) && !Same(other, txn) ::
                && (Key(other) in responses <==> Key(other) in old(responses))
                && (Key(other) in responses ==> responses[Key(other)] == old(responses)[Key(other)])
    {
      var key := KeyOf(txn);
      forall other: Transaction | Textual(other) && !Same(other, txn)
        ensures Key(other) != Key(txn)
      {
        KeyIsInjective(other, txn);
      }
      responses := responses[key := data];
    }

    method ExistingTxnId(txn: Transaction) returns (r: Option<Response>)
      ensures r == if Key(txn) in responses then Some(responses[Key(txn)]) else None
    {
      var key := KeyOf(txn);
      r := if key in responses then Some(responses[key]) else None;
    }
  }

  // ---------------------------------------------------------------------
  // Concurrent requests
  // ---------------------------------------------------------------------

  datatype Request =
    | Send(room: RoomId, txn: Transaction, encrypted: bool)
    | ToDevice(txn: Transaction)

  datatype Reply =
    | Sent(event: EventId)
    | Forbidden
    | IncompatibleEndpoint
    | AppendFailed
    | Delivered

  /** `Fresh` has looked the transaction up and found nothing. */
  datatype Phase =
    | Waiting
    | Locked
    | Fresh
    | Appended(event: EventId)
    | Done(reply: Reply)

  datatype Task = Task(req: Request, phase: Phase)

  /** `log` holds the key behind each appended event. `recorded` and `lost` are
      history: the event each key was recorded with, and the keys of appended
      events whose request was dropped before it recorded them. */
  datatype State = State(
    allowEncryption: bool,
    tokens: map<RoomId, TaskId>,
    responses: map<Bytes, Response>,
    log: seq<Bytes>,
    tasks: map<TaskId, Task>,
    recorded: map<Bytes, EventId>,
    lost: multiset<Bytes>)

  /** `Lose` is a request that ends early: the server stops, or the connection
      goes away and the handler is dropped. */
  datatype Action =
    | Arrive(t: TaskId, req: Request)
    | TakeToken(t: TaskId)
    | Check(t: TaskId)
    | Append(t: TaskId, ok: bool)
    | Record(t: TaskId)
    | Lose(t: TaskId)

  predicate Refused(s: State, req: Request) {
    req.Send? && req.encrypted && !s.allowEncryption
  }

  predicate HasToken(task: Task) {
    task.req.Send? && (task.phase.Locked? || task.phase.Fresh? || task.phase.Appended?)
  }

  predicate Enabled(s: State, a: Action) {
    if a.Arrive? then a.t !in s.tasks
    else
      && a.t in s.tasks
      && var task := s.tasks[a.t];
         match a
         case TakeToken(_) => task.req.Send? && task.phase.Waiting? && task.req.room !in s.tokens
         case Check(_) => if task.req.Send? then task.phase.Locked? else task.phase.Waiting?
         case Append(_, _) => task.req.Send? && task.phase.Fresh?
         case Record(_) => if task.req.Send? then task.phase.Appended? else task.phase.Fresh?
         case Lose(_) => !task.phase.Done?
  }

  function SetPhase(s: State, t: TaskId, phase: Phase): State
    requires t in s.tasks
  {
    s.(tasks := s.tasks[t := s.tasks[t].(phase := phase)])
  }

  /** The request ends; a send drops its token, if it has one. */
  function Finish(s: State, t: TaskId, reply: Reply): State
    requires t in s.tasks
  {
    var after := SetPhase(s, t, Done(reply));
    if HasToken(s.tasks[t]) then after.(tokens := s.tokens - {s.tasks[t].req.room}) else after
  }

  function AfterCheck(s: State, t: TaskId): State
    requires t in s.tasks
  {
    var req := s.tasks[t].req;
    var key := Key(req.txn);
    if req.ToDevice? then
      if key in s.responses then Finish(s, t, Delivered) else SetPhase(s, t, Fresh)
    else if Refused(s, req) then Finish(s, t, Forbidden)
    else if key !in s.responses then SetPhase(s, t, Fresh)
    else
      match s.responses[key]
      case NoEvent => Finish(s, t, IncompatibleEndpoint)
      case Event(e) => Finish(s, t, Sent(e))
  }

  function AfterAppend(s: State, t: TaskId, ok: bool): State
    requires t in s.tasks
  {
    if ok then SetPhase(s, t, Appended(|s.log|)).(log := s.log + [Key(s.tasks[t].req.txn)])
    else Finish(s, t, AppendFailed)
  }

  function AfterRecord(s: State, t: TaskId): State
    requires t in s.tasks
    requires if s.tasks[t].req.Send? then s.tasks[t].phase.Appended? else s.tasks[t].phase.Fresh?
  {
    var task := s.tasks[t];
    var key := Key(task.req.txn);
    if task.req.Send? then
      Finish(s, t, Sent(task.phase.event)).(
        responses := s.responses[key := Event(task.phase.event)],
        recorded := s.recorded[key := task.phase.event])
    else
      Finish(s, t, Delivered).(responses := s.responses[key := NoEvent])
  }

  function AfterLose(s: State, t: TaskId): State
    requires t in s.tasks
  {
    var task := s.tasks[t];
    State(
      s.allowEncryption,
      if HasToken(task) then s.tokens - {task.req.room} else s.tokens,
      s.responses,
      s.log,
      s.tasks - {t},
      s.recorded,
      if HasToken(task) && task.phase.Appended? then s.lost + multiset{Key(task.req.txn)} else s.lost)
  }

  function Step(s: State, a: Action): State
    requires Enabled(s, a)
  {
    match a
    case Arrive(t, req) => s.(tasks := s.tasks[t := Task(req, Waiting)])
    case TakeToken(t) => SetPhase(s, t, Locked).(tokens := s.tokens[s.tasks[t].req.room := t])
    case Check(t) => AfterCheck(s, t)
    case Append(t, ok) => AfterAppend(s, t, ok)
    case Record(t) => AfterRecord(s, t)
    case Lose(t) => AfterLose(s, t)
  }

  function Initial(allowEncryption: bool): State {
    State(allowEncryption, map[], map[], [], map[], map[], multiset{})
  }

  /** `states[i + 1]` follows from `states[i]` by `actions[i]`. */
  ghost predicate IsChain(states: seq<State>, actions: seq<Action>) {
    && |states| == |actions| + 1
    && forall i :: 0 <= i < |actions| ==>
         Enabled(states[i], actions[i]) && states[i + 1] == Step(states[i], actions[i])
  }

  ghost predicate IsRun(states: seq<State>, actions: seq<Action>) {
    IsChain(states, actions) && states[0] == Initial(states[0].allowEncryption)
  }

  // ---------------------------------------------------------------------
  // Invariant of one key
  // ---------------------------------------------------------------------

  /** Whether the room's token is with a send of this key whose event is appended
      and not yet recorded. */
  predicate InFlight(s: State, key: Bytes, room: RoomId) {
    && room in s.tokens && s.tokens[room] in s.tasks
    && var task := s.tasks[s.tokens[room]];
       task.req.Send? && task.phase.Appended? && Key(task.req.txn) == key
  }

  function AsCount(b: bool): nat {
    if b then 1 else 0
  }

  predicate TaskInv(s: State, key: Bytes, room: RoomId, t: TaskId)
    requires t in s.tasks
  {
    var task := s.tasks[t];
    && (HasToken(task) ==> task.req.room in s.tokens && s.tokens[task.req.room] == t)
    && (task.req.Send? && Key(task.req.txn) == key ==>
          && (task.req.room == room || Refused(s, task.req))
          && (task.phase.Fresh? || task.phase.Appended? ==> !Refused(s, task.req) && key !in s.recorded)
          && (task.phase.Appended? ==> task.phase.event < |s.log| && s.log[task.phase.event] == key)
          && (task.phase.Done? && task.phase.reply.Sent? ==>
                key in s.recorded && s.recorded[key] == task.phase.reply.event))
  }

  /** Appended events of the key are in flight, recorded, or lost. */
  predicate KeyInv(s: State, key: Bytes, room: RoomId) {
    && multiset(s.log)[key] == s.lost[key] + AsCount(key in s.recorded) + AsCount(InFlight(s, key, room))
    && (key in s.recorded ==>
          key in s.responses && s.recorded[key] < |s.log| && s.log[s.recorded[key]] == key)
    && (key in s.responses && s.responses[key].Event? ==>
          key in s.recorded && s.recorded[key] == s.responses[key].event)
  }

  ghost predicate TokenInv(s: State) {
    forall r | r in s.tokens ::
      s.tokens[r] in s.tasks && HasToken(s.tasks[s.tokens[r]]) && s.tasks[s.tokens[r]].req.room == r
  }

  ghost predicate Inv(s: State, key: Bytes, room: RoomId) {
    && KeyInv(s, key, room)
    && (forall t | t in s.tasks :: TaskInv(s, key, room, t))
    && TokenInv(s)
  }

  /** Of the requests that could append an event under `key`, all are for `room`. */
  predicate Confined(allowEncryption: bool, key: Bytes, room: RoomId, a: Action) {
    a.Arrive? && a.req.Send? && Key(a.req.txn) == key && (allowEncryption || !a.req.encrypted) ==> a.req.room == room
  }

  lemma ArriveKeepsInv(s: State, key: Bytes, room: RoomId, a: Action)
    requires Inv(s, key, room) && a.Arrive? && Enabled(s, a) && Confined(s.allowEncryption, key, room, a)
    ensures Inv(Step(s, a), key, room)
  {
    forall t | t in Step(s, a).tasks
      ensures TaskInv(Step(s, a), key, room, t)
    {
      if t != a.t {
        assert TaskInv(s, key, room, t);
      }
    }
  }

  lemma TakeTokenKeepsTaskInv(s: State, key: Bytes, room: RoomId, a: Action, t: TaskId)
    requires Inv(s, key, room) && a.TakeToken? && Enabled(s, a) && t in s.tasks
    ensures TaskInv(Step(s, a), key, room, t)
  {
    assert TaskInv(s, key, room, t);
  }

  lemma TakeTokenKeepsInv(s: State, key: Bytes, room: RoomId, a: Action)
    requires Inv(s, key, room) && a.TakeToken? && Enabled(s, a)
    ensures Inv(Step(s, a), key, room)
  {
    forall t | t in Step(s, a).tasks
      ensures TaskInv(Step(s, a), key, room, t)
    {
      TakeTokenKeepsTaskInv(s, key, room, a, t);
    }
  }

  /** Two tasks never have the token of one room. */
  lemma TokensAreExclusive(s: State, key: Bytes, room: RoomId, t: TaskId, u: TaskId)
    requires Inv(s, key, room) && t in s.tasks && u in s.tasks
    requires HasToken(s.tasks[t]) && HasToken(s.tasks[u]) && s.tasks[t].req.room == s.tasks[u].req.room
    ensures t == u
  {
    assert TaskInv(s, key, room, t) && TaskInv(s, key, room, u);
  }

  lemma FinishKeepsInv(s: State, key: Bytes, room: RoomId, t: TaskId, reply: Reply)
    requires Inv(s, key, room) && t in s.tasks
    requires s.tasks[t].req.Send? ==> HasToken(s.tasks[t]) && !s.tasks[t].phase.Appended?
    requires reply.Sent? && s.tasks[t].req.Send? && Key(s.tasks[t].req.txn) == key ==>
               key in s.recorded && s.recorded[key] == reply.event
    ensures Inv(Finish(s, t, reply), key, room)
  {
    var after := Finish(s, t, reply);
    assert TaskInv(s, key, room, t);
    forall u | u in after.tasks
      ensures TaskInv(after, key, room, u)
    {
      assert TaskInv(s, key, room, u);
      if u != t && HasToken(s.tasks[u]) && HasToken(s.tasks[t]) && s.tasks[u].req.room == s.tasks[t].req.room {
        TokensAreExclusive(s, key, room, t, u);
      }
    }
  }

  lemma FreshKeepsInv(s: State, key: Bytes, room: RoomId, t: TaskId)
    requires Inv(s, key, room) && t in s.tasks && Key(s.tasks[t].req.txn) !in s.responses
    requires s.tasks[t].req.Send? ==> s.tasks[t].phase.Locked? && !Refused(s, s.tasks[t].req)
    requires s.tasks[t].req.ToDevice? ==> s.tasks[t].phase.Waiting?
    ensures Inv(SetPhase(s, t, Fresh), key, room)
  {
    var after := SetPhase(s, t, Fresh);
    forall u | u in after.tasks
      ensures TaskInv(after, key, room, u)
    {
      assert TaskInv(s, key, room, u);
    }
  }

  lemma CheckKeepsInv(s: State, key: Bytes, room: RoomId, t: TaskId)
    requires Inv(s, key, room) && Enabled(s, Check(t))
    ensures Inv(AfterCheck(s, t), key, room)
  {
    var req := s.tasks[t].req;
    if req.Send? && Refused(s, req) {
      FinishKeepsInv(s, key, room, t, Forbidden);
    } else if Key(req.txn) !in s.responses {
      FreshKeepsInv(s, key, room, t);
    } else if req.ToDevice? {
      FinishKeepsInv(s, key, room, t, Delivered);
    } else {
      match s.responses[Key(req.txn)]
      case NoEvent => FinishKeepsInv(s, key, room, t, IncompatibleEndpoint);
      case Event(e) => FinishKeepsInv(s, key, room, t, Sent(e));
    }
  }

  lemma AppendKeepsTaskInv(s: State, key: Bytes, room: RoomId, t: TaskId, u: TaskId)
    requires Inv(s, key, room) && Enabled(s, Append(t, true)) && u in s.tasks
    ensures TaskInv(AfterAppend(s, t, true), key, room, u)
  {
    assert TaskInv(s, key, room, t) && TaskInv(s, key, room, u);
  }

  lemma AppendKeepsKeyInv(s: State, key: Bytes, room: RoomId, t: TaskId)
    requires Inv(s, key, room) && Enabled(s, Append(t, true))
    ensures KeyInv(AfterAppend(s, t, true), key, room)
  {
    assert TaskInv(s, key, room, t);
  }

  lemma AppendKeepsInv(s: State, key: Bytes, room: RoomId, t: TaskId, ok: bool)
    requires Inv(s, key, room) && Enabled(s, Append(t, ok))
    ensures Inv(AfterAppend(s, t, ok), key, room)
  {
    if ok {
      AppendKeepsKeyInv(s, key, room, t);
      forall u | u in AfterAppend(s, t, true).tasks
        ensures TaskInv(AfterAppend(s, t, true), key, room, u)
      {
        AppendKeepsTaskInv(s, key, room, t, u);
      }
    } else {
      FinishKeepsInv(s, key, room, t, AppendFailed);
    }
  }

  lemma RecordKeepsTaskInv(s: State, key: Bytes, room: RoomId, t: TaskId, u: TaskId)
    requires Inv(s, key, room) && t in s.tasks && s.tasks[t].req.Send? && s.tasks[t].phase.Appended?
    requires u in s.tasks
    ensures TaskInv(AfterRecord(s, t), key, room, u)
  {
    assert TaskInv(s, key, room, t) && TaskInv(s, key, room, u);
    if u != t && HasToken(s.tasks[u]) && s.tasks[u].req.room == s.tasks[t].req.room {
      TokensAreExclusive(s, key, room, t, u);
    }
  }

  lemma RecordKeepsKeyInv(s: State, key: Bytes, room: RoomId, t: TaskId)
    requires Inv(s, key, room) && t in s.tasks && s.tasks[t].req.Send? && s.tasks[t].phase.Appended?
    ensures KeyInv(AfterRecord(s, t), key, room)
  {
    assert TaskInv(s, key, room, t);
    if room in s.tokens {
      assert TaskInv(s, key, room, s.tokens[room]);
    }
  }

  lemma RecordKeepsInv(s: State, key: Bytes, room: RoomId, t: TaskId)
    requires Inv(s, key, room) && t in s.tasks && s.tasks[t].req.Send? && s.tasks[t].phase.Appended?
    ensures Inv(AfterRecord(s, t), key, room)
  {
    RecordKeepsKeyInv(s, key, room, t);
    forall u | u in AfterRecord(s, t).tasks
      ensures TaskInv(AfterRecord(s, t), key, room, u)
    {
      RecordKeepsTaskInv(s, key, room, t, u);
    }
    assert TaskInv(s, key, room, t);
  }

  lemma RecordToDeviceKeepsInv(s: State, key: Bytes, room: RoomId, t: TaskId)
    requires Inv(s, key, room) && t in s.tasks && s.tasks[t].req.ToDevice? && s.tasks[t].phase.Fresh?
    ensures Inv(AfterRecord(s, t), key, room)
  {
    FinishKeepsInv(s, key, room, t, Delivered);
    var done, after := Finish(s, t, Delivered), AfterRecord(s, t);
    forall u | u in after.tasks
      ensures TaskInv(after, key, room, u)
    {
      assert TaskInv(done, key, room, u);
    }
  }

  lemma LoseKeepsInv(s: State, key: Bytes, room: RoomId, a: Action)
    requires Inv(s, key, room) && a.Lose? && Enabled(s, a)
    ensures Inv(Step(s, a), key, room)
  {
    var after := Step(s, a);
    var task := s.tasks[a.t];
    assert TaskInv(s, key, room, a.t);
    forall t | t in after.tasks
      ensures TaskInv(after, key, room, t)
    {
      assert TaskInv(s, key, room, t);
      if HasToken(s.tasks[t]) && HasToken(task) && s.tasks[t].req.room == task.req.room {
        TokensAreExclusive(s, key, room, t, a.t);
      }
    }
  }

  lemma StepKeepsInv(s: State, key: Bytes, room: RoomId, a: Action)
    requires Inv(s, key, room) && Enabled(s, a) && Confined(s.allowEncryption, key, room, a)
    ensures Inv(Step(s, a), key, room)
  {
    match a
    case Arrive(_, _) => ArriveKeepsInv(s, key, room, a);
    case TakeToken(_) => TakeTokenKeepsInv(s, key, room, a);
    case Check(t) => CheckKeepsInv(s, key, room, t);
    case Append(t, ok) => AppendKeepsInv(s, key, room, t, ok);
    case Record(t) =>
      if s.tasks[t].req.Send? {
        RecordKeepsInv(s, key, room, t);
      } else {
        RecordToDeviceKeepsInv(s, key, room, t);
      }
    case Lose(_) => LoseKeepsInv(s, key, room, a);
  }

  lemma StepKeepsSetting(s: State, a: Action)
    requires Enabled(s, a)
    ensures Step(s, a).allowEncryption == s.allowEncryption
  {
  }

  lemma {:induction false} RunInvariant(states: seq<State>, actions: seq<Action>, key: Bytes, room: RoomId, i: nat)
    requires IsRun(states, actions) && i < |states|
    requires forall a | a in actions :: Confined(states[0].allowEncryption, key, room, a)
    ensures states[i].allowEncryption == states[0].allowEncryption
    ensures Inv(states[i], key, room)
  {
    if i > 0 {
      RunInvariant(states, actions, key, room, i - 1);
      var s, a := states[i - 1], actions[i - 1];
      assert Enabled(s, a) && states[i] == Step(s, a) && a in actions;
      StepKeepsInv(s, key, room, a);
      StepKeepsSetting(s, a);
    }
  }

  // ---------------------------------------------------------------------
  // Idempotence
  // ---------------------------------------------------------------------

  predicate RepliedSent(s: State, t: TaskId, key: Bytes) {
    t in s.tasks && s.tasks[t].req.Send? && Key(s.tasks[t].req.txn) == key
    && s.tasks[t].phase.Done? && s.tasks[t].phase.reply.Sent?
  }

  /** A transaction used in one room appends one event for each request that was
      lost between append and record, and one more if and only if a request has
      recorded its event or is about to: never both, so at most one. */
  lemma AtMostOneEvent(states: seq<State>, actions: seq<Action>, key: Bytes, room: RoomId, i: nat)
    requires IsRun(states, actions) && i < |states|
    requires forall a | a in actions :: Confined(states[0].allowEncryption, key, room, a)
    ensures var s := states[i];
            && multiset(s.log)[key] == s.lost[key] + AsCount(key in s.recorded || InFlight(s, key, room))
            && !(key in s.recorded && InFlight(s, key, room))
  {
    RunInvariant(states, actions, key, room, i);
    var s := states[i];
    if InFlight(s, key, room) {
      assert TaskInv(s, key, room, s.tokens[room]);
    }
  }

  /** All successful replies to it carry the same event, which was appended for
      it, even when requests are lost. */
  lemma RepliesAgree(states: seq<State>, actions: seq<Action>, key: Bytes, room: RoomId, i: nat, t: TaskId, u: TaskId)
    requires IsRun(states, actions) && i < |states|
    requires forall a | a in actions :: Confined(states[0].allowEncryption, key, room, a)
    requires RepliedSent(states[i], t, key) && RepliedSent(states[i], u, key)
    ensures states[i].tasks[t].phase.reply == states[i].tasks[u].phase.reply
    ensures var event := states[i].tasks[t].phase.reply.event;
            event < |states[i].log| && states[i].log[event] == key
  {
    RunInvariant(states, actions, key, room, i);
    assert TaskInv(states[i], key, room, t) && TaskInv(states[i], key, room, u);
  }

  // ---------------------------------------------------------------------
  // Exactly when
  // ---------------------------------------------------------------------

  /** Every run from these two requests, each arriving any number of times and
      none lost, appends at most one event. */
  ghost predicate Idempotent(allowEncryption: bool, a: Request, b: Request) {
    forall states: seq<State>, actions: seq<Action> | IsRun(states, actions) && RunOf(states, actions, allowEncryption, a, b) ::
      multiset(states[|actions|].log)[Key(a.txn)] <= 1
  }

  predicate RunOf(states: seq<State>, actions: seq<Action>, allowEncryption: bool, a: Request, b: Request)
    requires |states| == |actions| + 1
  {
    && states[0].allowEncryption == allowEncryption
    && forall x | x in actions :: !x.Lose? && (x.Arrive? ==> x.req == a || x.req == b)
  }

  predicate Admitted(allowEncryption: bool, req: Request) {
    req.Send? && (allowEncryption || !req.encrypted)
  }

  lemma OnlyLoseLoses(s: State, a: Action)
    requires Enabled(s, a) && !a.Lose?
    ensures Step(s, a).lost == s.lost
  {
  }

  lemma {:induction false} NothingLost(states: seq<State>, actions: seq<Action>, i: nat)
    requires IsRun(states, actions) && i < |states|
    requires forall x | x in actions :: !x.Lose?
    ensures states[i].lost == multiset{}
  {
    if i > 0 {
      NothingLost(states, actions, i - 1);
      assert Enabled(states[i - 1], actions[i - 1]) && states[i] == Step(states[i - 1], actions[i - 1]);
      assert actions[i - 1] in actions;
      OnlyLoseLoses(states[i - 1], actions[i - 1]);
    }
  }

  lemma OneRoomIsIdempotent(allowEncryption: bool, a: Request, b: Request, room: RoomId)
    requires Key(a.txn) == Key(b.txn)
    requires Admitted(allowEncryption, a) ==> a.room == room
    requires Admitted(allowEncryption, b) ==> b.room == room
    ensures Idempotent(allowEncryption, a, b)
  {
    forall states: seq<State>, actions: seq<Action> | IsRun(states, actions) && RunOf(states, actions, allowEncryption, a, b)
      ensures multiset(states[|actions|].log)[Key(a.txn)] <= 1
    {
      forall x | x in actions
        ensures Confined(allowEncryption, Key(a.txn), room, x)
      {
      }
      AtMostOneEvent(states, actions, Key(a.txn), room, |actions|);
      NothingLost(states, actions, |actions|);
    }
  }

  /** The first steps of a send: it arrives, takes the token and finds nothing. */
  function CheckOf(t: TaskId, a: Request): (r: seq<Action>)
    ensures |r| == 3
  {
    [Arrive(t, a), TakeToken(t), Check(t)]
  }

  lemma SendChecks(s: State, t: TaskId, a: Request) returns (states: seq<State>)
    requires Admitted(s.allowEncryption, a)
    requires t !in s.tasks && a.room !in s.tokens && Key(a.txn) !in s.responses
    ensures IsChain(states, CheckOf(t, a)) && states[0] == s
    ensures states[3] == s.(tokens := s.tokens[a.room := t], tasks := s.tasks[t := Task(a, Fresh)])
  {
    var s1 := Step(s, Arrive(t, a));
    var s2 := Step(s1, TakeToken(t));
    states := [s, s1, s2, Step(s2, Check(t))];
  }

  lemma JoinChains(s: seq<State>, x: seq<Action>, t: seq<State>, y: seq<Action>)
    requires IsChain(s, x) && IsChain(t, y) && t[0] == s[|x|]
    ensures IsChain(s + t[1..], x + y) && (s + t[1..])[0] == s[0] && (s + t[1..])[|x| + |y|] == t[|y|]
  {
    var states, actions := s + t[1..], x + y;
    forall i | 0 <= i < |actions|
      ensures Enabled(states[i], actions[i]) && states[i + 1] == Step(states[i], actions[i])
    {
      if i >= |x| {
        assert actions[i] == y[i - |x|] && states[i] == t[i - |x|] && states[i + 1] == t[i - |x| + 1];
      }
    }
  }

  /** Both rooms' sends pass the check before either records. */
  function Race(a: Request, b: Request): (r: seq<Action>)
    ensures |r| == 8
  {
    CheckOf(0, a) + CheckOf(1, b) + [Append(0, true), Append(1, true)]
  }

  lemma BothAppend(s: State, t: TaskId, u: TaskId) returns (states: seq<State>)
    requires t in s.tasks && u in s.tasks && t != u && s.log == []
    requires s.tasks[t].req.Send? && s.tasks[t].phase.Fresh? && s.tasks[u].req.Send? && s.tasks[u].phase.Fresh?
    requires Key(s.tasks[t].req.txn) == Key(s.tasks[u].req.txn)
    ensures IsChain(states, [Append(t, true), Append(u, true)]) && states[0] == s
    ensures multiset(states[2].log)[Key(s.tasks[t].req.txn)] == 2
  {
    var next := AfterAppend(s, t, true);
    var last := AfterAppend(next, u, true);
    var key := Key(s.tasks[t].req.txn);
    assert last.log == [key, key];
    states := [s, next, last];
  }

  lemma TwoRoomsRace(allowEncryption: bool, a: Request, b: Request) returns (states: seq<State>)
    requires Admitted(allowEncryption, a) && Admitted(allowEncryption, b)
    requires Key(a.txn) == Key(b.txn) && a.room != b.room
    ensures IsRun(states, Race(a, b)) && RunOf(states, Race(a, b), allowEncryption, a, b)
    ensures multiset(states[8].log)[Key(a.txn)] == 2
  {
    var first := SendChecks(Initial(allowEncryption), 0, a);
    var second := SendChecks(first[3], 1, b);
    var third := BothAppend(second[3], 0, 1);
    JoinChains(first, CheckOf(0, a), second, CheckOf(1, b));
    JoinChains(first + second[1..], CheckOf(0, a) + CheckOf(1, b), third, [Append(0, true), Append(1, true)]);
    states := first + second[1..] + third[1..];
  }

  /** Two sends of one transaction are idempotent exactly when they are for the
      same room, unless one of them is refused as encrypted. */
  lemma IdempotentExactlyInOneRoom(allowEncryption: bool, a: Request, b: Request)
    requires a.Send? && b.Send? && Key(a.txn) == Key(b.txn)
    ensures Idempotent(allowEncryption, a, b) <==>
              a.room == b.room || !Admitted(allowEncryption, a) || !Admitted(allowEncryption, b)
  {
    if a.room == b.room || !Admitted(allowEncryption, b) {
      OneRoomIsIdempotent(allowEncryption, a, b, a.room);
    } else if !Admitted(allowEncryption, a) {
      OneRoomIsIdempotent(allowEncryption, a, b, b.room);
    } else {
      var states := TwoRoomsRace(allowEncryption, a, b);
      assert |Race(a, b)| == 8;
    }
  }

  /** A request lost between append and record leads its retry to append again:
      the bound of `AtMostOneEvent` is reached. */
  lemma LostRequestsAppendAgain(a: Request) returns (states: seq<State>, actions: seq<Action>)
    requires a.Send?
    ensures IsRun(states, actions) && forall x | x in actions :: Confined(states[0].allowEncryption, Key(a.txn), a.room, x)
    ensures states[|actions|].lost[Key(a.txn)] == 1 && multiset(states[|actions|].log)[Key(a.txn)] == 2
  {
    var first := SendIsLost(a);
    var second := RetryAppends(first[5], a);
    JoinChains(first, LossOf(a), second, CheckOf(1, a) + [Append(1, true)]);
    states, actions := first + second[1..], LossOf(a) + (CheckOf(1, a) + [Append(1, true)]);
  }

  function LossOf(a: Request): (r: seq<Action>)
    ensures |r| == 5
  {
    CheckOf(0, a) + [Append(0, true), Lose(0)]
  }

  lemma SendIsLost(a: Request) returns (states: seq<State>)
    requires a.Send?
    ensures IsChain(states, LossOf(a)) && states[0] == Initial(true)
    ensures states[5] == Initial(true).(log := [Key(a.txn)], lost := multiset{Key(a.txn)})
  {
    var first := SendChecks(Initial(true), 0, a);
    var appended := AfterAppend(first[3], 0, true);
    var s := AfterLose(appended, 0);
    assert s == Initial(true).(log := [Key(a.txn)], lost := multiset{Key(a.txn)});
    JoinChains(first, CheckOf(0, a), [first[3], appended, s], [Append(0, true), Lose(0)]);
    states := first + [first[3], appended, s][1..];
  }

  lemma RetryAppends(s: State, a: Request) returns (states: seq<State>)
    requires a.Send? && s == Initial(true).(log := [Key(a.txn)], lost := multiset{Key(a.txn)})
    ensures IsChain(states, CheckOf(1, a) + [Append(1, true)]) && states[0] == s
    ensures states[4].log == [Key(a.txn), Key(a.txn)] && states[4].lost == s.lost
  {
    var first := SendChecks(s, 1, a);
    var last := AfterAppend(first[3], 1, true);
    JoinChains(first, CheckOf(1, a), [first[3], last], [Append(1, true)]);
    states := first + [first[3], last][1..];
  }

  // ---------------------------------------------------------------------
  // Who has a room's token
  // ---------------------------------------------------------------------

  predicate Has(s: State, t: TaskId, room: RoomId) {
    t in s.tasks && HasToken(s.tasks[t]) && s.tasks[t].req.room == room
  }

  ghost predicate TokensInv(s: State) {
    && (forall r {:trigger s.tokens[r]} | r in s.tokens :: Has(s, s.tokens[r], r))
    && (forall t, r {:trigger Has(s, t, r)} | Has(s, t, r) :: r in s.tokens && s.tokens[r] == t)
  }

  /** Steps of one task that leave tokens and the other tasks alone. */
  lemma PhaseKeepsTokens(s: State, s': State, t: TaskId)
    requires TokensInv(s) && s'.tokens == s.tokens
    requires forall u | u != t :: (u in s'.tasks <==> u in s.tasks) && (u in s.tasks ==> s'.tasks[u] == s.tasks[u])
    requires forall r :: Has(s', t, r) <==> Has(s, t, r)
    ensures TokensInv(s')
  {
    forall r | r in s'.tokens ensures Has(s', s'.tokens[r], r) {
      assert Has(s, s.tokens[r], r);
    }
    forall u, r | Has(s', u, r) ensures r in s'.tokens && s'.tokens[r] == u {
      assert Has(s, u, r);
    }
  }

  /** A task that ends gives its token back. */
  lemma EndKeepsTokens(s: State, s': State, t: TaskId)
    requires TokensInv(s) && t in s.tasks
    requires s'.tokens == if HasToken(s.tasks[t]) then s.tokens - {s.tasks[t].req.room} else s.tokens
    requires forall u | u != t :: (u in s'.tasks <==> u in s.tasks) && (u in s.tasks ==> s'.tasks[u] == s.tasks[u])
    requires t in s'.tasks ==> !HasToken(s'.tasks[t])
    ensures TokensInv(s')
  {
    if HasToken(s.tasks[t]) {
      assert Has(s, t, s.tasks[t].req.room);
    }
    forall r | r in s'.tokens ensures Has(s', s'.tokens[r], r) {
      assert Has(s, s.tokens[r], r);
    }
    forall u, r | Has(s', u, r) ensures r in s'.tokens && s'.tokens[r] == u {
      assert Has(s, u, r);
    }
  }

  lemma TakeKeepsTokens(s: State, t: TaskId)
    requires TokensInv(s) && Enabled(s, TakeToken(t))
    ensures TokensInv(Step(s, TakeToken(t)))
  {
    var s' := Step(s, TakeToken(t));
    forall r | r in s'.tokens ensures Has(s', s'.tokens[r], r) {
      if r in s.tokens {
        assert Has(s, s.tokens[r], r);
      }
    }
    forall u, r | Has(s', u, r) ensures r in s'.tokens && s'.tokens[r] == u {
      if u != t {
        assert Has(s, u, r);
      }
    }
  }

  lemma FinishKeepsTokens(s: State, t: TaskId, reply: Reply)
    requires TokensInv(s) && t in s.tasks
    ensures TokensInv(Finish(s, t, reply))
  {
    EndKeepsTokens(s, Finish(s, t, reply), t);
  }

  lemma FreshKeepsTokens(s: State, t: TaskId)
    requires TokensInv(s) && t in s.tasks && (s.tasks[t].req.Send? ==> s.tasks[t].phase.Locked?)
    ensures TokensInv(SetPhase(s, t, Fresh))
  {
    PhaseKeepsTokens(s, SetPhase(s, t, Fresh), t);
  }

  lemma CheckKeepsTokens(s: State, t: TaskId)
    requires TokensInv(s) && Enabled(s, Check(t))
    ensures TokensInv(AfterCheck(s, t))
  {
    var req := s.tasks[t].req;
    if req.Send? && Refused(s, req) {
      FinishKeepsTokens(s, t, Forbidden);
    } else if Key(req.txn) !in s.responses {
      FreshKeepsTokens(s, t);
    } else if req.ToDevice? {
      FinishKeepsTokens(s, t, Delivered);
    } else {
      match s.responses[Key(req.txn)]
      case NoEvent => FinishKeepsTokens(s, t, IncompatibleEndpoint);
      case Event(e) => FinishKeepsTokens(s, t, Sent(e));
    }
  }

  lemma StepKeepsTokens(s: State, a: Action)
    requires TokensInv(s) && Enabled(s, a)
    ensures TokensInv(Step(s, a))
  {
    match a
    case Arrive(t, _) => PhaseKeepsTokens(s, Step(s, a), t);
    case TakeToken(t) => TakeKeepsTokens(s, t);
    case Check(t) => CheckKeepsTokens(s, t);
    case Append(t, ok) =>
      if ok {
        PhaseKeepsTokens(s, AfterAppend(s, t, true), t);
      } else {
        EndKeepsTokens(s, AfterAppend(s, t, false), t);
      }
    case Record(t) => EndKeepsTokens(s, AfterRecord(s, t), t);
    case Lose(t) => EndKeepsTokens(s, AfterLose(s, t), t);
  }

  lemma {:induction false} TokensInRun(states: seq<State>, actions: seq<Action>, i: nat)
    requires IsRun(states, actions) && i < |states|
    ensures TokensInv(states[i])
  {
    if i > 0 {
      TokensInRun(states, actions, i - 1);
      assert Enabled(states[i - 1], actions[i - 1]) && states[i] == Step(states[i - 1], actions[i - 1]);
      StepKeepsTokens(states[i - 1], actions[i - 1]);
    }
  }

  /** In every run a send that waits for its room can go on if and only if no send
      of that room is between its token and its end, however that came. */
  lemma WaitingSendsGoOnExactly(states: seq<State>, actions: seq<Action>, i: nat, t: TaskId)
    requires IsRun(states, actions) && i < |states| && t in states[i].tasks
    requires states[i].tasks[t].req.Send? && states[i].tasks[t].phase.Waiting?
    ensures Enabled(states[i], TakeToken(t)) <==> !exists u :: Has(states[i], u, states[i].tasks[t].req.room)
  {
    TokensInRun(states, actions, i);
    var s, room := states[i], states[i].tasks[t].req.room;
    if room in s.tokens {
      assert Has(s, s.tokens[room], room);
    }
  }

  // ---------------------------------------------------------------------
  // What a later send answers
  // ---------------------------------------------------------------------

  /** A request, for whatever room, records something under the key. */
  predicate RecordsKey(s: State, a: Action, key: Bytes) {
    a.Record? && a.t in s.tasks && Key(s.tasks[a.t].req.txn) == key
  }

  /** The last step before `j` that records something under the key. */
  function LastRecord(states: seq<State>, actions: seq<Action>, key: Bytes, j: nat): (r: Option<nat>)
    requires j <= |actions| <= |states|
    ensures r.Some? ==> r.value < j && RecordsKey(states[r.value], actions[r.value], key)
    ensures forall m | 0 <= m < j && (r.Some? ==> r.value < m) :: !RecordsKey(states[m], actions[m], key)
  {
    if j == 0 then None
    else if RecordsKey(states[j - 1], actions[j - 1], key) then Some(j - 1)
    else LastRecord(states, actions, key, j - 1)
  }

  /** What the table holds for a key after that request records. */
  function Recorded(task: Task): Response {
    if task.req.Send? && task.phase.Appended? then Event(task.phase.event) else NoEvent
  }

  lemma OnlyRecordChanges(s: State, a: Action, key: Bytes)
    requires Enabled(s, a)
    ensures RecordsKey(s, a, key) ==> key in Step(s, a).responses && Step(s, a).responses[key] == Recorded(s.tasks[a.t])
    ensures !RecordsKey(s, a, key) ==>
              && (key in Step(s, a).responses <==> key in s.responses)
              && (key in s.responses ==> Step(s, a).responses[key] == s.responses[key])
  {
  }

  ghost predicate TableHolds(states: seq<State>, actions: seq<Action>, key: Bytes, j: nat)
    requires j <= |actions| < |states|
  {
    match LastRecord(states, actions, key, j)
    case None => key !in states[j].responses
    case Some(i) => key in states[j].responses && states[j].responses[key] == Recorded(states[i].tasks[actions[i].t])
  }

  lemma {:induction false} TableHoldsLastRecord(states: seq<State>, actions: seq<Action>, key: Bytes, j: nat)
    requires IsRun(states, actions) && j <= |actions|
    ensures TableHolds(states, actions, key, j)
  {
    if j > 0 {
      TableHoldsLastRecord(states, actions, key, j - 1);
      assert Enabled(states[j - 1], actions[j - 1]) && states[j] == Step(states[j - 1], actions[j - 1]);
      OnlyRecordChanges(states[j - 1], actions[j - 1], key);
    }
  }

  lemma FinishKeepsOthers(s: State, u: TaskId, t: TaskId, reply: Reply)
    requires t in s.tasks && u in s.tasks && u != t
    ensures t in Finish(s, u, reply).tasks && Finish(s, u, reply).tasks[t] == s.tasks[t]
  {
  }

  lemma CheckKeepsOthers(s: State, u: TaskId, t: TaskId)
    requires t in s.tasks && u in s.tasks && u != t
    ensures t in AfterCheck(s, u).tasks && AfterCheck(s, u).tasks[t] == s.tasks[t]
  {
    var req := s.tasks[u].req;
    if req.Send? && Refused(s, req) {
      FinishKeepsOthers(s, u, t, Forbidden);
    } else if Key(req.txn) in s.responses {
      if req.ToDevice? {
        FinishKeepsOthers(s, u, t, Delivered);
      } else {
        match s.responses[Key(req.txn)]
        case NoEvent => FinishKeepsOthers(s, u, t, IncompatibleEndpoint);
        case Event(e) => FinishKeepsOthers(s, u, t, Sent(e));
      }
    }
  }

  lemma EndKeepsOthers(s: State, u: TaskId, t: TaskId)
    requires t in s.tasks && u in s.tasks && u != t
    ensures t in AfterAppend(s, u, true).tasks && AfterAppend(s, u, true).tasks[t] == s.tasks[t]
    ensures t in AfterAppend(s, u, false).tasks && AfterAppend(s, u, false).tasks[t] == s.tasks[t]
    ensures t in AfterLose(s, u).tasks && AfterLose(s, u).tasks[t] == s.tasks[t]
  {
  }

  lemma OtherTasksStay(s: State, a: Action, t: TaskId)
    requires Enabled(s, a) && t in s.tasks && a.t != t
    ensures t in Step(s, a).tasks && Step(s, a).tasks[t] == s.tasks[t]
  {
    match a
    case Arrive(_, _) =>
    case TakeToken(_) =>
    case Check(u) => CheckKeepsOthers(s, u, t);
    case Append(u, ok) => EndKeepsOthers(s, u, t);
    case Record(u) => assert AfterRecord(s, u).tasks == Finish(s, u, AfterRecord(s, u).tasks[u].phase.reply).tasks;
    case Lose(u) => EndKeepsOthers(s, u, t);
  }

  lemma DoneStaysDone(s: State, a: Action, t: TaskId)
    requires Enabled(s, a) && t in s.tasks && s.tasks[t].phase.Done?
    ensures a.t != t && t in Step(s, a).tasks && Step(s, a).tasks[t] == s.tasks[t]
  {
    assert a.t != t;
    OtherTasksStay(s, a, t);
  }

  lemma {:induction false} DoneForEver(states: seq<State>, actions: seq<Action>, j: nat, m: nat, t: TaskId)
    requires IsRun(states, actions) && j <= m < |states| && t in states[j].tasks && states[j].tasks[t].phase.Done?
    ensures t in states[m].tasks && states[m].tasks[t] == states[j].tasks[t]
    ensures m < |actions| && (actions[m].Append? || actions[m].Record?) ==> actions[m].t != t
    decreases m
  {
    if j < m {
      DoneForEver(states, actions, j, m - 1, t);
      assert Enabled(states[m - 1], actions[m - 1]) && states[m] == Step(states[m - 1], actions[m - 1]);
      DoneStaysDone(states[m - 1], actions[m - 1], t);
    }
    if m < |actions| {
      assert Enabled(states[m], actions[m]);
    }
  }

  /** What a request is after its check, given the request that recorded its key
      last, if any: an encrypted send is refused where encryption is; without a record
      it goes on; a to-device request is done with any record; a send answers with the
      event of the send that recorded it, and with an error if that was a to-device
      request. */
  predicate CheckedAs(after: Phase, req: Request, allowEncryption: bool, recorder: Option<Task>) {
    if req.Send? && req.encrypted && !allowEncryption then after == Done(Forbidden)
    else if recorder.None? then after == Fresh
    else if req.ToDevice? then after == Done(Delivered)
    else if recorder.value.req.ToDevice? then after == Done(IncompatibleEndpoint)
    else recorder.value.phase.Appended? && after == Done(Sent(recorder.value.phase.event))
  }

  ghost function Recorder(states: seq<State>, actions: seq<Action>, key: Bytes, j: nat): Option<Task>
    requires j <= |actions| <= |states|
  {
    match LastRecord(states, actions, key, j)
    case None => None
    case Some(i) => Some(states[i].tasks[actions[i].t])
  }

  lemma CheckStep(s: State, t: TaskId, recorder: Option<Task>)
    requires Enabled(s, Check(t))
    requires var key := Key(s.tasks[t].req.txn);
             && (recorder.None? ==> key !in s.responses)
             && (recorder.Some? ==> key in s.responses && s.responses[key] == Recorded(recorder.value))
    requires recorder.Some? && recorder.value.req.Send? ==> recorder.value.phase.Appended?
    ensures var after := AfterCheck(s, t);
            t in after.tasks && CheckedAs(after.tasks[t].phase, s.tasks[t].req, s.allowEncryption, recorder)
            && after.log == s.log && after.responses == s.responses
  {
  }

  /** In every run, what a request answers at its check is decided by the last request
      that recorded its key, whichever rooms the two are for. A request that answers
      then never appends or records anything. */
  lemma ChecksAnswerTheLastRecord(states: seq<State>, actions: seq<Action>, j: nat, t: TaskId)
    requires IsRun(states, actions) && j < |actions| && actions[j] == Check(t)
    ensures t in states[j].tasks && t in states[j + 1].tasks
    ensures var req := states[j].tasks[t].req;
            CheckedAs(states[j + 1].tasks[t].phase, req, states[j].allowEncryption, Recorder(states, actions, Key(req.txn), j))
    ensures states[j + 1].log == states[j].log && states[j + 1].responses == states[j].responses
    ensures states[j + 1].tasks[t].phase.Done? ==>
              forall m | j < m < |actions| ::
                && t in states[m].tasks && states[m].tasks[t] == states[j + 1].tasks[t]
                && (actions[m].Append? || actions[m].Record? ==> actions[m].t != t)
  {
    assert Enabled(states[j], actions[j]) && states[j + 1] == Step(states[j], actions[j]);
    var key := Key(states[j].tasks[t].req.txn);
    TableHoldsLastRecord(states, actions, key, j);
    var recorder := Recorder(states, actions, key, j);
    if recorder.Some? {
      var i := LastRecord(states, actions, key, j).value;
      assert Enabled(states[i], actions[i]);
    }
    CheckStep(states[j], t, recorder);
    if states[j + 1].tasks[t].phase.Done? {
      forall m | j < m < |actions|
        ensures t in states[m].tasks && states[m].tasks[t] == states[j + 1].tasks[t]
        ensures actions[m].Append? || actions[m].Record? ==> actions[m].t != t
      {
        DoneForEver(states, actions, j + 1, m, t);
      }
    }
  }
}
