/** Concurrent `update` calls on one slot of account data. Nothing serialises
    them; each access to a tree is a step of its own. */
module AccountDataRaces {
  import opened Collections
  import opened Bytes
  import opened KvTree
  import opened AccountDataKeys
  import opened AccountData

  type TaskId = nat

  /** How far an update has come: it has its count, has inserted its value, has
      looked up what the index points to, has pointed the index to its own. */
  datatype Phase =
    | Counted
    | Inserted
    | Looked(prev: Option<nat>)
    | Pointed(prev: Option<nat>)

  datatype Task = Task(count: nat, value: Bytes, phase: Phase)

  /** `data` holds the slot's data keys by their counts. `pointed`, `live` and
      `left` are history: the counts the index ever had, those of them that no
      update has replaced, and the keys that a crash left behind. */
  datatype State = State(
    counter: nat,
    data: map<nat, Bytes>,
    index: Option<nat>,
    tasks: map<TaskId, Task>,
    pointed: set<nat>,
    live: set<nat>,
    left: set<nat>)

  /** `Tick` is any other use of the counter, refused updates included. */
  datatype Action =
    | Tick
    | Begin(t: TaskId, value: Bytes)
    | Insert(t: TaskId)
    | Look(t: TaskId)
    | Point(t: TaskId)
    | Remove(t: TaskId)
    | Crash

  const INITIAL := State(0, map[], None, map[], {}, {}, {})

  function Elem(o: Option<nat>): set<nat> {
    if o.Some? then {o.value} else {}
  }

  predicate Enabled(s: State, a: Action) {
    match a
    case Tick => true
    case Begin(t, _) => t !in s.tasks
    case Insert(t) => t in s.tasks && s.tasks[t].phase.Counted?
    case Look(t) => t in s.tasks && s.tasks[t].phase.Inserted?
    case Point(t) => t in s.tasks && s.tasks[t].phase.Looked?
    case Remove(t) => t in s.tasks && s.tasks[t].phase.Pointed?
    case Crash => true
  }

  function SetPhase(s: State, t: TaskId, phase: Phase): State
    requires t in s.tasks
  {
    s.(tasks := s.tasks[t := s.tasks[t].(phase := phase)])
  }

  function AfterPoint(s: State, t: TaskId): State
    requires t in s.tasks && s.tasks[t].phase.Looked?
  {
    var task := s.tasks[t];
    SetPhase(s, t, Pointed(task.phase.prev)).(
      index := Some(task.count),
      pointed := s.pointed + {task.count},
      live := (s.live - Elem(task.phase.prev)) + {task.count})
  }

  function AfterRemove(s: State, t: TaskId): State
    requires t in s.tasks && s.tasks[t].phase.Pointed?
  {
    s.(tasks := s.tasks - {t}, data := s.data - Elem(s.tasks[t].phase.prev))
  }

  function Step(s: State, a: Action): State
    requires Enabled(s, a)
  {
    match a
    case Tick => s.(counter := s.counter + 1)
    case Begin(t, value) => s.(counter := s.counter + 1, tasks := s.tasks[t := Task(s.counter + 1, value, Counted)])
    case Insert(t) => SetPhase(s, t, Inserted).(data := s.data[s.tasks[t].count := s.tasks[t].value])
    case Look(t) => SetPhase(s, t, Looked(s.index))
    case Point(t) => AfterPoint(s, t)
    case Remove(t) => AfterRemove(s, t)
    case Crash => s.(tasks := map[], left := s.data.Keys - s.live)
  }

  ghost predicate IsRun(states: seq<State>, actions: seq<Action>) {
    && |states| == |actions| + 1 && states[0] == INITIAL
    && forall i :: 0 <= i < |actions| ==>
         Enabled(states[i], actions[i]) && states[i + 1] == Step(states[i], actions[i])
  }

  // ---------------------------------------------------------------------
  // Invariant
  // ---------------------------------------------------------------------

  /** The data key an update is responsible for: its own until the index points to
      it, and then the one it replaced. */
  predicate Holds(task: Task, c: nat) {
    match task.phase
    case Counted => false
    case Inserted => c == task.count
    case Looked(_) => c == task.count
    case Pointed(prev) => prev == Some(c)
  }

  predicate TaskInv(s: State, task: Task) {
    && task.count <= s.counter && task.count !in s.left
    && (!task.phase.Pointed? ==> task.count !in s.pointed)
    && (task.phase.Counted? ==> task.count !in s.data)
    && (task.phase.Inserted? || task.phase.Looked? ==> task.count in s.data && s.data[task.count] == task.value)
    && (task.phase.Looked? ==> Elem(task.phase.prev) <= s.pointed - s.left)
    && (task.phase.Pointed? ==> task.count in s.pointed && Elem(task.phase.prev) <= s.pointed - s.left - s.live)
  }

  ghost predicate TasksInv(s: State) {
    && (forall t {:trigger s.tasks[t]} | t in s.tasks :: TaskInv(s, s.tasks[t]))
    && (forall t, u | t in s.tasks && u in s.tasks && s.tasks[t].count == s.tasks[u].count :: t == u)
  }

  ghost predicate Held(s: State, c: nat) {
    exists t :: t in s.tasks && Holds(s.tasks[t], c)
  }

  /** Every data key is live, left behind, or somebody's responsibility; the index
      points to a live one. */
  ghost predicate KeysInv(s: State) {
    && s.live <= s.pointed && s.live + s.left <= s.data.Keys && s.live !! s.left
    && Elem(s.index) <= s.live && (s.index.None? ==> s.pointed == {})
    && (forall c | c in s.data || c in s.pointed :: c <= s.counter)
    && (forall c | c in s.data :: c in s.live || c in s.left || Held(s, c))
  }

  ghost predicate Inv(s: State) {
    TasksInv(s) && KeysInv(s)
  }

  lemma BeginKeepsInv(s: State, t: TaskId, value: Bytes)
    requires Inv(s) && t !in s.tasks
    ensures Inv(Step(s, Begin(t, value)))
  {
    var after := Step(s, Begin(t, value));
    forall c | c in after.data && c !in after.live && c !in after.left ensures Held(after, c) {
      var u :| u in s.tasks && Holds(s.tasks[u], c);
      assert after.tasks[u] == s.tasks[u];
    }
  }

  lemma InsertKeepsInv(s: State, t: TaskId)
    requires Inv(s) && Enabled(s, Insert(t))
    ensures Inv(Step(s, Insert(t)))
  {
    var after := Step(s, Insert(t));
    forall c | c in after.data && c !in after.live && c !in after.left ensures Held(after, c) {
      if c == s.tasks[t].count {
        assert Holds(after.tasks[t], c);
      } else {
        var u :| u in s.tasks && Holds(s.tasks[u], c);
        assert after.tasks[u] == s.tasks[u];
      }
    }
  }

  lemma LookKeepsInv(s: State, t: TaskId)
    requires Inv(s) && Enabled(s, Look(t))
    ensures Inv(Step(s, Look(t)))
  {
    var after := Step(s, Look(t));
    forall c | c in after.data && c !in after.live && c !in after.left ensures Held(after, c) {
      var u :| u in s.tasks && Holds(s.tasks[u], c);
      assert Holds(after.tasks[u], c);
    }
  }

  lemma PointKeepsTasksInv(s: State, t: TaskId)
    requires Inv(s) && Enabled(s, Point(t))
    ensures TasksInv(AfterPoint(s, t))
  {
    var after := AfterPoint(s, t);
    forall u | u in after.tasks ensures TaskInv(after, after.tasks[u]) {
      assert TaskInv(s, s.tasks[u]) && TaskInv(s, s.tasks[t]);
    }
  }

  lemma PointKeepsKeysInv(s: State, t: TaskId)
    requires Inv(s) && Enabled(s, Point(t))
    ensures KeysInv(AfterPoint(s, t))
  {
    var after, task := AfterPoint(s, t), s.tasks[t];
    assert TaskInv(s, task);
    forall c | c in after.data && c !in after.live && c !in after.left ensures Held(after, c) {
      if c in s.live {
        assert Holds(after.tasks[t], c);
      } else {
        var u :| u in s.tasks && Holds(s.tasks[u], c);
        assert u != t && after.tasks[u] == s.tasks[u];
      }
    }
  }

  lemma RemoveKeepsInv(s: State, t: TaskId)
    requires Inv(s) && Enabled(s, Remove(t))
    ensures Inv(AfterRemove(s, t))
  {
    var after, task := AfterRemove(s, t), s.tasks[t];
    assert TaskInv(s, task);
    forall u | u in after.tasks ensures TaskInv(after, after.tasks[u]) {
      assert TaskInv(s, s.tasks[u]);
    }
    forall c | c in after.data && c !in after.live && c !in after.left ensures Held(after, c) {
      var u :| u in s.tasks && Holds(s.tasks[u], c);
      assert u != t && after.tasks[u] == s.tasks[u];
    }
  }

  lemma StepKeepsInv(s: State, a: Action)
    requires Inv(s) && Enabled(s, a)
    ensures Inv(Step(s, a))
  {
    match a
    case Tick =>
      forall c | c in s.data && c !in s.live && c !in s.left ensures Held(Step(s, a), c) {
        var u :| u in s.tasks && Holds(s.tasks[u], c);
        assert Step(s, a).tasks[u] == s.tasks[u];
      }
    case Begin(t, value) => BeginKeepsInv(s, t, value);
    case Insert(t) => InsertKeepsInv(s, t);
    case Look(t) => LookKeepsInv(s, t);
    case Point(t) =>
      PointKeepsTasksInv(s, t);
      PointKeepsKeysInv(s, t);
    case Remove(t) => RemoveKeepsInv(s, t);
    case Crash =>
  }

  lemma {:induction false} RunInvariant(states: seq<State>, actions: seq<Action>, i: nat)
    requires IsRun(states, actions) && i < |states|
    ensures Inv(states[i])
  {
    if i > 0 {
      RunInvariant(states, actions, i - 1);
      assert Enabled(states[i - 1], actions[i - 1]) && states[i] == Step(states[i - 1], actions[i - 1]);
      StepKeepsInv(states[i - 1], actions[i - 1]);
    }
  }

  // ---------------------------------------------------------------------
  // Nothing is lost
  // ---------------------------------------------------------------------

  lemma OtherStepKeepsValue(s: State, a: Action, c: nat)
    requires Inv(s) && Enabled(s, a) && !a.Point? && s.index == Some(c)
    ensures Step(s, a).index == Some(c) && c in s.data && c in Step(s, a).data && Step(s, a).data[c] == s.data[c]
  {
    if a.Insert? || a.Remove? {
      assert TaskInv(s, s.tasks[a.t]);
    }
  }

  /** In every interleaving, with crashes, the index leads to the value of the
      update that pointed it last. */
  lemma {:induction false} IndexLeadsToTheLastPointed(states: seq<State>, actions: seq<Action>, i: nat, j: nat)
    requires IsRun(states, actions) && i < j < |states| && actions[i].Point?
    requires forall k | i < k < j :: !actions[k].Point?
    ensures actions[i].t in states[i].tasks
    ensures var task := states[i].tasks[actions[i].t];
            && states[j].index == Some(task.count)
            && task.count in states[j].data && states[j].data[task.count] == task.value
    decreases j
  {
    var s, a := states[j - 1], actions[j - 1];
    assert Enabled(s, a) && states[j] == Step(s, a);
    RunInvariant(states, actions, j - 1);
    if i == j - 1 {
      assert TaskInv(s, s.tasks[a.t]);
    } else {
      IndexLeadsToTheLastPointed(states, actions, i, j - 1);
      OtherStepKeepsValue(s, a, s.index.value);
    }
  }

  /** The update removes the data key with this count. */
  predicate Removes(s: State, a: Action, c: nat) {
    a.Remove? && a.t in s.tasks && s.tasks[a.t].phase == Pointed(Some(c))
  }

  lemma StepKeepsPointed(s: State, a: Action, c: nat)
    requires Inv(s) && Enabled(s, a) && c in s.pointed
    ensures c in Step(s, a).pointed
    ensures c in Step(s, a).data <==> c in s.data && !Removes(s, a, c)
    ensures c in Step(s, a).data ==> Step(s, a).data[c] == s.data[c]
  {
    if a.Insert? {
      assert TaskInv(s, s.tasks[a.t]);
    }
  }

  /** `get` looks the index up in one step and the data in another. It finds the
      value that the index pointed to if and only if that was not removed in
      between; otherwise it answers that there is none. */
  lemma {:induction false} GetFindsExactly(states: seq<State>, actions: seq<Action>, i: nat, j: nat, c: nat)
    requires IsRun(states, actions) && i <= j <= |actions| && states[i].index == Some(c)
    ensures c in states[i].data && c in states[j].pointed
    ensures c in states[j].data <==> forall k | i <= k < j :: !Removes(states[k], actions[k], c)
    ensures c in states[j].data ==> states[j].data[c] == states[i].data[c]
    decreases j
  {
    if i == j {
      RunInvariant(states, actions, i);
    } else {
      GetFindsExactly(states, actions, i, j - 1, c);
      RunInvariant(states, actions, j - 1);
      assert Enabled(states[j - 1], actions[j - 1]) && states[j] == Step(states[j - 1], actions[j - 1]);
      StepKeepsPointed(states[j - 1], actions[j - 1], c);
    }
  }

  // ---------------------------------------------------------------------
  // Orphans, exactly
  // ---------------------------------------------------------------------

  /** Somebody else pointed the index between the update's look and its own write. */
  predicate Overtaken(s: State, a: Action) {
    a.Point? && a.t in s.tasks && s.tasks[a.t].phase.Looked? && s.tasks[a.t].phase.prev != s.index
  }

  /** The server stops while an update is responsible for a data key. */
  ghost predicate Interrupts(s: State, a: Action) {
    a.Crash? && exists c :: c in s.data && Held(s, c)
  }

  ghost predicate Disturbed(states: seq<State>, actions: seq<Action>, i: nat)
    requires i <= |actions| < |states|
  {
    exists k :: 0 <= k < i && (Overtaken(states[k], actions[k]) || Interrupts(states[k], actions[k]))
  }

  /** What is live is more than what the index points to, or a crash left keys. */
  ghost predicate Cluttered(s: State) {
    s.live != Elem(s.index) || s.left != {}
  }

  /** Keys that are somebody's responsibility are not live. */
  lemma HeldIsNotLive(s: State, c: nat)
    requires Inv(s) && Held(s, c)
    ensures c !in s.live && c !in s.left
  {
    var t :| t in s.tasks && Holds(s.tasks[t], c);
    assert TaskInv(s, s.tasks[t]);
  }

  lemma TwoAreMoreThanOne(live: set<nat>, i: nat, c: nat, prev: Option<nat>)
    requires i in live && c !in live && live != {i}
    ensures (live - Elem(prev)) + {c} != {c}
  {
    var other :| other in live && other != i;
    var kept := if prev == Some(i) then other else i;
    assert kept in (live - Elem(prev)) + {c} && kept != c;
  }

  lemma PointClutters(s: State, t: TaskId)
    requires Inv(s) && Enabled(s, Point(t))
    ensures Cluttered(AfterPoint(s, t)) <==> Cluttered(s) || Overtaken(s, Point(t))
  {
    var task := s.tasks[t];
    assert TaskInv(s, task);
    var prev := Elem(task.phase.prev);
    if s.live != Elem(s.index) {
      TwoAreMoreThanOne(s.live, s.index.value, task.count, task.phase.prev);
    } else if task.phase.prev == s.index {
      assert (s.live - prev) + {task.count} == {task.count};
    } else if s.index.Some? {
      assert s.index.value in AfterPoint(s, t).live && s.index.value != task.count;
    }
  }

  lemma CrashClutters(s: State)
    requires Inv(s)
    ensures Cluttered(Step(s, Crash)) <==> Cluttered(s) || Interrupts(s, Crash)
  {
    if c :| c in s.data && Held(s, c) {
      HeldIsNotLive(s, c);
      assert c in s.data.Keys - s.live;
    }
    if s.left != {} {
      var c :| c in s.left;
      assert c in s.data.Keys - s.live;
    }
    if s.data.Keys - s.live != {} {
      var c :| c in s.data.Keys - s.live;
    }
  }

  lemma StepClutters(s: State, a: Action)
    requires Inv(s) && Enabled(s, a)
    ensures Cluttered(Step(s, a)) <==> Cluttered(s) || Overtaken(s, a) || Interrupts(s, a)
  {
    if a.Point? {
      PointClutters(s, a.t);
    } else if a.Crash? {
      CrashClutters(s);
    }
  }

  lemma {:induction false} ClutteredExactly(states: seq<State>, actions: seq<Action>, i: nat)
    requires IsRun(states, actions) && i <= |actions|
    ensures Cluttered(states[i]) <==> Disturbed(states, actions, i)
  {
    if i > 0 {
      ClutteredExactly(states, actions, i - 1);
      var s, a := states[i - 1], actions[i - 1];
      assert Enabled(s, a) && states[i] == Step(s, a);
      RunInvariant(states, actions, i - 1);
      StepClutters(s, a);
    }
  }

  /** When no update is under way, the slot has one data key, the one the index
      points to, if and only if no update ever overtook another between look and
      write, and no crash interrupted one. */
  lemma OneDataKeyExactly(states: seq<State>, actions: seq<Action>, i: nat)
    requires IsRun(states, actions) && i <= |actions| && states[i].tasks == map[]
    ensures states[i].data.Keys == Elem(states[i].index) <==> !Disturbed(states, actions, i)
  {
    RunInvariant(states, actions, i);
    ClutteredExactly(states, actions, i);
    var s := states[i];
    assert forall c | c in s.data :: !Held(s, c);
    assert s.data.Keys == s.live + s.left;
    if s.left != {} {
      var c :| c in s.left;
      assert c in s.data.Keys && c !in Elem(s.index);
    }
  }

  // ---------------------------------------------------------------------
  // What that means for the trees
  // ---------------------------------------------------------------------

  /** The trees hold just this slot, in this state. */
  ghost predicate Encodes(slot: Slot, s: State, data: Tree, index: Tree) {
    && s.counter <= U64_MAX
    && (forall c {:trigger s.data[c]} | c in s.data :: c <= U64_MAX && DataKey(slot, c) in data && data[DataKey(slot, c)] == s.data[c])
    && (forall k | k in data :: exists c :: c in s.data && c <= U64_MAX && k == DataKey(slot, c))
    && (s.index.Some? ==> s.index.value <= U64_MAX)
    && index == if s.index.Some? then map[IndexKey(slot) := DataKey(slot, s.index.value)] else map[]
  }

  lemma RefinedHasOneKey(slot: Slot, s: State, data: Tree, index: Tree, model: Model, c: nat)
    requires TextSlot(slot) && Encodes(slot, s, data, index) && Refines(data, index, s.counter, model) && c in s.data
    ensures s.index == Some(c)
  {
    assert s.data[c] == data[DataKey(slot, c)];
    assert DataOwned(model, DataKey(slot, c));
    var t :| t in model && model[t].count <= U64_MAX && DataKey(slot, c) == DataKey(t, model[t].count);
    assert SlotRefines(data, index, s.counter, t, model[t]);
    DataKeyInjective(slot, c, t, model[t].count);
    DataKeyInjective(slot, c, slot, s.index.value);
  }

  lemma RefinedKeys(slot: Slot, s: State, data: Tree, index: Tree, model: Model)
    requires TextSlot(slot) && Inv(s) && Encodes(slot, s, data, index) && Refines(data, index, s.counter, model)
    ensures s.data.Keys == Elem(s.index)
  {
    forall c | c in s.data ensures c in Elem(s.index) {
      RefinedHasOneKey(slot, s, data, index, model, c);
    }
  }

  function ModelOf(slot: Slot, s: State): Model {
    if s.index.Some? && s.index.value in s.data then map[slot := Stored(s.index.value, s.data[s.index.value])] else map[]
  }

  lemma OneKeyRefines(slot: Slot, s: State, data: Tree, index: Tree)
    requires TextSlot(slot) && Inv(s) && Encodes(slot, s, data, index) && s.data.Keys == Elem(s.index)
    ensures Refines(data, index, s.counter, ModelOf(slot, s))
  {
    var model := ModelOf(slot, s);
    forall k | k in data ensures DataOwned(model, k) {
      var c :| c in s.data && c <= U64_MAX && k == DataKey(slot, c);
      assert c in Elem(s.index);
      assert slot in model;
    }
    forall k | k in index ensures IndexOwned(model, k) {
      assert s.index.value in Elem(s.index);
      assert slot in model;
    }
    forall t | t in model ensures SlotRefines(data, index, s.counter, t, model[t]) {
      assert s.data[s.index.value] == data[DataKey(slot, s.index.value)];
    }
  }

  /** Such as updates one at a time would leave. */
  ghost predicate Orderly(data: Tree, index: Tree, counter: nat) {
    exists model :: Refines(data, index, counter, model)
  }

  /** The trees are orderly if and only if the slot has the one data key. */
  lemma OrderlyExactly(slot: Slot, s: State, data: Tree, index: Tree)
    requires TextSlot(slot) && Inv(s) && Encodes(slot, s, data, index)
    ensures Orderly(data, index, s.counter) <==> s.data.Keys == Elem(s.index)
  {
    if Orderly(data, index, s.counter) {
      var model :| Refines(data, index, s.counter, model);
      RefinedKeys(slot, s, data, index, model);
    } else if s.data.Keys == Elem(s.index) {
      OneKeyRefines(slot, s, data, index);
    }
  }

  /** In every run, when no update is under way: the trees are orderly if and only
      if no update overtook another and no crash interrupted one. */
  lemma OrderlyUnlessDisturbed(states: seq<State>, actions: seq<Action>, i: nat, slot: Slot, data: Tree, index: Tree)
    requires IsRun(states, actions) && i <= |actions| && states[i].tasks == map[]
    requires TextSlot(slot) && Encodes(slot, states[i], data, index)
    ensures Orderly(data, index, states[i].counter) <==> !Disturbed(states, actions, i)
  {
    RunInvariant(states, actions, i);
    OneDataKeyExactly(states, actions, i);
    OrderlyExactly(slot, states[i], data, index);
  }

  /** Two updates at once, of which the one with the earlier count points the index
      last: a sync reports the value with the larger count, `get` the other. */
  function RaceActions(v: Bytes, w: Bytes): (r: seq<Action>)
    ensures |r| == 10
  {
    [Begin(0, v), Begin(1, w), Insert(0), Insert(1), Look(0), Look(1), Point(1), Point(0), Remove(1), Remove(0)]
  }

  function RaceState(v: Bytes, w: Bytes, i: nat): State
    requires i < 11
  {
    var both := map[1 := v, 2 := w];
    var a, b := Task(1, v, Counted), Task(2, w, Counted);
    match i
    case 0 => INITIAL
    case 1 => State(1, map[], None, map[0 := a], {}, {}, {})
    case 2 => State(2, map[], None, map[0 := a, 1 := b], {}, {}, {})
    case 3 => State(2, map[1 := v], None, map[0 := a.(phase := Inserted), 1 := b], {}, {}, {})
    case 4 => State(2, both, None, map[0 := a.(phase := Inserted), 1 := b.(phase := Inserted)], {}, {}, {})
    case 5 => State(2, both, None, map[0 := a.(phase := Looked(None)), 1 := b.(phase := Inserted)], {}, {}, {})
    case 6 => State(2, both, None, map[0 := a.(phase := Looked(None)), 1 := b.(phase := Looked(None))], {}, {}, {})
    case 7 => State(2, both, Some(2), map[0 := a.(phase := Looked(None)), 1 := b.(phase := Pointed(None))], {2}, {2}, {})
    case 8 => State(2, both, Some(1), map[0 := a.(phase := Pointed(None)), 1 := b.(phase := Pointed(None))], {1, 2}, {1, 2}, {})
    case 9 => State(2, both, Some(1), map[0 := a.(phase := Pointed(None))], {1, 2}, {1, 2}, {})
    case _ => State(2, both, Some(1), map[], {1, 2}, {1, 2}, {})
  }

  lemma RaceBegins(v: Bytes, w: Bytes, i: nat)
    requires i < 6
    ensures Enabled(RaceState(v, w, i), RaceActions(v, w)[i])
    ensures Step(RaceState(v, w, i), RaceActions(v, w)[i]) == RaceState(v, w, i + 1)
  {
  }

  lemma RaceEnds(v: Bytes, w: Bytes, i: nat)
    requires 6 <= i < 10
    ensures Enabled(RaceState(v, w, i), RaceActions(v, w)[i])
    ensures Step(RaceState(v, w, i), RaceActions(v, w)[i]) == RaceState(v, w, i + 1)
  {
  }

  lemma RaceKeepsTheOlder(v: Bytes, w: Bytes) returns (states: seq<State>)
    ensures IsRun(states, RaceActions(v, w))
    ensures var last := states[10];
            last.tasks == map[] && last.index == Some(1) && last.data == map[1 := v, 2 := w]
  {
    states := seq(11, i requires 0 <= i < 11 => RaceState(v, w, i));
    forall i | 0 <= i < 10
      ensures Enabled(states[i], RaceActions(v, w)[i]) && states[i + 1] == Step(states[i], RaceActions(v, w)[i])
    {
      if i < 6 {
        RaceBegins(v, w, i);
      } else {
        RaceEnds(v, w, i);
      }
    }
  }

  /** Two updates one after the other. A reader that looked the index up between
      them and the data after them finds nothing, although the slot had a value
      all the time. */
  function TurnActions(v: Bytes, w: Bytes): (r: seq<Action>)
    ensures |r| == 10
  {
    [Begin(0, v), Insert(0), Look(0), Point(0), Remove(0), Begin(0, w), Insert(0), Look(0), Point(0), Remove(0)]
  }

  function TurnState(v: Bytes, w: Bytes, i: nat): State
    requires i < 11
  {
    var a, b := Task(1, v, Counted), Task(2, w, Counted);
    match i
    case 0 => INITIAL
    case 1 => State(1, map[], None, map[0 := a], {}, {}, {})
    case 2 => State(1, map[1 := v], None, map[0 := a.(phase := Inserted)], {}, {}, {})
    case 3 => State(1, map[1 := v], None, map[0 := a.(phase := Looked(None))], {}, {}, {})
    case 4 => State(1, map[1 := v], Some(1), map[0 := a.(phase := Pointed(None))], {1}, {1}, {})
    case 5 => State(1, map[1 := v], Some(1), map[], {1}, {1}, {})
    case 6 => State(2, map[1 := v], Some(1), map[0 := b], {1}, {1}, {})
    case 7 => State(2, map[1 := v, 2 := w], Some(1), map[0 := b.(phase := Inserted)], {1}, {1}, {})
    case 8 => State(2, map[1 := v, 2 := w], Some(1), map[0 := b.(phase := Looked(Some(1)))], {1}, {1}, {})
    case 9 => State(2, map[1 := v, 2 := w], Some(2), map[0 := b.(phase := Pointed(Some(1)))], {1, 2}, {2}, {})
    case _ => State(2, map[2 := w], Some(2), map[], {1, 2}, {2}, {})
  }

  lemma FirstTurn(v: Bytes, w: Bytes, i: nat)
    requires i < 5
    ensures Enabled(TurnState(v, w, i), TurnActions(v, w)[i])
    ensures Step(TurnState(v, w, i), TurnActions(v, w)[i]) == TurnState(v, w, i + 1)
  {
  }

  lemma SecondTurn(v: Bytes, w: Bytes, i: nat)
    requires 5 <= i < 10
    ensures Enabled(TurnState(v, w, i), TurnActions(v, w)[i])
    ensures Step(TurnState(v, w, i), TurnActions(v, w)[i]) == TurnState(v, w, i + 1)
  {
  }

  lemma GetMayMiss(v: Bytes, w: Bytes) returns (states: seq<State>)
    ensures IsRun(states, TurnActions(v, w))
    ensures states[5].index == Some(1) && 1 !in states[10].data
    ensures forall k | 5 <= k <= 10 :: states[k].index.Some? && states[k].index.value in states[k].data
  {
    states := seq(11, i requires 0 <= i < 11 => TurnState(v, w, i));
    forall i | 0 <= i < 10
      ensures Enabled(states[i], TurnActions(v, w)[i]) && states[i + 1] == Step(states[i], TurnActions(v, w)[i])
    {
      if i < 5 {
        FirstTurn(v, w, i);
      } else {
        SecondTurn(v, w, i);
      }
    }
  }
}
