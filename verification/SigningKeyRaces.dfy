/** Concurrent updates of one server's stored signing keys. Reading the stored
    reply and writing the updated one are two accesses, and nothing keeps another
    update from falling in between. */
module SigningKeyRaces {
  import opened Collections
  import opened SigningKeys

  type TaskId = nat

  /** An update that has read the stored reply, if there was one. */
  datatype Task = Task(update: Update, read: Option<Keys>)

  /** `written` is history: the updates in the order of their writes. */
  datatype State = State(stored: Option<Keys>, tasks: map<TaskId, Task>, written: seq<Update>)

  datatype Action =
    | Get(t: TaskId, update: Update)
    | Put(t: TaskId)
    | Crash

  const INITIAL := State(None, map[], [])

  function Apply(prev: Option<Keys>, u: Update): Keys {
    if prev.Some? then Updated(prev.value, u) else u.keys
  }

  function ApplyAll(updates: seq<Update>): Option<Keys> {
    if updates == [] then None
    else Some(Apply(ApplyAll(updates[..|updates| - 1]), updates[|updates| - 1]))
  }

  predicate Enabled(s: State, a: Action) {
    match a
    case Get(t, _) => t !in s.tasks
    case Put(t) => t in s.tasks
    case Crash => true
  }

  function Step(s: State, a: Action): State
    requires Enabled(s, a)
  {
    match a
    case Get(t, u) => s.(tasks := s.tasks[t := Task(u, s.stored)])
    case Put(t) => State(Some(Apply(s.tasks[t].read, s.tasks[t].update)), s.tasks - {t}, s.written + [s.tasks[t].update])
    case Crash => s.(tasks := map[])
  }

  ghost predicate IsRun(states: seq<State>, actions: seq<Action>) {
    && |states| == |actions| + 1 && states[0] == INITIAL
    && forall i :: 0 <= i < |actions| ==>
         Enabled(states[i], actions[i]) && states[i + 1] == Step(states[i], actions[i])
  }

  function IdsOf(k: Option<Keys>): set<KeyId> {
    if k.Some? then Ids(k.value) else {}
  }

  /** Another update was written since this one read. */
  predicate Overtaken(s: State, a: Action) {
    a.Put? && a.t in s.tasks && s.tasks[a.t].read != s.stored
  }

  /** The write does not know an id that is stored by now. */
  predicate Forgets(s: State, a: Action) {
    a.Put? && a.t in s.tasks && !(IdsOf(s.stored) <= IdsOf(s.tasks[a.t].read) + Ids(s.tasks[a.t].update.keys))
  }

  lemma AppliedIds(prev: Option<Keys>, u: Update)
    ensures Ids(Apply(prev, u)) == IdsOf(prev) + Ids(u.keys)
  {
    if prev.Some? {
      var p, k := prev.value, u.keys;
      assert u.FromOrigin? ==> p.verify.Keys <= k.verify.Keys + Retired(p, k).Keys;
      assert Retired(p, k).Keys <= p.verify.Keys;
    }
  }

  lemma StepForgets(s: State, a: Action)
    requires Enabled(s, a)
    ensures IdsOf(s.stored) <= IdsOf(Step(s, a).stored) <==> !Forgets(s, a)
  {
    if a.Put? {
      AppliedIds(s.tasks[a.t].read, s.tasks[a.t].update);
    }
  }

  ghost predicate NeverForgets(states: seq<State>, actions: seq<Action>, i: nat, j: nat)
    requires i <= j <= |actions| < |states|
  {
    forall k | i <= k < j :: !Forgets(states[k], actions[k])
  }

  lemma {:induction false} IdsGrow(states: seq<State>, actions: seq<Action>, i: nat, j: nat)
    requires IsRun(states, actions) && i <= j <= |actions| && NeverForgets(states, actions, i, j)
    ensures IdsOf(states[i].stored) <= IdsOf(states[j].stored)
    decreases j
  {
    if i < j {
      IdsGrow(states, actions, i, j - 1);
      assert Enabled(states[j - 1], actions[j - 1]) && states[j] == Step(states[j - 1], actions[j - 1]);
      StepForgets(states[j - 1], actions[j - 1]);
    }
  }

  /** In every interleaving: key ids are kept from each state to each later one if
      and only if no write overlooks an id that was stored since it read. */
  lemma IdsAreKeptExactly(states: seq<State>, actions: seq<Action>)
    requires IsRun(states, actions)
    ensures (forall i, j | 0 <= i <= j <= |actions| :: IdsOf(states[i].stored) <= IdsOf(states[j].stored))
       <==> NeverForgets(states, actions, 0, |actions|)
  {
    if NeverForgets(states, actions, 0, |actions|) {
      forall i, j | 0 <= i <= j <= |actions| ensures IdsOf(states[i].stored) <= IdsOf(states[j].stored) {
        IdsGrow(states, actions, i, j);
      }
    } else {
      var k :| 0 <= k < |actions| && Forgets(states[k], actions[k]);
      assert Enabled(states[k], actions[k]) && states[k + 1] == Step(states[k], actions[k]);
      StepForgets(states[k], actions[k]);
      assert !(IdsOf(states[k].stored) <= IdsOf(states[k + 1].stored));
    }
  }

  /** Without overtaking, the stored reply is that of the updates one after the
      other, in the order of their writes. */
  lemma {:induction false} SerialUnlessOvertaken(states: seq<State>, actions: seq<Action>, i: nat)
    requires IsRun(states, actions) && i <= |actions|
    requires forall k | 0 <= k < i :: !Overtaken(states[k], actions[k])
    ensures states[i].stored == ApplyAll(states[i].written)
  {
    if i > 0 {
      SerialUnlessOvertaken(states, actions, i - 1);
      var s, a := states[i - 1], actions[i - 1];
      assert Enabled(s, a) && states[i] == Step(s, a);
      if a.Put? {
        assert states[i].written[..|s.written|] == s.written;
      }
    }
  }

  /** And then nothing is forgotten. */
  lemma OnlyOvertakenWritesForget(s: State, a: Action)
    requires Forgets(s, a)
    ensures Overtaken(s, a)
  {
  }

  /** Two first replies at once: the keys of one of them are gone. */
  lemma RaceForgetsKeys(k: Keys, l: Keys) returns (states: seq<State>)
    requires !(Ids(k) <= Ids(l))
    ensures IsRun(states, [Get(0, FromTrusted(k)), Get(1, FromOrigin(l)), Put(0), Put(1)])
    ensures states[3].stored == Some(k) && states[4].stored == Some(l) && Forgets(states[3], Put(1))
  {
    var a, b := Task(FromTrusted(k), None), Task(FromOrigin(l), None);
    states := [
      INITIAL,
      State(None, map[0 := a], []),
      State(None, map[0 := a, 1 := b], []),
      State(Some(k), map[1 := b], [FromTrusted(k)]),
      State(Some(l), map[], [FromTrusted(k), FromOrigin(l)])];
    assert map[0 := a, 1 := b] - {0} == map[1 := b];
    assert map[1 := b] - {1} == map[];
  }
}
