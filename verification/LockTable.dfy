/** `OnDemandHashMap` and `TokenSet` as a state machine. Every section under the
    table's lock is one step; dropping an entry is several, because its guard
    sends the cleanup message before the `Arc` itself is released. */
module LockTable {

  type Key = nat
  type TaskId = nat

  /** An `Arc` is named after the task that created it. */
  type Arc = TaskId

  /** A caller of `get_or_insert_with` or `lock_key`. */
  datatype Task =
    | Looking(key: Key)
    | Creating(key: Key)
    | Holding(key: Key, arc: Arc)
    | Locked(key: Key, arc: Arc)
    | Leaving(key: Key, arc: Arc, locked: bool, handled: bool)
    | Abandoned(key: Key)

  datatype Message = Message(key: Key, sender: TaskId)

  datatype Cleaner = Waiting | Cleaning(msg: Message)

  /** `entries` holds weak references; `owner` is the state of the mutexes inside
      the values; `raced` records the values whose last `Arc` was released after
      the cleanup message for it had already been handled. */
  datatype State = State(
    entries: map<Key, Arc>,
    tasks: map<TaskId, Task>,
    nextTask: TaskId,
    owner: map<Arc, TaskId>,
    queue: seq<Message>,
    cleaner: Cleaner,
    raced: set<Arc>)

  datatype Action =
    | Begin(key: Key)
    | ReadMap(t: TaskId)
    | WriteMap(t: TaskId)
    | Acquire(t: TaskId)
    | DropGuard(t: TaskId)
    | Unlock(t: TaskId)
    | Release(t: TaskId)
    | Abandon(t: TaskId)
    | LateGuard(t: TaskId)
    | GiveUp(t: TaskId)
    | CleanerReceive
    | CleanerRun

  predicate Owns(task: Task, a: Arc) {
    (task.Holding? || task.Locked? || task.Leaving?) && task.arc == a
  }

  /** A published value some task still owns: its weak reference upgrades. */
  ghost predicate Live(s: State, a: Arc) {
    exists t :: t in s.tasks && Owns(s.tasks[t], a)
  }

  ghost predicate LiveEntry(s: State, k: Key) {
    k in s.entries && Live(s, s.entries[k])
  }

  predicate Locks(task: Task) {
    task.Locked? || (task.Leaving? && task.locked)
  }

  ghost predicate Enabled(s: State, a: Action) {
    match a
    case Begin(_) => true
    case ReadMap(t) => t in s.tasks && s.tasks[t].Looking?
    case WriteMap(t) => t in s.tasks && s.tasks[t].Creating?
    case Acquire(t) => t in s.tasks && s.tasks[t].Holding? && s.tasks[t].arc !in s.owner
    case DropGuard(t) => t in s.tasks && (s.tasks[t].Holding? || s.tasks[t].Locked?)
    case Unlock(t) => t in s.tasks && s.tasks[t].Leaving? && s.tasks[t].locked
    case Release(t) => t in s.tasks && s.tasks[t].Leaving? && !s.tasks[t].locked
    case Abandon(t) => t in s.tasks && s.tasks[t].Holding?
    case LateGuard(t) => t in s.tasks && s.tasks[t].Abandoned?
    case GiveUp(t) => t in s.tasks && (s.tasks[t].Looking? || s.tasks[t].Creating?)
    case CleanerReceive => s.cleaner.Waiting? && s.queue != []
    case CleanerRun => s.cleaner.Cleaning?
  }

  function Set(s: State, t: TaskId, task: Task): State {
    s.(tasks := s.tasks[t := task])
  }

  function End(s: State, t: TaskId): State {
    s.(tasks := s.tasks - {t})
  }

  /** First pass, under the read lock. */
  ghost function AfterReadMap(s: State, t: TaskId): State
    requires t in s.tasks
  {
    var k := s.tasks[t].key;
    if LiveEntry(s, k) then Set(s, t, Holding(k, s.entries[k])) else Set(s, t, Creating(k))
  }

  /** Second pass, under the write lock: look again, else insert the new value. */
  ghost function AfterWriteMap(s: State, t: TaskId): State
    requires t in s.tasks
  {
    var k := s.tasks[t].key;
    if LiveEntry(s, k) then Set(s, t, Holding(k, s.entries[k]))
    else Set(s, t, Holding(k, t)).(entries := s.entries[k := t])
  }

  function AfterDropGuard(s: State, t: TaskId): State
    requires t in s.tasks && (s.tasks[t].Holding? || s.tasks[t].Locked?)
  {
    var task := s.tasks[t];
    Set(s, t, Leaving(task.key, task.arc, task.Locked?, false))
      .(queue := s.queue + [Message(task.key, t)])
  }

  ghost function AfterRelease(s: State, t: TaskId): State
    requires t in s.tasks && s.tasks[t].Leaving?
  {
    var task := s.tasks[t];
    var rest := End(s, t);
    if task.handled && !Live(rest, task.arc) then rest.(raced := s.raced + {task.arc}) else rest
  }

  /** `try_cleanup_entry`, under the write lock. */
  ghost function AfterCleanup(s: State): State
    requires s.cleaner.Cleaning?
  {
    var k, t := s.cleaner.msg.key, s.cleaner.msg.sender;
    var entries := if k in s.entries && !LiveEntry(s, k) then s.entries - {k} else s.entries;
    var tasks := if t in s.tasks && s.tasks[t].Leaving? then s.tasks[t := s.tasks[t].(handled := true)] else s.tasks;
    s.(entries := entries, tasks := tasks, cleaner := Waiting)
  }

  ghost function Step(s: State, a: Action): State
    requires Enabled(s, a)
  {
    match a
    case Begin(key) => Set(s, s.nextTask, Looking(key)).(nextTask := s.nextTask + 1)
    case ReadMap(t) => AfterReadMap(s, t)
    case WriteMap(t) => AfterWriteMap(s, t)
    case Acquire(t) =>
      Set(s, t, Locked(s.tasks[t].key, s.tasks[t].arc)).(owner := s.owner[s.tasks[t].arc := t])
    case DropGuard(t) => AfterDropGuard(s, t)
    case Unlock(t) =>
      Set(s, t, s.tasks[t].(locked := false)).(owner := s.owner - {s.tasks[t].arc})
    case Release(t) => AfterRelease(s, t)
    // A cancelled `lock_key` loses its Arc before its guard
    case Abandon(t) => Set(s, t, Abandoned(s.tasks[t].key))
    case LateGuard(t) => End(s, t).(queue := s.queue + [Message(s.tasks[t].key, t)])
    case GiveUp(t) => End(s, t)
    case CleanerReceive => s.(queue := s.queue[1..], cleaner := Cleaning(s.queue[0]))
    case CleanerRun => AfterCleanup(s)
  }

  predicate Init(s: State) {
    && s.entries == map[] && s.tasks == map[] && s.owner == map[]
    && s.queue == [] && s.cleaner == Waiting && s.raced == {}
  }

  ghost predicate IsRun(trace: seq<State>, actions: seq<Action>) {
    && |trace| == |actions| + 1
    && Init(trace[0])
    && forall i :: 0 <= i < |actions| ==>
         Enabled(trace[i], actions[i]) && trace[i + 1] == Step(trace[i], actions[i])
  }

  // ---------------------------------------------------------------------
  // Mutual exclusion
  // ---------------------------------------------------------------------

  predicate TaskInv(s: State, t: TaskId)
    requires t in s.tasks
  {
    && t < s.nextTask
    && match s.tasks[t]
       // A value is named after a task that has inserted it
       case Looking(_) => t !in s.entries.Values
       case Creating(_) => t !in s.entries.Values
       case Abandoned(_) => true
       // Whoever owns a published value owns the one the map refers to
       case task => task.key in s.entries && s.entries[task.key] == task.arc
                    && (Locks(task) ==> task.arc in s.owner && s.owner[task.arc] == t)
  }

  ghost predicate TableInv(s: State) {
    && (forall k, l :: k in s.entries && l in s.entries && s.entries[k] == s.entries[l] ==> k == l)
    && (forall k :: k in s.entries ==> s.entries[k] < s.nextTask)
    && forall t :: t in s.tasks ==> TaskInv(s, t)
  }

  lemma OwnerKeepsEntryLive(s: State, t: TaskId)
    requires t in s.tasks && (s.tasks[t].Holding? || s.tasks[t].Locked? || s.tasks[t].Leaving?)
    requires TaskInv(s, t)
    ensures LiveEntry(s, s.tasks[t].key)
  {
    assert Owns(s.tasks[t], s.tasks[t].arc);
  }

  lemma ReadMapKeepsTableInv(s: State, t: TaskId)
    requires TableInv(s) && t in s.tasks && s.tasks[t].Looking?
    ensures TableInv(AfterReadMap(s, t))
  {
    var s' := AfterReadMap(s, t);
    forall u | u in s'.tasks ensures TaskInv(s', u) {
      assert TaskInv(s, u);
    }
  }

  lemma WriteMapKeepsTableInv(s: State, t: TaskId)
    requires TableInv(s) && t in s.tasks && s.tasks[t].Creating?
    ensures TableInv(AfterWriteMap(s, t))
  {
    var k, s' := s.tasks[t].key, AfterWriteMap(s, t);
    assert TaskInv(s, t);
    forall u | u in s'.tasks ensures TaskInv(s', u) {
      assert TaskInv(s, u);
      if u != t && (s.tasks[u].Holding? || s.tasks[u].Locked? || s.tasks[u].Leaving?) {
        OwnerKeepsEntryLive(s, u);
      }
    }
  }

  lemma CleanupKeepsTableInv(s: State)
    requires TableInv(s) && s.cleaner.Cleaning?
    ensures TableInv(AfterCleanup(s))
  {
    var s' := AfterCleanup(s);
    forall u | u in s'.tasks ensures TaskInv(s', u) {
      assert TaskInv(s, u);
      if s.tasks[u].Holding? || s.tasks[u].Locked? || s.tasks[u].Leaving? {
        OwnerKeepsEntryLive(s, u);
      }
    }
  }

  lemma AcquireKeepsTableInv(s: State, t: TaskId)
    requires TableInv(s) && Enabled(s, Acquire(t))
    ensures TableInv(Step(s, Acquire(t)))
  {
    var s' := Step(s, Acquire(t));
    forall u | u in s'.tasks ensures TaskInv(s', u) {
      assert TaskInv(s, u);
    }
  }

  lemma UnlockKeepsTableInv(s: State, t: TaskId)
    requires TableInv(s) && Enabled(s, Unlock(t))
    ensures TableInv(Step(s, Unlock(t)))
  {
    var s' := Step(s, Unlock(t));
    assert TaskInv(s, t);
    forall u | u in s'.tasks ensures TaskInv(s', u) {
      assert TaskInv(s, u);
    }
  }

  /** Steps that leave the map, the mutexes and the other tasks alone. */
  lemma OneTaskStepKeepsTableInv(s: State, s': State, t: TaskId)
    requires TableInv(s) && s'.entries == s.entries && s'.owner == s.owner && s'.nextTask >= s.nextTask
    requires forall u :: u in s'.tasks && u != t ==> u in s.tasks && s'.tasks[u] == s.tasks[u]
    requires t in s'.tasks ==> TaskInv(s', t)
    ensures TableInv(s')
  {
    forall u | u in s'.tasks ensures TaskInv(s', u) {
      if u != t {
        assert TaskInv(s, u);
      }
    }
  }

  lemma StepKeepsTableInv(s: State, a: Action)
    requires TableInv(s) && Enabled(s, a)
    ensures TableInv(Step(s, a))
  {
    match a
    case ReadMap(t) => ReadMapKeepsTableInv(s, t);
    case WriteMap(t) => WriteMapKeepsTableInv(s, t);
    case Acquire(t) => AcquireKeepsTableInv(s, t);
    case Unlock(t) => UnlockKeepsTableInv(s, t);
    case CleanerRun => CleanupKeepsTableInv(s);
    case Begin(_) => OneTaskStepKeepsTableInv(s, Step(s, a), s.nextTask);
    case DropGuard(t) =>
      assert TaskInv(s, t);
      OneTaskStepKeepsTableInv(s, AfterDropGuard(s, t), t);
    case Release(t) => OneTaskStepKeepsTableInv(s, AfterRelease(s, t), t);
    case Abandon(t) =>
      assert TaskInv(s, t);
      OneTaskStepKeepsTableInv(s, Step(s, a), t);
    case LateGuard(t) => OneTaskStepKeepsTableInv(s, Step(s, a), t);
    case GiveUp(t) => OneTaskStepKeepsTableInv(s, Step(s, a), t);
    case CleanerReceive => OneTaskStepKeepsTableInv(s, Step(s, a), s.nextTask);
  }

  /** A mutex is taken by a task that has it locked, and by nobody else. */
  ghost predicate MutexInv(s: State) {
    forall a {:trigger s.owner[a]} | a in s.owner :: LockedBy(s, s.owner[a], a)
  }

  predicate LockedBy(s: State, t: TaskId, a: Arc) {
    t in s.tasks && Locks(s.tasks[t]) && s.tasks[t].arc == a
  }

  /** Steps that change no mutex, and no task that has one locked. */
  lemma OtherStepsKeepMutexInv(s: State, a: Action)
    requires MutexInv(s) && Enabled(s, a) && !a.Acquire? && !a.Unlock?
    requires forall t :: t in s.tasks ==> t < s.nextTask
    ensures MutexInv(Step(s, a))
  {
    forall arc | arc in s.owner ensures LockedBy(Step(s, a), s.owner[arc], arc) {
      assert LockedBy(s, s.owner[arc], arc);
    }
  }

  lemma StepKeepsMutexInv(s: State, a: Action)
    requires MutexInv(s) && TableInv(s) && Enabled(s, a)
    ensures MutexInv(Step(s, a))
  {
    forall t | t in s.tasks ensures t < s.nextTask {
      assert TaskInv(s, t);
    }
    if a.Acquire? || a.Unlock? {
      var after := Step(s, a);
      forall arc | arc in after.owner ensures LockedBy(after, after.owner[arc], arc) {
        if arc in s.owner {
          assert LockedBy(s, s.owner[arc], arc) && TaskInv(s, s.owner[arc]);
        }
      }
    } else {
      OtherStepsKeepMutexInv(s, a);
    }
  }

  // ---------------------------------------------------------------------
  // Cleanup
  // ---------------------------------------------------------------------

  predicate Pending(s: State, m: Message) {
    m in s.queue || s.cleaner == Cleaning(m)
  }

  /** A cleanup of `k` is still to come. */
  ghost predicate CleanupDue(s: State, k: Key) {
    || (exists m: Message :: m.key == k && Pending(s, m))
    || (exists t :: t in s.tasks && s.tasks[t] == Abandoned(k))
  }

  ghost predicate CleanupInv(s: State) {
    && (forall m: Message :: Pending(s, m) ==> m.sender < s.nextTask)
    // The message of a leaving task is pending until it is handled
    && (forall t :: t in s.tasks && s.tasks[t].Leaving? && !s.tasks[t].handled ==>
          Pending(s, Message(s.tasks[t].key, t)))
    && (forall k :: k in s.entries && !LiveEntry(s, k) ==> CleanupDue(s, k) || s.entries[k] in s.raced)
  }
  /** Tasks other than `t` are unchanged, so they keep their values alive. */
  lemma StillLive(s: State, s': State, t: TaskId, k: Key)
    requires forall u :: u in s.tasks && u != t ==> u in s'.tasks && s'.tasks[u] == s.tasks[u]
    requires LiveEntry(s, k) && k in s'.entries && s'.entries[k] == s.entries[k]
    requires t in s.tasks && Owns(s.tasks[t], s.entries[k]) ==> t in s'.tasks && Owns(s'.tasks[t], s.entries[k])
    ensures LiveEntry(s', k)
  {
    var u :| u in s.tasks && Owns(s.tasks[u], s.entries[k]);
    assert u in s'.tasks && Owns(s'.tasks[u], s'.entries[k]);
  }

  lemma StillDue(s: State, s': State, k: Key)
    requires CleanupDue(s, k)
    requires forall m :: Pending(s, m) ==> Pending(s', m)
    requires forall t :: t in s.tasks && s.tasks[t] == Abandoned(k) ==>
               (t in s'.tasks && s'.tasks[t] == Abandoned(k)) || Pending(s', Message(k, t))
    ensures CleanupDue(s', k)
  {
    if m: Message :| m.key == k && Pending(s, m) {
      assert Pending(s', m);
    } else {
      var t :| t in s.tasks && s.tasks[t] == Abandoned(k);
    }
  }

  /** Steps that take no value away from `t` and consume no message. */
  lemma MildStepKeepsCleanupInv(s: State, s': State, t: TaskId)
    requires CleanupInv(s) && s'.entries == s.entries && s'.raced == s.raced && s'.nextTask >= s.nextTask
    requires forall u :: u in s.tasks && u != t ==> u in s'.tasks && s'.tasks[u] == s.tasks[u]
    requires forall u :: u in s'.tasks && u != t ==> u in s.tasks && s'.tasks[u] == s.tasks[u]
    requires t in s.tasks ==> forall a :: Owns(s.tasks[t], a) ==> t in s'.tasks && Owns(s'.tasks[t], a)
    requires t in s.tasks && s.tasks[t].Abandoned? ==> Pending(s', Message(s.tasks[t].key, t))
    requires t in s'.tasks && s'.tasks[t].Leaving? && !s'.tasks[t].handled ==> Pending(s', Message(s'.tasks[t].key, t))
    requires forall m: Message :: Pending(s, m) ==> Pending(s', m)
    requires forall m: Message :: Pending(s', m) ==> Pending(s, m) || m.sender < s'.nextTask
    ensures CleanupInv(s')
  {
    forall k | k in s'.entries && !LiveEntry(s', k) ensures CleanupDue(s', k) || s'.entries[k] in s'.raced {
      if LiveEntry(s, k) {
        StillLive(s, s', t, k);
      } else if CleanupDue(s, k) {
        StillDue(s, s', k);
      }
    }
  }

  lemma WriteMapKeepsCleanupInv(s: State, t: TaskId)
    requires CleanupInv(s) && t in s.tasks && s.tasks[t].Creating?
    ensures CleanupInv(AfterWriteMap(s, t))
  {
    var s' := AfterWriteMap(s, t);
    var key := s.tasks[t].key;
    forall k | k in s'.entries && !LiveEntry(s', k) ensures CleanupDue(s', k) || s'.entries[k] in s'.raced {
      assert Owns(s'.tasks[t], s'.entries[key]);
      assert k != key;
      if LiveEntry(s, k) {
        StillLive(s, s', t, k);
      } else if CleanupDue(s, k) {
        StillDue(s, s', k);
      }
    }
  }

  /** Letting go of a value: either another task still owns it, or its cleanup is
      due, or this was the race. */
  lemma ReleaseKeepsCleanupInv(s: State, t: TaskId)
    requires CleanupInv(s) && TableInv(s) && t in s.tasks && s.tasks[t].Leaving?
    ensures CleanupInv(AfterRelease(s, t))
  {
    var s' := AfterRelease(s, t);
    assert TaskInv(s, t);
    forall k | k in s'.entries && !LiveEntry(s', k) ensures CleanupDue(s', k) || s'.entries[k] in s'.raced {
      if k == s.tasks[t].key {
        if !s.tasks[t].handled {
          assert Pending(s', Message(k, t));
        } else {
          assert !Live(End(s, t), s.tasks[t].arc);
        }
      } else if LiveEntry(s, k) {
        assert s.entries[k] != s.tasks[t].arc;
        StillLive(s, s', t, k);
      } else if CleanupDue(s, k) {
        StillDue(s, s', k);
      }
    }
  }
  lemma AbandonKeepsCleanupInv(s: State, t: TaskId)
    requires CleanupInv(s) && TableInv(s) && t in s.tasks && s.tasks[t].Holding?
    ensures CleanupInv(Set(s, t, Abandoned(s.tasks[t].key)))
  {
    var s' := Set(s, t, Abandoned(s.tasks[t].key));
    assert TaskInv(s, t);
    forall k | k in s'.entries && !LiveEntry(s', k) ensures CleanupDue(s', k) || s'.entries[k] in s'.raced {
      if k == s.tasks[t].key {
        assert s'.tasks[t] == Abandoned(k);
      } else if LiveEntry(s, k) {
        assert s.entries[k] != s.tasks[t].arc;
        StillLive(s, s', t, k);
      } else if CleanupDue(s, k) {
        StillDue(s, s', k);
      }
    }
  }

  ghost predicate HasMessage(s: State, k: Key) {
    exists m: Message :: m.key == k && Pending(s, m)
  }

  ghost predicate LivenessAgrees(s: State, s': State) {
    forall a :: Live(s, a) <==> Live(s', a)
  }

  lemma CleanupDrains(s: State)
    requires s.cleaner.Cleaning?
    ensures LivenessAgrees(s, AfterCleanup(s))
    ensures forall k :: HasMessage(s, k) <==> HasMessage(AfterCleanup(s), k) || k == s.cleaner.msg.key
    ensures forall k :: k in AfterCleanup(s).entries <==>
              k in s.entries && (LiveEntry(s, k) || k != s.cleaner.msg.key)
    ensures forall k :: k in AfterCleanup(s).entries ==> AfterCleanup(s).entries[k] == s.entries[k]
  {
    var s' := AfterCleanup(s);
    forall a ensures Live(s, a) <==> Live(s', a) {
      assert forall u :: u in s.tasks <==> u in s'.tasks;
      assert forall u :: u in s.tasks ==> (Owns(s.tasks[u], a) <==> Owns(s'.tasks[u], a));
    }
    assert Pending(s, s.cleaner.msg);
    assert forall m: Message :: Pending(s, m) <==> Pending(s', m) || m == s.cleaner.msg;
    assert forall m: Message :: m.key == s.cleaner.msg.key ==> (HasMessage(s, m.key));
  }

  lemma CleanupKeepsCleanupInv(s: State)
    requires CleanupInv(s) && s.cleaner.Cleaning?
    ensures CleanupInv(AfterCleanup(s))
  {
    var s' := AfterCleanup(s);
    var done := s.cleaner.msg;
    CleanupDrains(s);
    assert forall m: Message :: Pending(s, m) && m != done ==> Pending(s', m);
    forall k | k in s'.entries && !LiveEntry(s', k) ensures CleanupDue(s', k) || s'.entries[k] in s'.raced {
      assert !LiveEntry(s, k);
      if m: Message :| m.key == k && Pending(s, m) {
        assert k != done.key;
        assert Pending(s', m);
      } else if t :| t in s.tasks && s.tasks[t] == Abandoned(k) {
        assert s'.tasks[t] == Abandoned(k);
      }
    }
  }

  lemma EntryStepKeepsCleanupInv(s: State, a: Action)
    requires CleanupInv(s) && TableInv(s) && Enabled(s, a)
    requires a.Begin? || a.ReadMap? || a.Acquire? || a.Unlock? || a.GiveUp?
    ensures CleanupInv(Step(s, a))
  {
    match a
    case Begin(_) =>
      assert forall u :: u in s.tasks ==> TaskInv(s, u);
      MildStepKeepsCleanupInv(s, Step(s, a), s.nextTask);
    case ReadMap(t) => MildStepKeepsCleanupInv(s, AfterReadMap(s, t), t);
    case Acquire(t) => MildStepKeepsCleanupInv(s, Step(s, a), t);
    case Unlock(t) => MildStepKeepsCleanupInv(s, Step(s, a), t);
    case GiveUp(t) => MildStepKeepsCleanupInv(s, Step(s, a), t);
  }

  lemma DropGuardKeepsCleanupInv(s: State, t: TaskId)
    requires CleanupInv(s) && TableInv(s) && t in s.tasks && (s.tasks[t].Holding? || s.tasks[t].Locked?)
    ensures CleanupInv(AfterDropGuard(s, t))
  {
    assert TaskInv(s, t);
    MildStepKeepsCleanupInv(s, AfterDropGuard(s, t), t);
  }

  lemma LateGuardKeepsCleanupInv(s: State, t: TaskId)
    requires CleanupInv(s) && TableInv(s) && Enabled(s, LateGuard(t))
    ensures CleanupInv(Step(s, LateGuard(t)))
  {
    assert TaskInv(s, t);
    MildStepKeepsCleanupInv(s, Step(s, LateGuard(t)), t);
  }

  lemma ReceiveKeepsCleanupInv(s: State)
    requires CleanupInv(s) && TableInv(s) && Enabled(s, CleanerReceive)
    ensures CleanupInv(Step(s, CleanerReceive))
  {
    assert s.queue == [s.queue[0]] + s.queue[1..];
    MildStepKeepsCleanupInv(s, Step(s, CleanerReceive), s.nextTask);
  }

  lemma StepKeepsCleanupInv(s: State, a: Action)
    requires CleanupInv(s) && TableInv(s) && Enabled(s, a)
    ensures CleanupInv(Step(s, a))
  {
    match a
    case WriteMap(t) => WriteMapKeepsCleanupInv(s, t);
    case DropGuard(t) => DropGuardKeepsCleanupInv(s, t);
    case Release(t) => ReleaseKeepsCleanupInv(s, t);
    case Abandon(t) => AbandonKeepsCleanupInv(s, t);
    case LateGuard(t) => LateGuardKeepsCleanupInv(s, t);
    case CleanerReceive => ReceiveKeepsCleanupInv(s);
    case CleanerRun => CleanupKeepsCleanupInv(s);
    case _ => EntryStepKeepsCleanupInv(s, a);
  }

  // ---------------------------------------------------------------------
  // Every run
  // ---------------------------------------------------------------------

  lemma {:induction false} RunInvariant(trace: seq<State>, actions: seq<Action>, i: nat)
    requires IsRun(trace, actions) && i < |trace|
    ensures TableInv(trace[i]) && MutexInv(trace[i]) && CleanupInv(trace[i])
  {
    if i > 0 {
      RunInvariant(trace, actions, i - 1);
      StepKeepsTableInv(trace[i - 1], actions[i - 1]);
      StepKeepsMutexInv(trace[i - 1], actions[i - 1]);
      StepKeepsCleanupInv(trace[i - 1], actions[i - 1]);
    }
  }

  /** At most one token per key, in every interleaving. */
  lemma TokensAreUnique(trace: seq<State>, actions: seq<Action>, i: nat, t: TaskId, u: TaskId)
    requires IsRun(trace, actions) && i < |trace|
    requires t in trace[i].tasks && u in trace[i].tasks
    requires Locks(trace[i].tasks[t]) && Locks(trace[i].tasks[u])
    requires trace[i].tasks[t].key == trace[i].tasks[u].key
    ensures t == u
  {
    RunInvariant(trace, actions, i);
    assert TaskInv(trace[i], t) && TaskInv(trace[i], u);
  }

  /** In every interleaving a mutex is taken if and only if some task has it locked:
      a token that is dropped frees it. */
  lemma TakenExactly(trace: seq<State>, actions: seq<Action>, i: nat, a: Arc)
    requires IsRun(trace, actions) && i < |trace|
    ensures a in trace[i].owner <==> exists t :: LockedBy(trace[i], t, a)
  {
    RunInvariant(trace, actions, i);
    var s := trace[i];
    if a in s.owner {
      assert LockedBy(s, s.owner[a], a);
    }
    if t :| LockedBy(s, t, a) {
      assert TaskInv(s, t);
    }
  }

  /** So a task that waits for a key's mutex can take it if and only if no task has
      a token for the key. */
  lemma AcquireExactly(trace: seq<State>, actions: seq<Action>, i: nat, t: TaskId)
    requires IsRun(trace, actions) && i < |trace| && t in trace[i].tasks && trace[i].tasks[t].Holding?
    ensures var s := trace[i];
            Enabled(s, Acquire(t)) <==> !exists u :: u in s.tasks && Locks(s.tasks[u]) && s.tasks[u].key == s.tasks[t].key
  {
    RunInvariant(trace, actions, i);
    var s := trace[i];
    assert TaskInv(s, t);
    TakenExactly(trace, actions, i, s.tasks[t].arc);
    if u :| u in s.tasks && Locks(s.tasks[u]) && s.tasks[u].key == s.tasks[t].key {
      assert TaskInv(s, u) && LockedBy(s, u, s.tasks[t].arc);
    }
    if u :| LockedBy(s, u, s.tasks[t].arc) {
      assert TaskInv(s, u);
    }
  }

  /** All owners of a value for one key own the same value, which is the one in
      the map: a key never has two live mutexes. */
  lemma OneLiveValuePerKey(trace: seq<State>, actions: seq<Action>, i: nat, t: TaskId, u: TaskId, a: Arc, b: Arc)
    requires IsRun(trace, actions) && i < |trace|
    requires t in trace[i].tasks && u in trace[i].tasks
    requires Owns(trace[i].tasks[t], a) && Owns(trace[i].tasks[u], b)
    requires trace[i].tasks[t].key == trace[i].tasks[u].key
    ensures a == b && trace[i].tasks[t].key in trace[i].entries && trace[i].entries[trace[i].tasks[t].key] == a
  {
    RunInvariant(trace, actions, i);
    assert TaskInv(trace[i], t) && TaskInv(trace[i], u);
  }

  /** A step removes or replaces an entry only when nobody owns its value; the
      one that removes is the cleaner's, the one that replaces is an insertion. */
  lemma LiveEntriesStay(s: State, a: Action, k: Key)
    requires Enabled(s, a) && k in s.entries
    requires k !in Step(s, a).entries || Step(s, a).entries[k] != s.entries[k]
    ensures !LiveEntry(s, k)
    ensures k !in Step(s, a).entries ==> a.CleanerRun? && s.cleaner.msg.key == k
    ensures k in Step(s, a).entries ==> a.WriteMap? && s.tasks[a.t].key == k
  {
  }

  /** A value that was published, or never will be, and that nobody owns. */
  ghost predicate Gone(s: State, a: Arc) {
    && a < s.nextTask && (a in s.tasks ==> !s.tasks[a].Looking? && !s.tasks[a].Creating?)
    && !Live(s, a)
  }

  lemma GoneStep(s: State, act: Action, a: Arc)
    requires Gone(s, a) && Enabled(s, act)
    ensures Gone(Step(s, act), a)
  {
    var after := Step(s, act);
    forall t | t in after.tasks ensures !Owns(after.tasks[t], a) {
      if t in s.tasks {
        assert !Owns(s.tasks[t], a);
      }
    }
  }

  /** In every run a value that nobody owns any more never comes back: whoever asks
      for its key later gets another. */
  lemma {:induction false} DeadStaysDead(trace: seq<State>, actions: seq<Action>, i: nat, j: nat, k: Key)
    requires IsRun(trace, actions) && i <= j < |trace|
    requires k in trace[i].entries && !LiveEntry(trace[i], k)
    ensures Gone(trace[j], trace[i].entries[k])
    decreases j
  {
    if i == j {
      RunInvariant(trace, actions, i);
      var a := trace[i].entries[k];
      if a in trace[i].tasks {
        assert TaskInv(trace[i], a);
      }
    } else {
      DeadStaysDead(trace, actions, i, j - 1, k);
      GoneStep(trace[j - 1], actions[j - 1], trace[i].entries[k]);
    }
  }

  /** The cleaner has handled the message of task `t`. */
  ghost predicate Handled(trace: seq<State>, actions: seq<Action>, i: nat, t: TaskId)
    requires i <= |actions| < |trace|
  {
    exists m :: 0 <= m < i && actions[m].CleanerRun? && trace[m].cleaner.Cleaning? && trace[m].cleaner.msg.sender == t
  }

  lemma OnlyCleanerHandles(s: State, a: Action, t: TaskId)
    requires Enabled(s, a) && t in Step(s, a).tasks && Step(s, a).tasks[t].Leaving? && Step(s, a).tasks[t].handled
    requires !(a.CleanerRun? && s.cleaner.msg.sender == t)
    ensures t in s.tasks && s.tasks[t].Leaving? && s.tasks[t].handled
  {
  }

  lemma {:induction false} HandledByTheCleaner(trace: seq<State>, actions: seq<Action>, i: nat, t: TaskId)
    requires IsRun(trace, actions) && i < |trace| && t in trace[i].tasks && trace[i].tasks[t].Leaving? && trace[i].tasks[t].handled
    ensures Handled(trace, actions, i, t)
  {
    assert i > 0;
    var s, a := trace[i - 1], actions[i - 1];
    assert Enabled(s, a) && trace[i] == Step(s, a);
    if !(a.CleanerRun? && s.cleaner.msg.sender == t) {
      OnlyCleanerHandles(s, a, t);
      HandledByTheCleaner(trace, actions, i - 1, t);
    }
  }

  /** The value's last owner released it after its own message had been handled. */
  ghost predicate RacedAway(trace: seq<State>, actions: seq<Action>, i: nat, a: Arc)
    requires i <= |actions| < |trace|
  {
    exists j, t ::
      && 0 <= j < i && actions[j] == Release(t) && t in trace[j].tasks && trace[j].tasks[t].Leaving?
      && trace[j].tasks[t].arc == a && !Live(trace[j + 1], a) && Handled(trace, actions, j, t)
  }

  lemma {:induction false} RacedIsRacedAway(trace: seq<State>, actions: seq<Action>, i: nat, a: Arc)
    requires IsRun(trace, actions) && i < |trace| && a in trace[i].raced
    ensures RacedAway(trace, actions, i, a)
  {
    assert i > 0;
    var s, act := trace[i - 1], actions[i - 1];
    assert Enabled(s, act) && trace[i] == Step(s, act);
    if a in s.raced {
      RacedIsRacedAway(trace, actions, i - 1, a);
    } else {
      assert act.Release?;
      HandledByTheCleaner(trace, actions, i - 1, act.t);
      SameTasksSameLife(End(s, act.t), trace[i], a);
    }
  }

  lemma SameTasksSameLife(s: State, s': State, a: Arc)
    requires s.tasks == s'.tasks
    ensures Live(s, a) <==> Live(s', a)
  {
  }

  /** A dead entry has a cleanup coming, or its last owner released it after its
      own message had been handled. */
  lemma DeadEntriesAreDueOrRaced(trace: seq<State>, actions: seq<Action>, i: nat, k: Key)
    requires IsRun(trace, actions) && i < |trace|
    requires k in trace[i].entries && !LiveEntry(trace[i], k)
    ensures CleanupDue(trace[i], k) || RacedAway(trace, actions, i, trace[i].entries[k])
  {
    RunInvariant(trace, actions, i);
    if !CleanupDue(trace[i], k) {
      RacedIsRacedAway(trace, actions, i, trace[i].entries[k]);
    }
  }

  // ---------------------------------------------------------------------
  // Draining the cleanup queue
  // ---------------------------------------------------------------------

  /** The cleaner running alone until its queue is empty. */
  ghost function Drain(s: State): State
    decreases |s.queue|, s.cleaner.Cleaning?
  {
    if s.cleaner.Cleaning? then Drain(AfterCleanup(s))
    else if s.queue != [] then
      Drain(s.(queue := s.queue[1..], cleaner := Cleaning(s.queue[0])))
    else s
  }

  /** What draining leaves: the live entries, and the dead ones nobody announced. */
  lemma {:induction false} DrainExact(s: State, k: Key)
    ensures k in Drain(s).entries <==> k in s.entries && (LiveEntry(s, k) || !HasMessage(s, k))
    decreases |s.queue|, s.cleaner.Cleaning?
  {
    if s.cleaner.Cleaning? {
      CleanupDrains(s);
      DrainExact(AfterCleanup(s), k);
    } else if s.queue != [] {
      var s' := s.(queue := s.queue[1..], cleaner := Cleaning(s.queue[0]));
      assert s.queue == [s.queue[0]] + s.queue[1..];
      assert forall m: Message :: Pending(s, m) <==> Pending(s', m);
      assert HasMessage(s, k) <==> HasMessage(s', k);
      DrainExact(s', k);
    }
  }
  /** Once no abandoned call is left, draining leaves exactly the live keys if and
      only if every dead entry has a message; the race is the only exception. */
  lemma DrainLeavesLiveKeys(trace: seq<State>, actions: seq<Action>, i: nat)
    requires IsRun(trace, actions) && i < |trace|
    requires forall t :: t in trace[i].tasks ==> !trace[i].tasks[t].Abandoned?
    ensures var s := trace[i];
            (forall k :: k in Drain(s).entries <==> LiveEntry(s, k))
            <==> (forall k :: k in s.entries && !LiveEntry(s, k) ==> HasMessage(s, k))
    ensures var s := trace[i];
            (forall k :: k in s.entries && !LiveEntry(s, k) ==> s.entries[k] !in s.raced)
            ==> (forall k :: k in Drain(s).entries <==> LiveEntry(s, k))
  {
    RunInvariant(trace, actions, i);
    var s := trace[i];
    forall k ensures k in Drain(s).entries <==> k in s.entries && (LiveEntry(s, k) || !HasMessage(s, k)) {
      DrainExact(s, k);
    }
    assert forall k :: CleanupDue(s, k) ==> HasMessage(s, k);
  }

  ghost predicate Reachable(s: State) {
    exists trace: seq<State>, actions: seq<Action> :: IsRun(trace, actions) && trace[|actions|] == s
  }

  lemma ReachableThen(s: State, a: Action)
    requires Reachable(s) && Enabled(s, a)
    ensures Reachable(Step(s, a))
  {
    var trace: seq<State>, actions: seq<Action> :| IsRun(trace, actions) && trace[|actions|] == s;
    var longer, more := trace + [Step(s, a)], actions + [a];
    forall i | 0 <= i < |more|
      ensures Enabled(longer[i], more[i]) && longer[i + 1] == Step(longer[i], more[i])
    {
      if i < |actions| {
        assert more[i] == actions[i] && longer[i] == trace[i] && longer[i + 1] == trace[i + 1];
      }
    }
    assert IsRun(longer, more) && longer[|more|] == Step(s, a);
  }

  /** Nobody uses the table, nothing is left to clean up, and the entry is there. */
  predicate LeftBehind(s: State, k: Key) {
    s.tasks == map[] && s.queue == [] && s.cleaner == Waiting && k in s.entries
  }

  lemma OneTaskEnters(first: TaskId, k: Key) returns (s: State)
    ensures Reachable(s)
    ensures s == State(map[k := first], map[first := Holding(k, first)], first + 1, map[], [], Waiting, {})
  {
    var s0 := State(map[], map[], first, map[], [], Waiting, {});
    assert IsRun([s0], []);
    ReachableThen(s0, Begin(k));
    var s1 := s0.(tasks := map[first := Looking(k)], nextTask := first + 1);
    assert Step(s0, Begin(k)) == s1;
    ReachableThen(s1, ReadMap(first));
    var s2 := s1.(tasks := map[first := Creating(k)]);
    assert AfterReadMap(s1, first) == s2;
    ReachableThen(s2, WriteMap(first));
    s := s2.(tasks := map[first := Holding(k, first)], entries := map[k := first]);
    assert AfterWriteMap(s2, first) == s;
  }

  /** The promise that a value "is removed from the map" once every entry for its
      key is dropped is not kept: the cleaner may handle the message while the
      sender still owns the value, and then nobody removes the entry. */
  lemma RaceLeavesDeadEntry(first: TaskId, k: Key)
    ensures exists s :: Reachable(s) && LeftBehind(s, k)
  {
    var s3 := OneTaskEnters(first, k);
    ReachableThen(s3, DropGuard(first));
    var s4 := AfterDropGuard(s3, first);
    assert s4.tasks == map[first := Leaving(k, first, false, false)] && s4.queue == [Message(k, first)];
    ReachableThen(s4, CleanerReceive);
    var s5 := s4.(queue := [], cleaner := Cleaning(Message(k, first)));
    assert Step(s4, CleanerReceive) == s5;
    ReachableThen(s5, CleanerRun);
    var s6 := AfterCleanup(s5);
    assert Owns(s5.tasks[first], s5.entries[k]);
    assert s6.tasks == map[first := Leaving(k, first, false, true)] && s6.entries == s5.entries;
    ReachableThen(s6, Release(first));
    assert LeftBehind(AfterRelease(s6, first), k);
  }
}
