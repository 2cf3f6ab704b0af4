/** The prefix watchers: `watch` registers a receiver under a key prefix, `wake`
    signals every prefix of a changed key. Each section under the table's lock is
    one step; `wake` releases its read lock before taking the write lock, so other
    calls run in between. */
module Watchers {

  import opened Bytes

  type WatcherId = nat
  type WakeId = nat
  type Channel = nat

  // ---------------------------------------------------------------------
  // The table and its two lock sections
  // ---------------------------------------------------------------------

  /** Prefixes of `key` shorter than `n` that have a channel, shortest first. */
  function Triggered(channels: map<Bytes, Channel>, key: Bytes, n: nat): seq<Bytes>
    requires n <= |key| + 1
  {
    if n == 0 then []
    else
      var init := Triggered(channels, key, n - 1);
      if key[..n - 1] in channels then init + [key[..n - 1]] else init
  }

  lemma {:induction false} TriggeredExact(channels: map<Bytes, Channel>, key: Bytes, n: nat, p: Bytes)
    requires n <= |key| + 1
    ensures p in Triggered(channels, key, n) <==> p in channels && p <= key && |p| < n
  {
    if n > 0 {
      TriggeredExact(channels, key, n - 1, p);
      if p <= key && |p| == n - 1 {
        assert p == key[..n - 1];
      }
    }
  }

  /** The channels that a wake with these prefixes sends on. */
  function Signals(channels: map<Bytes, Channel>, triggered: seq<Bytes>): set<Channel> {
    set p | p in triggered && p in channels :: channels[p]
  }

  function Without(channels: map<Bytes, Channel>, triggered: seq<Bytes>): map<Bytes, Channel> {
    map p | p in channels && p !in triggered :: channels[p]
  }

  class Table {
    var channels: map<Bytes, Channel>
    var sent: set<Channel>
    var nextChannel: Channel

    constructor ()
      ensures channels == map[] && sent == {} && nextChannel == 0
    {
      channels, sent, nextChannel := map[], {}, 0;
    }

    /** The table as one state of the interleavings below has it. */
    predicate Holds(s: State)
      reads this
    {
      channels == s.channels && sent == s.sent && nextChannel == s.nextChannel
    }

    /** `watch`, up to the future it returns. */
    method Watch(prefix: Bytes, ghost s: State, ghost w: WatcherId) returns (rx: Channel)
      requires Holds(s)
      modifies this
      ensures Holds(AfterWatch(s, w, prefix)) && AfterWatch(s, w, prefix).watchers[w] == Watcher(prefix, rx)
      ensures sent == old(sent)
      ensures prefix in old(channels) ==>
                rx == old(channels)[prefix] && channels == old(channels) && nextChannel == old(nextChannel)
      ensures prefix !in old(channels) ==>
                rx == old(nextChannel) && channels == old(channels)[prefix := rx] && nextChannel == rx + 1
    {
      if prefix in channels {
        rx := channels[prefix];
      } else {
        rx := nextChannel;
        nextChannel := nextChannel + 1;
        channels := channels[prefix := rx];
      }
    }

    /** The first half of `wake`, under the read lock. */
    method Collect(key: Bytes) returns (triggered: seq<Bytes>)
      ensures triggered == Triggered(channels, key, |key| + 1)
    {
      triggered := [];
      for length := 0 to |key| + 1
        invariant triggered == Triggered(channels, key, length)
      {
        if key[..length] in channels {
          triggered := triggered + [key[..length]];
        }
      }
    }

    /** The second half of `wake`, under the write lock. */
    method Fire(triggered: seq<Bytes>, ghost s: State, ghost t: WakeId)
      requires Holds(s) && t in s.wakes && s.wakes[t].Collected? && s.wakes[t].triggered == triggered
      modifies this
      ensures Holds(AfterFire(s, t))
      ensures channels == Without(old(channels), triggered)
      ensures sent == old(sent) + Signals(old(channels), triggered)
      ensures nextChannel == old(nextChannel)
    {
      for i := 0 to |triggered|
        invariant channels == Without(old(channels), triggered[..i])
        invariant sent == old(sent) + Signals(old(channels), triggered[..i])
        invariant nextChannel == old(nextChannel)
      {
        var prefix := triggered[i];
        assert triggered[..i + 1] == triggered[..i] + [prefix];
        if prefix in channels {
          sent := sent + {channels[prefix]};
          channels := channels - {prefix};
        }
      }
      assert triggered[..|triggered|] == triggered;
    }
  }

  // ---------------------------------------------------------------------
  // Interleavings
  // ---------------------------------------------------------------------

  /** A watcher's future resolves once something was sent on its channel. */
  datatype Watcher = Watcher(prefix: Bytes, rx: Channel)

  datatype Wake =
    | Started(key: Bytes)
    | Collected(key: Bytes, triggered: seq<Bytes>)
    | Returned(key: Bytes)

  datatype State = State(
    channels: map<Bytes, Channel>,
    sent: set<Channel>,
    nextChannel: Channel,
    watchers: map<WatcherId, Watcher>,
    wakes: map<WakeId, Wake>)

  datatype Action =
    | DoWatch(w: WatcherId, prefix: Bytes)
    | BeginWake(t: WakeId, key: Bytes)
    | DoCollect(t: WakeId)
    | DoFire(t: WakeId)

  predicate Enabled(s: State, a: Action) {
    match a
    case DoWatch(w, _) => w !in s.watchers
    case BeginWake(t, _) => t !in s.wakes
    case DoCollect(t) => t in s.wakes && s.wakes[t].Started?
    case DoFire(t) => t in s.wakes && s.wakes[t].Collected?
  }

  function AfterWatch(s: State, w: WatcherId, prefix: Bytes): State {
    if prefix in s.channels then
      s.(watchers := s.watchers[w := Watcher(prefix, s.channels[prefix])])
    else
      s.(channels := s.channels[prefix := s.nextChannel],
         nextChannel := s.nextChannel + 1,
         watchers := s.watchers[w := Watcher(prefix, s.nextChannel)])
  }

  /** A wake that collected nothing returns without taking the write lock. */
  function AfterCollect(s: State, t: WakeId): State
    requires t in s.wakes
  {
    var key := s.wakes[t].key;
    var triggered := Triggered(s.channels, key, |key| + 1);
    s.(wakes := s.wakes[t := if triggered == [] then Returned(key) else Collected(key, triggered)])
  }

  function AfterFire(s: State, t: WakeId): State
    requires t in s.wakes && s.wakes[t].Collected?
  {
    var triggered := s.wakes[t].triggered;
    s.(channels := Without(s.channels, triggered),
       sent := s.sent + Signals(s.channels, triggered),
       wakes := s.wakes[t := Returned(s.wakes[t].key)])
  }

  function Step(s: State, a: Action): State
    requires Enabled(s, a)
  {
    match a
    case DoWatch(w, prefix) => AfterWatch(s, w, prefix)
    case BeginWake(t, key) => s.(wakes := s.wakes[t := Started(key)])
    case DoCollect(t) => AfterCollect(s, t)
    case DoFire(t) => AfterFire(s, t)
  }

  const INITIAL := State(map[], {}, 0, map[], map[])

  /** `states[i + 1]` follows from `states[i]` by `actions[i]`. */
  ghost predicate IsRun(states: seq<State>, actions: seq<Action>) {
    && |states| == |actions| + 1
    && states[0] == INITIAL
    && forall i :: 0 <= i < |actions| ==>
         Enabled(states[i], actions[i]) && states[i + 1] == Step(states[i], actions[i])
  }

  predicate Signalled(s: State, w: WatcherId) {
    w in s.watchers && s.watchers[w].rx in s.sent
  }

  // ---------------------------------------------------------------------
  // Invariants
  // ---------------------------------------------------------------------

  ghost predicate TableInv(s: State) {
    && (forall p | p in s.channels :: s.channels[p] < s.nextChannel && s.channels[p] !in s.sent)
    && (forall p, q | p in s.channels && q in s.channels && s.channels[p] == s.channels[q] :: p == q)
    && (forall c | c in s.sent :: c < s.nextChannel)
  }

  /** A watcher not yet signalled still has its channel in the table, and only a
      watcher of that prefix has it. */
  ghost predicate WatcherInv(s: State, w: WatcherId)
    requires w in s.watchers
  {
    var watcher := s.watchers[w];
    && watcher.rx < s.nextChannel
    && (watcher.rx !in s.sent ==> watcher.prefix in s.channels && s.channels[watcher.prefix] == watcher.rx)
    && (forall p | p in s.channels && s.channels[p] == watcher.rx :: p == watcher.prefix)
  }

  ghost predicate Inv(s: State) {
    && TableInv(s)
    && (forall w | w in s.watchers :: WatcherInv(s, w))
  }

  lemma WatchKeepsInv(s: State, w: WatcherId, prefix: Bytes)
    requires Inv(s) && w !in s.watchers
    ensures Inv(AfterWatch(s, w, prefix))
  {
    var after := AfterWatch(s, w, prefix);
    forall v | v in after.watchers
      ensures WatcherInv(after, v)
    {
      if v != w {
        assert WatcherInv(s, v);
      }
    }
  }

  lemma FireKeepsInv(s: State, t: WakeId)
    requires Inv(s) && t in s.wakes && s.wakes[t].Collected?
    ensures Inv(AfterFire(s, t))
  {
    var after := AfterFire(s, t);
    forall v | v in after.watchers
      ensures WatcherInv(after, v)
    {
      assert WatcherInv(s, v);
    }
  }

  lemma OtherStepsKeepInv(s: State, after: State)
    requires Inv(s) && after == s.(wakes := after.wakes)
    ensures Inv(after)
  {
    forall v | v in after.watchers
      ensures WatcherInv(after, v)
    {
      assert WatcherInv(s, v);
    }
  }

  lemma {:induction false} RunInvariant(states: seq<State>, actions: seq<Action>, i: nat)
    requires IsRun(states, actions) && i < |states|
    ensures Inv(states[i])
  {
    if i > 0 {
      RunInvariant(states, actions, i - 1);
      assert Enabled(states[i - 1], actions[i - 1]) && states[i] == Step(states[i - 1], actions[i - 1]);
      match actions[i - 1]
      case DoWatch(w, prefix) => WatchKeepsInv(states[i - 1], w, prefix);
      case BeginWake(t, key) => OtherStepsKeepInv(states[i - 1], states[i]);
      case DoCollect(t) => OtherStepsKeepInv(states[i - 1], states[i]);
      case DoFire(t) => FireKeepsInv(states[i - 1], t);
    }
  }

  // ---------------------------------------------------------------------
  // No lost wake-up, no spurious one
  // ---------------------------------------------------------------------

  /** What wake `t` owes to watcher `w`. */
  predicate Promise(s: State, w: WatcherId, t: WakeId)
    requires w in s.watchers && t in s.wakes
  {
    match s.wakes[t]
    case Started(_) => true
    case Collected(_, triggered) => Signalled(s, w) || s.watchers[w].prefix in triggered
    case Returned(_) => Signalled(s, w)
  }

  lemma StepKeepsPromise(s: State, a: Action, w: WatcherId, t: WakeId)
    requires Enabled(s, a) && Inv(s) && w in s.watchers && t in s.wakes
    requires s.watchers[w].prefix <= s.wakes[t].key
    requires Promise(s, w, t)
    ensures var after := Step(s, a);
            && w in after.watchers && after.watchers[w] == s.watchers[w]
            && t in after.wakes && after.wakes[t].key == s.wakes[t].key
            && Promise(after, w, t)
  {
    assert WatcherInv(s, w);
    if a == DoCollect(t) {
      var key := s.wakes[t].key;
      TriggeredExact(s.channels, key, |key| + 1, s.watchers[w].prefix);
    }
  }

  /** A watcher registered on a prefix of the key before the wake starts has been
      signalled when the wake returns, whatever else happens meanwhile. */
  lemma {:induction false} NoLostWakeUp(states: seq<State>, actions: seq<Action>, i: nat, j: nat, w: WatcherId, t: WakeId)
    requires IsRun(states, actions) && i < j < |states|
    requires w in states[i].watchers && actions[i].BeginWake? && actions[i].t == t
    requires states[i].watchers[w].prefix <= actions[i].key
    ensures w in states[j].watchers && states[j].watchers[w] == states[i].watchers[w]
    ensures t in states[j].wakes && states[j].wakes[t].key == actions[i].key
    ensures Promise(states[j], w, t)
    ensures states[j].wakes[t].Returned? ==> Signalled(states[j], w)
    decreases j
  {
    assert Enabled(states[j - 1], actions[j - 1]) && states[j] == Step(states[j - 1], actions[j - 1]);
    if j > i + 1 {
      NoLostWakeUp(states, actions, i, j - 1, w, t);
      RunInvariant(states, actions, j - 1);
      StepKeepsPromise(states[j - 1], actions[j - 1], w, t);
    }
  }

  /** Some wake on a key under `prefix` fired in one of the steps from `i` to `j`. */
  ghost predicate FiredBetween(states: seq<State>, actions: seq<Action>, i: nat, j: nat, prefix: Bytes)
    requires IsRun(states, actions) && i <= j < |states|
  {
    exists m :: i <= m < j && FiresFor(states, actions, m, prefix)
  }

  predicate FiresFor(states: seq<State>, actions: seq<Action>, m: nat, prefix: Bytes)
    requires m < |actions| && m < |states|
  {
    && actions[m].DoFire? && actions[m].t in states[m].wakes
    && prefix <= states[m].wakes[actions[m].t].key
  }

  /** The prefixes a wake collected are prefixes of its key. */
  lemma {:induction false} CollectedArePrefixes(states: seq<State>, actions: seq<Action>, i: nat, t: WakeId, p: Bytes)
    requires IsRun(states, actions) && i < |states|
    requires t in states[i].wakes && states[i].wakes[t].Collected? && p in states[i].wakes[t].triggered
    ensures p <= states[i].wakes[t].key
  {
    assert i > 0;
    assert Enabled(states[i - 1], actions[i - 1]) && states[i] == Step(states[i - 1], actions[i - 1]);
    if actions[i - 1] == DoCollect(t) {
      var key := states[i].wakes[t].key;
      TriggeredExact(states[i - 1].channels, key, |key| + 1, p);
    } else {
      CollectedArePrefixes(states, actions, i - 1, t, p);
    }
  }

  lemma FireSignalsPrefixes(s: State, t: WakeId, w: WatcherId)
    requires Inv(s) && t in s.wakes && s.wakes[t].Collected? && w in s.watchers
    requires !Signalled(s, w)
    ensures Signalled(AfterFire(s, t), w) <==> s.watchers[w].prefix in s.wakes[t].triggered
  {
    assert WatcherInv(s, w);
  }

  /** A watcher starts unsignalled, and is signalled only after a wake on a key it
      prefixes has fired since it registered. */
  lemma {:induction false} NoSpuriousWakeUp(states: seq<State>, actions: seq<Action>, i: nat, j: nat, w: WatcherId)
    requires IsRun(states, actions) && i < j < |states|
    requires actions[i].DoWatch? && actions[i].w == w
    ensures w in states[j].watchers && states[j].watchers[w].prefix == actions[i].prefix
    ensures Signalled(states[j], w) ==> FiredBetween(states, actions, i, j, actions[i].prefix)
    decreases j
  {
    var m := j - 1;
    assert Enabled(states[m], actions[m]) && states[j] == Step(states[m], actions[m]);
    RunInvariant(states, actions, m);
    if m > i {
      NoSpuriousWakeUp(states, actions, i, m, w);
      if !Signalled(states[m], w) && Signalled(states[j], w) {
        var t := actions[m].t;
        FireSignalsPrefixes(states[m], t, w);
        CollectedArePrefixes(states, actions, m, t, actions[i].prefix);
        assert FiresFor(states, actions, m, actions[i].prefix);
      }
    }
  }

  /** A watcher that registers after the prefixes were collected may be signalled
      by that wake or not: with an older watcher on the same prefix it shares the
      channel, and is. */
  lemma LateWatcherMayBeMissed(key: Bytes)
    ensures var states := [
              INITIAL,
              Step(INITIAL, BeginWake(0, key)),
              Step(Step(INITIAL, BeginWake(0, key)), DoCollect(0)),
              Step(Step(Step(INITIAL, BeginWake(0, key)), DoCollect(0)), DoWatch(0, key))];
            && IsRun(states, [BeginWake(0, key), DoCollect(0), DoWatch(0, key)])
            && states[3].wakes[0].Returned? && !Signalled(states[3], 0)
  {
    var t := Triggered(map[], key, |key| + 1);
    if t != [] {
      TriggeredExact(map[], key, |key| + 1, t[0]);
    }
  }
}
