/** Which keys a handler call moves between the two trees, and in which order it
    hands out their events: said of the trees, without the code that scans them. */
module SendingBatches {
  import opened Collections
  import opened Bytes
  import opened KvTree
  import opened SendingKeys
  import opened SendingProtocol
  import opened SendingStore

  function WithoutKeys(t: Tree, keys: seq<Bytes>): Tree {
    map k | k in t && k !in keys :: t[k]
  }

  function Part(t: Tree, keys: seq<Bytes>): Tree {
    map k | k in keys && k in t :: t[k]
  }

  function Cleared(t: Tree, prefix: Bytes): Tree {
    map k | k in t && !(prefix <= k) :: t[k]
  }

  /** A key of the destination. */
  predicate Under(t: Tree, d: Destination, k: Bytes) {
    k in t && Prefix(d) <= k
  }

  /** The destination's thirty smallest keys, or all if there are fewer. */
  ghost predicate OldestOf(t: Tree, d: Destination, keys: seq<Bytes>) {
    && Ascending(keys) && |keys| <= 30
    && (forall k {:trigger Under(t, d, k)} | k in keys :: Under(t, d, k))
    && (forall k, l {:trigger Under(t, d, l), k in keys} | k in keys && Under(t, d, l) && l !in keys :: Below(k, l))
    && (|keys| < 30 ==> forall l {:trigger Under(t, d, l)} | Under(t, d, l) :: l in keys)
  }

  /** All keys of the destination. */
  ghost predicate AllOf(t: Tree, d: Destination, keys: seq<Bytes>) {
    Ascending(keys) && forall k {:trigger Under(t, d, k)} :: k in keys <==> Under(t, d, k)
  }

  predicate ParsesAs(t: Tree, d: Destination, key: Bytes, e: SendingEvent) {
    key in t && Parse(key, t[key]) == Ok(d, e)
  }

  /** The events are what the keys, one after the other, are parsed as. */
  ghost predicate EventsAt(t: Tree, d: Destination, keys: seq<Bytes>, events: seq<SendingEvent>) {
    && |events| == |keys|
    && forall i {:trigger ParsesAs(t, d, keys[i], events[i])} | 0 <= i < |keys| :: ParsesAs(t, d, keys[i], events[i])
  }

  /** A batch moved from one tree to the other, and handed out. */
  ghost predicate BatchMoved(queued: Tree, active: Tree, queued': Tree, active': Tree, d: Destination,
                             keys: seq<Bytes>, inputs: Option<seq<SendingEvent>>) {
    && OldestOf(queued, d, keys)
    && queued' == WithoutKeys(queued, keys) && active' == active + Part(queued, keys)
    && (inputs.None? <==> keys == []) && (inputs.Some? ==> EventsAt(queued, d, keys, inputs.value))
  }

  lemma FirstComeFirst(all: seq<Bytes>, n: nat, k: Bytes, l: Bytes)
    requires Ascending(all) && n <= |all| && k in all[..n] && l in all && l !in all[..n]
    ensures Below(k, l)
  {
    var i :| 0 <= i < n && all[i] == k;
    assert all == all[..n] + all[n..];
    var j :| 0 <= j < |all| - n && all[n..][j] == l;
    assert all[n + j] == l;
  }

  lemma PrefixIsOldest(t: Tree, d: Destination, all: seq<Bytes>, n: nat)
    requires AllOf(t, d, all) && n <= |all| && n <= 30 && (n < 30 ==> n == |all|)
    ensures OldestOf(t, d, all[..n])
  {
    var keys := all[..n];
    PrefixOfAscending(keys, all);
    forall k | k in keys ensures Under(t, d, k) {
      assert k in all;
    }
    forall k, l | k in keys && Under(t, d, l) && l !in keys ensures Below(k, l) {
      FirstComeFirst(all, n, k, l);
    }
    if n < 30 {
      assert keys == all;
    }
  }

  lemma FirstAreOldest(t: Tree, d: Destination)
    ensures OldestOf(t, d, First(ScanPrefix(t, Prefix(d)), MAX_BATCH))
  {
    var all := ScanPrefix(t, Prefix(d));
    ScanIsAll(t, d);
    PrefixIsOldest(t, d, all, if |all| <= 30 then |all| else 30);
    assert all[..|all|] == all;
  }

  lemma NoBatch(queued: Tree, active: Tree, d: Destination)
    requires OldestOf(queued, d, [])
    ensures BatchMoved(queued, active, queued, active, d, [], None)
  {
    assert WithoutKeys(queued, []) == queued && active + Part(queued, []) == active;
  }

  lemma ScanIsAll(t: Tree, d: Destination)
    ensures AllOf(t, d, ScanPrefix(t, Prefix(d)))
  {
    ScanPrefixExact(t, Prefix(d));
  }

  // ---------------------------------------------------------------------
  // One write after the other
  // ---------------------------------------------------------------------

  function Taken(queued: Tree, events: seq<(SendingEvent, Bytes)>): Tree {
    if events == [] then queued else Taken(queued, events[..|events| - 1]) - {events[|events| - 1].1}
  }

  function Given(active: Tree, events: seq<(SendingEvent, Bytes)>): Tree {
    if events == [] then active
    else
      var last := events[|events| - 1];
      Given(active, events[..|events| - 1])[last.1 := Value(last.0)]
  }

  lemma OneMoreMoved(queued: Tree, active: Tree, events: seq<(SendingEvent, Bytes)>, i: nat)
    requires i < |events|
    ensures Taken(queued, events[..i + 1]) == Taken(queued, events[..i]) - {events[i].1}
    ensures Given(active, events[..i + 1]) == Given(active, events[..i])[events[i].1 := Value(events[i].0)]
  {
    assert events[..i + 1][..i] == events[..i];
  }

  lemma OneMoved(queued: Tree, active: Tree, e: SendingEvent, key: Bytes)
    ensures Taken(queued, [(e, key)]) == queued - {key} && Given(active, [(e, key)]) == active[key := Value(e)]
  {
    assert [(e, key)][..0] == [];
  }

  /** The events of the keys, with the keys. */
  ghost predicate ReadFrom(t: Tree, keys: seq<Bytes>, events: seq<(SendingEvent, Bytes)>) {
    && |events| == |keys|
    && forall i {:trigger events[i]} | 0 <= i < |keys| ::
         events[i].1 == keys[i] && keys[i] in t && Value(events[i].0) == t[keys[i]]
  }

  lemma {:induction false} MovedBatch(queued: Tree, active: Tree, keys: seq<Bytes>, events: seq<(SendingEvent, Bytes)>)
    requires ReadFrom(queued, keys, events)
    ensures Taken(queued, events) == WithoutKeys(queued, keys)
    ensures Given(active, events) == active + Part(queued, keys)
  {
    if events == [] {
      assert WithoutKeys(queued, []) == queued && active + Part(queued, []) == active;
    } else {
      var n := |keys| - 1;
      MovedBatch(queued, active, keys[..n], events[..n]);
      assert events[n].1 == keys[n];
      WithoutOneMore(queued, keys, n);
      PartOneMore(queued, active, keys, n);
    }
  }

  lemma WithoutOneMore(t: Tree, keys: seq<Bytes>, n: nat)
    requires n < |keys| && n == |keys| - 1
    ensures WithoutKeys(t, keys[..n]) - {keys[n]} == WithoutKeys(t, keys)
  {
    assert keys == keys[..n] + [keys[n]];
  }

  lemma WithoutWritten(before: Tree, after: Tree, keys: seq<Bytes>, k: Bytes, v: Bytes)
    requires WithoutKeys(after, keys) == WithoutKeys(before, keys)
    ensures WithoutKeys(after[k := v], keys + [k]) == WithoutKeys(before, keys + [k])
  {
    var all := keys + [k];
    assert all[..|keys|] == keys;
    WithoutOneMore(after[k := v], all, |keys|);
    WithoutOneMore(before, all, |keys|);
    assert WithoutKeys(after[k := v], keys) - {k} == WithoutKeys(after, keys) - {k};
  }

  lemma PartOneMore(t: Tree, active: Tree, keys: seq<Bytes>, n: nat)
    requires n == |keys| - 1 && n < |keys| && keys[n] in t
    ensures (active + Part(t, keys[..n]))[keys[n] := t[keys[n]]] == active + Part(t, keys)
  {
    assert keys == keys[..n] + [keys[n]];
  }

  // ---------------------------------------------------------------------
  // The start-up scan
  // ---------------------------------------------------------------------

  predicate InKeyOrder(scan: seq<Request>) {
    forall i, j | 0 <= i < j < |scan| :: Below(Key(scan[i]), Key(scan[j]))
  }

  /** The scan goes on with a larger key. */
  lemma OrderGrows(keys: seq<Bytes>, i: nat, scan: seq<Request>, r: Request)
    requires Ascending(keys) && i < |keys| && InKeyOrder(scan) && Key(r) == keys[i]
    requires forall q | q in scan :: Key(q) in keys[..i]
    ensures InKeyOrder(scan + [r])
  {
    forall j | 0 <= j < |scan| ensures Below(Key(scan[j]), Key(r)) {
      assert scan[j] in scan;
      var m :| 0 <= m < i && keys[..i][m] == Key(scan[j]);
    }
  }

  /** A part of the scan, in its order, for one destination. */
  predicate PartInOrder(group: seq<Request>, scan: seq<Request>, d: Destination) {
    InKeyOrder(group) && forall r | r in group :: r in scan && r.dest == d
  }

  lemma PartGrows(group: seq<Request>, init: seq<Request>, last: Request, d: Destination)
    requires PartInOrder(group, init, d) && InKeyOrder(init + [last])
    ensures PartInOrder(group, init + [last], d)
    ensures last.dest == d ==> PartInOrder(group + [last], init + [last], d)
  {
    var scan := init + [last];
    forall i | 0 <= i < |group| ensures Below(Key(group[i]), Key(last)) {
      assert group[i] in init;
      var j :| 0 <= j < |init| && init[j] == group[i];
      assert scan[j] == group[i] && scan[|init|] == last;
    }
  }

  /** Every group keeps the order of the scan. */
  lemma {:induction false} GroupsInOrder(scan: seq<Request>, d: Destination)
    requires InKeyOrder(scan)
    ensures d in Group(scan).groups ==> PartInOrder(Group(scan).groups[d], scan, d)
  {
    if scan != [] {
      var init, last := scan[..|scan| - 1], scan[|scan| - 1];
      GroupsInOrder(init, d);
      assert scan == init + [last];
      PartGrows(if d in Group(init).groups then Group(init).groups[d] else [], init, last, d);
    }
  }

  function KeysOf(reqs: seq<Request>): (keys: seq<Bytes>)
    ensures |keys| == |reqs|
  {
    seq(|reqs|, i requires 0 <= i < |reqs| => Key(reqs[i]))
  }

  /** A group in key order that holds all of a destination's requests. */
  lemma GroupKeys(t: Tree, d: Destination, group: seq<Request>, events: seq<SendingEvent>)
    requires WellFormed(d) && InKeyOrder(group) && Elements(group) == Requests(t, d)
    requires |events| == |group| && forall i | 0 <= i < |group| :: events[i] == group[i].event
    ensures AllOf(t, d, KeysOf(group)) && EventsAt(t, d, KeysOf(group), events)
  {
    var keys := KeysOf(group);
    forall i | 0 <= i < |group| ensures Under(t, d, keys[i]) && ParsesAs(t, d, keys[i], events[i]) {
      assert group[i] in Elements(group);
      ReadAs(t, d, group[i]);
    }
    forall k | Under(t, d, k) ensures k in keys {
      GroupHasKey(t, d, group, k);
    }
    forall k | k in keys ensures Under(t, d, k) {
      var i :| 0 <= i < |keys| && keys[i] == k;
    }
  }

  lemma GroupHasKey(t: Tree, d: Destination, group: seq<Request>, k: Bytes)
    requires Elements(group) == Requests(t, d) && Under(t, d, k)
    ensures k in KeysOf(group)
  {
    var r := RequestAt(t, d, k);
    assert r in Requests(t, d);
    var i :| 0 <= i < |group| && group[i] == r;
    assert k == Prefix(d) + k[|Prefix(d)|..] == KeysOf(group)[i];
  }

  lemma ReadAs(t: Tree, d: Destination, r: Request)
    requires WellFormed(d) && r in Requests(t, d)
    ensures Under(t, d, Key(r)) && ParsesAs(t, d, Key(r), r.event)
  {
    KeyOfRequest(t, d, r);
    PrefixOfKey(d, r.id);
    EventSurvivesStorage(r);
  }
}
