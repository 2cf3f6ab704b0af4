/** The two sending trees as the protocol's tables: each tree, read through the
    prefix of a destination, is that destination's set of requests. */
module SendingStore {
  import opened Bytes
  import opened KvTree
  import opened SendingKeys
  import opened SendingProtocol

  function RequestAt(t: Tree, d: Destination, key: Bytes): Request
    requires key in t && Prefix(d) <= key
  {
    var id := key[|Prefix(d)|..];
    Request(d, id, EventOf(id, t[key]))
  }

  /** The requests a scan under `d`'s prefix parses. */
  function Requests(t: Tree, d: Destination): set<Request> {
    set k | k in t && Prefix(d) <= k :: RequestAt(t, d, k)
  }

  lemma PrefixOfKey(d: Destination, id: Bytes)
    ensures Prefix(d) <= Prefix(d) + id
    ensures (Prefix(d) + id)[|Prefix(d)|..] == id
  {
  }

  lemma KeyOfRequest(t: Tree, d: Destination, r: Request)
    ensures r in Requests(t, d) <==>
              r.dest == d && Key(r) in t && r.event == EventOf(r.id, t[Key(r)])
  {
    if r.dest == d && Key(r) in t && r.event == EventOf(r.id, t[Key(r)]) {
      PrefixOfKey(d, r.id);
      assert RequestAt(t, d, Key(r)) == r;
    }
    if r in Requests(t, d) {
      var k :| k in t && Prefix(d) <= k && RequestAt(t, d, k) == r;
      assert k == Prefix(d) + k[|Prefix(d)|..] == Key(r);
    }
  }

  lemma OtherKeys(d: Destination, e: Destination, id: Bytes, r: Request)
    requires WellFormed(d) && WellFormed(e) && r.dest == e
    ensures Key(r) == Prefix(d) + id <==> d == e && r.id == id
  {
    if Key(r) == Prefix(d) + id {
      PrefixOfKey(d, id);
      PrefixSeparatesDestinations(d, e, r.id);
      PrefixOfKey(e, r.id);
    }
  }

  /** Inserting a key that is new, or already holds the same value. */
  lemma InsertRequest(t: Tree, q: Request, e: Destination)
    requires Faithful(q) && WellFormed(e)
    requires Key(q) in t ==> t[Key(q)] == Value(q.event)
    ensures Requests(t[Key(q) := Value(q.event)], e)
         == Requests(t, e) + if e == q.dest then {q} else {}
  {
    var t' := t[Key(q) := Value(q.event)];
    forall r ensures r in Requests(t', e) <==> r in Requests(t, e) || (e == q.dest && r == q) {
      KeyOfRequest(t, e, r);
      KeyOfRequest(t', e, r);
      if r.dest == e {
        OtherKeys(q.dest, e, q.id, r);
      }
    }
  }

  lemma RemoveRequest(t: Tree, q: Request, e: Destination)
    requires WellFormed(q.dest) && WellFormed(e)
    requires Key(q) in t ==> q.event == EventOf(q.id, t[Key(q)])
    ensures Requests(t - {Key(q)}, e) == Requests(t, e) - if e == q.dest then {q} else {}
  {
    forall r ensures r in Requests(t - {Key(q)}, e) <==> r in Requests(t, e) && !(e == q.dest && r == q) {
      KeyOfRequest(t, e, r);
      KeyOfRequest(t - {Key(q)}, e, r);
      if r.dest == e {
        OtherKeys(q.dest, e, q.id, r);
      }
    }
  }

  // ---------------------------------------------------------------------
  // Scans
  // ---------------------------------------------------------------------

  ghost function RequestsAt(t: Tree, d: Destination, keys: seq<Bytes>): set<Request>
    requires forall k :: k in keys ==> k in t && Prefix(d) <= k
  {
    set k | k in keys :: RequestAt(t, d, k)
  }

  lemma RequestAtInjective(t: Tree, d: Destination, k: Bytes, l: Bytes)
    requires k in t && l in t && Prefix(d) <= k && Prefix(d) <= l
    requires RequestAt(t, d, k) == RequestAt(t, d, l)
    ensures k == l
  {
    assert k == Prefix(d) + k[|Prefix(d)|..];
    assert l == Prefix(d) + l[|Prefix(d)|..];
  }

  lemma LastIsNew(keys: seq<Bytes>)
    requires Ascending(keys) && keys != []
    ensures keys[|keys| - 1] !in keys[..|keys| - 1]
  {
    var n := |keys| - 1;
    forall i | 0 <= i < n ensures keys[i] != keys[n] {
      AscendingIsDistinct(keys, i, n);
    }
  }

  lemma LastRequestIsNew(t: Tree, d: Destination, keys: seq<Bytes>)
    requires forall k :: k in keys ==> k in t && Prefix(d) <= k
    requires Ascending(keys) && keys != []
    ensures var init, r := keys[..|keys| - 1], RequestAt(t, d, keys[|keys| - 1]);
            RequestsAt(t, d, keys) == RequestsAt(t, d, init) + {r} && r !in RequestsAt(t, d, init)
  {
    var init, last := keys[..|keys| - 1], keys[|keys| - 1];
    assert forall k :: k in keys <==> k in init || k == last;
    LastIsNew(keys);
    forall k | k in init ensures RequestAt(t, d, k) != RequestAt(t, d, last) {
      if RequestAt(t, d, k) == RequestAt(t, d, last) {
        RequestAtInjective(t, d, k, last);
      }
    }
  }

  lemma {:induction false} DistinctKeysDistinctRequests(t: Tree, d: Destination, keys: seq<Bytes>)
    requires forall k :: k in keys ==> k in t && Prefix(d) <= k
    requires Ascending(keys)
    ensures |RequestsAt(t, d, keys)| == |keys|
  {
    if keys == [] {
      assert RequestsAt(t, d, keys) == {};
    } else {
      var init := keys[..|keys| - 1];
      assert forall k :: k in init ==> k in keys;
      DistinctKeysDistinctRequests(t, d, init);
      LastRequestIsNew(t, d, keys);
    }
  }

  function First<T>(s: seq<T>, n: nat): seq<T> {
    if |s| <= n then s else s[..n]
  }

  /** `queued_requests(..).take(30)`: the first thirty keys in tree order are a
      choice the protocol allows. */
  lemma TakeThirty(t: Tree, d: Destination)
    ensures var keys := First(ScanPrefix(t, Prefix(d)), MAX_BATCH);
            && (forall k :: k in keys ==> k in t && Prefix(d) <= k)
            && Ascending(keys)
            && FirstOf(RequestsAt(t, d, keys), Requests(t, d))
  {
    var all := ScanPrefix(t, Prefix(d));
    var keys := First(all, MAX_BATCH);
    ScanPrefixExact(t, Prefix(d));
    PrefixOfAscending(keys, all);
    assert forall k :: k in keys ==> k in all;
    DistinctKeysDistinctRequests(t, d, keys);
    if |keys| < MAX_BATCH {
      assert keys == all;
      assert RequestsAt(t, d, keys) == Requests(t, d);
    }
  }
}
