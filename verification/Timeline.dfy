/** `load_timeline`: the part of a room's timeline that a sync response carries. */
module Timeline {
  import opened Collections

  type EventId = nat

  /** Backfilled events lie before all others, the later fetched the earlier. */
  datatype PduCount = Backfilled(n: nat) | Normal(n: nat)

  predicate Less(a: PduCount, b: PduCount) {
    match (a, b)
    case (Normal(x), Normal(y)) => x < y
    case (Backfilled(x), Backfilled(y)) => y < x
    case (Backfilled(_), Normal(_)) => true
    case (Normal(_), Backfilled(_)) => false
  }

  lemma LessIsStrictOrder(a: PduCount, b: PduCount, c: PduCount)
    ensures !Less(a, a)
    ensures Less(a, b) && Less(b, c) ==> Less(a, c)
    ensures a == b || Less(a, b) || Less(b, a)
    ensures Less(a, b) <==> Place(a) < Place(b)
  {
  }

  /** Counts from 0 on, and back from -1 for what was fetched later. */
  function Place(c: PduCount): int {
    if c.Normal? then c.n else -1 - c.n
  }

  datatype Pdu = Pdu(count: PduCount, event: EventId)

  /** Newest first, as `pdus_until` iterates. */
  ghost predicate Descending(pdus: seq<Pdu>) {
    forall i, j :: 0 <= i < j < |pdus| ==> Less(pdus[j].count, pdus[i].count)
  }

  ghost predicate Ascending(pdus: seq<Pdu>) {
    forall i, j :: 0 <= i < j < |pdus| ==> Less(pdus[i].count, pdus[j].count)
  }

  function LastCount(pdus: seq<Pdu>): PduCount {
    if pdus == [] then Normal(0) else pdus[0].count
  }

  /** The events after `since`. */
  function After(pdus: seq<Pdu>, since: PduCount): set<Pdu> {
    set p | p in pdus && Less(since, p.count)
  }

  /** In a descending timeline, the events after `since` are its first ones. */
  lemma {:induction false} AfterIsPrefix(pdus: seq<Pdu>, since: PduCount, k: nat)
    requires Descending(pdus) && k <= |pdus|
    requires forall i | 0 <= i < k :: Less(since, pdus[i].count)
    requires k < |pdus| ==> !Less(since, pdus[k].count)
    ensures After(pdus, since) == Elements(pdus[..k])
    ensures |After(pdus, since)| == k
  {
    forall p | p in After(pdus, since)
      ensures p in Elements(pdus[..k])
    {
      var i :| 0 <= i < |pdus| && pdus[i] == p;
      if i >= k {
        LessIsStrictOrder(since, pdus[i].count, pdus[k].count);
      }
      assert pdus[..k][i] == p;
    }
    forall p | p in Elements(pdus[..k])
      ensures p in After(pdus, since)
    {
      var i :| 0 <= i < k && pdus[..k][i] == p;
      assert pdus[i] == p;
    }
    DistinctElements(pdus, k);
  }

  lemma {:induction false} DistinctElements(pdus: seq<Pdu>, k: nat)
    requires Descending(pdus) && k <= |pdus|
    ensures |Elements(pdus[..k])| == k
  {
    if k > 0 {
      DistinctElements(pdus, k - 1);
      assert pdus[..k] == pdus[..k - 1] + [pdus[k - 1]];
      assert Elements(pdus[..k]) == Elements(pdus[..k - 1]) + {pdus[k - 1]};
      assert pdus[k - 1] !in pdus[..k - 1];
    }
  }

  function Reversed(pdus: seq<Pdu>): (r: seq<Pdu>)
    ensures |r| == |pdus|
    ensures forall i | 0 <= i < |r| :: r[i] == pdus[|pdus| - 1 - i]
  {
    if pdus == [] then [] else [pdus[|pdus| - 1]] + Reversed(pdus[..|pdus| - 1])
  }

  /** The newest `limit` events after `since`, oldest first; limited exactly when
      there are more. */
  ghost predicate Newest(pdus: seq<Pdu>, since: PduCount, limit: nat, timeline: seq<Pdu>, limited: bool) {
    var after := After(pdus, since);
    && Ascending(timeline)
    && Elements(timeline) <= after
    && |timeline| == (if |after| < limit then |after| else limit)
    && (forall p, q | p in after && p !in timeline && q in timeline :: Less(p.count, q.count))
    && (limited <==> |after| > limit)
  }

  lemma TakenAreAfter(pdus: seq<Pdu>, since: PduCount, k: nat)
    requires k <= |pdus| && forall i | 0 <= i < k :: Less(since, pdus[i].count)
    ensures Elements(Reversed(pdus[..k])) <= After(pdus, since)
  {
    var timeline := Reversed(pdus[..k]);
    forall p | p in timeline
      ensures p in After(pdus, since)
    {
      var i :| 0 <= i < |timeline| && timeline[i] == p;
      assert pdus[k - 1 - i] == p;
    }
  }

  lemma OthersAreOlder(pdus: seq<Pdu>, k: nat, p: Pdu, q: Pdu)
    requires Descending(pdus) && k <= |pdus|
    requires p in pdus && p !in Reversed(pdus[..k]) && q in Reversed(pdus[..k])
    ensures Less(p.count, q.count)
  {
    var timeline := Reversed(pdus[..k]);
    var i :| 0 <= i < |pdus| && pdus[i] == p;
    var j :| 0 <= j < |timeline| && timeline[j] == q;
    ReversedAt(pdus, k, j);
    if i < k {
      ReversedAt(pdus, k, k - 1 - i);
    }
  }

  lemma ReversedAt(pdus: seq<Pdu>, k: nat, j: nat)
    requires j < k <= |pdus|
    ensures Reversed(pdus[..k])[j] == pdus[k - 1 - j] && pdus[k - 1 - j] in Reversed(pdus[..k])
  {
    var timeline := Reversed(pdus[..k]);
    assert timeline[j] in timeline;
  }

  lemma TakenAreNewest(pdus: seq<Pdu>, since: PduCount, limit: nat, k: nat, limited: bool)
    requires Descending(pdus) && k <= |pdus| && k <= limit
    requires forall i | 0 <= i < k :: Less(since, pdus[i].count)
    requires limited <==> k == limit && k < |pdus| && Less(since, pdus[k].count)
    requires k < limit && k < |pdus| ==> !Less(since, pdus[k].count)
    ensures Newest(pdus, since, limit, Reversed(pdus[..k]), limited)
  {
    var m := AfterCount(pdus, since, k);
    AfterIsPrefix(pdus, since, m);
    TakenAreAfter(pdus, since, k);
    forall p, q | p in After(pdus, since) && p !in Reversed(pdus[..k]) && q in Reversed(pdus[..k])
      ensures Less(p.count, q.count)
    {
      OthersAreOlder(pdus, k, p, q);
    }
  }

  /** How many events lie after `since`, given that the first `k` do. */
  lemma AfterCount(pdus: seq<Pdu>, since: PduCount, k: nat) returns (m: nat)
    requires k <= |pdus| && forall i | 0 <= i < k :: Less(since, pdus[i].count)
    ensures k <= m <= |pdus|
    ensures forall i | 0 <= i < m :: Less(since, pdus[i].count)
    ensures m < |pdus| ==> !Less(since, pdus[m].count)
  {
    m := k;
    while m < |pdus| && Less(since, pdus[m].count)
      invariant k <= m <= |pdus|
      invariant forall i | 0 <= i < m :: Less(since, pdus[i].count)
    {
      m := m + 1;
    }
  }

  method LoadTimeline(pdus: seq<Pdu>, since: PduCount, limit: nat) returns (timeline: seq<Pdu>, limited: bool)
    requires Descending(pdus)
    ensures Newest(pdus, since, limit, timeline, limited)
  {
    if Less(since, LastCount(pdus)) {
      var taken, i := [], 0;
      while i < limit && i < |pdus| && Less(since, pdus[i].count)
        invariant 0 <= i <= |pdus| && i <= limit
        invariant forall j | 0 <= j < i :: Less(since, pdus[j].count)
        invariant taken == pdus[..i]
      {
        taken := taken + [pdus[i]];
        i := i + 1;
      }
      timeline := Reversed(taken);
      limited := i == limit && i < |pdus| && Less(since, pdus[i].count);
      TakenAreNewest(pdus, since, limit, i, limited);
    } else {
      timeline, limited := [], false;
      assert pdus == [] || !Less(since, pdus[0].count);
      TakenAreNewest(pdus, since, limit, 0, false);
      assert Reversed(pdus[..0]) == [];
    }
  }

  /** The response's timeline is decided by these properties. */
  lemma NewestIsUnique(pdus: seq<Pdu>, since: PduCount, limit: nat, s: seq<Pdu>, t: seq<Pdu>, a: bool, b: bool)
    requires Descending(pdus)
    requires Newest(pdus, since, limit, s, a) && Newest(pdus, since, limit, t, b)
    ensures s == t && a == b
  {
    AscendingSize(s);
    AscendingSize(t);
    SameElements(pdus, since, limit, s, t, a, b);
    AscendingIsUnique(s, t);
  }

  lemma SameElements(pdus: seq<Pdu>, since: PduCount, limit: nat, s: seq<Pdu>, t: seq<Pdu>, a: bool, b: bool)
    requires Newest(pdus, since, limit, s, a) && Newest(pdus, since, limit, t, b)
    requires |Elements(s)| == |s| && |Elements(t)| == |t|
    ensures Elements(s) == Elements(t)
  {
    if Elements(s) != Elements(t) {
      var p := OnlyInOne(Elements(s), Elements(t));
      var q := OnlyInOne(Elements(t), Elements(s));
      assert Less(p.count, q.count) && Less(q.count, p.count);
      LessIsStrictOrder(p.count, q.count, p.count);
      assert false;
    }
  }

  /** The last of an ascending list is its greatest. */
  lemma LastIsGreatest(s: seq<Pdu>, p: Pdu)
    requires Ascending(s) && p in s
    ensures p == s[|s| - 1] || Less(p.count, s[|s| - 1].count)
  {
    var i :| 0 <= i < |s| && s[i] == p;
  }

  /** An ascending list is determined by its elements. */
  lemma {:induction false} AscendingIsUnique(s: seq<Pdu>, t: seq<Pdu>)
    requires Ascending(s) && Ascending(t) && Elements(s) == Elements(t)
    ensures s == t
  {
    AscendingSize(s);
    AscendingSize(t);
    if s != [] {
      var n := |s| - 1;
      assert s[n] in Elements(s) && t[n] in Elements(t);
      LastIsGreatest(t, s[n]);
      LastIsGreatest(s, t[n]);
      LessIsStrictOrder(s[n].count, t[n].count, s[n].count);
      assert s[n] == t[n];
      LastIsExtra(s);
      LastIsExtra(t);
      AscendingIsUnique(s[..n], t[..n]);
      assert s == s[..n] + [s[n]] && t == t[..n] + [t[n]];
    }
  }

  lemma LastIsExtra(s: seq<Pdu>)
    requires Ascending(s) && s != []
    ensures Elements(s[..|s| - 1]) == Elements(s) - {s[|s| - 1]}
  {
    var n := |s| - 1;
    assert s == s[..n] + [s[n]];
    assert s[n] !in s[..n];
  }

  lemma OnlyInOne(a: set<Pdu>, b: set<Pdu>) returns (p: Pdu)
    requires |a| == |b| && a != b
    ensures p in a && p !in b
  {
    assert a == a * b + (a - b) && b == a * b + (b - a);
    assert |a| == |a * b| + |a - b| && |b| == |a * b| + |b - a|;
    assert a - b == {} && b - a == {} ==> a == b;
    p :| p in a - b;
  }

  lemma {:induction false} AscendingSize(s: seq<Pdu>)
    requires Ascending(s)
    ensures |Elements(s)| == |s|
  {
    if s != [] {
      var n := |s| - 1;
      AscendingSize(s[..n]);
      assert s == s[..n] + [s[n]];
      assert Elements(s) == Elements(s[..n]) + {s[n]};
      assert s[n] !in s[..n];
    }
  }
}
