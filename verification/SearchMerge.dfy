/** The k-way merge of `search_events_route` and its paging. */
module SearchMerge {
  import opened Collections
  import opened Bytes
  import opened CommonElements

  type Streams = seq<seq<Bytes>>

  predicate AllSorted(streams: Streams) {
    forall k :: 0 <= k < |streams| ==> Sorted(ByKeyDescending, streams[k])
  }

  /** `peek` compared as an option: nothing comes before everything. */
  predicate PeekAtMost(a: seq<Bytes>, b: seq<Bytes>) {
    a == [] || (b != [] && AtMost(a[0], b[0]))
  }

  predicate IsBest(streams: Streams, best: nat) {
    && best < |streams|
    && (forall l :: 0 <= l < |streams| ==> PeekAtMost(streams[l], streams[best]))
    && (forall l :: best < l < |streams| ==> !PeekAtMost(streams[best], streams[l]))
  }

  lemma PeekTransitive(a: seq<Bytes>, b: seq<Bytes>, c: seq<Bytes>)
    requires PeekAtMost(a, b) && PeekAtMost(b, c)
    ensures PeekAtMost(a, c)
  {
    if a != [] && a[0] != b[0] && b[0] != c[0] {
      BelowTransitive(a[0], b[0], c[0]);
    }
  }

  lemma PeekConnected(a: seq<Bytes>, b: seq<Bytes>)
    ensures PeekAtMost(a, b) || PeekAtMost(b, a)
  {
    if a != [] && b != [] {
      BelowConnected(a[0], b[0]);
    }
  }

  /** `max_by_key` over the peeked elements: the last of the largest. */
  function Best(streams: Streams): (best: nat)
    requires streams != []
    ensures IsBest(streams, best)
  {
    var n := |streams| - 1;
    if n == 0 then 0
    else
      var b := Best(streams[..n]);
      BestOfTwo(streams, b);
      if PeekAtMost(streams[b], streams[n]) then n else b
  }

  lemma BestOfTwo(streams: Streams, b: nat)
    requires |streams| > 1 && IsBest(streams[..|streams| - 1], b)
    ensures IsBest(streams, if PeekAtMost(streams[b], streams[|streams| - 1]) then |streams| - 1 else b)
  {
    var n := |streams| - 1;
    assert forall l :: 0 <= l < n ==> streams[..n][l] == streams[l];
    if PeekAtMost(streams[b], streams[n]) {
      forall l | 0 <= l < n ensures PeekAtMost(streams[l], streams[n]) {
        PeekTransitive(streams[l], streams[b], streams[n]);
      }
    } else {
      PeekConnected(streams[b], streams[n]);
    }
  }

  // ---------------------------------------------------------------------
  // What the merge must yield
  // ---------------------------------------------------------------------

  function Remaining(streams: Streams): multiset<Bytes> {
    if streams == [] then multiset{}
    else Remaining(streams[..|streams| - 1]) + multiset(streams[|streams| - 1])
  }

  function Total(streams: Streams): nat {
    if streams == [] then 0
    else Total(streams[..|streams| - 1]) + |streams[|streams| - 1]|
  }

  function Advanced(streams: Streams, k: nat): Streams
    requires k < |streams| && streams[k] != []
  {
    streams[k := streams[k][1..]]
  }

  lemma {:induction false} AdvancedRemaining(streams: Streams, k: nat)
    requires k < |streams| && streams[k] != []
    ensures Remaining(streams) == Remaining(Advanced(streams, k)) + multiset{streams[k][0]}
    ensures Total(streams) == Total(Advanced(streams, k)) + 1
  {
    var n := |streams| - 1;
    var after := Advanced(streams, k);
    if k == n {
      assert after[..n] == streams[..n];
      assert streams[n] == [streams[n][0]] + streams[n][1..];
    } else {
      AdvancedRemaining(streams[..n], k);
      assert after[..n] == Advanced(streams[..n], k);
    }
  }

  lemma {:induction false} RemainingHas(streams: Streams, e: Bytes)
    ensures e in Remaining(streams) <==> exists k :: 0 <= k < |streams| && e in streams[k]
  {
    if streams != [] {
      var n := |streams| - 1;
      RemainingHas(streams[..n], e);
      if k :| 0 <= k < n && e in streams[k] {
        assert streams[..n][k] == streams[k];
      }
    }
  }

  lemma {:induction false} NothingLeft(streams: Streams)
    ensures Total(streams) == |Remaining(streams)|
    ensures Total(streams) == 0 <==> forall k :: 0 <= k < |streams| ==> streams[k] == []
  {
    if streams != [] {
      var n := |streams| - 1;
      NothingLeft(streams[..n]);
      assert forall k :: 0 <= k < n ==> streams[..n][k] == streams[k];
    }
  }

  /** Descending, with nothing left over that is larger. */
  predicate DescendingAbove(s: seq<Bytes>, rest: multiset<Bytes>) {
    && (forall i, j :: 0 <= i < j < |s| ==> AtMost(s[j], s[i]))
    && (forall i, e :: 0 <= i < |s| && e in rest ==> AtMost(e, s[i]))
  }

  /** The largest `|s|` elements of `all` in descending order, and the rest. */
  predicate Largest(s: seq<Bytes>, rest: multiset<Bytes>, all: multiset<Bytes>) {
    multiset(s) + rest == all && DescendingAbove(s, rest)
  }

  lemma LargestFirst(s: seq<Bytes>, rest: multiset<Bytes>, all: multiset<Bytes>, e: Bytes)
    requires Largest(s, rest, all) && s != [] && e in all
    ensures AtMost(e, s[0])
  {
    if e !in rest {
      assert multiset(s)[e] > 0;
      assert e in s;
    }
  }

  lemma LargestTail(s: seq<Bytes>, rest: multiset<Bytes>, all: multiset<Bytes>)
    requires Largest(s, rest, all) && s != []
    ensures Largest(s[1..], rest, all - multiset{s[0]})
  {
    assert s == [s[0]] + s[1..];
    assert multiset(s) == multiset{s[0]} + multiset(s[1..]);
  }

  lemma SameHead(s: seq<Bytes>, rest: multiset<Bytes>, s': seq<Bytes>, rest': multiset<Bytes>, all: multiset<Bytes>)
    requires Largest(s, rest, all) && Largest(s', rest', all) && s != [] && s' != []
    ensures s[0] == s'[0]
  {
    var a, b := s[0], s'[0];
    assert multiset(s)[a] > 0 && multiset(s')[b] > 0;
    LargestFirst(s, rest, all, b);
    LargestFirst(s', rest', all, a);
    BelowIrreflexive(a);
    if a != b {
      BelowTransitive(a, b, a);
    }
  }

  /** There is only one such list of each length. */
  lemma {:induction false} LargestIsUnique(s: seq<Bytes>, rest: multiset<Bytes>, s': seq<Bytes>, rest': multiset<Bytes>, all: multiset<Bytes>)
    requires Largest(s, rest, all) && Largest(s', rest', all) && |s| <= |s'|
    ensures s == s'[..|s|]
  {
    if s != [] {
      SameHead(s, rest, s', rest', all);
      LargestTail(s, rest, all);
      LargestTail(s', rest', all);
      LargestIsUnique(s[1..], rest, s'[1..], rest', all - multiset{s[0]});
      assert s == [s[0]] + s[1..];
      assert s'[..|s|] == [s'[0]] + s'[1..][..|s| - 1];
    }
  }

  // ---------------------------------------------------------------------
  // One step of the merge
  // ---------------------------------------------------------------------

  lemma BestHeadIsLargest(streams: Streams, e: Bytes)
    requires AllSorted(streams) && streams != [] && e in Remaining(streams)
    ensures streams[Best(streams)] != [] && AtMost(e, streams[Best(streams)][0])
  {
    RemainingHas(streams, e);
    var k :| 0 <= k < |streams| && e in streams[k];
    var j :| 0 <= j < |streams[k]| && streams[k][j] == e;
    var head := streams[Best(streams)];
    assert PeekAtMost(streams[k], head);
    if 0 < j && e != streams[k][0] && streams[k][0] != head[0] {
      BelowTransitive(e, streams[k][0], head[0]);
    }
  }

  lemma AdvancedSorted(streams: Streams, k: nat)
    requires AllSorted(streams) && k < |streams| && streams[k] != []
    ensures AllSorted(Advanced(streams, k))
  {
  }

  lemma LargestExtends(s: seq<Bytes>, head: Bytes, rest: multiset<Bytes>, all: multiset<Bytes>)
    requires Largest(s, rest + multiset{head}, all)
    requires forall e :: e in rest ==> AtMost(e, head)
    ensures Largest(s + [head], rest, all)
  {
    assert multiset(s + [head]) == multiset(s) + multiset{head};
    assert head in rest + multiset{head};
    forall i, e | 0 <= i < |s| && e in rest ensures AtMost(e, s[i]) {
      assert e in rest + multiset{head};
    }
  }

  lemma MergeOne(results: seq<Bytes>, left: Streams, all: multiset<Bytes>)
    requires AllSorted(left) && left != [] && left[Best(left)] != []
    requires Largest(results, Remaining(left), all)
    ensures var b := Best(left);
            Largest(results + [left[b][0]], Remaining(Advanced(left, b)), all)
  {
    var b := Best(left);
    AdvancedRemaining(left, b);
    forall e | e in Remaining(Advanced(left, b)) ensures AtMost(e, left[b][0]) {
      assert e in Remaining(left);
      BestHeadIsLargest(left, e);
    }
    LargestExtends(results, left[b][0], Remaining(Advanced(left, b)), all);
  }

  lemma NoneIsBest(left: Streams)
    requires left != [] && left[Best(left)] == []
    ensures Total(left) == 0
  {
    NothingLeft(left);
    assert forall l :: 0 <= l < |left| ==> PeekAtMost(left[l], left[Best(left)]);
  }

  /** The merge loop: the largest `n` elements of all streams, in descending
      order, or all of them when there are fewer. */
  method Merge(streams: Streams, n: nat) returns (results: seq<Bytes>, left: Streams)
    requires AllSorted(streams)
    ensures Largest(results, Remaining(left), Remaining(streams))
    ensures Total(left) == Total(streams) - |results|
    ensures |results| == if n < Total(streams) then n else Total(streams)
  {
    results, left := [], streams;
    for i := 0 to n
      invariant AllSorted(left) && Largest(results, Remaining(left), Remaining(streams))
      invariant Total(left) == Total(streams) - |results|
      invariant |results| == if i < Total(streams) then i else Total(streams)
    {
      if left != [] {
        var b := Best(left);
        if left[b] != [] {
          MergeOne(results, left, Remaining(streams));
          AdvancedRemaining(left, b);
          AdvancedSorted(left, b);
          results := results + [left[b][0]];
          left := Advanced(left, b);
        } else {
          NoneIsBest(left);
        }
      }
    }
  }

  // ---------------------------------------------------------------------
  // Paging
  // ---------------------------------------------------------------------

  /** All elements of all streams in descending order. */
  predicate IsFullMerge(full: seq<Bytes>, streams: Streams) {
    Largest(full, multiset{}, Remaining(streams))
  }

  function Page(full: seq<Bytes>, skip: nat, limit: nat): seq<Bytes> {
    if skip >= |full| then []
    else if skip + limit >= |full| then full[skip..]
    else full[skip..skip + limit]
  }

  function NextBatch(full: seq<Bytes>, skip: nat, limit: nat): Option<nat> {
    if skip + limit < |full| then Some(skip + limit) else None
  }

  lemma PageOfPrefix(full: seq<Bytes>, skip: nat, limit: nat, results: seq<Bytes>)
    requires |results| == (if skip + limit < |full| then skip + limit else |full|)
    requires results == full[..|results|]
    ensures Page(full, skip, limit) == if skip <= |results| then results[skip..] else []
  {
  }

  /** One request: a window of the full merge, before filtering by visibility. */
  method SearchPage(streams: Streams, skip: nat, limit: nat, ghost full: seq<Bytes>)
    returns (page: seq<Bytes>, next: Option<nat>)
    requires AllSorted(streams) && IsFullMerge(full, streams)
    ensures page == Page(full, skip, limit) && next == NextBatch(full, skip, limit)
  {
    var results, left := Merge(streams, skip + limit);
    NothingLeft(streams);
    NothingLeft(left);
    assert |multiset(full)| == |Remaining(streams)|;
    LargestIsUnique(results, Remaining(left), full, multiset{}, Remaining(streams));
    PageOfPrefix(full, skip, limit, results);
    page := if skip <= |results| then results[skip..] else [];
    var more := exists k :: 0 <= k < |left| && left[k] != [];
    next := if more then Some(skip + limit) else None;
  }

  /** A client that feeds every `next_batch` into the next request: the token of
      its request `n`, if it comes to that. */
  function Token(full: seq<Bytes>, skip: nat, limit: nat, n: nat): Option<nat> {
    if n == 0 then Some(skip)
    else
      match Token(full, skip, limit, n - 1)
      case None => None
      case Some(at) => NextBatch(full, at, limit)
  }

  /** How far `n` pages reach. */
  function Span(limit: nat, n: nat): nat {
    if n == 0 then 0 else Span(limit, n - 1) + limit
  }

  lemma {:induction false} SpanIsProduct(limit: nat, n: nat)
    ensures Span(limit, n) == n * limit
  {
    if n > 0 {
      SpanIsProduct(limit, n - 1);
    }
  }

  /** What its first `n` requests bring together. */
  function Gathered(full: seq<Bytes>, skip: nat, limit: nat, n: nat): seq<Bytes> {
    if n == 0 then []
    else
      Gathered(full, skip, limit, n - 1) +
      match Token(full, skip, limit, n - 1)
      case None => []
      case Some(at) => Page(full, at, limit)
  }

  /** Each token is one page further, while something lies beyond it. */
  lemma {:induction false} TokenExactly(full: seq<Bytes>, skip: nat, limit: nat, n: nat)
    ensures Token(full, skip, limit, n) ==
              if n == 0 || skip + Span(limit, n) < |full| then Some(skip + Span(limit, n)) else None
  {
    if n > 0 {
      TokenExactly(full, skip, limit, n - 1);
    }
  }

  /** Two windows that follow one another are one window. */
  lemma PagesJoin(full: seq<Bytes>, skip: nat, a: nat, b: nat)
    ensures Page(full, skip, a) + Page(full, skip + a, b) == Page(full, skip, a + b)
  {
  }

  /** One more request of a chain that has come `a` elements far. */
  lemma GatherNext(full: seq<Bytes>, skip: nat, limit: nat, n: nat, a: nat)
    requires n > 0 && (n == 1 ==> a == 0) && Gathered(full, skip, limit, n - 1) == Page(full, skip, a)
    requires Token(full, skip, limit, n - 1) == if n == 1 || skip + a < |full| then Some(skip + a) else None
    ensures Gathered(full, skip, limit, n) == Page(full, skip, a + limit)
  {
    PagesJoin(full, skip, a, limit);
  }

  /** The pages chained by `next_batch` are the full merge without gap or repeat:
      `n` of them are one page of `n` times the size. */
  lemma {:induction false} PagesAreTheMerge(full: seq<Bytes>, skip: nat, limit: nat, n: nat)
    ensures Gathered(full, skip, limit, n) == Page(full, skip, Span(limit, n))
  {
    if n > 0 {
      PagesAreTheMerge(full, skip, limit, n - 1);
      TokenExactly(full, skip, limit, n - 1);
      GatherNext(full, skip, limit, n, Span(limit, n - 1));
    }
  }

  /** When there is no further token, the client has all that follows `skip`. */
  lemma ChainIsComplete(full: seq<Bytes>, skip: nat, limit: nat, n: nat)
    requires Token(full, skip, limit, n).None?
    ensures Gathered(full, skip, limit, n) == if skip <= |full| then full[skip..] else []
  {
    TokenExactly(full, skip, limit, n);
    PagesAreTheMerge(full, skip, limit, n);
  }

  /** Chaining comes to an end if and only if the limit is positive or nothing
      lies beyond the first token: with a limit of zero the same token comes back
      for ever while results remain. */
  lemma ChainEndsExactly(full: seq<Bytes>, skip: nat, limit: nat)
    ensures (exists n :: Token(full, skip, limit, n).None?) <==> limit > 0 || skip >= |full|
  {
    if limit > 0 || skip >= |full| {
      TokenExactly(full, skip, limit, |full| + 1);
      SpanIsProduct(limit, |full| + 1);
      assert limit > 0 ==> (|full| + 1) * limit >= |full| + 1;
      assert Token(full, skip, limit, |full| + 1).None?;
    } else {
      forall n ensures Token(full, skip, limit, n).Some? {
        TokenExactly(full, skip, limit, n);
        SpanIsProduct(limit, n);
      }
    }
  }

  /** Descending streams always have a full merge. */
  lemma {:induction false} FullMerge(streams: Streams) returns (full: seq<Bytes>)
    requires AllSorted(streams)
    ensures IsFullMerge(full, streams)
    decreases Total(streams)
  {
    NothingLeft(streams);
    if Total(streams) == 0 {
      full := [];
      assert Remaining(streams) == multiset{};
    } else {
      var b := Best(streams);
      if streams[b] == [] {
        NoneIsBest(streams);
      }
      AdvancedRemaining(streams, b);
      AdvancedSorted(streams, b);
      var rest := FullMerge(Advanced(streams, b));
      full := [streams[b][0]] + rest;
      forall e | e in rest ensures AtMost(e, streams[b][0]) {
        assert multiset(rest)[e] > 0;
        BestHeadIsLargest(streams, e);
      }
    }
  }
}
