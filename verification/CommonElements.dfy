/** `common_elements`: intersection of sorted streams that advance lazily. */
module CommonElements {
  import opened Collections
  import opened Bytes

  datatype Ordering = Less | Equal | Greater

  /** `check_order`. */
  type Comparison = (Bytes, Bytes) -> Ordering

  /** A comparison that orders all byte strings. */
  ghost predicate Lawful(o: Comparison) {
    && (forall a, b :: Consistent(o, a, b))
    && (forall a, b, c {:trigger Chain(o, a, b, c)} :: Chain(o, a, b, c) ==> o(a, c).Less?)
  }

  predicate Consistent(o: Comparison, a: Bytes, b: Bytes) {
    && (o(a, b).Equal? <==> a == b)
    && (o(a, b).Less? <==> o(b, a).Greater?)
  }

  predicate Chain(o: Comparison, a: Bytes, b: Bytes, c: Bytes) {
    o(a, b).Less? && o(b, c).Less?
  }

  predicate Before(o: Comparison, a: Bytes, b: Bytes) {
    o(a, b).Less?
  }

  predicate Sorted(o: Comparison, s: seq<Bytes>) {
    forall i, j :: 0 <= i < j < |s| ==> s[i] == s[j] || Before(o, s[i], s[j])
  }

  /** The order of the trees, and its reverse, by which the server's own streams
      are sorted. */
  function ByKey(a: Bytes, b: Bytes): Ordering {
    if a == b then Equal else if Below(a, b) then Less else Greater
  }

  function ByKeyDescending(a: Bytes, b: Bytes): Ordering {
    ByKey(b, a)
  }

  lemma KeyOrderIsLawful()
    ensures Lawful(ByKey) && Lawful(ByKeyDescending)
  {
    forall a, b ensures Consistent(ByKey, a, b) && Consistent(ByKeyDescending, a, b) {
      BelowConnected(a, b);
      BelowIrreflexive(a);
      if Below(a, b) && Below(b, a) {
        BelowTransitive(a, b, a);
      }
    }
    forall a, b, c | Chain(ByKey, a, b, c) ensures ByKey(a, c).Less? {
      BelowTransitive(a, b, c);
      BelowIrreflexive(a);
    }
    forall a, b, c | Chain(ByKeyDescending, a, b, c) ensures ByKeyDescending(a, c).Less? {
      assert Chain(ByKey, c, b, a);
    }
  }

  predicate InAll(e: Bytes, streams: seq<seq<Bytes>>) {
    forall k :: 0 <= k < |streams| ==> e in streams[k]
  }

  /** The elements of `s` that occur in every other stream, in order. */
  function Common(s: seq<Bytes>, others: seq<seq<Bytes>>): seq<Bytes> {
    if s == [] then []
    else
      var init, last := s[..|s| - 1], s[|s| - 1];
      Common(init, others) + if InAll(last, others) then [last] else []
  }

  /** Everything a stream has skipped lies before the targets still to come. */
  ghost predicate Behind(o: Comparison, s: seq<Bytes>, pos: nat, targets: seq<Bytes>) {
    && pos <= |s|
    && forall j, m :: 0 <= j < pos && 0 <= m < |targets| ==> Before(o, s[j], targets[m])
  }

  /** The `while let` loop over one peekable stream. */
  method Advance(o: Comparison, s: seq<Bytes>, start: nat, target: Bytes, ghost later: seq<Bytes>)
    returns (pos: nat, found: bool)
    requires Lawful(o) && Sorted(o, s) && Sorted(o, [target] + later) && Behind(o, s, start, [target] + later)
    ensures found <==> target in s
    ensures Behind(o, s, pos, later)
  {
    pos := start;
    while pos < |s|
      invariant Behind(o, s, pos, [target] + later)
    {
      BehindLater(o, s, pos, target, later);
      assert Consistent(o, s[pos], target) && Consistent(o, target, s[pos]);
      match o(s[pos], target) {
        case Greater =>
          NotAhead(o, s, pos, target, [target] + later);
          return pos, false;
        case Equal =>
          return pos, true;
        case Less =>
          AllAhead(o, s[pos], target, later);
          pos := pos + 1;
      }
    }
    found := false;
    BehindLater(o, s, pos, target, later);
  }

  lemma BehindLater(o: Comparison, s: seq<Bytes>, pos: nat, target: Bytes, later: seq<Bytes>)
    requires Lawful(o) && Behind(o, s, pos, [target] + later)
    ensures Behind(o, s, pos, later) && target !in s[..pos]
  {
    var targets := [target] + later;
    assert forall m :: 0 <= m < |later| ==> targets[m + 1] == later[m];
    assert targets[0] == target && Consistent(o, target, target);
  }

  lemma AllAhead(o: Comparison, e: Bytes, target: Bytes, later: seq<Bytes>)
    requires Lawful(o) && Before(o, e, target) && Sorted(o, [target] + later)
    ensures forall m | 0 <= m < |[target] + later| :: Before(o, e, ([target] + later)[m])
  {
    var targets := [target] + later;
    forall m | 0 <= m < |targets| ensures Before(o, e, targets[m]) {
      assert m > 0 ==> targets[0] == targets[m] || Before(o, targets[0], targets[m]);
      assert targets[m] != target ==> Chain(o, e, target, targets[m]);
    }
  }

  lemma NotAhead(o: Comparison, s: seq<Bytes>, pos: nat, target: Bytes, targets: seq<Bytes>)
    requires Lawful(o) && Sorted(o, s) && pos < |s| && Before(o, target, s[pos])
    requires targets != [] && targets[0] == target && Behind(o, s, pos, targets)
    ensures target !in s
  {
    assert Consistent(o, target, target);
    forall j | 0 <= j < |s| ensures s[j] != target {
      if pos < j {
        assert s[pos] == s[j] || Before(o, s[pos], s[j]);
        assert s[pos] != s[j] ==> Chain(o, target, s[pos], s[j]);
      }
    }
  }

  /** The `all` over the other streams, which stops at the first that lacks the
      target and leaves the rest where they were. */
  method AllContain(o: Comparison, others: seq<seq<Bytes>>, start: seq<nat>, target: Bytes, ghost later: seq<Bytes>)
    returns (pos: seq<nat>, found: bool)
    requires Lawful(o) && |start| == |others| && Sorted(o, [target] + later)
    requires forall k :: 0 <= k < |others| ==> Sorted(o, others[k]) && Behind(o, others[k], start[k], [target] + later)
    ensures found <==> InAll(target, others)
    ensures |pos| == |others|
    ensures forall k :: 0 <= k < |others| ==> Behind(o, others[k], pos[k], later)
  {
    pos := start;
    ghost var targets := [target] + later;
    assert forall m :: 0 <= m < |later| ==> targets[m + 1] == later[m];
    var k := 0;
    while k < |others|
      invariant 0 <= k <= |others| == |pos|
      invariant forall l :: 0 <= l < |others| ==> Behind(o, others[l], pos[l], later)
      invariant forall l :: k <= l < |others| ==> pos[l] == start[l]
      invariant forall l :: 0 <= l < k ==> target in others[l]
    {
      var p, present := Advance(o, others[k], pos[k], target, later);
      pos := pos[k := p];
      if !present {
        return pos, false;
      }
      k := k + 1;
    }
    found := true;
  }

  lemma SortedTail(o: Comparison, s: seq<Bytes>, i: nat)
    requires Sorted(o, s) && i < |s|
    ensures Sorted(o, s[i..]) && s[i..] == [s[i]] + s[i + 1..]
  {
  }

  /** The whole iterator, collected: exactly the first stream's elements that
      occur in all others, in the first stream's order. */
  method CommonElements(o: Comparison, streams: seq<seq<Bytes>>) returns (r: Option<seq<Bytes>>)
    requires Lawful(o) && forall k :: 0 <= k < |streams| ==> Sorted(o, streams[k])
    ensures r.None? <==> streams == []
    ensures r.Some? ==> r.value == Common(streams[0], streams[1..])
  {
    if streams == [] {
      return None;
    }
    var first, others := streams[0], streams[1..];
    var pos := seq(|others|, _ => 0);
    var common: seq<Bytes> := [];
    var i := 0;
    while i < |first|
      invariant 0 <= i <= |first| && |pos| == |others|
      invariant common == Common(first[..i], others)
      invariant forall k :: 0 <= k < |others| ==> Behind(o, others[k], pos[k], first[i..])
    {
      SortedTail(o, first, i);
      var found;
      pos, found := AllContain(o, others, pos, first[i], first[i + 1..]);
      assert first[..i + 1][..i] == first[..i];
      if found {
        common := common + [first[i]];
      }
      i := i + 1;
    }
    assert first[..i] == first;
    r := Some(common);
  }

  lemma {:induction false} CommonHas(s: seq<Bytes>, others: seq<seq<Bytes>>, e: Bytes)
    ensures e in Common(s, others) <==> e in s && InAll(e, others)
    ensures multiset(Common(s, others))[e] == if InAll(e, others) then multiset(s)[e] else 0
  {
    if s != [] {
      CommonHas(s[..|s| - 1], others, e);
      assert s == s[..|s| - 1] + [s[|s| - 1]];
    }
  }

  /** The result is sorted by the same order, so it can feed a merge. */
  lemma {:induction false} CommonIsSorted(o: Comparison, s: seq<Bytes>, others: seq<seq<Bytes>>)
    requires Sorted(o, s)
    ensures Sorted(o, Common(s, others))
  {
    if s != [] {
      var init, last := s[..|s| - 1], s[|s| - 1];
      CommonIsSorted(o, init, others);
      var c := Common(init, others);
      forall i | 0 <= i < |c| ensures c[i] == last || Before(o, c[i], last) {
        CommonHas(init, others, c[i]);
        var j :| 0 <= j < |init| && init[j] == c[i];
        assert s[j] == c[i] && s[|s| - 1] == last;
      }
    }
  }
}
