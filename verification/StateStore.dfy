/** The layered state store: full room states kept as diffs on parent states, in
    their stored form. */
module StateStore {
  import opened Collections
  import opened Bytes
  import opened StateDiffCodec

  type Events = set<StateEvent>

  datatype Layer = Layer(hash: U64, full: Events, added: Events, removed: Events)

  type Stack = seq<Layer>

  const MAX_LAYERS: nat := 4

  function Top(stack: Stack): Events {
    if stack == [] then {} else stack[|stack| - 1].full
  }

  /** Every layer records exactly how it differs from the one below. */
  ghost predicate Exact(stack: Stack) {
    forall i :: 0 <= i < |stack| ==>
      && stack[i].added == stack[i].full - Top(stack[..i])
      && stack[i].removed == Top(stack[..i]) - stack[i].full
  }

  lemma ExactBelow(stack: Stack)
    requires Exact(stack) && stack != []
    ensures Exact(stack[..|stack| - 1])
    ensures stack[|stack| - 1].added == Top(stack) - Top(stack[..|stack| - 1])
    ensures stack[|stack| - 1].removed == Top(stack[..|stack| - 1]) - Top(stack)
  {
    var below := stack[..|stack| - 1];
    forall i | 0 <= i < |below|
      ensures below[i].added == below[i].full - Top(below[..i])
      ensures below[i].removed == Top(below[..i]) - below[i].full
    {
      assert below[..i] == stack[..i];
    }
  }

  /** All but the top layer are layers of the given stack, from its bottom. */
  predicate BuiltOn(stack: Stack, parents: Stack) {
    stack != [] && stack[..|stack| - 1] <= parents
  }

  // ---------------------------------------------------------------------
  // Merging a diff into the diff below it
  // ---------------------------------------------------------------------

  function MergedAdded(parent: Layer, added: Events, removed: Events): Events {
    (parent.added - removed) + (added - (parent.removed + (removed - parent.added)))
  }

  function MergedRemoved(parent: Layer, added: Events, removed: Events): Events {
    (parent.removed + (removed - parent.added)) - added
  }

  /** The two merge loops of `save_state_from_diff`: changes that undo a change
      of the parent layer are forgotten, others join it. */
  method MergeIntoParent(parent: Layer, added: Events, removed: Events)
    returns (mergedAdded: Events, mergedRemoved: Events)
    ensures mergedAdded == MergedAdded(parent, added, removed)
    ensures mergedRemoved == MergedRemoved(parent, added, removed)
  {
    mergedAdded, mergedRemoved := parent.added, parent.removed;
    var rest := removed;
    while rest != {}
      invariant rest <= removed
      invariant mergedAdded == parent.added - (removed - rest)
      invariant mergedRemoved == parent.removed + ((removed - rest) - parent.added)
      decreases rest
    {
      var e :| e in rest;
      if e in mergedAdded {
        mergedAdded := mergedAdded - {e};
      } else {
        mergedRemoved := mergedRemoved + {e};
      }
      rest := rest - {e};
    }
    assert removed - rest == removed;
    ghost var middle := parent.removed + (removed - parent.added);
    rest := added;
    while rest != {}
      invariant rest <= added
      invariant mergedAdded == (parent.added - removed) + ((added - rest) - middle)
      invariant mergedRemoved == middle - (added - rest)
      decreases rest
    {
      var e :| e in rest;
      if e in mergedRemoved {
        mergedRemoved := mergedRemoved - {e};
      } else {
        mergedAdded := mergedAdded + {e};
      }
      rest := rest - {e};
    }
    assert added - rest == added;
  }

  /** Exact diffs compose: grandparent to parent, then parent to target, merge
      to the exact diff from grandparent to target. */
  lemma MergedDiffIsExact(grand: Events, parent: Layer, target: Events, added: Events, removed: Events)
    requires parent.added == parent.full - grand && parent.removed == grand - parent.full
    requires added == target - parent.full && removed == parent.full - target
    ensures MergedAdded(parent, added, removed) == target - grand
    ensures MergedRemoved(parent, added, removed) == grand - target
  {
  }

  lemma ExactExtends(parents: Stack, layer: Layer)
    requires Exact(parents)
    requires layer.added == layer.full - Top(parents) && layer.removed == Top(parents) - layer.full
    ensures Exact(parents + [layer]) && (parents + [layer])[..|parents|] == parents
  {
    var stack := parents + [layer];
    assert stack[..|parents|] == parents;
    forall i | 0 <= i < |stack|
      ensures stack[i].added == stack[i].full - Top(stack[..i])
      ensures stack[i].removed == Top(stack[..i]) - stack[i].full
    {
      if i < |parents| {
        assert stack[..i] == parents[..i];
      }
    }
  }

  // ---------------------------------------------------------------------
  // Where a diff is put
  // ---------------------------------------------------------------------

  /** A diff against the lowest `depth` of the parent layers. */
  datatype Placed = Placed(depth: nat, added: Events, removed: Events)

  predicate TooBig(parent: Layer, added: Events, removed: Events, sibling: nat) {
    var sum := |added| + |removed|;
    sum * sum >= 2 * sibling * (|parent.added| + |parent.removed|)
  }

  /** `save_state_from_diff` merges the diff into the layer below while there are
      too many layers or the diff is too big for a new one: the number of layers
      that stay below it. */
  function Depth(parents: Stack, added: Events, removed: Events, sibling: nat): (depth: nat)
    ensures depth <= |parents| && depth < MAX_LAYERS
    decreases |parents|
  {
    if parents == [] then 0
    else
      var parent, below := parents[|parents| - 1], parents[..|parents| - 1];
      if |parents| >= MAX_LAYERS || TooBig(parent, added, removed, sibling) then
        Depth(below, MergedAdded(parent, added, removed), MergedRemoved(parent, added, removed), |added| + |removed|)
      else |parents|
  }

  lemma DepthDown(parents: Stack, added: Events, removed: Events, sibling: nat)
    requires parents != [] && (|parents| >= MAX_LAYERS || TooBig(parents[|parents| - 1], added, removed, sibling))
    ensures var parent, below := parents[|parents| - 1], parents[..|parents| - 1];
            Depth(parents, added, removed, sibling) ==
              Depth(below, MergedAdded(parent, added, removed), MergedRemoved(parent, added, removed), |added| + |removed|)
  {
  }

  lemma DepthStays(parents: Stack, added: Events, removed: Events, sibling: nat)
    requires parents == [] || (|parents| < MAX_LAYERS && !TooBig(parents[|parents| - 1], added, removed, sibling))
    ensures Depth(parents, added, removed, sibling) == |parents|
  {
  }

  ghost predicate ExactDiff(base: Events, target: Events, added: Events, removed: Events) {
    added == target - base && removed == base - target
  }

  /** Wherever it is put, it is the exact diff against the layers below it. */
  ghost predicate ExactAt(parents: Stack, target: Events, p: Placed) {
    p.depth <= |parents| && ExactDiff(Top(parents[..p.depth]), target, p.added, p.removed)
  }

  lemma ExactOneDown(parents: Stack, target: Events, p: Placed)
    requires parents != [] && ExactAt(parents[..|parents| - 1], target, p)
    ensures ExactAt(parents, target, p)
  {
    assert parents[..|parents| - 1][..p.depth] == parents[..p.depth];
  }

  lemma ExactOnTop(parents: Stack, target: Events, added: Events, removed: Events)
    requires ExactDiff(Top(parents), target, added, removed)
    ensures ExactAt(parents, target, Placed(|parents|, added, removed))
  {
    assert parents[..|parents|] == parents;
  }

  lemma MergeIsExact(parents: Stack, target: Events, added: Events, removed: Events)
    requires parents != [] && Exact(parents) && ExactDiff(Top(parents), target, added, removed)
    ensures var parent, below := parents[|parents| - 1], parents[..|parents| - 1];
            Exact(below) && ExactDiff(Top(below), target, MergedAdded(parent, added, removed), MergedRemoved(parent, added, removed))
  {
    ExactBelow(parents);
    MergedDiffIsExact(Top(parents[..|parents| - 1]), parents[|parents| - 1], target, added, removed);
  }

  /** In how many events two states differ. */
  function Distance(a: Events, b: Events): nat {
    |b - a| + |a - b|
  }

  /** A diff against the lowest `j` layers may stay there: there are at most three,
      and its square is below twice the product of how far the state is from the
      next higher place and of the size of the layer it would lie on. */
  predicate Fits(parents: Stack, target: Events, sibling: nat, j: nat)
    requires j <= |parents|
  {
    j == 0 ||
    (j <= 3 &&
     var sum := Distance(Top(parents[..j]), target);
     var higher := if j == |parents| then sibling else Distance(Top(parents[..j + 1]), target);
     SmallEnough(sum, higher, |parents[j - 1].added| + |parents[j - 1].removed|))
  }

  predicate SmallEnough(sum: nat, higher: nat, size: nat) {
    sum * sum < 2 * higher * size
  }

  ghost predicate HighestFitting(parents: Stack, target: Events, sibling: nat, j: nat) {
    j <= |parents| && Fits(parents, target, sibling, j) && forall i | j < i <= |parents| :: !Fits(parents, target, sibling, i)
  }

  lemma FitsBelow(parents: Stack, target: Events, sibling: nat, i: nat)
    requires parents != [] && i < |parents|
    ensures var below := parents[..|parents| - 1];
            Fits(below, target, Distance(Top(parents), target), i) <==> Fits(parents, target, sibling, i)
  {
    var below := parents[..|parents| - 1];
    assert below[..i] == parents[..i];
    if i < |below| {
      assert below[..i + 1] == parents[..i + 1];
    } else {
      assert parents[..i + 1] == parents;
    }
  }

  lemma TopFits(parents: Stack, target: Events, added: Events, removed: Events, sibling: nat)
    requires parents != [] && ExactDiff(Top(parents), target, added, removed)
    ensures Fits(parents, target, sibling, |parents|) <==>
              !(|parents| >= MAX_LAYERS || TooBig(parents[|parents| - 1], added, removed, sibling))
  {
    assert parents[..|parents|] == parents;
  }

  lemma HighestTop(parents: Stack, target: Events, sibling: nat)
    requires Fits(parents, target, sibling, |parents|)
    ensures HighestFitting(parents, target, sibling, |parents|)
  {
  }

  /** An exact diff is put as high as it fits. */
  lemma {:induction false} DepthIsHighestFitting(parents: Stack, target: Events, added: Events, removed: Events, sibling: nat, j: nat)
    requires Exact(parents) && ExactDiff(Top(parents), target, added, removed)
    requires j == Depth(parents, added, removed, sibling)
    ensures HighestFitting(parents, target, sibling, j)
    decreases |parents|
  {
    if parents == [] {
      HighestTop(parents, target, sibling);
    } else if |parents| >= MAX_LAYERS || TooBig(parents[|parents| - 1], added, removed, sibling) {
      var parent, below := parents[|parents| - 1], parents[..|parents| - 1];
      DepthDown(parents, added, removed, sibling);
      MergeIsExact(parents, target, added, removed);
      DepthIsHighestFitting(below, target, MergedAdded(parent, added, removed), MergedRemoved(parent, added, removed), |added| + |removed|, j);
      GoesBelow(parents, target, added, removed, sibling, j);
    } else {
      DepthStays(parents, added, removed, sibling);
      TopFits(parents, target, added, removed, sibling);
      HighestTop(parents, target, sibling);
    }
  }

  lemma GoesBelow(parents: Stack, target: Events, added: Events, removed: Events, sibling: nat, j: nat)
    requires parents != [] && ExactDiff(Top(parents), target, added, removed)
    requires |parents| >= MAX_LAYERS || TooBig(parents[|parents| - 1], added, removed, sibling)
    requires HighestFitting(parents[..|parents| - 1], target, |added| + |removed|, j)
    ensures HighestFitting(parents, target, sibling, j)
  {
    TopFits(parents, target, added, removed, sibling);
    HighestBelow(parents, target, sibling, |added| + |removed|, j);
  }

  lemma HighestBelow(parents: Stack, target: Events, sibling: nat, sum: nat, j: nat)
    requires parents != [] && !Fits(parents, target, sibling, |parents|) && sum == Distance(Top(parents), target)
    requires HighestFitting(parents[..|parents| - 1], target, sum, j)
    ensures HighestFitting(parents, target, sibling, j)
  {
    var below := parents[..|parents| - 1];
    FitsBelow(parents, target, sibling, j);
    forall i | j < i < |parents| ensures !Fits(parents, target, sibling, i) {
      FitsBelow(parents, target, sibling, i);
    }
  }

  // ---------------------------------------------------------------------
  // The store
  // ---------------------------------------------------------------------

  datatype Loaded = Found(stack: Stack) | Missing

  /** The layers a diff stands for, given those of its parent. */
  function LayersOf(stacks: map<U64, Stack>, h: U64, diff: StateDiff): Stack
    requires diff.parent.Some? ==> diff.parent.value in stacks
  {
    match diff.parent
    case None => [Layer(h, diff.added, diff.added, diff.removed)]
    case Some(p) =>
      stacks[p] + [Layer(h, (Top(stacks[p]) + diff.added) - diff.removed, diff.added, diff.removed)]
  }

  /** Replaying a diff upon its parent: what is removed is gone, even if the parent
      has it or the diff also adds it; all else the two have stays. */
  lemma ReplayExactly(stacks: map<U64, Stack>, h: U64, diff: StateDiff, e: StateEvent)
    requires diff.parent.Some? ==> diff.parent.value in stacks
    ensures var stack := LayersOf(stacks, h, diff);
            e in Top(stack) <==>
              if diff.parent.None? then e in diff.added
              else (e in Top(stacks[diff.parent.value]) || e in diff.added) && e !in diff.removed
    ensures var stack := LayersOf(stacks, h, diff);
            stack[|stack| - 1].hash == h
            && stack[..|stack| - 1] == if diff.parent.None? then [] else stacks[diff.parent.value]
  {
  }

  predicate NoZeroKey(es: Events) {
    forall e | e in es :: e.key != 0
  }

  /** What a stored diff is read back as: upon its parent layers, unless the
      parent is hash zero; with its events, if no added key is zero. */
  predicate ReadsBack(stack: Stack, h: U64, parents: Stack, p: Placed) {
    && p.depth <= |parents| && stack != [] && stack[..|stack| - 1] == ReadBelow(parents, p.depth)
    && ReadTop(stack[|stack| - 1], h, ReadBelow(parents, p.depth), p)
  }

  function ReadBelow(parents: Stack, depth: nat): Stack
    requires depth <= |parents|
  {
    if depth > 0 && parents[depth - 1].hash == 0 then [] else parents[..depth]
  }

  predicate ReadTop(top: Layer, h: U64, below: Stack, p: Placed) {
    && top.hash == h
    && top.full == (if below == [] then top.added else (Top(below) + top.added) - top.removed)
    && NoZeroKey(top.added)
    && (NoZeroKey(p.added) ==> top.added == p.added && top.removed == p.removed)
  }

  /** What `get_statediff` reads; values always hold a parent. */
  function ReadAs(diffs: map<U64, Bytes>, h: U64): Option<StateDiff> {
    if h in diffs && |diffs[h]| >= 8 then Some(DiffOf(diffs[h])) else None
  }

  /** What the stored values are read as. */
  ghost predicate Decoded(diffs: map<U64, Bytes>, readAs: map<U64, StateDiff>) {
    && readAs.Keys == diffs.Keys
    && (forall h {:trigger ReadAs(diffs, h)} | h in readAs :: ReadAs(diffs, h) == Some(readAs[h]))
  }

  /** The layers a stored diff stands for. */
  ghost predicate Stored(readAs: map<U64, StateDiff>, stacks: map<U64, Stack>, h: U64)
    requires h in readAs && h in stacks
  {
    && (readAs[h].parent.Some? ==> readAs[h].parent.value in stacks && stacks[readAs[h].parent.value] != [])
    && stacks[h] == LayersOf(stacks, h, readAs[h])
  }

  ghost predicate Consistent(readAs: map<U64, StateDiff>, stacks: map<U64, Stack>) {
    && stacks.Keys == readAs.Keys
    && (forall h {:trigger Stored(readAs, stacks, h)} | h in stacks :: Stored(readAs, stacks, h))
  }

  lemma ConsistentGrows(readAs: map<U64, StateDiff>, stacks: map<U64, Stack>, h: U64, read: StateDiff)
    requires Consistent(readAs, stacks) && h !in readAs
    requires read.parent.Some? ==> read.parent.value in stacks && stacks[read.parent.value] != []
    ensures Consistent(readAs[h := read], stacks[h := LayersOf(stacks, h, read)])
  {
    var readAs', stacks' := readAs[h := read], stacks[h := LayersOf(stacks, h, read)];
    forall g | g in stacks' ensures Stored(readAs', stacks', g) {
      if g != h {
        assert Stored(readAs, stacks, g);
      }
    }
  }

  lemma WrittenValue(diffs: map<U64, Bytes>, readAs: map<U64, StateDiff>, h: U64, diff: StateDiff,
                     added: seq<StateEvent>, removed: seq<StateEvent>) returns (read: StateDiff)
    requires Decoded(diffs, readAs) && Orders(added, diff.added) && Orders(removed, diff.removed)
    ensures Decoded(diffs[h := Encoded(diff.parent, added, removed)], readAs[h := read])
    ensures read.parent == (if diff.parent == Some(0) then None else diff.parent) && NoZeroKey(read.added)
    ensures NoZeroKey(diff.added) ==> read.added == diff.added && read.removed == diff.removed
  {
    var value := Encoded(diff.parent, added, removed);
    StoredDiff(diff, added, removed);
    read := DiffOf(value);
    DecodedGrows(diffs, readAs, h, value);
  }

  lemma DecodedGrows(diffs: map<U64, Bytes>, readAs: map<U64, StateDiff>, h: U64, value: Bytes)
    requires Decoded(diffs, readAs) && |value| >= 8
    ensures Decoded(diffs[h := value], readAs[h := DiffOf(value)])
  {
    forall g | g in readAs && g != h ensures ReadAs(diffs[h := value], g) == Some(readAs[g]) {
      assert ReadAs(diffs, g) == Some(readAs[g]);
    }
  }

  lemma WrittenReadsBack(stacks: map<U64, Stack>, h: U64, parents: Stack, diff: StateDiff, read: StateDiff)
    requires parents != [] ==> parents[|parents| - 1].hash in stacks && stacks[parents[|parents| - 1].hash] == parents
    requires diff.parent == if parents == [] then None else Some(parents[|parents| - 1].hash)
    requires read.parent == (if diff.parent == Some(0) then None else diff.parent) && NoZeroKey(read.added)
    requires NoZeroKey(diff.added) ==> read.added == diff.added && read.removed == diff.removed
    ensures ReadsBack(LayersOf(stacks, h, read), h, parents, Placed(|parents|, diff.added, diff.removed))
  {
    assert parents[..|parents|] == parents;
    var stack := LayersOf(stacks, h, read);
    if read.parent.Some? {
      assert stack[..|stack| - 1] == parents;
    } else {
      assert stack[..|stack| - 1] == [];
    }
  }

  class StateCompressor {
    var diffs: map<U64, Bytes>
    var cache: map<U64, Stack>
    // The diff each stored hash is read back as, and its layers
    ghost var readAs: map<U64, StateDiff>
    ghost var stacks: map<U64, Stack>

    ghost predicate Valid()
      reads this
    {
      && Decoded(diffs, readAs) && Consistent(readAs, stacks)
      && (forall h :: h in cache ==> h in stacks && cache[h] == stacks[h])
    }

    constructor ()
      ensures Valid() && diffs == map[] && stacks == map[]
    {
      diffs, cache, readAs, stacks := map[], map[], map[], map[];
    }

    /** `load_shortstatehash_info`: the layers rebuilt from the stored values,
        whatever is cached. */
    method LoadInfo(h: U64) returns (r: Loaded)
      requires Valid()
      modifies this`cache
      ensures Valid()
      ensures r == if h in stacks then Found(stacks[h]) else Missing
      decreases if h in stacks then |stacks[h]| else 0
    {
      if h in cache {
        return Found(cache[h]);
      }
      if h !in diffs {
        return Missing;
      }
      assert Stored(readAs, stacks, h) && ReadAs(diffs, h) == Some(readAs[h]);
      var diff := GetStateDiff(diffs[h]);
      var response := [Layer(h, diff.added, diff.added, diff.removed)];
      if diff.parent.Some? {
        var below := LoadInfo(diff.parent.value);
        var state := (Top(below.stack) + diff.added) - diff.removed;
        response := below.stack + [Layer(h, state, diff.added, diff.removed)];
      }
      Remember(h, response);
      r := Found(response);
    }

    /** The cache keeps what was used most recently; here, any of its entries may
        have to go. */
    method Remember(h: U64, stack: Stack)
      requires Valid() && h in stacks && stack == stacks[h]
      modifies this`cache
      ensures Valid()
    {
      var kept: set<U64> := *;
      cache := map g | g in cache && g in kept :: cache[g];
      cache := cache[h := stack];
    }

    /** A stack as `load_shortstatehash_info` returns it, or none. */
    ghost predicate IsStack(stack: Stack)
      reads this
    {
      stack == [] || (stack[|stack| - 1].hash in stacks && stacks[stack[|stack| - 1].hash] == stack)
    }

    lemma LowerLayers(stack: Stack)
      requires Valid() && IsStack(stack) && stack != []
      ensures IsStack(stack[..|stack| - 1])
    {
      var h := stack[|stack| - 1].hash;
      assert Stored(readAs, stacks, h);
      var diff := readAs[h];
      if diff.parent.Some? {
        assert Stored(readAs, stacks, diff.parent.value);
        assert stack[..|stack| - 1] == stacks[diff.parent.value];
      } else {
        assert stack[..|stack| - 1] == [];
      }
    }

    /** `save_statediff`, for a hash on top of the given parent layers. */
    method WriteDiff(h: U64, diff: StateDiff, ghost parents: Stack, ghost target: Events) returns (ghost p: Placed)
      requires Valid() && h !in stacks && IsStack(parents)
      requires diff.parent == if parents == [] then None else Some(parents[|parents| - 1].hash)
      modifies this`diffs, this`readAs, this`stacks
      ensures Valid() && h in stacks && stacks == old(stacks)[h := stacks[h]]
      ensures p.depth == |parents| && ReadsBack(stacks[h], h, parents, p)
      ensures ExactDiff(Top(parents), target, diff.added, diff.removed) ==> ExactAt(parents, target, p)
    {
      p := Placed(|parents|, diff.added, diff.removed);
      if ExactDiff(Top(parents), target, diff.added, diff.removed) {
        ExactOnTop(parents, target, diff.added, diff.removed);
      }
      ghost var added, removed;
      var value;
      value, added, removed := SaveStateDiff(diff);
      ghost var read := WrittenValue(diffs, readAs, h, diff, added, removed);
      WrittenReadsBack(stacks, h, parents, diff, read);
      ConsistentGrows(readAs, stacks, h, read);
      Insert(h, value, read);
    }

    method Insert(h: U64, value: Bytes, ghost read: StateDiff)
      requires Valid() && h !in stacks && (read.parent.Some? ==> read.parent.value in stacks)
      requires Decoded(diffs[h := value], readAs[h := read])
      requires Consistent(readAs[h := read], stacks[h := LayersOf(stacks, h, read)])
      modifies this`diffs, this`readAs, this`stacks
      ensures Valid() && stacks == old(stacks)[h := LayersOf(old(stacks), h, read)]
    {
      diffs := diffs[h := value];
      readAs, stacks := readAs[h := read], stacks[h := LayersOf(stacks, h, read)];
    }

    /** `save_state_from_diff`: where the diff is put, and that it is still the exact
        diff there if it was one. */
    method SaveStateFromDiff(h: U64, added: Events, removed: Events, sibling: nat, parents: Stack, ghost target: Events)
      returns (ghost p: Placed)
      requires Valid() && h !in stacks && IsStack(parents)
      modifies this`diffs, this`readAs, this`stacks
      ensures Valid() && h in stacks && stacks == old(stacks)[h := stacks[h]]
      ensures p.depth == Depth(parents, added, removed, sibling) && ReadsBack(stacks[h], h, parents, p)
      ensures |stacks[h]| <= 4
      ensures Exact(parents) && ExactDiff(Top(parents), target, added, removed) ==> ExactAt(parents, target, p)
      decreases |parents|
    {
      if |parents| >= MAX_LAYERS || (parents != [] && TooBig(parents[|parents| - 1], added, removed, sibling)) {
        DepthDown(parents, added, removed, sibling);
        p := SaveOneLayerDown(h, added, removed, |added| + |removed|, parents, target, Depth(parents, added, removed, sibling));
      } else {
        DepthStays(parents, added, removed, sibling);
        var parent := if parents == [] then None else Some(parents[|parents| - 1].hash);
        p := WriteDiff(h, StateDiff(parent, added, removed), parents, target);
      }
    }

    /** Replacing the top layer instead of adding to it. */
    method SaveOneLayerDown(h: U64, added: Events, removed: Events, sum: nat, parents: Stack, ghost target: Events, ghost depth: nat)
      returns (ghost p: Placed)
      requires Valid() && h !in stacks && IsStack(parents) && parents != []
      requires var parent, below := parents[|parents| - 1], parents[..|parents| - 1];
               depth == Depth(below, MergedAdded(parent, added, removed), MergedRemoved(parent, added, removed), sum)
      modifies this`diffs, this`readAs, this`stacks
      ensures Valid() && h in stacks && stacks == old(stacks)[h := stacks[h]]
      ensures p.depth == depth && ReadsBack(stacks[h], h, parents, p) && |stacks[h]| <= 4
      ensures Exact(parents) && ExactDiff(Top(parents), target, added, removed) ==> ExactAt(parents, target, p)
      decreases |parents|, 0
    {
      var parent, below := parents[|parents| - 1], parents[..|parents| - 1];
      LowerLayers(parents);
      var mergedAdded, mergedRemoved := MergeIntoParent(parent, added, removed);
      p := SaveStateFromDiff(h, mergedAdded, mergedRemoved, sum, below, target);
      ReadsBackOneDown(stacks[h], h, parents, p);
      if Exact(parents) && ExactDiff(Top(parents), target, added, removed) {
        MergeIsExact(parents, target, added, removed);
        ExactOneDown(parents, target, p);
      }
    }

    /** The parent layers of a state: those of the previous state, if any. */
    method ParentLayers(previous: Option<U64>) returns (parents: Stack)
      requires Valid() && (previous.Some? ==> previous.value in stacks)
      modifies this`cache
      ensures Valid() && IsStack(parents)
      ensures parents == LayersAt(stacks, previous)
    {
      parents := [];
      if previous.Some? {
        assert Stored(readAs, stacks, previous.value);
        var r := LoadInfo(previous.value);
        parents := r.stack;
      }
    }

    /** Saving a state against a stored one, or against nothing, by the exact diff
        between the two as they are read back. */
    method SaveAgainst(h: U64, previous: Option<U64>, state: Events) returns (ghost p: Placed)
      requires Valid() && h !in stacks && (previous.Some? ==> previous.value in stacks)
      modifies this
      ensures Valid() && h in stacks && stacks == old(stacks)[h := stacks[h]]
      ensures SavedAs(stacks[h], h, LayersAt(old(stacks), previous), state, p) && |stacks[h]| <= 4
      ensures var parents := LayersAt(old(stacks), previous);
              Exact(parents) ==> HighestFitting(parents, state, 2, p.depth)
    {
      var parents := ParentLayers(previous);
      var added, removed := state, {};
      if parents != [] {
        added := state - Top(parents);
        removed := Top(parents) - state;
      } else {
        assert state - Top(parents) == state && Top(parents) - state == {};
      }
      p := SaveStateFromDiff(h, added, removed, 2, parents, state);
      if Exact(parents) {
        DepthIsHighestFitting(parents, state, added, removed, 2, p.depth);
      }
    }
  }

  function LayersAt(stacks: map<U64, Stack>, previous: Option<U64>): Stack
    requires previous.Some? ==> previous.value in stacks
  {
    if previous.Some? then stacks[previous.value] else []
  }

  /** What saving a state against these layers leaves behind. */
  ghost predicate SavedAs(stack: Stack, h: U64, parents: Stack, state: Events, p: Placed) {
    && p.depth == Depth(parents, state - Top(parents), Top(parents) - state, 2)
    && ReadsBack(stack, h, parents, p)
    && (Exact(parents) ==> ExactAt(parents, state, p))
  }

  lemma ReadsBackOneDown(stack: Stack, h: U64, parents: Stack, p: Placed)
    requires parents != [] && ReadsBack(stack, h, parents[..|parents| - 1], p)
    ensures ReadsBack(stack, h, parents, p)
  {
    assert parents[..|parents| - 1][..p.depth] == parents[..p.depth];
  }

  // ---------------------------------------------------------------------
  // Exactly when a saved state is read back
  // ---------------------------------------------------------------------

  /** Layers that stand for states: exact diffs, no zero key, and nothing built
      upon hash zero. */
  ghost predicate SoundStack(h: U64, stack: Stack) {
    && stack != [] && stack[|stack| - 1].hash == h && Exact(stack)
    && (forall i | 0 <= i < |stack| :: NoZeroKey(stack[i].full))
    && (forall i | 0 <= i < |stack| - 1 :: stack[i].hash != 0)
    && (h == 0 ==> |stack| == 1)
  }

  /** The diff between the two states is small enough to be put upon the first, if
      that is a bottom layer. */
  predicate Small(first: Events, state: Events) {
    var sum := |state - first| + |first - state|;
    sum * sum < 4 * |first|
  }

  /** A small diff leaves something in common. */
  lemma SmallShares(first: Events, state: Events)
    requires Small(first, state) && state != {}
    ensures state - first != state
  {
    if state - first == state {
      assert first - state == first;
      assert |state| >= 1;
      SquareOfSum(|state|, |first|);
    }
  }

  lemma SquareOfSum(a: nat, b: nat)
    requires a >= 1
    ensures (a + b) * (a + b) >= 4 * b
  {
    assert (a + b) * (a + b) >= (1 + b) * (1 + b) by {
      assert (a + b) * (a + b) == (1 + b) * (1 + b) + (a - 1) * (a - 1) + 2 * (a - 1) * (1 + b);
    }
    assert (1 + b) * (1 + b) == 4 * b + (b - 1) * (b - 1);
  }

  ghost predicate SoundParents(parents: Stack, previous: Option<U64>) {
    match previous
    case None => parents == []
    case Some(p) => SoundStack(p, parents)
  }

  /** The states of all the lower layers are sound too. */
  lemma LowerTops(parents: Stack, previous: Option<U64>, depth: nat)
    requires SoundParents(parents, previous) && depth <= |parents|
    ensures Exact(parents[..depth]) && NoZeroKey(Top(parents[..depth]))
  {
    forall i | 0 <= i < depth
      ensures parents[..depth][i].added == parents[..depth][i].full - Top(parents[..depth][..i])
      ensures parents[..depth][i].removed == Top(parents[..depth][..i]) - parents[..depth][i].full
    {
      assert parents[..depth][..i] == parents[..i];
    }
  }

  /** A state with a zero key is never read back. */
  lemma ZeroKeyStateIsLost(stack: Stack, h: U64, parents: Stack, previous: Option<U64>, state: Events, p: Placed)
    requires SoundParents(parents, previous) && p.depth <= |parents| && ReadsBack(stack, h, parents, p)
    requires !NoZeroKey(state)
    ensures Top(stack) != state
  {
    var e :| e in state && e.key == 0;
    LowerTops(parents, previous, p.depth);
    assert e !in Top(stack);
  }

  lemma KeptFull(below: Events, state: Events)
    ensures (below + (state - below)) - (below - state) == state
  {
  }

  lemma SoundExtends(below: Stack, h: U64, top: Layer)
    requires Exact(below) && (forall l | l in below :: l.hash != 0 && NoZeroKey(l.full)) && (h == 0 ==> below == [])
    requires top.hash == h && NoZeroKey(top.full)
    requires top.added == top.full - Top(below) && top.removed == Top(below) - top.full
    ensures SoundStack(h, below + [top])
  {
    ExactExtends(below, top);
    var stack := below + [top];
    forall i | 0 <= i < |stack| - 1 ensures stack[i].hash != 0 && NoZeroKey(stack[i].full) {
      assert stack[i] in below;
    }
  }

  lemma SoundGrows(parents: Stack, previous: Option<U64>, depth: nat, h: U64, top: Layer)
    requires SoundParents(parents, previous) && depth <= |parents| && (h == 0 ==> previous.None?)
    requires !(depth > 0 && parents[depth - 1].hash == 0) && top.hash == h && NoZeroKey(top.full)
    requires top.added == top.full - Top(parents[..depth]) && top.removed == Top(parents[..depth]) - top.full
    ensures SoundStack(h, parents[..depth] + [top])
  {
    LowerTops(parents, previous, depth);
    var below := parents[..depth];
    forall l | l in below ensures l.hash != 0 && NoZeroKey(l.full) {
      var i :| 0 <= i < depth && below[i] == l;
      assert parents[i] == l;
    }
    SoundExtends(below, h, top);
  }

  /** A state without one is, if it is not put upon hash zero. */
  lemma PlacedStateIsKept(stack: Stack, h: U64, parents: Stack, previous: Option<U64>, state: Events, p: Placed)
    requires SoundParents(parents, previous) && p.depth <= |parents| && ReadsBack(stack, h, parents, p)
    requires ExactAt(parents, state, p)
    requires NoZeroKey(state) && !(p.depth > 0 && parents[p.depth - 1].hash == 0) && (h == 0 ==> previous.None?)
    ensures Top(stack) == state && SoundStack(h, stack)
  {
    var below, top := parents[..p.depth], stack[|stack| - 1];
    KeptFull(Top(below), state);
    assert stack == below + [top];
    assert top.full == state;
    SoundGrows(parents, previous, p.depth, h, top);
  }

  /** Only the previous state itself can be hash zero, and then it is alone. */
  lemma UponZero(parents: Stack, previous: Option<U64>, depth: nat)
    requires SoundParents(parents, previous) && 0 < depth <= |parents| && parents[depth - 1].hash == 0
    ensures previous == Some(0) && |parents| == 1 && depth == 1
  {
  }

  /** A state of which only a diff upon hash zero was written is not read back. */
  lemma UponZeroIsLost(stack: Stack, h: U64, parents: Stack, state: Events, p: Placed)
    requires SoundParents(parents, Some(0)) && p.depth == 1 && ReadsBack(stack, h, parents, p)
    requires p.added == state - Top(parents) && NoZeroKey(state) && state != {} && Small(Top(parents), state)
    ensures Top(stack) != state
  {
    assert ReadBelow(parents, 1) == [];
    SmallShares(Top(parents), state);
  }

  /** Upon hash zero exactly the small diffs are put. */
  lemma DepthUponZero(parents: Stack, state: Events)
    requires SoundParents(parents, Some(0))
    ensures Depth(parents, state - Top(parents), Top(parents) - state, 2) == 1 <==> Small(Top(parents), state)
  {
    assert |parents| == 1 && parents[..0] == [];
    assert parents[0].added == Top(parents) && parents[0].removed == {};
  }

  /** A saved state is read back, and its layers are sound, if and only if it has
      no zero key and is not a small diff upon hash zero. */
  lemma SavedExactly(stack: Stack, h: U64, parents: Stack, previous: Option<U64>, state: Events, p: Placed)
    requires SoundParents(parents, previous) && state != {} && (h == 0 ==> previous.None?)
    requires SavedAs(stack, h, parents, state, p)
    ensures Top(stack) == state <==> NoZeroKey(state) && !(previous == Some(0) && Small(Top(parents), state))
    ensures Top(stack) == state ==> SoundStack(h, stack)
  {
    LowerTops(parents, previous, |parents|);
    assert parents[..|parents|] == parents;
    if previous == Some(0) {
      DepthUponZero(parents, state);
    }
    if !NoZeroKey(state) {
      ZeroKeyStateIsLost(stack, h, parents, previous, state, p);
    } else if p.depth > 0 && parents[p.depth - 1].hash == 0 {
      UponZero(parents, previous, p.depth);
      UponZeroIsLost(stack, h, parents, state, p);
    } else {
      PlacedStateIsKept(stack, h, parents, previous, state, p);
    }
  }
}
