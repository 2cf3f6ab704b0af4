/** Account data over its two trees, refining one map from slots to values. */
module AccountData {
  import opened Collections
  import opened Bytes
  import opened KvTree
  import opened AccountDataKeys

  /** The value stored for a slot, with the counter value it was stored at. */
  datatype Stored = Stored(count: nat, value: Bytes)

  /** Account data is JSON with a `type` and a `content` field, or is refused. */
  datatype Json = Json(hasType: bool, hasContent: bool, bytes: Bytes)

  datatype Outcome = Ok | BadRequest

  type Model = map<Slot, Stored>

  /** The slot's entry in both trees. */
  ghost predicate SlotRefines(data: Tree, index: Tree, counter: nat, s: Slot, stored: Stored) {
    && TextSlot(s) && stored.count <= counter <= U64_MAX
    && IndexKey(s) in index && index[IndexKey(s)] == DataKey(s, stored.count)
    && DataKey(s, stored.count) in data && data[DataKey(s, stored.count)] == stored.value
  }

  ghost predicate IndexOwned(model: Model, key: Bytes) {
    exists s :: s in model && key == IndexKey(s)
  }

  ghost predicate DataOwned(model: Model, key: Bytes) {
    exists s :: s in model && model[s].count <= U64_MAX && key == DataKey(s, model[s].count)
  }

  /** Each slot has one key in each tree, and the trees have no other keys. */
  ghost predicate Refines(data: Tree, index: Tree, counter: nat, model: Model) {
    && counter <= U64_MAX
    && (forall s :: s in model ==> SlotRefines(data, index, counter, s, model[s]))
    && (forall k :: k in index ==> IndexOwned(model, k))
    && (forall k :: k in data ==> DataOwned(model, k))
  }

  /** Storing a slot's new value: insert the new data key, repoint the index,
      remove the old data key. */
  function NewData(data: Tree, index: Tree, s: Slot, count: nat, value: Bytes): Tree
    requires count <= U64_MAX
  {
    var inserted := data[DataKey(s, count) := value];
    if IndexKey(s) in index then inserted - {index[IndexKey(s)]} else inserted
  }

  lemma OldKeyIsOwn(data: Tree, index: Tree, counter: nat, model: Model, s: Slot)
    requires Refines(data, index, counter, model) && TextSlot(s)
    ensures IndexKey(s) in index <==> s in model
    ensures s in model ==> SlotRefines(data, index, counter, s, model[s])
  {
    if IndexKey(s) in index {
      assert IndexOwned(model, IndexKey(s));
      var t :| t in model && IndexKey(s) == IndexKey(t);
      IndexKeyInjective(s, t);
    }
  }

  lemma NewKeyIsNotOld(data: Tree, index: Tree, counter: nat, model: Model, s: Slot, count: nat)
    requires Refines(data, index, counter, model) && TextSlot(s) && counter < count <= U64_MAX
    ensures IndexKey(s) in index ==> index[IndexKey(s)] != DataKey(s, count)
  {
    OldKeyIsOwn(data, index, counter, model, s);
    if s in model && DataKey(s, model[s].count) == DataKey(s, count) {
      DataKeyInjective(s, model[s].count, s, count);
    }
  }

  lemma OtherSlotKept(data: Tree, index: Tree, counter: nat, model: Model, s: Slot, count: nat, value: Bytes, t: Slot)
    requires Refines(data, index, counter, model) && TextSlot(s) && counter < count <= U64_MAX
    requires t in model && t != s
    ensures SlotRefines(NewData(data, index, s, count, value), index[IndexKey(s) := DataKey(s, count)], count, t, model[t])
  {
    assert SlotRefines(data, index, counter, t, model[t]);
    if IndexKey(t) == IndexKey(s) {
      IndexKeyInjective(t, s);
    }
    OldKeyIsOwn(data, index, counter, model, s);
    if DataKey(t, model[t].count) == DataKey(s, count) {
      DataKeyInjective(t, model[t].count, s, count);
    }
    if s in model && DataKey(t, model[t].count) == DataKey(s, model[s].count) {
      DataKeyInjective(t, model[t].count, s, model[s].count);
    }
  }

  lemma UpdateOwnsIndex(index: Tree, model: Model, s: Slot, stored: Stored, id: Bytes, k: Bytes)
    requires forall l :: l in index ==> IndexOwned(model, l)
    requires k in index[IndexKey(s) := id]
    ensures IndexOwned(model[s := stored], k)
  {
    var model' := model[s := stored];
    if k == IndexKey(s) {
      assert s in model';
    } else {
      assert IndexOwned(model, k);
      var t :| t in model && k == IndexKey(t);
      assert t in model';
    }
  }

  lemma UpdateOwnsData(data: Tree, index: Tree, counter: nat, model: Model, s: Slot, count: nat, value: Bytes, k: Bytes)
    requires Refines(data, index, counter, model) && TextSlot(s) && counter < count <= U64_MAX
    requires k in NewData(data, index, s, count, value)
    ensures DataOwned(model[s := Stored(count, value)], k)
  {
    var model' := model[s := Stored(count, value)];
    OldKeyIsOwn(data, index, counter, model, s);
    if k == DataKey(s, count) {
      assert s in model' && k == DataKey(s, model'[s].count);
    } else {
      assert DataOwned(model, k);
      var t :| t in model && model[t].count <= U64_MAX && k == DataKey(t, model[t].count);
      assert t != s && t in model' && model'[t] == model[t];
    }
  }

  lemma UpdateRefines(data: Tree, index: Tree, counter: nat, model: Model, s: Slot, count: nat, value: Bytes)
    requires Refines(data, index, counter, model) && TextSlot(s) && counter < count <= U64_MAX
    ensures Refines(NewData(data, index, s, count, value), index[IndexKey(s) := DataKey(s, count)], count,
                    model[s := Stored(count, value)])
  {
    var data', index', model' := NewData(data, index, s, count, value), index[IndexKey(s) := DataKey(s, count)], model[s := Stored(count, value)];
    forall t | t in model' ensures SlotRefines(data', index', count, t, model'[t]) {
      if t == s {
        NewKeyIsNotOld(data, index, counter, model, s, count);
      } else {
        OtherSlotKept(data, index, counter, model, s, count, value, t);
      }
    }
    forall k | k in index' ensures IndexOwned(model', k) {
      UpdateOwnsIndex(index, model, s, Stored(count, value), DataKey(s, count), k);
    }
    forall k | k in data' ensures DataOwned(model', k) {
      UpdateOwnsData(data, index, counter, model, s, count, value, k);
    }
  }

  // ---------------------------------------------------------------------
  // Changes since
  // ---------------------------------------------------------------------

  ghost predicate Changed(model: Model, room: Bytes, user: Bytes, since: nat, kind: Bytes) {
    Slot(room, user, kind) in model && model[Slot(room, user, kind)].count > since
  }

  ghost predicate IsChange(model: Model, room: Bytes, user: Bytes, since: nat, kind: Bytes, value: Bytes) {
    Changed(model, room, user, since, kind) && value == model[Slot(room, user, kind)].value
  }

  ghost predicate AllChanges(model: Model, room: Bytes, user: Bytes, since: nat, changes: map<Bytes, Bytes>) {
    forall kind :: kind in changes ==> IsChange(model, room, user, since, kind, changes[kind])
  }

  lemma AddChange(model: Model, room: Bytes, user: Bytes, since: nat, changes: map<Bytes, Bytes>, kind: Bytes, value: Bytes)
    requires AllChanges(model, room, user, since, changes) && IsChange(model, room, user, since, kind, value)
    ensures AllChanges(model, room, user, since, changes[kind := value])
  {
  }

  predicate Collected(keys: seq<Bytes>, changes: map<Bytes, Bytes>) {
    forall k :: k in keys ==> LastPart(k) in changes
  }

  lemma CollectOne(keys: seq<Bytes>, i: nat, changes: map<Bytes, Bytes>, value: Bytes)
    requires i < |keys| && Collected(keys[..i], changes)
    ensures Collected(keys[..i + 1], changes[LastPart(keys[i]) := value])
  {
    forall k | k in keys[..i + 1] ensures LastPart(k) in changes[LastPart(keys[i]) := value] {
      assert k in keys[..i] || k == keys[i];
    }
  }

  /** `key` is the data key of a kind changed since. */
  ghost predicate ChangeAt(model: Model, room: Bytes, user: Bytes, since: nat, kind: Bytes, key: Bytes) {
    && Changed(model, room, user, since, kind)
    && model[Slot(room, user, kind)].count <= U64_MAX
    && key == DataKey(Slot(room, user, kind), model[Slot(room, user, kind)].count)
  }

  function ChangeKeys(data: Tree, room: Bytes, user: Bytes, since: nat): seq<Bytes>
    requires since < U64_MAX
  {
    TakePrefix(IterFrom(data, FirstPossible(room, user, since)), Prefix(room, user))
  }

  /** The keys the scan yields are the data keys of the changed slots. */
  lemma ChangeKeysExact(data: Tree, index: Tree, counter: nat, model: Model, room: Bytes, user: Bytes, since: nat, key: Bytes)
    requires Refines(data, index, counter, model) && Text(room) && Text(user) && since < U64_MAX
    ensures key in ChangeKeys(data, room, user, since) <==>
              exists kind :: ChangeAt(model, room, user, since, kind, key)
  {
    var first := FirstPossible(room, user, since);
    TakePrefixExact(data, Prefix(room, user), first);
    if key in ChangeKeys(data, room, user, since) {
      assert DataOwned(model, key);
      var s :| s in model && model[s].count <= U64_MAX && key == DataKey(s, model[s].count);
      assert SlotRefines(data, index, counter, s, model[s]);
      PrefixIsFree(room, user, s.room, s.user, U64Bytes(model[s].count) + ([SEPARATOR] + s.kind));
      FirstPossibleSplitsByCount(s, model[s].count, since);
      assert s == Slot(room, user, s.kind);
      assert ChangeAt(model, room, user, since, s.kind, key);
    }
    if kind :| ChangeAt(model, room, user, since, kind, key) {
      var s := Slot(room, user, kind);
      assert SlotRefines(data, index, counter, s, model[s]);
      FirstPossibleSplitsByCount(s, model[s].count, since);
    }
  }

  class Database {
    var data: Tree
    var index: Tree
    var counter: nat
    ghost var model: Model

    ghost predicate Valid()
      reads this
    {
      Refines(data, index, counter, model)
    }

    constructor ()
      ensures Valid() && model == map[] && counter == 0
    {
      data, index, counter, model := map[], map[], 0, map[];
    }

    /** `update`. The counter advances even when the data is refused. */
    method Update(s: Slot, json: Json) returns (r: Outcome)
      requires Valid() && TextSlot(s) && counter < U64_MAX
      modifies this
      ensures Valid() && counter == old(counter) + 1
      ensures r == if json.hasType && json.hasContent then Ok else BadRequest
      ensures r.Ok? ==> model == old(model)[s := Stored(counter, json.bytes)]
      ensures r.BadRequest? ==> model == old(model) && data == old(data) && index == old(index)
    {
      counter := counter + 1;
      if !json.hasType || !json.hasContent {
        return BadRequest;
      }
      UpdateRefines(data, index, counter - 1, model, s, counter, json.bytes);
      var key, id := IndexKey(s), DataKey(s, counter);
      data := data[id := json.bytes];
      var prev := if key in index then Some(index[key]) else None;
      index := index[key := id];
      if prev.Some? {
        data := data - {prev.value};
      }
      model := model[s := Stored(counter, json.bytes)];
      r := Ok;
    }

    /** `get`: the value stored last. */
    method Get(s: Slot) returns (r: Option<Bytes>)
      requires Valid() && TextSlot(s)
      ensures r == if s in model then Some(model[s].value) else None
    {
      OldKeyIsOwn(data, index, counter, model, s);
      var key := IndexKey(s);
      if key in index && index[key] in data {
        r := Some(data[index[key]]);
      } else {
        r := None;
      }
    }

    /** `changes_since`: exactly the kinds whose last update came after `since`,
        with their current values. */
    method ChangesSince(room: Bytes, user: Bytes, since: nat) returns (changes: map<Bytes, Bytes>)
      requires Valid() && Text(room) && Text(user) && since < U64_MAX
      ensures forall kind :: kind in changes <==> Changed(model, room, user, since, kind)
      ensures AllChanges(model, room, user, since, changes)
    {
      var keys := ChangeKeys(data, room, user, since);
      changes := map[];
      var i := 0;
      while i < |keys|
        invariant 0 <= i <= |keys|
        invariant AllChanges(model, room, user, since, changes)
        invariant Collected(keys[..i], changes)
      {
        var key := keys[i];
        KeyIsChange(key, room, user, since);
        AddChange(model, room, user, since, changes, LastPart(key), data[key]);
        CollectOne(keys, i, changes, data[key]);
        changes := changes[LastPart(key) := data[key]];
        i := i + 1;
      }
      assert keys[..i] == keys;
      forall kind | Changed(model, room, user, since, kind) ensures kind in changes {
        var key := ChangeIsScanned(room, user, since, kind, keys);
      }
    }

    lemma KeyIsChange(key: Bytes, room: Bytes, user: Bytes, since: nat)
      requires Valid() && Text(room) && Text(user) && since < U64_MAX
      requires key in ChangeKeys(data, room, user, since)
      ensures key in data && IsChange(model, room, user, since, LastPart(key), data[key])
    {
      ChangeKeysExact(data, index, counter, model, room, user, since, key);
      var kind :| ChangeAt(model, room, user, since, kind, key);
      var s := Slot(room, user, kind);
      assert SlotRefines(data, index, counter, s, model[s]);
      KindOfDataKey(s, model[s].count);
    }

    lemma ChangeIsScanned(room: Bytes, user: Bytes, since: nat, kind: Bytes, keys: seq<Bytes>) returns (key: Bytes)
      requires Valid() && Text(room) && Text(user) && since < U64_MAX
      requires keys == ChangeKeys(data, room, user, since) && Changed(model, room, user, since, kind)
      ensures key in keys && LastPart(key) == kind
    {
      var s := Slot(room, user, kind);
      assert SlotRefines(data, index, counter, s, model[s]);
      key := DataKey(s, model[s].count);
      assert ChangeAt(model, room, user, since, kind, key);
      ChangeKeysExact(data, index, counter, model, room, user, since, key);
      KindOfDataKey(s, model[s].count);
    }
  }
}
