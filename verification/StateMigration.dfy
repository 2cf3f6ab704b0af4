/** Migration 6 -> 7: from one row per state entry to layered state diffs. */
module StateMigration {
  import opened Collections
  import opened Bytes
  import opened KvTree
  import opened StateDiffCodec
  import opened StateStore

  type Room = nat

  /** A row of `stateid_shorteventid`: the key is the state hash followed by the
      state key, the value is the short event id. */
  datatype Row = Row(hash: U64, entry: StateEvent)

  predicate WellFormedTable(t: Tree) {
    forall k :: k in t ==> |k| == 16 && |t[k]| == 8
  }

  function RowAt(key: Bytes, value: Bytes): Row
    requires |key| == 16 && |value| == 8
  {
    Row(ReadU64(key[..8]), StateEvent(ReadU64(key[8..]), ReadU64(value)))
  }

  function Rows(t: Tree): (rows: seq<Row>)
    requires WellFormedTable(t)
    ensures |rows| == |t.Keys|
  {
    var keys := InOrder(t.Keys);
    seq(|keys|, i requires 0 <= i < |keys| => assert keys[i] in keys; RowAt(keys[i], t[keys[i]]))
  }

  /** Every entry of the old table is a row, and every row an entry of it. */
  lemma RowsExactly(t: Tree, h: U64, k: U64, e: U64)
    requires WellFormedTable(t)
    ensures Row(h, StateEvent(k, e)) in Rows(t) <==>
              U64Bytes(h) + U64Bytes(k) in t && t[U64Bytes(h) + U64Bytes(k)] == U64Bytes(e)
  {
    if Row(h, StateEvent(k, e)) in Rows(t) {
      EntryOfRow(t, h, k, e);
    }
    if U64Bytes(h) + U64Bytes(k) in t && t[U64Bytes(h) + U64Bytes(k)] == U64Bytes(e) {
      RowOfEntry(t, h, k, e);
    }
  }

  lemma EntryOfRow(t: Tree, h: U64, k: U64, e: U64)
    requires WellFormedTable(t) && Row(h, StateEvent(k, e)) in Rows(t)
    ensures U64Bytes(h) + U64Bytes(k) in t && t[U64Bytes(h) + U64Bytes(k)] == U64Bytes(e)
  {
    var keys, rows := InOrder(t.Keys), Rows(t);
    var i :| 0 <= i < |rows| && rows[i] == Row(h, StateEvent(k, e));
    assert keys[i] in keys;
    RowOfKey(keys[i], t[keys[i]]);
  }

  lemma RowOfEntry(t: Tree, h: U64, k: U64, e: U64)
    requires WellFormedTable(t) && U64Bytes(h) + U64Bytes(k) in t && t[U64Bytes(h) + U64Bytes(k)] == U64Bytes(e)
    ensures Row(h, StateEvent(k, e)) in Rows(t)
  {
    var key, keys, rows := U64Bytes(h) + U64Bytes(k), InOrder(t.Keys), Rows(t);
    assert key in keys;
    var i :| 0 <= i < |keys| && keys[i] == key;
    U64RoundTrip(h);
    U64RoundTrip(k);
    U64RoundTrip(e);
    assert key[..8] == U64Bytes(h) && key[8..] == U64Bytes(k);
    assert rows[i] == Row(h, StateEvent(k, e));
  }

  lemma RowOfKey(key: Bytes, value: Bytes)
    requires |key| == 16 && |value| == 8
    ensures var r := RowAt(key, value);
            key == U64Bytes(r.hash) + U64Bytes(r.entry.key) && value == U64Bytes(r.entry.event)
  {
    BytesOfU64(key[..8]);
    BytesOfU64(key[8..]);
    BytesOfU64(value);
    assert key == key[..8] + key[8..];
  }

  predicate SortedByHash(rows: seq<Row>) {
    forall i, j :: 0 <= i <= j < |rows| ==> rows[i].hash <= rows[j].hash
  }

  /** The byte order of the table's keys sorts the rows by their hash. */
  lemma TableIsSortedByHash(t: Tree)
    requires WellFormedTable(t)
    ensures SortedByHash(Rows(t))
  {
    var keys, rows := InOrder(t.Keys), Rows(t);
    forall i, j | 0 <= i < j < |rows| ensures rows[i].hash <= rows[j].hash {
      assert keys[i] in keys && keys[j] in keys;
      KeyOrderIsHashOrder(keys[i], keys[j]);
    }
  }

  lemma KeyOrderIsHashOrder(a: Bytes, b: Bytes)
    requires |a| == |b| == 16 && Below(a, b)
    ensures ReadU64(a[..8]) <= ReadU64(b[..8])
  {
    BytesOfU64(a[..8]);
    BytesOfU64(b[..8]);
    if a[..8] != b[..8] {
      assert a == a[..8] + a[8..] && b == b[..8] + b[8..];
      BelowEqualLengthBlocks(a[..8], b[..8], a[8..], b[8..]);
      U64Range();
      BigEndianOrder(ReadU64(a[..8]), ReadU64(b[..8]), 8);
    }
  }

  /** The state a hash stood for before the migration. */
  function StateOf(rows: seq<Row>, h: U64): Events {
    set r | r in rows && r.hash == h :: r.entry
  }

  function Hashes(rows: seq<Row>): set<U64> {
    set r | r in rows :: r.hash
  }

  lemma OneMoreRow(rows: seq<Row>, i: nat)
    requires i < |rows|
    ensures Hashes(rows[..i + 1]) == Hashes(rows[..i]) + {rows[i].hash}
    ensures forall h :: StateOf(rows[..i + 1], h)
                     == StateOf(rows[..i], h) + if h == rows[i].hash then {rows[i].entry} else {}
  {
    assert rows[..i + 1] == rows[..i] + [rows[i]];
    assert forall r :: r in rows[..i + 1] <==> r in rows[..i] || r == rows[i];
  }

  lemma AddEntry(rows: seq<Row>, i: nat)
    requires i < |rows|
    ensures StateOf(rows[..i + 1], rows[i].hash) == StateOf(rows[..i], rows[i].hash) + {rows[i].entry}
  {
    OneMoreRow(rows, i);
  }

  /** A hash that differs from the one before it is new. */
  lemma NewHash(rows: seq<Row>, i: nat)
    requires SortedByHash(rows) && 0 < i < |rows| && rows[i].hash != rows[i - 1].hash
    ensures rows[i].hash !in Hashes(rows[..i])
  {
    forall r | r in rows[..i] ensures r.hash < rows[i].hash {
      var j :| 0 <= j < i && rows[j] == r;
      assert rows[j].hash <= rows[i - 1].hash <= rows[i].hash;
    }
  }

  lemma UnseenHash(rows: seq<Row>, h: U64)
    requires h !in Hashes(rows)
    ensures StateOf(rows, h) == {}
  {
  }

  // ---------------------------------------------------------------------
  // Groups of rows, and the chain of states of each room
  // ---------------------------------------------------------------------

  /** Whether a new hash begins at row `j`. */
  predicate Starts(rows: seq<Row>, j: nat)
    requires j < |rows|
  {
    j == 0 || rows[j - 1].hash != rows[j].hash
  }

  /** Where the group of row `i` begins. */
  function GroupStart(rows: seq<Row>, i: nat): (s: nat)
    requires i < |rows|
    ensures s <= i && Starts(rows, s) && rows[s].hash == rows[i].hash
    ensures forall j | s < j <= i :: !Starts(rows, j)
  {
    if Starts(rows, i) then i else GroupStart(rows, i - 1)
  }

  /** The room of a group is that of its first event. */
  function RoomAt(rows: seq<Row>, roomOf: U64 -> Room, j: nat): Room
    requires j < |rows|
  {
    roomOf(rows[j].entry.event)
  }

  /** For each room, the last hash among the groups that end before row `j`. */
  function Latest(rows: seq<Row>, roomOf: U64 -> Room, j: nat): map<Room, U64>
    requires j <= |rows|
  {
    if j == 0 then map[]
    else
      var s := GroupStart(rows, j - 1);
      Latest(rows, roomOf, s)[RoomAt(rows, roomOf, s) := rows[s].hash]
  }

  function Previous(last: map<Room, U64>, room: Room): Option<U64> {
    if room in last then Some(last[room]) else None
  }

  /** The hash that was the latest of the group's room when it began. */
  function PreviousAt(rows: seq<Row>, roomOf: U64 -> Room, j: nat): Option<U64>
    requires j < |rows|
  {
    Previous(Latest(rows, roomOf, j), RoomAt(rows, roomOf, j))
  }

  /** The last group of the room that begins before row `j` begins at row `i`. */
  ghost predicate LastStart(rows: seq<Row>, roomOf: U64 -> Room, j: nat, room: Room, i: nat)
    requires j <= |rows|
  {
    && i < j && Starts(rows, i) && RoomAt(rows, roomOf, i) == room
    && forall m {:trigger RoomAt(rows, roomOf, m)} | i < m < j && Starts(rows, m) :: RoomAt(rows, roomOf, m) != room
  }

  ghost predicate NoStart(rows: seq<Row>, roomOf: U64 -> Room, j: nat, room: Room)
    requires j <= |rows|
  {
    forall m {:trigger RoomAt(rows, roomOf, m)} | 0 <= m < j && Starts(rows, m) :: RoomAt(rows, roomOf, m) != room
  }

  lemma {:induction false} LatestExactly(rows: seq<Row>, roomOf: U64 -> Room, j: nat, room: Room) returns (i: nat)
    requires j <= |rows|
    ensures var last := Latest(rows, roomOf, j);
            if room in last then LastStart(rows, roomOf, j, room, i) && last[room] == rows[i].hash
            else NoStart(rows, roomOf, j, room)
    decreases j
  {
    i := 0;
    if j > 0 {
      var s := GroupStart(rows, j - 1);
      if RoomAt(rows, roomOf, s) == room {
        i := s;
      } else {
        i := LatestExactly(rows, roomOf, s, room);
      }
    }
  }

  /** The state a group follows is that of the last group of its room before it, if
      there is one. */
  lemma PreviousExactly(rows: seq<Row>, roomOf: U64 -> Room, j: nat) returns (i: nat)
    requires j < |rows|
    ensures var room := RoomAt(rows, roomOf, j);
            match PreviousAt(rows, roomOf, j)
            case Some(h) => LastStart(rows, roomOf, j, room, i) && h == rows[i].hash
            case None => NoStart(rows, roomOf, j, room)
  {
    i := LatestExactly(rows, roomOf, j, RoomAt(rows, roomOf, j));
  }

  /** The stored layers of `h` are its own diff upon layers of `previous`. */
  predicate Follows(stacks: map<U64, Stack>, h: U64, previous: Option<U64>) {
    && h in stacks && (previous.Some? ==> previous.value in stacks)
    && BuiltOn(stacks[h], LayersAt(stacks, previous))
  }

  /** Each group that begins before row `n` follows its room's latest state. */
  ghost predicate Chained(stacks: map<U64, Stack>, rows: seq<Row>, roomOf: U64 -> Room, n: nat)
    requires n <= |rows|
  {
    forall j {:trigger PreviousAt(rows, roomOf, j)} | 0 <= j < n && Starts(rows, j) :: Follows(stacks, rows[j].hash, PreviousAt(rows, roomOf, j))
  }

  // ---------------------------------------------------------------------
  // What survives the migration
  // ---------------------------------------------------------------------

  /** A group's state is stored so that it can be read back: it has no zero key,
      and it is not a small change to the state of hash zero. */
  ghost predicate Survives(rows: seq<Row>, roomOf: U64 -> Room, j: nat)
    requires j < |rows|
  {
    var state := StateOf(rows, rows[j].hash);
    NoZeroKey(state) && !(PreviousAt(rows, roomOf, j) == Some(0) && Small(StateOf(rows, 0), state))
  }

  ghost predicate AllSurvive(rows: seq<Row>, roomOf: U64 -> Room, n: nat)
    requires n <= |rows|
  {
    forall j {:trigger Survives(rows, roomOf, j)} | 0 <= j < n && Starts(rows, j) :: Survives(rows, roomOf, j)
  }

  /** Every stored hash is read back as its old entries. */
  ghost predicate Preserved(stacks: map<U64, Stack>, rows: seq<Row>) {
    forall h {:trigger StateOf(rows, h)} | h in stacks :: Top(stacks[h]) == StateOf(rows, h)
  }

  ghost predicate Sound(stacks: map<U64, Stack>) {
    forall h {:trigger SoundStack(h, stacks[h])} | h in stacks :: SoundStack(h, stacks[h])
  }

  /** After the groups before row `n`: all is well if all of them survive, and
      otherwise some state is lost. */
  ghost predicate Outcome(stacks: map<U64, Stack>, rows: seq<Row>, roomOf: U64 -> Room, n: nat)
    requires n <= |rows|
  {
    && stacks.Keys == Hashes(rows[..n])
    && (AllSurvive(rows, roomOf, n) ==> Sound(stacks))
    && (AllSurvive(rows, roomOf, n) <==> Preserved(stacks, rows))
  }

  /** A group is complete when the next one begins. */
  lemma GroupIsComplete(rows: seq<Row>, i: nat)
    requires SortedByHash(rows) && 0 < i <= |rows| && (i < |rows| ==> Starts(rows, i))
    ensures StateOf(rows[..i], rows[i - 1].hash) == StateOf(rows, rows[i - 1].hash)
    ensures rows[i - 1].hash !in Hashes(rows[..GroupStart(rows, i - 1)])
    ensures Hashes(rows[..i]) == Hashes(rows[..GroupStart(rows, i - 1)]) + {rows[i - 1].hash}
  {
    var h, s := rows[i - 1].hash, GroupStart(rows, i - 1);
    forall r | r in rows && r.hash == h ensures r in rows[..i] {
      var j :| 0 <= j < |rows| && rows[j] == r;
      assert j < i;
      assert rows[..i][j] == r;
    }
    forall r | r in rows[..s] ensures r.hash < h {
      var j :| 0 <= j < s && rows[j] == r;
      assert rows[j].hash <= rows[s - 1].hash;
    }
    GroupHashes(rows, s, i);
  }

  lemma {:induction false} GroupHashes(rows: seq<Row>, s: nat, i: nat)
    requires s < i <= |rows| && s == GroupStart(rows, i - 1)
    ensures Hashes(rows[..i]) == Hashes(rows[..s]) + {rows[i - 1].hash}
  {
    OneMoreRow(rows, i - 1);
    if s < i - 1 {
      GroupHashes(rows, s, i - 1);
    }
  }

  /** Hash zero comes first, if at all. */
  lemma ZeroIsFirst(rows: seq<Row>, roomOf: U64 -> Room, s: nat)
    requires SortedByHash(rows) && s < |rows| && Starts(rows, s) && rows[s].hash == 0
    ensures s == 0 && PreviousAt(rows, roomOf, s) == None
  {
    if s > 0 {
      assert rows[s - 1].hash <= rows[s].hash;
    }
  }

  lemma StateIsNotEmpty(rows: seq<Row>, h: U64)
    requires h in Hashes(rows)
    ensures StateOf(rows, h) != {}
  {
    var r :| r in rows && r.hash == h;
    assert r.entry in StateOf(rows, h);
  }

  lemma OneMoreGroup(rows: seq<Row>, roomOf: U64 -> Room, s: nat, i: nat)
    requires s < i <= |rows| && s == GroupStart(rows, i - 1)
    ensures AllSurvive(rows, roomOf, i) <==> AllSurvive(rows, roomOf, s) && Survives(rows, roomOf, s)
  {
    if AllSurvive(rows, roomOf, s) && Survives(rows, roomOf, s) {
      forall j | 0 <= j < i && Starts(rows, j) ensures Survives(rows, roomOf, j) {
        assert j <= s;
      }
    }
  }

  lemma PreservedGrows(stacks: map<U64, Stack>, rows: seq<Row>, h: U64, stack: Stack)
    requires h !in stacks
    ensures Preserved(stacks[h := stack], rows) <==> Preserved(stacks, rows) && Top(stack) == StateOf(rows, h)
  {
    var after := stacks[h := stack];
    if Preserved(after, rows) {
      assert Top(after[h]) == StateOf(rows, h);
      forall g | g in stacks ensures Top(stacks[g]) == StateOf(rows, g) {
        assert Top(after[g]) == StateOf(rows, g);
      }
    }
  }

  lemma SoundGrows(stacks: map<U64, Stack>, h: U64, stack: Stack)
    requires Sound(stacks) && SoundStack(h, stack)
    ensures Sound(stacks[h := stack])
  {
    var after := stacks[h := stack];
    forall g | g in after ensures SoundStack(g, after[g]) {
      if g != h {
        assert SoundStack(g, stacks[g]);
      }
    }
  }

  /** The group that begins at `s` and ends before `i` is saved. */
  lemma OutcomeGrows(stacks: map<U64, Stack>, rows: seq<Row>, roomOf: U64 -> Room, s: nat, i: nat, stack: Stack)
    requires SortedByHash(rows) && s < i <= |rows| && s == GroupStart(rows, i - 1) && (i < |rows| ==> Starts(rows, i))
    requires Outcome(stacks, rows, roomOf, s)
    requires AllSurvive(rows, roomOf, s) ==>
               && (Top(stack) == StateOf(rows, rows[s].hash) <==> Survives(rows, roomOf, s))
               && (Survives(rows, roomOf, s) ==> Sound(stacks[rows[s].hash := stack]))
    ensures Outcome(stacks[rows[s].hash := stack], rows, roomOf, i)
  {
    var h := rows[s].hash;
    var after, kept, lives := stacks[h := stack], Top(stack) == StateOf(rows, h), Survives(rows, roomOf, s);
    assert stacks.Keys + {h} == after.Keys == Hashes(rows[..i]) && h !in stacks by {
      GroupIsComplete(rows, i);
    }
    OneMoreGroup(rows, roomOf, s, i);
    PreservedGrows(stacks, rows, h, stack);
    OutcomeFrom(stacks, after, rows, roomOf, s, i, kept, lives);
  }

  lemma OutcomeFrom(before: map<U64, Stack>, after: map<U64, Stack>, rows: seq<Row>, roomOf: U64 -> Room,
                    s: nat, i: nat, kept: bool, lives: bool)
    requires s <= i <= |rows| && Outcome(before, rows, roomOf, s) && after.Keys == Hashes(rows[..i])
    requires AllSurvive(rows, roomOf, i) <==> AllSurvive(rows, roomOf, s) && lives
    requires Preserved(after, rows) <==> Preserved(before, rows) && kept
    requires AllSurvive(rows, roomOf, s) ==> (kept <==> lives) && (lives ==> Sound(after))
    ensures Outcome(after, rows, roomOf, i)
  {
  }

  lemma OutcomeSoFarGood(stacks: map<U64, Stack>, rows: seq<Row>, roomOf: U64 -> Room, s: nat, stack: Stack, p: Placed)
    requires SortedByHash(rows) && s < |rows| && Starts(rows, s) && Outcome(stacks, rows, roomOf, s) && AllSurvive(rows, roomOf, s)
    requires var previous := PreviousAt(rows, roomOf, s); previous.Some? ==> previous.value in stacks
    requires SavedAs(stack, rows[s].hash, LayersAt(stacks, PreviousAt(rows, roomOf, s)), StateOf(rows, rows[s].hash), p)
    ensures Top(stack) == StateOf(rows, rows[s].hash) <==> Survives(rows, roomOf, s)
    ensures Survives(rows, roomOf, s) ==> Sound(stacks[rows[s].hash := stack])
  {
    GroupOutcome(stacks, rows, roomOf, s, stack, p);
    if Survives(rows, roomOf, s) {
      SoundGrows(stacks, rows[s].hash, stack);
    }
  }

  /** While nothing is lost yet, a group's state is read back if and only if it
      survives. */
  lemma GroupOutcome(stacks: map<U64, Stack>, rows: seq<Row>, roomOf: U64 -> Room, s: nat, stack: Stack, p: Placed)
    requires SortedByHash(rows) && s < |rows| && Starts(rows, s) && Sound(stacks) && Preserved(stacks, rows)
    requires stacks.Keys <= Hashes(rows)
    requires var previous := PreviousAt(rows, roomOf, s); previous.Some? ==> previous.value in stacks
    requires SavedAs(stack, rows[s].hash, LayersAt(stacks, PreviousAt(rows, roomOf, s)), StateOf(rows, rows[s].hash), p)
    ensures Top(stack) == StateOf(rows, rows[s].hash) <==> Survives(rows, roomOf, s)
    ensures Survives(rows, roomOf, s) ==> SoundStack(rows[s].hash, stack)
  {
    var h, previous := rows[s].hash, PreviousAt(rows, roomOf, s);
    var parents, state := LayersAt(stacks, previous), StateOf(rows, h);
    if previous.Some? {
      assert SoundStack(previous.value, stacks[previous.value]);
      assert Top(stacks[previous.value]) == StateOf(rows, previous.value);
    }
    if h == 0 {
      ZeroIsFirst(rows, roomOf, s);
    }
    assert rows[s] in rows;
    StateIsNotEmpty(rows, h);
    SavedExactly(stack, h, parents, previous, state, p);
  }

  // ---------------------------------------------------------------------
  // The loop
  // ---------------------------------------------------------------------

  /** Saving the group that begins at `start` and ends before `n`. */
  lemma ChainGrows(before: map<U64, Stack>, stack: Stack, rows: seq<Row>, roomOf: U64 -> Room, start: nat, n: nat, last: map<Room, U64>)
    requires start < n <= |rows| && start == GroupStart(rows, n - 1) && rows[start].hash !in before
    requires Chained(before, rows, roomOf, start)
    requires last == Latest(rows, roomOf, start) && forall r | r in last :: last[r] in before
    requires BuiltOn(stack, LayersAt(before, PreviousAt(rows, roomOf, start)))
    ensures Chained(before[rows[start].hash := stack], rows, roomOf, n)
    ensures last[RoomAt(rows, roomOf, start) := rows[start].hash] == Latest(rows, roomOf, n)
    ensures forall r | r in Latest(rows, roomOf, n) :: Latest(rows, roomOf, n)[r] in before[rows[start].hash := stack]
  {
    var after := before[rows[start].hash := stack];
    forall j | 0 <= j < n && Starts(rows, j)
      ensures Follows(after, rows[j].hash, PreviousAt(rows, roomOf, j))
    {
      if j != start {
        assert Follows(before, rows[j].hash, PreviousAt(rows, roomOf, j));
      }
    }
  }

  lemma SavedIsBuiltOn(stack: Stack, h: U64, parents: Stack, state: Events, p: Placed)
    requires SavedAs(stack, h, parents, state, p)
    ensures BuiltOn(stack, parents)
  {
  }

  /** What the loop has collected when it reaches row `i`. */
  ghost predicate Collecting(rows: seq<Row>, roomOf: U64 -> Room, i: nat, hash: U64, room: Room, state: Events, last: map<Room, U64>)
    requires 0 < i <= |rows|
  {
    var s := GroupStart(rows, i - 1);
    && hash == rows[i - 1].hash && room == RoomAt(rows, roomOf, s)
    && state == StateOf(rows[..i], hash)
    && last == Latest(rows, roomOf, s)
  }

  /** The store holds the groups before the one that row `i` ends or continues. */
  ghost predicate Saved(store: StateCompressor, rows: seq<Row>, roomOf: U64 -> Room, n: nat, last: map<Room, U64>)
    requires n <= |rows|
    reads store
  {
    && store.Valid() && Outcome(store.stacks, rows, roomOf, n) && Chained(store.stacks, rows, roomOf, n)
    && last == Latest(rows, roomOf, n) && (forall r :: r in last ==> last[r] in store.stacks)
  }

  /** `handle_state`: save the collected state against the previous one of its
      room, which is then the room's latest. */
  method HandleState(store: StateCompressor, ghost rows: seq<Row>, ghost roomOf: U64 -> Room, ghost i: nat,
                     hash: U64, room: Room, state: Events, last: map<Room, U64>)
    returns (last': map<Room, U64>)
    requires SortedByHash(rows) && 0 < i <= |rows| && (i < |rows| ==> Starts(rows, i))
    requires Collecting(rows, roomOf, i, hash, room, state, last)
    requires Saved(store, rows, roomOf, GroupStart(rows, i - 1), last)
    modifies store
    ensures Saved(store, rows, roomOf, i, last')
  {
    ghost var before, s := store.stacks, GroupStart(rows, i - 1);
    GroupIsComplete(rows, i);
    ghost var p := store.SaveAgainst(hash, Previous(last, room), state);
    if AllSurvive(rows, roomOf, s) {
      OutcomeSoFarGood(before, rows, roomOf, s, store.stacks[hash], p);
    }
    OutcomeGrows(before, rows, roomOf, s, i, store.stacks[hash]);
    SavedIsBuiltOn(store.stacks[hash], hash, LayersAt(before, Previous(last, room)), state, p);
    ChainGrows(before, store.stacks[hash], rows, roomOf, s, i, last);
    last' := last[room := hash];
  }

  lemma NextRow(rows: seq<Row>, i: nat, state: Events)
    requires 0 < i < |rows| && rows[i].hash == rows[i - 1].hash && state == StateOf(rows[..i], rows[i].hash)
    ensures GroupStart(rows, i) == GroupStart(rows, i - 1)
    ensures state + {rows[i].entry} == StateOf(rows[..i + 1], rows[i].hash)
  {
    AddEntry(rows, i);
  }

  lemma FirstRow(rows: seq<Row>, i: nat)
    requires i < |rows| && Starts(rows, i) && rows[i].hash !in Hashes(rows[..i])
    ensures GroupStart(rows, i) == i && {rows[i].entry} == StateOf(rows[..i + 1], rows[i].hash)
  {
    UnseenHash(rows[..i], rows[i].hash);
    AddEntry(rows, i);
  }

  /** One row: it joins the group being collected, or ends it and begins another. */
  method TakeRow(store: StateCompressor, rows: seq<Row>, roomOf: U64 -> Room, i: nat,
                 hash: U64, room: Room, state: Events, last: map<Room, U64>)
    returns (hash': U64, room': Room, state': Events, last': map<Room, U64>)
    requires SortedByHash(rows) && 0 < i < |rows| && Collecting(rows, roomOf, i, hash, room, state, last)
    requires Saved(store, rows, roomOf, GroupStart(rows, i - 1), last)
    modifies store
    ensures Collecting(rows, roomOf, i + 1, hash', room', state', last')
    ensures Saved(store, rows, roomOf, GroupStart(rows, i), last')
  {
    var row := rows[i];
    if hash == row.hash {
      NextRow(rows, i, state);
      hash', room', state', last' := hash, room, state + {row.entry}, last;
    } else {
      NewHash(rows, i);
      last' := HandleState(store, rows, roomOf, i, hash, room, state, last);
      FirstRow(rows, i);
      hash', room', state' := row.hash, roomOf(row.entry.event), {row.entry};
    }
  }

  /** The loop over the rows, and the last group after it. */
  method MigrateRows(rows: seq<Row>, roomOf: U64 -> Room, store: StateCompressor)
    requires SortedByHash(rows) && store.Valid() && store.stacks == map[]
    modifies store
    ensures store.Valid() && Outcome(store.stacks, rows, roomOf, |rows|) && Chained(store.stacks, rows, roomOf, |rows|)
  {
    if rows == [] {
      return;
    }
    assert rows[..0] == [];
    FirstRow(rows, 0);
    var hash, room, state, last: map<Room, U64> := rows[0].hash, roomOf(rows[0].entry.event), {rows[0].entry}, map[];
    assert Saved(store, rows, roomOf, 0, last);
    for i := 1 to |rows|
      invariant Collecting(rows, roomOf, i, hash, room, state, last)
      invariant Saved(store, rows, roomOf, GroupStart(rows, i - 1), last)
    {
      hash, room, state, last := TakeRow(store, rows, roomOf, i, hash, room, state, last);
    }
    last := HandleState(store, rows, roomOf, |rows|, hash, room, state, last);
  }

  /** After the migration exactly the hashes of the table are stored, each as a
      diff upon layers of the state its room had before it. All of them are read
      back as their old entries if and only if no entry has a zero key and the
      state that follows hash zero in its room is not a small change to it. */
  method Migrate(t: Tree, roomOf: U64 -> Room, store: StateCompressor)
    requires WellFormedTable(t) && store.Valid() && store.stacks == map[]
    modifies store
    ensures store.Valid() && store.stacks.Keys == Hashes(Rows(t))
    ensures Chained(store.stacks, Rows(t), roomOf, |Rows(t)|)
    ensures Preserved(store.stacks, Rows(t)) <==> AllSurvive(Rows(t), roomOf, |Rows(t)|)
  {
    TableIsSortedByHash(t);
    var rows := Rows(t);
    MigrateRows(rows, roomOf, store);
    assert rows[..|rows|] == rows;
  }

  // ---------------------------------------------------------------------
  // Tables that lose something, and tables that do not
  // ---------------------------------------------------------------------

  /** A table without hash zero and without key zero loses nothing. */
  lemma UsualTablesSurvive(rows: seq<Row>, roomOf: U64 -> Room)
    requires forall r | r in rows :: r.hash != 0 && r.entry.key != 0
    ensures AllSurvive(rows, roomOf, |rows|)
  {
    forall j | 0 <= j < |rows| && Starts(rows, j) ensures Survives(rows, roomOf, j) {
      LatestIsStored(rows, roomOf, j);
    }
  }

  lemma {:induction false} LatestIsStored(rows: seq<Row>, roomOf: U64 -> Room, j: nat)
    requires j <= |rows|
    ensures forall room | room in Latest(rows, roomOf, j) :: exists r :: r in rows && r.hash == Latest(rows, roomOf, j)[room]
  {
    if j > 0 {
      var s := GroupStart(rows, j - 1);
      LatestIsStored(rows, roomOf, s);
      assert rows[s] in rows;
    }
  }

  /** One entry with key zero is enough to lose a state. */
  lemma ZeroKeyLosesAState(rows: seq<Row>, roomOf: U64 -> Room, i: nat)
    requires i < |rows| && rows[i].entry.key == 0
    ensures !AllSurvive(rows, roomOf, |rows|)
  {
    var s := GroupStart(rows, i);
    assert rows[i].entry in StateOf(rows, rows[s].hash);
    assert !Survives(rows, roomOf, s);
  }

  /** So is one event added to the single event of hash zero. */
  lemma ZeroHashLosesAState(e: StateEvent, f: StateEvent, h: U64)
    requires h != 0 && e != f
    ensures var rows := [Row(0, e), Row(h, e), Row(h, f)];
            !AllSurvive(rows, _ => 0, 3)
  {
    var rows := [Row(0, e), Row(h, e), Row(h, f)];
    assert Starts(rows, 1) && GroupStart(rows, 0) == 0;
    assert StateOf(rows, 0) == {e};
    assert StateOf(rows, h) == {e, f};
    assert {e, f} - {e} == {f} && {e} - {e, f} == {};
    assert !Survives(rows, _ => 0, 1);
  }
}
