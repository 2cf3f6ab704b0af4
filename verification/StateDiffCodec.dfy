/** The stored form of a state diff: parent, added events and, behind a zero
    marker, removed events. */
module StateDiffCodec {
  import opened Collections
  import opened Bytes

  type U64 = n: nat | n <= 0xFFFF_FFFF_FFFF_FFFF

  /** A compressed state event: short state key and short event id. */
  datatype StateEvent = StateEvent(key: U64, event: U64)

  datatype StateDiff = StateDiff(parent: Option<U64>, added: set<StateEvent>, removed: set<StateEvent>)

  function Compress(e: StateEvent): (r: Bytes)
    ensures |r| == 16
  {
    U64Bytes(e.key) + U64Bytes(e.event)
  }

  function ReadU64(s: Bytes): U64
    requires |s| == 8
  {
    U64Range();
    FromBigEndian(s)
  }

  function Decompress(s: Bytes): StateEvent
    requires |s| == 16
  {
    StateEvent(ReadU64(s[..8]), ReadU64(s[8..]))
  }

  lemma U64RoundTrip(n: U64)
    ensures ReadU64(U64Bytes(n)) == n
  {
    U64Range();
    BigEndianRoundTrip(n, 8);
  }

  lemma CompressRoundTrip(e: StateEvent)
    ensures Decompress(Compress(e)) == e
    ensures Compress(e)[..8] == U64Bytes(e.key)
  {
    U64RoundTrip(e.key);
    U64RoundTrip(e.event);
    assert Compress(e)[..8] == U64Bytes(e.key) && Compress(e)[8..] == U64Bytes(e.event);
  }

  function CompressAll(es: seq<StateEvent>): Bytes {
    if es == [] then [] else Compress(es[0]) + CompressAll(es[1..])
  }

  /** Removed events, behind eight zero bytes. */
  function Tail(removed: seq<StateEvent>): Bytes {
    if removed == [] then [] else U64Bytes(0) + CompressAll(removed)
  }

  /** What `save_statediff` writes when its sets iterate in these orders. */
  function Encoded(parent: Option<U64>, added: seq<StateEvent>, removed: seq<StateEvent>): Bytes {
    U64Bytes(if parent.Some? then parent.value else 0) + (CompressAll(added) + Tail(removed))
  }

  ghost predicate Orders<T(!new)>(s: seq<T>, all: set<T>) {
    Distinct(s) && Elements(s) == all
  }

  /** Writing a set, in whatever order it iterates. */
  method WriteAll(es: set<StateEvent>) returns (value: Bytes, ghost order: seq<StateEvent>)
    ensures Orders(order, es) && value == CompressAll(order)
  {
    var rest := es;
    value, order := [], [];
    while rest != {}
      invariant rest <= es && Distinct(order) && Elements(order) == es - rest
      invariant value == CompressAll(order)
      decreases rest
    {
      var e :| e in rest;
      CompressAllThen(order, e);
      assert Elements(order + [e]) == Elements(order) + {e};
      value, order := value + Compress(e), order + [e];
      rest := rest - {e};
    }
  }

  lemma {:induction false} CompressAllThen(es: seq<StateEvent>, e: StateEvent)
    ensures CompressAll(es + [e]) == CompressAll(es) + Compress(e)
  {
    if es == [] {
      assert CompressAll([e]) == Compress(e) + CompressAll([]);
    } else {
      assert (es + [e])[1..] == es[1..] + [e];
      CompressAllThen(es[1..], e);
    }
  }

  /** Each event takes sixteen bytes, one after the other: its key, then its id. */
  lemma {:induction false} CompressedAt(es: seq<StateEvent>, i: nat)
    ensures |CompressAll(es)| == 16 * |es|
    ensures i < |es| ==> CompressAll(es)[16 * i..16 * i + 16] == U64Bytes(es[i].key) + U64Bytes(es[i].event)
  {
    if es != [] {
      CompressedAt(es[1..], if i > 0 then i - 1 else 0);
      if 0 < i < |es| {
        var rest := CompressAll(es[1..]);
        assert CompressAll(es)[16 * i..16 * i + 16] == rest[16 * (i - 1)..16 * (i - 1) + 16];
      }
    }
  }

  /** A stored value: the parent or 0, the added events, and, if there are any, eight
      zero bytes and the removed events. */
  lemma EncodedLayout(parent: Option<U64>, added: seq<StateEvent>, removed: seq<StateEvent>)
    ensures var value, n := Encoded(parent, added, removed), 8 + 16 * |added|;
            && |value| >= n && value[..8] == U64Bytes(if parent.Some? then parent.value else 0)
            && value[8..n] == CompressAll(added)
            && value[n..] == if removed == [] then [] else U64Bytes(0) + CompressAll(removed)
  {
    CompressedAt(added, 0);
    var value, n := Encoded(parent, added, removed), 8 + 16 * |added|;
    assert value[8..] == CompressAll(added) + Tail(removed);
    assert value[8..n] == value[8..][..n - 8];
    assert value[n..] == value[8..][n - 8..];
  }

  lemma Associative<T>(a: seq<T>, b: seq<T>, c: seq<T>)
    ensures (a + b) + c == a + (b + c)
  {
  }

  method SaveStateDiff(diff: StateDiff) returns (value: Bytes, ghost added: seq<StateEvent>, ghost removed: seq<StateEvent>)
    ensures Orders(added, diff.added) && Orders(removed, diff.removed)
    ensures value == Encoded(diff.parent, added, removed)
  {
    value := U64Bytes(if diff.parent.Some? then diff.parent.value else 0);
    ghost var parent := value;
    var part;
    part, added := WriteAll(diff.added);
    value := value + part;
    removed := [];
    if diff.removed != {} {
      part, removed := WriteAll(diff.removed);
      assert removed != [];
      value := value + (U64Bytes(0) + part);
    } else {
      assert value == value + [];
    }
    Associative(parent, CompressAll(added), Tail(removed));
  }

  /** Reading the events from position `i` on, as `get_statediff` does. */
  function Decode(body: Bytes, addMode: bool): (set<StateEvent>, set<StateEvent>)
    decreases |body|
  {
    if |body| < 16 then ({}, {})
    else if addMode && body[..8] == U64Bytes(0) then Decode(body[8..], false)
    else
      var e := Decompress(body[..16]);
      var (added, removed) := Decode(body[16..], addMode);
      if addMode then (added + {e}, removed) else (added, removed + {e})
  }

  method GetStateDiff(value: Bytes) returns (diff: StateDiff)
    requires |value| >= 8
    ensures diff.parent == ParentOf(value)
    ensures (diff.added, diff.removed) == Decode(value[8..], true)
  {
    var parent := ReadU64(value[..8]);
    var addMode := true;
    var added: set<StateEvent>, removed: set<StateEvent> := {}, {};
    var i := 8;
    while i + 16 <= |value|
      invariant 8 <= i <= |value|
      invariant added + Decode(value[i..], addMode).0 == Decode(value[8..], true).0
      invariant removed + Decode(value[i..], addMode).1 == Decode(value[8..], true).1
    {
      var v := value[i..i + 16];
      assert value[i..][..16] == v && value[i..][..8] == v[..8];
      assert value[i..][8..] == value[i + 8..] && value[i..][16..] == value[i + 16..];
      if addMode && v[..8] == U64Bytes(0) {
        addMode := false;
        i := i + 8;
      } else {
        if addMode {
          added := added + {Decompress(v)};
        } else {
          removed := removed + {Decompress(v)};
        }
        i := i + 16;
      }
    }
    diff := StateDiff(if parent == 0 then None else Some(parent), added, removed);
  }

  // ---------------------------------------------------------------------
  // Round trip
  // ---------------------------------------------------------------------

  predicate Keyed(es: seq<StateEvent>) {
    forall e :: e in es ==> e.key != 0
  }

  lemma ZeroKeyBytes(e: StateEvent)
    ensures Compress(e)[..8] == U64Bytes(0) <==> e.key == 0
  {
    CompressRoundTrip(e);
    U64RoundTrip(e.key);
    U64RoundTrip(0);
  }

  lemma DecodeOne(e: StateEvent, rest: Bytes, addMode: bool)
    requires addMode ==> e.key != 0
    ensures var r := Decode(rest, addMode);
            Decode(Compress(e) + rest, addMode) == if addMode then (r.0 + {e}, r.1) else (r.0, r.1 + {e})
  {
    CompressRoundTrip(e);
    ZeroKeyBytes(e);
    var body := Compress(e) + rest;
    assert body[..16] == Compress(e) && body[..8] == Compress(e)[..8] && body[16..] == rest;
  }

  lemma {:induction false} DecodeRemoved(removed: seq<StateEvent>)
    ensures Decode(CompressAll(removed), false) == ({}, Elements(removed))
  {
    if removed == [] {
      assert Elements(removed) == {};
    } else {
      DecodeRemoved(removed[1..]);
      DecodeOne(removed[0], CompressAll(removed[1..]), false);
      assert Elements(removed) == Elements(removed[1..]) + {removed[0]};
    }
  }

  lemma FirstAndRest(es: seq<StateEvent>, others: set<StateEvent>)
    requires es != []
    ensures Elements(es) + others == Elements(es[1..]) + others + {es[0]}
  {
    assert Elements(es) == Elements(es[1..]) + {es[0]};
  }

  /** Up to the first event with a zero key, added events are read back. */
  lemma {:induction false} DecodeAdded(added: seq<StateEvent>, tail: Bytes)
    requires Keyed(added)
    ensures Decode(CompressAll(added) + tail, true)
         == (Elements(added) + Decode(tail, true).0, Decode(tail, true).1)
  {
    if added == [] {
      assert CompressAll(added) + tail == tail;
      assert Elements(added) + Decode(tail, true).0 == Decode(tail, true).0;
    } else {
      var rest := CompressAll(added[1..]) + tail;
      DecodeAdded(added[1..], tail);
      assert added[0] in added;
      DecodeOne(added[0], rest, true);
      Associative(Compress(added[0]), CompressAll(added[1..]), tail);
      FirstAndRest(added, Decode(tail, true).0);
    }
  }

  lemma DecodeTail(removed: seq<StateEvent>)
    ensures Decode(Tail(removed), true) == ({}, Elements(removed))
  {
    if removed == [] {
      assert Elements(removed) == {};
    } else {
      var tail := U64Bytes(0) + CompressAll(removed);
      assert |CompressAll(removed)| >= 16;
      assert tail[..8] == U64Bytes(0) && tail[8..] == CompressAll(removed);
      DecodeRemoved(removed);
    }
  }

  /** In the other mode nothing is added. */
  lemma {:induction false} DecodeLate(body: Bytes)
    ensures Decode(body, false).0 == {}
    decreases |body|
  {
    if |body| >= 16 {
      DecodeLate(body[16..]);
    }
  }

  lemma BytesOfU64(s: Bytes)
    requires |s| == 8
    ensures U64Bytes(ReadU64(s)) == s
  {
    U64Range();
    BigEndianBytes(s);
  }

  lemma {:induction false} BigEndianBytes(s: Bytes)
    ensures ToBigEndian(FromBigEndian(s), |s|) == s
  {
    if s != [] {
      BigEndianBytes(s[..|s| - 1]);
    }
  }

  /** Whatever was written, no added event with a zero key is read: its key is
      taken for the marker. */
  lemma {:induction false} ZeroKeyIsLost(body: Bytes, e: StateEvent)
    requires e.key == 0
    ensures e !in Decode(body, true).0
    decreases |body|
  {
    if |body| >= 16 {
      if body[..8] == U64Bytes(0) {
        DecodeLate(body[8..]);
      } else {
        ZeroKeyIsLost(body[16..], e);
        assert body[..16][..8] == body[..8];
        BytesOfU64(body[..8]);
      }
    }
  }

  lemma BodyRoundTrip(added: seq<StateEvent>, removed: seq<StateEvent>)
    ensures Decode(CompressAll(added) + Tail(removed), true) == (Elements(added), Elements(removed)) <==> Keyed(added)
  {
    if Keyed(added) {
      DecodeAdded(added, Tail(removed));
      DecodeTail(removed);
      assert Elements(added) + {} == Elements(added);
    } else {
      var e :| e in added && e.key == 0;
      ZeroKeyIsLost(CompressAll(added) + Tail(removed), e);
    }
  }

  function ParentOf(value: Bytes): Option<U64>
    requires |value| >= 8
  {
    var parent := ReadU64(value[..8]);
    if parent == 0 then None else Some(parent)
  }

  lemma ParentRoundTrip(parent: Option<U64>, body: Bytes)
    ensures ParentOf(U64Bytes(if parent.Some? then parent.value else 0) + body) == parent <==> parent != Some(0)
  {
    var p := if parent.Some? then parent.value else 0;
    U64RoundTrip(p);
    assert (U64Bytes(p) + body)[..8] == U64Bytes(p);
  }

  /** Saving and reading back gives the same diff exactly when the parent is not
      hash zero and no added event has short state key zero, in every iteration
      order of the sets. */
  lemma StateDiffRoundTrip(diff: StateDiff, added: seq<StateEvent>, removed: seq<StateEvent>)
    requires Orders(added, diff.added) && Orders(removed, diff.removed)
    ensures var value := Encoded(diff.parent, added, removed);
            && |value| >= 8
            && (ParentOf(value) == diff.parent && Decode(value[8..], true) == (diff.added, diff.removed)
                <==> diff.parent != Some(0) && forall e :: e in diff.added ==> e.key != 0)
  {
    var value := Encoded(diff.parent, added, removed);
    var body := CompressAll(added) + Tail(removed);
    var parent := U64Bytes(if diff.parent.Some? then diff.parent.value else 0);
    assert value[8..] == body;
    ParentRoundTrip(diff.parent, body);
    BodyRoundTrip(added, removed);
    assert Keyed(added) <==> forall e :: e in Elements(added) ==> e.key != 0;
  }

  /** The diff a stored value stands for. */
  function DiffOf(value: Bytes): StateDiff
    requires |value| >= 8
  {
    StateDiff(ParentOf(value), Decode(value[8..], true).0, Decode(value[8..], true).1)
  }

  /** What of a diff is read back: a parent of hash zero is not, the events are if
      no added key is zero, and added events with a zero key never. */
  lemma StoredDiff(diff: StateDiff, added: seq<StateEvent>, removed: seq<StateEvent>)
    requires Orders(added, diff.added) && Orders(removed, diff.removed)
    ensures var value := Encoded(diff.parent, added, removed);
            && |value| >= 8
            && DiffOf(value).parent == (if diff.parent == Some(0) then None else diff.parent)
            && ((forall e | e in diff.added :: e.key != 0) ==>
                  DiffOf(value).added == diff.added && DiffOf(value).removed == diff.removed)
            && (forall e | e in DiffOf(value).added :: e.key != 0)
  {
    var value := Encoded(diff.parent, added, removed);
    var p := if diff.parent.Some? then diff.parent.value else 0;
    assert value[8..] == CompressAll(added) + Tail(removed);
    U64RoundTrip(p);
    assert value[..8] == U64Bytes(p);
    BodyRoundTrip(added, removed);
    assert Keyed(added) <==> forall e :: e in Elements(added) ==> e.key != 0;
    forall e | e in DiffOf(value).added ensures e.key != 0 {
      if e.key == 0 {
        ZeroKeyIsLost(value[8..], e);
      }
    }
  }
}
