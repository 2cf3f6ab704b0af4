/** Keys of the two account data trees. */
module AccountDataKeys {
  import opened Bytes

  /** A kind of account data; global data has the empty room. */
  datatype Slot = Slot(room: Bytes, user: Bytes, kind: Bytes)

  predicate TextSlot(s: Slot) {
    Text(s.room) && Text(s.user) && Text(s.kind)
  }

  function Prefix(room: Bytes, user: Bytes): Bytes {
    Field(room) + Field(user)
  }

  /** Key of `roomusertype_roomuserdataid`. */
  function IndexKey(s: Slot): Bytes {
    Prefix(s.room, s.user) + s.kind
  }

  /** Key of `roomuserdataid_accountdata`. */
  function DataKey(s: Slot, count: nat): Bytes
    requires count <= U64_MAX
  {
    Prefix(s.room, s.user) + (U64Bytes(count) + ([SEPARATOR] + s.kind))
  }

  lemma PrefixAssociates(room: Bytes, user: Bytes, x: Bytes)
    ensures Prefix(room, user) + x == Field(room) + (Field(user) + x)
  {
  }

  /** A key below a user's prefix is that user's. */
  lemma PrefixIsFree(room: Bytes, user: Bytes, room': Bytes, user': Bytes, x: Bytes)
    requires Text(room) && Text(user) && Text(room') && Text(user')
    requires Prefix(room, user) <= Prefix(room', user') + x
    ensures room == room' && user == user'
  {
    var key := Prefix(room', user') + x;
    var y := key[|Prefix(room, user)|..];
    assert key == Prefix(room, user) + y;
    PrefixAssociates(room, user, y);
    PrefixAssociates(room', user', x);
    FieldSplitsUniquely(room, Field(user) + y, room', Field(user') + x);
    FieldSplitsUniquely(user, y, user', x);
  }

  lemma IndexKeyInjective(s: Slot, t: Slot)
    requires TextSlot(s) && TextSlot(t) && IndexKey(s) == IndexKey(t)
    ensures s == t
  {
    assert Prefix(s.room, s.user) <= IndexKey(t);
    PrefixIsFree(s.room, s.user, t.room, t.user, t.kind);
    assert s.kind == IndexKey(s)[|Prefix(s.room, s.user)|..] == t.kind;
  }

  lemma DataKeyInjective(s: Slot, m: nat, t: Slot, n: nat)
    requires TextSlot(s) && TextSlot(t) && m <= U64_MAX && n <= U64_MAX
    requires DataKey(s, m) == DataKey(t, n)
    ensures s == t && m == n
  {
    assert Prefix(s.room, s.user) <= DataKey(t, n);
    PrefixIsFree(s.room, s.user, t.room, t.user, U64Bytes(n) + ([SEPARATOR] + t.kind));
    var p := |Prefix(s.room, s.user)|;
    assert U64Bytes(m) + ([SEPARATOR] + s.kind) == DataKey(s, m)[p..]
        == DataKey(t, n)[p..] == U64Bytes(n) + ([SEPARATOR] + t.kind);
    assert U64Bytes(m) == (U64Bytes(m) + ([SEPARATOR] + s.kind))[..8] == U64Bytes(n);
    U64Range();
    BigEndianInjective(m, n, 8);
    assert s.kind == (U64Bytes(m) + ([SEPARATOR] + s.kind))[9..] == t.kind;
  }

  /** The last part of `rsplit` on the separator. */
  function LastPart(key: Bytes): Bytes {
    if key == [] || key[|key| - 1] == SEPARATOR then []
    else LastPart(key[..|key| - 1]) + [key[|key| - 1]]
  }

  lemma {:induction false} LastPartOf(x: Bytes, kind: Bytes)
    requires Text(kind)
    ensures LastPart(x + [SEPARATOR] + kind) == kind
  {
    var key := x + [SEPARATOR] + kind;
    if kind != [] {
      var init := kind[..|kind| - 1];
      LastPartOf(x, init);
      assert key[..|key| - 1] == x + [SEPARATOR] + init;
      assert key[|key| - 1] == kind[|kind| - 1];
      assert kind == init + [kind[|kind| - 1]];
    }
  }

  lemma KindOfDataKey(s: Slot, count: nat)
    requires TextSlot(s) && count <= U64_MAX
    ensures LastPart(DataKey(s, count)) == s.kind
  {
    var x := Prefix(s.room, s.user) + U64Bytes(count);
    assert DataKey(s, count) == x + [SEPARATOR] + s.kind;
    LastPartOf(x, s.kind);
  }

  /** Where `changes_since` starts reading. */
  function FirstPossible(room: Bytes, user: Bytes, since: nat): Bytes
    requires since < U64_MAX
  {
    Prefix(room, user) + U64Bytes(since + 1)
  }

  /** Within one user's keys, byte order from there on is "count above since". */
  lemma FirstPossibleSplitsByCount(s: Slot, count: nat, since: nat)
    requires count <= U64_MAX && since < U64_MAX
    ensures AtMost(FirstPossible(s.room, s.user, since), DataKey(s, count)) <==> count > since
  {
    var p, tail := Prefix(s.room, s.user), [SEPARATOR] + s.kind;
    var a, b := U64Bytes(since + 1), U64Bytes(count);
    BelowCommonPrefix(p, a, b + tail);
    assert FirstPossible(s.room, s.user, since) != DataKey(s, count);
    U64Range();
    BigEndianOrder(since + 1, count, 8);
    if since + 1 == count {
      PrefixAtMost(a, tail);
    } else {
      if a == b {
        BigEndianInjective(since + 1, count, 8);
      }
      BelowEqualLengthBlocks(a, b, [], tail);
      assert a + [] == a;
    }
  }
}
