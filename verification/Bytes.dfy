/** Byte strings as the key-value trees see them: the order of keys, big-endian
    counters and 0xFF-separated fields. */
module Bytes {

  type Byte = x: int | 0 <= x < 256
  type Bytes = seq<Byte>

  const SEPARATOR: Byte := 0xFF
  const U64_MAX: nat := 0xFFFF_FFFF_FFFF_FFFF

  /** Text fields (identifiers, names, types) are UTF-8, which never contains
      the byte 0xFF. */
  predicate Text(s: Bytes) {
    SEPARATOR !in s
  }

  // ---------------------------------------------------------------------
  // Key order
  // ---------------------------------------------------------------------

  /** The order in which a tree iterates over its keys. */
  predicate Below(a: Bytes, b: Bytes) {
    if b == [] then false
    else if a == [] then true
    else a[0] < b[0] || (a[0] == b[0] && Below(a[1..], b[1..]))
  }

  predicate AtMost(a: Bytes, b: Bytes) {
    a == b || Below(a, b)
  }

  lemma {:induction false} BelowIrreflexive(a: Bytes)
    ensures !Below(a, a)
  {
    if a != [] {
      BelowIrreflexive(a[1..]);
    }
  }

  lemma {:induction false} BelowTransitive(a: Bytes, b: Bytes, c: Bytes)
    requires Below(a, b) && Below(b, c)
    ensures Below(a, c)
  {
    if a != [] && a[0] == b[0] == c[0] {
      BelowTransitive(a[1..], b[1..], c[1..]);
    }
  }

  lemma {:induction false} BelowConnected(a: Bytes, b: Bytes)
    ensures Below(a, b) || a == b || Below(b, a)
  {
    if a != [] && b != [] {
      BelowConnected(a[1..], b[1..]);
      if a[0] == b[0] && a[1..] == b[1..] {
        assert a == [a[0]] + a[1..] == [b[0]] + b[1..] == b;
      }
    }
  }

  /** A common prefix does not take part in the comparison. */
  lemma {:induction false} BelowCommonPrefix(p: Bytes, a: Bytes, b: Bytes)
    ensures Below(p + a, p + b) <==> Below(a, b)
  {
    if p == [] {
      assert p + a == a && p + b == b;
    } else {
      assert (p + a)[1..] == p[1..] + a && (p + b)[1..] == p[1..] + b;
      BelowCommonPrefix(p[1..], a, b);
    }
  }

  /** Between blocks of equal length that differ, the blocks decide. */
  lemma {:induction false} BelowEqualLengthBlocks(a: Bytes, b: Bytes, x: Bytes, y: Bytes)
    requires |a| == |b| && a != b
    ensures Below(a + x, b + y) <==> Below(a, b)
  {
    assert (a + x)[1..] == a[1..] + x && (b + y)[1..] == b[1..] + y;
    if a[0] == b[0] {
      assert a == [a[0]] + a[1..] && b == [b[0]] + b[1..];
      BelowEqualLengthBlocks(a[1..], b[1..], x, y);
    }
  }

  lemma {:induction false} PrefixAtMost(a: Bytes, x: Bytes)
    ensures AtMost(a, a + x)
  {
    if x == [] {
      assert a + x == a;
    } else {
      BelowCommonPrefix(a, [], x);
      assert a + [] == a;
    }
  }

  /** Keys that extend a prefix form one contiguous run of the order. */
  lemma {:induction false} PrefixRunIsContiguous(p: Bytes, a: Bytes, b: Bytes, c: Bytes)
    requires p <= a && p <= c && AtMost(a, b) && AtMost(b, c)
    ensures p <= b
  {
    if p != [] && a != b && b != c {
      PrefixRunIsContiguous(p[1..], a[1..], b[1..], c[1..]);
      assert b == [b[0]] + b[1..];
    }
  }

  // ---------------------------------------------------------------------
  // Big-endian counters
  // ---------------------------------------------------------------------

  function Pow256(k: nat): (r: nat)
    ensures r > 0
  {
    if k == 0 then 1 else 256 * Pow256(k - 1)
  }

  /** `to_be_bytes`, for a counter of `width` bytes. */
  function ToBigEndian(n: nat, width: nat): (r: Bytes)
    requires n < Pow256(width)
    ensures |r| == width
  {
    if width == 0 then []
    else ToBigEndian(n / 256, width - 1) + [n % 256]
  }

  /** `from_be_bytes`. */
  function FromBigEndian(s: Bytes): (n: nat)
    ensures n < Pow256(|s|)
  {
    if s == [] then 0
    else 256 * FromBigEndian(s[..|s| - 1]) + s[|s| - 1]
  }

  lemma {:induction false} BigEndianRoundTrip(n: nat, width: nat)
    requires n < Pow256(width)
    ensures FromBigEndian(ToBigEndian(n, width)) == n
  {
    if width > 0 {
      BigEndianRoundTrip(n / 256, width - 1);
      assert ToBigEndian(n, width)[..width - 1] == ToBigEndian(n / 256, width - 1);
    }
  }

  /** Big-endian order is numeric order. */
  lemma {:induction false} BigEndianOrder(a: nat, b: nat, width: nat)
    requires a < Pow256(width) && b < Pow256(width)
    ensures Below(ToBigEndian(a, width), ToBigEndian(b, width)) <==> a < b
  {
    if width > 0 {
      var x, y := ToBigEndian(a / 256, width - 1), ToBigEndian(b / 256, width - 1);
      BigEndianOrder(a / 256, b / 256, width - 1);
      if x == y {
        BelowIrreflexive(x);
        BigEndianOrder(b / 256, a / 256, width - 1);
        BelowCommonPrefix(x, [a % 256], [b % 256]);
      } else {
        BelowEqualLengthBlocks(x, y, [a % 256], [b % 256]);
      }
    }
  }

  lemma BigEndianInjective(a: nat, b: nat, width: nat)
    requires a < Pow256(width) && b < Pow256(width)
    requires ToBigEndian(a, width) == ToBigEndian(b, width)
    ensures a == b
  {
    BigEndianRoundTrip(a, width);
    BigEndianRoundTrip(b, width);
  }

  lemma U64Range()
    ensures Pow256(8) == U64_MAX + 1
  {
    assert Pow256(2) == 0x1_0000;
    assert Pow256(4) == 0x1_0000_0000;
    assert Pow256(6) == 0x1_0000_0000_0000;
  }

  /** The eight bytes of an unsigned 64-bit counter. */
  function U64Bytes(n: nat): (r: Bytes)
    requires n <= U64_MAX
    ensures |r| == 8
  {
    U64Range();
    ToBigEndian(n, 8)
  }

  // ---------------------------------------------------------------------
  // 0xFF-separated fields
  // ---------------------------------------------------------------------

  /** A text field, closed by the separator. */
  function Field(s: Bytes): Bytes {
    s + [SEPARATOR]
  }

  /** The first field of a key is determined by the key, and by any prefix of
      the key that contains the field. */
  lemma FieldIsPrefixFree(a: Bytes, b: Bytes, x: Bytes)
    requires Text(a) && Text(b)
    requires Field(a) <= Field(b) + x
    ensures a == b
  {
    var key := Field(b) + x;
    assert key[|b|] == SEPARATOR && key[..|b|] == b;
    assert key[|a|] == Field(a)[|a|] == SEPARATOR;
    assert key[..|a|] == Field(a)[..|a|] == a;
    assert forall i | 0 <= i < |b| :: key[i] == b[i];
    assert forall i | 0 <= i < |a| :: key[i] == a[i];
    assert |a| == |b|;
  }

  lemma FieldSplitsUniquely(a: Bytes, x: Bytes, b: Bytes, y: Bytes)
    requires Text(a) && Text(b)
    requires Field(a) + x == Field(b) + y
    ensures a == b && x == y
  {
    assert Field(a) <= Field(b) + y;
    FieldIsPrefixFree(a, b, y);
    assert x == (Field(a) + x)[|a| + 1..] == (Field(b) + y)[|b| + 1..] == y;
  }
}
