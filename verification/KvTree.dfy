/** One ordered tree of a key-value engine: what its iterators yield. */
module KvTree {
  import opened Bytes

  type Tree = map<Bytes, Bytes>

  predicate Ascending(keys: seq<Bytes>) {
    forall i, j :: 0 <= i < j < |keys| ==> Below(keys[i], keys[j])
  }

  predicate IsLeast(m: Bytes, keys: set<Bytes>) {
    m in keys && forall k :: k in keys ==> AtMost(m, k)
  }

  lemma {:induction false} LeastExists(keys: set<Bytes>)
    requires keys != {}
    ensures exists m :: IsLeast(m, keys)
    decreases |keys|
  {
    var x :| x in keys;
    var rest := keys - {x};
    if rest == {} {
      assert keys == {x};
      assert IsLeast(x, keys);
    } else {
      LeastExists(rest);
      var m :| IsLeast(m, rest);
      BelowConnected(x, m);
      var l := if Below(x, m) then x else m;
      forall k | k in keys ensures AtMost(l, k) {
        if k in rest && Below(x, m) && Below(m, k) {
          BelowTransitive(x, m, k);
        }
      }
      assert IsLeast(l, keys);
    }
  }

  lemma LeastIsUnique(m: Bytes, n: Bytes, keys: set<Bytes>)
    requires IsLeast(m, keys) && IsLeast(n, keys)
    ensures m == n
  {
    if m != n {
      BelowTransitive(m, n, m);
      BelowIrreflexive(m);
    }
  }

  function Least(keys: set<Bytes>): (m: Bytes)
    requires keys != {}
    ensures IsLeast(m, keys)
  {
    LeastExists(keys);
    assert forall m, n | IsLeast(m, keys) && IsLeast(n, keys) :: m == n by {
      forall m, n | IsLeast(m, keys) && IsLeast(n, keys) ensures m == n {
        LeastIsUnique(m, n, keys);
      }
    }
    var m :| m in keys && IsLeast(m, keys);
    m
  }

  /** The keys of a set in the order of the tree. */
  function InOrder(keys: set<Bytes>): (r: seq<Bytes>)
    ensures |r| == |keys|
    ensures forall k :: k in r <==> k in keys
    ensures Ascending(r)
    decreases |keys|
  {
    if keys == {} then []
    else
      var m := Least(keys);
      var r := [m] + InOrder(keys - {m});
      assert forall j | 1 <= j < |r| :: r[j] in keys - {m};
      r
  }

  /** `iter_from(from, false)`. */
  function IterFrom(t: Tree, from: Bytes): seq<Bytes> {
    InOrder(set k | k in t && AtMost(from, k))
  }

  /** `take_while(|k| k.starts_with(prefix))`. */
  function TakePrefix(keys: seq<Bytes>, prefix: Bytes): (r: seq<Bytes>)
    ensures r <= keys
    ensures forall k :: k in r ==> prefix <= k
    ensures |r| < |keys| ==> !(prefix <= keys[|r|])
  {
    if keys != [] && prefix <= keys[0] then [keys[0]] + TakePrefix(keys[1..], prefix) else []
  }

  function ScanPrefix(t: Tree, prefix: Bytes): seq<Bytes> {
    TakePrefix(IterFrom(t, prefix), prefix)
  }

  lemma {:induction false} TakePrefixReaches(keys: seq<Bytes>, prefix: Bytes, from: Bytes, i: nat)
    requires Ascending(keys) && prefix <= from && i < |keys| && prefix <= keys[i]
    requires forall k :: k in keys ==> AtMost(from, k)
    ensures i < |TakePrefix(keys, prefix)|
  {
    assert keys[0] in keys;
    PrefixRunIsContiguous(prefix, from, keys[0], keys[i]);
    if i > 0 {
      TakePrefixReaches(keys[1..], prefix, from, i - 1);
    }
  }

  lemma PrefixOfAscending(r: seq<Bytes>, keys: seq<Bytes>)
    requires Ascending(keys) && r <= keys
    ensures Ascending(r)
  {
    assert forall i | 0 <= i < |r| :: r[i] == keys[i];
  }

  /** From a lower bound that itself has the prefix, the scan yields exactly the
      keys with the prefix at or above the bound, in ascending order. */
  lemma TakePrefixExact(t: Tree, prefix: Bytes, from: Bytes)
    requires prefix <= from
    ensures Ascending(TakePrefix(IterFrom(t, from), prefix))
    ensures forall k :: k in TakePrefix(IterFrom(t, from), prefix) <==> k in t && prefix <= k && AtMost(from, k)
  {
    var all := IterFrom(t, from);
    var r := TakePrefix(all, prefix);
    PrefixOfAscending(r, all);
    forall k | k in t && prefix <= k && AtMost(from, k) ensures k in r {
      assert k in all;
      var i :| 0 <= i < |all| && all[i] == k;
      TakePrefixReaches(all, prefix, from, i);
      assert r[i] == k;
    }
    forall k | k in r ensures k in all {
      var i :| 0 <= i < |r| && r[i] == k;
      assert all[i] == k;
    }
  }

  lemma ScanPrefixExact(t: Tree, prefix: Bytes)
    ensures Ascending(ScanPrefix(t, prefix))
    ensures forall k :: k in ScanPrefix(t, prefix) <==> k in t && prefix <= k
  {
    TakePrefixExact(t, prefix, prefix);
    forall k | prefix <= k ensures AtMost(prefix, k) {
      PrefixAtMost(prefix, k[|prefix|..]);
      assert prefix + k[|prefix|..] == k;
    }
  }

  lemma AscendingIsDistinct(keys: seq<Bytes>, i: nat, j: nat)
    requires Ascending(keys) && i < j < |keys|
    ensures keys[i] != keys[j]
  {
    BelowIrreflexive(keys[i]);
  }
}
