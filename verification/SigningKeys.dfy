/** Stored signing keys of other servers: how replies update them, and which
    keys are accepted at a timestamp. */
module SigningKeys {
  import opened Collections

  type KeyId = nat
  type KeyBytes = nat
  type Server = nat

  datatype OldVerifyKey = OldVerifyKey(expired: nat, key: KeyBytes)

  datatype Keys = Keys(verify: map<KeyId, KeyBytes>, retired: map<KeyId, OldVerifyKey>, validUntil: nat)

  /** A reply comes from a trusted server, or from the server itself. */
  datatype Update = FromTrusted(keys: Keys) | FromOrigin(keys: Keys)

  function Ids(k: Keys): set<KeyId> {
    k.verify.Keys + k.retired.Keys
  }

  /** Verify keys that the origin no longer lists, retired when the stored reply
      ceased to be valid. */
  function Retired(prev: Keys, next: Keys): map<KeyId, OldVerifyKey> {
    map id | id in prev.verify && id !in next.verify :: OldVerifyKey(prev.validUntil, prev.verify[id])
  }

  function Updated(prev: Keys, u: Update): Keys {
    match u
    case FromTrusted(k) => Keys(prev.verify + k.verify, prev.retired + k.retired, k.validUntil)
    case FromOrigin(k) => Keys(k.verify, prev.retired + Retired(prev, k) + k.retired, k.validUntil)
  }

  function UpdatedAll(first: Keys, updates: seq<Update>): Keys {
    if updates == [] then first
    else Updated(UpdatedAll(first, updates[..|updates| - 1]), updates[|updates| - 1])
  }

  // ---------------------------------------------------------------------
  // Acceptance
  // ---------------------------------------------------------------------

  /** `filter_keys_single_server`: verify keys first, then old keys that have not
      expired, which replace verify keys of the same id. */
  function FilterSingle(k: Keys, timestamp: nat): Option<map<KeyId, KeyBytes>> {
    if k.validUntil > timestamp then
      Some(k.verify + map id | id in k.retired && k.retired[id].expired > timestamp :: k.retired[id].key)
    else None
  }

  /** `filter_keys_server_map`. */
  function FilterServers(keys: map<Server, Keys>, timestamp: nat): map<Server, map<KeyId, KeyBytes>> {
    map server | server in keys && FilterSingle(keys[server], timestamp).Some?
      :: FilterSingle(keys[server], timestamp).value
  }

  predicate Accepted(k: Keys, id: KeyId, timestamp: nat) {
    FilterSingle(k, timestamp).Some? && id in FilterSingle(k, timestamp).value
  }

  /** A key is accepted if it is current, or old and not expired; with both, the
      bytes are those of the old one. */
  lemma AcceptedExactly(k: Keys, id: KeyId, timestamp: nat)
    ensures Accepted(k, id, timestamp) <==>
              && timestamp < k.validUntil
              && (id in k.verify || (id in k.retired && timestamp < k.retired[id].expired))
    ensures Accepted(k, id, timestamp) ==>
              FilterSingle(k, timestamp).value[id] ==
                if id in k.retired && timestamp < k.retired[id].expired then k.retired[id].key else k.verify[id]
  {
  }

  function Lookup(k: Keys, id: KeyId, timestamp: nat): Option<KeyBytes> {
    if Accepted(k, id, timestamp) then Some(FilterSingle(k, timestamp).value[id]) else None
  }

  /** Across servers, a key is accepted exactly where its own server's is. */
  lemma ServersAreFilteredApart(keys: map<Server, Keys>, timestamp: nat, server: Server, id: KeyId)
    ensures server in FilterServers(keys, timestamp) && id in FilterServers(keys, timestamp)[server]
        <==> server in keys && Accepted(keys[server], id, timestamp)
  {
  }

  // ---------------------------------------------------------------------
  // Updates
  // ---------------------------------------------------------------------

  function Find(keys: map<KeyId, KeyBytes>, id: KeyId): Option<KeyBytes> {
    if id in keys then Some(keys[id]) else None
  }

  function FindOld(keys: map<KeyId, OldVerifyKey>, id: KeyId, timestamp: nat): Option<KeyBytes> {
    if id in keys && timestamp < keys[id].expired then Some(keys[id].key) else None
  }

  function Or(a: Option<KeyBytes>, b: Option<KeyBytes>): Option<KeyBytes> {
    if a.Some? then a else b
  }

  /** What is accepted after an update, said in terms of the two replies. An old
      entry of the new reply decides about the old key. Without one, a key that the
      origin dropped is good until the stored reply would have run out, and other
      old keys are what they were. The current key comes next: that of the new
      reply, or, if that is a trusted server's, that of the stored one. */
  function AcceptedAfter(prev: Keys, u: Update, id: KeyId, timestamp: nat): Option<KeyBytes> {
    var next := u.keys;
    var dropped := u.FromOrigin? && id in prev.verify && id !in next.verify;
    if timestamp >= next.validUntil then None
    else
      Or(if id in next.retired then FindOld(next.retired, id, timestamp)
         else if dropped then (if timestamp < prev.validUntil then Some(prev.verify[id]) else None)
         else FindOld(prev.retired, id, timestamp),
         Or(Find(next.verify, id), if u.FromTrusted? then Find(prev.verify, id) else None))
  }

  /** At every time, before and after either reply runs out. */
  lemma UpdatedExactly(prev: Keys, u: Update, id: KeyId, timestamp: nat)
    ensures Lookup(Updated(prev, u), id, timestamp) == AcceptedAfter(prev, u, id, timestamp)
  {
    AcceptedExactly(Updated(prev, u), id, timestamp);
  }

  /** A key that the origin drops, without listing it as old, is accepted exactly
      as long as the stored reply was valid, while the new one is. */
  lemma DroppedKeyExpires(prev: Keys, next: Keys, id: KeyId, timestamp: nat)
    requires id in prev.verify && id !in Ids(next)
    ensures Accepted(Updated(prev, FromOrigin(next)), id, timestamp) <==> timestamp < prev.validUntil && timestamp < next.validUntil
  {
    UpdatedExactly(prev, FromOrigin(next), id, timestamp);
  }

  /** The reply lists the key only as old, and expired by then. A trusted server's
      reply does not stop the key from being current, if it was. */
  predicate RelistedExpired(prev: Keys, u: Update, id: KeyId, timestamp: nat) {
    && id !in u.keys.verify && (u.FromTrusted? ==> id !in prev.verify)
    && id in u.keys.retired && u.keys.retired[id].expired <= timestamp
  }

  /** An update retracts a key, at a time both replies are valid for, exactly when
      the new reply lists it as an old key that had expired by then. */
  lemma UpdateRetractsOnlyRelisted(prev: Keys, u: Update, id: KeyId, timestamp: nat)
    requires Accepted(prev, id, timestamp) && timestamp < u.keys.validUntil
    ensures Accepted(Updated(prev, u), id, timestamp) <==> !RelistedExpired(prev, u, id, timestamp)
  {
    AcceptedExactly(prev, id, timestamp);
    AcceptedExactly(Updated(prev, u), id, timestamp);
  }

  /** What an update newly accepts comes from the reply, or was only hidden by
      the stored reply having run out. */
  lemma UpdateAcceptsOnlyListed(prev: Keys, u: Update, id: KeyId, timestamp: nat)
    requires Accepted(Updated(prev, u), id, timestamp) && timestamp < prev.validUntil
    ensures Accepted(prev, id, timestamp) || id in Ids(u.keys)
  {
    AcceptedExactly(prev, id, timestamp);
    AcceptedExactly(Updated(prev, u), id, timestamp);
  }

  /** The store holds two different keys under one id, the old one unexpired. */
  predicate Shadowed(k: Keys, id: KeyId, timestamp: nat) {
    && id in k.verify && id in k.retired && timestamp < k.retired[id].expired
    && k.verify[id] != k.retired[id].key
  }

  /** A key the reply does not mention stays accepted, with the same bytes exactly
      unless the origin's reply retires a verify key over a different old key of
      the same id. */
  lemma UnmentionedKeysKeepTheirBytes(prev: Keys, u: Update, id: KeyId, timestamp: nat)
    requires Accepted(prev, id, timestamp) && timestamp < u.keys.validUntil && id !in Ids(u.keys)
    ensures Accepted(Updated(prev, u), id, timestamp)
    ensures FilterSingle(Updated(prev, u), timestamp).value[id] == FilterSingle(prev, timestamp).value[id]
        <==> !(u.FromOrigin? && Shadowed(prev, id, timestamp))
  {
    AcceptedExactly(prev, id, timestamp);
    AcceptedExactly(Updated(prev, u), id, timestamp);
  }

  /** An origin that takes an id up again for another key: the key it had under it
      is retired by the second reply, and unexpired as long as the first was valid.
      A fourth reply without the id then changes the bytes accepted under it. */
  lemma ReusedIdIsShadowed(id: KeyId, a: KeyBytes, b: KeyBytes, until: nat, timestamp: nat)
    requires a != b && timestamp < until
    ensures var first, without, again := Keys(map[id := a], map[], until), Keys(map[], map[], until), Keys(map[id := b], map[], until);
            var stored := UpdatedAll(first, [FromOrigin(without), FromOrigin(again)]);
            && Shadowed(stored, id, timestamp)
            && FilterSingle(stored, timestamp).value[id] == a
            && FilterSingle(Updated(stored, FromOrigin(without)), timestamp).value[id] == b
  {
    var first, without, again := Keys(map[id := a], map[], until), Keys(map[], map[], until), Keys(map[id := b], map[], until);
    var updates := [FromOrigin(without), FromOrigin(again)];
    assert updates[..1] == [FromOrigin(without)] && updates[..1][..0] == [];
    assert UpdatedAll(first, updates[..1]) == Updated(first, FromOrigin(without));
  }

  /** Acceptance survives any run of updates valid at that time, none of which
      lists the key as expired by then. */
  lemma {:induction false} AcceptanceSurvivesUpdates(first: Keys, updates: seq<Update>, id: KeyId, timestamp: nat)
    requires Accepted(first, id, timestamp)
    requires forall u: Update | u in updates ::
      timestamp < u.keys.validUntil && (id in u.keys.retired ==> timestamp < u.keys.retired[id].expired)
    ensures Accepted(UpdatedAll(first, updates), id, timestamp)
  {
    if updates != [] {
      var n := |updates| - 1;
      AcceptanceSurvivesUpdates(first, updates[..n], id, timestamp);
      assert updates[n] in updates;
      UpdateRetractsOnlyRelisted(UpdatedAll(first, updates[..n]), updates[n], id, timestamp);
    }
  }

  /** Over any sequence of updates no key id is ever forgotten. */
  lemma {:induction false} KeyIdsAreNeverForgotten(first: Keys, updates: seq<Update>, n: nat)
    requires n <= |updates|
    ensures Ids(UpdatedAll(first, updates[..n])) <= Ids(UpdatedAll(first, updates))
    ensures n > 0 ==> Ids(updates[n - 1].keys) <= Ids(UpdatedAll(first, updates))
  {
    if n == |updates| {
      assert updates[..n] == updates;
    } else {
      var init := updates[..|updates| - 1];
      KeyIdsAreNeverForgotten(first, init, n);
      assert init[..n] == updates[..n];
    }
  }

  class KeyStore {
    var stored: map<Server, Keys>

    constructor ()
      ensures stored == map[]
    {
      stored := map[];
    }

    /** `add_signing_key_from_trusted_server`. */
    method AddFromTrusted(origin: Server, newKeys: Keys) returns (r: Keys)
      modifies this
      ensures r == if origin in old(stored) then Updated(old(stored)[origin], FromTrusted(newKeys)) else newKeys
      ensures stored == old(stored)[origin := r]
    {
      if origin in stored {
        var prev := stored[origin];
        r := Keys(prev.verify + newKeys.verify, prev.retired + newKeys.retired, newKeys.validUntil);
      } else {
        r := newKeys;
      }
      stored := stored[origin := r];
    }

    /** `add_signing_key_from_origin`, with its loop over the stored keys. */
    method AddFromOrigin(origin: Server, newKeys: Keys) returns (r: Keys)
      modifies this
      ensures r == if origin in old(stored) then Updated(old(stored)[origin], FromOrigin(newKeys)) else newKeys
      ensures stored == old(stored)[origin := r]
    {
      if origin in stored {
        var prev := stored[origin];
        var oldKeys := prev.retired;
        var rest := prev.verify.Keys;
        while rest != {}
          invariant rest <= prev.verify.Keys
          invariant oldKeys == prev.retired + (map id | id in Retired(prev, newKeys) && id !in rest :: Retired(prev, newKeys)[id])
          decreases rest
        {
          var id :| id in rest;
          rest := rest - {id};
          if id !in newKeys.verify {
            oldKeys := oldKeys[id := OldVerifyKey(prev.validUntil, prev.verify[id])];
          }
        }
        assert oldKeys == prev.retired + Retired(prev, newKeys);
        r := Keys(newKeys.verify, oldKeys + newKeys.retired, newKeys.validUntil);
      } else {
        r := newKeys;
      }
      stored := stored[origin := r];
    }
  }
}
