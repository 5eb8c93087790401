/**
The per-realm cache of token-signing keys: JWK Sets (section 5 of RFC 7517) fetched from
the identity server and kept for a fixed time.
*/
module JwksCache {
  import opened Wrappers

  /** An RSA public key. */
  datatype Key = Key(n: nat, e: nat)

  type KeySet = map<string, Key>

  /** One member of a JWK Set; modulus and exponent are None when they cannot be decoded. */
  datatype Jwk = Jwk(kid: string, alg: string, use: string, n: Option<nat>, e: Option<nat>)

  const ADMIN := "admin"

  /** Ten minutes, in seconds. */
  const TTL := 600

  predicate Usable(k: Jwk) {
    k.alg == "RS256" && k.use == "sig" && k.n.Some? && k.e.Some?
  }

  /** The usable keys by their id; of two with the same id the later one counts. */
  function Collect(jwks: seq<Jwk>): KeySet {
    if jwks == [] then map[]
    else
      var front, k := Collect(jwks[..|jwks| - 1]), jwks[|jwks| - 1];
      if Usable(k) then front[k.kid := Key(k.n.value, k.e.value)] else front
  }

  /** Every cached key is a usable member of the set that was served, and every usable id is cached. */
  lemma {:induction false} CollectedKeysWereServed(jwks: seq<Jwk>, kid: string)
    ensures kid in Collect(jwks) <==> exists i :: 0 <= i < |jwks| && Usable(jwks[i]) && jwks[i].kid == kid
    ensures kid in Collect(jwks) ==>
      exists i :: 0 <= i < |jwks| && Usable(jwks[i]) && jwks[i].kid == kid &&
                  Collect(jwks)[kid] == Key(jwks[i].n.value, jwks[i].e.value)
  {
    if jwks != [] {
      var last := |jwks| - 1;
      CollectedKeysWereServed(jwks[..last], kid);
      assert forall i :: 0 <= i < last ==> jwks[..last][i] == jwks[i];
      if Usable(jwks[last]) && jwks[last].kid == kid {
        assert Collect(jwks)[kid] == Key(jwks[last].n.value, jwks[last].e.value);
      } else if kid in Collect(jwks[..last]) {
        var i :| 0 <= i < last && Usable(jwks[..last][i]) && jwks[..last][i].kid == kid &&
          Collect(jwks[..last])[kid] == Key(jwks[..last][i].n.value, jwks[..last][i].e.value);
        assert Usable(jwks[i]) && jwks[i].kid == kid && Collect(jwks)[kid] == Key(jwks[i].n.value, jwks[i].e.value);
      }
    }
  }

  /** A usable member of the set: an RSA key for signatures that can be decoded. */
  predicate Brings(k: Jwk, kid: string) {
    k.kid == kid && k.alg == "RS256" && k.use == "sig" && k.n.Some? && k.e.Some?
  }

  /** Of the usable members with this id, the last one brings this key. */
  ghost predicate LastBrings(jwks: seq<Jwk>, kid: string, key: Key) {
    exists i :: 0 <= i < |jwks| && Brings(jwks[i], kid) && key == Key(jwks[i].n.value, jwks[i].e.value) &&
                NoneBrings(jwks, i + 1, kid)
  }

  predicate NoneBrings(jwks: seq<Jwk>, from: nat, kid: string) {
    forall j :: from <= j < |jwks| ==> !Brings(jwks[j], kid)
  }

  lemma {:induction false} LastKeyCounts(jwks: seq<Jwk>, kid: string, key: Key)
    ensures kid in Collect(jwks) && Collect(jwks)[kid] == key <==> LastBrings(jwks, kid, key)
  {
    if jwks != [] {
      var last := |jwks| - 1;
      var front, k := jwks[..last], jwks[last];
      LastKeyCounts(front, kid, key);
      assert NoneBrings(jwks, |jwks|, kid);
      if i :| 0 <= i < |jwks| && Brings(jwks[i], kid) && key == Key(jwks[i].n.value, jwks[i].e.value) &&
              NoneBrings(jwks, i + 1, kid) {
        if i < last {
          assert front[i] == jwks[i] && NoneBrings(front, i + 1, kid) && !Brings(jwks[last], kid);
        }
      }
      if i :| 0 <= i < last && Brings(front[i], kid) && key == Key(front[i].n.value, front[i].e.value) &&
              NoneBrings(front, i + 1, kid) {
        if !Brings(k, kid) {
          assert jwks[i] == front[i];
          forall j | i + 1 <= j < |jwks| ensures !Brings(jwks[j], kid) {
            assert j < last ==> front[j] == jwks[j];
          }
          assert NoneBrings(jwks, i + 1, kid);
        }
      }
    }
  }

  /** A successful fetch: for which realm, when it was stored, and what it brought. */
  datatype Fetch = Fetch(realm: string, time: int, keys: KeySet)

  /** The latest fetch for a realm. */
  function Latest(fetches: seq<Fetch>, realm: string): Option<Fetch> {
    if fetches == [] then None
    else
      var last := fetches[|fetches| - 1];
      if last.realm == realm then Some(last) else Latest(fetches[..|fetches| - 1], realm)
  }

  lemma {:induction false} LatestIsFetch(fetches: seq<Fetch>, realm: string) returns (i: nat)
    requires Latest(fetches, realm).Some?
    ensures i < |fetches| && fetches[i] == Latest(fetches, realm).value && fetches[i].realm == realm
  {
    i := |fetches| - 1;
    if fetches[i].realm != realm {
      i := LatestIsFetch(fetches[..i], realm);
    }
  }

  /** What is cached for each realm is what its latest fetch brought, to expire a TTL after it. */
  predicate Backed(cache: map<string, KeySet>, expiry: map<string, int>, fetches: seq<Fetch>) {
    cache.Keys == expiry.Keys &&
    forall r :: r in cache ==> Latest(fetches, r) == Some(Fetch(r, expiry[r] - TTL, cache[r]))
  }

  lemma PutKeepsBacked(cache: map<string, KeySet>, expiry: map<string, int>, fetches: seq<Fetch>, f: Fetch)
    requires Backed(cache, expiry, fetches)
    ensures Backed(cache[f.realm := f.keys], expiry[f.realm := f.time + TTL], fetches + [f])
  {
  }

  class Cache {
    var realmCache: map<string, KeySet>
    var realmExpiry: map<string, int>
    var legacyCache: KeySet
    var legacyExpiry: int
    ghost var fetches: seq<Fetch>

    /** Every cached realm is backed by its latest fetch, and the legacy alias is the admin realm's set. */
    ghost predicate Valid()
      reads this
    {
      Backed(realmCache, realmExpiry, fetches) &&
      legacyCache == if ADMIN in realmCache then realmCache[ADMIN] else map[]
    }

    constructor ()
      ensures Valid() && fetches == []
    {
      realmCache, realmExpiry, legacyCache, legacyExpiry, fetches := map[], map[], map[], 0, [];
    }

    /** The key for `kid` was in the set that fetch `i` stored for this realm. */
    ghost predicate Brought(i: nat, realm: string, kid: string, key: Key)
      reads this
    {
      i < |fetches| && fetches[i].realm == realm && kid in fetches[i].keys && fetches[i].keys[kid] == key
    }

    /** The part of getPublicKeyForRealm under the read lock. */
    method Lookup(realm: string, kid: string, now: int) returns (hit: Option<Key>)
      requires Valid()
      ensures hit.Some? <==> realm in realmCache && now < realmExpiry[realm] && kid in realmCache[realm]
      ensures hit.Some? ==> exists i: nat :: Brought(i, realm, kid, hit.value) && now < fetches[i].time + 600
    {
      if realm in realmExpiry && now < realmExpiry[realm] {
        if realm in realmCache && kid in realmCache[realm] {
          ghost var i := LatestIsFetch(fetches, realm);
          assert Brought(i, realm, kid, realmCache[realm][kid]);
          return Some(realmCache[realm][kid]);
        }
      }
      return None;
    }

    /** The loop over the keys of the answer. */
    static method BuildKeys(jwks: seq<Jwk>) returns (newCache: KeySet)
      ensures newCache == Collect(jwks)
      ensures forall kid, key :: kid in newCache && newCache[kid] == key <==> LastBrings(jwks, kid, key)
    {
      newCache := map[];
      for i := 0 to |jwks|
        invariant newCache == Collect(jwks[..i])
      {
        assert jwks[..i + 1][..i] == jwks[..i];
        var k := jwks[i];
        if k.alg != "RS256" || k.use != "sig" {
          continue;
        }
        if k.n.None? {
          continue;
        }
        if k.e.None? {
          continue;
        }
        newCache := newCache[k.kid := Key(k.n.value, k.e.value)];
      }
      assert jwks[..|jwks|] == jwks;
      forall kid, key ensures kid in newCache && newCache[kid] == key <==> LastBrings(jwks, kid, key) {
        LastKeyCounts(jwks, kid, key);
      }
    }

    /** The updates of refreshJWKSForRealm after a successful fetch. */
    method Put(realm: string, newCache: KeySet, now: int, later: int)
      requires Valid()
      modifies this
      ensures Valid() && fetches == old(fetches) + [Fetch(realm, now, newCache)]
      ensures realmCache == old(realmCache)[realm := newCache] && realmExpiry == old(realmExpiry)[realm := now + TTL]
      ensures legacyExpiry == if realm == ADMIN then later + TTL else old(legacyExpiry)
    {
      PutKeepsBacked(realmCache, realmExpiry, fetches, Fetch(realm, now, newCache));
      realmCache := realmCache[realm := newCache];
      realmExpiry := realmExpiry[realm := now + TTL];
      if realm == ADMIN {
        legacyCache := newCache;
        legacyExpiry := later + TTL;
      }
      fetches := fetches + [Fetch(realm, now, newCache)];
    }

    /**
    refreshJWKSForRealm. `answer` is None when the fetch fails in any way. The clock is read
    once for the realm's expiry and once more for the legacy one.
    */
    method Refresh(realm: string, kid: string, answer: Option<seq<Jwk>>, now: int, later: int)
      returns (key: Option<Key>)
      requires Valid()
      modifies this
      ensures Valid()
      ensures fetches == old(fetches) + if answer.Some? then [Fetch(realm, now, Collect(answer.value))] else []
      ensures answer.None? ==> key.None? && realmCache == old(realmCache) && realmExpiry == old(realmExpiry)
      ensures answer.Some? ==> realmCache == old(realmCache)[realm := Collect(answer.value)]
      ensures answer.Some? ==> realmExpiry == old(realmExpiry)[realm := now + TTL]
      ensures answer.Some? ==> (key.Some? <==> kid in Collect(answer.value))
      ensures key.Some? ==> Brought(|fetches| - 1, realm, kid, key.value)
      ensures legacyExpiry == if answer.Some? && realm == ADMIN then later + TTL else old(legacyExpiry)
    {
      if answer.None? {
        return None;
      }
      var newCache := BuildKeys(answer.value);
      Put(realm, newCache, now, later);
      return if kid in newCache then Some(newCache[kid]) else None;
    }

    /** What other goroutines may do while no lock is held: any number of refreshes. */
    method Others()
      requires Valid()
      modifies this
      ensures Valid() && old(fetches) <= fetches
    {
    }

    /**
    getPublicKeyForRealm, looked up at time `now`. A key comes from a set stored for the same
    realm less than a TTL ago, or from the fetch of this very call; whatever the lookup does
    not find is fetched.
    */
    method GetPublicKey(realm: string, kid: string, now: int, answer: Option<seq<Jwk>>, fetchTime: int, later: int)
      returns (key: Option<Key>, fetched: bool)
      requires Valid()
      modifies this
      ensures Valid() && old(fetches) <= fetches
      ensures key.Some? <==> !fetched || (answer.Some? && kid in Collect(answer.value))
      ensures fetched <==> !(realm in old(realmCache) && now < old(realmExpiry)[realm] && kid in old(realmCache)[realm])
      ensures kid !in (if realm in old(realmCache) then old(realmCache)[realm] else map[]) ==> fetched
      ensures key.Some? && !fetched ==>
        exists i: nat :: i < |old(fetches)| && Brought(i, realm, kid, key.value) && now < fetches[i].time + TTL
      ensures key.Some? && fetched ==>
        |fetches| > |old(fetches)| && Brought(|fetches| - 1, realm, kid, key.value) &&
        fetches[|fetches| - 1] == Fetch(realm, fetchTime, Collect(answer.value))
    {
      key := Lookup(realm, kid, now);
      if key.Some? {
        return key, false;
      }
      Others();
      key := Refresh(realm, kid, answer, fetchTime, later);
      return key, true;
    }
  }
}
