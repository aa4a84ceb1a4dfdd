/**
 The key cache as one thread sees it.

 `Cache` is the value of the cache's fields.  `Lookup`, `Claim` and `Store` say what each block
 guarded by the cache's lock computes; the class `JwksCache` has the fields themselves and is
 proved against them, and the module `JwksProtocol` interleaves them.
 */
module Jwks {
  import opened Options

  /** Readings of the monotonic clock, in seconds. */
  type Time = real

  datatype Key = Key(id: Option<string>, material: int)
  type KeySet = seq<Key>

  datatype Cache = Cache(
    keySet: Option<KeySet>,
    expiresAt: Time,
    missAt: Option<Time>,
    ttl: Time,
    refetchInterval: Time)

  /** A token without a `kid` is served by any key. */
  predicate Names(kid: Option<string>, key: Key) {
    kid.None? || key.id == kid
  }

  function FirstNamed(keys: KeySet, kid: Option<string>): (r: Option<Key>)
    ensures r.Some? ==> r.value in keys && (kid == None || r.value.id == kid)
    ensures r.None? <==> forall k | k in keys :: kid != None && k.id != kid
  {
    if keys == [] then None
    else if Names(kid, keys[0]) then Some(keys[0])
    else FirstNamed(keys[1..], kid)
  }

  /** The first key with that id; without a `kid`, the first key there is. */
  lemma {:induction false} FirstNamedIsAt(keys: KeySet, kid: Option<string>, i: nat)
    requires i < |keys| && (kid == None || keys[i].id == kid)
    requires i > 0 ==> kid != None && forall j | 0 <= j < i :: keys[j].id != kid
    ensures FirstNamed(keys, kid) == Some(keys[i])
  {
    if i > 0 {
      FirstNamedIsAt(keys[1..], kid, i - 1);
    }
  }

  /** A token without a `kid` is served whenever there is any key. */
  lemma NoKidTakesFirst(keys: KeySet)
    ensures FirstNamed(keys, None) == if keys == [] then None else Some(keys[0])
  {
    if keys != [] {
      FirstNamedIsAt(keys, None, 0);
    }
  }

  predicate Fresh(c: Cache, now: Time) {
    c.keySet.Some? && now < c.expiresAt
  }

  function Lookup(c: Cache, now: Time, kid: Option<string>, requireFresh: bool): Option<Key> {
    if c.keySet.None? || (requireFresh && !Fresh(c, now)) then None
    else FirstNamed(c.keySet.value, kid)
  }

  /** A miss inside the window that an earlier miss on a fresh set opened. */
  predicate Shut(c: Cache, stamp: Time) {
    Fresh(c, stamp) && c.missAt.Some? && stamp - c.missAt.value < c.refetchInterval
  }

  function Claim(c: Cache, stamp: Time): (bool, Cache) {
    if !Fresh(c, stamp) then (true, c)
    else if Shut(c, stamp) then (false, c)
    else (true, c.(missAt := Some(stamp)))
  }

  function Store(c: Cache, keys: KeySet, now: Time): Cache {
    c.(keySet := Some(keys), expiresAt := now + c.ttl)
  }

  /** What a trip to the issuer brings back: nothing, a document that is no key set, or keys. */
  datatype Answer = Unreachable | Unusable | Keys(keys: KeySet)

  datatype Result = Found(key: Key) | UnknownKid | IssuerFailed

  /**
   A call from `t0` to `t1` with nobody else about.  A key in a fresh set costs no request and changes
   nothing.  Any other call makes at most one, and every rejection is one of the two that the
   documentation allows: a window opened by an earlier miss, or a set fetched by this very call.
   A failed fetch leaves the old set and its expiry, but has used up the window.
   */
  ghost predicate UndisturbedCall(before: Cache, after: Cache, kid: Option<string>, t0: Time, t1: Time,
                                  requests: int, answer: Answer, r: Result)
  {
    && t0 <= t1
    && after.ttl == before.ttl && after.refetchInterval == before.refetchInterval
    && (requests == 0 ==>
          && after == before
          && match r
             case Found(key) => Fresh(before, t0) && FirstNamed(before.keySet.value, kid) == Some(key)
             case UnknownKid => Lookup(before, t1, kid, true) == None && Shut(before, t1)
             case IssuerFailed => false)
    && (requests != 0 ==>
          && requests == 1
          && Lookup(before, t1, kid, true) == None
          && (exists stamp :: t0 <= stamp <= t1 && Claims(before, after.missAt, stamp))
          && match answer
             case Keys(keys) =>
               && after.keySet == Some(keys) && t0 + after.ttl <= after.expiresAt <= t1 + after.ttl
               && r == (match FirstNamed(keys, kid) case Some(key) => Found(key) case None => UnknownKid)
             case _ =>
               r == IssuerFailed && after.keySet == before.keySet && after.expiresAt == before.expiresAt)
  }

  /** A claim made at `stamp`: on a fresh set it opens a window that no earlier one covers, on any other it leaves no mark. */
  ghost predicate Claims(before: Cache, missAt: Option<Time>, stamp: Time) {
    if before.keySet.Some? && stamp < before.expiresAt then
      && missAt == Some(stamp)
      && (before.missAt.Some? ==> stamp >= before.missAt.value + before.refetchInterval)
    else missAt == before.missAt
  }

  /** `time.monotonic`: every reading is at least the one before. */
  class Clock {
    var now: Time

    constructor (start: Time)
      ensures now == start
    {
      now := start;
    }

    method Read() returns (t: Time)
      modifies this
      ensures t == now && old(now) <= now
    {
      t := *;
      t := if t < now then now else t;
      now := t;
    }
  }

  /** The issuer's key endpoint, answering as it likes and counting the requests. */
  class Endpoint {
    var requests: nat
    var last: Answer

    constructor ()
      ensures requests == 0
    {
      requests := 0;
      last := Unreachable;
    }

    method Fetch() returns (a: Answer)
      modifies this
      ensures requests == old(requests) + 1 && last == a
    {
      a := *;
      last := a;
      requests := requests + 1;
    }
  }

  class JwksCache {
    var ttl: Time
    var refetchInterval: Time
    var missAt: Option<Time>
    var keySet: Option<KeySet>
    var expiresAt: Time

    function State(): Cache
      reads this
    {
      Cache(keySet, expiresAt, missAt, ttl, refetchInterval)
    }

    constructor (ttl: Time, refetchInterval: Time)
      ensures State() == Cache(None, 0.0, None, ttl, refetchInterval)
    {
      this.ttl := ttl;
      this.refetchInterval := refetchInterval;
      missAt, keySet, expiresAt := None, None, 0.0;
    }

    /** A cache that is given a key set to begin with, which expires like one that was fetched. */
    constructor Holding(keys: KeySet, ttl: Time, refetchInterval: Time, clock: Clock)
      modifies clock
      ensures old(clock.now) <= clock.now
      ensures State() == Store(Cache(None, 0.0, None, ttl, refetchInterval), keys, clock.now)
    {
      this.ttl := ttl;
      this.refetchInterval := refetchInterval;
      missAt, keySet, expiresAt := None, None, 0.0;
      new;
      var stored := StoreKeys(Keys(keys), clock);
    }

    method LookupKey(kid: Option<string>, requireFresh: bool, clock: Clock) returns (found: Option<Key>)
      modifies clock
      ensures old(clock.now) <= clock.now
      ensures found == Lookup(State(), clock.now, kid, requireFresh)
    {
      var now := clock.Read();
      var keys := keySet;
      var current := now < expiresAt;
      if keys.None? || (requireFresh && !current) {
        return None;
      }
      var i := 0;
      while i < |keys.value|
        invariant i <= |keys.value|
        invariant i > 0 ==> kid.Some? && forall j | 0 <= j < i :: keys.value[j].id != kid
      {
        if kid.None? || keys.value[i].id == kid {
          FirstNamedIsAt(keys.value, kid, i);
          return Some(keys.value[i]);
        }
        i := i + 1;
      }
      return None;
    }

    method ClaimRefetch(clock: Clock) returns (granted: bool)
      modifies this`missAt, clock
      ensures old(clock.now) <= clock.now
      ensures (granted, State()) == Claim(old(State()), clock.now)
    {
      var now := clock.Read();
      if keySet.None? || now >= expiresAt {
        return true;
      }
      var recent := missAt;
      if recent.Some? && now - recent.value < refetchInterval {
        return false;
      }
      missAt := Some(now);
      return true;
    }

    /** Refuses an unusable document before it takes the lock, so the old set stays. */
    method StoreKeys(answer: Answer, clock: Clock) returns (stored: bool)
      modifies this`keySet, this`expiresAt, clock
      ensures old(clock.now) <= clock.now
      ensures stored == answer.Keys?
      ensures State() == if stored then Store(old(State()), answer.keys, clock.now) else old(State())
    {
      if !answer.Keys? {
        return false;
      }
      var now := clock.Read();
      keySet := Some(answer.keys);
      expiresAt := now + ttl;
      return true;
    }

    /** Under the fetch lock the cache is looked at again: the last holder may have stored the key. */
    method SigningKey(kid: Option<string>, clock: Clock, issuer: Endpoint) returns (r: Result)
      modifies this, clock, issuer
      ensures old(issuer.requests) <= issuer.requests
      ensures UndisturbedCall(old(State()), State(), kid, old(clock.now), clock.now,
                              issuer.requests - old(issuer.requests), issuer.last, r)
    {
      var key := LookupKey(kid, true, clock);
      if key.Some? {
        return Found(key.value);
      }
      key := LookupKey(kid, true, clock);
      if key.Some? {
        return Found(key.value);
      }
      var granted := ClaimRefetch(clock);
      if !granted {
        return UnknownKid;
      }
      assert Claims(old(State()), missAt, clock.now);
      var answer := issuer.Fetch();
      var stored := StoreKeys(answer, clock);
      if !stored {
        return IssuerFailed;
      }
      key := LookupKey(kid, false, clock);
      r := if key.Some? then Found(key.value) else UnknownKid;
    }

    method AsyncSigningKey(kid: Option<string>, clock: Clock, issuer: Endpoint) returns (r: Result)
      modifies this, clock, issuer
      ensures old(issuer.requests) <= issuer.requests
      ensures UndisturbedCall(old(State()), State(), kid, old(clock.now), clock.now,
                              issuer.requests - old(issuer.requests), issuer.last, r)
    {
      var key := LookupKey(kid, true, clock);
      if key.Some? {
        return Found(key.value);
      }
      var granted := ClaimRefetch(clock);
      if !granted {
        return UnknownKid;
      }
      assert Claims(old(State()), missAt, clock.now);
      var answer := issuer.Fetch();
      var stored := StoreKeys(answer, clock);
      if !stored {
        return IssuerFailed;
      }
      key := LookupKey(kid, false, clock);
      r := if key.Some? then Found(key.value) else UnknownKid;
    }
  }

  /** The process-wide caches, one for each `jwks_uri`. */
  class Registry {
    var caches: map<string, JwksCache>

    constructor ()
      ensures caches == map[]
    {
      caches := map[];
    }

    /** The same cache for the same address; a changed TTL is adopted but moves no expiry already set. */
    method CacheFor(uri: string, ttl: Time, refetchInterval: Time) returns (cache: JwksCache)
      modifies this, caches.Values
      ensures uri in caches && caches[uri] == cache
      ensures uri in old(caches) ==>
        && caches == old(caches)
        && cache.State() == old(caches[uri].State()).(ttl := ttl)
        && forall u | u in caches && caches[u] != cache :: caches[u].State() == old(caches[u].State())
      ensures uri !in old(caches) ==>
        && fresh(cache)
        && caches == old(caches)[uri := cache]
        && cache.State() == Cache(None, 0.0, None, ttl, refetchInterval)
        && forall u | u in old(caches) :: caches[u].State() == old(caches[u].State())
    {
      if uri !in caches {
        cache := new JwksCache(ttl, refetchInterval);
        caches := caches[uri := cache];
      } else {
        cache := caches[uri];
        assert cache in caches.Values;
        if cache.ttl != ttl {
          cache.ttl := ttl;
        }
      }
    }

    method Clear()
      modifies this
      ensures caches == map[]
    {
      caches := map[];
    }
  }
}
