/** The in-memory data cache every page reads through: entries stamped
    with the time they were stored, dropped when read after their time to
    live. `Date.now()` is the `now` parameter, in milliseconds. */
module DataCache {
  import opened Common

  datatype Entry<T> = Entry(data: T, timestamp: int)

  /** `DEFAULT_TTL_MS`: five minutes. */
  const DefaultTtlMs: int := 5 * 60 * 1000

  // ---------------------------------------------------------------------
  // What a read sees and leaves behind
  // ---------------------------------------------------------------------

  /** An entry is stale once more than `ttl` has passed since it was stored. */
  predicate Expired<T>(e: Entry<T>, now: int, ttl: int) {
    now - e.timestamp > ttl
  }

  /** What `getCached` returns: the stored data when present and fresh. */
  function ReadResult<T>(cache: map<string, Entry<T>>, key: string, now: int, ttl: int): (r: Option<T>)
    ensures r.Some? <==> key in cache && !Expired(cache[key], now, ttl)
    ensures r.Some? ==> r.value == cache[key].data
  {
    if key !in cache then None
    else if Expired(cache[key], now, ttl) then None
    else Some(cache[key].data)
  }

  /** What `getCached` leaves: the map without `key` when its entry was
      stale, the same map otherwise. */
  function AfterRead<T>(cache: map<string, Entry<T>>, key: string, now: int, ttl: int): (c: map<string, Entry<T>>)
    ensures forall k | k != key :: (k in c <==> k in cache) && (k in c ==> c[k] == cache[k])
    ensures key in c <==> key in cache && !Expired(cache[key], now, ttl)
    ensures key in c ==> c[key] == cache[key]
  {
    if key in cache && Expired(cache[key], now, ttl) then cache - {key} else cache
  }

  /** A read repeated at the same moment sees the same thing and changes
      nothing more. */
  lemma ReadIdempotent<T>(cache: map<string, Entry<T>>, key: string, now: int, ttl: int)
    ensures ReadResult(AfterRead(cache, key, now, ttl), key, now, ttl) == ReadResult(cache, key, now, ttl)
    ensures AfterRead(AfterRead(cache, key, now, ttl), key, now, ttl) == AfterRead(cache, key, now, ttl)
  {
  }

  /** Data just stored is read back until its time to live has passed,
      and not after. */
  lemma StoredThenRead<T>(cache: map<string, Entry<T>>, key: string, data: T, stored: int, now: int, ttl: int)
    ensures ReadResult(cache[key := Entry(data, stored)], key, now, ttl) == (if now - stored <= ttl then Some(data) else None)
  {
  }

  /** A stale entry stays unreadable later on: time only makes it older. */
  lemma ExpiryIsPermanent<T>(cache: map<string, Entry<T>>, key: string, now: int, later: int, ttl: int)
    requires now <= later && ReadResult(cache, key, now, ttl).None?
    ensures ReadResult(cache, key, later, ttl).None?
  {
  }

  // ---------------------------------------------------------------------
  // The store
  // ---------------------------------------------------------------------

  /** The module-level `cache` map and the keys of the `inFlight` map
      (the promises themselves are not part of this model). */
  class Store<T> {
    var cache: map<string, Entry<T>>
    var inFlight: set<string>

    constructor ()
      ensures cache == map[] && inFlight == {}
    {
      cache := map[];
      inFlight := {};
    }

    /** `getCached`: the fresh data for `key`, if any; a stale entry is
        deleted on the way. */
    method GetCached(key: string, now: int, ttl: int := DefaultTtlMs) returns (r: Option<T>)
      modifies this
      ensures r == ReadResult(old(cache), key, now, ttl)
      ensures cache == AfterRead(old(cache), key, now, ttl)
      ensures inFlight == old(inFlight)
    {
      if key !in cache {
        return None;
      }
      var entry := cache[key];
      if now - entry.timestamp > ttl {
        cache := cache - {key};
        return None;
      }
      return Some(entry.data);
    }

    /** `setCached`: store `data` under `key`, stamped `now`. */
    method SetCached(key: string, data: T, now: int)
      modifies this
      ensures cache == old(cache)[key := Entry(data, now)]
      ensures inFlight == old(inFlight)
    {
      cache := cache[key := Entry(data, now)];
    }

    /** `clearCache`: both maps emptied. */
    method ClearCache()
      modifies this
      ensures cache == map[] && inFlight == {}
    {
      cache := map[];
      inFlight := {};
    }
  }

  // ---------------------------------------------------------------------
  // Keys
  // ---------------------------------------------------------------------

  /** `CACHE_KEYS.results(stnum, rlevel)`. */
  function ResultsKey(stnum: string, rlevel: string): (k: string)
    ensures |k| == 9 + |stnum| + |rlevel| && k[..8] == "results:"
  {
    "results:" + stnum + ":" + rlevel
  }

  /** The fixed keys. */
  function FixedKeys(): seq<string> {
    ["homeData", "notices", "courseReg", "profileImage"]
  }

  /** A results key is never one of the fixed keys. */
  lemma ResultsKeyNotFixed(stnum: string, rlevel: string)
    ensures ResultsKey(stnum, rlevel) !in FixedKeys()
  {
    var k := ResultsKey(stnum, rlevel);
    assert k[0] == 'r';
  }

  /** The position of the first colon in `t`, or its length. */
  function FirstColon(t: string): (i: nat)
    ensures i <= |t| && (i < |t| ==> t[i] == ':') && forall j :: 0 <= j < i ==> t[j] != ':'
  {
    if t == [] || t[0] == ':' then 0 else 1 + FirstColon(t[1..])
  }

  /** A colon-free `s` ends exactly where the first colon of
      `s + ":" + r` sits. */
  lemma {:induction false} ColonAfter(s: string, r: string)
    requires ':' !in s
    ensures FirstColon(s + ":" + r) == |s|
  {
    if s != [] {
      assert (s + ":" + r)[1..] == s[1..] + ":" + r;
      ColonAfter(s[1..], r);
    }
  }

  /** For student numbers without a colon, different requests get
      different keys. */
  lemma ResultsKeyInjective(s1: string, r1: string, s2: string, r2: string)
    requires ':' !in s1 && ':' !in s2
    requires ResultsKey(s1, r1) == ResultsKey(s2, r2)
    ensures s1 == s2 && r1 == r2
  {
    var k := ResultsKey(s1, r1);
    var t1 := s1 + ":" + r1;
    var t2 := s2 + ":" + r2;
    assert k == "results:" + t1;
    assert k[8..] == t1 && k[8..] == t2;
    ColonAfter(s1, r1);
    ColonAfter(s2, r2);
    assert s1 == t1[..|s1|] && s2 == t2[..|s2|];
    assert r1 == t1[|s1| + 1..] && r2 == t2[|s2| + 1..];
  }
}
