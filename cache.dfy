/** The in-memory branch of `CacheManager`: a dictionary from keys to a value and an expiry
    time, with lazy expiry on reads. Time is the integer `now` of each call. */
module Cache {
  import opened Strings

  /** A cached value. `increment` adds to integers, booleans (a Python `bool` is an `int`) and
      floats (modelled as reals); anything else is `Other`. */
  datatype CacheValue = IntValue(i: int) | BoolValue(b: bool) | FloatValue(f: real) | Other(text: string)

  datatype Entry = Entry(value: CacheValue, expiresAt: int)

  type Store = map<string, Entry>

  /** An entry is served while its expiry lies strictly in the future. */
  predicate Fresh(e: Entry, now: int) {
    e.expiresAt > now
  }

  /** What `get` returns. */
  function Lookup(m: Store, key: string, now: int): (r: Option<CacheValue>)
    ensures r.Some? <==> key in m && Fresh(m[key], now)
    ensures r.Some? ==> r.value == m[key].value
  {
    if key in m && Fresh(m[key], now) then Some(m[key].value) else None
  }

  /** The store after `get` or `exists`: an expired entry for `key` is dropped. */
  function Expire(m: Store, key: string, now: int): (r: Store)
    ensures key in m && !Fresh(m[key], now) ==> r == m - {key}
    ensures !(key in m && !Fresh(m[key], now)) ==> r == m
  {
    if key in m && !Fresh(m[key], now) then m - {key} else m
  }

  /** What `get_ttl` returns: the whole seconds left, never negative, 0 for a missing key. */
  function RemainingTtl(m: Store, key: string, now: int): (r: int)
    ensures r >= 0
    ensures key !in m ==> r == 0
    ensures key in m && m[key].expiresAt >= now ==> r == m[key].expiresAt - now
  {
    if key in m then (if m[key].expiresAt - now > 0 then m[key].expiresAt - now else 0) else 0
  }

  /** The value `increment` stores: the old value plus `amount` when it is a number, `amount`
      otherwise. The old entry's expiry is not consulted. */
  function Incremented(m: Store, key: string, amount: int): (r: CacheValue)
    ensures key !in m ==> r == IntValue(amount)
    ensures key in m && m[key].value.IntValue? ==> r == IntValue(m[key].value.i + amount)
    ensures key in m && m[key].value.BoolValue? ==> r == IntValue((if m[key].value.b then 1 else 0) + amount)
    ensures key in m && m[key].value.FloatValue? ==> r == FloatValue(m[key].value.f + amount as real)
    ensures key in m && m[key].value.Other? ==> r == IntValue(amount)
  {
    if key !in m then IntValue(amount)
    else match m[key].value
      case IntValue(i) => IntValue(i + amount)
      case BoolValue(b) => IntValue((if b then 1 else 0) + amount)
      case FloatValue(f) => FloatValue(f + amount as real)
      case Other(_) => IntValue(amount)
  }

  class CacheManager {
    var memoryCache: Store
    const defaultTtl: int

    constructor(defaultTtl: int := 3600)
      ensures memoryCache == map[] && this.defaultTtl == defaultTtl
    {
      this.defaultTtl := defaultTtl;
      memoryCache := map[];
    }

    function TtlOrDefault(ttl: Option<int>): int {
      if ttl.Some? then ttl.value else defaultTtl
    }

    /** `get`: the value while fresh; an expired entry is deleted on the way. */
    method Get(key: string, now: int) returns (r: Option<CacheValue>)
      modifies this
      ensures r == Lookup(old(memoryCache), key, now)
      ensures memoryCache == Expire(old(memoryCache), key, now)
    {
      if key in memoryCache {
        var item := memoryCache[key];
        if item.expiresAt > now {
          return Some(item.value);
        } else {
          memoryCache := memoryCache - {key};
          return None;
        }
      }
      return None;
    }

    /** `set`: store the value with expiry `now + ttl`, replacing any entry for the key. */
    method Set(key: string, value: CacheValue, now: int, ttl: Option<int> := None) returns (ok: bool)
      modifies this
      ensures ok
      ensures memoryCache == old(memoryCache)[key := Entry(value, now + TtlOrDefault(ttl))]
    {
      var t := if ttl.Some? then ttl.value else defaultTtl;
      memoryCache := memoryCache[key := Entry(value, now + t)];
      return true;
    }

    /** `delete`: true exactly when the key was present, expired or not. */
    method Delete(key: string) returns (found: bool)
      modifies this
      ensures found <==> key in old(memoryCache)
      ensures memoryCache == old(memoryCache) - {key}
    {
      if key in memoryCache {
        memoryCache := memoryCache - {key};
        return true;
      }
      return false;
    }

    /** `exists`: the freshness rule of `get`, deleting an expired entry too. */
    method Exists(key: string, now: int) returns (b: bool)
      modifies this
      ensures b <==> Lookup(old(memoryCache), key, now).Some?
      ensures memoryCache == Expire(old(memoryCache), key, now)
    {
      if key in memoryCache {
        if memoryCache[key].expiresAt > now {
          return true;
        } else {
          memoryCache := memoryCache - {key};
          return false;
        }
      }
      return false;
    }

    /** `clear` */
    method Clear() returns (ok: bool)
      modifies this
      ensures ok && memoryCache == map[]
    {
      memoryCache := map[];
      return true;
    }

    /** `increment`: the new value is stored with a fresh expiry and returned. */
    method Increment(key: string, now: int, amount: int := 1, ttl: Option<int> := None) returns (v: CacheValue)
      modifies this
      ensures v == Incremented(old(memoryCache), key, amount)
      ensures memoryCache == old(memoryCache)[key := Entry(v, now + TtlOrDefault(ttl))]
    {
      var t := if ttl.Some? then ttl.value else defaultTtl;
      if key in memoryCache {
        var current := memoryCache[key].value;
        match current {
          case IntValue(i) => v := IntValue(i + amount);
          case BoolValue(b) => v := IntValue((if b then 1 else 0) + amount);
          case FloatValue(f) => v := FloatValue(f + amount as real);
          case Other(_) => v := IntValue(amount);
        }
      } else {
        v := IntValue(amount);
      }
      memoryCache := memoryCache[key := Entry(v, now + t)];
    }

    /** `get_ttl`: reads the store and changes nothing. */
    method GetTtl(key: string, now: int) returns (t: int)
      ensures t == RemainingTtl(memoryCache, key, now)
      ensures t > 0 <==> Lookup(memoryCache, key, now).Some?
    {
      if key in memoryCache {
        var remaining := memoryCache[key].expiresAt - now;
        t := if remaining > 0 then remaining else 0;
      } else {
        t := 0;
      }
    }
  }

  // ---------------------------------------------------------------- properties of the store

  /** Round trip: a value set at `t` with a positive `ttl` is read back before `t + ttl` and is
      gone from then on. */
  lemma SetThenGet(m: Store, key: string, v: CacheValue, t: int, ttl: int, later: int)
    ensures later < t + ttl ==> Lookup(m[key := Entry(v, t + ttl)], key, later) == Some(v)
    ensures later >= t + ttl ==> Lookup(m[key := Entry(v, t + ttl)], key, later) == None
  {
  }

  /** Setting one key leaves what every other key reads unchanged. */
  lemma SetLeavesOtherKeys(m: Store, key: string, other: string, e: Entry, now: int)
    requires other != key
    ensures Lookup(m[key := e], other, now) == Lookup(m, other, now)
    ensures RemainingTtl(m[key := e], other, now) == RemainingTtl(m, other, now)
  {
  }

  /** Reading twice reads the same: dropping an expired entry does not change what it read. */
  lemma LookupStable(m: Store, key: string, now: int)
    ensures Lookup(Expire(m, key, now), key, now) == Lookup(m, key, now)
    ensures Expire(Expire(m, key, now), key, now) == Expire(m, key, now)
  {
  }

  /** An expired entry stays unreadable at every later time, whether or not it was dropped. */
  lemma ExpiredStaysExpired(m: Store, key: string, now: int, later: int)
    requires now <= later && Lookup(m, key, now).None?
    ensures Lookup(m, key, later).None?
    ensures Lookup(Expire(m, key, now), key, later).None?
  {
  }

  /** A key has time left exactly when `get` would serve it. */
  lemma TtlAgreesWithLookup(m: Store, key: string, now: int)
    ensures RemainingTtl(m, key, now) > 0 <==> Lookup(m, key, now).Some?
  {
  }

  /** Two increments of a missing key add up, however much time passes between them: the
      counter's own expiry is not checked by `increment`. */
  lemma IncrementTwice(m: Store, key: string, a: int, b: int, t1: int, ttl: int)
    requires key !in m
    ensures Incremented(m[key := Entry(Incremented(m, key, a), t1 + ttl)], key, b) == IntValue(a + b)
  {
  }

  /** `cache_key`: the parts, already converted to strings, joined with ':'. */
  function CacheKey(parts: seq<string>): (r: string)
    ensures |parts| == 1 ==> r == parts[0]
    ensures |parts| == 2 ==> r == parts[0] + ":" + parts[1]
  {
    Join(parts, ":")
  }

  /** Each further part adds ':' and the part: the key is the parts joined in order. */
  lemma CacheKeyAppend(parts: seq<string>, p: string)
    requires parts != []
    ensures CacheKey(parts + [p]) == CacheKey(parts) + ":" + p
  {
    JoinAppend(parts, p, ":");
  }

  /** Different part lists can give the same key when a part contains ':'. */
  lemma CacheKeyNotInjective()
    ensures CacheKey(["a:b"]) == CacheKey(["a", "b"])
  {
  }
}
