/** include/task_engine/task_cache.hpp: results with an expiry time. Every call carries the clock
    reading it makes; readings do not decrease. */
module TaskCaches {
  import opened Options

  datatype CacheEntry<R> = CacheEntry(result: R, expiry: int)

  type Cache<K, R> = map<K, CacheEntry<R>>

  datatype Call<K, R> =
    | Put(now: int, key: K, result: R, ttl: Option<int>)
    | Get(now: int, key: K)
    | Remove(now: int, key: K)
    | CleanupExpired(now: int)
    | Clear(now: int)

  function Expiry(now: int, ttl: Option<int>, fallback: int): int {
    now + if ttl.Some? then ttl.value else fallback
  }

  predicate Fresh<R>(e: CacheEntry<R>, now: int) {
    now <= e.expiry
  }

  /** What `get` answers. */
  function Answer<K, R>(cache: Cache<K, R>, key: K, now: int): Option<R> {
    if key in cache && Fresh(cache[key], now) then Some(cache[key].result) else None
  }

  function Called<K, R>(cache: Cache<K, R>, call: Call<K, R>, fallback: int): Cache<K, R> {
    match call
    case Put(now, key, result, ttl) => cache[key := CacheEntry(result, Expiry(now, ttl, fallback))]
    case Get(now, key) => if key in cache && !Fresh(cache[key], now) then cache - {key} else cache
    case Remove(_, key) => cache - {key}
    case CleanupExpired(now) => map k | k in cache && Fresh(cache[k], now) :: cache[k]
    case Clear(_) => map[]
  }

  function CacheAfter<K, R>(calls: seq<Call<K, R>>, fallback: int): Cache<K, R> {
    if calls == [] then map[] else Called(CacheAfter(calls[..|calls| - 1], fallback), calls[|calls| - 1], fallback)
  }

  /** Read off the log alone: the last put of the key, unless a remove or a clear came after it. */
  function LastPut<K(==), R>(calls: seq<Call<K, R>>, key: K, fallback: int): Option<CacheEntry<R>> {
    if calls == [] then None else
      var before := calls[..|calls| - 1];
      match calls[|calls| - 1]
      case Put(now, k, result, ttl) => if k == key then Some(CacheEntry(result, Expiry(now, ttl, fallback)))
          else LastPut(before, key, fallback)
      case Remove(_, k) => if k == key then None else LastPut(before, key, fallback)
      case Clear(_) => None
      case _ => LastPut(before, key, fallback)
  }

  ghost predicate Timed<K, R>(calls: seq<Call<K, R>>, now: int) {
    && (forall i :: 0 <= i < |calls| ==> calls[i].now <= now)
    && (forall i, j :: 0 <= i < j < |calls| ==> calls[i].now <= calls[j].now)
  }

  /** What the cache holds is the last put, and what it has dropped had expired. */
  lemma {:induction false} CacheFollowsLog<K, R>(calls: seq<Call<K, R>>, now: int, key: K, fallback: int)
    requires Timed(calls, now)
    ensures key in CacheAfter(calls, fallback) ==>
            LastPut(calls, key, fallback) == Some(CacheAfter(calls, fallback)[key])
    ensures key !in CacheAfter(calls, fallback) && LastPut(calls, key, fallback).Some? ==>
            !Fresh(LastPut(calls, key, fallback).value, now)
  {
    if calls != [] {
      var n := |calls| - 1;
      CacheFollowsLog(calls[..n], calls[n].now, key, fallback);
    }
  }

  /** `get` answers the last put not followed by a remove or a clear, exactly up to its expiry. */
  lemma {:induction false} GetAgreesWithLog<K, R>(calls: seq<Call<K, R>>, now: int, key: K, fallback: int)
    requires Timed(calls, now)
    ensures Answer(CacheAfter(calls, fallback), key, now)
            == (var last := LastPut(calls, key, fallback);
                if last.Some? && Fresh(last.value, now) then Some(last.value.result) else None)
  {
    CacheFollowsLog(calls, now, key, fallback);
  }

  predicate Leaves<K(==), R>(call: Call<K, R>, key: K) {
    match call
    case Put(_, k, _, _) => k != key
    case Remove(_, k) => k != key
    case Clear(_) => false
    case _ => true
  }

  lemma {:induction false} LastPutStays<K, R>(calls: seq<Call<K, R>>, later: seq<Call<K, R>>, key: K, fallback: int)
    requires forall i :: 0 <= i < |later| ==> Leaves(later[i], key)
    ensures LastPut(calls + later, key, fallback) == LastPut(calls, key, fallback)
    decreases |later|
  {
    var all := calls + later;
    if later == [] {
      assert all == calls;
    } else {
      var n := |later| - 1;
      LastPutStays(calls, later[..n], key, fallback);
      assert all[..|all| - 1] == calls + later[..n] && all[|all| - 1] == later[n];
    }
  }

  /** What was put is answered for its own lifetime, or for the default one if it was given none, to the
      last instant and no longer, as long as the key is not put, removed or cleared again. */
  lemma PutThenGet<K, R>(calls: seq<Call<K, R>>, at: int, key: K, result: R, ttl: Option<int>, later: seq<Call<K, R>>,
                         now: int, fallback: int)
    requires Timed(calls + [Put(at, key, result, ttl)] + later, now)
    requires forall i :: 0 <= i < |later| ==> Leaves(later[i], key)
    ensures var r := Answer(CacheAfter(calls + [Put(at, key, result, ttl)] + later, fallback), key, now);
            && (ttl.Some? ==> r == if now - at <= ttl.value then Some(result) else None)
            && (ttl.None? ==> r == if now - at <= fallback then Some(result) else None)
  {
    var put := calls + [Put(at, key, result, ttl)];
    GetAgreesWithLog(put + later, now, key, fallback);
    LastPutStays(put, later, key, fallback);
    assert put[..|put| - 1] == calls;
  }

  /** The calls that are there for their effect: `get` and `cleanup_expired` left out. */
  function Effects<K, R>(calls: seq<Call<K, R>>): seq<Call<K, R>> {
    if calls == [] then [] else
      var last := calls[|calls| - 1];
      Effects(calls[..|calls| - 1]) + if last.Get? || last.CleanupExpired? then [] else [last]
  }

  lemma {:induction false} EffectsPut<K, R>(calls: seq<Call<K, R>>, key: K, fallback: int)
    ensures LastPut(Effects(calls), key, fallback) == LastPut(calls, key, fallback)
  {
    if calls != [] {
      var n := |calls| - 1;
      EffectsPut(calls[..n], key, fallback);
      var before, last := Effects(calls[..n]), calls[n];
      if last.Get? || last.CleanupExpired? {
        assert Effects(calls) == before;
      } else {
        assert Effects(calls)[..|before|] == before;
      }
    }
  }

  /** Calls of `get` and `cleanup_expired`, wherever they are inserted, change no later answer:
      two logs with the same effects answer alike. */
  lemma HousekeepingIsInvisible<K, R>(a: seq<Call<K, R>>, b: seq<Call<K, R>>, now: int, key: K, fallback: int)
    requires Timed(a, now) && Timed(b, now)
    requires Effects(a) == Effects(b)
    ensures Answer(CacheAfter(a, fallback), key, now) == Answer(CacheAfter(b, fallback), key, now)
  {
    GetAgreesWithLog(a, now, key, fallback);
    GetAgreesWithLog(b, now, key, fallback);
    EffectsPut(a, key, fallback);
    EffectsPut(b, key, fallback);
  }

  /** A sequence of calls with one more call inserted has the same effects. */
  lemma {:induction false} InsertedCall<K, R>(before: seq<Call<K, R>>, call: Call<K, R>, after: seq<Call<K, R>>)
    requires call.Get? || call.CleanupExpired?
    ensures Effects(before + [call] + after) == Effects(before + after)
    decreases |after|
  {
    var long, short := before + [call] + after, before + after;
    if after == [] {
      assert short == before && long[..|long| - 1] == before;
      assert long[|long| - 1] == call;
    } else {
      var n := |after| - 1;
      InsertedCall(before, call, after[..n]);
      assert long[..|long| - 1] == before + [call] + after[..n];
      assert short[..|short| - 1] == before + after[..n];
    }
  }

  /** Right after a cleanup the cache holds exactly the keys that `get` still answers. */
  lemma {:induction false} CleanupLeavesWhatIsAnswered<K, R>(calls: seq<Call<K, R>>, now: int, key: K, fallback: int)
    requires Timed(calls, now)
    ensures key in CacheAfter(calls + [CleanupExpired(now)], fallback)
            <==> LastPut(calls, key, fallback).Some? && Fresh(LastPut(calls, key, fallback).value, now)
  {
    CacheFollowsLog(calls, now, key, fallback);
    assert (calls + [CleanupExpired(now)])[..|calls|] == calls;
  }

  class TaskResultCache<K(==), R> {
    const defaultTtl: int
    var cache: Cache<K, R>

    constructor (defaultTtl: int)
      ensures this.defaultTtl == defaultTtl && cache == CacheAfter([], defaultTtl)
    {
      this.defaultTtl, cache := defaultTtl, map[];
    }

    method Put(key: K, result: R, ttl: Option<int>, now: int)
      modifies this
      ensures cache == Called(old(cache), Call.Put(now, key, result, ttl), defaultTtl)
      ensures cache == old(cache)[key := CacheEntry(result, now + if ttl.Some? then ttl.value else defaultTtl)]
    {
      var lifetime := if ttl.Some? then ttl.value else defaultTtl;
      cache := cache[key := CacheEntry(result, now + lifetime)];
    }

    method Get(key: K, now: int) returns (r: Option<R>)
      modifies this
      ensures r == Answer(old(cache), key, now)
      ensures r == if key in old(cache) && now <= old(cache)[key].expiry then Some(old(cache)[key].result) else None
      ensures cache == Called(old(cache), Call.Get(now, key), defaultTtl)
      ensures cache == if r.Some? then old(cache) else old(cache) - {key}
    {
      if key !in cache {
        return None;
      }
      if now > cache[key].expiry {
        cache := cache - {key};
        return None;
      }
      return Some(cache[key].result);
    }

    method Contains(key: K, now: int) returns (r: bool)
      modifies this
      ensures r == Answer(old(cache), key, now).Some?
      ensures cache == Called(old(cache), Call.Get(now, key), defaultTtl)
    {
      var found := Get(key, now);
      return found.Some?;
    }

    method Remove(key: K, ghost now: int)
      modifies this
      ensures cache == Called(old(cache), Call.Remove(now, key), defaultTtl)
      ensures cache == old(cache) - {key}
    {
      cache := cache - {key};
    }

    /** Walks the map in any order and erases as it goes. */
    method CleanupExpired(now: int)
      modifies this
      ensures cache == Called(old(cache), Call.CleanupExpired(now), defaultTtl)
      ensures forall k :: k in cache <==> k in old(cache) && now <= old(cache)[k].expiry
      ensures forall k :: k in cache ==> cache[k] == old(cache)[k]
    {
      var rest := cache.Keys;
      while rest != {}
        invariant rest <= old(cache).Keys
        invariant forall k :: k in cache <==> k in old(cache) && (k in rest || Fresh(old(cache)[k], now))
        invariant forall k :: k in cache ==> cache[k] == old(cache)[k]
      {
        var k :| k in rest;
        rest := rest - {k};
        if now > cache[k].expiry {
          cache := cache - {k};
        }
      }
      assert cache.Keys == Called(old(cache), Call.CleanupExpired(now), defaultTtl).Keys;
    }

    method Clear(ghost now: int)
      modifies this
      ensures cache == Called(old(cache), Call.Clear(now), defaultTtl)
      ensures cache == map[]
    {
      cache := map[];
    }

    method Size() returns (n: nat)
      ensures n == |cache|
    {
      return |cache|;
    }
  }
}
