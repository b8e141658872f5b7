/** The two caching decorators and the pattern clear of the older cache helper. The wrapped function
    is represented by the value it returns (and, for the fallback decorator, the value a second run
    returns); arguments enter the key only through their printed forms `str(args)` and `str(kwargs)`. */
module CacheUtils {
  import opened Common
  import opened KvStore

  const DefaultExpireTime: int := 3600
  const FallbackTtl: int := 3600

  /** `f"{prefix}:{str(args)}:{str(kwargs)}"`. */
  function CacheKey(prefix: string, args: string, kwargs: string): string {
    prefix + (":" + (args + (":" + kwargs)))
  }

  /** Under one decorator (fixed prefix) and the same keyword arguments, different positional arguments
      get different keys. */
  lemma CacheKeyInjectiveInArgs(prefix: string, a1: string, a2: string, kwargs: string)
    requires CacheKey(prefix, a1, kwargs) == CacheKey(prefix, a2, kwargs)
    ensures a1 == a2
  {
    PrefixCancel(prefix, ":" + (a1 + (":" + kwargs)), ":" + (a2 + (":" + kwargs)));
    PrefixCancel(":", a1 + (":" + kwargs), a2 + (":" + kwargs));
    SuffixCancel(a1, a2, ":" + kwargs);
  }

  /** What a decorated call ends in: a value, or an exception escaping to the caller. */
  datatype Outcome<T> = Returned(value: T) | Raised

  /** `cache_data(key_prefix, expire_time)` around a function returning `result`. The decorator has no
      handler: a failing `GET` (`getFails`) raises before the function runs, a stored value that does
      not parse raises, and so does a failing `SETEX`. */
  method CacheData<T(!new)>(store: Store, codec: Codec<T>, prefix: string, expireTime: int,
                            args: string, kwargs: string, result: T, getFails: bool, setFails: bool)
    returns (r: Outcome<T>, calls: nat)
    modifies store
    ensures getFails ==> r == Raised && calls == 0 && store.data == old(store.data) && store.ttl == old(store.ttl)
    ensures !getFails ==>
              var key := CacheKey(prefix, args, kwargs);
              var cached := old(store.Get(key));
              if cached.Some? && cached.value != "" then
                calls == 0 && store.data == old(store.data) && store.ttl == old(store.ttl)
                && r == (match codec.de(cached.value) case Some(v) => Returned(v) case None => Raised)
              else
                calls == 1
                && (setFails || expireTime <= 0 ==> r == Raised && store.data == old(store.data) && store.ttl == old(store.ttl))
                && (!setFails && expireTime > 0 ==>
                      r == Returned(result)
                      && store.data == old(store.data)[key := codec.ser(result)]
                      && store.ttl == old(store.ttl)[key := expireTime])
  {
    if getFails {
      return Raised, 0;
    }
    var key := CacheKey(prefix, args, kwargs);
    var cached := store.Get(key);
    if cached.Some? && cached.value != "" {
      var parsed := codec.de(cached.value);
      return (match parsed case Some(v) => Returned(v) case None => Raised), 0;
    }
    calls := 1;
    if setFails || expireTime <= 0 {
      return Raised, calls;
    }
    store.SetEx(key, expireTime, codec.ser(result));
    r := Returned(result);
  }

  /** `cache_with_fallback` around a function returning `first`, then `second` if it runs again. Any
      failure inside the cached path (a failing store call or a value that does not parse) runs the
      function once more and returns that run's value. */
  method CacheWithFallback<T(!new)>(store: Store, codec: Codec<T>, funcName: string, args: string, kwargs: string,
                                    first: T, second: T, getFails: bool, setFails: bool)
    returns (r: T, calls: nat)
    modifies store
    ensures store.ttl.Keys - old(store.ttl.Keys) <= {CacheKey(funcName, args, kwargs)}
    ensures getFails ==> r == first && calls == 1 && store.data == old(store.data) && store.ttl == old(store.ttl)
    ensures !getFails ==>
              var key := CacheKey(funcName, args, kwargs);
              var cached := old(store.Get(key));
              if cached.Some? && cached.value != "" then
                store.data == old(store.data) && store.ttl == old(store.ttl)
                && (codec.de(cached.value).Some? ==> r == codec.de(cached.value).value && calls == 0)
                && (codec.de(cached.value).None? ==> r == first && calls == 1)
              else if setFails then
                r == second && calls == 2 && store.data == old(store.data) && store.ttl == old(store.ttl)
              else
                r == first && calls == 1 && store.data == old(store.data)[key := codec.ser(first)]
                && store.ttl == old(store.ttl)[key := FallbackTtl]
  {
    var key := CacheKey(funcName, args, kwargs);
    if getFails {
      return first, 1;
    }
    var cached := store.Get(key);
    if cached.Some? && cached.value != "" {
      var parsed := codec.de(cached.value);
      if parsed.Some? {
        return parsed.value, 0;
      }
      return first, 1;
    }
    if setFails {
      return second, 2;
    }
    store.SetEx(key, FallbackTtl, codec.ser(first));
    r, calls := first, 1;
  }

  /** With a well-behaved codec and store, a second call with the same arguments is served from the
      store: the function does not run again. */
  method CacheWithFallbackTwice<T(!new)>(store: Store, codec: Codec<T>, funcName: string, args: string, kwargs: string,
                                         v: T, w: T)
    returns (r1: T, c1: nat, r2: T, c2: nat)
    requires JsonLike(codec) && CacheKey(funcName, args, kwargs) !in store.data
    modifies store
    ensures r1 == v && c1 == 1 && r2 == v && c2 == 0
  {
    r1, c1 := CacheWithFallback(store, codec, funcName, args, kwargs, v, w, false, false);
    r2, c2 := CacheWithFallback(store, codec, funcName, args, kwargs, w, w, false, false);
  }

  /** `clear_cache(pattern)`: one full scan-and-delete walk. */
  method ClearCache(store: Store, pattern: string, pages: seq<seq<string>>)
    modifies store
    ensures store.data == old(store.data) - MatchedKeys(pattern, pages)
    ensures store.ttl == old(store.ttl) - MatchedKeys(pattern, pages)
  {
    store.DeleteScanned(pattern, pages);
  }

  /** `clear_cache()` with its default pattern `*`, over a scan that visits every key, empties the store. */
  lemma ClearCacheDefaultEmpties(data: map<string, string>, pages: seq<seq<string>>)
    requires forall k :: k in data ==> exists j :: 0 <= j < |pages| && k in pages[j]
    ensures data - MatchedKeys("*", pages) == map[]
  {
    FullScanLeavesNonMatching(data, "*", pages);
    forall k | k in data ensures GlobMatch("*", k) {
      StarMatchesAll(k);
    }
  }
}
