/** The read-through cache in front of the database for the API handlers: `get_cached_data` with its
    optional compression, key and pattern invalidation, and the hit/miss/size counters behind
    `get_cache_metrics`. Each counter is a module global in the source and a field here. */
module ApiCache {
  import opened Common
  import opened KvStore

  /** Values whose JSON text is longer than this many bytes are compressed when compression is requested. */
  const CompressionThreshold: int := 10 * 1024
  const CompressedPrefix: string := "COMPRESSED:"
  const DefaultTtl: int := 3600

  /** What `base64.b64decode`, `zlib.decompress` and `.decode('utf-8')` make of the text after the
      prefix: the JSON text; a `binascii.Error` or `zlib.error`, which the reader's own `except` catches;
      or a `ValueError` that escapes it (non-ASCII text handed to `b64decode`, or a `UnicodeDecodeError`)
      and reaches the outer handler of `get_cached_data`. */
  datatype Unpacked = Unpacked(text: string) | Caught | Escapes

  /** `zlib.compress` followed by `base64.b64encode`, and its inverse. */
  datatype Packer = Packer(pack: string -> string, unpack: string -> Unpacked)

  ghost predicate PackerRoundTrips(p: Packer) {
    forall t :: p.unpack(p.pack(t)) == Unpacked(t)
  }

  /** `base64.b64decode` refuses a string holding a non-ASCII character with a plain `ValueError`. */
  ghost predicate RejectsNonAscii(p: Packer) {
    forall t, i :: 0 <= i < |t| && t[i] as int >= 128 ==> p.unpack(t) == Escapes
  }

  /** How the reader reads what it got back from the store: `Corrupt` is a failure the inner `except`
      catches, `Broken` one that escapes to the outer handler. */
  datatype Lookup<T> = Miss | Hit(value: T) | Corrupt | Broken

  /** The decision at the top of the `try` block of `get_cached_data`: an absent or empty value is a miss;
      a value with the compression prefix is unpacked and parsed; any other value is parsed as it is. */
  function Classify<T>(codec: Codec<T>, packer: Packer, stored: Option<string>): (r: Lookup<T>)
    ensures r == Miss <==> stored.None? || stored == Some("")
    // an unprefixed value is served when it parses, and is corrupt otherwise
    ensures stored.Some? && stored.value != "" && !StartsWith(stored.value, CompressedPrefix) ==>
              (r.Hit? <==> codec.de(stored.value).Some?)
              && (r.Hit? ==> codec.de(stored.value) == Some(r.value))
              && (!r.Hit? ==> r == Corrupt)
    // a prefixed value is unpacked first: a caught failure is corrupt, an escaping one broken, and an
    // unpacked text is served when it parses
    ensures stored.Some? && StartsWith(stored.value, CompressedPrefix) ==>
              var u := packer.unpack(stored.value[|CompressedPrefix|..]);
              && (u.Caught? ==> r == Corrupt)
              && (u.Unpacked? ==> (r.Hit? <==> codec.de(u.text).Some?)
                                  && (r.Hit? ==> codec.de(u.text) == Some(r.value))
                                  && (!r.Hit? ==> r == Corrupt))
    ensures r == Broken <==> stored.Some? && StartsWith(stored.value, CompressedPrefix)
                             && packer.unpack(stored.value[|CompressedPrefix|..]).Escapes?
  {
    if stored.None? || stored.value == "" then Miss
    else
      var s := stored.value;
      var text := if StartsWith(s, CompressedPrefix) then packer.unpack(s[|CompressedPrefix|..]) else Unpacked(s);
      match text
      case Escapes => Broken
      case Caught => Corrupt
      case Unpacked(t) =>
        match codec.de(t)
        case None => Corrupt
        case Some(v) => Hit(v)
  }

  /** The JSON text of `v` is compressed exactly when compression was asked for and the text is over
      the threshold. `json.dumps` escapes every non-ASCII character, so its length in bytes is its length. */
  predicate Compresses<T>(codec: Codec<T>, v: T, useCompression: bool) {
    useCompression && |codec.ser(v)| > CompressionThreshold
  }

  /** The string the miss path stores under the key. */
  function Encoded<T>(codec: Codec<T>, packer: Packer, v: T, useCompression: bool): (s: string)
    ensures Compresses(codec, v, useCompression) ==> StartsWith(s, CompressedPrefix)
    ensures !Compresses(codec, v, useCompression) ==> s == codec.ser(v)
  {
    if Compresses(codec, v, useCompression) then
      var s := CompressedPrefix + packer.pack(codec.ser(v));
      assert s[..|CompressedPrefix|] == CompressedPrefix;
      s
    else codec.ser(v)
  }

  /** What one `get_cached_data` call does, by path: how many hits and misses it records and how many
      times it runs the database fetch. */
  datatype Outcome = Disabled | Failed | Served | Refetched | Filled | FillFailed

  /** The cache and its counters. The store is shared with the other cache helpers; the metrics are
      process-wide. */
  class Cache<T(!new)> {
    const store: Store
    /** `is_connection_available() and redis_client`. */
    var available: bool
    var hits: int
    var misses: int
    var startTime: int
    /** Sum of the JSON sizes of everything written on a miss. */
    var cachedSize: int
    /** Sum of the stored sizes of the compressed values among them. */
    var compressedSize: int
    const codec: Codec<T>
    const packer: Packer

    ghost predicate Valid()
      reads this
    {
      JsonLike(codec) && PackerRoundTrips(packer)
      && hits >= 0 && misses >= 0 && cachedSize >= 0 && compressedSize >= 0
    }

    constructor (store: Store, available: bool, now: int, codec: Codec<T>, packer: Packer)
      requires JsonLike(codec) && PackerRoundTrips(packer)
      ensures Valid()
      ensures this.store == store && this.available == available && this.codec == codec && this.packer == packer
      ensures hits == 0 && misses == 0 && cachedSize == 0 && compressedSize == 0 && startTime == now
    {
      this.store := store;
      this.available := available;
      this.codec := codec;
      this.packer := packer;
      hits, misses, cachedSize, compressedSize := 0, 0, 0, 0;
      startTime := now;
    }

    /** `get_cached_data(key, db_fetch_func, ttl, use_compression)`. The database call returns `first`
        the first time and `second` if the fallback runs it again. `getFails`, `deleteFails` and
        `setFails` say which store call raises; a TTL that is not positive makes `SETEX` raise too. */
    method GetCachedData(key: string, ttl: int, useCompression: bool, first: T, second: T,
                         getFails: bool, deleteFails: bool, setFails: bool)
      returns (r: T, fetches: nat, outcome: Outcome)
      requires Valid()
      modifies this, store
      ensures Valid()
      ensures available == old(available) && startTime == old(startTime)
      ensures !old(available) ==> outcome == Disabled
      ensures old(available) && getFails ==> outcome == Failed
      ensures old(available) && !getFails ==>
                match Classify(codec, packer, old(store.Get(key)))
                case Hit(v) => outcome == Served && r == v
                case Corrupt => outcome == (if deleteFails then Failed else Refetched)
                case Broken => outcome == Failed
                case Miss => outcome == (if setFails || ttl <= 0 then FillFailed else Filled)
      ensures outcome == Served ==> hits == old(hits) + 1 && misses == old(misses) && fetches == 0
      ensures outcome in {Disabled, Failed} ==> hits == old(hits) + (if old(available) && !getFails then 1 else 0)
                                                && misses == old(misses) + 1 && fetches == 1 && r == first
      ensures outcome == Refetched ==> hits == old(hits) + 1 && misses == old(misses) + 1 && fetches == 1 && r == first
      ensures outcome == Filled ==> hits == old(hits) && misses == old(misses) + 1 && fetches == 1 && r == first
      ensures outcome == FillFailed ==> hits == old(hits) && misses == old(misses) + 2 && fetches == 2 && r == second
      ensures outcome in {Filled, FillFailed} ==>
                cachedSize == old(cachedSize) + |codec.ser(first)|
                && compressedSize == old(compressedSize)
                     + (if Compresses(codec, first, useCompression) then |Encoded(codec, packer, first, true)| else 0)
      ensures outcome !in {Filled, FillFailed} ==> cachedSize == old(cachedSize) && compressedSize == old(compressedSize)
      ensures outcome == Filled ==>
                store.data == old(store.data)[key := Encoded(codec, packer, first, useCompression)]
                && store.ttl == old(store.ttl)[key := ttl]
      ensures outcome == Refetched ==> store.data == old(store.data) - {key} && store.ttl == old(store.ttl) - {key}
      ensures outcome !in {Filled, Refetched} ==> store.data == old(store.data) && store.ttl == old(store.ttl)
    {
      if !available {
        misses := misses + 1;
        return first, 1, Disabled;
      }
      if getFails {
        misses := misses + 1;
        return first, 1, Failed;
      }
      var cached := store.Get(key);
      match Classify(codec, packer, cached)
      case Hit(v) =>
        hits := hits + 1;
        return v, 0, Served;
      case Corrupt =>
        hits := hits + 1;
        if deleteFails {
          misses := misses + 1;
          return first, 1, Failed;
        }
        store.Delete([key]);
        assert (set k | k in [key]) == {key};
        misses := misses + 1;
        return first, 1, Refetched;
      case Broken =>
        hits := hits + 1;
        misses := misses + 1;
        return first, 1, Failed;
      case Miss =>
        misses := misses + 1;
        var data := first;
        cachedSize := cachedSize + |codec.ser(data)|;
        var value := Encoded(codec, packer, data, useCompression);
        if Compresses(codec, data, useCompression) {
          compressedSize := compressedSize + |value|;
        }
        if setFails || ttl <= 0 {
          misses := misses + 1;
          return second, 2, FillFailed;
        }
        store.SetEx(key, ttl, value);
        return data, 1, Filled;
    }

    /** `invalidate_cache(keys)`: nothing happens when the cache is unavailable, the list is empty, or
        the delete raises (the error is swallowed). */
    method InvalidateCache(keys: seq<string>, deleteFails: bool)
      modifies store
      ensures !available || keys == [] || deleteFails ==> store.data == old(store.data) && store.ttl == old(store.ttl)
      ensures available && keys != [] && !deleteFails ==>
                store.data == old(store.data) - (set k | k in keys) && store.ttl == old(store.ttl) - (set k | k in keys)
    {
      if !available || keys == [] || deleteFails {
        return;
      }
      store.Delete(keys);
    }

    /** `invalidate_cache_pattern(pattern)`. When a store call raises at scan step `failAt`, the keys of
        the earlier steps are already gone and the error is swallowed. */
    method InvalidateCachePattern(pattern: string, pages: seq<seq<string>>, failAt: Option<nat>)
      modifies store
      ensures !available ==> store.data == old(store.data) && store.ttl == old(store.ttl)
      ensures available ==>
                var walked := if failAt.Some? && failAt.value < |pages| then pages[..failAt.value] else pages;
                store.data == old(store.data) - MatchedKeys(pattern, walked)
                && store.ttl == old(store.ttl) - MatchedKeys(pattern, walked)
    {
      if !available {
        return;
      }
      var walked := if failAt.Some? && failAt.value < |pages| then pages[..failAt.value] else pages;
      store.DeleteScanned(pattern, walked);
    }

    /** `get_cache_metrics()` at time `now`. */
    function GetCacheMetrics(now: int): (m: Metrics)
      reads this
      requires Valid()
      ensures m.hits == hits && m.misses == misses && m.totalRequests == hits + misses
      // the ratio defaults to 0 with no requests, and is the hit percentage otherwise
      ensures m.totalRequests == 0 ==> m.hitRatio == 0.0
      ensures m.totalRequests > 0 ==> m.hitRatio == Percent(hits, m.totalRequests)
      ensures 0.0 <= m.hitRatio <= 100.0
      ensures m.hitRatio == 100.0 <==> m.totalRequests > 0 && misses == 0
      // the savings default to 0 unless both size counters are positive
      ensures !(cachedSize > 0 && compressedSize > 0) ==> m.compressionSavings == 0.0
      ensures cachedSize > 0 && compressedSize > 0 ==>
                m.compressionSavings == 100.0 - Percent(compressedSize, cachedSize)
      ensures m.compressionSavings <= 100.0
      ensures m.compressionSavings > 0.0 <==> cachedSize > 0 && 0 < compressedSize < cachedSize
      ensures m.uptime == now - startTime
      ensures m.cachedKb == cachedSize as real / 1024.0 && m.compressedKb == compressedSize as real / 1024.0
    {
      var total := hits + misses;
      var ratio := if total > 0 then PercentBounds(hits, total); Percent(hits, total) else 0.0;
      var savings := if cachedSize > 0 && compressedSize > 0 then
                       PercentBounds(compressedSize, cachedSize); 100.0 - Percent(compressedSize, cachedSize)
                     else 0.0;
      Metrics(hits, misses, total, ratio, now - startTime, cachedSize as real / 1024.0,
              compressedSize as real / 1024.0, savings)
    }

    /** `reset_cache_metrics()`. */
    method ResetCacheMetrics(now: int)
      requires Valid()
      modifies this
      ensures Valid()
      ensures hits == 0 && misses == 0 && cachedSize == 0 && compressedSize == 0 && startTime == now
      ensures available == old(available)
    {
      hits, misses, cachedSize, compressedSize := 0, 0, 0, 0;
      startTime := now;
    }
  }

  /** The metrics as numbers; the source prints the two percentages with two decimals. */
  datatype Metrics = Metrics(hits: int, misses: int, totalRequests: int, hitRatio: real, uptime: int,
                             cachedKb: real, compressedKb: real, compressionSavings: real)

  /** `(part / whole) * 100`, exactly. */
  function Percent(part: int, whole: int): real
    requires whole != 0
  {
    (part as real / whole as real) * 100.0
  }

  lemma PercentBounds(part: int, whole: int)
    requires whole > 0
    ensures 0 <= part ==> 0.0 <= Percent(part, whole)
    ensures 0 <= part <= whole ==> Percent(part, whole) <= 100.0
    ensures Percent(part, whole) == 100.0 <==> part == whole
    ensures Percent(part, whole) < 100.0 <==> part < whole
  {
    var w := whole as real;
    var q := part as real / w;
    assert q * w == part as real;
    assert Percent(part, whole) == q * 100.0;
    if q >= 1.0 {
      assert q * w >= 1.0 * w;
    } else {
      assert q * w < 1.0 * w;
    }
    if 0 <= part {
      assert q >= 0.0;
    }
  }

  /** Whatever a miss stores reads back as the value that was stored, compressed or not. */
  lemma {:induction false} EncodedRoundTrip<T(!new)>(codec: Codec<T>, packer: Packer, v: T, useCompression: bool)
    requires JsonLike(codec) && PackerRoundTrips(packer)
    ensures Classify(codec, packer, Some(Encoded(codec, packer, v, useCompression))) == Hit(v)
  {
    var s := Encoded(codec, packer, v, useCompression);
    if Compresses(codec, v, useCompression) {
      assert s[|CompressedPrefix|..] == packer.pack(codec.ser(v));
    } else {
      assert s[0] != 'C';
      assert !StartsWith(s, CompressedPrefix);
    }
  }

  /** A prefixed value whose payload is not ASCII is counted as a hit and as a miss, is not deleted, and
      sends the reader to the database once. */
  lemma NonAsciiPayloadEscapes<T>(codec: Codec<T>, packer: Packer)
    requires RejectsNonAscii(packer)
    ensures Classify(codec, packer, Some(CompressedPrefix + "\U{E9}")) == Broken
  {
    var s := CompressedPrefix + "\U{E9}";
    assert s[..|CompressedPrefix|] == CompressedPrefix;
    var payload := s[|CompressedPrefix|..];
    assert payload == "\U{E9}";
    assert payload[0] as int >= 128;
  }

  /** The prefix marks exactly the compressed values: uncompressed JSON text never carries it. */
  lemma EncodedPrefixIffCompressed<T(!new)>(codec: Codec<T>, packer: Packer, v: T, useCompression: bool)
    requires JsonLike(codec)
    ensures StartsWith(Encoded(codec, packer, v, useCompression), CompressedPrefix) <==> Compresses(codec, v, useCompression)
  {
    var s := Encoded(codec, packer, v, useCompression);
    if !Compresses(codec, v, useCompression) {
      assert s[0] != 'C';
    }
  }

  /** A value written on a miss is served on the next call without touching the database. */
  method MissThenHit<T(!new)>(cache: Cache<T>, key: string, useCompression: bool, v: T, w: T)
    returns (r1: T, f1: nat, r2: T, f2: nat)
    requires cache.Valid() && cache.available && key !in cache.store.data
    modifies cache, cache.store
    ensures r1 == v && f1 == 1 && r2 == v && f2 == 0
    ensures cache.hits == old(cache.hits) + 1 && cache.misses == old(cache.misses) + 1
  {
    var o1, o2;
    r1, f1, o1 := cache.GetCachedData(key, DefaultTtl, useCompression, v, w, false, false, false);
    EncodedRoundTrip(cache.codec, cache.packer, v, useCompression);
    r2, f2, o2 := cache.GetCachedData(key, DefaultTtl, useCompression, w, w, false, false, false);
  }
}
