/** The home page's five-minute cache of the site metrics in the browser's local storage. An entry is
    the JSON text of `{data, timestamp}`; reading it past its lifetime, or failing to parse it, removes
    it. `fetchMetrics` asks the API (three requests, issued together) only when the cache has nothing
    valid; `refreshMetrics` drops the entry first. Time is the caller's `Date.now()` in milliseconds. */
module HomeCache {
  import opened Common

  const MetricsKey: string := "about_metrics_cache"
  /** Five minutes in milliseconds. */
  const Ttl: int := 5 * 60 * 1000
  /** `fetchMetrics` asks for the courses and for the two user counts. */
  const MetricsRequests: nat := 3

  datatype Entry<T> = Entry(data: T, timestamp: int)

  datatype Metrics = Metrics(totalCourses: int, totalLearners: int, totalInstructors: int)

  /** The state's initial metrics. */
  const NoMetrics: Metrics := Metrics(0, 0, 0)

  /** An entry written at `timestamp` is still valid at `now`: strictly less than the lifetime. */
  predicate StillValid(timestamp: int, now: int) {
    now - timestamp < Ttl
  }

  /** `getCachedData(key)` at time `now` over the storage contents: the value returned and the
      contents afterwards. */
  function Lookup<T>(items: map<string, string>, codec: Codec<Entry<T>>, key: string, now: int)
    : (r: (Option<T>, map<string, string>))
    ensures key !in items || items[key] == "" ==> r == (None, items)
    ensures key in items && items[key] != "" && codec.de(items[key]).None? ==> r == (None, items - {key})
    ensures key in items && items[key] != "" && codec.de(items[key]).Some? ==>
              var e := codec.de(items[key]).value;
              r == if StillValid(e.timestamp, now) then (Some(e.data), items) else (None, items - {key})
  {
    if key !in items || items[key] == "" then (None, items)
    else match codec.de(items[key])
      case None => (None, items - {key})
      case Some(e) => if now - e.timestamp < Ttl then (Some(e.data), items) else (None, items - {key})
  }

  /** `setCachedData(key, data)` at time `now`. */
  function Stored<T>(items: map<string, string>, codec: Codec<Entry<T>>, key: string, data: T, now: int)
    : map<string, string>
  {
    items[key := codec.ser(Entry(data, now))]
  }

  /** Within the lifetime, a read returns what was written and keeps the entry. */
  lemma ReadWithinLifetime<T(!new)>(items: map<string, string>, codec: Codec<Entry<T>>, key: string, data: T,
                                    written: int, now: int)
    requires JsonLike(codec) && now - written < Ttl
    ensures Lookup(Stored(items, codec, key, data, written), codec, key, now)
            == (Some(data), Stored(items, codec, key, data, written))
  {
    var e := Entry(data, written);
    assert codec.de(codec.ser(e)) == Some(e) && |codec.ser(e)| > 0;
  }

  /** From the lifetime on, a read finds nothing and the entry is gone: the storage is as it was before
      the write, less the key. */
  lemma ReadAfterLifetime<T(!new)>(items: map<string, string>, codec: Codec<Entry<T>>, key: string, data: T,
                                   written: int, now: int)
    requires JsonLike(codec) && now - written >= Ttl
    ensures Lookup(Stored(items, codec, key, data, written), codec, key, now) == (None, items - {key})
  {
    var e := Entry(data, written);
    assert codec.de(codec.ser(e)) == Some(e) && |codec.ser(e)| > 0;
    assert Stored(items, codec, key, data, written) - {key} == items - {key};
  }

  /** A write under one key leaves what a read under another key finds. */
  lemma WriteLeavesOtherKeys<T>(items: map<string, string>, codec: Codec<Entry<T>>, key: string, other: string,
                                data: T, written: int, now: int)
    requires key != other
    ensures Lookup(Stored(items, codec, key, data, written), codec, other, now).0 == Lookup(items, codec, other, now).0
  {
    assert other in Stored(items, codec, key, data, written) <==> other in items;
  }

  /** The browser's `localStorage`. */
  class LocalStorage {
    var items: map<string, string>

    constructor ()
      ensures items == map[]
    {
      items := map[];
    }

    /** `getItem`: null when absent. */
    function GetItem(key: string): (r: Option<string>)
      reads this
      ensures r.Some? <==> key in items
      ensures r.Some? ==> r.value == items[key]
    {
      if key in items then Some(items[key]) else None
    }

    method SetItem(key: string, value: string)
      modifies this
      ensures items == old(items)[key := value]
    {
      items := items[key := value];
    }

    /** `removeItem`: an absent key is ignored. */
    method RemoveItem(key: string)
      modifies this
      ensures items == old(items) - {key}
    {
      items := items - {key};
    }
  }

  /** `getCachedData(key)`. */
  method GetCachedData<T>(storage: LocalStorage, codec: Codec<Entry<T>>, key: string, now: int) returns (r: Option<T>)
    modifies storage
    ensures (r, storage.items) == Lookup(old(storage.items), codec, key, now)
  {
    var cached := storage.GetItem(key);
    if cached.None? || cached.value == "" {
      return None;
    }
    var parsed := codec.de(cached.value);
    if parsed.None? {
      storage.RemoveItem(key);
      return None;
    }
    if now - parsed.value.timestamp < Ttl {
      return Some(parsed.value.data);
    }
    storage.RemoveItem(key);
    r := None;
  }

  /** `setCachedData(key, data)`; a write the browser refuses (`writeFails`, such as a full quota) is
      swallowed and leaves the storage as it was. */
  method SetCachedData<T>(storage: LocalStorage, codec: Codec<Entry<T>>, key: string, data: T, now: int,
                          writeFails: bool)
    modifies storage
    ensures storage.items == if writeFails then old(storage.items) else Stored(old(storage.items), codec, key, data, now)
  {
    if !writeFails {
      storage.SetItem(key, codec.ser(Entry(data, now)));
    }
  }

  /** The page's metrics state. */
  class HomePage {
    var metrics: Metrics
    var metricsLoading: bool

    constructor ()
      ensures metrics == NoMetrics && metricsLoading
    {
      metrics := NoMetrics;
      metricsLoading := true;
    }

    /** `fetchMetrics`: a valid cache entry is shown without any request; otherwise the three requests
        go out, and their combined answer (`fetched`, None when any of them fails) is shown and cached.
        A failed fetch keeps the metrics shown so far. Either way loading ends. */
    method FetchMetrics(storage: LocalStorage, codec: Codec<Entry<Metrics>>, now: int, fetched: Option<Metrics>,
                        writeFails: bool)
      returns (requests: nat)
      modifies this, storage
      ensures !metricsLoading
      ensures var (hit, after) := Lookup(old(storage.items), codec, MetricsKey, now);
              if hit.Some? then
                requests == 0 && metrics == hit.value && storage.items == after
              else
                requests == MetricsRequests
                && (fetched.Some? ==>
                      metrics == fetched.value
                      && storage.items == if writeFails then after else Stored(after, codec, MetricsKey, fetched.value, now))
                && (fetched.None? ==> metrics == old(metrics) && storage.items == after)
    {
      var cachedMetrics := GetCachedData(storage, codec, MetricsKey, now);
      if cachedMetrics.Some? {
        metrics := cachedMetrics.value;
        metricsLoading := false;
        return 0;
      }
      metricsLoading := true;
      requests := MetricsRequests;
      if fetched.Some? {
        metrics := fetched.value;
        SetCachedData(storage, codec, MetricsKey, fetched.value, now, writeFails);
      }
      metricsLoading := false;
    }

    /** `refreshMetrics`: the entry is removed first, so the API is always asked. */
    method RefreshMetrics(storage: LocalStorage, codec: Codec<Entry<Metrics>>, now: int, fetched: Option<Metrics>,
                          writeFails: bool)
      returns (requests: nat)
      modifies this, storage
      ensures requests == MetricsRequests && !metricsLoading
      ensures fetched.Some? ==> metrics == fetched.value
      ensures fetched.None? ==> metrics == old(metrics)
      ensures var cleared := old(storage.items) - {MetricsKey};
              storage.items == if fetched.Some? && !writeFails then Stored(cleared, codec, MetricsKey, fetched.value, now)
                               else cleared
    {
      storage.RemoveItem(MetricsKey);
      requests := FetchMetrics(storage, codec, now, fetched, writeFails);
    }
  }

  /** Two visits within five minutes: the second is served from the cache and asks nothing. */
  method VisitTwice(storage: LocalStorage, page: HomePage, codec: Codec<Entry<Metrics>>, m: Metrics, t: int, later: int)
    returns (first: nat, second: nat)
    requires JsonLike(codec) && MetricsKey !in storage.items && t <= later < t + Ttl
    modifies storage, page
    ensures first == MetricsRequests && second == 0 && page.metrics == m
    ensures storage.items == Stored(old(storage.items), codec, MetricsKey, m, t)
  {
    first := page.FetchMetrics(storage, codec, t, Some(m), false);
    ReadWithinLifetime(old(storage.items), codec, MetricsKey, m, t, later);
    second := page.FetchMetrics(storage, codec, later, None, false);
  }
}
