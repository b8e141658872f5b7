/** The Valkey / Redis key-value store the backend caches talk to: a string map with a TTL per key,
    `GET`, `SETEX`, `DEL` and a cursor-based `SCAN ... MATCH` whose replies are given as pages. */
module KvStore {
  import opened Common

  class Store {
    /** Key -> stored string value (the clients are created with `decode_responses=True`). */
    var data: map<string, string>
    /** Key -> TTL in seconds given by the last `SETEX`; expiry itself is enforced by the server. */
    var ttl: map<string, int>

    constructor ()
      ensures data == map[] && ttl == map[]
    {
      data := map[];
      ttl := map[];
    }

    /** `GET key`: the value, or None when the key is absent. */
    function Get(key: string): (r: Option<string>)
      reads this
      ensures r.Some? <==> key in data
      ensures r.Some? ==> r.value == data[key]
    {
      if key in data then Some(data[key]) else None
    }

    /** `SETEX key seconds value`. */
    method SetEx(key: string, seconds: int, value: string)
      modifies this
      ensures data == old(data)[key := value]
      ensures ttl == old(ttl)[key := seconds]
    {
      data := data[key := value];
      ttl := ttl[key := seconds];
    }

    /** `DEL k1 k2 ...`: absent keys are ignored. */
    method Delete(keys: seq<string>)
      modifies this
      ensures data == old(data) - set k | k in keys
      ensures ttl == old(ttl) - set k | k in keys
    {
      data := data - set k | k in keys;
      ttl := ttl - set k | k in keys;
    }

    /** The loop shared by `invalidate_cache_pattern` and `clear_cache`: start at cursor 0, delete the
        keys of every `SCAN` reply, stop when the server hands back cursor 0. Page i of `pages` is what
        the server walks at the i-th cursor step; the reply holds those of its keys that match. */
    method DeleteScanned(pattern: string, pages: seq<seq<string>>)
      modifies this
      ensures data == old(data) - MatchedKeys(pattern, pages)
      ensures ttl == old(ttl) - MatchedKeys(pattern, pages)
    {
      var cursor := 0;
      ghost var gone: set<string> := {};
      while true
        invariant cursor == 0 || cursor < |pages|
        invariant gone == MatchedKeys(pattern, pages[..cursor])
        invariant data == old(data) - gone && ttl == old(ttl) - gone
        decreases |pages| - cursor
      {
        var keys := if cursor < |pages| then ScanReply(pattern, pages[cursor]) else [];
        if keys != [] {
          Delete(keys);
        }
        MinusTwice(old(data), gone, set k | k in keys);
        MinusTwice(old(ttl), gone, set k | k in keys);
        if cursor < |pages| {
          MatchedKeysStep(pattern, pages, cursor);
          gone := gone + set k | k in keys;
        }
        var next := if cursor + 1 < |pages| then cursor + 1 else 0;
        if next == 0 {
          assert pages == [] || pages[..cursor + 1] == pages;
          break;
        }
        cursor := next;
      }
    }
  }

  lemma MinusTwice<V>(m: map<string, V>, a: set<string>, b: set<string>)
    ensures m - a - b == m - (a + b)
  {
  }

  /** Redis glob matching for `*` (any run), `?` (any one character) and literal characters. */
  predicate GlobMatch(pattern: string, s: string)
    decreases |pattern| + |s|
  {
    if pattern == [] then s == []
    else if pattern[0] == '*' then GlobMatch(pattern[1..], s) || (s != [] && GlobMatch(pattern, s[1..]))
    else if pattern[0] == '?' then s != [] && GlobMatch(pattern[1..], s[1..])
    else s != [] && s[0] == pattern[0] && GlobMatch(pattern[1..], s[1..])
  }

  predicate NoWildcard(p: string) {
    forall i :: 0 <= i < |p| ==> p[i] != '*' && p[i] != '?'
  }

  /** The keys of one scanned page that the server returns for `MATCH pattern`. */
  function ScanReply(pattern: string, page: seq<string>): (r: seq<string>)
    ensures forall k :: k in r <==> k in page && GlobMatch(pattern, k)
  {
    if page == [] then []
    else (if GlobMatch(pattern, page[0]) then [page[0]] else []) + ScanReply(pattern, page[1..])
  }

  /** The keys of one page that match. */
  ghost function ReplySet(pattern: string, page: seq<string>): set<string> {
    set k | k in page && GlobMatch(pattern, k)
  }

  /** Every matching key met on the given pages. */
  ghost function MatchedKeys(pattern: string, pages: seq<seq<string>>): set<string>
    decreases |pages|
  {
    if pages == [] then {}
    else MatchedKeys(pattern, pages[..|pages| - 1]) + ReplySet(pattern, pages[|pages| - 1])
  }

  lemma MatchedKeysStep(pattern: string, pages: seq<seq<string>>, i: nat)
    requires i < |pages|
    ensures MatchedKeys(pattern, pages[..i + 1])
         == MatchedKeys(pattern, pages[..i]) + set k | k in ScanReply(pattern, pages[i])
  {
    assert pages[..i + 1][..i] == pages[..i];
  }

  lemma {:induction false} MatchedKeysMembers(pattern: string, pages: seq<seq<string>>, k: string)
    ensures k in MatchedKeys(pattern, pages)
        <==> GlobMatch(pattern, k) && exists j :: 0 <= j < |pages| && k in pages[j]
    decreases |pages|
  {
    if pages != [] {
      var init := pages[..|pages| - 1];
      MatchedKeysMembers(pattern, init, k);
      if exists j :: 0 <= j < |pages| && k in pages[j] {
        var j :| 0 <= j < |pages| && k in pages[j];
        if j < |pages| - 1 {
          assert init[j] == pages[j];
        }
      }
      if exists j :: 0 <= j < |init| && k in init[j] {
        var j :| 0 <= j < |init| && k in init[j];
        assert init[j] == pages[j];
      }
    }
  }

  /** `*` matches every key: `clear_cache()` with its default pattern deletes every scanned key. */
  lemma {:induction false} StarMatchesAll(s: string)
    ensures GlobMatch("*", s)
    decreases |s|
  {
    if s != [] {
      StarMatchesAll(s[1..]);
    }
  }

  /** A literal prefix followed by `*` (the shape `lectures:id:{id}:*`) matches exactly the keys with that prefix. */
  lemma {:induction false} PrefixStarMatch(prefix: string, s: string)
    requires NoWildcard(prefix)
    ensures GlobMatch(prefix + "*", s) <==> StartsWith(s, prefix)
    decreases |prefix|
  {
    if prefix == [] {
      StarMatchesAll(s);
      assert [] + "*" == "*";
    } else {
      var p := prefix + "*";
      assert p[0] == prefix[0] && p[1..] == prefix[1..] + "*";
      if s != [] && s[0] == prefix[0] {
        PrefixStarMatch(prefix[1..], s[1..]);
        assert StartsWith(s, prefix) <==> StartsWith(s[1..], prefix[1..]);
      }
    }
  }

  /** A scan whose pages hold every key of the store leaves exactly the non-matching keys behind. */
  lemma FullScanLeavesNonMatching(data: map<string, string>, pattern: string, pages: seq<seq<string>>)
    requires forall k :: k in data ==> exists j :: 0 <= j < |pages| && k in pages[j]
    ensures (data - MatchedKeys(pattern, pages)).Keys == set k | k in data && !GlobMatch(pattern, k)
  {
    forall k | k in data ensures k in MatchedKeys(pattern, pages) <==> GlobMatch(pattern, k) {
      MatchedKeysMembers(pattern, pages, k);
    }
  }
}
