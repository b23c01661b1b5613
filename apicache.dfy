/**
 * `IBGEAPIService.get_data`: the cache key derived from the endpoint's URL
 * and the read-through cache in front of the API. The HTTP request is a
 * parameter (what the API would answer, or the exception it raises), the
 * clock is a parameter, and the cache is a map from key to entry.
 */
module ApiCache {
  import opened Wrappers
  import opened PyJson

  const KeyPrefix := "api_data_"

  /** `CACHE_TIMEOUT`, in seconds. */
  const CacheTimeout: int := 320000

  /** `s.replace(a, b)` for single characters. */
  function Replace(s: string, a: char, b: char): (r: string)
    decreases |s|
  {
    if s == [] then []
    else Replace(s[..|s| - 1], a, b) + [if s[|s| - 1] == a then b else s[|s| - 1]]
  }

  /** `Replace` keeps the length and rewrites exactly the occurrences of `a`. */
  lemma {:induction false} ReplaceSpec(s: string, a: char, b: char)
    ensures |Replace(s, a, b)| == |s|
    ensures forall i | 0 <= i < |s| :: Replace(s, a, b)[i] == if s[i] == a then b else s[i]
    decreases |s|
  {
    if s != [] {
      var p := s[..|s| - 1];
      ReplaceSpec(p, a, b);
      forall i | 0 <= i < |s| ensures Replace(s, a, b)[i] == if s[i] == a then b else s[i] {
        if i < |p| {
          assert s[i] == p[i];
        }
      }
    }
  }

  /** `f"{cls.BASE_URL}/{endpoint}"`. */
  function Url(baseUrl: string, endpoint: string): string
  {
    baseUrl + "/" + endpoint
  }

  /** `f"api_data_{url.replace('/', '_').replace(':', '_')}"`. */
  function CacheKey(url: string): string
  {
    KeyPrefix + Replace(Replace(url, '/', '_'), ':', '_')
  }

  /** The character a URL character becomes in the key. */
  function KeyChar(c: char): char
  {
    if c == '/' || c == ':' then '_' else c
  }

  /**
   * The key is the prefix followed by the URL with every `/` and `:` turned
   * into `_`; so it holds neither character after the prefix.
   */
  lemma {:induction false} CacheKeySpec(url: string)
    ensures |CacheKey(url)| == |KeyPrefix| + |url|
    ensures CacheKey(url)[..|KeyPrefix|] == KeyPrefix
    ensures forall i | 0 <= i < |url| :: CacheKey(url)[|KeyPrefix| + i] == KeyChar(url[i])
    ensures forall i | |KeyPrefix| <= i < |CacheKey(url)| :: CacheKey(url)[i] != '/' && CacheKey(url)[i] != ':'
  {
    var s1 := Replace(url, '/', '_');
    ReplaceSpec(url, '/', '_');
    ReplaceSpec(s1, ':', '_');
    var key := CacheKey(url);
    forall i | 0 <= i < |url| ensures key[|KeyPrefix| + i] == KeyChar(url[i]) {
      assert key[|KeyPrefix| + i] == Replace(s1, ':', '_')[i];
    }
  }

  /** Two URLs share a cache entry exactly when they agree once `/` and `:` are read as `_`. */
  lemma {:induction false} SameKey(u: string, v: string)
    ensures CacheKey(u) == CacheKey(v) <==> |u| == |v| && forall i | 0 <= i < |u| :: KeyChar(u[i]) == KeyChar(v[i])
  {
    CacheKeySpec(u);
    CacheKeySpec(v);
    var n := |KeyPrefix|;
    if |u| == |v| && forall i | 0 <= i < |u| :: KeyChar(u[i]) == KeyChar(v[i]) {
      forall j | 0 <= j < |CacheKey(u)| ensures CacheKey(u)[j] == CacheKey(v)[j] {
        if j < n {
          assert CacheKey(u)[j] == CacheKey(u)[..n][j];
          assert CacheKey(v)[j] == CacheKey(v)[..n][j];
        } else {
          assert CacheKey(u)[n + (j - n)] == KeyChar(u[j - n]);
        }
      }
    }
    if CacheKey(u) == CacheKey(v) {
      forall i | 0 <= i < |u| ensures KeyChar(u[i]) == KeyChar(v[i]) {
        assert CacheKey(u)[n + i] == CacheKey(v)[n + i];
      }
    }
  }

  /** Different endpoints can collide: `a/b`, `a:b` and `a_b` name one entry. */
  lemma CollidingUrls()
    ensures "a/b" != "a:b" && CacheKey("a/b") == CacheKey("a:b") == CacheKey("a_b")
  {
    SameKey("a/b", "a:b");
    SameKey("a/b", "a_b");
    assert KeyChar('/') == KeyChar(':') == '_';
  }

  /** A cached value and the time it expires. */
  datatype Entry = Entry(data: Json, expires: int)

  /** `cache.get(key)`: None when absent, expired, or a stored JSON null. */
  function Lookup(entries: map<string, Entry>, key: string, now: int): Option<Json>
  {
    if key in entries && now < entries[key].expires && entries[key].data != JNull then Some(entries[key].data) else None
  }

  /** A value just stored is what `cache.get` answers until its timeout, unless it is null. */
  lemma {:induction false} StoredIsHit(entries: map<string, Entry>, key: string, data: Json, now: int, later: int)
    requires now <= later < now + CacheTimeout && data != JNull
    ensures Lookup(entries[key := Entry(data, now + CacheTimeout)], key, later) == Some(data)
  {
  }

  /** Storing under one key leaves every other key's answer as it was. */
  lemma {:induction false} StoreIsLocal(entries: map<string, Entry>, key: string, other: string, e: Entry, now: int)
    requires other != key
    ensures Lookup(entries[key := e], other, now) == Lookup(entries, other, now)
  {
  }

  /** `len(data)` in the log lines: JSON lists, objects and strings have a length. */
  predicate Sized(j: Json)
  {
    j.JList? || j.JObj? || j.JStr?
  }

  /** What `get_data` returns for data in hand: the data, or the TypeError `len` raises. */
  function Logged(data: Json): Result<Json, PyError>
  {
    if Sized(data) then Ok(data) else Err(TypeError)
  }

  class Cache {
    var entries: map<string, Entry>

    constructor ()
      ensures entries == map[]
    {
      entries := map[];
    }

    /**
     * `get_data(endpoint)` at time `now`: a hit answers the cached data
     * without calling the API; a miss calls it and, when it answers,
     * caches the answer for `CacheTimeout` seconds; an exception from the
     * API propagates and caches nothing. Either way the data is then
     * measured for the log, so data without a length raises TypeError, on
     * a miss only after it has been cached. `fetched` says whether the API
     * was called.
     */
    method GetData(baseUrl: string, endpoint: string, now: int, api: Result<Json, PyError>)
      returns (r: Result<Json, PyError>, fetched: bool)
      modifies this
      ensures fetched <==> Lookup(old(entries), CacheKey(Url(baseUrl, endpoint)), now).None?
      ensures !fetched ==> r == Logged(Lookup(old(entries), CacheKey(Url(baseUrl, endpoint)), now).value) && entries == old(entries)
      ensures fetched && api.Ok? ==> r == Logged(api.value)
      ensures fetched && api.Err? ==> r == api
      ensures fetched && api.Ok? ==> entries == old(entries)[CacheKey(Url(baseUrl, endpoint)) := Entry(api.value, now + CacheTimeout)]
      ensures fetched && api.Err? ==> entries == old(entries)
    {
      var url := Url(baseUrl, endpoint);
      var cacheKey := CacheKey(url);
      var data := Lookup(entries, cacheKey, now);
      if data.None? {
        fetched := true;
        if api.Err? {
          return Err(api.error), fetched;
        }
        entries := entries[cacheKey := Entry(api.value, now + CacheTimeout)];
        if !Sized(api.value) {
          return Err(TypeError), fetched;
        }
        return Ok(api.value), fetched;
      }
      if !Sized(data.value) {
        return Err(TypeError), false;
      }
      return Ok(data.value), false;
    }
  }
}
