/** `OscQueryCache`: the memo of the peer's metadata endpoint. Clock readings
    are whole milliseconds of a monotonic clock; what an HTTP request brings
    back is an input. */
module OscQueryCache {
  import opened Wrappers
  import Json

  datatype Cache = Cache(
    lastFetched: Option<int>,
    cachedData: Option<Json.Value>,
    avatarId: Option<string>,
    avatarName: Option<string>)

  /** How long a fetched parameter tree is served from memory. */
  const TtlMs: int := 5000
  /** How soon after the last fetch a clear is ignored. */
  const ClearDebounceMs: int := 500

  /** `OscQueryCache::new()`: nothing cached. */
  function New(): (c: Cache)
    ensures c.lastFetched.None? && c.cachedData.None? && c.avatarId.None? && c.avatarName.None?
  {
    Cache(None, None, None, None)
  }

  /** `Instant::duration_since`, which saturates at zero. */
  function Elapsed(now: int, since: int): (d: nat)
    ensures now >= since ==> d == now - since
    ensures now < since ==> d == 0
  {
    if now >= since then now - since else 0
  }

  /** `clear_avatar()`: more than 500 ms after the last fetch, forget the
      avatar and the tree and restart the clock; otherwise do nothing. */
  function ClearAvatar(c: Cache, now: int): (r: Cache)
    ensures c.lastFetched.None? || Elapsed(now, c.lastFetched.value) <= ClearDebounceMs ==> r == c
    ensures c.lastFetched.Some? && Elapsed(now, c.lastFetched.value) > ClearDebounceMs ==>
              r == Cache(Some(now), None, None, None)
  {
    match c.lastFetched
    case Some(ts) =>
      if Elapsed(now, ts) > ClearDebounceMs then c.(avatarId := None, avatarName := None, cachedData := None, lastFetched := Some(now))
      else c
    case None => c
  }

  /** What one HTTP GET brought back. */
  datatype FetchOutcome =
    | TransportError              // reqwest failed: the error propagates
    | Malformed                   // a body that is not JSON
    | Parsed(body: Json.Value)    // a JSON body

  /** The transport error the source propagates with `?`. */
  datatype TransportFailure = TransportFailure

  /** The cache afterwards, the answer, and the URL requested (`None` when
      no request was made). */
  datatype Answer<T> = Answer(cache: Cache, result: Result<T, TransportFailure>, request: Option<string>)

  /** The cached tree is fresh: fetched less than five seconds ago. */
  predicate Fresh(c: Cache, now: int) {
    c.lastFetched.Some? && c.cachedData.Some? && Elapsed(now, c.lastFetched.value) < TtlMs
  }

  /** `get_avatar_parameters()`: a fresh tree is returned from memory; with
      no base URL, `Null`. Otherwise the avatar id is forgotten and
      `{base}/avatar/parameters` is fetched: a JSON body is cached, stamped
      and returned; a malformed one returns `Null` and leaves the tree alone. */
  function GetAvatarParameters(c: Cache, now: int, baseUrl: Option<string>, fetch: FetchOutcome): (a: Answer<Json.Value>)
    ensures Fresh(c, now) ==> a == Answer(c, Success(c.cachedData.value), None)
    ensures !Fresh(c, now) && baseUrl.None? ==> a == Answer(c, Success(Json.Null), None)
    ensures !Fresh(c, now) && baseUrl.Some? ==>
              && a.request == Some(baseUrl.value + "/avatar/parameters")
              && a.cache.avatarId.None? && a.cache.avatarName == c.avatarName
    ensures !Fresh(c, now) && baseUrl.Some? && fetch.Parsed? ==>
              a.cache == c.(avatarId := None, lastFetched := Some(now), cachedData := Some(fetch.body))
              && a.result == Success(fetch.body)
    ensures !Fresh(c, now) && baseUrl.Some? && fetch.Malformed? ==>
              a.cache == c.(avatarId := None) && a.result == Success(Json.Null)
    ensures !Fresh(c, now) && baseUrl.Some? && fetch.TransportError? ==>
              a.cache == c.(avatarId := None) && a.result.Failure?
  {
    if Fresh(c, now) then Answer(c, Success(c.cachedData.value), None)
    else match baseUrl
      case None => Answer(c, Success(Json.Null), None)
      case Some(base) =>
        var url := base + "/avatar/parameters";
        var c1 := c.(avatarId := None);
        match fetch
        case TransportError => Answer(c1, Failure(TransportFailure), Some(url))
        case Malformed => Answer(c1, Success(Json.Null), Some(url))
        case Parsed(json) => Answer(c1.(lastFetched := Some(now), cachedData := Some(json)), Success(json), Some(url))
  }

  /** `get_avatar_id()`: a known id is returned from memory; with no base
      URL, none. Otherwise `{base}/avatar/change` is fetched: from a JSON
      body the string at `VALUE[0]` (if any) is remembered and returned; a
      malformed body yields the empty string and remembers nothing. */
  function GetAvatarId(c: Cache, baseUrl: Option<string>, fetch: FetchOutcome): (a: Answer<Option<string>>)
    ensures c.avatarId.Some? ==> a == Answer(c, Success(c.avatarId), None)
    ensures c.avatarId.None? && baseUrl.None? ==> a == Answer(c, Success(None), None)
    ensures c.avatarId.None? && baseUrl.Some? ==> a.request == Some(baseUrl.value + "/avatar/change")
    ensures c.avatarId.None? && baseUrl.Some? && fetch.Parsed? ==>
              a.cache == c.(avatarId := Json.AvatarIdField(fetch.body))
              && a.result == Success(Json.AvatarIdField(fetch.body))
    ensures c.avatarId.None? && baseUrl.Some? && fetch.Malformed? ==>
              a.cache == c && a.result == Success(Some(""))
    ensures c.avatarId.None? && baseUrl.Some? && fetch.TransportError? ==>
              a.cache == c && a.result.Failure?
  {
    if c.avatarId.Some? then Answer(c, Success(c.avatarId), None)
    else match baseUrl
      case None => Answer(c, Success(None), None)
      case Some(base) =>
        var url := base + "/avatar/change";
        match fetch
        case TransportError => Answer(c, Failure(TransportFailure), Some(url))
        case Malformed => Answer(c, Success(Some("")), Some(url))
        case Parsed(json) =>
          var id := Json.AvatarIdField(json);
          Answer(c.(avatarId := id), Success(id), Some(url))
  }

  /** Within five seconds of a successful fetch, a second call answers the
      same tree from memory, whatever the network would now say, and changes
      nothing. */
  lemma ParametersHitIdempotent(
    c: Cache, t0: int, t1: int, base: string, json: Json.Value, later: FetchOutcome)
    requires !Fresh(c, t0)
    requires t0 <= t1 < t0 + TtlMs
    ensures var first := GetAvatarParameters(c, t0, Some(base), Parsed(json));
            var second := GetAvatarParameters(first.cache, t1, Some(base), later);
            second == Answer(first.cache, first.result, None)
  {
  }

  /** A new cache knows nothing: both queries go to the network, and a clear
      changes nothing. */
  lemma NewCacheFetches(now: int, base: string, f: FetchOutcome)
    ensures GetAvatarParameters(New(), now, Some(base), f).request == Some(base + "/avatar/parameters")
    ensures GetAvatarId(New(), Some(base), f).request == Some(base + "/avatar/change")
    ensures ClearAvatar(New(), now) == New()
  {
  }

  /** Five seconds or more after the last fetch, a call with a base URL goes
      to the network again. */
  lemma ParametersExpire(c: Cache, now: int, base: string, fetch: FetchOutcome)
    requires c.lastFetched.Some? && now >= c.lastFetched.value + TtlMs
    ensures GetAvatarParameters(c, now, Some(base), fetch).request.Some?
  {
  }

  /** A clear right after a successful fetch (within 500 ms) is ignored. */
  lemma ClearDebounced(
    c: Cache, t0: int, t1: int, base: string, json: Json.Value)
    requires !Fresh(c, t0)
    requires t0 <= t1 <= t0 + ClearDebounceMs
    ensures var first := GetAvatarParameters(c, t0, Some(base), Parsed(json));
            ClearAvatar(first.cache, t1) == first.cache
  {
  }

  /** Once an id has been learned from a JSON body, later calls return it
      without a request until a clear. */
  lemma AvatarIdRemembered(
    c: Cache, base: string, json: Json.Value, later: Option<string>, fetch: FetchOutcome)
    requires c.avatarId.None? && Json.AvatarIdField(json).Some?
    ensures var first := GetAvatarId(c, Some(base), Parsed(json));
            GetAvatarId(first.cache, later, fetch) == Answer(first.cache, first.result, None)
  {
  }

  /** The answer, and the cache afterwards, never depend on the network when
      no request is made. */
  lemma NoRequestNoDependence(c: Cache, now: int, baseUrl: Option<string>, f1: FetchOutcome, f2: FetchOutcome)
    requires GetAvatarParameters(c, now, baseUrl, f1).request.None?
    ensures GetAvatarParameters(c, now, baseUrl, f1) == GetAvatarParameters(c, now, baseUrl, f2)
  {
  }
}
