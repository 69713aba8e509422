/**
 * The cache-aside lookup of internal/weather/service.go.
 *
 * The cache store (Redis) is optional: `None` is the nil client that the
 * start-up probe leaves behind when the store cannot be reached. Its contents
 * are a map from key to entry. Everything the service cannot decide itself --
 * whether a cache Get or Set fails at run time and what the upstream HTTP call
 * returns -- arrives as an `Env` value.
 */
module Weather {
  import opened Wrappers
  import opened WeatherModels

  // ---------------------------------------------------------------------------
  // Cache key

  const CacheKeyPrefix: string := "weather:"

  /** The key is the namespace tag followed by the city exactly as given. */
  function CacheKey(city: string): (key: string)
    ensures |key| == |CacheKeyPrefix| + |city|
    ensures key[..|CacheKeyPrefix|] == CacheKeyPrefix
    ensures key[|CacheKeyPrefix|..] == city
  {
    CacheKeyPrefix + city
  }

  // ---------------------------------------------------------------------------
  // Expiry: time.Duration(minutes) * time.Minute, an int64 count of nanoseconds

  const TwoTo63: int := 0x8000_0000_0000_0000
  const TwoTo64: int := 0x1_0000_0000_0000_0000
  const NanosPerMinute: int := 60_000_000_000
  /** The largest number of minutes whose duration fits in an int64. */
  const MaxExpiryMinutes: int := 153_722_867
  /** The default of REDIS_EXPIRY_MIN. */
  const DefaultExpiryMinutes: int := 30

  predicate IsInt64(x: int)
  {
    -TwoTo63 <= x < TwoTo63
  }

  /** Go's int on a 64-bit platform. */
  type Int64 = x: int | IsInt64(x)

  /** Two's-complement wrap-around of a Go int64 operation. */
  function WrapInt64(x: int): (r: int)
    ensures IsInt64(r)
    ensures (x - r) % TwoTo64 == 0
    ensures IsInt64(x) ==> r == x
  {
    (x + TwoTo63) % TwoTo64 - TwoTo63
  }

  /** The TTL handed to the cache's Set; it wraps for absurdly large settings. */
  function ExpiryDuration(minutes: Int64): (d: Int64)
    ensures -MaxExpiryMinutes <= minutes <= MaxExpiryMinutes ==> d == minutes * NanosPerMinute
    ensures 0 < minutes <= MaxExpiryMinutes ==> d > 0
  {
    WrapInt64(minutes * NanosPerMinute)
  }

  // ---------------------------------------------------------------------------
  // Cache store

  /** A stored value with the TTL it was written with (the TTL is recorded, not enforced). */
  datatype Entry = Entry(value: Bytes, expiry: int)

  type Store = map<string, Entry>

  /** What the service cannot decide: run-time cache failures and the upstream reply. */
  datatype Env = Env(getFails: bool, upstream: Response, setFails: bool)

  /**
   * The value a cache Get yields; `None` is any Get error (missing key or a
   * failing store), which the source does not tell apart.
   */
  function CacheGet(cache: Option<Store>, key: string, getFails: bool): (v: Option<Bytes>)
    ensures v.Some? <==> cache.Some? && !getFails && key in cache.value
    ensures v.Some? ==> v.value == cache.value[key].value
  {
    if cache.Some? && !getFails && key in cache.value then Some(cache.value[key].value) else None
  }

  /** A cache hit: a Get that succeeds and whose value decodes. */
  function CachedRecord(codec: Codec, cache: Option<Store>, key: string, getFails: bool): (w: Option<WeatherResponse>)
    ensures w.Some? ==> cache.Some? && key in cache.value && codec.decode(cache.value[key].value) == w
    ensures cache.None? || getFails || key !in cache.value ==> w.None?
    ensures cache.Some? && !getFails && key in cache.value ==> w == codec.decode(cache.value[key].value)
  {
    match CacheGet(cache, key, getFails)
    case None => None
    case Some(b) => codec.decode(b)
  }

  // ---------------------------------------------------------------------------
  // Upstream

  /** The triple `statusCode, body, errs` returned by the HTTP GET. */
  datatype Response = Response(errs: seq<string>, statusCode: int, body: Bytes)

  /** The three ways the upstream call fails, each carrying what its message reports. */
  datatype FetchError =
    | TransportError(cause: string)
    | StatusError(statusCode: int)
    | ParseError

  const StatusOK: int := 200

  /**
   * Classification of the upstream reply in a fixed order: transport errors
   * first, then a status other than 200, then a body that does not decode.
   */
  function FetchFromAPI(codec: Codec, resp: Response): (r: Result<WeatherResponse, FetchError>)
    ensures r.Success? <==> |resp.errs| == 0 && resp.statusCode == StatusOK && codec.decode(resp.body).Some?
    ensures r.Success? ==> codec.decode(resp.body) == Some(r.value)
    ensures |resp.errs| > 0 ==> r == Failure(TransportError(resp.errs[0]))
    ensures |resp.errs| == 0 && resp.statusCode != StatusOK ==> r == Failure(StatusError(resp.statusCode))
    ensures r == Failure(ParseError) <==>
      |resp.errs| == 0 && resp.statusCode == StatusOK && codec.decode(resp.body).None?
  {
    if |resp.errs| > 0 then
      Failure(TransportError(resp.errs[0]))
    else if resp.statusCode != StatusOK then
      Failure(StatusError(resp.statusCode))
    else
      match codec.decode(resp.body)
      case None => Failure(ParseError)
      case Some(w) => Success(w)
  }

  // ---------------------------------------------------------------------------
  // The specification of one lookup

  /** The cache after a write-back and the number of Set calls it made. */
  datatype WriteOutcome = WriteOutcome(cache: Option<Store>, setCalls: nat)

  /** Best-effort write-back: no cache, an encode failure or a Set failure leave the store as it was. */
  function WriteBack(codec: Codec, expiryMinutes: Int64, cache: Option<Store>, key: string,
                     w: WeatherResponse, setFails: bool): (o: WriteOutcome)
    ensures o.cache.Some? == cache.Some?
    ensures o.setCalls <= 1
    ensures cache.None? ==> o == WriteOutcome(cache, 0)
    ensures o.cache != cache ==>
      && cache.Some? && !setFails && codec.encode(w).Some?
      && o.cache.value == cache.value[key := Entry(codec.encode(w).value, ExpiryDuration(expiryMinutes))]
    ensures cache.Some? && codec.encode(w).Some? && !setFails ==>
      o == WriteOutcome(Some(cache.value[key := Entry(codec.encode(w).value, ExpiryDuration(expiryMinutes))]), 1)
  {
    if cache.None? then WriteOutcome(cache, 0)
    else match codec.encode(w)
      case None => WriteOutcome(cache, 0)
      case Some(data) =>
        if setFails then WriteOutcome(cache, 1)
        else WriteOutcome(Some(cache.value[key := Entry(data, ExpiryDuration(expiryMinutes))]), 1)
  }

  /** What one lookup returns, the cache it leaves, and the calls it made. */
  datatype Outcome = Outcome(
    result: Result<WeatherResponse, FetchError>,
    cache: Option<Store>,
    upstreamCalls: nat,
    cacheWrites: nat)

  /** Cache-aside: a decodable cached value is returned; otherwise one upstream call, then a write-back on success. */
  function Lookup(codec: Codec, expiryMinutes: Int64, cache: Option<Store>, city: string, env: Env): (o: Outcome)
    ensures o.upstreamCalls <= 1 && o.cacheWrites <= o.upstreamCalls
    ensures o.cache.Some? == cache.Some?
    ensures cache.Some? ==> o.cache.value.Keys <= cache.value.Keys + {CacheKey(city)}
    ensures cache.Some? ==> forall k :: k in cache.value && k != CacheKey(city) ==>
      k in o.cache.value && o.cache.value[k] == cache.value[k]
    ensures o.result.Failure? ==> o.upstreamCalls == 1 && o.cache == cache && o.cacheWrites == 0
    ensures o.upstreamCalls == 0 ==> o.result.Success? && o.cache == cache && o.cacheWrites == 0
    ensures o.result.Success? <==>
      CachedRecord(codec, cache, CacheKey(city), env.getFails).Some? || FetchFromAPI(codec, env.upstream).Success?
  {
    var key := CacheKey(city);
    match CachedRecord(codec, cache, key, env.getFails)
    case Some(w) => Outcome(Success(w), cache, 0, 0)
    case None =>
      match FetchFromAPI(codec, env.upstream)
      case Failure(e) => Outcome(Failure(e), cache, 1, 0)
      case Success(w) =>
        var wb := WriteBack(codec, expiryMinutes, cache, key, w, env.setFails);
        Outcome(Success(w), wb.cache, 1, wb.setCalls)
  }

  // ---------------------------------------------------------------------------
  // The service

  class Service {
    /** The JSON codec. */
    const codec: Codec
    /** RedisExpiryMin of the configuration. */
    const expiryMinutes: Int64
    /** The cache store behind the client handle; `None` when the handle is nil. */
    var cache: Option<Store>
    /** Upstream HTTP calls made so far. */
    ghost var upstreamCalls: nat
    /** Cache Set calls made so far. */
    ghost var cacheWrites: nat

    /** NewService: the handle is fixed at construction and never reconfigured. */
    constructor (codec: Codec, expiryMinutes: Int64, cache: Option<Store>)
        ensures this.codec == codec && this.expiryMinutes == expiryMinutes && this.cache == cache
      ensures upstreamCalls == 0 && cacheWrites == 0
    {
      this.codec := codec;
      this.expiryMinutes := expiryMinutes;
      this.cache := cache;
      upstreamCalls := 0;
      cacheWrites := 0;
    }

    /** GetWeather: the city is non-empty, which the HTTP handler checks before calling. */
    method GetWeather(city: string, env: Env) returns (r: Result<WeatherResponse, FetchError>)
      requires |city| > 0
        modifies this
      ensures var o := Lookup(codec, expiryMinutes, old(cache), city, env);
        && r == o.result
        && cache == o.cache
        && upstreamCalls == old(upstreamCalls) + o.upstreamCalls
        && cacheWrites == old(cacheWrites) + o.cacheWrites
    {
      var key := CacheKey(city);
      if cache.Some? {
        var cached := CacheGet(cache, key, env.getFails);
        if cached.Some? {
          var decoded := codec.decode(cached.value);
          if decoded.Some? {
            return Success(decoded.value);
          }
        }
      }
      upstreamCalls := upstreamCalls + 1;
      var fetched := FetchFromAPI(codec, env.upstream);
      if fetched.Failure? {
        return Failure(fetched.error);
      }
      CacheWeather(key, fetched.value, env.setFails);
      return Success(fetched.value);
    }

    /** cacheWeather: best-effort write-back; every failure is absorbed. */
    method CacheWeather(key: string, weather: WeatherResponse, setFails: bool)
        modifies this
      ensures var o := WriteBack(codec, expiryMinutes, old(cache), key, weather, setFails);
        cache == o.cache && cacheWrites == old(cacheWrites) + o.setCalls
      ensures upstreamCalls == old(upstreamCalls)
    {
      if cache.None? {
        return;
      }
      var data := codec.encode(weather);
      if data.None? {
        return;
      }
      var expiry := ExpiryDuration(expiryMinutes);
      cacheWrites := cacheWrites + 1;
      if setFails {
        return;
      }
      cache := Some(cache.value[key := Entry(data.value, expiry)]);
    }
  }
}
