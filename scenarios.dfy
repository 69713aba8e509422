/** Three concrete lookups, for an arbitrary JSON codec: London fetched and cached, Paris served from the cache, Nowhere not found. */
module Scenarios {
  import opened Wrappers
  import opened WeatherModels
  import opened Weather
  import opened LookupProperties

  /**
   * "London", empty cache, upstream answers 200 with a body that decodes:
   * the record is returned and the cache holds its encoding under "weather:London".
   */
  lemma LondonFetchedAndCached(codec: Codec, body: Bytes, w: WeatherResponse, data: Bytes)
    requires codec.decode(body) == Some(w) && codec.encode(w) == Some(data)
    ensures var env := Env(false, Response([], 200, body), false);
      Lookup(codec, DefaultExpiryMinutes, Some(map[]), "London", env) ==
        Outcome(Success(w), Some(map["weather:London" := Entry(data, 1_800_000_000_000)]), 1, 1)
  {
    var env := Env(false, Response([], 200, body), false);
    assert CacheKey("London") == "weather:London";
    assert ExpiryDuration(DefaultExpiryMinutes) == 1_800_000_000_000;
    LookupWriteBack(codec, DefaultExpiryMinutes, map[], "London", env, w, data);
  }

  /** "Paris" already cached with a valid record: it is returned with no upstream call. */
  lemma ParisServedFromCache(codec: Codec, m: Store, w: WeatherResponse, env: Env)
    requires !env.getFails && "weather:Paris" in m && codec.decode(m["weather:Paris"].value) == Some(w)
    ensures Lookup(codec, DefaultExpiryMinutes, Some(m), "Paris", env) == Outcome(Success(w), Some(m), 0, 0)
  {
    assert CacheKey("Paris") == "weather:Paris";
    LookupHit(codec, DefaultExpiryMinutes, Some(m), "Paris", env, w);
  }

  /** "Nowhere", upstream answers 404: the status is reported and "weather:Nowhere" stays unset. */
  lemma NowhereNotFound(codec: Codec, body: Bytes, setFails: bool)
    ensures var env := Env(false, Response([], 404, body), setFails);
      var o := Lookup(codec, DefaultExpiryMinutes, Some(map[]), "Nowhere", env);
      o.result == Failure(StatusError(404)) && "weather:Nowhere" !in o.cache.value
  {
  }

  /** A caller of the service: the first lookup for London goes upstream, the second is served by the cache. */
  method LondonTwice(codec: Codec, body: Bytes, w: WeatherResponse)
    requires Coherent(codec) && codec.decode(body) == Some(w)
  {
    var s := new Service(codec, DefaultExpiryMinutes, Some(map[]));
    var env := Env(false, Response([], 200, body), false);
    var r1 := s.GetWeather("London", env);
    assert r1 == Success(w) && s.upstreamCalls == 1 && s.cacheWrites == 1;
    var r2 := s.GetWeather("London", Env(false, Response(["connection refused"], 0, []), false));
    SuccessfulLookupIsThenCached(codec, DefaultExpiryMinutes, map[], "London", env,
                                 Env(false, Response(["connection refused"], 0, []), false));
    assert r2 == Success(w) && s.upstreamCalls == 1 && s.cacheWrites == 1;
  }
}
