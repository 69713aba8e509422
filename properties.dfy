/**
 * What one lookup promises: hit, miss, pass-through without a cache, error
 * propagation, best-effort write-back, and that nothing but the city's key
 * ever changes.
 */
module LookupProperties {
  import opened Wrappers
  import opened WeatherModels
  import opened Weather

  /** Two cities share a cache entry exactly when they are the same string. */
  lemma CacheKeyInjective(a: string, b: string)
    ensures CacheKey(a) == CacheKey(b) <==> a == b
  {
  }

  /** No case folding: "London" and "london" are different entries. */
  lemma CacheKeyIsCaseSensitive()
    ensures CacheKey("London") == "weather:London"
    ensures CacheKey("London") != CacheKey("london")
  {
  }

  /** A cached value that decodes is returned as it is, with no upstream call and no write. */
  lemma LookupHit(codec: Codec, expiryMinutes: Int64, cache: Option<Store>, city: string, env: Env,
                  w: WeatherResponse)
    requires cache.Some? && !env.getFails && CacheKey(city) in cache.value
    requires codec.decode(cache.value[CacheKey(city)].value) == Some(w)
    ensures Lookup(codec, expiryMinutes, cache, city, env) == Outcome(Success(w), cache, 0, 0)
  {
  }

  /**
   * Anything but a hit -- a Get error, a missing key, a value that does not
   * decode -- is a miss: exactly one upstream call, whose failure is the only
   * error the lookup can return.
   */
  lemma LookupMissCallsUpstreamOnce(codec: Codec, expiryMinutes: Int64, cache: Option<Store>,
                                    city: string, env: Env)
    requires CachedRecord(codec, cache, CacheKey(city), env.getFails).None?
    ensures var o := Lookup(codec, expiryMinutes, cache, city, env);
      && o.upstreamCalls == 1
      && (o.result.Failure? <==> FetchFromAPI(codec, env.upstream).Failure?)
      && (o.result.Failure? ==> o.result == FetchFromAPI(codec, env.upstream))
  {
  }

  /** Every failed lookup is an upstream failure on a miss; cache errors never surface. */
  lemma LookupFailsOnlyFromUpstream(codec: Codec, expiryMinutes: Int64, cache: Option<Store>,
                                    city: string, env: Env)
    ensures var o := Lookup(codec, expiryMinutes, cache, city, env);
      o.result.Failure? ==>
        && CachedRecord(codec, cache, CacheKey(city), env.getFails).None?
        && FetchFromAPI(codec, env.upstream) == o.result
  {
  }

  /** Without a cache every lookup goes upstream, returns what upstream gives, and writes nothing. */
  lemma LookupWithoutCache(codec: Codec, expiryMinutes: Int64, city: string, env: Env)
    ensures Lookup(codec, expiryMinutes, None, city, env) ==
      Outcome(FetchFromAPI(codec, env.upstream), None, 1, 0)
  {
  }

  /** An upstream failure on a miss is returned and leaves the cache untouched. */
  lemma LookupUpstreamFailure(codec: Codec, expiryMinutes: Int64, cache: Option<Store>,
                              city: string, env: Env, e: FetchError)
    requires CachedRecord(codec, cache, CacheKey(city), env.getFails).None?
    requires FetchFromAPI(codec, env.upstream) == Failure(e)
    ensures Lookup(codec, expiryMinutes, cache, city, env) == Outcome(Failure(e), cache, 1, 0)
  {
  }

  /** An upstream success on a miss is returned whatever happens to the write-back. */
  lemma LookupUpstreamSuccess(codec: Codec, expiryMinutes: Int64, cache: Option<Store>,
                              city: string, env: Env, w: WeatherResponse)
    requires CachedRecord(codec, cache, CacheKey(city), env.getFails).None?
    requires FetchFromAPI(codec, env.upstream) == Success(w)
    ensures forall setFails: bool ::
      Lookup(codec, expiryMinutes, cache, city, env.(setFails := setFails)).result == Success(w)
  {
  }

  /** A successful write-back stores the encoded record under the city's key with the configured TTL. */
  lemma LookupWriteBack(codec: Codec, expiryMinutes: Int64, m: Store, city: string, env: Env,
                        w: WeatherResponse, data: Bytes)
    requires CachedRecord(codec, Some(m), CacheKey(city), env.getFails).None?
    requires FetchFromAPI(codec, env.upstream) == Success(w)
    requires codec.encode(w) == Some(data) && !env.setFails
    ensures Lookup(codec, expiryMinutes, Some(m), city, env) ==
      Outcome(Success(w), Some(m[CacheKey(city) := Entry(data, ExpiryDuration(expiryMinutes))]), 1, 1)
  {
  }

  /**
   * The cache only ever receives records that upstream returned: any change
   * to the store is the encoding of the record this lookup fetched and returns.
   */
  lemma LookupWritesOnlyFetchedRecords(codec: Codec, expiryMinutes: Int64, cache: Option<Store>,
                                       city: string, env: Env)
    ensures var o := Lookup(codec, expiryMinutes, cache, city, env);
      o.cache != cache ==>
        && o.result.Success?
        && FetchFromAPI(codec, env.upstream) == o.result
        && codec.encode(o.result.value).Some?
        && o.cache == Some(cache.value[CacheKey(city) := Entry(codec.encode(o.result.value).value,
                                                             ExpiryDuration(expiryMinutes))])
  {
  }

  /** On a miss the cache changes nothing the caller sees: the result is that of a lookup with no cache. */
  lemma LookupTransparentOnMiss(codec: Codec, expiryMinutes: Int64, cache: Option<Store>,
                                city: string, env: Env)
    requires CachedRecord(codec, cache, CacheKey(city), env.getFails).None?
    ensures Lookup(codec, expiryMinutes, cache, city, env).result ==
      Lookup(codec, expiryMinutes, None, city, env).result
  {
  }

  /** Every value held by the store decodes (it would be returned on a hit). */
  ghost predicate Decodable(codec: Codec, m: Store)
  {
    forall k :: k in m ==> codec.decode(m[k].value).Some?
  }

  /** With a coherent codec, a lookup never puts a value into the store that would not decode. */
  lemma LookupPreservesDecodable(codec: Codec, expiryMinutes: Int64, m: Store, city: string, env: Env)
    requires Coherent(codec) && Decodable(codec, m)
    ensures Decodable(codec, Lookup(codec, expiryMinutes, Some(m), city, env).cache.value)
  {
  }

  /**
   * Once a lookup has succeeded with a working cache, the next lookup for
   * the same city is a hit on the same record and makes no upstream call.
   */
  lemma SuccessfulLookupIsThenCached(codec: Codec, expiryMinutes: Int64, m: Store, city: string,
                                     env1: Env, env2: Env)
    requires Coherent(codec)
    requires !env1.setFails && !env2.getFails
    requires Lookup(codec, expiryMinutes, Some(m), city, env1).result.Success?
    ensures var o1 := Lookup(codec, expiryMinutes, Some(m), city, env1);
      Lookup(codec, expiryMinutes, o1.cache, city, env2) == Outcome(o1.result, o1.cache, 0, 0)
  {
  }
}
