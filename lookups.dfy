/**
 * Sequences of lookups against one service: the purpose of the cache is to
 * spare upstream calls, and these lemmas count them.
 */
module RepeatedLookups {
  import opened Wrappers
  import opened WeatherModels
  import opened Weather
  import opened LookupProperties

  /** One call of GetWeather together with what its environment does. */
  datatype Request = Request(city: string, env: Env)

  datatype TraceOutcome = TraceOutcome(
    results: seq<Result<WeatherResponse, FetchError>>,
    cache: Option<Store>,
    upstreamCalls: nat,
    cacheWrites: nat)

  /** The requests served one after the other, each seeing the cache the previous one left. */
  function LookupAll(codec: Codec, expiryMinutes: Int64, cache: Option<Store>, reqs: seq<Request>): (t: TraceOutcome)
    ensures |t.results| == |reqs|
    ensures t.cache.Some? == cache.Some?
    ensures t.upstreamCalls <= |reqs| && t.cacheWrites <= t.upstreamCalls
    ensures cache.None? ==> t.cache.None? && t.upstreamCalls == |reqs| && t.cacheWrites == 0
    ensures cache.Some? ==> cache.value.Keys <= t.cache.value.Keys
    decreases |reqs|
  {
    if reqs == [] then TraceOutcome([], cache, 0, 0)
    else
      var o := Lookup(codec, expiryMinutes, cache, reqs[0].city, reqs[0].env);
      var rest := LookupAll(codec, expiryMinutes, o.cache, reqs[1..]);
      TraceOutcome([o.result] + rest.results, rest.cache,
                   o.upstreamCalls + rest.upstreamCalls, o.cacheWrites + rest.cacheWrites)
  }

  /** The number of failed lookups among the results. */
  function FailureCount(rs: seq<Result<WeatherResponse, FetchError>>): nat
  {
    if rs == [] then 0 else (if rs[0].Failure? then 1 else 0) + FailureCount(rs[1..])
  }

  /** The cache keys of the requested cities. */
  function KeysOf(reqs: seq<Request>): set<string>
  {
    set i | 0 <= i < |reqs| :: CacheKey(reqs[i].city)
  }

  /** No cache Get or Set fails at run time in any of the requests. */
  predicate CacheHealthy(reqs: seq<Request>)
  {
    forall i :: 0 <= i < |reqs| ==> !reqs[i].env.getFails && !reqs[i].env.setFails
  }

  /** Without a cache, each request gets exactly what upstream answers it. */
  lemma {:induction false} PassThrough(codec: Codec, expiryMinutes: Int64, reqs: seq<Request>)
    ensures var t := LookupAll(codec, expiryMinutes, None, reqs);
      forall i :: 0 <= i < |reqs| ==> t.results[i] == FetchFromAPI(codec, reqs[i].env.upstream)
    decreases |reqs|
  {
    if reqs != [] {
      PassThrough(codec, expiryMinutes, reqs[1..]);
      var t := LookupAll(codec, expiryMinutes, None, reqs);
      var rest := LookupAll(codec, expiryMinutes, None, reqs[1..]);
      LookupWithoutCache(codec, expiryMinutes, reqs[0].city, reqs[0].env);
      forall i | 0 <= i < |reqs|
        ensures t.results[i] == FetchFromAPI(codec, reqs[i].env.upstream)
      {
        if i > 0 {
          assert t.results[i] == rest.results[i - 1];
          assert reqs[i] == reqs[1..][i - 1];
        }
      }
    }
  }

  /** Over any run, the store only ever holds values that decode (given a coherent codec). */
  lemma {:induction false} LookupAllPreservesDecodable(codec: Codec, expiryMinutes: Int64, m: Store,
                                                       reqs: seq<Request>)
    requires Coherent(codec) && Decodable(codec, m)
    ensures Decodable(codec, LookupAll(codec, expiryMinutes, Some(m), reqs).cache.value)
    decreases |reqs|
  {
    if reqs != [] {
      var o := Lookup(codec, expiryMinutes, Some(m), reqs[0].city, reqs[0].env);
      LookupPreservesDecodable(codec, expiryMinutes, m, reqs[0].city, reqs[0].env);
      LookupAllPreservesDecodable(codec, expiryMinutes, o.cache.value, reqs[1..]);
    }
  }

  /** With a healthy cache, an upstream success means the key was absent and is now present. */
  lemma HealthyMissAddsKey(codec: Codec, expiryMinutes: Int64, m: Store, city: string, env: Env)
    requires Coherent(codec) && Decodable(codec, m) && !env.getFails && !env.setFails
    requires Lookup(codec, expiryMinutes, Some(m), city, env).upstreamCalls == 1
    requires Lookup(codec, expiryMinutes, Some(m), city, env).result.Success?
    ensures CacheKey(city) !in m
    ensures Lookup(codec, expiryMinutes, Some(m), city, env).cache.value.Keys == m.Keys + {CacheKey(city)}
  {
    var key := CacheKey(city);
    var w := Lookup(codec, expiryMinutes, Some(m), city, env).result.value;
    assert CachedRecord(codec, Some(m), key, env.getFails).None?;
    // A present value would decode, and so would have been a hit.
    assert key !in m;
    assert FetchFromAPI(codec, env.upstream) == Success(w);
    assert codec.decode(env.upstream.body) == Some(w);
    LookupWriteBack(codec, expiryMinutes, m, city, env, w, codec.encode(w).value);
  }

  /** One lookup with a healthy cache: a new key for each upstream success, nothing for a hit or a failure. */
  lemma HealthyLookupStep(codec: Codec, expiryMinutes: Int64, m: Store, city: string, env: Env)
    requires Coherent(codec) && Decodable(codec, m) && !env.getFails && !env.setFails
    ensures var o := Lookup(codec, expiryMinutes, Some(m), city, env);
      && m.Keys <= o.cache.value.Keys
      && o.upstreamCalls == (if o.result.Failure? then 1 else 0) + |o.cache.value.Keys - m.Keys|
  {
    var o := Lookup(codec, expiryMinutes, Some(m), city, env);
    var m1 := o.cache.value;
    if o.upstreamCalls == 1 && o.result.Success? {
      HealthyMissAddsKey(codec, expiryMinutes, m, city, env);
      assert m1.Keys - m.Keys == {CacheKey(city)};
    } else {
      assert m1 == m;
      assert m1.Keys - m.Keys == {};
    }
  }

  lemma NestedDifference(a: set<string>, b: set<string>, c: set<string>)
    requires a <= b <= c
    ensures |c - a| == |c - b| + |b - a|
  {
    assert c - a == (c - b) + (b - a);
  }

  lemma CacheHealthyTail(reqs: seq<Request>)
    requires reqs != [] && CacheHealthy(reqs)
    ensures !reqs[0].env.getFails && !reqs[0].env.setFails
    ensures CacheHealthy(reqs[1..])
  {
    forall i | 0 <= i < |reqs[1..]| ensures !reqs[1..][i].env.getFails && !reqs[1..][i].env.setFails {
      assert reqs[1..][i] == reqs[i + 1];
    }
  }

  lemma KeysOfCons(reqs: seq<Request>)
    requires reqs != []
    ensures KeysOf(reqs) == {CacheKey(reqs[0].city)} + KeysOf(reqs[1..])
  {
    forall k | k in KeysOf(reqs) ensures k in {CacheKey(reqs[0].city)} + KeysOf(reqs[1..]) {
      var i :| 0 <= i < |reqs| && k == CacheKey(reqs[i].city);
      if i > 0 { assert reqs[1..][i - 1] == reqs[i]; }
    }
    forall k | k in KeysOf(reqs[1..]) ensures k in KeysOf(reqs) {
      var i :| 0 <= i < |reqs[1..]| && k == CacheKey(reqs[1..][i].city);
      assert reqs[1..][i] == reqs[i + 1];
    }
  }

  /**
   * With a healthy cache and a coherent codec, upstream is called once per
   * key newly added to the cache and once per failed lookup -- never for a
   * key already cached.
   */
  lemma {:induction false} UpstreamCallsCount(codec: Codec, expiryMinutes: Int64, m: Store, reqs: seq<Request>)
    requires Coherent(codec) && Decodable(codec, m) && CacheHealthy(reqs)
    ensures var t := LookupAll(codec, expiryMinutes, Some(m), reqs);
      && t.cache.value.Keys <= m.Keys + KeysOf(reqs)
      && t.upstreamCalls == |t.cache.value.Keys - m.Keys| + FailureCount(t.results)
    decreases |reqs|
  {
    if reqs != [] {
      var r := reqs[0];
      var o := Lookup(codec, expiryMinutes, Some(m), r.city, r.env);
      var m1 := o.cache.value;
      var t := LookupAll(codec, expiryMinutes, Some(m), reqs);
      var rest := LookupAll(codec, expiryMinutes, o.cache, reqs[1..]);
      CacheHealthyTail(reqs);
      HealthyLookupStep(codec, expiryMinutes, m, r.city, r.env);
      LookupPreservesDecodable(codec, expiryMinutes, m, r.city, r.env);
      UpstreamCallsCount(codec, expiryMinutes, m1, reqs[1..]);
      KeysOfCons(reqs);
      assert t.results[1..] == rest.results;
      NestedDifference(m.Keys, m1.Keys, t.cache.value.Keys);
    }
  }

  /**
   * Consequence for the purpose of the cache: with a healthy cache, upstream
   * calls are bounded by the number of distinct keys requested plus the
   * number of failed lookups, however often each city is asked for.
   */
  lemma UpstreamCallsBound(codec: Codec, expiryMinutes: Int64, m: Store, reqs: seq<Request>)
    requires Coherent(codec) && Decodable(codec, m) && CacheHealthy(reqs)
    ensures var t := LookupAll(codec, expiryMinutes, Some(m), reqs);
      t.upstreamCalls <= |KeysOf(reqs)| + FailureCount(t.results)
  {
    var t := LookupAll(codec, expiryMinutes, Some(m), reqs);
    UpstreamCallsCount(codec, expiryMinutes, m, reqs);
    var added := t.cache.value.Keys - m.Keys;
    assert added <= KeysOf(reqs);
    SubsetCardinality(added, KeysOf(reqs));
  }

  lemma {:induction false} SubsetCardinality(a: set<string>, b: set<string>)
    requires a <= b
    ensures |a| <= |b|
    decreases |b|
  {
    if b != {} {
      var x :| x in b;
      SubsetCardinality(a - {x}, b - {x});
    }
  }
}
