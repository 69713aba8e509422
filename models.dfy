/**
 * The weather record of internal/weather/models.go and the JSON codec the
 * service uses to read it from the upstream API and to store it in the cache.
 */
module WeatherModels {
  import opened Wrappers

  newtype uint8 = x: int | 0 <= x < 256

  /** A payload as raw bytes: an HTTP body, or a value held by the cache store. */
  type Bytes = seq<uint8>

  /** Go float64 fields are kept as reals: the model never computes with them. */
  type Float64 = real

  datatype Condition = Condition(text: string, icon: string)

  datatype Location = Location(
    name: string,
    region: string,
    country: string,
    lat: Float64,
    lon: Float64,
    localTime: string)

  datatype Current = Current(
    tempC: Float64,
    tempF: Float64,
    condition: Condition,
    windKph: Float64,
    windDir: string,
    humidity: int,
    cloud: int,
    feelsLike: Float64,
    uv: Float64)

  /** The immutable snapshot returned by a lookup. */
  datatype WeatherResponse = WeatherResponse(location: Location, current: Current)

  /**
   * The JSON codec (json.Marshal / json.Unmarshal in the source), given as a
   * pair of total functions. Encoding may fail (json.Marshal rejects NaN and
   * infinite floats); decoding fails on a body that is not a WeatherResponse.
   */
  datatype Codec = Codec(
    encode: WeatherResponse -> Option<Bytes>,
    decode: Bytes -> Option<WeatherResponse>)

  /**
   * What the service relies on when it reads back what it wrote: whatever
   * encodes decodes to the same record, and whatever was decoded can be
   * encoded again (a record decoded from JSON holds no NaN or infinity).
   */
  ghost predicate Coherent(c: Codec)
  {
    && (forall w :: c.encode(w).Some? ==> c.decode(c.encode(w).value) == Some(w))
    && (forall b :: c.decode(b).Some? ==> c.encode(c.decode(b).value).Some?)
  }
}
