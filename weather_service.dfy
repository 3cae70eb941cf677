/**
 * The weather gateway without its HTTP plumbing: the reshaping of the provider's
 * current-weather and forecast payloads into the view the front end shows, the
 * location suggestions, the query-length guard and the mapping of upstream errors.
 * Upstream responses are parameters.
 */
module WeatherService {
  import opened Wrappers
  import JsString

  // ---------------------------------------------------------------------------
  // upstream payloads (the fields the service reads)

  datatype Condition = Condition(description: string, icon: string)
  datatype MainBlock = MainBlock(temp: real, humidity: real, pressure: real)
  datatype Wind = Wind(speed: real, deg: real)
  /** `clouds` and `clouds.all` may both be missing from a payload. */
  datatype Clouds = Clouds(all: Option<real>)
  datatype Sys = Sys(country: string)

  /** The current-weather payload: `dt` is in seconds, `visibility` in metres. */
  datatype CurrentPayload = CurrentPayload(
    dt: int,
    main: MainBlock,
    weather: seq<Condition>,
    wind: Wind,
    visibility: real,
    clouds: Option<Clouds>,
    name: string,
    sys: Sys)

  /** The forecast payload; its entries are handed on untouched, whatever they hold. */
  datatype ForecastPayload<T> = ForecastPayload(list: seq<T>)

  /** A geocoding result; `state` is missing for many places. */
  datatype GeoItem = GeoItem(name: string, country: string, state: Option<string>, lat: real, lon: real)

  /** How an upstream call failed: an HTTP answer (`error.response`) or anything else. */
  datatype UpstreamError =
    | HttpError(status: int, message: Option<string>)
    | OtherError(cause: string)

  // ---------------------------------------------------------------------------
  // what the service answers

  datatype CurrentView = CurrentView(
    date: int,            // epoch milliseconds
    temp: int,
    description: string,
    weatherIcon: string,
    humidity: real,
    windSpeed: real,
    windDeg: real,
    visibility: int,      // kilometres
    pressure: real,
    cloudCover: real)

  datatype WeatherView<T> = WeatherView(location: string, current: CurrentView, forecast: seq<T>)

  datatype Suggestion = Suggestion(
    name: string, country: string, state: Option<string>, lat: real, lon: real, displayName: string)

  /** What a request ends in: a value, an `HttpException`, the original error rethrown, or a 500. */
  datatype Outcome<T> =
    | Ok(value: T)
    | HttpException(status: int, message: string)
    | Rethrown(error: UpstreamError)
    | InternalServerError

  const BadRequest: int := 400

  // ---------------------------------------------------------------------------
  // formatWeatherData

  /** JavaScript `Math.round`: the nearest integer, halves rounded up. */
  function JsRound(x: real): (r: int)
    ensures x - 0.5 < r as real <= x + 0.5
  {
    (x + 0.5).Floor
  }

  /** The two inequalities of `JsRound` pin its result down: no other integer satisfies them. */
  lemma JsRoundUnique(x: real, n: int)
    requires x - 0.5 < n as real <= x + 0.5
    ensures n == JsRound(x)
  {
  }

  /** `clouds?.all || 0`: a missing block, a missing value and 0 all give 0. */
  function CloudCover(clouds: Option<Clouds>): (c: real)
    ensures clouds.Some? && clouds.value.all.Some? ==> c == clouds.value.all.value
    ensures clouds.None? || clouds.value.all.None? ==> c == 0.0
  {
    if clouds.Some? && clouds.value.all.Some? && clouds.value.all.value != 0.0 then clouds.value.all.value
    else 0.0
  }

  /**
   * `formatWeatherData`. Reading `weather[0]` of an empty list throws a TypeError,
   * which nothing catches on the way out: the request ends in a 500.
   */
  function FormatWeatherData<T>(w: CurrentPayload, f: ForecastPayload<T>): (r: Outcome<WeatherView<T>>)
    ensures r.Ok? <==> |w.weather| > 0
    ensures !r.Ok? ==> r == InternalServerError
    ensures r.Ok? ==> r.value.location == w.name + ", " + w.sys.country
    ensures r.Ok? ==> r.value.forecast == f.list
    ensures r.Ok? ==> var c := r.value.current;
      && c.date == w.dt * 1000
      && w.main.temp - 0.5 < c.temp as real <= w.main.temp + 0.5
      && w.visibility / 1000.0 - 0.5 < c.visibility as real <= w.visibility / 1000.0 + 0.5
      && c.description == w.weather[0].description && c.weatherIcon == w.weather[0].icon
      && c.humidity == w.main.humidity && c.pressure == w.main.pressure
      && c.windSpeed == w.wind.speed && c.windDeg == w.wind.deg
      && c.cloudCover == CloudCover(w.clouds)
  {
    if |w.weather| == 0 then InternalServerError
    else
      var current := CurrentView(
        w.dt * 1000,
        JsRound(w.main.temp),
        w.weather[0].description,
        w.weather[0].icon,
        w.main.humidity,
        w.wind.speed,
        w.wind.deg,
        JsRound(w.visibility / 1000.0),
        w.main.pressure,
        CloudCover(w.clouds));
      Ok(WeatherView(w.name + ", " + w.sys.country, current, f.list))
  }

  /** A payload with `main.temp` 21.7, `visibility` 8000 and no `clouds` gives 22 °C, 8 km and 0 %. */
  lemma SampleNormalisation<T>(w: CurrentPayload, f: ForecastPayload<T>)
    requires |w.weather| > 0 && w.main.temp == 21.7 && w.visibility == 8000.0 && w.clouds.None?
    ensures FormatWeatherData(w, f).Ok?
    ensures FormatWeatherData(w, f).value.current.temp == 22
    ensures FormatWeatherData(w, f).value.current.visibility == 8
    ensures FormatWeatherData(w, f).value.current.cloudCover == 0.0
  {
    JsRoundUnique(21.7, 22);
    JsRoundUnique(8.0, 8);
  }

  // ---------------------------------------------------------------------------
  // upstream errors

  /**
   * The `catchError` handler: an HTTP failure becomes an `HttpException` carrying the
   * provider's message and status, with `fallback` and 400 standing in for a missing
   * (or empty, or zero) one; any other error is rethrown as it is.
   */
  function MapUpstreamError<T>(e: UpstreamError, fallback: string): (r: Outcome<T>)
    ensures e.OtherError? <==> r == Rethrown(e)
    ensures e.HttpError? ==> r.HttpException?
    ensures e.HttpError? ==> r.status == (if e.status != 0 then e.status else BadRequest)
    ensures e.HttpError? ==>
      r.message == (if e.message.Some? && e.message.value != "" then e.message.value else fallback)
  {
    match e
    case HttpError(status, message) =>
      HttpException(
        if status != 0 then status else BadRequest,
        if message.Some? && message.value != "" then message.value else fallback)
    case OtherError(_) => Rethrown(e)
  }

  const WeatherFailure: string := "Failed to fetch weather data"
  const SuggestionsFailure: string := "Failed to fetch location suggestions"

  /**
   * `getWeatherByLocation` / `getWeatherByCoords` as written: the first call's failure goes
   * through `catchError`; the forecast call runs inside the async `map` callback, so its
   * failure rejects the emitted promise behind `catchError`'s back and the request ends
   * in a 500.
   */
  function GetWeatherAsWritten<T>(
    current: Result<CurrentPayload, UpstreamError>,
    forecast: Result<ForecastPayload<T>, UpstreamError>): (r: Outcome<WeatherView<T>>)
    ensures current.Failure? ==> r == MapUpstreamError(current.error, WeatherFailure)
    ensures current.Success? && forecast.Failure? ==> r == InternalServerError
    ensures current.Success? && forecast.Success? ==> r == FormatWeatherData(current.value, forecast.value)
  {
    match current
    case Failure(e) => MapUpstreamError(e, WeatherFailure)
    case Success(w) =>
      match forecast
      case Failure(_) => InternalServerError
      case Success(f) => FormatWeatherData(w, f)
  }

  /** The same two calls with the forecast call's failure mapped like the first call's. */
  function GetWeather<T>(
    current: Result<CurrentPayload, UpstreamError>,
    forecast: Result<ForecastPayload<T>, UpstreamError>): (r: Outcome<WeatherView<T>>)
    ensures current.Failure? ==> r == MapUpstreamError(current.error, WeatherFailure)
    ensures current.Success? && forecast.Failure? ==> r == MapUpstreamError(forecast.error, WeatherFailure)
    ensures current.Success? && forecast.Success? ==> r == FormatWeatherData(current.value, forecast.value)
  {
    match current
    case Failure(e) => MapUpstreamError(e, WeatherFailure)
    case Success(w) =>
      match forecast
      case Failure(e) => MapUpstreamError(e, WeatherFailure)
      case Success(f) => FormatWeatherData(w, f)
  }

  /**
   * The two versions agree except when the current-weather call succeeds and the
   * forecast call fails; for an HTTP failure the provider's status and message are then lost.
   * For any other failure the two differ only as `InternalServerError` against `Rethrown`,
   * which the framework answers alike with a 500, so the difference a client sees is
   * limited to HTTP failures of the forecast call.
   */
  lemma ForecastFailureLosesStatus<T>(
    current: Result<CurrentPayload, UpstreamError>,
    forecast: Result<ForecastPayload<T>, UpstreamError>)
    ensures GetWeatherAsWritten(current, forecast) != GetWeather(current, forecast) <==>
      current.Success? && forecast.Failure?
  {
  }

  /** Example: the forecast endpoint answers 404 "city not found". */
  lemma ForecastNotFoundExample(w: CurrentPayload)
    ensures GetWeatherAsWritten<int>(Success(w), Failure(HttpError(404, Some("city not found"))))
      == InternalServerError
    ensures GetWeather<int>(Success(w), Failure(HttpError(404, Some("city not found"))))
      == HttpException(404, "city not found")
  {
  }

  // ---------------------------------------------------------------------------
  // location suggestions

  /** The geocoding request: the query and the `limit` parameter. */
  datatype GeoRequest = GeoRequest(q: string, limit: nat)

  /**
   * The guard in front of the geocoding call: a missing query or one whose `length` is
   * below two UTF-16 code units is refused with 400 "Query too short" and no request is made.
   */
  function SuggestionRequest(query: Option<string>): (r: Result<GeoRequest, Outcome<seq<Suggestion>>>)
    ensures r.Failure? <==> query.None? || JsString.Utf16Length(query.value) < 2
    ensures r.Failure? ==> r.error == HttpException(BadRequest, "Query too short")
    ensures r.Success? ==> r.value == GeoRequest(query.value, 5)
  {
    if query.None? || JsString.Utf16Length(query.value) < 2 then Failure(HttpException(BadRequest, "Query too short"))
    else Success(GeoRequest(query.value, 5))
  }

  /** "name, state, country" when `state` is a non-empty string, else "name, country". */
  function DisplayName(item: GeoItem): (s: string)
    ensures item.state.Some? && item.state.value != "" ==>
      s == item.name + ", " + item.state.value + ", " + item.country
    ensures item.state.None? || item.state.value == "" ==> s == item.name + ", " + item.country
  {
    if item.state.Some? && item.state.value != "" then item.name + ", " + item.state.value + ", " + item.country
    else item.name + ", " + item.country
  }

  /**
   * One suggestion: the provider's fields copied, and a display name that starts with
   * the place name and ends with the country.
   */
  function ToSuggestion(item: GeoItem): (s: Suggestion)
    ensures s.name == item.name && s.country == item.country && s.state == item.state
    ensures s.lat == item.lat && s.lon == item.lon
    ensures item.name + ", " <= s.displayName
    ensures |s.displayName| >= |item.country| + 2
    ensures s.displayName[|s.displayName| - |item.country| - 2..] == ", " + item.country
  {
    Suggestion(item.name, item.country, item.state, item.lat, item.lon, DisplayName(item))
  }

  /**
   * `getLocationSuggestions`: one suggestion per geocoding result, in the provider's order
   * and as many as it sent (the cap of five is only asked of the provider).
   */
  function GetLocationSuggestions(query: Option<string>, upstream: Result<seq<GeoItem>, UpstreamError>)
    : (r: Outcome<seq<Suggestion>>)
    ensures query.None? || JsString.Utf16Length(query.value) < 2 ==> r == HttpException(BadRequest, "Query too short")
    ensures query.Some? && JsString.Utf16Length(query.value) >= 2 && upstream.Failure? ==>
      r == MapUpstreamError(upstream.error, SuggestionsFailure)
    ensures query.Some? && JsString.Utf16Length(query.value) >= 2 && upstream.Success? ==>
      && r.Ok? && |r.value| == |upstream.value|
      && forall i :: 0 <= i < |upstream.value| ==>
        var item, s := upstream.value[i], r.value[i];
        && s.name == item.name && s.country == item.country && s.state == item.state
        && s.lat == item.lat && s.lon == item.lon && s.displayName == DisplayName(item)
  {
    match SuggestionRequest(query)
    case Failure(refusal) => refusal
    case Success(_) =>
      match upstream
      case Failure(e) => MapUpstreamError(e, SuggestionsFailure)
      case Success(items) => Ok(seq(|items|, i requires 0 <= i < |items| => ToSuggestion(items[i])))
  }

  /**
   * A single character outside the Basic Multilingual Plane is two code units long,
   * so it passes the guard and is sent to the provider.
   */
  lemma AstralQueryPassesGuard()
    ensures JsString.Utf16Length("\U{1F600}") == 2
    ensures SuggestionRequest(Some("\U{1F600}")) == Success(GeoRequest("\U{1F600}", 5))
  {
  }

  /** A refused query never depends on what the provider would have answered. */
  lemma ShortQueryNeverReachesUpstream(
    query: Option<string>, a: Result<seq<GeoItem>, UpstreamError>, b: Result<seq<GeoItem>, UpstreamError>)
    requires query.None? || JsString.Utf16Length(query.value) < 2
    ensures GetLocationSuggestions(query, a) == GetLocationSuggestions(query, b)
  {
  }
}
