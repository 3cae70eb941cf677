/**
 * The home page: the search handler, the weather data it shows, and the
 * "Generate Report" action that turns the shown data into a new report.
 * The clock (`Date.now()`) and the results of the network calls are parameters.
 */
module HomePage {
  import opened Wrappers
  import CreateReportDto
  import JsString

  /** The weather data as the front end types it; `pressure` and `cloudCover` are optional. */
  datatype CurrentWeatherData = CurrentWeatherData(
    date: int,
    temp: real,
    description: string,
    weatherIcon: string,
    humidity: real,
    windSpeed: real,
    windDeg: real,
    visibility: real,
    pressure: Option<real>,
    cloudCover: Option<real>)

  datatype WeatherData = WeatherData(location: string, current: CurrentWeatherData)

  /** `x || 0` on an optional number: missing and 0 both give 0. */
  function OrZero(x: Option<real>): (r: real)
    ensures x.Some? ==> r == x.value
    ensures x.None? ==> r == 0.0
  {
    if x.Some? && x.value != 0.0 then x.value else 0.0
  }

  /** The report `saveWeatherReport` builds from the shown data at time `now` (epoch ms). */
  function ReportFromView(data: WeatherData, now: int): (r: CreateReportDto.ReportFields)
    ensures r.location == data.location && r.timestamp == now as real
    ensures r.temperature == data.current.temp && r.humidity == data.current.humidity
    ensures r.description == data.current.description && r.icon == data.current.weatherIcon
    ensures r.pressure == OrZero(data.current.pressure) && r.cloudCover == OrZero(data.current.cloudCover)
  {
    CreateReportDto.ReportFields(
      data.location,
      now as real,
      data.current.temp,
      OrZero(data.current.pressure),
      data.current.humidity,
      OrZero(data.current.cloudCover),
      data.current.description,
      data.current.weatherIcon)
  }

  /**
   * The report the page sends is accepted by the back end's validation exactly when
   * the location, description and icon it copies are non-empty, and it is stored as sent.
   */
  lemma SavedReportPassesValidation(data: WeatherData, now: int)
    ensures CreateReportDto.Validate(CreateReportDto.ToBody(ReportFromView(data, now))).Success? <==>
      data.location != "" && data.current.description != "" && data.current.weatherIcon != ""
    ensures CreateReportDto.Validate(CreateReportDto.ToBody(ReportFromView(data, now))).Success? ==>
      CreateReportDto.Validate(CreateReportDto.ToBody(ReportFromView(data, now))).value == ReportFromView(data, now)
  {
    CreateReportDto.ValidateToBody(ReportFromView(data, now));
  }

  datatype ToastKind = ErrorToast | SuccessToast
  datatype Toast = Toast(kind: ToastKind, message: string)

  /** What a search starts: a lookup by name, or the browser's geolocation. */
  datatype SearchAction = Geolocate | FetchByName(location: string)

  class Home {
    var weatherData: Option<WeatherData>
    var loading: bool
    var geoLoading: bool
    var reportGenerated: bool
    /** The reports handed to `createReport`, oldest first. */
    var sentReports: seq<CreateReportDto.ReportFields>
    /** The notifications shown, oldest first. */
    var toasts: seq<Toast>

    constructor ()
      ensures weatherData == None && !loading && !geoLoading && !reportGenerated
      ensures sentReports == [] && toasts == []
    {
      weatherData, loading, geoLoading, reportGenerated := None, false, false, false;
      sentReports, toasts := [], [];
    }

    /**
     * `setWeatherData` together with the effect on `[weatherData]`: every new data object
     * (anything but `null` replacing `null`) clears the "report generated" mark.
     */
    method SetWeatherData(data: Option<WeatherData>)
      modifies this
      ensures weatherData == data
      ensures reportGenerated <==> old(reportGenerated) && data.None? && old(weatherData).None?
      ensures loading == old(loading) && geoLoading == old(geoLoading)
      ensures sentReports == old(sentReports) && toasts == old(toasts)
    {
      if !(data.None? && weatherData.None?) {
        reportGenerated := false;
      }
      weatherData := data;
    }

    /**
     * `handleSearch`: a blank or white-space-only entry asks for the current position
     * instead; any other entry is looked up by name, and a failed lookup shows no data.
     * `fetched` is what the lookup returned (`None` when it failed).
     */
    method HandleSearch(location: string, fetched: Option<WeatherData>) returns (action: SearchAction)
      modifies this
      ensures action == Geolocate <==> JsString.IsBlank(location)
      ensures action == Geolocate ==>
        geoLoading && weatherData == old(weatherData) && reportGenerated == old(reportGenerated)
        && loading == old(loading) && sentReports == old(sentReports) && toasts == old(toasts)
      ensures action != Geolocate ==>
        action == FetchByName(location) && weatherData == fetched && !loading
        && (reportGenerated <==> old(reportGenerated) && fetched.None? && old(weatherData).None?)
        && geoLoading == old(geoLoading)
        && sentReports == old(sentReports) && toasts == old(toasts)
    {
      JsString.TrimEmptyIffBlank(location);
      if JsString.Trim(location) == "" {
        geoLoading := true;
        return Geolocate;
      }
      loading := true;
      SetWeatherData(fetched);
      loading := false;
      action := FetchByName(location);
    }

    /**
     * `saveWeatherReport`, as the "Generate Report" button calls it with the shown data:
     * without data it only shows an error; otherwise it sends the report built from the
     * data at time `now` and marks the report as generated.
     */
    method SaveWeatherReport(now: int)
      modifies this
      ensures old(weatherData).None? ==>
        && toasts == old(toasts) + [Toast(ErrorToast, "Please search for a location first to generate a report.")]
        && sentReports == old(sentReports) && reportGenerated == old(reportGenerated)
      ensures old(weatherData).Some? ==>
        && sentReports == old(sentReports) + [ReportFromView(old(weatherData).value, now)]
        && reportGenerated
        && toasts == old(toasts) + [Toast(SuccessToast, "Report Generated")]
      ensures weatherData == old(weatherData) && loading == old(loading) && geoLoading == old(geoLoading)
    {
      if weatherData.None? {
        toasts := toasts + [Toast(ErrorToast, "Please search for a location first to generate a report.")];
        return;
      }
      var report := ReportFromView(weatherData.value, now);
      reportGenerated := true;
      toasts := toasts + [Toast(SuccessToast, "Report Generated")];
      sentReports := sentReports + [report];
    }
  }
}
