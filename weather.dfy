/** The weather normaliser of frontend/src/services/weatherService.ts: the
    weather-code tables (WMO interpretation codes as Open-Meteo reports them),
    the place-name fallback of the reverse-geocoding answer, and the reading
    built from the two upstream bodies. */
module Weather {
  import opened Wrappers
  import opened Upstream
  import Js

  /** `weatherDescriptions`: description of each known weather code. */
  const Descriptions: map<int, string> := map[
    0 := "Clear sky",
    1 := "Mainly clear",
    2 := "Partly cloudy",
    3 := "Overcast",
    45 := "Foggy",
    48 := "Depositing rime fog",
    51 := "Light drizzle",
    53 := "Moderate drizzle",
    55 := "Dense drizzle",
    61 := "Slight rain",
    63 := "Moderate rain",
    65 := "Heavy rain",
    71 := "Slight snow",
    73 := "Moderate snow",
    75 := "Heavy snow",
    77 := "Snow grains",
    80 := "Slight rain showers",
    81 := "Moderate rain showers",
    82 := "Violent rain showers",
    85 := "Slight snow showers",
    86 := "Heavy snow showers",
    95 := "Thunderstorm",
    96 := "Thunderstorm with slight hail",
    99 := "Thunderstorm with heavy hail"
  ]

  /** The eight icon codes the icon chain can produce. */
  const IconCodes: set<string> := {"01d", "02d", "03d", "50d", "09d", "10d", "13d", "11d"}

  /** `weatherDescriptions[code] || 'Unknown'`. */
  function Describe(code: int): (r: string)
    ensures code in Descriptions ==> r == Descriptions[code]
    ensures code !in Descriptions ==> r == "Unknown"
    ensures r != ""
  {
    if code in Descriptions && Descriptions[code] != "" then Descriptions[code] else "Unknown"
  }

  /** `getWeatherIcon`: the first band of the chain that contains the code decides the icon.
      The contract gives each icon's set of codes, so the bands are disjoint and cover every integer. */
  function WeatherIcon(code: int): (icon: string)
    ensures icon in IconCodes
    ensures icon == "02d" <==> code == 2
    ensures icon == "03d" <==> code == 3
    ensures icon == "50d" <==> code == 45 || code == 48
    ensures icon == "09d" <==> 51 <= code <= 55 || 80 <= code <= 82
    ensures icon == "10d" <==> 61 <= code <= 65
    ensures icon == "13d" <==> 71 <= code <= 77 || 85 <= code <= 86
    ensures icon == "11d" <==> code >= 95
    ensures icon == "01d" <==> code <= 1 || 4 <= code <= 44 || 46 <= code <= 47 || 49 <= code <= 50
                               || 56 <= code <= 60 || 66 <= code <= 70 || 78 <= code <= 79
                               || 83 <= code <= 84 || 87 <= code <= 94
  {
    if code == 0 || code == 1 then "01d"
    else if code == 2 then "02d"
    else if code == 3 then "03d"
    else if code == 45 || code == 48 then "50d"
    else if code >= 51 && code <= 55 then "09d"
    else if code >= 61 && code <= 65 then "10d"
    else if code >= 71 && code <= 77 then "13d"
    else if code >= 80 && code <= 82 then "09d"
    else if code >= 85 && code <= 86 then "13d"
    else if code >= 95 then "11d"
    else "01d"
  }

  /** The band edges: 51 and 55 are drizzle, 56 falls through; 77 is snow, 78 falls through. */
  lemma IconBoundaries()
    ensures WeatherIcon(51) == "09d" && WeatherIcon(55) == "09d" && WeatherIcon(56) == "01d"
    ensures WeatherIcon(77) == "13d" && WeatherIcon(78) == "01d"
    ensures forall code :: code >= 95 ==> WeatherIcon(code) == "11d"
  {
  }

  /** The two tables are not aligned: codes 52 and 54 have a drizzle icon but no description. */
  lemma TablesDisagree()
    ensures Describe(52) == "Unknown" && WeatherIcon(52) == "09d"
    ensures Describe(54) == "Unknown" && WeatherIcon(54) == "09d"
  {
  }

  // ---------------------------------------------------------------------
  // Upstream bodies and the normalised reading

  /** `data.current` of the forecast body. */
  datatype Current = Current(
    temperature: real,
    apparentTemperature: real,
    relativeHumidity: real,
    precipitation: Option<real>,
    precipitationProbability: Option<real>,
    windSpeed: real,
    windDirection: real,
    cloudCover: real,
    uvIndex: real,
    weatherCode: int)

  /** `data.daily`: the sunrise and sunset arrays of the single forecast day. */
  datatype Daily = Daily(sunrise: seq<string>, sunset: seq<string>)

  /** The forecast body; `daily` may be missing, and is read only after the geocoding request. */
  datatype Forecast = Forecast(current: Current, daily: Option<Daily>)

  /** The message of the `TypeError` thrown by `data.daily.sunrise` when `daily` is missing. */
  const DailyMissing: string := "Cannot read properties of undefined (reading 'sunrise')"

  /** `geocodeData.address` of the reverse-geocoding body. */
  datatype Address = Address(city: Option<string>, town: Option<string>, village: Option<string>, county: Option<string>)

  datatype Geocode = Geocode(address: Option<Address>)

  /** `WeatherData`; `sunrise`/`sunset` are absent when the daily arrays are empty. */
  datatype WeatherData = WeatherData(
    temperature: int,
    feelsLike: int,
    description: string,
    humidity: real,
    precipitation: real,
    precipitationProbability: real,
    windSpeed: int,
    windDirection: real,
    cloudCover: real,
    uvIndex: real,
    sunrise: Option<string>,
    sunset: Option<string>,
    city: string,
    icon: string)

  /** `x || 0` for an optional JSON number: absent and zero both give 0. */
  function OrZero(x: Option<real>): (r: real)
    ensures x.None? ==> r == 0.0
    ensures x.Some? ==> r == x.value
  {
    if x.Some? && x.value != 0.0 then x.value else 0.0
  }

  /** `a[0]` of a JSON array: absent for an empty array. */
  function First(a: seq<string>): (r: Option<string>)
    ensures r.Some? <==> |a| > 0
    ensures |a| > 0 ==> r.value == a[0]
  {
    if |a| > 0 then Some(a[0]) else None
  }

  /** `address?.city || address?.town || address?.village || address?.county || 'Unknown location'`. */
  function City(address: Option<Address>): (r: string)
    ensures address.None? ==> r == "Unknown location"
    ensures address.Some? ==> (
      var a := address.value;
      && (Js.Truthy(a.city) ==> r == a.city.value)
      && (!Js.Truthy(a.city) && Js.Truthy(a.town) ==> r == a.town.value)
      && (!Js.Truthy(a.city) && !Js.Truthy(a.town) && Js.Truthy(a.village) ==> r == a.village.value)
      && (!Js.Truthy(a.city) && !Js.Truthy(a.town) && !Js.Truthy(a.village) && Js.Truthy(a.county) ==> r == a.county.value)
      && (!Js.Truthy(a.city) && !Js.Truthy(a.town) && !Js.Truthy(a.village) && !Js.Truthy(a.county) ==> r == "Unknown location"))
    ensures r != ""
  {
    match address
    case None => "Unknown location"
    case Some(a) =>
      var options := [a.city, a.town, a.village, a.county];
      var r := Js.FirstTruthy(options, "Unknown location");
      assert options[0] == a.city && options[1] == a.town && options[2] == a.village && options[3] == a.county;
      r
  }

  /** The reading built from the forecast and reverse-geocoding bodies. Whatever the code,
      the description and icon are populated; rounded fields are within one half of the input. */
  function Normalize(forecast: Forecast, geocode: Geocode): (w: WeatherData)
    requires forecast.daily.Some?
    ensures w.description == Describe(forecast.current.weatherCode) && w.description != ""
    ensures w.icon == WeatherIcon(forecast.current.weatherCode) && w.icon in IconCodes
    ensures w.city == City(geocode.address) && w.city != ""
    ensures -0.5 <= forecast.current.temperature - w.temperature as real < 0.5
    ensures -0.5 <= forecast.current.apparentTemperature - w.feelsLike as real < 0.5
    ensures -0.5 <= forecast.current.windSpeed - w.windSpeed as real < 0.5
    ensures w.precipitation == OrZero(forecast.current.precipitation)
    ensures w.precipitationProbability == OrZero(forecast.current.precipitationProbability)
    ensures w.sunrise == First(forecast.daily.value.sunrise) && w.sunset == First(forecast.daily.value.sunset)
    ensures w.humidity == forecast.current.relativeHumidity && w.windDirection == forecast.current.windDirection
    ensures w.cloudCover == forecast.current.cloudCover && w.uvIndex == forecast.current.uvIndex
  {
    var c := forecast.current;
    WeatherData(
      Js.Round(c.temperature),
      Js.Round(c.apparentTemperature),
      Describe(c.weatherCode),
      c.relativeHumidity,
      OrZero(c.precipitation),
      OrZero(c.precipitationProbability),
      Js.Round(c.windSpeed),
      c.windDirection,
      c.cloudCover,
      c.uvIndex,
      First(forecast.daily.value.sunrise),
      First(forecast.daily.value.sunset),
      City(geocode.address),
      WeatherIcon(c.weatherCode))
  }

  /** `getWeather`: a non-ok forecast response throws 'Failed to fetch weather data'; a rejected
      fetch or an undecodable body (forecast or geocode) throws its own error; a forecast without
      `daily` throws once the geocoding has answered; otherwise the reading. */
  function GetWeather(forecast: Fetched<Forecast>, geocode: Result<Geocode, string>): (r: Result<WeatherData, string>)
    ensures forecast.NotOk? ==> r == Failure("Failed to fetch weather data")
    ensures forecast.Threw? ==> r == Failure(forecast.message)
    ensures forecast.Ok? && geocode.Failure? ==> r == Failure(geocode.error)
    ensures forecast.Ok? && geocode.Success? && forecast.payload.daily.None? ==> r == Failure(DailyMissing)
    ensures r.Success? <==> forecast.Ok? && geocode.Success? && forecast.payload.daily.Some?
    ensures r.Success? ==> r.value == Normalize(forecast.payload, geocode.value)
  {
    match forecast
    case NotOk => Failure("Failed to fetch weather data")
    case Threw(message) => Failure(message)
    case Ok(body) =>
      match geocode
      case Failure(message) => Failure(message)
      case Success(place) =>
        if body.daily.None? then Failure(DailyMissing) else Success(Normalize(body, place))
  }
}
