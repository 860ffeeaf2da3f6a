/** The serverless HTTP handlers of api/index.ts. Each handler is given the upstream
    answers it would fetch and yields its HTTP response; the weather, news and sports
    logic it repeats inline is the logic of the frontend services. */
module Api {
  import opened Wrappers
  import opened Upstream
  import Js
  import Weather
  import News
  import Sports

  /** The three response shapes the handlers send. */
  datatype Response<+T> =
    | Ok200(body: T)
    | BadRequest400(error: string)
    | ServerError500(error: string, details: string)

  /** The weather handler's own copy of the description table. */
  const ApiDescriptions: map<int, string> := map[
    0 := "Clear sky",
    1 := "Mainly clear",
    2 := "Partly cloudy",
    3 := "Overcast",
    45 := "Foggy",
    48 := "Depositing rime fog",
    51 := "Light drizzle",
    53 := "Moderate drizzle",
    55 := "Dense drizzle",
    61 := "Slight rain",
    63 := "Moderate rain",
    65 := "Heavy rain",
    71 := "Slight snow",
    73 := "Moderate snow",
    75 := "Heavy snow",
    77 := "Snow grains",
    80 := "Slight rain showers",
    81 := "Moderate rain showers",
    82 := "Violent rain showers",
    85 := "Slight snow showers",
    86 := "Heavy snow showers",
    95 := "Thunderstorm",
    96 := "Thunderstorm with slight hail",
    99 := "Thunderstorm with heavy hail"
  ]

  /** The handler's table and the weather service's table are the same. */
  lemma TablesIdentical()
    ensures ApiDescriptions == Weather.Descriptions
  {
  }

  /** `weatherDescriptions[weatherCode] || 'Unknown'` over the handler's table. */
  function ApiDescribe(code: int): (d: string)
    ensures d == Weather.Describe(code)
  {
    TablesIdentical();
    if code in ApiDescriptions && ApiDescriptions[code] != "" then ApiDescriptions[code] else "Unknown"
  }

  /** The weather handler's inline icon chain: `let icon = '01d'` reassigned by the first
      matching band. It computes the same icon as the weather service for every code. */
  method ApiIcon(code: int) returns (icon: string)
    ensures icon == Weather.WeatherIcon(code)
    ensures icon in Weather.IconCodes
  {
    icon := "01d";
    if code == 0 || code == 1 {
      icon := "01d";
    } else if code == 2 {
      icon := "02d";
    } else if code == 3 {
      icon := "03d";
    } else if code == 45 || code == 48 {
      icon := "50d";
    } else if code >= 51 && code <= 55 {
      icon := "09d";
    } else if code >= 61 && code <= 65 {
      icon := "10d";
    } else if code >= 71 && code <= 77 {
      icon := "13d";
    } else if code >= 80 && code <= 82 {
      icon := "09d";
    } else if code >= 85 && code <= 86 {
      icon := "13d";
    } else if code >= 95 {
      icon := "11d";
    }
  }

  const MissingCoordinates: string := "Latitude and longitude are required"
  const WeatherFailed: string := "Failed to fetch weather data"
  const NewsFailed: string := "Failed to fetch news"

  /** `GET /api/weather`. Without both `lat` and `lon` it answers 400 and requests nothing.
      Otherwise it requests the forecast, and the reverse geocoding only when the forecast
      answered ok; any failure is a 500 whose details are the error's message, and success
      is the same reading the weather service builds. */
  method WeatherRoute(lat: Option<string>, lon: Option<string>, forecast: Fetched<Weather.Forecast>, geocode: Result<Weather.Geocode, string>)
    returns (requests: nat, r: Response<Weather.WeatherData>)
    ensures !Js.Truthy(lat) || !Js.Truthy(lon) ==> requests == 0 && r == BadRequest400(MissingCoordinates)
    ensures Js.Truthy(lat) && Js.Truthy(lon) ==>
              && requests == (if forecast.Ok? then 2 else 1)
              && (Weather.GetWeather(forecast, geocode).Success? ==> r == Ok200(Weather.GetWeather(forecast, geocode).value))
              && (Weather.GetWeather(forecast, geocode).Failure? ==> r == ServerError500(WeatherFailed, Weather.GetWeather(forecast, geocode).error))
    ensures r.Ok200? ==> r.body.description != "" && r.body.city != "" && r.body.icon in Weather.IconCodes
  {
    if !Js.Truthy(lat) || !Js.Truthy(lon) {
      return 0, BadRequest400(MissingCoordinates);
    }
    requests := 1;
    if forecast.NotOk? {
      return requests, ServerError500(WeatherFailed, WeatherFailed);
    }
    if forecast.Threw? {
      return requests, ServerError500(WeatherFailed, forecast.message);
    }
    var data := forecast.payload.current;
    var description := ApiDescribe(data.weatherCode);
    var icon := ApiIcon(data.weatherCode);
    requests := 2;
    if geocode.Failure? {
      return requests, ServerError500(WeatherFailed, geocode.error);
    }
    var city := Weather.City(geocode.value.address);
    if forecast.payload.daily.None? {
      return requests, ServerError500(WeatherFailed, Weather.DailyMissing);
    }
    var result := Weather.WeatherData(
      Js.Round(data.temperature),
      Js.Round(data.apparentTemperature),
      description,
      data.relativeHumidity,
      Weather.OrZero(data.precipitation),
      Weather.OrZero(data.precipitationProbability),
      Js.Round(data.windSpeed),
      data.windDirection,
      data.cloudCover,
      data.uvIndex,
      Weather.First(forecast.payload.daily.value.sunrise),
      Weather.First(forecast.payload.daily.value.sunset),
      city,
      icon);
    r := Ok200(result);
  }

  /** `GET /api/news`: the news pipeline; a failure is a 500 whose details are the error's message. */
  function NewsRoute(ids: Fetched<seq<int>>, fetchItem: int -> Result<Option<News.Story>, string>): (r: Response<seq<News.Article>>)
    ensures ids.NotOk? ==> r == ServerError500(NewsFailed, NewsFailed)
    ensures !r.BadRequest400?
    ensures r.Ok200? <==> News.GetNews(ids, fetchItem).Success?
    ensures r.Ok200? ==> r.body == News.GetNews(ids, fetchItem).value
    ensures r.Ok200? ==> |r.body| <= News.StoryLimit
    ensures r.Ok200? ==> forall i :: 0 <= i < |r.body| ==> r.body[i].title != "" && r.body[i].sourceName == News.SourceName
  {
    match News.GetNews(ids, fetchItem)
    case Success(articles) => Ok200(articles)
    case Failure(message) => ServerError500(NewsFailed, message)
  }

  /** `GET /api/sports`: every team's failure is caught inside its own row, so the route
      always answers 200 with four rows in team order. */
  method SportsRoute(outcomes: seq<Fetched<Sports.Scoreboard>>, now: string) returns (r: Response<seq<Sports.Game>>)
    requires |outcomes| == |Sports.Teams|
    ensures r.Ok200? && |r.body| == 4
    ensures forall i :: 0 <= i < 4 ==> r.body[i] == Sports.TeamRow(Sports.Teams[i], outcomes[i], now)
  {
    var rows := Sports.GetSportsScores(outcomes, now);
    r := Ok200(rows);
  }
}
