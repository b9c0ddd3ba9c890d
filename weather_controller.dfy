/**
 * controllers/weatherController.js: `getCurrentWeather` and `getForecast`.
 * A missing city and a provider 404 are answered; every other failure is
 * handed to `next(error)`.
 */
module WeatherController {
  import opened Wrappers
  import opened Weather

  /** The controller's way of ending a request. */
  function Answer<T>(o: Outcome<T>): (a: Answer<T>)
    ensures a == Respond(400, Error(CityRequiredText)) <==> o.CityRequired?
    ensures a == Respond(404, Error(CityNotFoundText)) <==> o.CityNotFound?
    ensures a.PassOn? <==> o.Failed?
    ensures a.PassOn? ==> a.cause == o.cause
    ensures o.Shaped? <==> a.Respond? && a.status == 200
    ensures o.Shaped? ==> a == Respond(200, Data(o.body))
  {
    match o
    case Shaped(t) => Respond(200, Data(t))
    case CityRequired => Respond(400, Error(CityRequiredText))
    case CityNotFound => Respond(404, Error(CityNotFoundText))
    case Failed(c) => PassOn(c)
  }

  /** `getCurrentWeather`. */
  function GetCurrentWeather(q: Query, apiKey: Option<string>, fetch: string -> Fetched<CurrentPayload>)
    : (a: Answer<Current>)
    ensures a == Respond(400, Error(CityRequiredText)) <==> !CityGiven(q)
    ensures a == Respond(404, Error(CityNotFoundText)) <==>
              CityGiven(q) && fetch(Url("weather", CityText(q), apiKey)) == HttpError(404)
    ensures a.PassOn? ==> CityGiven(q) && fetch(Url("weather", CityText(q), apiKey)) != HttpError(404)
  {
    Answer(CurrentWeather(q, apiKey, fetch))
  }

  /** `getForecast`. */
  function GetForecast(q: Query, apiKey: Option<string>, fetch: string -> Fetched<ForecastPayload>)
    : (a: Answer<Forecast>)
    ensures a == Respond(400, Error(CityRequiredText)) <==> !CityGiven(q)
    ensures a == Respond(404, Error(CityNotFoundText)) <==>
              CityGiven(q) && fetch(Url("forecast", CityText(q), apiKey)) == HttpError(404)
    ensures a.PassOn? ==> CityGiven(q) && fetch(Url("forecast", CityText(q), apiKey)) != HttpError(404)
  {
    Answer(ForecastWeather(q, apiKey, fetch))
  }
}
