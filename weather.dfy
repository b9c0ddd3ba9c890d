/**
 * The weather endpoints once the HTTP fetch is taken as an input: the `city`
 * query check, the provider URL built by string interpolation, the
 * classification of provider failures, and the projection of the provider's
 * payload into the app's response shape (controllers/weatherController.js and
 * server.js:252-314, which repeat each other apart from how a failure is
 * answered).
 *
 * Provider values (temperatures, names, icons) are only copied, so they stay
 * `JsValue`s. Reading a property of a missing nested object throws a
 * TypeError in JavaScript; the payload types therefore make every nested
 * object optional and the shaping functions return `None` for such a payload.
 */
module Weather {
  import opened Wrappers
  import opened Js

  // ---- The query and the URL -----------------------------------------------------------

  /** `req.query.city` as Express's query parser produces it: absent, one string, a list
      of strings for a repeated key, or a nested object for a bracketed key. */
  datatype Query = Absent | Text(s: string) | List(items: seq<string>) | Nested

  /** `if (!city)`: absent and empty text are falsy; lists and objects are always truthy. */
  predicate CityGiven(q: Query)
  {
    match q
    case Absent => false
    case Text(s) => s != ""
    case List(_) => true
    case Nested => true
  }

  /** `items.join(',')`, which is what interpolating an array produces. */
  function Join(items: seq<string>): (r: string)
    ensures items == [] ==> r == ""
    ensures |items| == 1 ==> r == items[0]
    ensures |items| >= 1 ==> r == Join(items[..|items| - 1]) + (if |items| == 1 then "" else ",") + items[|items| - 1]
  {
    if items == [] then ""
    else if |items| == 1 then items[0]
    else Join(items[..|items| - 1]) + "," + items[|items| - 1]
  }

  /** The text `${city}` interpolates into the URL. */
  function CityText(q: Query): string
  {
    match q
    case Absent => "undefined"
    case Text(s) => s
    case List(items) => Join(items)
    case Nested => "[object Object]"
  }

  const ApiBase := "https://api.openweathermap.org/data/2.5/"
  const UnitsParam := "&units=metric"

  /** `${apiKey}` for `process.env.WEATHER_API_KEY`, which is `undefined` when unset. */
  function KeyText(apiKey: Option<string>): string
  {
    match apiKey
    case None => "undefined"
    case Some(k) => k
  }

  /** The part of the URL before the city. */
  function Head(endpoint: string): string
  {
    ApiBase + endpoint + "?q="
  }

  /** The part of the URL after the city. */
  function Tail(apiKey: Option<string>): (t: string)
    ensures |t| > |UnitsParam| && t[0] == '&'
    ensures t[|t| - |UnitsParam|..] == UnitsParam
  {
    "&appid=" + KeyText(apiKey) + UnitsParam
  }

  /** The provider URL: the fixed prefix, the city as given (no percent-encoding), the key
      and the metric units parameter. */
  function Url(endpoint: string, city: string, apiKey: Option<string>): string
  {
    Head(endpoint) + (city + Tail(apiKey))
  }

  /** The URL reads back as the prefix, then the city unchanged, then the key part, and
      it ends with the metric units parameter. */
  lemma UrlParts(endpoint: string, city: string, apiKey: Option<string>)
    ensures var u := Url(endpoint, city, apiKey);
      && |u| == |Head(endpoint)| + |city| + |Tail(apiKey)|
      && u[..|Head(endpoint)|] == Head(endpoint)
      && u[|Head(endpoint)|..] == city + Tail(apiKey)
      && u[|u| - |UnitsParam|..] == UnitsParam
  {
    var h, t := Head(endpoint), Tail(apiKey);
    ThreeParts(h, city, t, |UnitsParam|);
  }

  /** Slicing a three-part concatenation back into its parts. */
  lemma ThreeParts(h: string, c: string, t: string, n: nat)
    requires n <= |t|
    ensures |h + (c + t)| == |h| + |c| + |t|
    ensures (h + (c + t))[..|h|] == h
    ensures (h + (c + t))[|h|..] == c + t
    ensures (h + (c + t))[|h + (c + t)| - n..] == t[|t| - n..]
  {
  }

  /** The text before the first `c`, or all of `s`. */
  function UpTo(s: string, c: char): (r: string)
    ensures r <= s && c !in r
    ensures |r| < |s| ==> s[|r|] == c
  {
    if s == [] || s[0] == c then [] else [s[0]] + UpTo(s[1..], c)
  }

  lemma {:induction false} UpToConcat(a: string, b: string, c: char)
    requires c !in a && b != [] && b[0] == c
    ensures UpTo(a + b, c) == a
  {
    if a != [] {
      assert (a + b)[1..] == a[1..] + b;
      UpToConcat(a[1..], b, c);
    }
  }

  /** The `q` parameter reads back as the city exactly when the city holds no `&`: a city
      containing `&` spills into further query parameters. */
  lemma UrlCarriesCity(endpoint: string, city: string, apiKey: Option<string>)
    requires '&' !in city
    ensures var u := Url(endpoint, city, apiKey);
            UpTo(u[|Head(endpoint)|..], '&') == city
  {
    UrlParts(endpoint, city, apiKey);
    UpToConcat(city, Tail(apiKey), '&');
  }

  // ---- Fetch results and failures ------------------------------------------------------

  /** What `axios.get(url)` gives: the response data, an HTTP error status, or a failure
      with no response at all. */
  datatype Fetched<P> = Delivered(data: P) | HttpError(status: nat) | NoResponse

  /** Why a request went down the generic error path. */
  datatype Cause = UpstreamStatus(status: nat) | Unreachable | MalformedPayload

  datatype Outcome<T> =
    | Shaped(body: T)       // 200 with the reshaped payload
    | CityRequired          // 400 { error: 'City parameter is required' }
    | CityNotFound          // 404 { error: 'City not found' }
    | Failed(cause: Cause)  // the generic path, answered differently by the two copies

  /** A JSON response body: reshaped data, a fixed error text, or the thrown error's own
      message (whose wording the model does not fix). */
  datatype Body<T> = Data(value: T) | Error(text: string) | ErrorMessage(cause: Cause)

  /** How a request ends: a response with a status, or the error handed to `next`. */
  datatype Answer<T> = Respond(status: nat, body: Body<T>) | PassOn(cause: Cause)

  const CityRequiredText := "City parameter is required"
  const CityNotFoundText := "City not found"

  /** The `catch` block's test: a provider 404 is "City not found", everything else fails. */
  function Classify<P, T>(f: Fetched<P>, shape: P -> Option<T>): (o: Outcome<T>)
    ensures o.CityNotFound? <==> f == HttpError(404)
    ensures o.Shaped? <==> f.Delivered? && shape(f.data).Some?
    ensures o.Shaped? ==> o.body == shape(f.data).value
    ensures !o.CityRequired?
  {
    match f
    case Delivered(data) =>
      (match shape(data)
       case Some(t) => Shaped(t)
       case None => Failed(MalformedPayload))
    case HttpError(status) => if status == 404 then CityNotFound else Failed(UpstreamStatus(status))
    case NoResponse => Failed(Unreachable)
  }

  /** One weather request: reject a missing city before fetching, otherwise fetch the URL
      and classify what comes back. */
  function Handle<P, T>(endpoint: string, q: Query, apiKey: Option<string>,
                        fetch: string -> Fetched<P>, shape: P -> Option<T>): (o: Outcome<T>)
    ensures o.CityRequired? <==> !CityGiven(q)
    ensures CityGiven(q) ==> o == Classify(fetch(Url(endpoint, CityText(q), apiKey)), shape)
  {
    if !CityGiven(q) then CityRequired
    else Classify(fetch(Url(endpoint, CityText(q), apiKey)), shape)
  }

  /** A request without a city never reaches the provider: its outcome is the same whatever
      the provider would answer. With a city, only the answer for the one URL matters. */
  lemma HandleConsultsOnlyItsUrl<P, T>(endpoint: string, q: Query, apiKey: Option<string>,
                                      f1: string -> Fetched<P>, f2: string -> Fetched<P>, shape: P -> Option<T>)
    requires CityGiven(q) ==> f1(Url(endpoint, CityText(q), apiKey)) == f2(Url(endpoint, CityText(q), apiKey))
    ensures Handle(endpoint, q, apiKey, f1, shape) == Handle(endpoint, q, apiKey, f2, shape)
  {
  }

  // ---- Provider payloads and the app's shapes ------------------------------------------

  datatype Main = Main(temp: JsValue, feelsLike: JsValue, humidity: JsValue, pressure: JsValue)
  datatype Condition = Condition(description: JsValue, icon: JsValue)
  datatype Wind = Wind(speed: JsValue)
  datatype Coord = Coord(lat: JsValue, lon: JsValue)
  datatype Sys = Sys(country: JsValue)

  /** The `/weather` payload, as far as the handler reads it. */
  datatype CurrentPayload = CurrentPayload(name: JsValue, sys: Option<Sys>, main: Option<Main>,
                                           weather: seq<Condition>, wind: Option<Wind>, coord: Option<Coord>)

  datatype Coordinates = Coordinates(latitude: JsValue, longitude: JsValue)

  /** The app's current-weather snapshot. */
  datatype Current = Current(city: JsValue, country: JsValue, temperature: JsValue, feelsLike: JsValue,
                             humidity: JsValue, pressure: JsValue, description: JsValue, icon: JsValue,
                             windSpeed: JsValue, coordinates: Coordinates)

  /** The snapshot copies named provider fields; description and icon come from the first
      condition. A payload missing any object the handler reads throws, giving `None`. */
  function ShapeCurrent(d: CurrentPayload): (r: Option<Current>)
    ensures r.Some? <==> d.sys.Some? && d.main.Some? && |d.weather| > 0 && d.wind.Some? && d.coord.Some?
    ensures r.Some? ==>
              && r.value.city == d.name && r.value.country == d.sys.value.country
              && r.value.temperature == d.main.value.temp && r.value.feelsLike == d.main.value.feelsLike
              && r.value.humidity == d.main.value.humidity && r.value.pressure == d.main.value.pressure
              && r.value.description == d.weather[0].description && r.value.icon == d.weather[0].icon
              && r.value.windSpeed == d.wind.value.speed
              && r.value.coordinates == Coordinates(d.coord.value.lat, d.coord.value.lon)
  {
    if d.sys.None? || d.main.None? || |d.weather| == 0 || d.wind.None? || d.coord.None? then None
    else
      var m := d.main.value;
      Some(Current(d.name, d.sys.value.country, m.temp, m.feelsLike, m.humidity, m.pressure,
                   d.weather[0].description, d.weather[0].icon, d.wind.value.speed,
                   Coordinates(d.coord.value.lat, d.coord.value.lon)))
  }

  /** Only the first condition is read: later entries do not change the snapshot. */
  lemma CurrentReadsFirstCondition(d: CurrentPayload, more: seq<Condition>)
    requires |d.weather| > 0
    ensures ShapeCurrent(d.(weather := d.weather + more)) == ShapeCurrent(d)
  {
  }

  /** One entry of the `/forecast` payload's `list`. */
  datatype Item = Item(dtTxt: JsValue, main: Option<Main>, weather: seq<Condition>, wind: Option<Wind>)
  datatype CityInfo = CityInfo(name: JsValue, country: JsValue)
  datatype ForecastPayload = ForecastPayload(city: Option<CityInfo>, list: Option<seq<Item>>)

  datatype Entry = Entry(date: JsValue, temperature: JsValue, description: JsValue, icon: JsValue,
                         humidity: JsValue, windSpeed: JsValue)
  datatype Forecast = Forecast(city: JsValue, country: JsValue, forecast: seq<Entry>)

  /** The `map` callback: one provider item to one forecast entry. */
  function ShapeItem(item: Item): (r: Option<Entry>)
    ensures r.Some? <==> item.main.Some? && |item.weather| > 0 && item.wind.Some?
    ensures r.Some? ==>
              && r.value.date == item.dtTxt && r.value.temperature == item.main.value.temp
              && r.value.description == item.weather[0].description && r.value.icon == item.weather[0].icon
              && r.value.humidity == item.main.value.humidity && r.value.windSpeed == item.wind.value.speed
  {
    if item.main.None? || |item.weather| == 0 || item.wind.None? then None
    else Some(Entry(item.dtTxt, item.main.value.temp, item.weather[0].description, item.weather[0].icon,
                    item.main.value.humidity, item.wind.value.speed))
  }

  /** `list.map(...)`: one entry per item, the i-th from the i-th; one bad item throws. */
  function ShapeItems(items: seq<Item>): (r: Option<seq<Entry>>)
    ensures r.Some? <==> forall i :: 0 <= i < |items| ==> ShapeItem(items[i]).Some?
    ensures r.Some? ==> |r.value| == |items|
    ensures r.Some? ==> forall i :: 0 <= i < |items| ==> r.value[i] == ShapeItem(items[i]).value
  {
    if forall i :: 0 <= i < |items| ==> ShapeItem(items[i]).Some? then
      Some(seq(|items|, i requires 0 <= i < |items| => ShapeItem(items[i]).value))
    else None
  }

  /** Mapping distributes over concatenation, so the provider's order is the response's. */
  lemma {:induction false} ShapeItemsAppend(a: seq<Item>, b: seq<Item>)
    requires ShapeItems(a).Some? && ShapeItems(b).Some?
    ensures ShapeItems(a + b) == Some(ShapeItems(a).value + ShapeItems(b).value)
  {
    var ab := a + b;
    var l := ShapeItems(a).value + ShapeItems(b).value;
    forall i | 0 <= i < |ab| ensures ShapeItem(ab[i]).Some? && l[i] == ShapeItem(ab[i]).value {
      if i < |a| {
        assert ab[i] == a[i];
      } else {
        assert ab[i] == b[i - |a|];
        assert l[i] == ShapeItems(b).value[i - |a|];
      }
    }
    assert ShapeItems(ab).value == l;
  }

  /** The forecast response: entries from `list`, then city and country from `city`. */
  function ShapeForecast(d: ForecastPayload): (r: Option<Forecast>)
    ensures r.Some? <==> d.list.Some? && ShapeItems(d.list.value).Some? && d.city.Some?
    ensures r.Some? ==> r.value.city == d.city.value.name && r.value.country == d.city.value.country
    ensures r.Some? ==> r.value.forecast == ShapeItems(d.list.value).value
  {
    if d.list.None? then None
    else
      match ShapeItems(d.list.value)
      case None => None
      case Some(entries) =>
        if d.city.None? then None
        else Some(Forecast(d.city.value.name, d.city.value.country, entries))
  }

  /** `GET /weather/current`: the `weather` endpoint, shaped into a snapshot. */
  function CurrentWeather(q: Query, apiKey: Option<string>, fetch: string -> Fetched<CurrentPayload>): (o: Outcome<Current>)
    ensures o.CityRequired? <==> !CityGiven(q)
    ensures o.Shaped? ==> exists d :: fetch(Url("weather", CityText(q), apiKey)) == Delivered(d) && ShapeCurrent(d) == Some(o.body)
  {
    Handle("weather", q, apiKey, fetch, ShapeCurrent)
  }

  /** `GET /weather/forecast`: the `forecast` endpoint, one entry per provider item. */
  function ForecastWeather(q: Query, apiKey: Option<string>, fetch: string -> Fetched<ForecastPayload>): (o: Outcome<Forecast>)
    ensures o.CityRequired? <==> !CityGiven(q)
    ensures o.Shaped? ==>
              exists d :: && fetch(Url("forecast", CityText(q), apiKey)) == Delivered(d)
                          && d.list.Some? && |o.body.forecast| == |d.list.value|
                          && (forall i :: 0 <= i < |d.list.value| ==> ShapeItem(d.list.value[i]).Some? && o.body.forecast[i] == ShapeItem(d.list.value[i]).value)
  {
    Handle("forecast", q, apiKey, fetch, ShapeForecast)
  }
}
