/**
 * The weather helper (telegram-aws/utils/getWeather.go): a city name is
 * resolved to a location through the geo lookup service, the current
 * conditions of that location are fetched, and the two answers are combined
 * into a `WeatherData` record.
 *
 * The HTTP request and the JSON decoding are not modelled: each service is a
 * function from the URL requested to what the request and decoding produced,
 * the decoded response or the error text of the step that failed. The Go
 * functions return a pointer and an error; both are kept, as a pair of
 * Options, because the bot dereferences the pointer whatever the error says.
 */
module Weather {
  import opened Optional
  import WeatherTime

  /** One hit of the geo lookup (`GeoRespData.Data[i]`). */
  datatype Location = Location(name: string, id: string)

  /** The decoded geo lookup response (`GeoRespData`). */
  datatype GeoResp = GeoResp(code: string, data: seq<Location>)

  /** The `now` object of the conditions response. */
  datatype Now = Now(temperature: string, weather: string, obsTime: string)

  /** The decoded conditions response (`WeatherRespData`). */
  datatype WeatherResp = WeatherResp(code: string, now: Now)

  /** The record handed to the bot (`WeatherData`). */
  datatype WeatherData = WeatherData(name: string, temperature: string, date: string)

  /**
   * What one GET request produced: the decoded body, or the text of the
   * error from `httpGetUrl` or from `json.Unmarshal`.
   */
  datatype Fetched<T> = Body(resp: T) | HttpFailed(detail: string) | DecodeFailed(detail: string)

  /** `getCityId`'s `(*GeoRespData, error)`. */
  datatype GeoLookup = GeoLookup(resp: Option<GeoResp>, err: Option<string>)

  /** `GetCityWeather`'s `(*WeatherData, error)`. */
  datatype WeatherReply = WeatherReply(data: Option<WeatherData>, err: Option<string>)

  const GeoEndpoint: string := "https://geoapi.qweather.com/v2/city/lookup?location="
  const WeatherEndpoint: string := "https://devapi.qweather.com/v7/weather/now?location="
  const NotFound: string := "get data failed 404"
  const BadArgs: string := "error get args"

  /** `WeatherData{}`: the record returned when the city is not resolved. */
  const EmptyWeather: WeatherData := WeatherData("", "", "")

  /** A lookup URL: the endpoint, the location and the key, pasted together without escaping. */
  function LookupUrl(endpoint: string, location: string, apiKey: string): (url: string)
    ensures |url| == |endpoint| + |location| + 5 + |apiKey|
    ensures url[..|endpoint|] == endpoint
    ensures url[|endpoint|..|endpoint| + |location|] == location
    ensures url[|endpoint| + |location|..|endpoint| + |location| + 5] == "&key="
    ensures url[|url| - |apiKey|..] == apiKey
  {
    endpoint + location + "&key=" + apiKey
  }

  /** The geo lookup URL for a city name. */
  function GeoUrl(cityName: string, apiKey: string): (url: string)
    ensures |url| == |GeoEndpoint| + |cityName| + 5 + |apiKey|
    ensures url[..|GeoEndpoint|] == GeoEndpoint
    ensures url[|GeoEndpoint|..|GeoEndpoint| + |cityName|] == cityName
    ensures url[|GeoEndpoint| + |cityName|..|GeoEndpoint| + |cityName| + 5] == "&key="
    ensures url[|url| - |apiKey|..] == apiKey
  {
    LookupUrl(GeoEndpoint, cityName, apiKey)
  }

  /** The conditions URL for a location id. */
  function WeatherUrl(cityId: string, apiKey: string): (url: string)
    ensures |url| == |WeatherEndpoint| + |cityId| + 5 + |apiKey|
    ensures url[..|WeatherEndpoint|] == WeatherEndpoint
    ensures url[|WeatherEndpoint|..|WeatherEndpoint| + |cityId|] == cityId
    ensures url[|WeatherEndpoint| + |cityId|..|WeatherEndpoint| + |cityId| + 5] == "&key="
    ensures url[|url| - |apiKey|..] == apiKey
  {
    LookupUrl(WeatherEndpoint, cityId, apiKey)
  }

  /**
   * When neither location contains `&`, the URL determines the location and
   * the key: a location with no `&` ends where `&key=` begins.
   */
  lemma LookupUrlInjective(endpoint: string, loc1: string, key1: string, loc2: string, key2: string)
    requires '&' !in loc1 && '&' !in loc2
    requires LookupUrl(endpoint, loc1, key1) == LookupUrl(endpoint, loc2, key2)
    ensures loc1 == loc2 && key1 == key2
  {
    var url := LookupUrl(endpoint, loc1, key1);
    var e := |endpoint|;
    if |loc1| < |loc2| {
      SeparatorAt(endpoint, loc1, key1, loc2, key2);
      assert false;
    } else if |loc2| < |loc1| {
      SeparatorAt(endpoint, loc2, key2, loc1, key1);
      assert false;
    }
    assert loc1 == url[e..e + |loc1|] == loc2;
    assert |key1| == |key2|;
  }

  /** Where the shorter location ends, the longer one's URL has a location character. */
  lemma SeparatorAt(endpoint: string, short: string, key1: string, long: string, key2: string)
    ensures |short| < |long| ==>
      LookupUrl(endpoint, short, key1)[|endpoint| + |short|] == '&'
      && LookupUrl(endpoint, long, key2)[|endpoint| + |short|] == long[|short|]
  {
  }

  /** Without escaping, a location holding `&key=` can impersonate a different key. */
  lemma LookupUrlAmbiguous(endpoint: string)
    ensures LookupUrl(endpoint, "a&key=b", "c") == LookupUrl(endpoint, "a", "b&key=c")
  {
  }

  /** The classification of a decoded geo response in `getCityId`. */
  function ClassifyGeo(resp: GeoResp): (r: GeoLookup)
    ensures r.resp.Some? <==> r.err.None?
    ensures r.resp.Some? <==> resp.code == "200" && |resp.data| > 0
    ensures r.resp.Some? ==> r.resp.value == resp
    ensures r.err == Some(NotFound) <==> resp.code == "404"
    ensures r.err == Some(BadArgs) <==> resp.code != "404" && !(resp.code == "200" && |resp.data| > 0)
  {
    if resp.code == "200" && |resp.data| > 0 then GeoLookup(Some(resp), None)
    else if resp.code == "404" then GeoLookup(None, Some(NotFound))
    else GeoLookup(None, Some(BadArgs))
  }

  /** `getCityId`: request the geo lookup URL, then classify what came back. */
  function GetCityId(cityName: string, apiKey: string, geo: string -> Fetched<GeoResp>): (r: GeoLookup)
    ensures r.resp.Some? <==> r.err.None?
    ensures r.resp.Some? ==>
      geo(GeoUrl(cityName, apiKey)) == Body(r.resp.value) && r.resp.value.code == "200" && |r.resp.value.data| > 0
    ensures geo(GeoUrl(cityName, apiKey)).Body? ==> r == ClassifyGeo(geo(GeoUrl(cityName, apiKey)).resp)
    ensures geo(GeoUrl(cityName, apiKey)).HttpFailed? ==>
      r == GeoLookup(None, Some("http get fail: " + geo(GeoUrl(cityName, apiKey)).detail))
    ensures geo(GeoUrl(cityName, apiKey)).DecodeFailed? ==>
      r == GeoLookup(None, Some("json the data failed: " + geo(GeoUrl(cityName, apiKey)).detail))
  {
    match geo(GeoUrl(cityName, apiKey))
    case HttpFailed(detail) => GeoLookup(None, Some("http get fail: " + detail))
    case DecodeFailed(detail) => GeoLookup(None, Some("json the data failed: " + detail))
    case Body(resp) => ClassifyGeo(resp)
  }

  /** The conditions step once the city is resolved to `loc`. */
  function ConditionsFor(loc: Location, apiKey: string, conditions: string -> Fetched<WeatherResp>): (r: WeatherReply)
    ensures r.data.Some? <==> r.err.None?
  {
    match conditions(WeatherUrl(loc.id, apiKey))
    case HttpFailed(detail) => WeatherReply(None, Some("http get fail: " + detail))
    case DecodeFailed(detail) => WeatherReply(None, Some("json the data failed: " + detail))
    case Body(resp) =>
      if resp.code == "200" then
        // the conversion error is dropped: `date, _ := convertTimeFormat(...)`
        var date := WeatherTime.ConvertTimeFormat(resp.now.obsTime).text;
        WeatherReply(Some(WeatherData(loc.name, resp.now.temperature, date)), None)
      else if resp.code == "404" then WeatherReply(None, Some(NotFound))
      else WeatherReply(None, Some(BadArgs))
  }

  /**
   * `GetCityWeather`. A failed geo lookup is not reported: the result is an
   * empty record and no error, and the conditions service is not asked.
   * Otherwise the first geo hit supplies the name and the id to look up.
   */
  function GetCityWeather(cityName: string, apiKey: string,
                          geo: string -> Fetched<GeoResp>,
                          conditions: string -> Fetched<WeatherResp>): (r: WeatherReply)
    ensures r.data.None? <==> r.err.Some?
    ensures GetCityId(cityName, apiKey, geo).resp.None? ==> r == WeatherReply(Some(EmptyWeather), None)
  {
    var lookup := GetCityId(cityName, apiKey, geo);
    if lookup.resp.None? then WeatherReply(Some(EmptyWeather), None)
    else ConditionsFor(lookup.resp.value.data[0], apiKey, conditions)
  }

  /** A failed geo lookup leaves the result independent of the conditions service. */
  lemma GeoFailureSkipsConditions(cityName: string, apiKey: string, geo: string -> Fetched<GeoResp>,
                                  c1: string -> Fetched<WeatherResp>, c2: string -> Fetched<WeatherResp>)
    requires GetCityId(cityName, apiKey, geo).resp.None?
    ensures GetCityWeather(cityName, apiKey, geo, c1) == GetCityWeather(cityName, apiKey, geo, c2)
  {
  }

  /**
   * A resolved city whose conditions come back with code 200: the name is
   * the first hit's, the temperature is copied, and the date is the
   * converted observation time, or empty when that does not parse.
   */
  lemma CityWeatherFound(cityName: string, apiKey: string, geo: string -> Fetched<GeoResp>,
                         conditions: string -> Fetched<WeatherResp>, g: GeoResp, w: WeatherResp)
    requires geo(GeoUrl(cityName, apiKey)) == Body(g) && g.code == "200" && |g.data| > 0
    requires conditions(WeatherUrl(g.data[0].id, apiKey)) == Body(w) && w.code == "200"
    ensures var r := GetCityWeather(cityName, apiKey, geo, conditions);
      r.err.None? && r.data.Some?
      && r.data.value.name == g.data[0].name
      && r.data.value.temperature == w.now.temperature
      && (WeatherTime.ParseObsTime(w.now.obsTime).None? ==> r.data.value.date == "")
      && (WeatherTime.ParseObsTime(w.now.obsTime).Some? ==>
            r.data.value.date == WeatherTime.Display(WeatherTime.ParseObsTime(w.now.obsTime).value))
  {
  }

  /** Shenzhen resolved to its id, with 28 degrees observed at `2024-05-01T10:00+08:00`. */
  lemma ShenzhenWeather(apiKey: string, geo: string -> Fetched<GeoResp>, conditions: string -> Fetched<WeatherResp>)
    requires geo(GeoUrl("shenzhen", apiKey)) == Body(GeoResp("200", [Location("Shenzhen", "101280601")]))
    requires conditions(WeatherUrl("101280601", apiKey))
             == Body(WeatherResp("200", Now("28", "Sunny", "2024-05-01T10:00+08:00")))
    ensures GetCityWeather("shenzhen", apiKey, geo, conditions)
            == WeatherReply(Some(WeatherData("Shenzhen", "28", "2024-05-01 10:00")), None)
  {
    WeatherTime.ConvertExample();
    var g := GeoResp("200", [Location("Shenzhen", "101280601")]);
    var w := WeatherResp("200", Now("28", "Sunny", "2024-05-01T10:00+08:00"));
    CityWeatherFound("shenzhen", apiKey, geo, conditions, g, w);
  }

  /**
   * A resolved city whose conditions request fails or comes back with a
   * code other than 200: no record, and an error naming the failure.
   */
  lemma CityWeatherFailed(cityName: string, apiKey: string, geo: string -> Fetched<GeoResp>,
                          conditions: string -> Fetched<WeatherResp>, g: GeoResp)
    requires geo(GeoUrl(cityName, apiKey)) == Body(g) && g.code == "200" && |g.data| > 0
    requires !(conditions(WeatherUrl(g.data[0].id, apiKey)).Body?
               && conditions(WeatherUrl(g.data[0].id, apiKey)).resp.code == "200")
    ensures var r := GetCityWeather(cityName, apiKey, geo, conditions);
      var f := conditions(WeatherUrl(g.data[0].id, apiKey));
      r.data.None?
      && (f.HttpFailed? ==> r.err == Some("http get fail: " + f.detail))
      && (f.DecodeFailed? ==> r.err == Some("json the data failed: " + f.detail))
      && (f.Body? && f.resp.code == "404" ==> r.err == Some(NotFound))
      && (f.Body? && f.resp.code != "404" ==> r.err == Some(BadArgs))
  {
  }
}
