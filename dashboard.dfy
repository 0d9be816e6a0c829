/** The page's state: the feed rows last fetched successfully (`allData`) and
    the city last rendered (`currentCity`), with the operations that update
    them: a fetch, renderCity, the refresh button and the start-up sequence.
    The network, the geolocation service and the page itself are parameters
    or left out. */
module Dashboard {
  import opened Wrappers
  import opened Regions
  import opened Presentation

  /** How the fetch of the feed ended. */
  datatype Response =
    | TransportError                                     // fetch or res.json() threw
    | HttpError                                          // `!res.ok`
    | Payload(success: bool, data: Option<seq<CityRecord>>)

  /** What the geolocation service reported. */
  datatype Geolocation = Unsupported | Refused | Located(lat: real, lon: real)

  /** A JavaScript value used as a condition: undefined or "" is false. */
  predicate Truthy(city: Option<string>) {
    city.Some? && city.value != ""
  }

  class Dashboard {
    var allData: seq<CityRecord>
    var currentCity: Option<string>

    constructor ()
      ensures allData == [] && currentCity == None
    {
      allData := [];
      currentCity := None;
    }

    /** The cities of the held rows, in feed order. */
    function Avail(): seq<string>
      reads this
    {
      FeedCities(allData)
    }

    /** `fetchWeather()`: on an ok response whose `success` flag is set, the
        rows become `json.data || []` and the drop-down is refilled; any
        other outcome keeps the previous rows and fills nothing. */
    method FetchWeather(resp: Response) returns (options: Option<seq<string>>)
      modifies this
      ensures resp.Payload? && resp.success ==> allData == resp.data.GetOr([])
      ensures !(resp.Payload? && resp.success) ==> allData == old(allData)
      ensures options.Some? <==> resp.Payload? && resp.success
      ensures options.Some? ==> options.value == OrderedCities(FeedCities(allData))
      ensures currentCity == old(currentCity)
    {
      if resp.Payload? && resp.success {
        allData := resp.data.GetOr([]);
        options := Some(OrderedCities(FeedCities(allData)));
      } else {
        options := None;
      }
    }

    /** `renderCity(city)`: shows the city's row, or the "no data" line; the
        current city changes only when a row was found. */
    method RenderCity(city: Option<string>) returns (s: Screen)
      modifies this
      ensures allData == old(allData)
      ensures s == Render(allData, city)
      ensures currentCity == if s.Shown? then city else old(currentCity)
    {
      s := Render(allData, city);
      if s.Shown? {
        currentCity := city;
      }
    }

    /** The refresh button: fetch, then re-render the current city if there
        is one. */
    method Refresh(resp: Response) returns (options: Option<seq<string>>, s: Option<Screen>)
      modifies this
      ensures resp.Payload? && resp.success ==> allData == resp.data.GetOr([])
      ensures !(resp.Payload? && resp.success) ==> allData == old(allData)
      ensures options.Some? <==> resp.Payload? && resp.success
      ensures options.Some? ==> options.value == OrderedCities(FeedCities(allData))
      ensures s.Some? <==> Truthy(old(currentCity))
      ensures s.Some? ==> s.value == Render(allData, old(currentCity))
      ensures s.Some? && old(currentCity).value in Avail() ==> s.value.Shown?
      ensures currentCity == old(currentCity)
    {
      options := FetchWeather(resp);
      if Truthy(currentCity) {
        var shown := RenderCity(currentCity);
        s := Some(shown);
      } else {
        s := None;
      }
    }

    /** `init()`: fetch, then pick the first city to show. A located user
        gets the nearest city when the feed has it, else 臺北市, else the
        feed's first city, and nothing is shown when the feed is empty; a
        refused or missing geolocation goes straight to 臺北市 or the first
        city. */
    method Init(resp: Response, geo: Geolocation, dist: (real, real, real, real) -> real)
      returns (options: Option<seq<string>>, s: Option<Screen>)
      modifies this
      ensures resp.Payload? && resp.success ==> allData == resp.data.GetOr([])
      ensures !(resp.Payload? && resp.success) ==> allData == old(allData)
      ensures options.Some? <==> resp.Payload? && resp.success
      ensures options.Some? ==> options.value == OrderedCities(FeedCities(allData))
      ensures !geo.Located? ==> s == Some(Render(allData, FallbackTarget(Avail())))
      ensures geo.Located? ==> (s.Some? <==> |allData| > 0)
      ensures geo.Located? && s.Some? ==> s.value.Shown? && currentCity.Some? && currentCity.value in Avail()
      ensures geo.Located? ==>
        exists k: nat :: FirstNearest(geo.lat, geo.lon, dist, k) &&
          (|allData| > 0 ==> s == Some(Render(allData, GeoTarget(CityCoords[k].name, Avail()))))
      ensures s.None? ==> currentCity == old(currentCity)
      ensures s.Some? && s.value.Shown? ==> currentCity == Some(s.value.page.cityName)
      ensures s.Some? && s.value.NoData? ==> currentCity == old(currentCity)
      ensures !geo.Located? ==> currentCity == if s.value.Shown? then FallbackTarget(Avail()) else old(currentCity)
    {
      options := FetchWeather(resp);
      if geo.Located? {
        var nearest := PickNearestCity(geo.lat, geo.lon, dist);
        ghost var k: nat :| FirstNearest(geo.lat, geo.lon, dist, k) && CityCoords[k].name == nearest;
        if |allData| > 0 {
          var target := GeoTarget(nearest, Avail());
          var shown := RenderCity(target);
          s := Some(shown);
        } else {
          s := None;
        }
      } else {
        var shown := RenderCity(FallbackTarget(Avail()));
        s := Some(shown);
      }
    }
  }
}
