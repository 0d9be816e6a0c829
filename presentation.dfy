/** What renderCity shows for one city's feed row: the current block (the
    first forecast block), the advice text and up to three forecast cards.
    Everything here is a pure function of the row; writing it into the page
    is left out. */
module Presentation {
  import opened Wrappers
  import opened JsText
  import opened Icons
  import opened Advice

  /** One forecast block of the feed; every field may be missing. */
  datatype ForecastBlock = ForecastBlock(
    startTime: Option<string>,
    weather: Option<string>,
    minTemp: Option<string>,
    maxTemp: Option<string>,
    rain: Option<string>,
    comfort: Option<string>,
    windSpeed: Option<string>)

  /** The empty object `{}` used when there is no first block. */
  const NoBlock := ForecastBlock(None, None, None, None, None, None, None)

  /** One row of the feed. */
  datatype CityRecord = CityRecord(city: string, updateTime: Option<string>, forecasts: Option<seq<ForecastBlock>>)

  /** The summary of the current block. */
  datatype CurrentView = CurrentView(
    icon: string,
    tempBig: string,
    tempRange: string,
    comfort: string,
    rain: string,
    windSpeed: string,
    advice: string)

  /** One forecast card. */
  datatype Card = Card(
    date: string,
    icon: string,
    weather: string,
    rain: string,
    minTemp: string,
    maxTemp: string,
    comfort: string)

  datatype View = View(cityName: string, updateTime: string, current: CurrentView, cards: seq<Card>)

  const Dash := "—"        // U+2014, shown for a missing card field and wind speed
  const NoTemp := "--"     // shown for a missing temperature or rain value
  const Celsius := "°C"

  /** `allData.map(d => d.city)`. */
  function FeedCities(data: seq<CityRecord>): (r: seq<string>)
    ensures |r| == |data| && forall k :: 0 <= k < |data| ==> r[k] == data[k].city
  {
    seq(|data|, k requires 0 <= k < |data| => data[k].city)
  }

  /** `record.forecasts || []`. */
  function Forecasts(rec: CityRecord): seq<ForecastBlock> {
    rec.forecasts.GetOr([])
  }

  /** `forecasts[0] || {}`. */
  function MainBlock(fs: seq<ForecastBlock>): (b: ForecastBlock)
    ensures fs == [] ==> b == NoBlock
    ensures fs != [] ==> b == fs[0]
  {
    if |fs| > 0 then fs[0] else NoBlock
  }

  /** `maxT.replace('°C','') + '°C'`: the big temperature always ends with
      the unit, and a value without the unit simply gets it appended. */
  function TempBig(maxT: string): (r: string)
    ensures |r| >= 2 && r[|r| - 2..] == Celsius
    ensures !Contains(maxT, Celsius) ==> r == maxT + Celsius
  {
    RemoveFirst(maxT, Celsius) + Celsius
  }

  /** Only the first "°C" is removed before the unit is appended again, so a
      value that already carries the unit is shown unchanged when nothing
      follows the unit. */
  lemma TempBigFirstUnit(u: string, v: string)
    requires !Contains(u, Celsius)
    ensures TempBig(u + Celsius + v) == u + v + Celsius
    ensures v == "" ==> TempBig(u + Celsius) == u + Celsius
  {
    RemoveFirstAfter(u, Celsius, v);
    assert u + Celsius + "" == u + Celsius;
  }

  /** The current block's summary (script.js renderCity). */
  function Current(fs: seq<ForecastBlock>): (v: CurrentView)
    ensures v.rain != "" && v.windSpeed != ""
    ensures |v.tempBig| >= 2 && v.tempBig[|v.tempBig| - 2..] == Celsius
    ensures exists i: Icon :: v.icon == Glyph(i)
    ensures exists a, b :: a in RainFragments && b in TempFragments && v.advice == a + b
    ensures v.icon == WeatherToIcon(MainBlock(fs).weather)
    ensures v.tempBig == TempBig(Or(MainBlock(fs).maxTemp, NoTemp))
    ensures v.tempRange == Or(MainBlock(fs).minTemp, NoTemp) + " — " + Or(MainBlock(fs).maxTemp, NoTemp)
    ensures Falsy(MainBlock(fs).rain) ==> v.rain == NoTemp
    ensures !Falsy(MainBlock(fs).rain) ==> v.rain == MainBlock(fs).rain.value
    ensures Falsy(MainBlock(fs).comfort) ==> v.comfort == ""
    ensures !Falsy(MainBlock(fs).comfort) ==> v.comfort == MainBlock(fs).comfort.value
    ensures Falsy(MainBlock(fs).windSpeed) ==> v.windSpeed == Dash
    ensures !Falsy(MainBlock(fs).windSpeed) ==> v.windSpeed == MainBlock(fs).windSpeed.value
    ensures v.advice == AdviceText(Or(MainBlock(fs).rain, NoTemp), Or(MainBlock(fs).maxTemp, NoTemp))
  {
    WeatherToIconDefaulted(MainBlock(fs).weather);
    var main := MainBlock(fs);
    var minT := Or(main.minTemp, NoTemp);
    var maxT := Or(main.maxTemp, NoTemp);
    var weather := Or(main.weather, "");
    var rain := Or(main.rain, NoTemp);
    var comfort := Or(main.comfort, "");
    CurrentView(
      WeatherToIcon(Some(weather)),
      TempBig(maxT),
      minT + " — " + maxT,
      comfort,
      rain,
      Or(main.windSpeed, Dash),
      AdviceText(rain, maxT))
  }

  /** The summary reads the first block only: later blocks never change it. */
  lemma CurrentReadsFirstBlock(fs: seq<ForecastBlock>, more: seq<ForecastBlock>)
    requires fs != []
    ensures Current(fs + more) == Current(fs) == Current([fs[0]])
  {
    assert MainBlock(fs + more) == fs[0] == MainBlock([fs[0]]);
  }

  /** One card: the date label is the part of startTime before its first
      space, and no shown field is ever blank. */
  function CardOf(f: ForecastBlock): (c: Card)
    ensures c.date <= Or(f.startTime, "") && ' ' !in c.date
    ensures |c.date| < |Or(f.startTime, "")| ==> Or(f.startTime, "")[|c.date|] == ' '
    ensures c.weather != "" && c.rain != "" && c.minTemp != "" && c.maxTemp != "" && c.comfort != ""
    ensures exists i: Icon :: c.icon == Glyph(i)
    ensures c.icon == WeatherToIcon(f.weather)
    ensures Falsy(f.startTime) ==> c.date == ""
    ensures Falsy(f.weather) ==> c.weather == Dash
    ensures !Falsy(f.weather) ==> c.weather == f.weather.value
    ensures Falsy(f.rain) ==> c.rain == Dash
    ensures !Falsy(f.rain) ==> c.rain == f.rain.value
    ensures Falsy(f.minTemp) ==> c.minTemp == Dash
    ensures !Falsy(f.minTemp) ==> c.minTemp == f.minTemp.value
    ensures Falsy(f.maxTemp) ==> c.maxTemp == Dash
    ensures !Falsy(f.maxTemp) ==> c.maxTemp == f.maxTemp.value
    ensures Falsy(f.comfort) ==> c.comfort == Dash
    ensures !Falsy(f.comfort) ==> c.comfort == f.comfort.value
  {
    Card(
      if Falsy(f.startTime) then "" else BeforeFirstSpace(f.startTime.value),
      WeatherToIcon(f.weather),
      Or(f.weather, Dash),
      Or(f.rain, Dash),
      Or(f.minTemp, Dash),
      Or(f.maxTemp, Dash),
      Or(f.comfort, Dash))
  }

  /** `forecasts.slice(0,3)`, one card per block. */
  function Cards(fs: seq<ForecastBlock>): (cs: seq<Card>)
    ensures |cs| == if |fs| < 3 then |fs| else 3
    ensures forall i :: 0 <= i < |cs| ==> cs[i] == CardOf(fs[i])
  {
    var n := if |fs| < 3 then |fs| else 3;
    seq(n, i requires 0 <= i < n => CardOf(fs[i]))
  }

  /** Only the first three blocks make cards: dropping the rest changes
      nothing, and blocks appended after the third are never shown. */
  lemma CardsFirstThree(fs: seq<ForecastBlock>, more: seq<ForecastBlock>)
    ensures Cards(fs) == Cards(fs[..if |fs| < 3 then |fs| else 3])
    ensures |fs| >= 3 ==> Cards(fs + more) == Cards(fs)
  {
    var n := if |fs| < 3 then |fs| else 3;
    assert forall i :: 0 <= i < n ==> fs[..n][i] == fs[i];
    if |fs| >= 3 {
      assert forall i :: 0 <= i < 3 ==> (fs + more)[i] == fs[i];
    }
  }

  /** Everything renderCity writes for a found row: the row's city, its
      update time (blank when missing), the summary of its first block and
      one card for each of its first three blocks. */
  function Project(rec: CityRecord): (v: View)
    ensures v.cityName == rec.city
    ensures Falsy(rec.updateTime) ==> v.updateTime == ""
    ensures !Falsy(rec.updateTime) ==> v.updateTime == rec.updateTime.value
    ensures |v.cards| == if |Forecasts(rec)| < 3 then |Forecasts(rec)| else 3
    ensures forall i :: 0 <= i < |v.cards| ==> v.cards[i] == CardOf(Forecasts(rec)[i])
    ensures v.current == Current(Forecasts(rec))
    ensures Forecasts(rec) == [] ==> v.current.icon == Glyph(Fog) && v.cards == []
    ensures Forecasts(rec) != [] ==> v.current.icon == v.cards[0].icon
    ensures v.current.advice == AdviceText(Or(MainBlock(Forecasts(rec)).rain, NoTemp), Or(MainBlock(Forecasts(rec)).maxTemp, NoTemp))
  {
    MissingDescriptionIsFog();
    WeatherToIconDefaulted(MainBlock(Forecasts(rec)).weather);
    View(rec.city, Or(rec.updateTime, ""), Current(Forecasts(rec)), Cards(Forecasts(rec)))
  }

  lemma TempBigMissing()
    ensures TempBig(NoTemp) == "--°C"
  {
    assert NoTemp[0..2][0] != Celsius[0];
    assert !OccursAt(NoTemp, Celsius, 0);
    assert !Contains(NoTemp, Celsius);
  }

  lemma AdviceMissing()
    ensures AdviceText(NoTemp, NoTemp) == StableWeather + WarmEnough
  {
    ParseIntPlaceholder();
  }

  /** A row without forecast blocks: placeholders everywhere, fog icon,
      "--°C", the stable-and-warm advice and no cards. */
  lemma ProjectNoForecasts(rec: CityRecord)
    requires Forecasts(rec) == []
    ensures Project(rec).current == CurrentView(Glyph(Fog), "--°C", "-- — --", "", "--", Dash, StableWeather + WarmEnough)
    ensures Project(rec).cards == []
  {
    var fs := Forecasts(rec);
    var main := MainBlock(fs);
    assert main == NoBlock;
    MissingDescriptionIsFog();
    TempBigMissing();
    AdviceMissing();
    var v := Current(fs);
    assert v.icon == WeatherToIcon(Some("")) == Glyph(Fog);
    assert v.tempBig == TempBig(NoTemp);
    assert v.tempRange == NoTemp + " — " + NoTemp == "-- — --";
    assert v.advice == AdviceText(NoTemp, NoTemp);
  }

  /** The big icon is the first card's icon. */
  lemma CurrentIconIsFirstCardIcon(fs: seq<ForecastBlock>)
    requires fs != []
    ensures Current(fs).icon == Cards(fs)[0].icon
  {
    WeatherToIconDefaulted(fs[0].weather);
    assert Current(fs).icon == WeatherToIcon(Some(Or(fs[0].weather, "")));
    assert Cards(fs)[0] == CardOf(fs[0]);
  }

  /** Blocks after the third are never shown: two rows that agree on city,
      update time and their first three blocks are rendered identically. */
  lemma ProjectReadsFirstThree(r1: CityRecord, r2: CityRecord)
    requires r1.city == r2.city && r1.updateTime == r2.updateTime
    requires |Forecasts(r1)| >= 3 && |Forecasts(r2)| >= 3
    requires Forecasts(r1)[..3] == Forecasts(r2)[..3]
    ensures Project(r1) == Project(r2)
  {
    var f1, f2 := Forecasts(r1), Forecasts(r2);
    assert f1[0] == f1[..3][0] == f2[..3][0] == f2[0];
    assert forall i :: 0 <= i < 3 ==> f1[i] == f1[..3][i] == f2[..3][i] == f2[i];
  }

  // ---------------------------------------------------------------------
  // Looking a city up in the feed
  // ---------------------------------------------------------------------

  /** Index of the first row for `city`, the position `allData.find` stops at. */
  function FindIndex(data: seq<CityRecord>, city: string): (r: Option<nat>)
    ensures r.Some? ==> r.value < |data| && data[r.value].city == city
    ensures r.Some? ==> forall j :: 0 <= j < r.value ==> data[j].city != city
    ensures r.None? ==> forall j :: 0 <= j < |data| ==> data[j].city != city
  {
    if data == [] then None
    else if data[0].city == city then Some(0)
    else
      match FindIndex(data[1..], city)
      case None => None
      case Some(k) => Some(k + 1)
  }

  /** `allData.find(d => d.city === city)`. */
  function FindRecord(data: seq<CityRecord>, city: string): Option<CityRecord> {
    match FindIndex(data, city)
    case None => None
    case Some(k) => Some(data[k])
  }

  /** What renderCity puts on screen. */
  datatype Screen = NoData(message: string) | Shown(page: View)

  /** `renderCity(city)`: the view of the first row for `city`, or the city
      name (`undefined` when there is none) followed by "（無資料）". */
  function Render(data: seq<CityRecord>, city: Option<string>): (s: Screen)
    ensures s.Shown? <==> city.Some? && exists k :: 0 <= k < |data| && data[k].city == city.value
    ensures s.Shown? ==> s.page.cityName == city.value
    ensures s.Shown? ==> FindIndex(data, city.value).Some? && s.page == Project(data[FindIndex(data, city.value).value])
    ensures s.NoData? && city.None? ==> s.message == "undefined（無資料）"
    ensures s.NoData? && city.Some? ==> s.message == city.value + "（無資料）"
  {
    match city
    case None => NoData("undefined（無資料）")
    case Some(c) =>
      match FindRecord(data, c)
      case None => NoData(c + "（無資料）")
      case Some(rec) => Shown(Project(rec))
  }
}
