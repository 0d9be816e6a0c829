# Weather dashboard core, modelled in Dafny

The dashboard (`script.js`) fetches a feed of per-city forecasts for Taiwan's
22 cities and counties, locates the user, and renders one city: an icon, the
big temperature, a temperature range, rain probability, wind speed, canned
advice and up to three forecast cards. This project models the deterministic
rules inside it and proves what they promise:

- `JsText` — the JavaScript semantics the rules depend on: `||` on optional
  string fields, `indexOf`/`includes`, `replace` with a string pattern,
  `split(' ')[0]`, and `parseInt` without a radix (leading ECMAScript white
  space, sign, `0x` prefix, longest digit run, NaN), and decimal rendering
  `Show`, whose output `parseInt` reads back (a round trip, also when a unit
  follows).
- `Icons` — `weatherToIcon`: seven categories tested in the fixed order
  sun, rain, overcast, partly cloudy, thunder, snow, fog, proved equal to a
  first-match evaluation of an ordered rule table.
- `Advice` — the rain tier (60 / 30 on `parseInt(rain) || 0`) and the
  temperature tier (15 / 20 on `parseInt(maxT) || 999`), and the
  concatenated advice, which decomposes uniquely into its two fragments.
- `Regions` — `CITY_COORDS` in declaration order; the drop-down order of
  `populateCitySelect`; `pickNearestCity` as a loop over all 22 entries with
  an abstract distance function, proved to return the first of the nearest;
  and the two target-selection rules of `init`.
- `Presentation` — renderCity's pure part: the current block (first block or
  `{}`), the big temperature, advice, the cards (first `min(3, n)` blocks),
  `allData.find`, and the "no data" line.
- `Dashboard` — a class holding `allData` and `currentCity`, with the fetch
  outcome, `renderCity`, the refresh button and the start-up sequence as
  methods that update them.

Behaviour worth noting:
- `pickNearestCity` searches all 22 entries of `CITY_COORDS`, not only the
  cities present in the feed; `init` then falls back when the nearest city is
  absent.
- Feed rows for unknown cities are kept in `allData`; they are only left out
  of the drop-down.
- A successful payload whose `data` is empty or missing replaces `allData`
  with `[]`; there is no separate "empty response" error.
- The space between the two advice fragments belongs to the temperature
  fragment.
- The big temperature is not parsed: it is the raw `maxTemp` text (or `--`)
  with its first `°C` removed and `°C` appended.
- A literal zero maximum temperature reads as "warm", as does an unreadable
  one, because `parseInt(maxT) || 999` treats 0 like NaN.

## Model

| member | source | states |
|---|---|---|
| JsText.Or | script.js:142-146 | `x \|\| d` on an optional string: an absent or empty field gives `d`, any other gives its own (non-empty) text |
| JsText.IndexOf | script.js:116-121 | the result is an occurrence of the pattern and no earlier index is one; no result means no index is an occurrence |
| JsText.ContainsIff | script.js:116-121 | `includes` holds exactly when the pattern occurs at some index |
| JsText.ContainsInfix | script.js:117 | every occurrence of a keyword also yields an occurrence of each contiguous part of it |
| JsText.RemoveFirstAfter | script.js:149 | `replace` with a string pattern removes exactly the first occurrence: `u + pat + v` becomes `u + v` when `u` holds none, for a non-empty pattern whose first character does not recur in it (true of `°C`) |
| JsText.BeforeFirstSpace | script.js:177 | `split(' ')[0]` is a prefix without spaces that stops at the first space or at the end |
| JsText.TrimStartSpec | script.js:157 | parseInt's trimming removes only ECMAScript white space and stops at the first other character |
| JsText.LeadingDigitsSpec | script.js:157 | the digit run parseInt reads is the longest prefix of digits of the radix |
| JsText.ParseIntSkipsSpace | script.js:157-163 | parseInt gives the same result when ECMAScript white space is put in front of its argument |
| JsText.ParseIntNeedsDigit | script.js:157-163 | parseInt gives NaN for any text holding no decimal digit 0-9 (e.g. `--`, `°C`, `abc`) |
| JsText.ParseIntShow | script.js:157-163 | parseInt reads back the decimal rendering of every integer, also when a unit such as `°C` follows |
| Icons.WeatherToIcon | script.js:114-123 | the result is always one of the seven glyphs |
| Icons.GlyphInjective | script.js:116-122 | the seven glyphs are pairwise different |
| Icons.WeatherToIconDefaulted | script.js:115 | defaulting a missing description to "" first does not change the icon |
| Icons.FirstFiring | script.js:115-122 | the index returned is a rule that fires and no earlier rule fires; none means no rule fires |
| Icons.WeatherToIconIsFirstMatch | script.js:115-122 | the if-chain equals the first-match evaluation of the ordered rule table (fog when nothing matches) |
| Icons.RainVariantsRedundant | script.js:117 | the `陣雨` and `短暫雨` tests add nothing to `includes('雨')` |
| Icons.RainBeforeThunder | script.js:117-120 | a description with both rain and thunder keywords (and no sun keyword) shows rain, not thunder |
| Icons.MissingDescriptionIsFog | script.js:115-122 | an absent or empty description shows fog |
| Advice.RainAdvice | script.js:156-160 | full rain gear exactly when the parsed rain is at least 60, light gear exactly when in [30, 60), stable exactly when NaN or below 30 |
| Advice.TempAdvice | script.js:162-166 | a coat exactly when the parsed maximum is non-zero and at most 15, a light jacket exactly when in (15, 20], warm exactly when NaN, zero or above 20 |
| Advice.AdviceText | script.js:155-168 | the advice is one rain fragment followed by one temperature fragment |
| Advice.AdviceOpening | script.js:156-160 | the advice opens with full rain gear exactly when the rain reading is at least 60, with light rain gear exactly when it is in [30, 60), with stable weather exactly when it is NaN or below 30 |
| Advice.AdviceDecomposes | script.js:156-168 | the advice is one rain fragment followed by one temperature fragment, the split is unique, and the second fragment starts with a space |
| Advice.ZeroOrUnreadableTemperatureIsWarm | script.js:163-166 | a maximum reading as zero, above 20, or the placeholder `--` yields the warm fragment |
| Advice.AdviceDryAndWarm | script.js:156-168 | rain "10" with maximum "32°C" gives the stable-weather and warm fragments |
| Advice.AdviceWetAndCold | script.js:156-168 | rain "75" with maximum "12°C" gives the rain-gear and add-a-coat fragments |
| Regions.CityNamesDistinct | script.js:12-35 | the 22 keys are pairwise different |
| Regions.FilterPresent | script.js:90 | the filter keeps a subsequence of the keys, holding exactly the keys present, without duplicates when the keys have none |
| Regions.OrderedCities | script.js:87-92 | the options are a duplicate-free subsequence of the declaration order holding exactly the declared cities that occur in the feed |
| Regions.SubsequenceBySet | script.js:90 | a duplicate-free subsequence of the declaration order is determined by its set of cities, so the option list is the only such list |
| Regions.FirstNearestUnique | script.js:97-109 | at most one entry is the first of the nearest |
| Regions.PickNearestCity | script.js:97-109 | returns the name of an entry whose distance is at most every entry's and strictly below every earlier entry's |
| Regions.GeoTarget | script.js:201-203 | nothing for an empty feed; otherwise a feed city: the nearest if present, else 臺北市 if present, else the first |
| Regions.FallbackTarget | script.js:208 | 臺北市 if present, else the feed's first city, else undefined; each of the three cases is stated, and any result is a feed city |
| Regions.GeoTargetFallsBack | script.js:201-212 | when the nearest city is not in the feed, the located path chooses what the refused path chooses |
| Presentation.TempBig | script.js:149 | the big temperature always ends in `°C`, and a value without the unit just gets it appended |
| Presentation.TempBigFirstUnit | script.js:149 | only the first `°C` is removed before `°C` is appended again |
| Presentation.TempBigMissing | script.js:143-149 | the placeholder `--` shows as `--°C` |
| Presentation.AdviceMissing | script.js:145-166 | placeholders for rain and maximum give the stable-weather and warm fragments |
| Presentation.Current | script.js:140-168 | field by field from the first block: icon of its description, big temperature from its maximum, range `min — max`, rain (`--` when absent or empty), comfort ("" when absent), wind (`—` when absent), and the advice of its rain and maximum; rain and wind are never blank |
| Presentation.CurrentReadsFirstBlock | script.js:141 | the summary depends on the first block only |
| Presentation.CardOf | script.js:175-181 | the date label is `startTime` up to its first space ("" when absent); the icon is that of the block's description; every other field is the block's own text, or `—` when absent or empty |
| Presentation.CardsFirstThree | script.js:172 | cards are made from the first min(3, n) blocks only; blocks after the third never change them |
| Presentation.Project | script.js:134-183 | the view names the row's city and its update time ("" when absent), its current summary is `Current` of the row's blocks (every field stated there), it has one card per block for the first min(3, n) blocks, fog and no cards for a row without blocks, and the big icon equal to the first card's icon |
| Presentation.ProjectNoForecasts | script.js:140-153 | with no blocks: fog icon, `--°C`, `-- — --`, rain `--`, wind `—`, stable-and-warm advice, no cards |
| Presentation.CurrentIconIsFirstCardIcon | script.js:148 | the big icon equals the first card's icon |
| Presentation.ProjectReadsFirstThree | script.js:172 | rows agreeing on city, update time and first three blocks render identically |
| Presentation.FindIndex | script.js:129 | the first row with that city, or none when no row has it |
| Presentation.Render | script.js:128-135 | a view exactly when some row has the city, and then it is the projection of the first such row; otherwise the city name (`undefined` when there is none) followed by `（無資料）` |
| Dashboard.Dashboard.constructor | script.js:53-54 | no rows and no current city at start |
| Dashboard.Dashboard.FetchWeather | script.js:71-84 | rows replaced by `data \|\| []` only on an ok, successful response, otherwise kept; options refilled exactly then |
| Dashboard.Dashboard.RenderCity | script.js:128-135 | shows `Render(allData, city)`; the current city changes only when a row was found |
| Dashboard.Dashboard.Refresh | script.js:222-230 | fetch, then re-render the old current city exactly when it is truthy; a current city still in the feed is shown again; the current city never changes; the refilled options are the declared cities present in the new rows, in declaration order |
| Dashboard.Dashboard.Init | script.js:192-215 | refused or missing geolocation renders the fallback target; a located user with a non-empty feed is shown the geolocated target of the first nearest entry, and nothing with an empty feed; the current city becomes the shown city, and is kept when nothing or the no-data line is shown; the refilled options are the declared cities present in the new rows, in declaration order |

## Left out

- The haversine formula and `deg2rad` (script.js:59-66) are floating-point trigonometry; `PickNearestCity` takes the distance as a parameter, a total real-valued function.
- Regions.PickNearestCity: NaN distances are not modelled (the distance is a total real-valued function); the source skips an entry whose distance is NaN, because `d < bestDist` is false, and returns `null` only when every distance is NaN (e.g. NaN user coordinates). `bestDist = Infinity` is modelled as "no best yet".
- Dashboard.Dashboard.FetchWeather: `allData` is replaced (script.js:77) before `populateCitySelect` runs (script.js:78); if that throws (for instance on non-array `data` or a `null` row), the new rows stay while the catch alerts, an outcome `Response` cannot express.
- The network request, `res.json()`, `alert` and `console.error` (script.js:71-84) are I/O; the outcome of the fetch is the `Response` parameter.
- The DOM: element lookups, `textContent`/`innerHTML` writes, the option HTML of the drop-down (modelled as the list of option values), `citySelect.value` and the button's disabled state and label.
- The unused `start` variable of the card code (script.js:175) has no visible effect.
- Geolocation callbacks, the 7-second timeout and the async ordering of `init` are environment and asynchrony; the result of the request is the `Geolocation` parameter.
- `toLowerCase` in `weatherToIcon` is treated as the identity: it does not change the CJK keywords.
- JsText.ParseInt: values are exact integers; JavaScript turns very long digit runs into rounded doubles, which does not change which tier a value falls in.
- Strings are sequences of Unicode scalar values, not UTF-16 code units; every character the rules inspect is in the Basic Multilingual Plane, so the two agree.
- Feed fields are modelled as optional strings; a numeric JSON value, a row without `city` or a `null` forecast block is not modelled.
