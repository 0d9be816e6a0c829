/** CITY_COORDS and the rules built on it: the order of the city drop-down
    (populateCitySelect), the nearest-city search (pickNearestCity) and the
    choice of the city shown first (init). */
module Regions {
  import opened Wrappers

  /** One entry of CITY_COORDS: a city and its approximate centre. */
  datatype Centroid = Centroid(name: string, lat: real, lon: real)

  /** The 22 cities and counties, in declaration order (which is also the
      order `for ... in` visits them). */
  const CityCoords: seq<Centroid> := [
    Centroid("基隆市", 25.128, 121.739),
    Centroid("臺北市", 25.033, 121.565),
    Centroid("新北市", 25.016, 121.462),
    Centroid("桃園市", 24.993, 121.300),
    Centroid("新竹市", 24.803, 120.967),
    Centroid("新竹縣", 24.838, 121.028),
    Centroid("苗栗縣", 24.559, 120.822),
    Centroid("臺中市", 24.147, 120.673),
    Centroid("彰化縣", 24.055, 120.538),
    Centroid("南投縣", 23.838, 120.987),
    Centroid("雲林縣", 23.707, 120.389),
    Centroid("嘉義市", 23.480, 120.449),
    Centroid("嘉義縣", 23.460, 120.241),
    Centroid("臺南市", 23.000, 120.227),
    Centroid("高雄市", 22.627, 120.301),
    Centroid("屏東縣", 22.676, 120.487),
    Centroid("宜蘭縣", 24.702, 121.737),
    Centroid("花蓮縣", 23.976, 121.604),
    Centroid("臺東縣", 22.757, 121.144),
    Centroid("澎湖縣", 23.566, 119.583),
    Centroid("金門縣", 24.432, 118.318),
    Centroid("連江縣", 26.159, 119.941)
  ]

  const Taipei := "臺北市"

  /** `Object.keys(CITY_COORDS)`. */
  function CityNames(): (r: seq<string>)
    ensures |r| == |CityCoords|
    ensures forall i :: 0 <= i < |r| ==> r[i] == CityCoords[i].name
  {
    seq(|CityCoords|, i requires 0 <= i < |CityCoords| => CityCoords[i].name)
  }

  predicate Distinct<T(==)>(s: seq<T>) {
    forall i, j :: 0 <= i < j < |s| ==> s[i] != s[j]
  }

  /** Entries `lo..hi` and `lo'..hi'` of CITY_COORDS have different names. */
  ghost predicate NamesDifferIn(lo: nat, hi: nat, lo': nat, hi': nat) {
    forall i, j :: lo <= i < hi && lo' <= j < hi' && i < j && j < |CityCoords| ==>
      CityCoords[i].name != CityCoords[j].name
  }

  lemma NamesDifferFirstHalf() ensures NamesDifferIn(0, 11, 0, 11) { }
  lemma NamesDifferSecondHalf() ensures NamesDifferIn(11, 22, 11, 22) { }
  lemma NamesDifferAcross() ensures NamesDifferIn(0, 11, 11, 22) { }

  /** The keys of CITY_COORDS are pairwise different. */
  lemma CityNamesDistinct()
    ensures Distinct(CityNames())
  {
    NamesDifferFirstHalf();
    NamesDifferSecondHalf();
    NamesDifferAcross();
  }

  // ---------------------------------------------------------------------
  // populateCitySelect
  // ---------------------------------------------------------------------

  /** `a` can be obtained from `b` by deleting elements. */
  predicate IsSubsequence<T(==)>(a: seq<T>, b: seq<T>)
    decreases |b|
  {
    a == [] || (b != [] && ((a[0] == b[0] && IsSubsequence(a[1..], b[1..])) || IsSubsequence(a, b[1..])))
  }

  /** `keys.filter(c => present.includes(c))`. */
  function FilterPresent(keys: seq<string>, present: seq<string>): (r: seq<string>)
    ensures IsSubsequence(r, keys)
    ensures forall c :: c in r <==> c in keys && c in present
    ensures Distinct(keys) ==> Distinct(r)
  {
    if keys == [] then []
    else if keys[0] in present then [keys[0]] + FilterPresent(keys[1..], present)
    else FilterPresent(keys[1..], present)
  }

  /** The drop-down's options: CITY_COORDS order, restricted to the cities
      that occur in the feed. */
  function OrderedCities(feedCities: seq<string>): (r: seq<string>)
    ensures IsSubsequence(r, CityNames())
    ensures forall c :: c in r <==> c in CityNames() && c in feedCities
    ensures Distinct(r)
  {
    CityNamesDistinct();
    FilterPresent(CityNames(), feedCities)
  }

  /** The option list is determined by its set: any duplicate-free
      subsequence of the declaration order holding exactly the same cities
      is this list. */
  lemma {:induction false} SubsequenceBySet(a: seq<string>, b: seq<string>, keys: seq<string>)
    requires Distinct(keys)
    requires IsSubsequence(a, keys) && IsSubsequence(b, keys)
    requires forall c :: c in a <==> c in b
    ensures a == b
    decreases |keys|
  {
    assert a != [] ==> a[0] in b;
    assert b != [] ==> b[0] in a;
    if a != [] && b != [] {
      SubsequenceElements(a, keys);
      SubsequenceElements(b, keys);
      if a[0] == keys[0] && b[0] == keys[0] {
        assert IsSubsequence(a[1..], keys[1..]) by { SubsequenceHead(a, keys); }
        assert IsSubsequence(b[1..], keys[1..]) by { SubsequenceHead(b, keys); }
        DistinctTail(keys);
        SubsequenceNotIn(a[1..], keys[1..], keys[0]);
        SubsequenceNotIn(b[1..], keys[1..], keys[0]);
        forall c ensures c in a[1..] <==> c in b[1..] {
          assert c in a <==> c == a[0] || c in a[1..];
          assert c in b <==> c == b[0] || c in b[1..];
        }
        SubsequenceBySet(a[1..], b[1..], keys[1..]);
      } else if a[0] == keys[0] {
        assert keys[0] in b;
        SubsequenceSkipHead(b, keys);
        assert false;
      } else if b[0] == keys[0] {
        assert keys[0] in a;
        SubsequenceSkipHead(a, keys);
        assert false;
      } else {
        SubsequenceSkipHead(a, keys);
        SubsequenceSkipHead(b, keys);
        DistinctTail(keys);
        SubsequenceBySet(a, b, keys[1..]);
      }
    }
  }

  lemma DistinctTail<T>(s: seq<T>)
    requires s != [] && Distinct(s)
    ensures Distinct(s[1..]) && s[0] !in s[1..]
  {
  }

  lemma {:induction false} SubsequenceElements<T>(a: seq<T>, b: seq<T>)
    requires IsSubsequence(a, b)
    ensures forall x :: x in a ==> x in b
    decreases |b|
  {
    if a != [] {
      assert forall x :: x in b[1..] ==> x in b;
      assert forall x :: x in a ==> x == a[0] || x in a[1..];
      if a[0] == b[0] && IsSubsequence(a[1..], b[1..]) {
        SubsequenceElements(a[1..], b[1..]);
      } else {
        SubsequenceElements(a, b[1..]);
      }
    }
  }

  lemma SubsequenceNotIn<T>(a: seq<T>, b: seq<T>, x: T)
    requires IsSubsequence(a, b) && x !in b
    ensures x !in a
  {
    SubsequenceElements(a, b);
  }

  /** In a duplicate-free `b`, a subsequence that starts with `b[0]` keeps
      going in `b[1..]`. */
  lemma SubsequenceHead<T>(a: seq<T>, b: seq<T>)
    requires Distinct(b) && a != [] && IsSubsequence(a, b) && a[0] == b[0]
    ensures IsSubsequence(a[1..], b[1..])
  {
    if !IsSubsequence(a[1..], b[1..]) {
      assert IsSubsequence(a, b[1..]);
      SubsequenceElements(a, b[1..]);
      DistinctTail(b);
      assert false;
    }
  }

  /** In a duplicate-free `b`, a subsequence that does not start with `b[0]`
      never uses it. */
  lemma SubsequenceSkipHead<T>(a: seq<T>, b: seq<T>)
    requires Distinct(b) && a != [] && IsSubsequence(a, b) && a[0] != b[0]
    ensures IsSubsequence(a, b[1..]) && b[0] !in a
  {
    DistinctTail(b);
    SubsequenceNotIn(a, b[1..], b[0]);
  }

  // ---------------------------------------------------------------------
  // pickNearestCity
  // ---------------------------------------------------------------------

  /** Distance from the point to entry `k` of CITY_COORDS, under the given
      distance function (the haversine formula in the source). */
  function DistTo(lat: real, lon: real, dist: (real, real, real, real) -> real, k: nat): real
    requires k < |CityCoords|
  {
    dist(lat, lon, CityCoords[k].lat, CityCoords[k].lon)
  }

  /** Entry `k` is at least as close as every entry, and strictly closer
      than every entry before it: the first of the nearest. */
  ghost predicate FirstNearest(lat: real, lon: real, dist: (real, real, real, real) -> real, k: nat) {
    k < |CityCoords| &&
    (forall j :: 0 <= j < |CityCoords| ==> DistTo(lat, lon, dist, k) <= DistTo(lat, lon, dist, j)) &&
    (forall j :: 0 <= j < k ==> DistTo(lat, lon, dist, j) > DistTo(lat, lon, dist, k))
  }

  /** At most one entry is the first of the nearest. */
  lemma FirstNearestUnique(lat: real, lon: real, dist: (real, real, real, real) -> real, k1: nat, k2: nat)
    requires FirstNearest(lat, lon, dist, k1) && FirstNearest(lat, lon, dist, k2)
    ensures k1 == k2
  {
    // both are nearest, so they are equally near; neither can then come first
    assert DistTo(lat, lon, dist, k1) == DistTo(lat, lon, dist, k2);
  }

  /** `pickNearestCity(lat, lon)`: the running best is replaced only on a
      strictly smaller distance, so among equally near cities the first in
      declaration order wins. All 22 cities are searched. */
  method PickNearestCity(lat: real, lon: real, dist: (real, real, real, real) -> real) returns (best: string)
    ensures exists k: nat :: FirstNearest(lat, lon, dist, k) && CityCoords[k].name == best
    ensures best in CityNames()
  {
    var found: Option<string> := None;   // `best = null`, `bestDist = Infinity`
    var bestDist: real := 0.0;
    ghost var bestIdx: nat := 0;
    var i := 0;
    while i < |CityCoords|
      invariant 0 <= i <= |CityCoords|
      invariant found.None? <==> i == 0
      invariant found.Some? ==> bestIdx < i && found.value == CityCoords[bestIdx].name
      invariant found.Some? ==> bestDist == DistTo(lat, lon, dist, bestIdx)
      invariant found.Some? ==> forall j :: 0 <= j < i ==> bestDist <= DistTo(lat, lon, dist, j)
      invariant found.Some? ==> forall j :: 0 <= j < bestIdx ==> DistTo(lat, lon, dist, j) > bestDist
    {
      var c := CityCoords[i];
      var d := dist(lat, lon, c.lat, c.lon);
      if found.None? || d < bestDist {
        bestDist := d;
        found := Some(c.name);
        bestIdx := i;
      }
      i := i + 1;
    }
    best := found.value;
    assert FirstNearest(lat, lon, dist, bestIdx);
  }

  // ---------------------------------------------------------------------
  // Which city init shows
  // ---------------------------------------------------------------------

  /** After a successful geolocation: nothing when the feed is empty;
      otherwise the nearest city if the feed has it, else 臺北市 if the feed
      has it, else the feed's first city. */
  function GeoTarget(nearest: string, avail: seq<string>): (r: Option<string>)
    ensures r.Some? <==> |avail| > 0
    ensures r.Some? ==> r.value in avail
    ensures nearest in avail ==> r == Some(nearest)
    ensures nearest !in avail && Taipei in avail ==> r == Some(Taipei)
    ensures nearest !in avail && Taipei !in avail && |avail| > 0 ==> r == Some(avail[0])
  {
    if |avail| == 0 then None
    else if nearest in avail then Some(nearest)
    else if Taipei in avail then Some(Taipei)
    else Some(avail[0])
  }

  /** When geolocation is refused, fails or is missing: 臺北市 if the feed
      has it, else the feed's first city, else `undefined` (None). */
  function FallbackTarget(avail: seq<string>): (r: Option<string>)
    ensures r.Some? <==> |avail| > 0
    ensures r.Some? ==> r.value in avail
    ensures Taipei in avail ==> r == Some(Taipei)
    ensures Taipei !in avail && |avail| > 0 ==> r == Some(avail[0])
  {
    if Taipei in avail then Some(Taipei)
    else if |avail| > 0 then Some(avail[0])
    else None
  }

  /** The two rules agree whenever the nearest city is not in the feed: the
      geolocated path then falls back exactly like the refused path. */
  lemma GeoTargetFallsBack(nearest: string, avail: seq<string>)
    requires nearest !in avail
    ensures GeoTarget(nearest, avail) == FallbackTarget(avail)
  {
  }
}
