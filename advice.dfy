/** The canned advice of renderCity: a rain-probability fragment followed by a
    maximum-temperature fragment, each chosen by two fixed thresholds. */
module Advice {
  import opened Wrappers
  import opened JsText

  const StrongRainGear := "外出請攜帶雨具，路面注意溼滑。"
  const LightRainGear := "偶有短時雨，外出建議帶輕便雨具。"
  const StableWeather := "天氣穩定，適合外出活動。"

  const AddCoat := " 氣溫偏低，建議多穿一件外套。"
  const LightJacket := " 晚間或早晨稍涼，建議備件薄外套。"
  const WarmEnough := " 溫暖舒適，輕鬆外出即可。"

  const RainFragments: seq<string> := [StrongRainGear, LightRainGear, StableWeather]
  const TempFragments: seq<string> := [AddCoat, LightJacket, WarmEnough]

  /** Rain tier, on `parseInt(rain) || 0`: at least 60 asks for full rain
      gear, at least 30 for light rain gear, anything else (including NaN and
      zero) is stable weather. */
  function RainAdvice(rain: string): (r: string)
    ensures r in RainFragments
    ensures r == StrongRainGear <==> ParseInt(rain).Some? && ParseInt(rain).value >= 60
    ensures r == LightRainGear <==> ParseInt(rain).Some? && 30 <= ParseInt(rain).value < 60
    ensures r == StableWeather <==> ParseInt(rain).None? || ParseInt(rain).value < 30
  {
    var rainNum := ParseIntOr(rain, 0);
    if rainNum >= 60 then StrongRainGear
    else if rainNum >= 30 then LightRainGear
    else StableWeather
  }

  /** Temperature tier, on `parseInt(maxT) || 999`: at most 15 adds a coat,
      at most 20 a light jacket, otherwise warm. NaN and a literal zero both
      become 999 and so read as warm. */
  function TempAdvice(maxT: string): (r: string)
    ensures r in TempFragments
    ensures r == AddCoat <==> ParseInt(maxT).Some? && ParseInt(maxT).value != 0 && ParseInt(maxT).value <= 15
    ensures r == LightJacket <==> ParseInt(maxT).Some? && 15 < ParseInt(maxT).value <= 20
    ensures r == WarmEnough <==>
      ParseInt(maxT).None? || ParseInt(maxT).value == 0 || ParseInt(maxT).value > 20
  {
    var maxTempNum := ParseIntOr(maxT, 999);
    if maxTempNum <= 15 then AddCoat
    else if maxTempNum <= 20 then LightJacket
    else WarmEnough
  }

  /** The advice text: a rain fragment followed by a temperature fragment. */
  function AdviceText(rain: string, maxT: string): (r: string)
    ensures exists a, b :: a in RainFragments && b in TempFragments && r == a + b
  {
    RainAdvice(rain) + TempAdvice(maxT)
  }

  /** The advice opens with full rain gear exactly when the rain reading is
      at least 60, with light rain gear exactly when it is from 30 to 59, and
      with stable weather otherwise (NaN included). */
  lemma AdviceOpening(rain: string, maxT: string)
    ensures StrongRainGear <= AdviceText(rain, maxT) <==> ParseInt(rain).Some? && ParseInt(rain).value >= 60
    ensures LightRainGear <= AdviceText(rain, maxT) <==> ParseInt(rain).Some? && 30 <= ParseInt(rain).value < 60
    ensures StableWeather <= AdviceText(rain, maxT) <==> ParseInt(rain).None? || ParseInt(rain).value < 30
  {
    var a, b := RainAdvice(rain), TempAdvice(maxT);
    assert AdviceText(rain, maxT)[0] == a[0];
    RainFragmentsDistinctHeads();
  }

  /** Fragments of one tier are told apart by their first character. */
  lemma RainFragmentsDistinctHeads()
    ensures forall i, j :: 0 <= i < j < |RainFragments| ==> RainFragments[i][0] != RainFragments[j][0]
  {
  }

  /** The advice reads back uniquely: whenever it splits as some rain
      fragment followed by some temperature fragment, those are the two
      fragments the tiers chose. Every temperature fragment starts with a
      space. */
  lemma AdviceDecomposes(rain: string, maxT: string, a: string, b: string)
    requires a in RainFragments && b in TempFragments
    requires a + b == AdviceText(rain, maxT)
    ensures a == RainAdvice(rain) && b == TempAdvice(maxT)
    ensures b[0] == ' '
  {
    var a0 := RainAdvice(rain);
    RainFragmentsDistinctHeads();
    assert (a + b)[0] == a[0];
    assert (a0 + TempAdvice(maxT))[0] == a0[0];
    assert a[0] == a0[0];
    assert a == a0;
    assert b == (a + b)[|a|..];
    assert TempAdvice(maxT) == (a0 + TempAdvice(maxT))[|a0|..];
  }

  /** A maximum temperature that parseInt cannot read, or that reads as zero,
      yields the "warm" fragment; so does any reading above 20. */
  lemma ZeroOrUnreadableTemperatureIsWarm(n: int, rest: string)
    requires rest == [] || (!IsDigit(rest[0], 10) && rest[0] != 'x' && rest[0] != 'X')
    requires n == 0 || n > 20
    ensures TempAdvice(Show(n) + rest) == WarmEnough
    ensures TempAdvice("--") == WarmEnough
  {
    ParseIntShow(n, rest);
    ParseIntPlaceholder();
  }

  /** Rain 10% with 32°C: stable weather, warm. */
  lemma AdviceDryAndWarm()
    ensures AdviceText("10", "32°C") == StableWeather + WarmEnough
  {
    assert Show(10) + "" == "10";
    ParseIntShow(10, "");
    assert Show(32) + "°C" == "32°C";
    ParseIntShow(32, "°C");
  }

  /** Rain 75% with 12°C: full rain gear, add a coat. */
  lemma AdviceWetAndCold()
    ensures AdviceText("75", "12°C") == StrongRainGear + AddCoat
  {
    assert Show(75) + "" == "75";
    ParseIntShow(75, "");
    assert Show(12) + "°C" == "12°C";
    ParseIntShow(12, "°C");
  }
}
