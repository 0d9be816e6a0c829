/** weatherToIcon: a free-text weather description is mapped to one of seven
    glyphs by substring tests taken in a fixed priority order. */
module Icons {
  import opened Wrappers
  import opened JsText

  /** The seven categories, in the order the tests are made (Fog last, as the
      fallback). */
  datatype Icon = Sunny | Rainy | Overcast | PartlyCloudy | Thunder | Snow | Fog

  /** The glyph shown for each category (emoji followed by U+FE0F where the
      source writes one). */
  function Glyph(i: Icon): string {
    match i
    case Sunny => "\U{2600}\U{FE0F}"
    case Rainy => "\U{1F327}\U{FE0F}"
    case Overcast => "\U{2601}\U{FE0F}"
    case PartlyCloudy => "\U{26C5}"
    case Thunder => "\U{26C8}\U{FE0F}"
    case Snow => "\U{2744}\U{FE0F}"
    case Fog => "\U{1F32B}\U{FE0F}"
  }

  /** Different categories are shown with different glyphs. */
  lemma GlyphInjective(a: Icon, b: Icon)
    ensures Glyph(a) == Glyph(b) <==> a == b
  {
    if a != b {
      assert Glyph(a)[0] != Glyph(b)[0] || |Glyph(a)| != |Glyph(b)|;
    }
  }

  /** `weatherToIcon(desc)`: a missing description counts as "" (lower-casing
      leaves the CJK keywords unchanged and is left out). */
  function WeatherToIcon(desc: Option<string>): (g: string)
    ensures exists i: Icon :: g == Glyph(i)
  {
    var d := Or(desc, "");
    if Contains(d, "晴") then Glyph(Sunny)
    else if Contains(d, "雨") || Contains(d, "陣雨") || Contains(d, "短暫雨") then Glyph(Rainy)
    else if Contains(d, "陰") then Glyph(Overcast)
    else if Contains(d, "多雲") then Glyph(PartlyCloudy)
    else if Contains(d, "雷") then Glyph(Thunder)
    else if Contains(d, "雪") then Glyph(Snow)
    else Glyph(Fog)
  }

  /** Defaulting the description to "" first changes nothing. */
  lemma WeatherToIconDefaulted(desc: Option<string>)
    ensures WeatherToIcon(Some(Or(desc, ""))) == WeatherToIcon(desc)
  {
    assert Or(Some(Or(desc, "")), "") == Or(desc, "");
  }

  // ---------------------------------------------------------------------
  // The same rules as an ordered table
  // ---------------------------------------------------------------------

  /** A rule fires when the description contains any of its keywords. */
  datatype Rule = Rule(keywords: seq<string>, icon: Icon)

  const Rules: seq<Rule> := [
    Rule(["晴"], Sunny),
    Rule(["雨", "陣雨", "短暫雨"], Rainy),
    Rule(["陰"], Overcast),
    Rule(["多雲"], PartlyCloudy),
    Rule(["雷"], Thunder),
    Rule(["雪"], Snow)
  ]

  predicate Fires(d: string, rule: Rule) {
    exists k :: 0 <= k < |rule.keywords| && Contains(d, rule.keywords[k])
  }

  /** Index of the first rule that fires on `d`, if any. */
  function FirstFiring(d: string, rules: seq<Rule>): (r: Option<nat>)
    ensures r.Some? ==> r.value < |rules| && Fires(d, rules[r.value])
    ensures r.Some? ==> forall j :: 0 <= j < r.value ==> !Fires(d, rules[j])
    ensures r.None? ==> forall j :: 0 <= j < |rules| ==> !Fires(d, rules[j])
  {
    if rules == [] then None
    else if Fires(d, rules[0]) then Some(0)
    else
      match FirstFiring(d, rules[1..])
      case None => None
      case Some(k) => Some(k + 1)
  }

  /** The category the table assigns: that of the first firing rule, else Fog. */
  function Categorize(d: string): Icon {
    match FirstFiring(d, Rules)
    case None => Fog
    case Some(k) => Rules[k].icon
  }

  lemma FiresSingle(d: string, kw: string, i: Icon)
    ensures Fires(d, Rule([kw], i)) <==> Contains(d, kw)
  {
    if Contains(d, kw) { assert [kw][0] == kw; }
  }

  lemma FiresRain(d: string)
    ensures Fires(d, Rules[1]) <==> Contains(d, "雨") || Contains(d, "陣雨") || Contains(d, "短暫雨")
  {
    var kws := Rules[1].keywords;
    if Contains(d, "雨") { assert kws[0] == "雨"; }
    if Contains(d, "陣雨") { assert kws[1] == "陣雨"; }
    if Contains(d, "短暫雨") { assert kws[2] == "短暫雨"; }
  }

  /** The if-chain of weatherToIcon is the first-match evaluation of the rule
      table: the glyph is that of the first category whose keyword occurs in
      the description, and the fog glyph when none does. */
  lemma WeatherToIconIsFirstMatch(desc: Option<string>)
    ensures WeatherToIcon(desc) == Glyph(Categorize(Or(desc, "")))
  {
    var d := Or(desc, "");
    FiresSingle(d, "晴", Sunny);
    FiresRain(d);
    FiresSingle(d, "陰", Overcast);
    FiresSingle(d, "多雲", PartlyCloudy);
    FiresSingle(d, "雷", Thunder);
    FiresSingle(d, "雪", Snow);
    assert Rules[0] == Rule(["晴"], Sunny) && Rules[2] == Rule(["陰"], Overcast);
    assert Rules[3] == Rule(["多雲"], PartlyCloudy) && Rules[4] == Rule(["雷"], Thunder);
    assert Rules[5] == Rule(["雪"], Snow);
    var r := FirstFiring(d, Rules);
    if r.Some? {
      assert r.value < 6;
      assert forall j :: 0 <= j < r.value ==> !Fires(d, Rules[j]);
    } else {
      assert forall j :: 0 <= j < 6 ==> !Fires(d, Rules[j]);
    }
  }

  /** The two longer rain keywords are redundant: each contains "雨", so the
      rain test reduces to `includes('雨')`. */
  lemma RainVariantsRedundant(d: string)
    ensures Contains(d, "雨") || Contains(d, "陣雨") || Contains(d, "短暫雨") <==> Contains(d, "雨")
  {
    if Contains(d, "陣雨") { ContainsInfix(d, "陣雨", "陣", "雨"); }
    if Contains(d, "短暫雨") { ContainsInfix(d, "短暫雨", "短暫", "雨"); }
  }

  /** Rain is tested before thunder: a description with both keywords (and no
      sun keyword) is shown as rain. */
  lemma RainBeforeThunder(d: string)
    requires Contains(d, "雨") && Contains(d, "雷") && !Contains(d, "晴")
    ensures WeatherToIcon(Some(d)) == Glyph(Rainy)
    ensures WeatherToIcon(Some(d)) != Glyph(Thunder)
  {
    GlyphInjective(Rainy, Thunder);
  }

  /** An absent or empty description is shown as fog. */
  lemma MissingDescriptionIsFog()
    ensures WeatherToIcon(None) == Glyph(Fog)
    ensures WeatherToIcon(Some("")) == Glyph(Fog)
  {
    assert forall pat: string :: |pat| > 0 ==> !Contains("", pat);
  }
}
