/** The small part of JavaScript's string and number semantics the dashboard
    relies on: `||` on optional strings, `String.prototype.indexOf` /
    `includes` / `replace` with a string pattern, `split(' ')[0]`, and the
    global `parseInt` with no radix argument (ECMAScript, section 19.2.5,
    "parseInt ( string, radix )"). */
module JsText {
  import opened Wrappers

  // ---------------------------------------------------------------------
  // Truthiness of optional string fields
  // ---------------------------------------------------------------------

  /** A field that is absent (`undefined`) or the empty string is falsy. */
  predicate Falsy(o: Option<string>) {
    o.None? || o.value == ""
  }

  /** `o || d` for an optional string field. */
  function Or(o: Option<string>, d: string): (r: string)
    ensures Falsy(o) ==> r == d
    ensures !Falsy(o) ==> r == o.value && r != ""
  {
    if Falsy(o) then d else o.value
  }

  // ---------------------------------------------------------------------
  // Substring search
  // ---------------------------------------------------------------------

  /** `pat` occurs in `s` starting at index `j`. */
  predicate OccursAt(s: string, pat: string, j: int) {
    0 <= j && j + |pat| <= |s| && s[j..j + |pat|] == pat
  }

  /** Occurrences in `s[1..]` are the occurrences in `s` shifted by one. */
  lemma OccursAtTail(s: string, pat: string)
    requires |s| > 0
    ensures forall j :: 1 <= j ==> (OccursAt(s, pat, j) <==> OccursAt(s[1..], pat, j - 1))
  {
    forall j | 1 <= j
      ensures OccursAt(s, pat, j) <==> OccursAt(s[1..], pat, j - 1)
    {
      if j + |pat| <= |s| {
        var a, b := s[j..j + |pat|], s[1..][j - 1..j - 1 + |pat|];
        assert |a| == |b| && forall k :: 0 <= k < |a| ==> a[k] == s[j + k] == b[k];
        assert a == b;
      }
    }
  }

  /** `s.indexOf(pat)`: the first index at which `pat` occurs, `None` for -1. */
  function IndexOf(s: string, pat: string): (r: Option<nat>)
    ensures r.Some? ==> OccursAt(s, pat, r.value)
    ensures r.Some? ==> forall j :: 0 <= j < r.value ==> !OccursAt(s, pat, j)
    ensures r.None? ==> forall j :: 0 <= j <= |s| ==> !OccursAt(s, pat, j)
    decreases |s|
  {
    if pat <= s then Some(0)
    else if |s| == 0 then None
    else
      OccursAtTail(s, pat);
      match IndexOf(s[1..], pat)
      case None => None
      case Some(i) => Some(i + 1)
  }

  /** `s.includes(pat)`. */
  predicate Contains(s: string, pat: string) {
    IndexOf(s, pat).Some?
  }

  /** `s.replace(pat, '')` with a string pattern: only the first occurrence
      is removed. */
  function RemoveFirst(s: string, pat: string): string {
    match IndexOf(s, pat)
    case None => s
    case Some(i) => s[..i] + s[i + |pat|..]
  }

  /** An occurrence found at index `j` means `includes` is true. */
  lemma OccursAtContains(s: string, pat: string, j: int)
    requires OccursAt(s, pat, j)
    ensures Contains(s, pat)
  {
  }

  /** `Contains` holds exactly when some index is an occurrence. */
  lemma ContainsIff(s: string, pat: string)
    ensures Contains(s, pat) <==> exists j :: OccursAt(s, pat, j)
  {
    if Contains(s, pat) {
      assert OccursAt(s, pat, IndexOf(s, pat).value);
    }
  }

  /** Every occurrence of `outer` brings an occurrence of each of its
      contiguous parts. */
  lemma ContainsInfix(s: string, outer: string, pre: string, inner: string)
    requires pre + inner <= outer
    requires Contains(s, outer)
    ensures Contains(s, inner)
  {
    var i := IndexOf(s, outer).value;
    var j := i + |pre|;
    assert s[j..j + |inner|] == outer[|pre|..|pre| + |inner|];
    assert outer[|pre|..|pre| + |inner|] == (pre + inner)[|pre|..];
    OccursAtContains(s, inner, j);
  }

  /** When `u` holds no occurrence of `pat` and the first character of `pat`
      does not occur again inside it, removing the first occurrence from
      `u + pat + v` leaves exactly `u + v`. */
  lemma RemoveFirstAfter(u: string, pat: string, v: string)
    requires |pat| > 0
    requires !Contains(u, pat)
    requires forall k :: 0 < k < |pat| ==> pat[k] != pat[0]
    ensures RemoveFirst(u + pat + v, pat) == u + v
  {
    var s := u + pat + v;
    assert OccursAt(s, pat, |u|) by { assert s[|u|..|u| + |pat|] == pat; }
    forall j | 0 <= j < |u|
      ensures !OccursAt(s, pat, j)
    {
      if j + |pat| <= |u| {
        assert !OccursAt(u, pat, j);
        assert u[j..j + |pat|] == s[j..j + |pat|];
      } else {
        var k := |u| - j;
        assert s[j + k] == pat[0] != pat[k];
        assert j + |pat| > |s| || s[j..j + |pat|][k] != pat[k];
      }
    }
    var i := IndexOf(s, pat).value;
    assert i == |u|;
    assert s[..i] == u;
    assert s[i + |pat|..] == v;
  }

  // ---------------------------------------------------------------------
  // split(' ')[0]
  // ---------------------------------------------------------------------

  /** `s.split(' ')[0]`: the part of `s` before its first space (all of `s`
      when it has none). */
  function BeforeFirstSpace(s: string): (r: string)
    ensures r <= s
    ensures ' ' !in r
    ensures |r| < |s| ==> s[|r|] == ' '
  {
    if |s| == 0 || s[0] == ' ' then ""
    else [s[0]] + BeforeFirstSpace(s[1..])
  }

  // ---------------------------------------------------------------------
  // parseInt
  // ---------------------------------------------------------------------

  /** ECMAScript WhiteSpace and LineTerminator code points, which parseInt
      strips from the front of its argument. */
  predicate IsJsSpace(c: char) {
    // TAB, VT, FF, SP, NBSP, ZWNBSP
    c == '\U{9}' || c == '\U{B}' || c == '\U{C}' || c == ' ' || c == '\U{A0}' || c == '\U{FEFF}' ||
    // the other Unicode "Space_Separator" code points
    c == '\U{1680}' || ('\U{2000}' <= c <= '\U{200A}') || c == '\U{202F}' || c == '\U{205F}' || c == '\U{3000}' ||
    // LF, CR, LINE SEPARATOR, PARAGRAPH SEPARATOR
    c == '\U{A}' || c == '\U{D}' || c == '\U{2028}' || c == '\U{2029}'
  }

  /** The argument with leading white space removed. */
  function TrimStart(s: string): string {
    if |s| > 0 && IsJsSpace(s[0]) then TrimStart(s[1..]) else s
  }

  /** Trimming removes a prefix made only of white space and stops at the
      first other character. */
  lemma {:induction false} TrimStartSpec(s: string)
    ensures |TrimStart(s)| <= |s| && TrimStart(s) == s[|s| - |TrimStart(s)|..]
    ensures forall k :: 0 <= k < |s| - |TrimStart(s)| ==> IsJsSpace(s[k])
    ensures TrimStart(s) == [] || !IsJsSpace(TrimStart(s)[0])
  {
    if |s| > 0 && IsJsSpace(s[0]) {
      TrimStartSpec(s[1..]);
    }
  }

  /** Value of a digit character in base `radix` (10 or 16). */
  function DigitValue(c: char, radix: nat): Option<nat> {
    if '0' <= c <= '9' then Some(c as nat - '0' as nat)
    else if radix == 16 && 'a' <= c <= 'f' then Some(c as nat - 'a' as nat + 10)
    else if radix == 16 && 'A' <= c <= 'F' then Some(c as nat - 'A' as nat + 10)
    else None
  }

  predicate IsDigit(c: char, radix: nat) {
    DigitValue(c, radix).Some?
  }

  predicate AllDigits(ds: string, radix: nat) {
    forall k :: 0 <= k < |ds| ==> IsDigit(ds[k], radix)
  }

  /** The longest prefix of `s` made of base-`radix` digits. */
  function LeadingDigits(s: string, radix: nat): string {
    if |s| > 0 && IsDigit(s[0], radix) then [s[0]] + LeadingDigits(s[1..], radix)
    else ""
  }

  /** The digit run is a prefix of digits that cannot be extended. */
  lemma {:induction false} LeadingDigitsSpec(s: string, radix: nat)
    ensures LeadingDigits(s, radix) <= s && AllDigits(LeadingDigits(s, radix), radix)
    ensures |LeadingDigits(s, radix)| < |s| ==> !IsDigit(s[|LeadingDigits(s, radix)|], radix)
  {
    if |s| > 0 && IsDigit(s[0], radix) {
      LeadingDigitsSpec(s[1..], radix);
    }
  }

  /** The number a digit string denotes in base `radix`. */
  function DigitsValue(ds: string, radix: nat): nat {
    if ds == [] then 0
    else DigitsValue(ds[..|ds| - 1], radix) * radix + DigitValue(ds[|ds| - 1], radix).GetOr(0)
  }

  /** The unsigned part of parseInt: an optional "0x"/"0X" prefix selects
      base 16, then the longest run of digits is read; no digit gives NaN. */
  function ParseMagnitude(u: string): Option<nat> {
    var hex := |u| >= 2 && u[0] == '0' && (u[1] == 'x' || u[1] == 'X');
    var radix := if hex then 16 else 10;
    var z := LeadingDigits(if hex then u[2..] else u, radix);
    if z == [] then None else Some(DigitsValue(z, radix))
  }

  /** `parseInt(s)`: `None` stands for NaN. Both +0 and -0 become 0, which
      JavaScript treats alike under `||`. */
  function ParseInt(s: string): Option<int> {
    var t := TrimStart(s);
    if |t| > 0 && t[0] == '-' then
      match ParseMagnitude(t[1..])
      case None => None
      case Some(m) => Some(-(m as int))
    else if |t| > 0 && t[0] == '+' then
      match ParseMagnitude(t[1..])
      case None => None
      case Some(m) => Some(m)
    else ParseMagnitude(t)
  }

  /** Leading white space is skipped entirely. */
  lemma {:induction false} TrimStartSkips(w: string, s: string)
    requires forall k :: 0 <= k < |w| ==> IsJsSpace(w[k])
    ensures TrimStart(w + s) == TrimStart(s)
  {
    if w != [] {
      assert (w + s)[0] == w[0];
      assert (w + s)[1..] == w[1..] + s;
      TrimStartSkips(w[1..], s);
    } else {
      assert w + s == s;
    }
  }

  /** parseInt ignores leading white space. */
  lemma ParseIntSkipsSpace(w: string, s: string)
    requires forall k :: 0 <= k < |w| ==> IsJsSpace(w[k])
    ensures ParseInt(w + s) == ParseInt(s)
  {
    TrimStartSkips(w, s);
  }

  /** The unsigned part reads a number only when its text holds a decimal
      digit: the "0" of a "0x" prefix, or the first digit of the run. */
  lemma MagnitudeNeedsDigit(u: string)
    ensures ParseMagnitude(u).Some? ==> exists k :: 0 <= k < |u| && IsDigit(u[k], 10)
  {
    var hex := |u| >= 2 && u[0] == '0' && (u[1] == 'x' || u[1] == 'X');
    if hex {
      assert IsDigit(u[0], 10);
    } else {
      LeadingDigitsSpec(u, 10);
      if LeadingDigits(u, 10) != [] {
        assert u[0] == LeadingDigits(u, 10)[0] && IsDigit(u[0], 10);
      }
    }
  }

  /** parseInt gives NaN for text without any decimal digit. */
  lemma ParseIntNeedsDigit(s: string)
    ensures ParseInt(s).Some? ==> exists k :: 0 <= k < |s| && IsDigit(s[k], 10)
  {
    var t := TrimStart(s);
    TrimStartSpec(s);
    var off := |s| - |t|;
    if |t| > 0 && (t[0] == '-' || t[0] == '+') {
      MagnitudeNeedsDigit(t[1..]);
      if ParseMagnitude(t[1..]).Some? {
        var k :| 0 <= k < |t[1..]| && IsDigit(t[1..][k], 10);
        assert s[off + 1 + k] == t[1..][k];
      }
    } else {
      MagnitudeNeedsDigit(t);
      if ParseMagnitude(t).Some? {
        var k :| 0 <= k < |t| && IsDigit(t[k], 10);
        assert s[off + k] == t[k];
      }
    }
  }

  /** `parseInt(s) || d`: NaN and zero both give `d`. */
  function ParseIntOr(s: string, d: int): (r: int)
    ensures ParseInt(s).None? ==> r == d
    ensures ParseInt(s).Some? ==> r == (if ParseInt(s).value == 0 then d else ParseInt(s).value)
  {
    match ParseInt(s)
    case None => d
    case Some(n) => if n == 0 then d else n
  }

  // ---------------------------------------------------------------------
  // Decimal rendering, whose output parseInt reads back
  // ---------------------------------------------------------------------

  function DecimalDigit(d: nat): char
    requires d < 10
  {
    ('0' as nat + d) as char
  }

  /** Decimal representation of a natural number, without leading zeros. */
  function ShowNat(n: nat): (r: string)
    ensures |r| > 0
  {
    if n < 10 then [DecimalDigit(n)]
    else ShowNat(n / 10) + [DecimalDigit(n % 10)]
  }

  /** Decimal representation of an integer, with a leading '-' when negative. */
  function Show(n: int): string {
    if n < 0 then "-" + ShowNat(-n) else ShowNat(n)
  }

  lemma {:induction false} ShowNatDigits(n: nat)
    ensures AllDigits(ShowNat(n), 10)
  {
    if n >= 10 {
      ShowNatDigits(n / 10);
    }
  }

  lemma {:induction false} DigitsValueShowNat(n: nat)
    ensures DigitsValue(ShowNat(n), 10) == n
  {
    if n >= 10 {
      var ds := ShowNat(n);
      assert ds[..|ds| - 1] == ShowNat(n / 10);
      DigitsValueShowNat(n / 10);
    }
  }

  lemma {:induction false} LeadingDigitsAppend(ds: string, rest: string, radix: nat)
    requires AllDigits(ds, radix)
    requires rest == [] || !IsDigit(rest[0], radix)
    ensures LeadingDigits(ds + rest, radix) == ds
  {
    if ds != [] {
      assert (ds + rest)[1..] == ds[1..] + rest;
      LeadingDigitsAppend(ds[1..], rest, radix);
    }
  }

  lemma ParseMagnitudeShowNat(m: nat, rest: string)
    requires rest == [] || (!IsDigit(rest[0], 10) && rest[0] != 'x' && rest[0] != 'X')
    ensures ParseMagnitude(ShowNat(m) + rest) == Some(m)
  {
    var ds := ShowNat(m);
    var u := ds + rest;
    ShowNatDigits(m);
    if |u| >= 2 {
      assert u[1] != 'x' && u[1] != 'X' by {
        if |ds| >= 2 { assert u[1] == ds[1]; assert IsDigit(ds[1], 10); }
        else { assert u[1] == rest[0]; }
      }
    }
    LeadingDigitsAppend(ds, rest, 10);
    DigitsValueShowNat(m);
  }

  lemma ParseIntUnsigned(u: string)
    requires |u| > 0 && IsDigit(u[0], 10)
    ensures ParseInt(u) == ParseMagnitude(u)
  {
    assert !IsJsSpace(u[0]);
    assert TrimStart(u) == u;
  }

  lemma ParseIntNegative(u: string)
    requires |u| > 0 && IsDigit(u[0], 10)
    ensures ParseMagnitude(u).Some? ==> ParseInt("-" + u) == Some(-(ParseMagnitude(u).value as int))
  {
    var s := "-" + u;
    assert !IsJsSpace(s[0]);
    assert TrimStart(s) == s;
    assert s[1..] == u;
  }

  lemma ParseIntShowNat(m: nat, rest: string)
    requires rest == [] || (!IsDigit(rest[0], 10) && rest[0] != 'x' && rest[0] != 'X')
    ensures ParseInt(ShowNat(m) + rest) == Some(m)
  {
    var u := ShowNat(m) + rest;
    ParseMagnitudeShowNat(m, rest);
    ShowNatDigits(m);
    assert u[0] == ShowNat(m)[0];
    ParseIntUnsigned(u);
  }

  lemma ParseIntShowNegative(m: nat, rest: string)
    requires rest == [] || (!IsDigit(rest[0], 10) && rest[0] != 'x' && rest[0] != 'X')
    ensures ParseInt("-" + (ShowNat(m) + rest)) == Some(-(m as int))
  {
    var u := ShowNat(m) + rest;
    ParseMagnitudeShowNat(m, rest);
    ShowNatDigits(m);
    assert u[0] == ShowNat(m)[0];
    ParseIntNegative(u);
  }

  /** parseInt reads back the decimal rendering of any integer, and stops at
      a following unit such as "°C" or "%": `parseInt("32°C") == 32`. */
  lemma ParseIntShow(n: int, rest: string)
    requires rest == [] || (!IsDigit(rest[0], 10) && rest[0] != 'x' && rest[0] != 'X')
    ensures ParseInt(Show(n) + rest) == Some(n)
  {
    if n < 0 {
      ParseIntShowNegative(-n, rest);
      assert Show(n) + rest == "-" + (ShowNat(-n) + rest);
    } else {
      ParseIntShowNat(n, rest);
    }
  }

  /** The placeholder "--" is NaN to parseInt. */
  lemma ParseIntPlaceholder()
    ensures ParseInt("--").None?
  {
    assert TrimStart("--") == "--";
    assert "--"[1..] == "-";
    assert LeadingDigits("-", 10) == "";
  }
}
