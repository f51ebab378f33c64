/**
 * The design-token schema: closed records with fixed keys for colours,
 * spacing, typography, radii, shadows and transitions, and the validity
 * rules the token tests check (oklch colour strings, spacing on a 4px grid).
 *
 * Each record's `Entries()` lists its (key, value) pairs in the order
 * `Object.entries` yields them for an object built with its keys in the
 * interface's order: integer-like keys ascending, then the other keys in
 * property-creation order (OrdinaryOwnPropertyKeys, section 10.1.11.1 of
 * ECMA-262). The order of the non-integer keys is thus an assumption about
 * how the token object was built.
 */
module Tokens {
  import opened Text

  const ShadeKeys: seq<string> := ["50", "100", "200", "300", "400", "500", "600", "700", "800", "900", "950"]
  const RoleKeys: seq<string> := ["primary", "secondary", "success", "warning", "danger", "neutral"]
  const SpacingKeys: seq<string> := ["0", "1", "2", "3", "4", "5", "6", "8", "10", "12", "16"]
  const FontFamilyKeys: seq<string> := ["sans", "mono"]
  const FontSizeKeys: seq<string> := ["xs", "sm", "base", "lg", "xl", "2xl", "3xl"]
  const FontWeightKeys: seq<string> := ["normal", "medium", "semibold", "bold"]
  const LineHeightKeys: seq<string> := ["tight", "normal", "relaxed"]
  const RadiiKeys: seq<string> := ["none", "sm", "md", "lg", "xl", "full"]
  const ShadowKeys: seq<string> := ["sm", "md", "lg"]
  const TransitionKeys: seq<string> := ["fast", "normal", "slow"]

  /** Pairs each key with a value, in order. */
  function Zip(keys: seq<string>, values: seq<string>): (e: seq<(string, string)>)
    requires |keys| == |values|
    ensures |e| == |keys|
    ensures forall i :: 0 <= i < |e| ==> e[i] == (keys[i], values[i])
  {
    seq(|keys|, i requires 0 <= i < |keys| => (keys[i], values[i]))
  }

  /** One colour role: 11 shades, 50 the lightest and 950 the darkest. */
  datatype ColorScale = ColorScale(
    s50: string, s100: string, s200: string, s300: string, s400: string, s500: string,
    s600: string, s700: string, s800: string, s900: string, s950: string)
  {
    function Values(): seq<string> {
      [s50, s100, s200, s300, s400, s500, s600, s700, s800, s900, s950]
    }
    function Entries(): seq<(string, string)> {
      Zip(ShadeKeys, Values())
    }
  }

  /** Builds a scale from its 11 values, lightest first. */
  function ScaleOf(v: seq<string>): (s: ColorScale)
    requires |v| == 11
    ensures s.Values() == v
  {
    ColorScale(v[0], v[1], v[2], v[3], v[4], v[5], v[6], v[7], v[8], v[9], v[10])
  }

  datatype ColorTokens = ColorTokens(
    primary: ColorScale, secondary: ColorScale, success: ColorScale,
    warning: ColorScale, danger: ColorScale, neutral: ColorScale)
  {
    /** The scales in role order. */
    function Scales(): seq<ColorScale> {
      [primary, secondary, success, warning, danger, neutral]
    }
  }

  datatype SpacingTokens = SpacingTokens(
    s0: string, s1: string, s2: string, s3: string, s4: string, s5: string,
    s6: string, s8: string, s10: string, s12: string, s16: string)
  {
    function Values(): seq<string> {
      [s0, s1, s2, s3, s4, s5, s6, s8, s10, s12, s16]
    }
    function Entries(): seq<(string, string)> {
      Zip(SpacingKeys, Values())
    }
  }

  datatype FontFamilyTokens = FontFamilyTokens(sans: string, mono: string)
  {
    function Entries(): seq<(string, string)> {
      Zip(FontFamilyKeys, [sans, mono])
    }
  }

  datatype FontSizeTokens = FontSizeTokens(
    xs: string, sm: string, base: string, lg: string, xl: string, x2xl: string, x3xl: string)
  {
    function Entries(): seq<(string, string)> {
      Zip(FontSizeKeys, [xs, sm, base, lg, xl, x2xl, x3xl])
    }
  }

  datatype FontWeightTokens = FontWeightTokens(normal: string, medium: string, semibold: string, bold: string)
  {
    function Entries(): seq<(string, string)> {
      Zip(FontWeightKeys, [normal, medium, semibold, bold])
    }
  }

  datatype LineHeightTokens = LineHeightTokens(tight: string, normal: string, relaxed: string)
  {
    function Entries(): seq<(string, string)> {
      Zip(LineHeightKeys, [tight, normal, relaxed])
    }
  }

  datatype TypographyTokens = TypographyTokens(
    fontFamily: FontFamilyTokens, fontSize: FontSizeTokens,
    fontWeight: FontWeightTokens, lineHeight: LineHeightTokens)

  datatype RadiiTokens = RadiiTokens(none: string, sm: string, md: string, lg: string, xl: string, full: string)
  {
    function Entries(): seq<(string, string)> {
      Zip(RadiiKeys, [none, sm, md, lg, xl, full])
    }
  }

  datatype ShadowTokens = ShadowTokens(sm: string, md: string, lg: string)
  {
    function Entries(): seq<(string, string)> {
      Zip(ShadowKeys, [sm, md, lg])
    }
  }

  datatype TransitionTokens = TransitionTokens(fast: string, normal: string, slow: string)
  {
    function Entries(): seq<(string, string)> {
      Zip(TransitionKeys, [fast, normal, slow])
    }
  }

  /** The aggregate root: a complete token set. */
  datatype ThemeTokens = ThemeTokens(
    colors: ColorTokens, spacing: SpacingTokens, typography: TypographyTokens,
    radii: RadiiTokens, shadows: ShadowTokens, transitions: TransitionTokens)

  /** The number of leaf values of every record, in schema order. */
  lemma {:induction false} SchemaShape(t: ThemeTokens)
    ensures |t.colors.Scales()| == |RoleKeys| == 6
    ensures forall r :: 0 <= r < 6 ==> |t.colors.Scales()[r].Entries()| == 11
    ensures |t.spacing.Entries()| == 11 && |t.typography.fontFamily.Entries()| == 2
    ensures |t.typography.fontSize.Entries()| == 7 && |t.typography.fontWeight.Entries()| == 4
    ensures |t.typography.lineHeight.Entries()| == 3 && |t.radii.Entries()| == 6
    ensures |t.shadows.Entries()| == 3 && |t.transitions.Entries()| == 3
  {
  }

  /** Every scale lists exactly the keys 50 .. 950, in that order. */
  lemma ScaleKeys(s: ColorScale, i: int)
    requires 0 <= i < 11
    ensures s.Entries()[i] == (ShadeKeys[i], s.Values()[i])
  {
  }

  // ---------------------------------------------------------------------
  // Colour values: `oklch(<d>[.<d>] <d>[.<d>] <d>[.<d>])`
  // ---------------------------------------------------------------------

  /** A decimal channel as written: its digits before and after the point. */
  datatype Decimal = Decimal(whole: string, frac: string)
  {
    /** Digits on both sides; an absent fraction is an empty `frac`. */
    predicate Valid() {
      |whole| > 0 && AllDigits(whole) && AllDigits(frac)
    }

    function Show(): string {
      if frac == [] then whole else whole + "." + frac
    }

    /** The value as the fraction num / den. */
    function Num(): nat
      requires Valid()
    {
      assert AllDigits(whole + frac);
      DigitsValue(whole + frac)
    }

    function Den(): nat {
      Pow10(|frac|)
    }
  }

  function Pow10(n: nat): (p: nat)
    ensures p > 0
  {
    if n == 0 then 1 else 10 * Pow10(n - 1)
  }

  /** The three channels of an oklch colour: lightness, chroma, hue. */
  datatype Oklch = Oklch(l: Decimal, c: Decimal, h: Decimal)
  {
    predicate Valid() {
      l.Valid() && c.Valid() && h.Valid()
    }

    /** The colour written with single spaces between the channels. */
    function Show(): string {
      "oklch(" + l.Show() + " " + c.Show() + " " + h.Show() + ")"
    }
  }

  /**
   * Reads `\d+(\.\d+)?` at the start of `s`: the channel and the number of
   * characters it takes. The character classes are disjoint, so the greedy
   * reading is the only one a regular-expression match can take.
   */
  function ReadDecimal(s: string): (r: Option<(Decimal, nat)>)
    ensures r.Some? ==> r.value.0.Valid() && 0 < r.value.1 <= |s|
  {
    DigitRunDigits(s);
    var d := DigitRun(s);
    if d == 0 then None else Some(ReadFraction(s[..d], s[d..]))
  }

  /** After the whole part `w`: an optional `.` followed by at least one digit. */
  function ReadFraction(w: string, t: string): (r: (Decimal, nat))
    requires |w| > 0 && AllDigits(w)
    ensures r.0.Valid() && |w| <= r.1 <= |w| + |t|
  {
    if t != [] && t[0] == '.' && DigitRun(t[1..]) > 0 then
      DigitRunDigits(t[1..]);
      var f := DigitRun(t[1..]);
      (Decimal(w, t[1..][..f]), |w| + 1 + f)
    else (Decimal(w, ""), |w|)
  }

  /** Reads `channel \s+` and hands the rest on. */
  function ReadChannelAndSpace(s: string): (r: Option<(Decimal, string)>)
    ensures r.Some? ==> r.value.0.Valid() && |r.value.1| < |s|
  {
    match ReadDecimal(s)
    case None => None
    case Some((d, n)) =>
      var w := WhitespaceRun(s[n..]);
      if w == 0 then None else Some((d, s[n + w..]))
  }

  /**
   * The colour test's pattern `^oklch\(\d+(\.\d+)?\s+\d+(\.\d+)?\s+\d+(\.\d+)?\)$`,
   * as a parser: the channels when `s` matches, None otherwise.
   */
  function ParseOklch(s: string): (r: Option<Oklch>)
    ensures r.Some? ==> r.value.Valid()
  {
    if |s| < 6 || s[..6] != "oklch(" then None else ReadChannels(s[6..])
  }

  /** The part after `oklch(`: two channels each followed by whitespace, a third, then `)`. */
  function ReadChannels(s: string): (r: Option<Oklch>)
    ensures r.Some? ==> r.value.Valid()
  {
    match ReadChannelAndSpace(s)
    case None => None
    case Some((l, rest1)) =>
      match ReadChannelAndSpace(rest1)
      case None => None
      case Some((c, rest2)) =>
        match ReadLastChannel(rest2)
        case None => None
        case Some(h) => Some(Oklch(l, c, h))
  }

  /** The third channel, which must be followed by `)` and nothing else. */
  function ReadLastChannel(s: string): (r: Option<Decimal>)
    ensures r.Some? ==> r.value.Valid()
  {
    match ReadDecimal(s)
    case None => None
    case Some((h, n)) => if s[n..] == ")" then Some(h) else None
  }

  predicate IsOklch(s: string) {
    ParseOklch(s).Some?
  }

  /** A channel written in front of a character that is neither digit nor point reads back whole. */
  lemma ReadDecimalShow(d: Decimal, rest: string)
    requires d.Valid()
    requires rest != [] && !IsDigit(rest[0]) && rest[0] != '.'
    ensures ReadDecimal(d.Show() + rest) == Some((d, |d.Show()|))
  {
    if d.frac == [] {
      ReadWholeShow(d.whole, rest);
    } else {
      ReadFractionShow(d.whole, d.frac, rest);
    }
  }

  lemma ReadWholeShow(w: string, rest: string)
    requires |w| > 0 && AllDigits(w)
    requires rest != [] && !IsDigit(rest[0]) && rest[0] != '.'
    ensures ReadDecimal(w + rest) == Some((Decimal(w, ""), |w|))
  {
    var s := w + rest;
    DigitRunOfPrefix(w, rest);
    assert s[..|w|] == w;
    assert s[|w|..] == rest;
  }

  lemma ReadFractionShow(w: string, f: string, rest: string)
    requires |w| > 0 && AllDigits(w) && |f| > 0 && AllDigits(f)
    requires rest != [] && !IsDigit(rest[0]) && rest[0] != '.'
    ensures ReadDecimal(w + "." + f + rest) == Some((Decimal(w, f), |w| + 1 + |f|))
  {
    var t := "." + (f + rest);
    var s := w + "." + f + rest;
    assert s == w + t;
    DigitRunOfPrefix(w, t);
    assert s[..|w|] == w;
    assert s[|w|..] == t;
    ReadFractionOf(w, f, rest);
  }

  lemma ReadFractionOf(w: string, f: string, rest: string)
    requires |w| > 0 && AllDigits(w) && |f| > 0 && AllDigits(f)
    requires rest != [] && !IsDigit(rest[0])
    ensures ReadFraction(w, "." + (f + rest)) == (Decimal(w, f), |w| + 1 + |f|)
  {
    var t := "." + (f + rest);
    assert t[1..] == f + rest;
    DigitRunOfPrefix(f, rest);
    assert t[1..][..|f|] == f;
  }

  lemma ReadChannelAndSpaceShow(d: Decimal, rest: string)
    requires d.Valid()
    requires rest != [] && !IsJsWhitespace(rest[0])
    ensures ReadChannelAndSpace(d.Show() + " " + rest) == Some((d, rest))
  {
    var s := d.Show() + " " + rest;
    assert s == d.Show() + (" " + rest);
    ReadDecimalShow(d, " " + rest);
    var n := |d.Show()|;
    assert s[n..] == " " + rest;
    WhitespaceRunOfSpace(rest);
    assert s[n + 1..] == rest;
  }

  lemma ReadLastChannelShow(d: Decimal)
    requires d.Valid()
    ensures ReadLastChannel(d.Show() + ")") == Some(d)
  {
    ReadDecimalShow(d, ")");
    assert (d.Show() + ")")[|d.Show()|..] == ")";
  }

  /** A well-formed channel is written starting with a digit. */
  lemma ShowStartsWithDigit(d: Decimal)
    requires d.Valid()
    ensures |d.Show()| > 0 && IsDigit(d.Show()[0])
  {
  }

  lemma ReadChannelsShow(o: Oklch)
    requires o.Valid()
    ensures ReadChannels(o.l.Show() + " " + (o.c.Show() + " " + (o.h.Show() + ")"))) == Some(o)
  {
    var rest2 := o.h.Show() + ")";
    var rest1 := o.c.Show() + " " + rest2;
    var body := o.l.Show() + " " + rest1;
    ShowStartsWithDigit(o.c);
    ShowStartsWithDigit(o.h);
    assert rest1[0] == o.c.Show()[0];
    assert rest2[0] == o.h.Show()[0];
    ReadChannelAndSpaceShow(o.l, rest1);
    assert ReadChannelAndSpace(body) == Some((o.l, rest1));
    ReadChannelAndSpaceShow(o.c, rest2);
    ReadLastChannelShow(o.h);
    assert ReadChannels(body) == Some(Oklch(o.l, o.c, o.h));
  }

  lemma ParsePrefixed(body: string)
    ensures ParseOklch("oklch(" + body) == ReadChannels(body)
  {
    var s := "oklch(" + body;
    assert s[..6] == "oklch(";
    assert s[6..] == body;
  }

  /** Round trip: writing a colour and matching it gives back its channels. */
  lemma {:induction false} ParseShow(o: Oklch)
    requires o.Valid()
    ensures ParseOklch(o.Show()) == Some(o)
  {
    var body := o.l.Show() + " " + (o.c.Show() + " " + (o.h.Show() + ")"));
    ReadChannelsShow(o);
    ParsePrefixed(body);
    ShowGrouped(o);
  }

  lemma ShowGrouped(o: Oklch)
    ensures o.Show() == "oklch(" + (o.l.Show() + " " + (o.c.Show() + " " + (o.h.Show() + ")")))
  {
  }

  // ---------------------------------------------------------------------
  // Spacing values: parseInt(value, 10) % 4 must be 0
  // ---------------------------------------------------------------------

  /** `parseInt(s, 10)`: None for NaN, else the sign and the magnitude. */
  function ParseInt(s: string): (r: Option<(bool, nat)>)
  {
    var w := WhitespaceRun(s);
    var t := s[w..];
    var neg := t != [] && t[0] == '-';
    var u := if t != [] && (t[0] == '-' || t[0] == '+') then t[1..] else t;
    DigitRunDigits(u);
    var d := DigitRun(u);
    if d == 0 then None else Some((neg, DigitsValue(u[..d])))
  }

  /**
   * The spacing test: `parseInt(value, 10) % 4` is `0`. NaN fails, and so
   * does every negative value, since JavaScript's `%` keeps the sign of the
   * dividend and `-0` is not `0` for `toBe`.
   */
  predicate OnSpacingGrid(s: string) {
    var r := ParseInt(s);
    r.Some? && !r.value.0 && r.value.1 % 4 == 0
  }

  /** A pixel length `<n>px` is on the grid exactly when n is a multiple of 4. */
  lemma {:induction false} PixelSpacing(n: nat)
    ensures ParseInt(NatStr(n) + "px") == Some((false, n))
    ensures OnSpacingGrid(NatStr(n) + "px") <==> n % 4 == 0
  {
    var s := NatStr(n) + "px";
    NatStrValue(n);
    assert WhitespaceRun(s) == 0 by {
      assert s[0] == NatStr(n)[0];
    }
    assert s[0..] == s;
    assert s[0] != '-' && s[0] != '+' by {
      assert s[0] == NatStr(n)[0];
    }
    DigitRunOfPrefix(NatStr(n), "px");
    assert s[..|NatStr(n)|] == NatStr(n);
  }

  // ---------------------------------------------------------------------
  // Validity of a whole token set
  // ---------------------------------------------------------------------

  predicate ValidScale(s: ColorScale) {
    forall i :: 0 <= i < 11 ==> IsOklch(s.Values()[i])
  }

  predicate ValidColors(c: ColorTokens) {
    forall r :: 0 <= r < 6 ==> ValidScale(c.Scales()[r])
  }

  predicate ValidSpacing(s: SpacingTokens) {
    forall i :: 0 <= i < 11 ==> OnSpacingGrid(s.Values()[i])
  }

  /**
   * The checked invariants of a token set. Key presence is guaranteed by the
   * closed records; what remains are the colour format and the 4px grid.
   */
  predicate ValidTheme(t: ThemeTokens) {
    ValidColors(t.colors) && ValidSpacing(t.spacing)
  }

}
