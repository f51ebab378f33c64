/**
 * The dark variant of the token set and the `.dark { … }` block of its
 * colour custom properties.
 *
 * The dark colours are a hand-written table of oklch strings. Each entry is
 * kept here as its three channels in fixed point: lightness and chroma in
 * hundredths (`0.20` is 20, a chroma written `0` is 0) and the hue in
 * degrees; `DarkColors()` writes every entry out as the string the table holds.
 */
module DarkTheme {
  import opened Text
  import opened Tokens
  import opened Serializer

  /** Lightness, chroma (hundredths) and hue of role r's entries, shades 50 .. 950. */
  function DarkRow(r: nat): (row: seq<(nat, nat, nat)>)
    requires r < 6
    ensures |row| == 11
  {
    if r == 0 then // primary
      [(20, 10, 250), (28, 12, 250), (36, 14, 250), (44, 16, 250), (52, 18, 250), (60, 20, 250),
       (70, 16, 250), (80, 12, 250), (88, 8, 250), (94, 4, 250), (97, 2, 250)]
    else if r == 1 then // secondary
      [(20, 5, 280), (28, 6, 280), (36, 7, 280), (44, 8, 280), (52, 9, 280), (60, 10, 280),
       (70, 8, 280), (80, 6, 280), (88, 4, 280), (94, 2, 280), (97, 1, 280)]
    else if r == 2 then // success
      [(20, 10, 145), (28, 12, 145), (36, 14, 145), (44, 16, 145), (52, 18, 145), (60, 20, 145),
       (70, 18, 145), (80, 14, 145), (88, 10, 145), (94, 6, 145), (97, 3, 145)]
    else if r == 3 then // warning
      [(30, 10, 85), (38, 12, 85), (46, 14, 85), (54, 16, 85), (62, 18, 85), (70, 20, 85),
       (75, 18, 85), (80, 16, 85), (88, 12, 85), (94, 6, 85), (97, 3, 85)]
    else if r == 4 then // danger
      [(20, 12, 25), (28, 14, 25), (36, 16, 25), (44, 18, 25), (52, 20, 25), (60, 22, 25),
       (70, 18, 25), (80, 14, 25), (88, 8, 25), (94, 4, 25), (97, 2, 25)]
    else // neutral
      [(13, 0, 0), (20, 0, 0), (27, 0, 0), (37, 0, 0), (45, 0, 0), (55, 0, 0),
       (70, 0, 0), (83, 0, 0), (90, 0, 0), (96, 0, 0), (98, 0, 0)]
  }

  /** The table: row r is role r in the order primary, secondary, success, warning, danger, neutral. */
  function DarkTable(): seq<seq<(nat, nat, nat)>> {
    seq(6, r requires 0 <= r < 6 => DarkRow(r))
  }

  predicate Entry(e: (nat, nat, nat)) {
    e.0 < 100 && e.1 < 100
  }

  // The checks below walk a row entry by entry from position i, so that
  // each written-out row can be checked by evaluation.

  /** Every entry from i on has lightness and chroma below one. */
  predicate BelowOneFrom(row: seq<(nat, nat, nat)>, i: nat)
    decreases |row| - i
  {
    i >= |row| || (Entry(row[i]) && BelowOneFrom(row, i + 1))
  }

  /** Every entry from i on has hue h. */
  predicate HueFrom(row: seq<(nat, nat, nat)>, h: nat, i: nat)
    decreases |row| - i
  {
    i >= |row| || (row[i].2 == h && HueFrom(row, h, i + 1))
  }

  /** From i on, each entry is lighter than the one before it. */
  predicate RisingFrom(row: seq<(nat, nat, nat)>, i: nat)
    decreases |row| - i
  {
    i + 1 >= |row| || (row[i].0 < row[i + 1].0 && RisingFrom(row, i + 1))
  }

  lemma {:induction false} BelowOneAt(row: seq<(nat, nat, nat)>, i: nat, k: nat)
    requires BelowOneFrom(row, i) && i <= k < |row|
    ensures Entry(row[k])
    decreases k - i
  {
    if i < k {
      BelowOneAt(row, i + 1, k);
    }
  }

  lemma {:induction false} HueAt(row: seq<(nat, nat, nat)>, h: nat, i: nat, k: nat)
    requires HueFrom(row, h, i) && i <= k < |row|
    ensures row[k].2 == h
    decreases k - i
  {
    if i < k {
      HueAt(row, h, i + 1, k);
    }
  }

  lemma {:induction false} RisingAt(row: seq<(nat, nat, nat)>, i: nat, k: nat)
    requires RisingFrom(row, i) && i <= k && k + 1 < |row|
    ensures row[k].0 < row[k + 1].0
    decreases k - i
  {
    if i < k {
      RisingAt(row, i + 1, k);
    }
  }

  /** Everything the table promises of one row, with h the row's hue. */
  predicate RowPromises(row: seq<(nat, nat, nat)>, h: nat) {
    |row| == 11 && BelowOneFrom(row, 0) && HueFrom(row, h, 0) && RisingFrom(row, 0)
    && row[0].0 < 50 && row[1].0 < 50 && row[9].0 > 50 && row[10].0 > 50
  }

  lemma PrimaryPromises()
    ensures RowPromises(DarkRow(0), 250)
  {
  }

  lemma SecondaryPromises()
    ensures RowPromises(DarkRow(1), 280)
  {
  }

  lemma SuccessPromises()
    ensures RowPromises(DarkRow(2), 145)
  {
  }

  lemma WarningPromises()
    ensures RowPromises(DarkRow(3), 85)
  {
  }

  lemma DangerPromises()
    ensures RowPromises(DarkRow(4), 25)
  {
  }

  lemma NeutralPromises()
    ensures RowPromises(DarkRow(5), 0)
  {
  }

  /** What each written-out row satisfies, checked row by row. */
  lemma RowChecks(r: nat)
    requires r < 6
    ensures RowPromises(DarkRow(r), DarkRow(r)[0].2)
  {
    if r == 0 { PrimaryPromises(); }
    else if r == 1 { SecondaryPromises(); }
    else if r == 2 { SuccessPromises(); }
    else if r == 3 { WarningPromises(); }
    else if r == 4 { DangerPromises(); }
    else { NeutralPromises(); }
  }

  lemma TableShape()
    ensures TableShaped(DarkTable())
  {
    forall r | 0 <= r < 6 ensures |DarkTable()[r]| == 11 && EntryRow(DarkTable()[r]) {
      RowChecks(r);
      forall k | 0 <= k < 11 ensures Entry(DarkTable()[r][k]) {
        BelowOneAt(DarkRow(r), 0, k);
      }
    }
  }

  /** Two decimal digits, with a leading zero below ten. */
  function TwoDigits(n: nat): string
    requires n < 100
  {
    [DigitChar(n / 10), DigitChar(n % 10)]
  }

  /** `0.<two digits>`. */
  function Hundredths(n: nat): Decimal
    requires n < 100
  {
    Decimal("0", TwoDigits(n))
  }

  /** A chroma: `0` when zero, `0.<two digits>` otherwise. */
  function Chroma(n: nat): Decimal
    requires n < 100
  {
    if n == 0 then Decimal("0", "") else Hundredths(n)
  }

  function ChannelsOf(e: (nat, nat, nat)): Oklch
    requires Entry(e)
  {
    Oklch(Hundredths(e.0), Chroma(e.1), Decimal(NatStr(e.2), ""))
  }

  /** Six roles of eleven entries, each with lightness and chroma below one. */
  predicate TableShaped(table: seq<seq<(nat, nat, nat)>>) {
    |table| == 6 && RowsShaped(table)
  }

  predicate EntryRow(row: seq<(nat, nat, nat)>) {
    forall k :: 0 <= k < |row| ==> Entry(row[k])
  }

  /** One role's strings, lightest first. */
  function RowOf(row: seq<(nat, nat, nat)>): seq<string>
    requires EntryRow(row)
  {
    if row == [] then [] else [ChannelsOf(row[0]).Show()] + RowOf(row[1..])
  }

  lemma {:induction false} RowAt(row: seq<(nat, nat, nat)>, k: nat)
    requires EntryRow(row) && k < |row|
    ensures |RowOf(row)| == |row| && RowOf(row)[k] == ChannelsOf(row[k]).Show()
  {
    if k > 0 {
      RowAt(row[1..], k - 1);
    } else if |row| > 1 {
      RowAt(row[1..], 0);
    }
  }

  /** Each row of eleven entries with lightness and chroma below one. */
  predicate RowsShaped(rows: seq<seq<(nat, nat, nat)>>) {
    forall r :: 0 <= r < |rows| ==> |rows[r]| == 11 && EntryRow(rows[r])
  }

  /** The colour scales the rows write out, one per row. */
  function ScalesOf(rows: seq<seq<(nat, nat, nat)>>): (s: seq<ColorScale>)
    requires RowsShaped(rows)
    ensures |s| == |rows|
  {
    if rows == [] then []
    else
      RowAt(rows[0], 0);
      [ScaleOf(RowOf(rows[0]))] + ScalesOf(rows[1..])
  }

  lemma {:induction false} ScalesAt(rows: seq<seq<(nat, nat, nat)>>, r: nat, k: nat)
    requires RowsShaped(rows) && r < |rows| && k < 11
    ensures ScalesOf(rows)[r].Values()[k] == ChannelsOf(rows[r][k]).Show()
  {
    if r > 0 {
      ScalesAt(rows[1..], r - 1, k);
    } else {
      RowAt(rows[0], k);
      RowAt(rows[0], 0);
    }
  }

  /** The six scales in role order. */
  function Roles(s: seq<ColorScale>): (c: ColorTokens)
    requires |s| == 6
    ensures c.Scales() == s
  {
    ColorTokens(s[0], s[1], s[2], s[3], s[4], s[5])
  }

  /** The palette a channel table writes out, role r being the r-th row. */
  function PaletteOf(table: seq<seq<(nat, nat, nat)>>): ColorTokens
    requires TableShaped(table)
  {
    Roles(ScalesOf(table))
  }

  /** Role r, shade k of the palette is entry (r, k) of the table written out. */
  lemma PaletteEntry(table: seq<seq<(nat, nat, nat)>>, r: nat, k: nat)
    requires TableShaped(table) && r < 6 && k < 11
    ensures PaletteOf(table).Scales()[r].Values()[k] == ChannelsOf(table[r][k]).Show()
  {
    ScalesAt(table, r, k);
  }

  /** The `darkTheme` colours. */
  function DarkColors(): ColorTokens {
    TableShape();
    PaletteOf(DarkTable())
  }

  /** `darkTheme`: the light theme spread, with `colors` replaced by the dark table. */
  function Dark(light: ThemeTokens): ThemeTokens {
    light.(colors := DarkColors())
  }

  /** Only colours change: putting the light colours back gives the light theme. */
  lemma OnlyColorsChange(light: ThemeTokens)
    ensures Dark(light).colors == DarkColors()
    ensures Dark(light).(colors := light.colors) == light
  {
  }

  // ---------------------------------------------------------------------
  // Reading the written-out entries back
  // ---------------------------------------------------------------------

  /** Role r, shade k of the dark colours is entry k of row r written out. */
  lemma DarkEntry(r: nat, k: nat)
    requires r < 6 && k < 11
    ensures Entry(DarkRow(r)[k])
    ensures DarkColors().Scales()[r].Values()[k] == ChannelsOf(DarkRow(r)[k]).Show()
  {
    TableShape();
    PaletteEntry(DarkTable(), r, k);
    assert DarkTable()[r][k] == DarkRow(r)[k];
  }

  lemma SpellPrimary500()
    ensures Entry(DarkRow(0)[5]) && ChannelsOf(DarkRow(0)[5]).Show() == "oklch(0.60 0.20 250)"
  {
    var e := DarkRow(0)[5];
    assert e == (60, 20, 250);
    assert TwoDigits(60) == "60" && TwoDigits(20) == "20" && NatStr(250) == "250";
    var o := Oklch(Decimal("0", "60"), Decimal("0", "20"), Decimal("250", ""));
    assert ChannelsOf(e) == o;
    assert o.Show() == "oklch(0.60 0.20 250)";
  }

  lemma SpellNeutral50()
    ensures Entry(DarkRow(5)[0]) && ChannelsOf(DarkRow(5)[0]).Show() == "oklch(0.13 0 0)"
  {
    var e := DarkRow(5)[0];
    assert e == (13, 0, 0);
    assert TwoDigits(13) == "13" && NatStr(0) == "0";
    var o := Oklch(Decimal("0", "13"), Decimal("0", ""), Decimal("0", ""));
    assert ChannelsOf(e) == o;
    assert o.Show() == "oklch(0.13 0 0)";
  }

  lemma NamedSlots(c: ColorTokens)
    ensures c.Scales()[0].Values()[5] == c.primary.s500
    ensures c.Scales()[5].Values()[0] == c.neutral.s50
  {
  }

  lemma Primary500Entry()
    ensures DarkColors().Scales()[0].Values()[5] == "oklch(0.60 0.20 250)"
  {
    DarkEntry(0, 5);
    SpellPrimary500();
  }

  lemma Neutral50Entry()
    ensures DarkColors().Scales()[5].Values()[0] == "oklch(0.13 0 0)"
  {
    DarkEntry(5, 0);
    SpellNeutral50();
  }

  /** Primary 500 and neutral 50, two entries the dark CSS test looks for, spelled as in the table. */
  lemma SpelledEntries()
    ensures DarkColors().primary.s500 == "oklch(0.60 0.20 250)"
    ensures DarkColors().neutral.s50 == "oklch(0.13 0 0)"
  {
    Primary500Entry();
    Neutral50Entry();
    NamedSlots(DarkColors());
  }

  /** `0.<two digits>` is a well-formed channel worth n hundredths. */
  lemma HundredthsValue(n: nat)
    requires n < 100
    ensures Hundredths(n).Valid()
    ensures Hundredths(n).Num() == n && Hundredths(n).Den() == 100
  {
    var d := Hundredths(n);
    var s := d.whole + d.frac;
    assert s == ['0', DigitChar(n / 10), DigitChar(n % 10)];
    assert s[..2][..1] == ['0'];
    assert DigitsValue(s[..2][..1]) == 0 by {
      assert s[..2][..1][..0] == [];
    }
    assert DigitsValue(s[..2]) == n / 10;
    assert DigitsValue(s) == n;
    assert d.Den() == 100 by {
      assert Pow10(2) == 100;
    }
  }

  lemma ChannelsValid(e: (nat, nat, nat))
    requires Entry(e)
    ensures ChannelsOf(e).Valid()
    ensures ChannelsOf(e).l.Num() == e.0 && ChannelsOf(e).l.Den() == 100
    ensures ChannelsOf(e).h == Decimal(NatStr(e.2), "")
  {
    HundredthsValue(e.0);
    if e.1 != 0 {
      HundredthsValue(e.1);
    }
    NatStrValue(e.2);
  }

  /** Matching a written-out entry against the oklch pattern gives back its channels. */
  lemma PaletteParsed(table: seq<seq<(nat, nat, nat)>>, r: nat, k: nat)
    requires TableShaped(table) && r < 6 && k < 11
    ensures ParseOklch(PaletteOf(table).Scales()[r].Values()[k]) == Some(ChannelsOf(table[r][k]))
  {
    PaletteEntry(table, r, k);
    ChannelsValid(table[r][k]);
    ParseShow(ChannelsOf(table[r][k]));
  }

  /** Every dark colour matches `oklch(<d>[.<d>] <d>[.<d>] <d>[.<d>])`. */
  lemma DarkColorsValid()
    ensures ValidColors(DarkColors())
  {
    TableShape();
    forall r, k | 0 <= r < 6 && 0 <= k < 11 ensures IsOklch(DarkColors().Scales()[r].Values()[k]) {
      PaletteParsed(DarkTable(), r, k);
    }
  }

  // ---------------------------------------------------------------------
  // Hue and lightness along each role
  // ---------------------------------------------------------------------

  /** Within each role every entry has the hue of the first. */
  predicate HuesConstant(table: seq<seq<(nat, nat, nat)>>)
    requires TableShaped(table)
  {
    forall r, k :: 0 <= r < 6 && 0 <= k < 11 ==> table[r][k].2 == table[r][0].2
  }

  /** Within each role the lightness column strictly increases. */
  predicate LightnessSteps(table: seq<seq<(nat, nat, nat)>>)
    requires TableShaped(table)
  {
    forall r, k :: 0 <= r < 6 && 0 <= k < 10 ==> table[r][k].0 < table[r][k + 1].0
  }

  lemma TableHues()
    ensures TableShaped(DarkTable()) && HuesConstant(DarkTable())
  {
    TableShape();
    forall r, k | 0 <= r < 6 && 0 <= k < 11 ensures DarkTable()[r][k].2 == DarkTable()[r][0].2 {
      RowChecks(r);
      HueAt(DarkRow(r), DarkRow(r)[0].2, 0, k);
    }
  }

  lemma TableLightnessSteps()
    ensures TableShaped(DarkTable()) && LightnessSteps(DarkTable())
  {
    TableShape();
    forall r, k | 0 <= r < 6 && 0 <= k < 10 ensures DarkTable()[r][k].0 < DarkTable()[r][k + 1].0 {
      RowChecks(r);
      RisingAt(DarkRow(r), 0, k);
    }
  }

  /** In a table with constant hues, every written-out shade of a role reads back with one hue. */
  lemma PaletteHue(table: seq<seq<(nat, nat, nat)>>, r: nat, k: nat)
    requires TableShaped(table) && HuesConstant(table) && r < 6 && k < 11
    ensures var p, q := ParseOklch(PaletteOf(table).Scales()[r].Values()[k]),
                        ParseOklch(PaletteOf(table).Scales()[r].Values()[0]);
            p.Some? && q.Some? && p.value.h == q.value.h
  {
    PaletteParsed(table, r, k);
    PaletteParsed(table, r, 0);
    ChannelsValid(table[r][k]);
    ChannelsValid(table[r][0]);
  }

  /** Within a role every shade has the hue of shade 50. */
  lemma HueConstant(r: nat, k: nat)
    requires r < 6 && k < 11
    ensures var p, q := ParseOklch(DarkColors().Scales()[r].Values()[k]),
                        ParseOklch(DarkColors().Scales()[r].Values()[0]);
            p.Some? && q.Some? && p.value.h == q.value.h
  {
    TableHues();
    PaletteHue(DarkTable(), r, k);
  }

  /** The lightness a/b of channel `a` is below that of channel `b`. */
  predicate Darker(a: Decimal, b: Decimal)
    requires a.Valid() && b.Valid()
  {
    a.Num() * b.Den() < b.Num() * a.Den()
  }

  lemma {:induction false} StepsIncreasing(table: seq<seq<(nat, nat, nat)>>, r: nat, i: nat, j: nat)
    requires TableShaped(table) && LightnessSteps(table)
    requires r < 6 && i < j < 11
    ensures table[r][i].0 < table[r][j].0
  {
    if i + 1 < j {
      StepsIncreasing(table, r, i, j - 1);
    }
  }

  /** In a table whose lightness rises along each role, so do the written-out shades. */
  lemma PaletteLightness(table: seq<seq<(nat, nat, nat)>>, r: nat, i: nat, j: nat)
    requires TableShaped(table) && LightnessSteps(table) && r < 6 && i < j < 11
    ensures var p, q := ParseOklch(PaletteOf(table).Scales()[r].Values()[i]),
                        ParseOklch(PaletteOf(table).Scales()[r].Values()[j]);
            p.Some? && q.Some? && Darker(p.value.l, q.value.l)
  {
    PaletteParsed(table, r, i);
    PaletteParsed(table, r, j);
    ChannelsValid(table[r][i]);
    ChannelsValid(table[r][j]);
    StepsIncreasing(table, r, i, j);
  }

  /** Within a role lightness strictly increases from shade 50 to shade 950. */
  lemma LightnessIncreasing(r: nat, i: nat, j: nat)
    requires r < 6 && i < j < 11
    ensures var p, q := ParseOklch(DarkColors().Scales()[r].Values()[i]),
                        ParseOklch(DarkColors().Scales()[r].Values()[j]);
            p.Some? && q.Some? && Darker(p.value.l, q.value.l)
  {
    TableLightnessSteps();
    PaletteLightness(DarkTable(), r, i, j);
  }

  // ---------------------------------------------------------------------
  // Dark against light on the edge shades
  // ---------------------------------------------------------------------

  /** The colour is an oklch string whose lightness is above one half. */
  predicate LightAbove(v: string) {
    var p := ParseOklch(v);
    p.Some? && 2 * p.value.l.Num() > p.value.l.Den()
  }

  /** The colour is an oklch string whose lightness is below one half. */
  predicate LightBelow(v: string) {
    var p := ParseOklch(v);
    p.Some? && 2 * p.value.l.Num() < p.value.l.Den()
  }

  predicate EdgeShade(k: nat) {
    k == 0 || k == 1 || k == 9 || k == 10
  }

  /** On edge shade k a light-to-dark scale is lighter than one half at 50 and 100, darker at 900 and 950. */
  predicate LightEdgeAt(v: string, k: nat) {
    if k <= 1 then LightAbove(v) else LightBelow(v)
  }

  /** On edge shade k a dark-to-light scale is the other way round. */
  predicate DarkEdgeAt(v: string, k: nat) {
    if k <= 1 then LightBelow(v) else LightAbove(v)
  }

  /**
   * The assumption made about the light palette's values: lightness above one
   * half at shades 50 and 100 and below it at 900 and 950.
   */
  predicate LightEdges(c: ColorTokens) {
    forall r, k :: 0 <= r < 6 && 0 <= k < 11 && EdgeShade(k) ==> LightEdgeAt(c.Scales()[r].Values()[k], k)
  }

  /** A colour lighter than one half is not a colour darker than one half. */
  lemma AboveNotBelow(v: string, w: string)
    requires LightAbove(v) && LightBelow(w)
    ensures v != w
  {
    var p, q := ParseOklch(v), ParseOklch(w);
    assert 2 * p.value.l.Num() > p.value.l.Den();
    assert 2 * q.value.l.Num() < q.value.l.Den();
  }

  /** On an edge shade a dark-side colour and a light-side colour differ. */
  lemma OppositeEdges(d: string, l: string, k: nat)
    requires DarkEdgeAt(d, k) && LightEdgeAt(l, k)
    ensures d != l
  {
    if k <= 1 {
      AboveNotBelow(l, d);
    } else {
      AboveNotBelow(d, l);
    }
  }

  /** Shades 50 and 100 of every role are darker than one half, 900 and 950 lighter. */
  predicate DarkEdgeColumns(table: seq<seq<(nat, nat, nat)>>)
    requires TableShaped(table)
  {
    forall r :: 0 <= r < 6 ==>
      table[r][0].0 < 50 && table[r][1].0 < 50 && table[r][9].0 > 50 && table[r][10].0 > 50
  }

  lemma TableEdges()
    ensures TableShaped(DarkTable()) && DarkEdgeColumns(DarkTable())
  {
    TableShape();
    forall r | 0 <= r < 6
      ensures DarkTable()[r][0].0 < 50 && DarkTable()[r][1].0 < 50
      ensures DarkTable()[r][9].0 > 50 && DarkTable()[r][10].0 > 50
    {
      RowChecks(r);
    }
  }

  lemma PaletteBelow(table: seq<seq<(nat, nat, nat)>>, r: nat, k: nat)
    requires TableShaped(table) && r < 6 && k < 11 && table[r][k].0 < 50
    ensures LightBelow(PaletteOf(table).Scales()[r].Values()[k])
  {
    PaletteParsed(table, r, k);
    ChannelsValid(table[r][k]);
  }

  lemma PaletteAbove(table: seq<seq<(nat, nat, nat)>>, r: nat, k: nat)
    requires TableShaped(table) && r < 6 && k < 11 && table[r][k].0 > 50
    ensures LightAbove(PaletteOf(table).Scales()[r].Values()[k])
  {
    PaletteParsed(table, r, k);
    ChannelsValid(table[r][k]);
  }

  /** A table dark on its first two columns and light on its last two writes out dark-to-light edges. */
  lemma PaletteEdges(table: seq<seq<(nat, nat, nat)>>, r: nat, k: nat)
    requires TableShaped(table) && DarkEdgeColumns(table) && r < 6 && k < 11 && EdgeShade(k)
    ensures DarkEdgeAt(PaletteOf(table).Scales()[r].Values()[k], k)
  {
    if k <= 1 {
      PaletteBelow(table, r, k);
    } else {
      PaletteAbove(table, r, k);
    }
  }

  /** The dark table is the other way round: 50 and 100 below half lightness, 900 and 950 above. */
  lemma DarkEdges(r: nat, k: nat)
    requires r < 6 && k < 11 && EdgeShade(k)
    ensures DarkEdgeAt(DarkColors().Scales()[r].Values()[k], k)
  {
    TableEdges();
    PaletteEdges(DarkTable(), r, k);
  }

  /**
   * For every role and the edge shades 50, 100, 900 and 950, the dark value
   * differs from the light one, given a light palette whose edge shades are as
   * `LightEdges` assumes.
   */
  lemma EdgeShadesDiffer(light: ThemeTokens, r: nat, k: nat)
    requires LightEdges(light.colors)
    requires r < 6 && k < 11 && EdgeShade(k)
    ensures Dark(light).colors.Scales()[r].Values()[k] != light.colors.Scales()[r].Values()[k]
  {
    DarkEdges(r, k);
    OppositeEdges(DarkColors().Scales()[r].Values()[k], light.colors.Scales()[r].Values()[k], k);
  }

  // ---------------------------------------------------------------------
  // generateDarkModeCSS
  // ---------------------------------------------------------------------

  /** The lines `generateDarkModeCSS` joins: `.dark {`, the colour declarations, `}`. */
  function DarkLines(c: ColorTokens): seq<string> {
    [".dark {"] + ColorDecls(c, 6) + ["}"]
  }

  /**
   * `generateDarkModeCSS`: the colour declarations of the second argument in
   * a `.dark` block; the first argument is not read.
   */
  method GenerateDarkModeCSS(lightTheme: ThemeTokens, darkTokens: ThemeTokens) returns (css: string)
    ensures css == Join(DarkLines(darkTokens.colors), "\n")
  {
    var lines := PushColorDecls([".dark {"], darkTokens.colors);
    lines := lines + ["}"];
    css := Join(lines, "\n");
  }

  /** The block is `.dark {`, 66 declarations and `}`. */
  lemma DarkLinesShape(c: ColorTokens)
    ensures |DarkLines(c)| == 68
    ensures DarkLines(c)[0] == ".dark {" && DarkLines(c)[67] == "}"
  {
  }

  /** Line 1 + 11r + k declares role r, shade k of the given colours: role-major, shade-minor. */
  lemma DarkLine(c: ColorTokens, r: nat, k: nat)
    requires r < 6 && k < 11
    ensures DarkLines(c)[1 + 11 * r + k] == Decl("color-" + RoleKeys[r] + "-", ShadeKeys[k], c.Scales()[r].Values()[k])
  {
    ColorDeclsAt(c, 6, r, k);
    assert DarkLines(c)[1 + 11 * r + k] == ColorDecls(c, 6)[11 * r + k];
  }

  /** A declaration under a `color-` prefix starts with `  --color-`. */
  lemma ColorDeclHead(role: string, key: string, value: string)
    ensures |Decl("color-" + role + "-", key, value)| >= 10
    ensures Decl("color-" + role + "-", key, value)[..10] == "  --color-"
  {
    var rest := role + "-" + key + ": " + value + ";";
    calc {
      Decl("color-" + role + "-", key, value);
      "  --" + ("color-" + role + "-") + key + ": " + value + ";";
      { assert "  --" + ("color-" + role + "-") == "  --color-" + role + "-"; }
      "  --color-" + rest;
    }
    assert ("  --color-" + rest)[..10] == "  --color-";
  }

  /** Every declaration of the block is a colour declaration. */
  lemma OnlyColorDeclarations(c: ColorTokens, i: nat)
    requires 1 <= i < 67
    ensures |DarkLines(c)[i]| >= 10 && DarkLines(c)[i][..10] == "  --color-"
  {
    var r, k := (i - 1) / 11, (i - 1) % 11;
    DarkLine(c, r, k);
    ColorDeclHead(RoleKeys[r], ShadeKeys[k], c.Scales()[r].Values()[k]);
  }

  /** The declarations are exactly the colour lines of `tokensToCSS` for the same token set. */
  lemma SameColorLines(t: ThemeTokens)
    ensures DarkLines(t.colors)[1..67] == RootLines(t)[1..67]
  {
    ColorBlock(t);
  }

  /** Splitting the dark CSS text at newlines gives back exactly its lines. */
  lemma DarkCssLines(c: ColorTokens)
    requires SingleLineColors(c)
    ensures Split(Join(DarkLines(c), "\n"), '\n') == DarkLines(c)
  {
    ColorDeclsSingleLine(c, 6);
    ConcatSingleLine([".dark {"], ColorDecls(c, 6));
    ConcatSingleLine([".dark {"] + ColorDecls(c, 6), ["}"]);
    SplitJoin(DarkLines(c), '\n');
  }
}
