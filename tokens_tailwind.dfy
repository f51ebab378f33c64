/**
 * The Tailwind relabelling of a token set: the same records under the
 * field names a Tailwind `theme` configuration expects.
 */
module Tailwind {
  import opened Text
  import opened Tokens

  datatype TailwindTheme = TailwindTheme(
    colors: ColorTokens,
    spacing: SpacingTokens,
    fontFamily: FontFamilyTokens,
    fontSize: FontSizeTokens,
    fontWeight: FontWeightTokens,
    lineHeight: LineHeightTokens,
    borderRadius: RadiiTokens,
    boxShadow: ShadowTokens,
    transitionDuration: TransitionTokens)

  /** `toTailwindTheme`: each Tailwind field reads one record of the token set. */
  function ToTailwindTheme(t: ThemeTokens): TailwindTheme {
    TailwindTheme(
      t.colors, t.spacing,
      t.typography.fontFamily, t.typography.fontSize, t.typography.fontWeight, t.typography.lineHeight,
      t.radii, t.shadows, t.transitions)
  }

  /** The relabelling read backwards: typography regrouped, the other fields renamed back. */
  function FromTailwindTheme(tw: TailwindTheme): ThemeTokens {
    ThemeTokens(
      tw.colors, tw.spacing,
      TypographyTokens(tw.fontFamily, tw.fontSize, tw.fontWeight, tw.lineHeight),
      tw.borderRadius, tw.boxShadow, tw.transitionDuration)
  }

  /** No field is dropped: the token set can be read back from its Tailwind form. */
  lemma FromToTailwind(t: ThemeTokens)
    ensures FromTailwindTheme(ToTailwindTheme(t)) == t
  {
  }

  /** No field is invented: every Tailwind theme is the relabelling of one token set. */
  lemma ToFromTailwind(tw: TailwindTheme)
    ensures ToTailwindTheme(FromTailwindTheme(tw)) == tw
  {
  }

  /** The relabelling is one-to-one. */
  lemma TailwindInjective(t1: ThemeTokens, t2: ThemeTokens)
    requires ToTailwindTheme(t1) == ToTailwindTheme(t2)
    ensures t1 == t2
  {
    FromToTailwind(t1);
    FromToTailwind(t2);
  }

  // ---------------------------------------------------------------------
  // Reading one token by key, as `record[key]` does
  // ---------------------------------------------------------------------

  /** `record[key]` on a record of strings: the value under `key`, or None for `undefined`. */
  function Lookup(e: seq<(string, string)>, key: string): (r: Option<string>)
    ensures r.None? <==> forall i :: 0 <= i < |e| ==> e[i].0 != key
    ensures r.Some? ==> (key, r.value) in e
  {
    if e == [] then None
    else if e[0].0 == key then Some(e[0].1)
    else Lookup(e[1..], key)
  }

  predicate DistinctKeys(keys: seq<string>) {
    forall i, j :: 0 <= i < j < |keys| ==> keys[i] != keys[j]
  }

  /** With distinct keys, reading key i of a record gives value i. */
  lemma {:induction false} LookupZip(keys: seq<string>, values: seq<string>, i: nat)
    requires |keys| == |values| && DistinctKeys(keys) && i < |keys|
    ensures Lookup(Zip(keys, values), keys[i]) == Some(values[i])
  {
    if i > 0 {
      assert keys[0] != keys[i];
      assert DistinctKeys(keys[1..]) by {
        forall a, b | 0 <= a < b < |keys| - 1 ensures keys[1..][a] != keys[1..][b] {
          assert keys[1..][a] == keys[a + 1] && keys[1..][b] == keys[b + 1];
        }
      }
      LookupZip(keys[1..], values[1..], i - 1);
    }
  }

  /** The token groups a consumer can read, named as in the token set. */
  datatype Group =
    | Colors(role: nat)
    | Spacing
    | FontFamily
    | FontSize
    | FontWeight
    | LineHeight
    | Radii
    | Shadows
    | Transitions

  /** `theme.<group>[key]` on the token set. */
  function ThemeValue(t: ThemeTokens, g: Group, key: string): Option<string> {
    match g
    case Colors(r) => if r < 6 then Lookup(t.colors.Scales()[r].Entries(), key) else None
    case Spacing => Lookup(t.spacing.Entries(), key)
    case FontFamily => Lookup(t.typography.fontFamily.Entries(), key)
    case FontSize => Lookup(t.typography.fontSize.Entries(), key)
    case FontWeight => Lookup(t.typography.fontWeight.Entries(), key)
    case LineHeight => Lookup(t.typography.lineHeight.Entries(), key)
    case Radii => Lookup(t.radii.Entries(), key)
    case Shadows => Lookup(t.shadows.Entries(), key)
    case Transitions => Lookup(t.transitions.Entries(), key)
  }

  /** The same token read from the Tailwind form, under Tailwind's field names. */
  function TailwindValue(tw: TailwindTheme, g: Group, key: string): Option<string> {
    match g
    case Colors(r) => if r < 6 then Lookup(tw.colors.Scales()[r].Entries(), key) else None
    case Spacing => Lookup(tw.spacing.Entries(), key)
    case FontFamily => Lookup(tw.fontFamily.Entries(), key)
    case FontSize => Lookup(tw.fontSize.Entries(), key)
    case FontWeight => Lookup(tw.fontWeight.Entries(), key)
    case LineHeight => Lookup(tw.lineHeight.Entries(), key)
    case Radii => Lookup(tw.borderRadius.Entries(), key)
    case Shadows => Lookup(tw.boxShadow.Entries(), key)
    case Transitions => Lookup(tw.transitionDuration.Entries(), key)
  }

  /** Single source of truth: every token reads the same through the Tailwind form. */
  lemma SingleSourceOfTruth(t: ThemeTokens, g: Group, key: string)
    ensures TailwindValue(ToTailwindTheme(t), g, key) == ThemeValue(t, g, key)
  {
  }

  /** Reading colour role r, shade k of the Tailwind form gives that shade of the token set. */
  lemma TailwindColor(t: ThemeTokens, r: nat, k: nat)
    requires r < 6 && k < 11
    ensures TailwindValue(ToTailwindTheme(t), Colors(r), ShadeKeys[k]) == Some(t.colors.Scales()[r].Values()[k])
  {
    LookupZip(ShadeKeys, t.colors.Scales()[r].Values(), k);
  }

  /** Reading spacing step k of the Tailwind form gives that step of the token set. */
  lemma TailwindSpacing(t: ThemeTokens, k: nat)
    requires k < 11
    ensures TailwindValue(ToTailwindTheme(t), Spacing, SpacingKeys[k]) == Some(t.spacing.Values()[k])
  {
    LookupZip(SpacingKeys, t.spacing.Values(), k);
  }

  /** Radii, shadows and transitions read under `borderRadius`, `boxShadow`, `transitionDuration`. */
  lemma TailwindRadiiShadowsTransitions(t: ThemeTokens, k: nat)
    ensures k < 6 ==> Lookup(ToTailwindTheme(t).borderRadius.Entries(), RadiiKeys[k]) == Some(t.radii.Entries()[k].1)
    ensures k < 3 ==> Lookup(ToTailwindTheme(t).boxShadow.Entries(), ShadowKeys[k]) == Some(t.shadows.Entries()[k].1)
    ensures k < 3 ==> Lookup(ToTailwindTheme(t).transitionDuration.Entries(), TransitionKeys[k]) == Some(t.transitions.Entries()[k].1)
  {
    var r, s, tr := t.radii, t.shadows, t.transitions;
    if k < 6 {
      LookupZip(RadiiKeys, [r.none, r.sm, r.md, r.lg, r.xl, r.full], k);
    }
    if k < 3 {
      LookupZip(ShadowKeys, [s.sm, s.md, s.lg], k);
      LookupZip(TransitionKeys, [tr.fast, tr.normal, tr.slow], k);
    }
  }
}
